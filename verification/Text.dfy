/** Characters and white space of ASCII configuration text. */
module Text {

  /** Input the lexer is modelled on: every character is one byte wide. */
  type Ascii = s: string | IsAscii(s)

  predicate IsAscii(s: string) {
    forall i :: 0 <= i < |s| ==> s[i] < 128 as char
  }

  /** Go's unicode.IsSpace on ASCII. */
  predicate IsSpace(c: char) {
    c == ' ' || '\t' <= c <= '\r'
  }

  predicate IsDigit(c: char) {
    '0' <= c <= '9'
  }

  predicate IsLetter(c: char) {
    'a' <= c <= 'z' || 'A' <= c <= 'Z'
  }

  predicate IsNameRune(c: char) {
    c == '-' || c == '_' || c == ' ' || IsLetter(c) || IsDigit(c)
  }

  /** A string of white space only. */
  predicate Blank(s: string) {
    forall i :: 0 <= i < |s| ==> IsSpace(s[i])
  }

  predicate NameRunes(s: string) {
    forall i :: 0 <= i < |s| ==> IsNameRune(s[i])
  }

  /** The first position from i on that does not hold white space. */
  function SkipSpace(s: string, i: nat): (k: nat)
    requires i <= |s|
    ensures i <= k <= |s|
    ensures forall j :: i <= j < k ==> IsSpace(s[j])
    ensures k < |s| ==> !IsSpace(s[k])
    decreases |s| - i
  {
    if i < |s| && IsSpace(s[i]) then SkipSpace(s, i + 1) else i
  }

  /** The first position from i on that does not hold a name rune. */
  function NameEnd(s: string, i: nat): (k: nat)
    requires i <= |s|
    ensures i <= k <= |s|
    ensures forall j :: i <= j < k ==> IsNameRune(s[j])
    ensures k < |s| ==> !IsNameRune(s[k])
    decreases |s| - i
  {
    if i < |s| && IsNameRune(s[i]) then NameEnd(s, i + 1) else i
  }

  /** The end of s[..i] once its trailing white space is cut off. */
  function TrimBack(s: string, i: nat): (k: nat)
    requires i <= |s|
    ensures k <= i
    ensures forall j :: k <= j < i ==> IsSpace(s[j])
    ensures k > 0 ==> !IsSpace(s[k - 1])
  {
    if i > 0 && IsSpace(s[i - 1]) then TrimBack(s, i - 1) else i
  }

  /** Go's strings.TrimSpace. */
  function TrimSpace(s: string): (r: string)
    ensures r == [] <==> Blank(s)
    ensures r != [] ==> !IsSpace(r[0]) && !IsSpace(r[|r| - 1])
  {
    var a := SkipSpace(s, 0);
    var b := TrimBack(s, |s|);
    if a == |s| then [] else assert b > a; s[a..b]
  }

  /** The three scans above are pinned down by what they skip and where they stop. */
  lemma SkipSpaceIs(s: string, i: nat, k: nat)
    requires i <= k <= |s|
    requires forall j :: i <= j < k ==> IsSpace(s[j])
    requires k < |s| ==> !IsSpace(s[k])
    ensures SkipSpace(s, i) == k
  {
  }

  lemma NameEndIs(s: string, i: nat, k: nat)
    requires i <= k <= |s|
    requires forall j :: i <= j < k ==> IsNameRune(s[j])
    requires k < |s| ==> !IsNameRune(s[k])
    ensures NameEnd(s, i) == k
  {
  }

  lemma TrimBackIs(s: string, i: nat, k: nat)
    requires k <= i <= |s|
    requires forall j :: k <= j < i ==> IsSpace(s[j])
    requires k > 0 ==> !IsSpace(s[k - 1])
    ensures TrimBack(s, i) == k
  {
  }

  function Hex(n: nat): char
    requires n < 16
  {
    if n < 10 then '0' + n as char else 'a' + (n - 10) as char
  }

  /** The letter that stands for a character behind a backslash; 'x' if there is none. */
  function EscapeLetter(c: char): char {
    match c as int
    case 7 => 'a'
    case 8 => 'b'
    case 9 => 't'
    case 10 => 'n'
    case 11 => 'v'
    case 12 => 'f'
    case 13 => 'r'
    case 39 => '\''
    case 92 => '\\'
    case _ => 'x'
  }

  /** Go's %q of a character. */
  function Quoted(c: char): string {
    if EscapeLetter(c) != 'x' then ['\'', '\\', EscapeLetter(c), '\'']
    else if ' ' <= c < 127 as char then ['\'', c, '\'']
    else if c < 128 as char then ['\'', '\\', 'x', Hex(c as nat / 16), Hex(c as nat % 16), '\'']
    else ['\'', '\U{FFFD}', '\'']
  }

  /** `w` occurs in `s` at position `i`. */
  predicate Occurs(s: string, i: nat, w: string) {
    i + |w| <= |s| && s[i..i + |w|] == w
  }

  lemma OccursSplit(s: string, i: nat, a: string, b: string)
    requires Occurs(s, i, a + b)
    ensures Occurs(s, i, a) && Occurs(s, i + |a|, b)
  {
    assert s[i..i + |a|] == s[i..i + |a + b|][..|a|];
    assert s[i + |a|..i + |a| + |b|] == s[i..i + |a + b|][|a|..];
  }

  lemma OccursChar(s: string, i: nat, w: string, j: nat)
    requires Occurs(s, i, w) && j < |w|
    ensures s[i + j] == w[j]
  {
    assert s[i..i + |w|][j] == w[j];
  }
}
