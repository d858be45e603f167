/** What the parser builds: arguments, unresolved promises, and the table of definitions. */
module Syntax {
  import opened Text

  /** An argument of a promise. `NoArg` is the nil that a getter without a value leaves. */
  datatype Arg =
    | Constant(text: string)
    | ArgGetter(position: int)
    | EnvGetter(name: string)
    | VarGetter(name: string)
    | Join(parts: seq<Arg>)
    | NoArg

  datatype Unresolved = Unresolved(name: string, args: seq<Arg>, children: seq<Unresolved>)

  const EMPTY_PROMISE := Unresolved("", [], [])

  type Tree = map<string, Unresolved>

  datatype Option<T> = None | Some(value: T)

  const MAX_INT := 0x7fff_ffff_ffff_ffff

  predicate Digits(s: string) {
    s != "" && forall i :: 0 <= i < |s| ==> IsDigit(s[i])
  }

  function DigitValue(c: char): nat
    requires IsDigit(c)
  {
    (c - '0') as nat
  }

  function Decimal(s: string): nat
    requires forall i :: 0 <= i < |s| ==> IsDigit(s[i])
  {
    if s == "" then 0 else 10 * Decimal(s[..|s| - 1]) + DigitValue(s[|s| - 1])
  }

  /** Go's strconv.Atoi for a 64-bit int; None is its error. */
  function Atoi(s: string): Option<int> {
    var signed := s != "" && (s[0] == '-' || s[0] == '+');
    var digits := if signed then s[1..] else s;
    if !Digits(digits) then None
    else
      var n: int := if signed && s[0] == '-' then 0 - Decimal(digits) else Decimal(digits);
      if -MAX_INT - 1 <= n <= MAX_INT then Some(n) else None
  }

  /** A sign, if any, and digits, that give a number in the range of a 64-bit int. */
  predicate IsInt(s: string) {
    var signed := s != "" && (s[0] == '-' || s[0] == '+');
    var digits := if signed then s[1..] else s;
    Digits(digits) && Decimal(digits) <= (if s[0] == '-' then MAX_INT + 1 else MAX_INT)
  }

  function IntOf(s: string): int
    requires IsInt(s)
  {
    if s[0] == '-' then 0 - Decimal(s[1..]) else if s[0] == '+' then Decimal(s[1..]) else Decimal(s)
  }

  /** Atoi accepts exactly these, and gives their number. */
  lemma AtoiIff(s: string)
    ensures Atoi(s) == if IsInt(s) then Some(IntOf(s)) else None
  {
  }

  /** The decimal notation of n. */
  function Itoa(n: nat): (s: string)
    ensures Digits(s)
  {
    (if n < 10 then "" else Itoa(n / 10)) + [('0' as int + n % 10) as char]
  }

  lemma DecimalSnoc(s: string, c: char)
    requires (forall i :: 0 <= i < |s| ==> IsDigit(s[i])) && IsDigit(c)
    ensures Decimal(s + [c]) == 10 * Decimal(s) + DigitValue(c)
  {
    assert (s + [c])[..|s|] == s;
  }

  lemma {:induction false} DecimalItoa(n: nat)
    ensures Decimal(Itoa(n)) == n
  {
    var c := ('0' as int + n % 10) as char;
    if n < 10 {
      DecimalSnoc("", c);
    } else {
      DecimalItoa(n / 10);
      DecimalSnoc(Itoa(n / 10), c);
    }
  }

  lemma AtoiDigits(s: string, v: int)
    requires Digits(s) && Decimal(s) == v <= MAX_INT + 1
    ensures v <= MAX_INT ==> Atoi(s) == Some(v)
    ensures Atoi("-" + s) == Some(0 - v)
  {
    assert IsDigit(s[0]);
    assert ("-" + s)[1..] == s;
  }

  /** How a position is written. */
  function Notation(n: int): string {
    if n < 0 then "-" + Itoa(0 - n) else Itoa(n)
  }

  /** Every position a 64-bit int can hold is read back from how it is written. */
  lemma AtoiNotation(n: int)
    requires -MAX_INT - 1 <= n <= MAX_INT
    ensures Atoi(Notation(n)) == Some(n)
  {
    var v := if n < 0 then 0 - n else n;
    DecimalItoa(v);
    AtoiDigits(Itoa(v), v);
  }

  function Zeros(k: nat): string {
    if k == 0 then "" else Zeros(k - 1) + "0"
  }

  lemma {:induction false} ZerosFirst(k: nat)
    requires k > 0
    ensures Digits(Zeros(k)) && Zeros(k) == "0" + Zeros(k - 1)
    decreases k
  {
    if k > 1 {
      ZerosFirst(k - 1);
    }
  }

  lemma {:induction false} DecimalZeros(k: nat, s: string)
    requires Digits(s)
    ensures Digits(Zeros(k) + s) && Decimal(Zeros(k) + s) == Decimal(s)
    decreases k, |s|
  {
    if k == 0 {
      assert Zeros(k) + s == s;
    } else {
      ZerosFirst(k);
      var last, front := s[|s| - 1], s[..|s| - 1];
      assert (Zeros(k) + s)[..|Zeros(k) + s| - 1] == Zeros(k) + front;
      if front == "" {
        assert Zeros(k) + front == Zeros(k);
        DecimalIsZero(k);
      } else {
        DecimalZeros(k, front);
      }
    }
  }

  lemma {:induction false} DecimalIsZero(k: nat)
    ensures (k > 0 ==> Digits(Zeros(k))) && Decimal(Zeros(k)) == 0
  {
    if k > 0 {
      DecimalIsZero(k - 1);
      DecimalSnoc(Zeros(k - 1), '0');
    }
  }

  lemma ItoaSnoc(n: nat, c: char)
    requires IsDigit(c)
    ensures Itoa(10 * n + DigitValue(c)) == (if n == 0 then "" else Itoa(n)) + [c]
  {
    var m := 10 * n + DigitValue(c);
    assert m % 10 == DigitValue(c) && m / 10 == n;
  }

  /** One digit more behind zeros and the notation of v. */
  lemma DigitMore(front: string, c: char, k: nat, v: nat, w: nat) returns (m: nat)
    requires IsDigit(c) && front == Zeros(k) + Itoa(v) && w == 10 * v + DigitValue(c)
    ensures front + [c] == Zeros(m) + Itoa(w)
  {
    ItoaSnoc(v, c);
    if v == 0 {
      m := k + 1;
      assert Itoa(v) == "0" && Zeros(m) == Zeros(k) + "0";
    } else {
      m := k;
      var digits := Itoa(v);
      assert Itoa(w) == digits + [c];
      assert (Zeros(k) + digits) + [c] == Zeros(k) + (digits + [c]);
    }
  }

  /** One digit is the notation of its number. */
  lemma OneDigit(c: char)
    requires IsDigit(c)
    ensures [c] == Zeros(0) + Itoa(Decimal([c]))
  {
    DecimalSnoc("", c);
    ItoaSnoc(0, c);
    assert "" + [c] == [c];
  }

  /** Digits are the notation of their number behind zeros. */
  lemma {:induction false} DigitsSpell(s: string) returns (k: nat)
    requires Digits(s)
    ensures s == Zeros(k) + Itoa(Decimal(s))
    decreases |s|
  {
    var front, last := s[..|s| - 1], s[|s| - 1];
    assert s == front + [last];
    if front == "" {
      assert s == [last];
      k := 0;
      OneDigit(last);
    } else {
      var m := DigitsSpell(front);
      DecimalSnoc(front, last);
      k := DigitMore(front, last, m, Decimal(front), Decimal(s));
    }
  }

  /** s writes the int n: a sign, which a negative number has to have, any number of zeros, and the
      notation of its magnitude. */
  ghost predicate Spells(s: string, n: int) {
    -MAX_INT - 1 <= n <= MAX_INT &&
    exists sign: string, k: nat :: SignOf(sign, n) && s == sign + (Zeros(k) + Itoa(if n < 0 then 0 - n else n))
  }

  predicate SignOf(sign: string, n: int) {
    if sign == "-" then n <= 0 else n >= 0 && (sign == "" || sign == "+")
  }

  predicate IsSign(sign: string) {
    sign == "" || sign == "+" || sign == "-"
  }

  lemma AtoiSigned(sign: string, digits: string)
    requires IsSign(sign) && Digits(digits)
    ensures var n: int := if sign == "-" then 0 - Decimal(digits) else Decimal(digits);
            Atoi(sign + digits) == if -MAX_INT - 1 <= n <= MAX_INT then Some(n) else None
  {
    assert IsDigit(digits[0]);
    assert sign == "" ==> sign + digits == digits;
    assert sign != "" ==> (sign + digits)[1..] == digits;
  }

  lemma AtoiSplits(s: string) returns (sign: string, digits: string)
    requires Atoi(s).Some?
    ensures IsSign(sign) && Digits(digits) && s == sign + digits
  {
    var signed := s != "" && (s[0] == '-' || s[0] == '+');
    sign, digits := if signed then s[..1] else "", if signed then s[1..] else s;
  }

  /** A string is read as a number if and only if it writes it. */
  lemma AtoiSpells(s: string, n: int)
    ensures Atoi(s) == Some(n) <==> Spells(s, n)
  {
    var v: nat := if n < 0 then 0 - n else n;
    if Atoi(s) == Some(n) {
      ReadIsSpelled(s, n, v);
    }
    if Spells(s, n) {
      SpelledIsRead(s, n, v);
    }
  }

  lemma ReadIsSpelled(s: string, n: int, v: nat)
    requires Atoi(s) == Some(n) && v == if n < 0 then 0 - n else n
    ensures Spells(s, n)
  {
    var sign, digits := AtoiSplits(s);
    var k := DigitsSpell(digits);
    NumberOf(sign, digits, n, v);
    assert SignOf(sign, n) && s == sign + (Zeros(k) + Itoa(v));
  }

  lemma NumberOf(sign: string, digits: string, n: int, v: nat)
    requires IsSign(sign) && Digits(digits) && Atoi(sign + digits) == Some(n) && v == if n < 0 then 0 - n else n
    ensures SignOf(sign, n) && Decimal(digits) == v && -MAX_INT - 1 <= n <= MAX_INT
  {
    AtoiSigned(sign, digits);
  }

  lemma SpelledIsRead(s: string, n: int, v: nat)
    requires Spells(s, n) && v == if n < 0 then 0 - n else n
    ensures Atoi(s) == Some(n)
  {
    var sign: string, k: nat :| SignOf(sign, n) && s == sign + (Zeros(k) + Itoa(v));
    DecimalItoa(v);
    DecimalZeros(k, Itoa(v));
    AtoiSigned(sign, Zeros(k) + Itoa(v));
  }
}
