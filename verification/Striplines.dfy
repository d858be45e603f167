/**
 The writer that strips runs of empty lines from command output. It is fed in chunks of any
 size; what it puts out is a filter on the lines of the whole text.
 */
module Striplines {
  import opened Text

  predicate NoNewline(s: string) {
    forall j :: 0 <= j < |s| ==> s[j] != '\n'
  }

  function FirstNewline(s: string): (i: nat)
    ensures i <= |s| && (forall j :: 0 <= j < i ==> s[j] != '\n') && (i < |s| ==> s[i] == '\n')
  {
    if s == "" || s[0] == '\n' then 0
    else
      var i := 1 + FirstNewline(s[1..]);
      assert forall j :: 0 < j < |s| ==> s[j] == s[1..][j - 1];
      i
  }

  lemma FirstIs(s: string, k: nat)
    requires k <= |s| && (forall j :: 0 <= j < k ==> s[j] != '\n') && (k < |s| ==> s[k] == '\n')
    ensures FirstNewline(s) == k
  {
  }

  /** Go's strings.Split at newlines. */
  function Split(s: string): (ls: seq<string>)
    ensures ls != [] && forall l :: l in ls ==> NoNewline(l)
    decreases |s|
  {
    var i := FirstNewline(s);
    if i == |s| then [s] else [s[..i]] + Split(s[i + 1..])
  }

  /** The lines of a text that have been ended, and the one that has not. */
  function Ended(s: string): seq<string> {
    Split(s)[..|Split(s)| - 1]
  }

  function Open(s: string): (l: string)
    ensures NoNewline(l)
  {
    Split(s)[|Split(s)| - 1]
  }

  function LastOf(ls: seq<string>): string {
    if ls == [] then "" else ls[|ls| - 1]
  }

  /** Drop a line exactly when it and the line before it are blank. */
  function Filter(prev: string, ls: seq<string>): seq<string>
    decreases |ls|
  {
    if ls == [] then []
    else (if Blank(prev) && Blank(ls[0]) then [] else [ls[0]]) + Filter(ls[0], ls[1..])
  }

  function Render(ls: seq<string>): string {
    if ls == [] then "" else ls[0] + "\n" + Render(ls[1..])
  }

  /** The one-pass filter: the ended lines, and then the open one if it is kept. */
  function Batch(text: string): string {
    Render(Filter("", Ended(text))) + if Blank(LastOf(Ended(text))) && Blank(Open(text)) then "" else Open(text)
  }

  /** The last newline of s. */
  method LastIndex(s: string) returns (i: nat)
    requires !NoNewline(s)
    ensures i < |s| && s[i] == '\n' && NoNewline(s[i + 1..])
  {
    i := |s| - 1;
    while s[i] != '\n'
      invariant i < |s| && forall j :: i < j < |s| ==> s[j] != '\n'
      invariant exists j :: 0 <= j <= i && s[j] == '\n'
      decreases i
    {
      i := i - 1;
    }
  }

  /** Cutting at any newline cuts the lines. */
  lemma {:induction false} SplitCut(a: string, b: string)
    ensures Split(a + "\n" + b) == Split(a) + Split(b)
    decreases |a|
  {
    var i := FirstNewline(a);
    if i == |a| {
      SplitHead(a, b);
      SplitLine(a);
    } else {
      assert a == a[..i] + "\n" + a[i + 1..];
      SplitCut(a[i + 1..], b);
      SplitCutBehind(a[..i], a[i + 1..], b);
    }
  }

  lemma JoinsBehind(l: string, d: string, b: string)
    ensures l + "\n" + d + "\n" + b == l + "\n" + (d + "\n" + b)
  {
  }

  lemma SplitCutBehind(l: string, d: string, b: string)
    requires NoNewline(l) && Split(d + "\n" + b) == Split(d) + Split(b)
    ensures Split(l + "\n" + d + "\n" + b) == Split(l + "\n" + d) + Split(b)
  {
    var e := d + "\n" + b;
    var left, right := Split(d), Split(b);
    JoinsBehind(l, d, b);
    SplitHead(l, d);
    Assoc([l], left, right);
    SplitHead(l, e);
  }

  lemma Assoc<T>(a: seq<T>, b: seq<T>, c: seq<T>)
    ensures a + (b + c) == (a + b) + c
  {
  }

  lemma SplitHead(l: string, rest: string)
    requires NoNewline(l)
    ensures Split(l + "\n" + rest) == [l] + Split(rest)
  {
    var s := l + "\n" + rest;
    FirstIs(s, |l|);
    assert s[..|l|] == l && s[|l| + 1..] == rest;
  }

  lemma SplitLine(l: string)
    requires NoNewline(l)
    ensures Split(l) == [l]
  {
    FirstIs(l, |l|);
  }

  lemma {:induction false} RenderSnoc(ls: seq<string>, l: string)
    ensures Render(ls + [l]) == Render(ls) + (l + "\n")
    decreases |ls|
  {
    if ls != [] {
      assert (ls + [l])[1..] == ls[1..] + [l];
      RenderSnoc(ls[1..], l);
    } else {
      assert ls + [l] == [l];
    }
  }

  lemma FilterHead(prev: string, l: string, rest: seq<string>)
    ensures Filter(prev, [l] + rest) == (if Blank(prev) && Blank(l) then [] else [l]) + Filter(l, rest)
  {
    assert ([l] + rest)[1..] == rest;
  }

  lemma {:induction false} FilterSnoc(prev: string, ls: seq<string>, l: string)
    ensures Filter(prev, ls + [l]) ==
            if Blank(if ls == [] then prev else LastOf(ls)) && Blank(l) then Filter(prev, ls)
            else Filter(prev, ls) + [l]
    decreases |ls|
  {
    if ls != [] {
      var head, rest := ls[0], ls[1..];
      FilterSnoc(head, rest, l);
      FilterHead(prev, head, rest);
      FilterHead(prev, head, rest + [l]);
      assert ls == [head] + rest && ls + [l] == [head] + (rest + [l]);
    } else {
      FilterHead(prev, l, []);
      assert ls + [l] == [l] + [];
    }
  }

  /** Text that is added goes to the open line. */
  lemma {:induction false} SplitMore(text: string, p: string)
    ensures Split(text + p) == Ended(text) + Split(Open(text) + p)
    decreases |text|
  {
    var i := FirstNewline(text);
    if i == |text| {
      SplitLine(text);
      assert Ended(text) == [];
    } else {
      assert text == text[..i] + "\n" + text[i + 1..];
      SplitMore(text[i + 1..], p);
      SplitMoreBehind(text[..i], text[i + 1..], p);
    }
  }

  lemma SplitMoreBehind(l: string, b: string, p: string)
    requires NoNewline(l) && Split(b + p) == Ended(b) + Split(Open(b) + p)
    ensures var text := l + "\n" + b; Split(text + p) == Ended(text) + Split(Open(text) + p)
  {
    assert (l + "\n" + b) + p == l + "\n" + (b + p);
    SplitHead(l, b + p);
    SplitHead(l, b);
    EndedHead([l], Split(b));
    Assoc([l], Ended(b), Split(Open(b) + p));
  }

  lemma EndedHead(a: seq<string>, ls: seq<string>)
    requires ls != []
    ensures (a + ls)[..|a + ls| - 1] == a + ls[..|ls| - 1] && (a + ls)[|a + ls| - 1] == ls[|ls| - 1]
  {
  }

  /** A chunk without a newline. */
  lemma SameLine(text: string, p: string)
    requires NoNewline(p)
    ensures Ended(text + p) == Ended(text) && Open(text + p) == Open(text) + p
  {
    SplitMore(text, p);
    SplitLine(Open(text) + p);
    EndedHead(Ended(text), [Open(text) + p]);
  }

  /** A chunk whose last newline, together with the open line, ends the lines of s. */
  lemma NewLines(text: string, p: string, s: string, rem: string)
    requires Open(text) + p == s + "\n" + rem && NoNewline(rem)
    ensures Ended(text + p) == Ended(text) + Split(s) && Open(text + p) == rem
  {
    SplitMore(text, p);
    SplitCut(s, rem);
    SplitLine(rem);
    Assoc(Ended(text), Split(s), [rem]);
    EndedHead(Ended(text) + Split(s), [rem]);
  }

  lemma KeptLines(text: string)
    ensures |Filter("", Split(text))| ==
            |Filter("", Ended(text))| + if Blank(LastOf(Ended(text))) && Blank(Open(text)) then 0 else 1
  {
    assert Split(text) == Ended(text) + [Open(text)];
    OneMoreLine(Ended(text), Open(text));
  }

  lemma OneMoreLine(ls: seq<string>, l: string)
    ensures |Filter("", ls + [l])| == |Filter("", ls)| + if Blank(LastOf(ls)) && Blank(l) then 0 else 1
  {
    FilterSnoc("", ls, l);
  }

  lemma HasNewline(a: string, p: string)
    requires !NoNewline(p)
    ensures !NoNewline(a + p)
  {
    assert forall j :: 0 <= j < |p| ==> (a + p)[|a| + j] == p[j];
  }

  lemma BlankLine(l: string)
    ensures Blank(l + "\n") <==> Blank(l)
  {
    assert forall j :: 0 <= j < |l| ==> (l + "\n")[j] == l[j];
  }

  class Striplines {
    var buffer: string
    var lastLine: string
    var currentLine: string
    var lines: nat
    ghost var input: string  // everything written so far

    ghost predicate Valid()
      reads this
    {
      var kept := Filter("", Ended(input));
      buffer == Render(kept) && lines == |kept| && currentLine == Open(input) && lastLine == LastOf(Ended(input))
    }

    constructor ()
      ensures Valid() && input == ""
    {
      buffer, lastLine, currentLine, lines := "", "", "", 0;
      input := "";
    }

    method WriteLn(line: string) returns (n: nat)
      modifies `buffer, `lines
      ensures if Blank(lastLine) && Blank(line) then n == 0 && buffer == old(buffer) && lines == old(lines)
              else n == |line| && buffer == old(buffer) + line && lines == old(lines) + 1
    {
      if TrimSpace(lastLine) == "" && TrimSpace(line) == "" {
        return 0;
      }
      lines := lines + 1;
      buffer := buffer + line;
      n := |line|;
    }

    /** Take a chunk of text. The result counts what reached the buffer. */
    method Write(p: string) returns (n: nat)
      requires Valid()
      modifies this
      ensures Valid() && input == old(input) + p && n == |buffer| - |old(buffer)|
    {
      ghost var before := input;
      input := input + p;
      if NoNewline(p) {
        SameLine(before, p);
        currentLine := currentLine + p;
        return 0;
      }
      var cur := currentLine + p;
      HasNewline(currentLine, p);
      var lastN := LastIndex(cur);
      var s, rem := cur[..lastN], cur[lastN + 1..];
      assert cur == s + "\n" + rem;
      NewLines(before, p, s, rem);
      n := WriteLines(Split(s), Ended(before));
      currentLine := rem;
    }

    /** Lines that have been ended; `done` are those before them. */
    method WriteLines(ls: seq<string>, ghost done: seq<string>) returns (n: nat)
      requires buffer == Render(Filter("", done)) && lines == |Filter("", done)| && lastLine == LastOf(done)
      modifies `buffer, `lines, `lastLine
      ensures buffer == Render(Filter("", done + ls)) && lines == |Filter("", done + ls)| &&
              lastLine == LastOf(done + ls)
      ensures n == |buffer| - |old(buffer)|
    {
      n := 0;
      assert done + ls[..0] == done;
      for i := 0 to |ls|
        invariant buffer == Render(Filter("", done + ls[..i])) && lines == |Filter("", done + ls[..i])|
        invariant lastLine == LastOf(done + ls[..i])
        invariant n == |buffer| - |old(buffer)|
      {
        assert done + ls[..i + 1] == (done + ls[..i]) + [ls[i]];
        FilterSnoc("", done + ls[..i], ls[i]);
        RenderSnoc(Filter("", done + ls[..i]), ls[i]);
        BlankLine(ls[i]);
        var m := WriteLn(ls[i] + "\n");
        lastLine := ls[i];
        n := n + m;
      }
      assert ls[..|ls|] == ls;
    }

    /** Flush the open line. */
    method Close()
      requires Valid()
      modifies `buffer, `lines
      ensures buffer == Batch(input)
      ensures lines == |Filter("", Split(input))|
    {
      KeptLines(input);
      var _ := WriteLn(currentLine);
    }

    method HasContent() returns (has: bool)
      ensures has <==> !Blank(buffer)
    {
      var cnt := TrimSpace(buffer);
      has := |cnt| > 0;
    }
  }

  function Concat(chunks: seq<string>): string {
    if chunks == [] then "" else chunks[0] + Concat(chunks[1..])
  }

  lemma {:induction false} ConcatSnoc(chunks: seq<string>, c: string)
    ensures Concat(chunks + [c]) == Concat(chunks) + c
    decreases |chunks|
  {
    if chunks != [] {
      assert (chunks + [c])[1..] == chunks[1..] + [c];
      ConcatSnoc(chunks[1..], c);
    } else {
      assert chunks + [c] == [c];
    }
  }

  /** Streaming is batch: however the text is cut into chunks, the output is the same. */
  method Strip(chunks: seq<string>) returns (out: string, has: bool)
    ensures out == Batch(Concat(chunks))
    ensures has <==> !Blank(Concat(chunks))
  {
    var w := new Striplines();
    for i := 0 to |chunks|
      invariant w.Valid() && w.input == Concat(chunks[..i])
    {
      assert chunks[..i + 1] == chunks[..i] + [chunks[i]];
      ConcatSnoc(chunks[..i], chunks[i]);
      var _ := w.Write(chunks[i]);
    }
    assert chunks[..|chunks|] == chunks;
    w.Close();
    has := w.HasContent();
    out := w.buffer;
    BatchKeepsContent(Concat(chunks));
  }

  lemma {:induction false} BlankParts(a: string, b: string)
    ensures Blank(a + b) <==> Blank(a) && Blank(b)
  {
    assert forall i :: 0 <= i < |a| ==> (a + b)[i] == a[i];
    assert forall i :: 0 <= i < |b| ==> (a + b)[|a| + i] == b[i];
  }

  predicate AllBlank(ls: seq<string>) {
    forall l :: l in ls ==> Blank(l)
  }

  lemma {:induction false} BlankRender(ls: seq<string>)
    ensures Blank(Render(ls)) <==> AllBlank(ls)
    decreases |ls|
  {
    if ls != [] {
      BlankRender(ls[1..]);
      BlankParts(ls[0] + "\n", Render(ls[1..]));
      BlankParts(ls[0], "\n");
      assert forall l :: l in ls <==> l == ls[0] || l in ls[1..];
    }
  }

  lemma {:induction false} BlankFilter(prev: string, ls: seq<string>)
    ensures AllBlank(Filter(prev, ls)) <==> AllBlank(ls)
    decreases |ls|
  {
    if ls != [] {
      BlankFilter(ls[0], ls[1..]);
      assert forall l :: l in ls <==> l == ls[0] || l in ls[1..];
      assert forall l :: l in Filter(prev, ls) <==>
             (l == ls[0] && !(Blank(prev) && Blank(l))) || l in Filter(ls[0], ls[1..]);
    }
  }

  /** A text is its lines. */
  lemma {:induction false} Rejoin(text: string)
    ensures text == Render(Ended(text)) + Open(text)
    decreases |text|
  {
    var i := FirstNewline(text);
    if i < |text| {
      var a, b := text[..i], text[i + 1..];
      assert text == a + "\n" + b;
      Rejoin(b);
      assert Ended(text) == [a] + Ended(b);
    } else {
      SplitLine(text);
    }
  }

  /** The output has content exactly when the input has. */
  lemma BatchKeepsContent(text: string)
    ensures Blank(Batch(text)) <==> Blank(text)
  {
    var ls, open := Ended(text), Open(text);
    Rejoin(text);
    BlankRender(ls);
    BlankRender(Filter("", ls));
    BlankFilter("", ls);
    BlankParts(Render(ls), open);
    BlankParts(Render(Filter("", ls)), if Blank(LastOf(ls)) && Blank(open) then "" else open);
  }

  /** The lines that are not blank. */
  function Solid(ls: seq<string>): seq<string> {
    if ls == [] then [] else (if Blank(ls[0]) then [] else [ls[0]]) + Solid(ls[1..])
  }

  /** The filter keeps all lines that are not blank, in order, and never two blank ones in a row. */
  lemma {:induction false} FilterKeeps(prev: string, ls: seq<string>)
    ensures Solid(Filter(prev, ls)) == Solid(ls)
    ensures var k := Filter(prev, ls);
            (k != [] && Blank(prev) ==> !Blank(k[0])) && forall i :: 0 < i < |k| ==> !(Blank(k[i - 1]) && Blank(k[i]))
    decreases |ls|
  {
    if ls != [] {
      var rest := Filter(ls[0], ls[1..]);
      FilterKeeps(ls[0], ls[1..]);
      if !(Blank(prev) && Blank(ls[0])) {
        var k := [ls[0]] + rest;
        assert k[1..] == rest;
        forall i | 0 < i < |k| ensures !(Blank(k[i - 1]) && Blank(k[i])) {
          if i > 1 {
            assert k[i - 1] == rest[i - 2] && k[i] == rest[i - 1];
          }
        }
      } else {
        assert [] + rest == rest;
      }
    }
  }

  lemma {:induction false} FilterAgain(prev: string, ls: seq<string>)
    ensures Filter(prev, Filter(prev, ls)) == Filter(prev, ls)
    decreases |ls|
  {
    if ls != [] {
      var rest := Filter(ls[0], ls[1..]);
      FilterAgain(ls[0], ls[1..]);
      if Blank(prev) && Blank(ls[0]) {
        assert [] + rest == rest;
        BlankBefore(prev, ls[0], rest);
      } else {
        assert ([ls[0]] + rest)[1..] == rest;
      }
    }
  }

  lemma BlankBefore(a: string, b: string, ls: seq<string>)
    requires Blank(a) && Blank(b)
    ensures Filter(a, ls) == Filter(b, ls)
  {
  }

  lemma {:induction false} LastKept(prev: string, ls: seq<string>)
    requires !Blank(LastOf(ls))
    ensures LastOf(Filter(prev, ls)) == LastOf(ls)
  {
    var l := LastOf(ls);
    assert ls != [];
    var front := ls[..|ls| - 1];
    assert ls == front + [l];
    FilterSnoc(prev, front, l);
  }

  lemma {:induction false} SplitRender(ls: seq<string>, open: string)
    requires (forall l :: l in ls ==> NoNewline(l)) && NoNewline(open)
    ensures Split(Render(ls) + open) == ls + [open]
    decreases |ls|
  {
    if ls == [] {
      assert Render(ls) + open == open;
      SplitLine(open);
    } else {
      assert Render(ls) + open == ls[0] + "\n" + (Render(ls[1..]) + open);
      SplitHead(ls[0], Render(ls[1..]) + open);
      SplitRender(ls[1..], open);
    }
  }

  lemma {:induction false} FilterFrom(prev: string, ls: seq<string>)
    ensures forall l :: l in Filter(prev, ls) ==> l in ls
    decreases |ls|
  {
    if ls != [] {
      FilterFrom(ls[0], ls[1..]);
    }
  }

  /** Stripping what has been stripped changes nothing. */
  lemma Idempotent(text: string)
    ensures Batch(Batch(text)) == Batch(text)
  {
    var ls := Ended(text);
    var k := Filter("", ls);
    var open := if Blank(LastOf(ls)) && Blank(Open(text)) then "" else Open(text);
    FilterFrom("", ls);
    SplitRender(k, open);
    assert Ended(Batch(text)) == k && Open(Batch(text)) == open;
    FilterAgain("", ls);
    if !Blank(LastOf(ls)) {
      LastKept("", ls);
    }
  }
}
