/**
 Reading back what was written: lexing and parsing the text of a file gives exactly the
 definitions the text stands for, whatever its layout.
 */
module RoundTrip {
  import opened Text
  import opened Tokens
  import opened Scanner
  import opened Syntax
  import opened Parser
  import opened SourceText

  /** The stream from inside a promise, a getter, or behind a closing bracket. */
  function InPromise(input: Ascii, pos: nat, pd: int): Stream
    requires pos <= |input|
  {
    Scan(input, At(LexInsidePromise, pos, pd, 0))
  }

  function InGetter(input: Ascii, pos: nat, pd: int, gd: int): Stream
    requires pos <= |input|
  {
    Scan(input, At(LexInsideGetter, pos, pd, gd))
  }

  function BehindItem(input: Ascii, pos: nat, pd: int, gd: int): Stream
    requires pos <= |input|
  {
    Scan(input, At(AfterGetterPart(gd), pos, pd, gd))
  }

  function BehindPromise(input: Ascii, pos: nat, pd: int): Stream
    requires pos <= |input|
  {
    Scan(input, At(if pd == 0 then LexComment else LexInsidePromise, pos, pd, 0))
  }

  /** White space of known extent. */
  lemma Skips(input: Ascii, pos: nat, space: string, c: char)
    requires Blank(space) && Occurs(input, pos, space)
    requires pos + |space| < |input| && input[pos + |space|] == c && !IsSpace(c)
    ensures SkipSpace(input, pos) == pos + |space|
  {
    forall j | pos <= j < pos + |space| ensures IsSpace(input[j]) {
      OccursChar(input, pos, space, j - pos);
    }
    SkipSpaceIs(input, pos, pos + |space|);
  }

  lemma Assoc(a: string, b: string, c: string)
    ensures a + (b + c) == (a + b) + c
  {
  }

  lemma QuoteLayout(input: Ascii, pos: nat, text: string, end: nat)
    requires Occurs(input, pos, ShowQuoted(text)) && '"' !in text && end == pos + |text| + 2
    ensures end <= |input| && input[pos] == '"' && FindQuote(input, pos + 1) == end - 1
    ensures input[pos + 1..end - 1] == text
  {
    OccursSplit(input, pos, "\"", text + "\"");
    OccursSplit(input, pos + 1, text, "\"");
    OccursChar(input, pos, "\"", 0);
    OccursChar(input, end - 1, "\"", 0);
    QuoteAt(input, pos + 1, text);
  }

  lemma QuoteStream(input: Ascii, pos: nat, text: string, end: nat, pd: int, gd: int)
    requires pos < |input| && input[pos] == '"' && FindQuote(input, pos + 1) == end - 1 < |input| &&
             input[pos + 1..end - 1] == text
    ensures SkipSpace(input, pos) == pos && Ready(input, LexArgument, pos)
    ensures Scan(input, At(LexArgument, pos, pd, gd)) ==
            Next(Slice(input, LeftArg, pos, pos + 1),
                 Next(Slice(input, Argument, pos + 1, end - 1),
                      Next(Slice(input, RightArg, end - 1, end), BehindItem(input, end, pd, gd))))
  {
    var q := end - 1;
    var open, arg, close := Slice(input, LeftArg, pos, pos + 1), Slice(input, Argument, pos + 1, q),
                            Slice(input, RightArg, q, end);
    SkipSpaceIs(input, pos, pos);
    assert StepArgument(input, pos, pd, gd) == Move([open, arg, close], At(AfterGetterPart(gd), end, pd, gd));
    EmitThree(open, arg, close, BehindItem(input, end, pd, gd));
  }

  /** An argument in quotes. */
  lemma QuotedBack(input: Ascii, pos: nat, text: string, end: nat, pd: int, gd: int)
    requires pos < |input| && input[pos] == '"' && FindQuote(input, pos + 1) == end - 1 < |input| &&
             input[pos + 1..end - 1] == text
    ensures SkipSpace(input, pos) == pos && Ready(input, LexArgument, pos)
    ensures var s := Scan(input, At(LexArgument, pos, pd, gd));
            s.Next? && s.head.typ == LeftArg &&
            ParseArg(s.tail, "") == Ok(Constant(text), BehindItem(input, end, pd, gd))
  {
    QuoteStream(input, pos, text, end, pd, gd);
    var close := Slice(input, RightArg, end - 1, end);
    var rest := BehindItem(input, end, pd, gd);
    assert ParseArg(Next(close, rest), text) == Ok(Constant(text), rest);
  }

  lemma QuoteAt(input: Ascii, pos: nat, text: string)
    requires Occurs(input, pos, text) && '"' !in text
    requires pos + |text| < |input| && input[pos + |text|] == '"'
    ensures FindQuote(input, pos) == pos + |text|
  {
    forall j | pos <= j < pos + |text| ensures input[j] != '"' {
      OccursChar(input, pos, text, j - pos);
    }
  }

  /** One step that sends one token. */
  lemma ScanOne(input: Ascii, c: Config, t: Token, next: Config)
    requires c.At? && ReadyAt(input, c) && ReadyAt(input, next)
    requires Step(input, c.state, c.pos, c.parens, c.getters) == Move([t], next)
    ensures Scan(input, c) == Next(t, Scan(input, next))
  {
    EmitOne(t, Scan(input, next));
  }

  predicate KnownType(typ: string) {
    typ == "arg" || typ == "env" || typ == "var"
  }

  lemma TypeColon(input: Ascii, pos: nat, typ: string, pd: int, gd: int)
    requires Ready(input, LexGetterType, pos) && KnownType(typ) && Occurs(input, pos, typ + ":")
    ensures var p := pos + |typ|;
            Ready(input, LexGetterValue, p + 1) &&
            Scan(input, At(LexGetterType, pos, pd, gd)) ==
            Next(Slice(input, GetterType, pos, p),
                 Next(Slice(input, GetterSeparator, p, p + 1), Scan(input, At(LexGetterValue, p + 1, pd, gd))))
    ensures input[pos..pos + |typ|] == typ
  {
    OccursSplit(input, pos, typ, ":");
    var p := pos + |typ|;
    OccursChar(input, pos, typ, 0);
    OccursChar(input, pos, typ, 1);
    OccursChar(input, pos, typ, 2);
    OccursChar(input, p, ":", 0);
    TypeEndsAt(input, pos, p);
    TrimBackIs(input, p, p);
    TrimBackIs(input, p + 1, p + 1);
    EmitTwo(Slice(input, GetterType, pos, p), Slice(input, GetterSeparator, p, p + 1),
            Scan(input, At(LexGetterValue, p + 1, pd, gd)));
  }

  lemma TypeEndsAt(input: Ascii, pos: nat, p: nat)
    requires pos <= p < |input| && EndsType(input[p]) && forall j :: pos <= j < p ==> !EndsType(input[j])
    ensures FindTypeEnd(input, pos) == p
  {
  }

  /** Where the value of a getter, its padding and its bracket are. */
  lemma ValueShape(input: Ascii, pos: nat, val: string, pad: string, p: nat, q: nat)
    requires p == pos + |val| && q == p + |pad|
    requires Occurs(input, pos, val + (pad + "]")) && pos > 0 && !IsSpace(input[pos - 1])
    requires NameRunes(val) && (val == "" || val[|val| - 1] != ' ') && forall i :: 0 <= i < |pad| ==> pad[i] == ' '
    ensures q < |input| && input[q] == ']' && NameEnd(input, pos) == q && TrimBack(input, q) == p &&
            SkipSpace(input, p) == q
    ensures input[pos..p] == val
  {
    OccursSplit(input, pos, val, pad + "]");
    OccursSplit(input, p, pad, "]");
    OccursChar(input, q, "]", 0);
    forall j | pos <= j < p ensures IsNameRune(input[j]) && input[j] == val[j - pos] {
      OccursChar(input, pos, val, j - pos);
    }
    forall j | p <= j < q ensures input[j] == ' ' {
      OccursChar(input, p, pad, j - p);
    }
    EndsMeet(input, pos, p, q);
  }

  lemma EndsMeet(input: Ascii, pos: nat, p: nat, q: nat)
    requires 0 < pos <= p <= q < |input| && input[q] == ']' && !IsSpace(input[p - 1])
    requires (forall j :: pos <= j < p ==> IsNameRune(input[j])) && forall j :: p <= j < q ==> input[j] == ' '
    ensures NameEnd(input, pos) == q && TrimBack(input, q) == p && SkipSpace(input, p) == q
  {
    NameEndIs(input, pos, q);
    TrimBackIs(input, q, p);
    SkipSpaceIs(input, p, q);
  }

  lemma CloseGetter(input: Ascii, p: nat, q: nat, pd: int, gd: int)
    requires p <= q < |input| && SkipSpace(input, p) == q && input[q] == ']'
    ensures Ready(input, LexGetterClosing, p)
    ensures Scan(input, At(LexGetterClosing, p, pd, gd)) ==
            Next(Slice(input, RightGetter, q, q + 1), BehindItem(input, q + 1, pd, gd - 1))
  {
    var next := At(AfterGetterPart(gd - 1), q + 1, pd, gd - 1);
    assert StepGetterClosing(input, p, pd, gd) == Move([Slice(input, RightGetter, q, q + 1)], next);
    EmitOne(Slice(input, RightGetter, q, q + 1), Scan(input, next));
  }

  lemma EndValue(input: Ascii, pos: nat, p: nat, q: nat, pd: int, gd: int)
    requires Ready(input, LexGetterValue, pos) && pos <= p <= q < |input| && input[q] == ']'
    requires NameEnd(input, pos) == q && TrimBack(input, q) == p && SkipSpace(input, p) == q
    ensures Scan(input, At(LexGetterValue, pos, pd, gd)) ==
            Next(Slice(input, GetterValue, pos, p), Scan(input, At(LexGetterClosing, p, pd, gd)))
  {
    EmitOne(Slice(input, GetterValue, pos, p), Scan(input, At(LexGetterClosing, p, pd, gd)));
    assert StepGetterValue(input, pos, pd, gd) ==
           Move([Slice(input, GetterValue, pos, p)], At(LexGetterClosing, p, pd, gd));
  }

  /** The parser on the tokens of a getter with a value. */
  lemma ParsesValue(s: Stream, typ: string, val: string, rest: Stream)
    requires KnownType(typ) && GetterOf(typ, val).Picked?
    requires s.Next? && s.head.typ == GetterType && s.head.val == typ
    requires s.tail.Next? && s.tail.head.typ == GetterSeparator
    requires s.tail.tail.Next? && s.tail.tail.head.typ == GetterValue && s.tail.tail.head.val == val
    requires s.tail.tail.tail.Next? && s.tail.tail.tail.head.typ == RightGetter && s.tail.tail.tail.tail == rest
    ensures ParseGetter(s, "", NoArg) == Ok(GetterOf(typ, val).value, rest)
  {
    var g := GetterOf(typ, val).value;
    assert ParseGetter(s.tail.tail.tail, typ, g) == Ok(g, rest);
    assert ParseGetter(s.tail.tail, typ, NoArg) == Ok(g, rest);
    assert ParseGetter(s.tail, typ, NoArg) == Ok(g, rest);
  }

  lemma OpenGetter(input: Ascii, pos: nat, pd: int, gd: int)
    requires Occurs(input, pos, "[")
    ensures Ready(input, LexGetterOpening, pos) && Ready(input, LexGetterType, pos + 1)
    ensures Scan(input, At(LexGetterOpening, pos, pd, gd)) ==
            Next(Slice(input, LeftGetter, pos, pos + 1), Scan(input, At(LexGetterType, pos + 1, pd, gd + 1)))
  {
    OccursChar(input, pos, "[", 0);
    ScanOne(input, At(LexGetterOpening, pos, pd, gd), Slice(input, LeftGetter, pos, pos + 1),
            At(LexGetterType, pos + 1, pd, gd + 1));
  }

  /** The stream of a getter whose parts lie between the given positions. */
  lemma ValueStream(input: Ascii, pos: nat, typ: string, v: nat, p: nat, q: nat, end: nat, pd: int, gd: int)
    requires end == q + 1
    requires KnownType(typ) && Occurs(input, pos, "[") && Occurs(input, pos + 1, typ + ":") && v == pos + |typ| + 2
    requires v <= p <= q < |input| && input[q] == ']'
    requires NameEnd(input, v) == q && TrimBack(input, q) == p && SkipSpace(input, p) == q
    ensures Ready(input, LexGetterOpening, pos)
    ensures Scan(input, At(LexGetterOpening, pos, pd, gd)) ==
            Next(Slice(input, LeftGetter, pos, pos + 1),
                 Next(Slice(input, GetterType, pos + 1, v - 1),
                      Next(Slice(input, GetterSeparator, v - 1, v),
                           Next(Slice(input, GetterValue, v, p),
                                Next(Slice(input, RightGetter, q, end), BehindItem(input, end, pd, gd))))))
    ensures input[pos + 1..v - 1] == typ
  {
    OpenGetter(input, pos, pd, gd);
    TypeColon(input, pos + 1, typ, pd, gd + 1);
    EndValue(input, v, p, q, pd, gd + 1);
    CloseGetter(input, p, q, pd, gd + 1);
  }

  /** The parser on a getter whose parts lie between the given positions. */
  lemma ValueReads(input: Ascii, pos: nat, typ: string, val: string, v: nat, p: nat, q: nat, end: nat, pd: int, gd: int)
    requires KnownType(typ) && Occurs(input, pos, "[") && Occurs(input, pos + 1, typ + ":") && v == pos + |typ| + 2
    requires v <= p <= q < |input| && input[q] == ']' && end == q + 1
    requires NameEnd(input, v) == q && TrimBack(input, q) == p && SkipSpace(input, p) == q
    requires input[v..p] == val && GetterOf(typ, val).Picked?
    ensures Ready(input, LexGetterOpening, pos)
    ensures var s := Scan(input, At(LexGetterOpening, pos, pd, gd));
            s.Next? && s.head.typ == LeftGetter &&
            ParseGetter(s.tail, "", NoArg) == Ok(GetterOf(typ, val).value, BehindItem(input, end, pd, gd))
  {
    ValueStream(input, pos, typ, v, p, q, end, pd, gd);
    ParsesValue(Scan(input, At(LexGetterOpening, pos, pd, gd)).tail, typ, val, BehindItem(input, end, pd, gd));
  }

  /** A getter with a value, from its opening bracket. */
  lemma ValueBack(input: Ascii, pos: nat, typ: string, val: string, pad: string, v: nat, end: nat, pd: int, gd: int)
    requires v == pos + |typ| + 2 && end == v + |val| + |pad| + 1
    requires Occurs(input, pos, "[") && Occurs(input, pos + 1, typ + ":") && Occurs(input, v, val + (pad + "]"))
    requires v <= |input| && input[v - 1] == ':'
    requires KnownType(typ) && GetterOf(typ, val).Picked?
    requires NameRunes(val) && (val == "" || val[|val| - 1] != ' ') && forall i :: 0 <= i < |pad| ==> pad[i] == ' '
    ensures Ready(input, LexGetterOpening, pos)
    ensures var s := Scan(input, At(LexGetterOpening, pos, pd, gd));
            s.Next? && s.head.typ == LeftGetter &&
            ParseGetter(s.tail, "", NoArg) == Ok(GetterOf(typ, val).value, BehindItem(input, end, pd, gd))
  {
    var p := v + |val|;
    var q := p + |pad|;
    ValueShape(input, v, val, pad, p, q);
    ValueReads(input, pos, typ, val, v, p, q, end, pd, gd);
  }

  lemma ValueLayout(input: Ascii, pos: nat, typ: string, val: string, pad: string)
    requires Occurs(input, pos, "[" + (typ + (":" + (val + (pad + "]")))))
    ensures Occurs(input, pos, "[") && Occurs(input, pos + 1, typ + ":")
    ensures var v := pos + |typ| + 2;
            Occurs(input, v, val + (pad + "]")) && v <= |input| && input[v - 1] == ':'
  {
    OccursSplit(input, pos, "[", typ + (":" + (val + (pad + "]"))));
    assert typ + (":" + (val + (pad + "]"))) == (typ + ":") + (val + (pad + "]"));
    OccursSplit(input, pos + 1, typ + ":", val + (pad + "]"));
    OccursChar(input, pos + 1, typ + ":", |typ|);
  }

  /** The parser takes exactly the argument a from s, and goes on at rest. */
  ghost predicate Reads(s: Stream, a: ArgText, rest: Stream) {
    s.Next? &&
    if a.Quoted? then s.head.typ == LeftArg && ParseArg(s.tail, "") == Ok(ArgOf(a), rest)
    else s.head.typ == LeftGetter && ParseGetter(s.tail, "", NoArg) == Ok(ArgOf(a), rest)
  }

  /** The configuration in which the lexer takes an argument that starts at k. */
  function ArgStart(a: ArgText, k: nat, pd: int, gd: int): Config {
    At(if a.Quoted? then LexArgument else LexGetterOpening, k, pd, gd)
  }

  function FirstChar(a: ArgText): char {
    if a.Quoted? then '"' else '['
  }

  lemma ArgStarts(input: Ascii, k: nat, a: ArgText)
    requires Occurs(input, k, ShowArg(a))
    ensures k < |input| && input[k] == FirstChar(a) && SkipSpace(input, k) == k
    ensures ReadyAt(input, ArgStart(a, k, 0, 0))
  {
    OccursChar(input, k, ShowArg(a), 0);
  }

  lemma MovesInGetter(input: Ascii, from: nat, a: ArgText, k: nat, pd: int, gd: int)
    requires from <= |input| && SkipSpace(input, from) == k < |input| && input[k] == FirstChar(a)
    ensures ReadyAt(input, ArgStart(a, k, pd, gd)) &&
            InGetter(input, from, pd, gd) == Scan(input, ArgStart(a, k, pd, gd))
  {
    assert StepInsideGetter(input, from, pd, gd) == Move([], ArgStart(a, k, pd, gd));
  }

  lemma MovesInPromise(input: Ascii, from: nat, a: ArgText, k: nat, pd: int)
    requires from <= |input| && SkipSpace(input, from) == k < |input| && input[k] == FirstChar(a)
    ensures ReadyAt(input, ArgStart(a, k, pd, 0)) && InPromise(input, from, pd) == Scan(input, ArgStart(a, k, pd, 0))
  {
    if !a.Quoted? {
      MovesInGetter(input, k, a, k, pd, 0);
      assert StepInsidePromise(input, from, pd, 0) == Move([], At(LexInsideGetter, k, pd, 0));
    }
  }

  /** White space in front of an argument does not matter to the lexer. */
  lemma QuoteFromAfar(input: Ascii, from: nat, k: nat, pd: int, gd: int)
    requires from <= |input| && SkipSpace(input, from) == k < |input| && input[k] == '"'
    ensures Scan(input, At(LexArgument, from, pd, gd)) == Scan(input, At(LexArgument, k, pd, gd))
  {
    assert StepArgument(input, from, pd, gd) == StepArgument(input, k, pd, gd);
  }

  /** Behind "join" the lexer is inside the getter. */
  lemma JoinOpens(input: Ascii, pos: nat, t: nat, a: ArgText, k: nat, pd: int, gd: int)
    requires Occurs(input, pos, "[join") && t == pos + 5
    requires SkipSpace(input, t) == k < |input| && input[k] == FirstChar(a)
    ensures Ready(input, LexGetterOpening, pos)
    ensures Scan(input, At(LexGetterOpening, pos, pd, gd)) ==
            Next(Slice(input, LeftGetter, pos, pos + 1),
                 Next(Slice(input, GetterType, pos + 1, t), InGetter(input, t, pd, gd + 1)))
    ensures input[pos + 1..t] == "join"
  {
    assert "[join" == "[" + "join";
    OccursSplit(input, pos, "[", "join");
    OccursChar(input, pos + 1, "join", 0);
    OccursChar(input, pos + 1, "join", 1);
    OccursChar(input, pos + 1, "join", 2);
    OccursChar(input, pos + 1, "join", 3);
    OpenGetter(input, pos, pd, gd);
    JoinType(input, pos + 1, t, a, k, pd, gd + 1);
  }

  lemma JoinType(input: Ascii, p: nat, t: nat, a: ArgText, k: nat, pd: int, gd: int)
    requires Ready(input, LexGetterType, p) && t == p + 4 <= |input| && input[p..t] == "join"
    requires SkipSpace(input, t) == k < |input| && input[k] == FirstChar(a)
    ensures Scan(input, At(LexGetterType, p, pd, gd)) ==
            Next(Slice(input, GetterType, p, t), InGetter(input, t, pd, gd))
  {
    assert forall j :: p <= j < t ==> input[j] == input[p..t][j - p];
    TypeEndsAt(input, p, k);
    TrimBackIs(input, k, t);
    var next := At(if a.Quoted? then LexArgument else LexInsideGetter, t, pd, gd);
    EmitOne(Slice(input, GetterType, p, t), Scan(input, next));
    assert StepGetterType(input, p, pd, gd) == Move([Slice(input, GetterType, p, t)], next);
    if a.Quoted? {
      QuoteFromAfar(input, t, k, pd, gd);
      MovesInGetter(input, t, a, k, pd, gd);
    }
  }

  lemma GetterCloses(input: Ascii, from: nat, q: nat, end: nat, pd: int, gd: int)
    requires from <= |input| && SkipSpace(input, from) == q < |input| && input[q] == ']' && end == q + 1
    ensures InGetter(input, from, pd, gd) == Next(Slice(input, RightGetter, q, end), BehindItem(input, end, pd, gd - 1))
  {
    SkipSpaceIs(input, q, q);
    CloseGetter(input, q, q, pd, gd);
    assert StepInsideGetter(input, from, pd, gd) == Move([], At(LexGetterClosing, q, pd, gd));
  }

  /** A value with a quote behind it is read over, and not sent. */
  lemma ValueLost(input: Ascii, v: nat, val: string, e: nat, pd: int, gd: int)
    requires Ready(input, LexGetterValue, v) && Occurs(input, v, val) && NameRunes(val) &&
             e == v + |val| < |input| && input[e] == '"'
    ensures Ready(input, LexArgument, e)
    ensures Scan(input, At(LexGetterValue, v, pd, gd)) == Scan(input, At(LexArgument, e, pd, gd))
  {
    forall j | v <= j < e ensures IsNameRune(input[j]) {
      OccursChar(input, v, val, j - v);
    }
    NameEndIs(input, v, e);
    SkipSpaceIs(input, e, e);
    assert StepGetterValue(input, v, pd, gd) == Move([], At(LexArgument, e, pd, gd));
  }

  /** Where the parts of such a getter are. */
  lemma DroppedLayout(input: Ascii, k: nat, typ: string, val: string, text: string, close: string, v: nat)
    requires Occurs(input, k, "[" + (typ + (":" + (val + (ShowQuoted(text) + (close + "]")))))) && v == k + |typ| + 2
    ensures var e := v + |val|;
            Occurs(input, k, "[") && Occurs(input, k + 1, typ + ":") && Occurs(input, v, val) &&
            Occurs(input, e, ShowQuoted(text)) && Occurs(input, e + |text| + 2, close + "]")
  {
    var after := ShowQuoted(text) + (close + "]");
    OccursSplit(input, k, "[", typ + (":" + (val + after)));
    Assoc(typ, ":", val + after);
    OccursSplit(input, k + 1, typ + ":", val + after);
    OccursSplit(input, v, val, after);
    OccursSplit(input, v + |val|, ShowQuoted(text), close + "]");
  }

  /** A quoted text and the bracket that closes a getter. */
  predicate QuoteAndClose(s: Stream, rest: Stream) {
    s.Next? && s.head.typ == LeftArg && s.tail.Next? && s.tail.head.typ == Argument &&
    var c := s.tail.tail;
    c.Next? && c.head.typ == RightArg && c.tail.Next? && c.tail.head.typ == RightGetter && c.tail.tail == rest
  }

  lemma MakesQuote(open: Token, arg: Token, close: Token, bracket: Token, rest: Stream)
    requires open.typ == LeftArg && arg.typ == Argument && close.typ == RightArg && bracket.typ == RightGetter
    ensures QuoteAndClose(Next(open, Next(arg, Next(close, Next(bracket, rest)))), rest)
  {
  }

  /** White space and the bracket that closes a getter. */
  lemma ClosesBehind(input: Ascii, from: nat, close: string, end: nat, pd: int, gd: int)
    requires Occurs(input, from, close + "]") && Blank(close) && end == from + |close| + 1
    ensures from <= |input| && 0 < end <= |input|
    ensures InGetter(input, from, pd, gd) ==
            Next(Slice(input, RightGetter, end - 1, end), BehindItem(input, end, pd, gd - 1))
  {
    OccursSplit(input, from, close, "]");
    OccursChar(input, end - 1, "]", 0);
    Skips(input, from, close, ']');
    GetterCloses(input, from, end - 1, end, pd, gd);
  }

  lemma QuoteCloses(input: Ascii, e: nat, text: string, r: nat, end: nat, pd: int, gd: int)
    requires gd != 0 && e < |input| && input[e] == '"' && FindQuote(input, e + 1) == r - 1 < |input| &&
             input[e + 1..r - 1] == text
    requires 0 < end <= |input|
    requires InGetter(input, r, pd, gd) ==
             Next(Slice(input, RightGetter, end - 1, end), BehindItem(input, end, pd, gd - 1))
    ensures Ready(input, LexArgument, e)
    ensures QuoteAndClose(Scan(input, At(LexArgument, e, pd, gd)), BehindItem(input, end, pd, gd - 1))
  {
    QuoteStream(input, e, text, r, pd, gd);
    MakesQuote(Slice(input, LeftArg, e, e + 1), Slice(input, Argument, e + 1, r - 1), Slice(input, RightArg, r - 1, r),
               Slice(input, RightGetter, end - 1, end), BehindItem(input, end, pd, gd - 1));
  }

  lemma ParsesNothing(typ: Token, sep: Token, q: Stream, rest: Stream)
    requires typ.typ == GetterType && typ.val != "join" && sep.typ == GetterSeparator && QuoteAndClose(q, rest)
    ensures ParseGetter(Next(typ, Next(sep, q)), "", NoArg) == Ok(NoArg, rest)
  {
    var t := typ.val;
    assert ParseGetter(q.tail.tail.tail, t, NoArg) == Ok(NoArg, rest);
    assert ParseGetter(q.tail.tail, t, NoArg) == Ok(NoArg, rest);
    assert ParseGetter(q.tail, t, NoArg) == Ok(NoArg, rest);
    assert ParseGetter(q, t, NoArg) == Ok(NoArg, rest);
    assert ParseGetter(Next(sep, q), t, NoArg) == Ok(NoArg, rest);
  }

  /** Such a getter from behind its opening bracket. */
  lemma DroppedParses(input: Ascii, k: nat, typ: string, val: string, v: nat, e: nat, rest: Stream, pd: int, gd: int)
    requires Ready(input, LexGetterType, k) && KnownType(typ) && Occurs(input, k, typ + ":") && v == k + |typ| + 1
    requires NameRunes(val) && Occurs(input, v, val) && e == v + |val| < |input| && input[e] == '"'
    requires Ready(input, LexArgument, e) && QuoteAndClose(Scan(input, At(LexArgument, e, pd, gd)), rest)
    ensures ParseGetter(Scan(input, At(LexGetterType, k, pd, gd)), "", NoArg) == Ok(NoArg, rest)
  {
    TypeColon(input, k, typ, pd, gd);
    ValueLost(input, v, val, e, pd, gd);
    ParsesNothing(Slice(input, GetterType, k, v - 1), Slice(input, GetterSeparator, v - 1, v),
                  Scan(input, At(LexArgument, e, pd, gd)), rest);
  }

  lemma DroppedBack(input: Ascii, k: nat, typ: string, val: string, text: string, close: string, v: nat, e: nat,
                    r: nat, end: nat, pd: int, gd: int)
    requires KnownType(typ) && NameRunes(val) && '"' !in text && Blank(close) && gd >= 0
    requires v == k + |typ| + 2 && e == v + |val| && r == e + |text| + 2 && end == r + |close| + 1
    requires Occurs(input, k, "[") && Occurs(input, k + 1, typ + ":") && Occurs(input, v, val)
    requires Occurs(input, e, ShowQuoted(text)) && Occurs(input, r, close + "]")
    ensures Ready(input, LexGetterOpening, k)
    ensures var s := Scan(input, At(LexGetterOpening, k, pd, gd));
            s.Next? && s.head.typ == LeftGetter &&
            ParseGetter(s.tail, "", NoArg) == Ok(NoArg, BehindItem(input, end, pd, gd))
  {
    OpenGetter(input, k, pd, gd);
    QuoteLayout(input, e, text, r);
    ClosesBehind(input, r, close, end, pd, gd + 1);
    QuoteCloses(input, e, text, r, end, pd, gd + 1);
    DroppedParses(input, k + 1, typ, val, v, e, BehindItem(input, end, pd, gd), pd, gd + 1);
  }

  /** A getter whose value is followed by a quote loses the value and is nil. */
  lemma DroppedReads(input: Ascii, k: nat, typ: string, val: string, text: string, close: string, v: nat, end: nat,
                     pd: int, gd: int)
    requires KnownType(typ) && NameRunes(val) && '"' !in text && Blank(close) && gd >= 0
    requires Occurs(input, k, "[" + (typ + (":" + (val + (ShowQuoted(text) + (close + "]"))))))
    requires v == k + |typ| + 2 && end == v + |val| + |text| + |close| + 3
    ensures Ready(input, LexGetterOpening, k)
    ensures var s := Scan(input, At(LexGetterOpening, k, pd, gd));
            s.Next? && s.head.typ == LeftGetter &&
            ParseGetter(s.tail, "", NoArg) == Ok(NoArg, BehindItem(input, end, pd, gd))
  {
    var e := v + |val|;
    var r := e + |text| + 2;
    DroppedLayout(input, k, typ, val, text, close, v);
    DroppedBack(input, k, typ, val, text, close, v, e, r, end, pd, gd);
  }

  /** An argument of any kind, from its first character on. */
  lemma {:induction false} ArgReads(input: Ascii, k: nat, a: ArgText, end: nat, pd: int, gd: int)
    requires Occurs(input, k, ShowArg(a)) && GoodArg(a) && end == k + |ShowArg(a)| && gd >= 0
    ensures ReadyAt(input, ArgStart(a, k, pd, gd))
    ensures Reads(Scan(input, ArgStart(a, k, pd, gd)), a, BehindItem(input, end, pd, gd))
    decreases a, 0
  {
    ArgStarts(input, k, a);
    match a
    case Quoted(text) =>
      QuoteLayout(input, k, text, end);
      QuotedBack(input, k, text, end, pd, gd);
    case Getter(typ, val, pad) =>
      ValueLayout(input, k, typ, val, pad);
      PicksIff(typ, val);
      ValueBack(input, k, typ, val, pad, k + |typ| + 2, end, pd, gd);
    case Dropped(typ, val, text, close) =>
      DroppedReads(input, k, typ, val, text, close, k + |typ| + 2, end, pd, gd);
    case JoinText(pieces, close) => JoinReads(input, k, pieces, close, end, pd, gd);
  }

  lemma {:induction false} JoinReads(input: Ascii, k: nat, pieces: seq<Piece>, close: string, end: nat, pd: int,
                                     gd: int)
    requires Occurs(input, k, "[" + ("join" + (ShowPieces(pieces) + (close + "]")))) &&
             end == k + |ShowPieces(pieces) + (close + "]")| + 5
    requires pieces != [] && GoodPieces(pieces) && Blank(close) && gd >= 0
    ensures Ready(input, LexGetterOpening, k)
    ensures var s := Scan(input, At(LexGetterOpening, k, pd, gd));
            s.Next? && s.head.typ == LeftGetter &&
            ParseGetter(s.tail, "", NoArg) == Ok(Join(PartsOf(pieces)), BehindItem(input, end, pd, gd))
    decreases pieces, 2
  {
    JoinLayout(input, k, ShowPieces(pieces) + (close + "]"));
    JoinBegins(input, k, pieces, close + "]", pd, gd);
    PiecesRead(input, k + 5, pieces, close, [], end, pd, gd + 1);
    NoPartsBefore(PartsOf(pieces));
  }

  lemma NoPartsBefore<T>(parts: seq<T>)
    ensures [] + parts == parts
  {
  }

  /** The bracket of a joiner and its type. */
  lemma JoinBegins(input: Ascii, k: nat, pieces: seq<Piece>, after: string, pd: int, gd: int)
    requires Occurs(input, k, "[join") && Occurs(input, k + 5, ShowPieces(pieces) + after)
    requires pieces != [] && GoodPieces(pieces)
    ensures Ready(input, LexGetterOpening, k)
    ensures var s := Scan(input, At(LexGetterOpening, k, pd, gd));
            s.Next? && s.head.typ == LeftGetter &&
            ParseGetter(s.tail, "", NoArg) == ParseJoiner(InGetter(input, k + 5, pd, gd + 1), [])
  {
    var t := k + 5;
    PiecesLayout(input, t, pieces, after);
    JoinOpens(input, k, t, pieces[0].arg, t + |pieces[0].space|, pd, gd);
    ParsesJoin(Slice(input, GetterType, k + 1, t), InGetter(input, t, pd, gd + 1));
  }

  lemma ParsesJoin(typ: Token, inner: Stream)
    requires typ.typ == GetterType && typ.val == "join"
    ensures ParseGetter(Next(typ, inner), "", NoArg) == ParseJoiner(inner, [])
  {
  }

  lemma JoinLayout(input: Ascii, k: nat, text: string)
    requires Occurs(input, k, "[" + ("join" + text))
    ensures Occurs(input, k, "[join") && Occurs(input, k + 5, text)
  {
    Assoc("[", "join", text);
    assert "[" + "join" == "[join";
    OccursSplit(input, k, "[join", text);
  }

  lemma BodyLayout(input: Ascii, pos: nat, space: string, body: string, rest: string)
    requires Occurs(input, pos, space + (body + rest)) && Blank(space) && body != "" && !IsSpace(body[0])
    ensures var k := pos + |space|;
            pos <= |input| && Occurs(input, k, body) && Occurs(input, k + |body|, rest) &&
            SkipSpace(input, pos) == k < |input| && input[k] == body[0]
  {
    OccursSplit(input, pos, space, body + rest);
    var k := pos + |space|;
    OccursSplit(input, k, body, rest);
    OccursChar(input, k, body, 0);
    Skips(input, pos, space, body[0]);
  }

  lemma ShowsFirst(a: ArgText)
    ensures ShowArg(a) != "" && ShowArg(a)[0] == FirstChar(a) && !IsSpace(FirstChar(a))
  {
  }

  lemma ShowsPieces(ps: seq<Piece>, after: string)
    requires ps != []
    ensures ShowPieces(ps) + after == ps[0].space + (ShowArg(ps[0].arg) + (ShowPieces(ps[1..]) + after))
  {
    Assoc4(ps[0].space, ShowArg(ps[0].arg), ShowPieces(ps[1..]), after);
  }

  lemma PiecesLayout(input: Ascii, pos: nat, ps: seq<Piece>, after: string)
    requires Occurs(input, pos, ShowPieces(ps) + after) && ps != [] && Blank(ps[0].space)
    ensures var k := pos + |ps[0].space|;
            var e := k + |ShowArg(ps[0].arg)|;
            pos <= |input| && Occurs(input, k, ShowArg(ps[0].arg)) && Occurs(input, e, ShowPieces(ps[1..]) + after) &&
            SkipSpace(input, pos) == k < |input| && input[k] == FirstChar(ps[0].arg) &&
            e + |ShowPieces(ps[1..]) + after| == pos + |ShowPieces(ps) + after|
  {
    ShowsPieces(ps, after);
    ShowsFirst(ps[0].arg);
    BodyLayout(input, pos, ps[0].space, ShowArg(ps[0].arg), ShowPieces(ps[1..]) + after);
  }

  /** The parts of a joiner and its closing bracket. */
  lemma {:induction false} PiecesRead(input: Ascii, pos: nat, ps: seq<Piece>, close: string, parts: seq<Arg>,
                                      end: nat, pd: int, gd: int)
    requires Occurs(input, pos, ShowPieces(ps) + (close + "]")) && end == pos + |ShowPieces(ps) + (close + "]")|
    requires GoodPieces(ps) && Blank(close) && gd >= 1
    ensures ParseJoiner(InGetter(input, pos, pd, gd), parts) ==
            Ok(Join(parts + PartsOf(ps)), BehindItem(input, end, pd, gd - 1))
    decreases ps, 1
  {
    if ps == [] {
      NothingMore(close + "]", parts);
      JoinEnds(input, pos, close, parts, end, pd, gd);
    } else {
      var e := FirstPiece(input, pos, ps, close + "]", parts, pd, gd);
      PiecesRead(input, e, ps[1..], close, parts + [ArgOf(ps[0].arg)], end, pd, gd);
      PartsBehind(parts, ps);
    }
  }

  lemma {:induction false} FirstPiece(input: Ascii, pos: nat, ps: seq<Piece>, after: string, parts: seq<Arg>,
                                      pd: int, gd: int) returns (e: nat)
    requires Occurs(input, pos, ShowPieces(ps) + after) && ps != [] && GoodPieces(ps) && gd >= 1
    ensures e <= |input| && Occurs(input, e, ShowPieces(ps[1..]) + after)
    ensures e + |ShowPieces(ps[1..]) + after| == pos + |ShowPieces(ps) + after|
    ensures pos <= |input| &&
            ParseJoiner(InGetter(input, pos, pd, gd), parts) ==
                ParseJoiner(InGetter(input, e, pd, gd), parts + [ArgOf(ps[0].arg)])
    decreases ps, 0
  {
    var k := pos + |ps[0].space|;
    e := k + |ShowArg(ps[0].arg)|;
    PiecesLayout(input, pos, ps, after);
    PieceReads(input, pos, ps[0].arg, k, parts, e, pd, gd);
  }

  lemma NothingMore<T>(text: string, parts: seq<T>)
    ensures "" + text == text && parts + [] == parts
  {
  }

  lemma PartsBehind(parts: seq<Arg>, ps: seq<Piece>)
    requires ps != []
    ensures (parts + [ArgOf(ps[0].arg)]) + PartsOf(ps[1..]) == parts + PartsOf(ps)
  {
    Regroup(parts, ArgOf(ps[0].arg), PartsOf(ps[1..]));
  }

  lemma {:induction false} PieceReads(input: Ascii, pos: nat, a: ArgText, k: nat, parts: seq<Arg>, e: nat, pd: int,
                                      gd: int)
    requires Occurs(input, k, ShowArg(a)) && e == k + |ShowArg(a)| && GoodArg(a) && gd >= 1
    requires pos <= |input| && SkipSpace(input, pos) == k < |input| && input[k] == FirstChar(a)
    ensures ParseJoiner(InGetter(input, pos, pd, gd), parts) ==
            ParseJoiner(InGetter(input, e, pd, gd), parts + [ArgOf(a)])
    decreases a, 1
  {
    ArgReads(input, k, a, e, pd, gd);
    MovesInGetter(input, pos, a, k, pd, gd);
    ParsesPiece(InGetter(input, pos, pd, gd), a, InGetter(input, e, pd, gd), parts);
  }

  lemma ParsesPiece(s: Stream, a: ArgText, rest: Stream, parts: seq<Arg>)
    requires Reads(s, a, rest)
    ensures ParseJoiner(s, parts) == ParseJoiner(rest, parts + [ArgOf(a)])
  {
  }

  lemma JoinEnds(input: Ascii, pos: nat, close: string, parts: seq<Arg>, end: nat, pd: int, gd: int)
    requires Occurs(input, pos, close + "]") && Blank(close) && end == pos + |close| + 1
    ensures ParseJoiner(InGetter(input, pos, pd, gd), parts) == Ok(Join(parts), BehindItem(input, end, pd, gd - 1))
  {
    ClosesBehind(input, pos, close, end, pd, gd);
  }

  /** The brackets of a promise and its name. */
  lemma PromiseOpens(input: Ascii, pos: nat, pd: int)
    requires Occurs(input, pos, "(")
    ensures Ready(input, LexPromiseOpening, pos) && Ready(input, LexPromiseName, pos + 1)
    ensures Scan(input, At(LexPromiseOpening, pos, pd, 0)) ==
            Next(Slice(input, LeftPromise, pos, pos + 1), Scan(input, At(LexPromiseName, pos + 1, pd + 1, 0)))
  {
    OccursChar(input, pos, "(", 0);
    ScanOne(input, At(LexPromiseOpening, pos, pd, 0), Slice(input, LeftPromise, pos, pos + 1),
            At(LexPromiseName, pos + 1, pd + 1, 0));
  }

  /** A name between a and b, with spaces up to a character that cannot belong to it. */
  lemma NameRead(input: Ascii, pos: nat, a: nat, b: nat, e: nat, pd: int)
    requires Ready(input, LexPromiseName, pos) && pos <= a <= b <= e < |input| && SkipSpace(input, pos) == a
    requires forall j :: a <= j < b ==> IsNameRune(input[j])
    requires !IsSpace(input[b - 1]) && SkipSpace(input, b) == e && !IsNameRune(input[e])
    ensures Scan(input, At(LexPromiseName, pos, pd, 0)) ==
            Next(Slice(input, PromiseName, a, b), InPromise(input, b, pd))
  {
    var m := NameEnd(input, b);
    assert m <= e;
    NameEndIs(input, a, m);
    TrimBackIs(input, m, b);
    EmitOne(Slice(input, PromiseName, a, b), InPromise(input, b, pd));
    assert StepPromiseName(input, pos, pd, 0) ==
           Move([Slice(input, PromiseName, a, b)], At(LexInsidePromise, b, pd, 0));
  }

  lemma PromiseCloses(input: Ascii, pos: nat, close: string, p: Unresolved, end: nat, pd: int)
    requires Occurs(input, pos, close + ")") && Blank(close) && end == pos + |close| + 1
    ensures ParsePromise(InPromise(input, pos, pd), p) == Ok(p, BehindPromise(input, end, pd - 1))
  {
    var q := pos + |close|;
    OccursSplit(input, pos, close, ")");
    OccursChar(input, q, ")", 0);
    Skips(input, pos, close, ')');
    MovesToClosing(input, pos, q, pd);
    PromiseEnds(input, q, end, pd);
  }

  lemma MovesToClosing(input: Ascii, from: nat, q: nat, pd: int)
    requires from <= |input| && SkipSpace(input, from) == q < |input| && input[q] == ')'
    ensures InPromise(input, from, pd) == Scan(input, At(LexPromiseClosing, q, pd, 0))
  {
    assert StepInsidePromise(input, from, pd, 0) == Move([], At(LexPromiseClosing, q, pd, 0));
  }

  lemma PromiseEnds(input: Ascii, q: nat, end: nat, pd: int)
    requires q < |input| && input[q] == ')' && end == q + 1
    ensures Scan(input, At(LexPromiseClosing, q, pd, 0)) ==
            Next(Slice(input, RightPromise, q, end), BehindPromise(input, end, pd - 1))
  {
    SkipSpaceIs(input, q, q);
    var next := At(if pd - 1 == 0 then LexComment else LexInsidePromise, end, pd - 1, 0);
    ScanOne(input, At(LexPromiseClosing, q, pd, 0), Slice(input, RightPromise, q, end), next);
  }

  function ItemChar(i: Item): char {
    match i
    case ArgItem(_, arg) => FirstChar(arg)
    case ChildItem(_, _) => '('
  }

  function ItemBody(i: Item): string {
    match i
    case ArgItem(_, arg) => ShowArg(arg)
    case ChildItem(_, child) => ShowPromise(child)
  }

  /** p with one more item. */
  function WithItem(p: Unresolved, i: Item): Unresolved {
    match i
    case ArgItem(_, arg) => p.(args := p.args + [ArgOf(arg)])
    case ChildItem(_, child) => p.(children := p.children + [PromiseOf(child)])
  }

  /** p with a list of items. */
  function Filled(p: Unresolved, items: seq<Item>): Unresolved {
    p.(args := p.args + ArgsOf(items), children := p.children + ChildrenOf(items))
  }

  lemma FilledOne(p: Unresolved, items: seq<Item>)
    requires items != []
    ensures Filled(WithItem(p, items[0]), items[1..]) == Filled(p, items)
  {
    match items[0]
    case ArgItem(_, a) => Regroup(p.args, ArgOf(a), ArgsOf(items[1..]));
    case ChildItem(_, c) => Regroup(p.children, PromiseOf(c), ChildrenOf(items[1..]));
  }

  lemma Regroup<T>(a: seq<T>, x: T, b: seq<T>)
    ensures (a + [x]) + b == a + ([x] + b)
  {
  }

  lemma ItemStarts(i: Item)
    ensures ItemBody(i) != "" && ItemBody(i)[0] == ItemChar(i) && ShowItem(i) == i.space + ItemBody(i)
  {
  }

  /** Where the first item of a list and the rest of it are. */
  lemma ItemsLayout(input: Ascii, pos: nat, items: seq<Item>, after: string)
    requires Occurs(input, pos, ShowItems(items) + after) && items != [] && Blank(items[0].space)
    ensures var k := pos + |items[0].space|;
            var e := k + |ItemBody(items[0])|;
            pos <= |input| && Occurs(input, k, ItemBody(items[0])) && Occurs(input, e, ShowItems(items[1..]) + after) &&
            SkipSpace(input, pos) == k < |input| && input[k] == ItemChar(items[0]) &&
            e + |ShowItems(items[1..]) + after| == pos + |ShowItems(items) + after|
  {
    var space, body := items[0].space, ItemBody(items[0]);
    ItemStarts(items[0]);
    Assoc4(space, body, ShowItems(items[1..]), after);
    BodyLayout(input, pos, space, body, ShowItems(items[1..]) + after);
  }

  lemma Assoc4(a: string, b: string, c: string, d: string)
    ensures a + b + c + d == a + (b + (c + d)) == a + (b + c) + d
  {
  }

  /** Behind the name of a promise comes white space and then a bracket or a quote. */
  lemma BehindName(input: Ascii, pos: nat, items: seq<Item>, close: string)
    requires Occurs(input, pos, ShowItems(items) + (close + ")")) && GoodItems(items) && Blank(close)
    ensures pos <= |input| && SkipSpace(input, pos) < |input| && !IsNameRune(input[SkipSpace(input, pos)])
  {
    if items == [] {
      assert ShowItems(items) + (close + ")") == close + ")";
      OccursSplit(input, pos, close, ")");
      OccursChar(input, pos + |close|, ")", 0);
      Skips(input, pos, close, ')');
    } else {
      ItemsLayout(input, pos, items, close + ")");
    }
  }

  /** The items of a promise and its closing bracket. */
  lemma {:induction false} ItemsRead(input: Ascii, pos: nat, items: seq<Item>, close: string, p: Unresolved,
                                     end: nat, pd: int)
    requires Occurs(input, pos, ShowItems(items) + (close + ")")) && end == pos + |ShowItems(items) + (close + ")")|
    requires GoodItems(items) && Blank(close) && pd >= 1
    ensures ParsePromise(InPromise(input, pos, pd), p) == Ok(Filled(p, items), BehindPromise(input, end, pd - 1))
    decreases items, 1
  {
    if items == [] {
      NothingMore(close + ")", items);
      PromiseCloses(input, pos, close, p, end, pd);
      FilledNone(p);
    } else {
      var e := FirstItem(input, pos, items, close + ")", p, pd);
      ItemsRead(input, e, items[1..], close, WithItem(p, items[0]), end, pd);
      FilledOne(p, items);
    }
  }

  lemma FilledNone(p: Unresolved)
    ensures Filled(p, []) == p
  {
  }

  lemma {:induction false} FirstItem(input: Ascii, pos: nat, items: seq<Item>, after: string, p: Unresolved,
                                     pd: int) returns (e: nat)
    requires Occurs(input, pos, ShowItems(items) + after) && items != [] && GoodItems(items) && pd >= 1
    ensures e <= |input| && Occurs(input, e, ShowItems(items[1..]) + after)
    ensures e + |ShowItems(items[1..]) + after| == pos + |ShowItems(items) + after|
    ensures pos <= |input| &&
            ParsePromise(InPromise(input, pos, pd), p) == ParsePromise(InPromise(input, e, pd), WithItem(p, items[0]))
    decreases items, 0
  {
    var k := pos + |items[0].space|;
    e := k + |ItemBody(items[0])|;
    ItemsLayout(input, pos, items, after);
    ItemReads(input, pos, items[0], k, p, e, pd);
  }

  lemma {:induction false} ItemReads(input: Ascii, pos: nat, i: Item, k: nat, p: Unresolved, e: nat, pd: int)
    requires Occurs(input, k, ItemBody(i)) && e == k + |ItemBody(i)|
    requires pos <= |input| && SkipSpace(input, pos) == k < |input| && input[k] == ItemChar(i)
    requires if i.ArgItem? then GoodArg(i.arg) else GoodPromise(i.child)
    requires pd >= 1
    ensures ParsePromise(InPromise(input, pos, pd), p) == ParsePromise(InPromise(input, e, pd), WithItem(p, i))
    decreases i
  {
    match i
    case ArgItem(_, a) =>
      ArgReads(input, k, a, e, pd, 0);
      MovesInPromise(input, pos, a, k, pd);
      ParsesArgItem(InPromise(input, pos, pd), a, InPromise(input, e, pd), p);
    case ChildItem(_, c) =>
      PromiseReads(input, k, c, e, pd);
      MovesToChild(input, pos, k, pd);
      ParsesChild(InPromise(input, pos, pd), c, InPromise(input, e, pd), p);
  }

  lemma MovesToChild(input: Ascii, from: nat, k: nat, pd: int)
    requires from <= |input| && SkipSpace(input, from) == k < |input| && input[k] == '('
    ensures InPromise(input, from, pd) == Scan(input, At(LexPromiseOpening, k, pd, 0))
  {
    assert StepInsidePromise(input, from, pd, 0) == Move([], At(LexPromiseOpening, k, pd, 0));
  }

  lemma ParsesArgItem(s: Stream, a: ArgText, rest: Stream, p: Unresolved)
    requires Reads(s, a, rest)
    ensures ParsePromise(s, p) == ParsePromise(rest, p.(args := p.args + [ArgOf(a)]))
  {
  }

  lemma ParsesChild(s: Stream, c: PromiseText, rest: Stream, p: Unresolved)
    requires s.Next? && s.head.typ == LeftPromise && ParsePromise(s.tail, EMPTY_PROMISE) == Ok(PromiseOf(c), rest)
    ensures ParsePromise(s, p) == ParsePromise(rest, p.(children := p.children + [PromiseOf(c)]))
  {
  }

  /** A whole promise, from its opening bracket. */
  lemma {:induction false} PromiseReads(input: Ascii, pos: nat, p: PromiseText, end: nat, pd: int)
    requires Occurs(input, pos, ShowPromise(p)) && end == pos + |ShowPromise(p)|
    requires GoodPromise(p) && pd >= 0
    ensures Ready(input, LexPromiseOpening, pos)
    ensures var s := Scan(input, At(LexPromiseOpening, pos, pd, 0));
            s.Next? && s.head.typ == LeftPromise &&
            ParsePromise(s.tail, EMPTY_PROMISE) == Ok(PromiseOf(p), BehindPromise(input, end, pd))
    decreases p
  {
    var b := pos + 1 + |p.lead| + |p.name|;
    OpeningReads(input, pos, p, b, pd);
    ShownLength(p);
    NamedReads(input, b, p.name, p.items, p.close, end, pd + 1);
    ParsesName(Scan(input, At(LexPromiseOpening, pos, pd, 0)), p.name, InPromise(input, b, pd + 1));
  }

  lemma NameReads(input: Ascii, pos: nat, lead: string, name: string, items: seq<Item>, close: string, b: nat, pd: int)
    requires Occurs(input, pos, "(" + (lead + (name + (ShowItems(items) + (close + ")"))))) &&
             b == pos + 1 + |lead| + |name|
    requires Blank(lead) && Blank(close) && GoodItems(items)
    requires GoodName(name)
    ensures Ready(input, LexPromiseOpening, pos) && Occurs(input, b, ShowItems(items) + (close + ")"))
    ensures var s := Scan(input, At(LexPromiseOpening, pos, pd, 0));
            s.Next? && s.head.typ == LeftPromise &&
            s.tail.Next? && s.tail.head.typ == PromiseName && s.tail.head.val == name &&
            s.tail.tail == InPromise(input, b, pd + 1)
  {
    var rest := ShowItems(items) + (close + ")");
    var a := pos + 1 + |lead|;
    NameLayout(input, pos, lead, name, rest);
    BehindName(input, b, items, close);
    NameStream(input, pos, a, b, pd);
  }

  /** A promise without a name. */
  lemma NoNameReads(input: Ascii, pos: nat, items: seq<Item>, close: string, b: nat, pd: int)
    requires Occurs(input, pos, "(" + (ShowItems(items) + (close + ")"))) && b == pos + 1
    requires Blank(close) && GoodItems(items) && Tight(items, close)
    ensures Ready(input, LexPromiseOpening, pos) && Occurs(input, b, ShowItems(items) + (close + ")"))
    ensures var s := Scan(input, At(LexPromiseOpening, pos, pd, 0));
            s.Next? && s.head.typ == LeftPromise &&
            s.tail.Next? && s.tail.head.typ == PromiseName && s.tail.head.val == "" &&
            s.tail.tail == InPromise(input, b, pd + 1)
  {
    OccursSplit(input, pos, "(", ShowItems(items) + (close + ")"));
    OccursChar(input, pos, "(", 0);
    BehindName(input, b, items, close);
    TightStart(input, b, items, close);
    NameStream(input, pos, b, b, pd);
  }

  lemma TightStart(input: Ascii, b: nat, items: seq<Item>, close: string)
    requires Occurs(input, b, ShowItems(items) + (close + ")")) && Blank(close) && GoodItems(items) &&
             Tight(items, close)
    ensures SkipSpace(input, b) == b
  {
    if items == [] {
      assert ShowItems(items) + (close + ")") == ")";
      OccursChar(input, b, ")", 0);
      SkipSpaceIs(input, b, b);
    } else {
      ItemsLayout(input, b, items, close + ")");
    }
  }

  lemma NameStream(input: Ascii, pos: nat, a: nat, b: nat, pd: int)
    requires Occurs(input, pos, "(") && pos + 1 <= a <= b < |input| && SkipSpace(input, pos + 1) == a
    requires (forall j :: a <= j < b ==> IsNameRune(input[j])) && !IsSpace(input[b - 1])
    requires SkipSpace(input, b) < |input| && !IsNameRune(input[SkipSpace(input, b)])
    ensures Ready(input, LexPromiseOpening, pos)
    ensures Scan(input, At(LexPromiseOpening, pos, pd, 0)) ==
            Next(Slice(input, LeftPromise, pos, pos + 1),
                 Next(Slice(input, PromiseName, a, b), InPromise(input, b, pd + 1)))
  {
    PromiseOpens(input, pos, pd);
    NameRead(input, pos + 1, a, b, SkipSpace(input, b), pd + 1);
  }

  /** The bracket and the name of a promise, if it has one. */
  lemma OpeningReads(input: Ascii, pos: nat, p: PromiseText, b: nat, pd: int)
    requires Occurs(input, pos, ShowPromise(p)) && GoodPromise(p) && b == pos + 1 + |p.lead| + |p.name|
    ensures Ready(input, LexPromiseOpening, pos) && Occurs(input, b, ShowItems(p.items) + (p.close + ")"))
    ensures var s := Scan(input, At(LexPromiseOpening, pos, pd, 0));
            s.Next? && s.head.typ == LeftPromise &&
            s.tail.Next? && s.tail.head.typ == PromiseName && s.tail.head.val == p.name &&
            s.tail.tail == InPromise(input, b, pd + 1)
  {
    if p.name == "" {
      NothingInFront("(", ShowItems(p.items) + (p.close + ")"));
      NoNameReads(input, pos, p.items, p.close, b, pd);
    } else {
      NameReads(input, pos, p.lead, p.name, p.items, p.close, b, pd);
    }
  }

  lemma NothingInFront(a: string, b: string)
    ensures a + ("" + ("" + b)) == a + b
  {
  }

  lemma ShownLength(p: PromiseText)
    ensures |ShowPromise(p)| == 1 + |p.lead| + |p.name| + |ShowItems(p.items) + (p.close + ")")|
  {
  }

  /** A promise from behind its name. */
  lemma {:induction false} NamedReads(input: Ascii, b: nat, name: string, items: seq<Item>, close: string, end: nat,
                                      pd: int)
    requires Occurs(input, b, ShowItems(items) + (close + ")")) && end == b + |ShowItems(items) + (close + ")")|
    requires GoodItems(items) && Blank(close) && pd >= 1
    ensures ParsePromise(InPromise(input, b, pd), Unresolved(name, [], [])) ==
            Ok(Unresolved(name, ArgsOf(items), ChildrenOf(items)), BehindPromise(input, end, pd - 1))
    decreases items, 2
  {
    ItemsRead(input, b, items, close, Unresolved(name, [], []), end, pd);
    assert [] + ArgsOf(items) == ArgsOf(items) && [] + ChildrenOf(items) == ChildrenOf(items);
  }

  lemma ParsesName(s: Stream, name: string, rest: Stream)
    requires s.Next? && s.tail.Next? && s.tail.head.typ == PromiseName && s.tail.head.val == name && s.tail.tail == rest
    ensures ParsePromise(s.tail, EMPTY_PROMISE) == ParsePromise(rest, Unresolved(name, [], []))
  {
  }

  lemma NameLayout(input: Ascii, pos: nat, lead: string, name: string, items: string)
    requires Occurs(input, pos, "(" + (lead + (name + items))) && Blank(lead)
    requires GoodName(name)
    ensures var a := pos + 1 + |lead|;
            var b := a + |name|;
            Occurs(input, pos, "(") && pos + 1 <= a < b <= |input| && SkipSpace(input, pos + 1) == a &&
            (forall j :: a <= j < b ==> IsNameRune(input[j])) && !IsSpace(input[b - 1]) && input[a..b] == name &&
            Occurs(input, b, items)
  {
    OccursSplit(input, pos, "(", lead + (name + items));
    OccursSplit(input, pos + 1, lead, name + items);
    var a := pos + 1 + |lead|;
    OccursSplit(input, a, name, items);
    forall j | a <= j < a + |name| ensures IsNameRune(input[j]) && input[j] == name[j - a] {
      OccursChar(input, a, name, j - a);
    }
    Skips(input, pos + 1, lead, name[0]);
  }

  /** Comment text is passed over. */
  lemma {:induction false} CommentRead(input: Ascii, pos: nat, comment: string, end: nat, tree: Tree)
    requires Occurs(input, pos, comment) && GoodComment(comment) && end == pos + |comment|
    ensures Generate(BehindPromise(input, pos, 0), tree) == Generate(BehindPromise(input, end, 0), tree)
    decreases |comment|
  {
    if comment != "" {
      OccursChar(input, pos, comment, 0);
      OccursSplit(input, pos, comment[..1], comment[1..]);
      ScanOne(input, At(LexComment, pos, 0, 0), Slice(input, Type.Comment, pos, pos + 1),
              At(LexComment, pos + 1, 0, 0));
      CommentRead(input, pos + 1, comment[1..], end, tree);
    }
  }

  lemma MovesToDefinition(input: Ascii, pos: nat)
    requires pos < |input| && input[pos] == '('
    ensures BehindPromise(input, pos, 0) == Scan(input, At(LexPromiseOpening, pos, 0, 0))
  {
    assert StepComment(input, pos, 0, 0) == Move([], At(LexPromiseOpening, pos, 0, 0));
  }

  lemma FileEnds(input: Ascii, tree: Tree)
    ensures Generate(BehindPromise(input, |input|, 0), tree) == Ok(tree, Ended)
  {
    ScanOne(input, At(LexComment, |input|, 0, 0), Slice(input, Type.EOF, |input|, |input|), Done);
  }

  lemma {:induction false} DefsRead(input: Ascii, pos: nat, defs: seq<Definition>, comment: string, tree: Tree)
    requires Occurs(input, pos, ShowDefs(defs) + comment) && pos + |ShowDefs(defs) + comment| == |input|
    requires GoodDefs(tree, defs) && GoodComment(comment)
    ensures Generate(BehindPromise(input, pos, 0), tree) == Ok(TableOf(tree, defs), Ended)
    decreases defs
  {
    if defs == [] {
      assert ShowDefs(defs) + comment == comment;
      CommentRead(input, pos, comment, |input|, tree);
      FileEnds(input, tree);
    } else {
      var d := defs[0];
      var rest := ShowDefs(defs[1..]) + comment;
      var e := pos + |d.comment| + |ShowPromise(d.promise)|;
      assert ShowDefs(defs) + comment == d.comment + (ShowPromise(d.promise) + rest);
      DefRead(input, pos, d, rest, e, tree);
      DefsRead(input, e, defs[1..], comment, tree[d.promise.name := PromiseOf(d.promise)]);
    }
  }

  /** A comment and the definition behind it. */
  lemma DefRead(input: Ascii, pos: nat, d: Definition, rest: string, e: nat, tree: Tree)
    requires Occurs(input, pos, d.comment + (ShowPromise(d.promise) + rest)) &&
             e == pos + |d.comment| + |ShowPromise(d.promise)|
    requires GoodComment(d.comment) && GoodPromise(d.promise) && d.promise.name !in tree
    ensures e <= |input| && Occurs(input, e, rest)
    ensures Generate(BehindPromise(input, pos, 0), tree) ==
            Generate(BehindPromise(input, e, 0), tree[d.promise.name := PromiseOf(d.promise)])
  {
    OccursSplit(input, pos, d.comment, ShowPromise(d.promise) + rest);
    var k := pos + |d.comment|;
    OccursSplit(input, k, ShowPromise(d.promise), rest);
    CommentRead(input, pos, d.comment, k, tree);
    DefinitionRead(input, k, d.promise, e, tree);
  }

  lemma DefinitionRead(input: Ascii, k: nat, p: PromiseText, e: nat, tree: Tree)
    requires Occurs(input, k, ShowPromise(p)) && e == k + |ShowPromise(p)| && GoodPromise(p) && p.name !in tree
    ensures Generate(BehindPromise(input, k, 0), tree) ==
            Generate(BehindPromise(input, e, 0), tree[p.name := PromiseOf(p)])
  {
    PromiseReads(input, k, p, e, 0);
    MovesToDefinition(input, k);
    GeneratesDef(BehindPromise(input, k, 0), PromiseOf(p), BehindPromise(input, e, 0), tree);
  }

  lemma GeneratesDef(s: Stream, d: Unresolved, rest: Stream, tree: Tree)
    requires s.Next? && s.head.typ == LeftPromise && ParsePromise(s.tail, EMPTY_PROMISE) == Ok(d, rest) &&
             d.name !in tree
    ensures Generate(s, tree) == Generate(rest, tree[d.name := d])
  {
  }

  /** The round trip: the text of any file, in any layout, lexes and parses to the table of
      the definitions written in it, added to the table of the files before it. */
  lemma ReadsBack(input: Ascii, f: File, tree: Tree)
    requires input == Show(f) && GoodFile(tree, f)
    ensures Generate(Lex(input), tree) == Ok(TableOf(tree, f.defs), Ended)
  {
    assert input[0..0 + |input|] == Show(f);
    DefsRead(input, 0, f.defs, f.comment, tree);
  }
}
