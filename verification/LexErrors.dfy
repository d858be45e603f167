/**
 What errors of the lexer mean for a file: a file with one cannot be read, a colon behind
 white space always leads to one, and an unclosed getter leads to one after the other.
 */
module LexErrors {
  import opened Text
  import opened Tokens
  import opened Scanner
  import opened Syntax
  import opened Parser
  import NeverBlocks

  predicate HasError(s: Stream) {
    s.Next? && (s.head.typ == Error || HasError(s.tail))
  }

  /** A parse that succeeds has met no error on its way. */
  predicate Passes<T>(r: Parsed<T>, s: Stream) {
    r.Ok? ==> (HasError(r.rest) <==> HasError(s))
  }

  lemma {:induction false} ArgPasses(s: Stream, text: string)
    ensures Passes(ParseArg(s, text), s)
    decreases Length(s)
  {
    if s.Next? && s.head.typ == Argument {
      ArgPasses(s.tail, s.head.val);
    }
  }

  lemma {:induction false} GetterPasses(s: Stream, typ: string, getter: Arg)
    ensures Passes(ParseGetter(s, typ, getter), s)
    decreases Length(s)
  {
    match s
    case Next(t, rest) =>
      if t.typ == GetterType && t.val == "join" {
        JoinerPasses(rest, []);
      } else if t.typ == GetterValue {
        if GetterOf(typ, t.val).Picked? {
          GetterPasses(rest, typ, GetterOf(typ, t.val).value);
        }
      } else if t.typ != Error && t.typ != RightGetter {
        GetterPasses(rest, if t.typ == GetterType then t.val else typ, getter);
      }
    case _ =>
  }

  lemma {:induction false} JoinerPasses(s: Stream, parts: seq<Arg>)
    ensures Passes(ParseJoiner(s, parts), s)
    decreases Length(s)
  {
    if s.Next? && s.head.typ == LeftArg {
      var r := ParseArg(s.tail, "");
      ArgPasses(s.tail, "");
      if r.Ok? {
        JoinerPasses(r.rest, parts + [r.value]);
      }
    } else if s.Next? && s.head.typ == LeftGetter {
      var r := ParseGetter(s.tail, "", NoArg);
      GetterPasses(s.tail, "", NoArg);
      if r.Ok? {
        JoinerPasses(r.rest, parts + [r.value]);
      }
    }
  }

  lemma {:induction false} PromisePasses(s: Stream, p: Unresolved)
    ensures Passes(ParsePromise(s, p), s)
    decreases Length(s)
  {
    match s
    case Next(t, rest) =>
      match t.typ {
        case EOF =>
        case Error =>
        case RightPromise =>
        case LeftPromise =>
          var r := ParsePromise(rest, EMPTY_PROMISE);
          PromisePasses(rest, EMPTY_PROMISE);
          if r.Ok? {
            PromisePasses(r.rest, p.(children := p.children + [r.value]));
          }
        case LeftArg =>
          var r := ParseArg(rest, "");
          ArgPasses(rest, "");
          if r.Ok? {
            PromisePasses(r.rest, p.(args := p.args + [r.value]));
          }
        case LeftGetter =>
          var r := ParseGetter(rest, "", NoArg);
          GetterPasses(rest, "", NoArg);
          if r.Ok? {
            PromisePasses(r.rest, p.(args := p.args + [r.value]));
          }
        case PromiseName => PromisePasses(rest, p.(name := t.val));
        case _ => PromisePasses(rest, p);
      }
    case _ =>
  }

  lemma {:induction false} GeneratePasses(s: Stream, tree: Tree)
    ensures Passes(Generate(s, tree), s)
    decreases Length(s)
  {
    match s
    case Next(t, rest) =>
      if t.typ == LeftPromise {
        var r := ParsePromise(rest, EMPTY_PROMISE);
        PromisePasses(rest, EMPTY_PROMISE);
        if r.Ok? && r.value.name !in tree {
          GeneratePasses(r.rest, tree[r.value.name := r.value]);
        }
      } else if t.typ != EOF && t.typ != Error {
        GeneratePasses(rest, tree);
      }
    case _ =>
  }

  /** A file that is read has no error in its tokens: the parser passes over none. */
  lemma ReadHasNoError(input: Ascii, tree: Tree)
    ensures Generate(Lex(input), tree).Ok? ==> !HasError(Lex(input))
  {
    GeneratePasses(Lex(input), tree);
    NeverBlocks.ParserNeverBlocks(input, tree);
  }

  predicate AnyError(toks: seq<Token>) {
    exists t :: t in toks && t.typ == Error
  }

  lemma {:induction false} ErrorBehind(toks: seq<Token>, rest: Stream)
    ensures HasError(Emit(toks, rest)) <==> AnyError(toks) || HasError(rest)
    decreases |toks|
  {
    if toks != [] {
      ErrorBehind(toks[1..], rest);
      assert toks == [toks[0]] + toks[1..];
    }
  }

  /** A separator that starts on white space instead of a colon. */
  predicate OnSpace(input: Ascii, t: Token) {
    t.typ == GetterSeparator && t.start < |input| && IsSpace(input[t.start])
  }

  /** Some getter of the file has white space in front of its colon. */
  predicate HidesColon(input: Ascii, s: Stream) {
    s.Next? && (OnSpace(input, s.head) || HidesColon(input, s.tail))
  }

  predicate AnyHides(input: Ascii, toks: seq<Token>) {
    exists t :: t in toks && OnSpace(input, t)
  }

  lemma {:induction false} HidesBehind(input: Ascii, toks: seq<Token>, rest: Stream)
    ensures HidesColon(input, Emit(toks, rest)) <==> AnyHides(input, toks) || HidesColon(input, rest)
    decreases |toks|
  {
    if toks != [] {
      HidesBehind(input, toks[1..], rest);
      assert toks == [toks[0]] + toks[1..];
    }
  }

  /** The separator of a getter is its colon if and only if no white space comes before it. */
  lemma SeparatorIff(input: Ascii, pos: nat, e: nat)
    requires Ready(input, LexGetterType, pos) && e == FindTypeEnd(input, pos) < |input| && input[e] == ':'
    ensures var t := TrimBack(input, e);
            var u := TrimBack(input, t + 1);
            (input[t..u] == ":" <==> !IsSpace(input[e - 1])) && (input[t..u] == "" <==> IsSpace(input[e - 1])) &&
            (IsSpace(input[t]) <==> IsSpace(input[e - 1]))
  {
    var t := TrimBack(input, e);
    if IsSpace(input[e - 1]) {
      TrimBackIs(input, t + 1, t);
    } else {
      TrimBackIs(input, e, e);
      TrimBackIs(input, e + 1, e + 1);
      assert input[e..e + 1] == ":";
    }
  }

  /** A step sends a separator on white space only at a getter type with a hidden colon. */
  predicate AtHiddenColon(input: Ascii, c: Config) {
    c.At? && c.state == LexGetterType && Ready(input, LexGetterType, c.pos) &&
    var e := FindTypeEnd(input, c.pos); e < |input| && input[e] == ':' && IsSpace(input[e - 1])
  }

  lemma TypeHides(input: Ascii, pos: nat, pd: int, gd: int)
    requires Ready(input, LexGetterType, pos)
    ensures AnyHides(input, StepGetterType(input, pos, pd, gd).toks) ==>
            AtHiddenColon(input, At(LexGetterType, pos, pd, gd))
  {
    var e := FindTypeEnd(input, pos);
    if e < |input| && input[e] == ':' {
      SeparatorIff(input, pos, e);
      ColonStep(input, pos, pd, gd);
    }
  }

  lemma NoSeparator(input: Ascii, c: Config)
    requires c.At? && ReadyAt(input, c) && c.state != LexGetterType
    ensures forall t :: t in Step(input, c.state, c.pos, c.parens, c.getters).toks ==> t.typ != GetterSeparator
  {
  }

  lemma StepHides(input: Ascii, c: Config)
    requires c.At? && ReadyAt(input, c)
    ensures AnyHides(input, Step(input, c.state, c.pos, c.parens, c.getters).toks) ==> AtHiddenColon(input, c)
  {
    if c.state == LexGetterType {
      TypeHides(input, c.pos, c.parens, c.getters);
    } else {
      NoSeparator(input, c);
    }
  }

  lemma {:induction false} HiddenErrs(input: Ascii, c: Config)
    requires ReadyAt(input, c)
    ensures HidesColon(input, Scan(input, c)) ==> HasError(Scan(input, c))
    decreases if c.At? then |input| - c.pos + 1 else 0, if c.At? then Rank(c.state) else 0
  {
    if c.At? {
      var m := Step(input, c.state, c.pos, c.parens, c.getters);
      ScanStep(input, c, m);
      StepHides(input, c);
      HidesBehind(input, m.toks, Scan(input, m.next));
      ErrorBehind(m.toks, Scan(input, m.next));
      HiddenErrs(input, m.next);
      if AtHiddenColon(input, c) {
        HiddenAtOnce(input, c);
      }
    }
  }

  lemma HiddenAtOnce(input: Ascii, c: Config)
    requires AtHiddenColon(input, c)
    ensures HasError(Scan(input, c))
  {
    var typ, sep, fault := ColonHidden(input, c.pos, FindTypeEnd(input, c.pos), c.parens, c.getters);
    ErrorBehind([fault], Ended);
    ErrorBehind([typ, sep], Emit([fault], Ended));
  }

  /** A file in which some getter has white space in front of its colon is never read. */
  lemma HiddenColonUnreadable(input: Ascii, tree: Tree)
    requires HidesColon(input, Lex(input))
    ensures !Generate(Lex(input), tree).Ok?
  {
    HiddenErrs(input, At(LexComment, 0, 0, 0));
    ReadHasNoError(input, tree);
  }

  lemma OpensDefinition(input: Ascii)
    requires |input| >= 4 && input[0] == '(' && input[1] == 'a' && input[2] == ' ' && input[3] == '['
    ensures Lex(input) ==
            Emit([Slice(input, LeftPromise, 0, 1)],
                 Emit([Slice(input, PromiseName, 1, 2)], Scan(input, At(LexInsidePromise, 2, 1, 0))))
  {
    SkipSpaceIs(input, 1, 1);
    NameEndIs(input, 1, 3);
    TrimBackIs(input, 3, 2);
    var open, name := Slice(input, LeftPromise, 0, 1), Slice(input, PromiseName, 1, 2);
    ScanStep(input, At(LexComment, 0, 0, 0), Move([], At(LexPromiseOpening, 0, 0, 0)));
    ScanStep(input, At(LexPromiseOpening, 0, 0, 0), Move([open], At(LexPromiseName, 1, 1, 0)));
    ScanStep(input, At(LexPromiseName, 1, 1, 0), Move([name], At(LexInsidePromise, 2, 1, 0)));
  }

  lemma OpensFirst(input: Ascii)
    requires |input| >= 4 && input[2] == ' ' && input[3] == '['
    ensures Ready(input, LexGetterType, 4)
    ensures Scan(input, At(LexInsidePromise, 2, 1, 0)) ==
            Emit([Slice(input, LeftGetter, 3, 4)], Scan(input, At(LexGetterType, 4, 1, 1)))
  {
    SkipSpaceIs(input, 2, 3);
    SkipSpaceIs(input, 3, 3);
    ScanStep(input, At(LexInsidePromise, 2, 1, 0), Move([], At(LexInsideGetter, 3, 1, 0)));
    ScanStep(input, At(LexInsideGetter, 3, 1, 0), Move([], At(LexGetterOpening, 3, 1, 0)));
    ScanStep(input, At(LexGetterOpening, 3, 1, 0), Move([Slice(input, LeftGetter, 3, 4)], At(LexGetterType, 4, 1, 1)));
  }

  /** The tokens in front of the first getter of a definition a. */
  lemma OpensGetter(input: Ascii) returns (toks: seq<Token>)
    requires |input| >= 4 && input[..4] == "(a ["
    ensures Ready(input, LexGetterType, 4)
    ensures Lex(input) == Emit(toks, Scan(input, At(LexGetterType, 4, 1, 1)))
  {
    assert forall i :: 0 <= i < 4 ==> input[i] == input[..4][i];
    OpensDefinition(input);
    OpensFirst(input);
    var open, name, get := Slice(input, LeftPromise, 0, 1), Slice(input, PromiseName, 1, 2),
                           Slice(input, LeftGetter, 3, 4);
    toks := [open] + ([name] + [get]);
    var rest := Scan(input, At(LexGetterType, 4, 1, 1));
    EmitConcat([name], [get], rest);
    EmitConcat([open], [name] + [get], rest);
  }

  /** So `(a [var :x])` is not read, nor any file that starts so, whatever the getter type and
      whatever follows. */
  lemma HiddenColonFile(input: Ascii, e: nat, tree: Tree)
    requires 4 < e < |input| && input[..4] == "(a [" && input[e - 1] == ' ' && input[e] == ':'
    requires forall i :: 4 <= i < e ==> !EndsType(input[i])
    ensures HasError(Lex(input)) && !Generate(Lex(input), tree).Ok?
  {
    var toks := OpensGetter(input);
    assert FindTypeEnd(input, 4) == e by {
      TypeEndIs(input, 4, e);
    }
    HiddenAtOnce(input, At(LexGetterType, 4, 1, 1));
    ErrorBehind(toks, Scan(input, At(LexGetterType, 4, 1, 1)));
    ReadHasNoError(input, tree);
  }

  lemma TypeEndIs(input: Ascii, pos: nat, e: nat)
    requires pos <= e <= |input| && (e < |input| ==> EndsType(input[e])) &&
             forall j :: pos <= j < e ==> !EndsType(input[j])
    ensures FindTypeEnd(input, pos) == e
  {
  }

  const UNCLOSED := "unclosed getter"

  /** The state functions whose loop goes on behind the error that they send at the end of the file. */
  predicate LoopsAtEnd(input: Ascii, c: Config)
    requires ReadyAt(input, c)
  {
    c.At? &&
    ((c.state == LexGetterType && FindTypeEnd(input, c.pos) == |input|) ||
     (c.state == LexGetterValue && NameEnd(input, c.pos) == |input|))
  }

  /** From c on the lexer gets into one of these loops at the end of the file. */
  predicate Loops(input: Ascii, c: Config)
    requires ReadyAt(input, c)
    decreases if c.At? then |input| - c.pos + 1 else 0, if c.At? then Rank(c.state) else 0
  {
    LoopsAtEnd(input, c) || (c.At? && Loops(input, Step(input, c.state, c.pos, c.parens, c.getters).next))
  }

  /** The tokens end in the error of an unclosed getter. */
  predicate EndsUnclosed(s: Stream) {
    s.Next? && ((s.head.typ == Error && s.head.val == UNCLOSED) || EndsUnclosed(s.tail))
  }

  predicate AnyUnclosed(toks: seq<Token>) {
    exists t :: t in toks && t.typ == Error && t.val == UNCLOSED
  }

  lemma {:induction false} UnclosedBehind(toks: seq<Token>, rest: Stream)
    ensures EndsUnclosed(Emit(toks, rest)) <==> AnyUnclosed(toks) || EndsUnclosed(rest)
    decreases |toks|
  {
    if toks != [] {
      UnclosedBehind(toks[1..], rest);
      assert toks == [toks[0]] + toks[1..];
    }
  }

  predicate OtherMessage(t: Token) {
    t.typ == Error ==> |t.val| > 2 && t.val[2] == 'e'
  }

  lemma PromiseErrors(input: Ascii, c: Config, t: Token)
    requires c.At? && ReadyAt(input, c) && c.state in {LexPromiseName, LexInsidePromise, LexPromiseClosing, LexArgument}
    requires t in Step(input, c.state, c.pos, c.parens, c.getters).toks
    ensures OtherMessage(t)
  {
  }

  lemma OtherErrors(input: Ascii, c: Config, t: Token)
    requires c.At? && ReadyAt(input, c) && !(c.state in {LexGetterType, LexGetterValue})
    requires t in Step(input, c.state, c.pos, c.parens, c.getters).toks
    ensures OtherMessage(t)
  {
    if c.state in {LexPromiseName, LexInsidePromise, LexPromiseClosing, LexArgument} {
      PromiseErrors(input, c, t);
    }
  }

  lemma TypeUnclosed(input: Ascii, pos: nat, pd: int, gd: int)
    requires Ready(input, LexGetterType, pos)
    ensures AnyUnclosed(StepGetterType(input, pos, pd, gd).toks) <==> FindTypeEnd(input, pos) == |input|
  {
    if FindTypeEnd(input, pos) == |input| {
      var t := Fault(input, UNCLOSED, pos, |input|);
      assert t in StepGetterType(input, pos, pd, gd).toks;
    }
  }

  lemma ValueUnclosed(input: Ascii, pos: nat, pd: int, gd: int)
    requires Ready(input, LexGetterValue, pos)
    ensures AnyUnclosed(StepGetterValue(input, pos, pd, gd).toks) <==> NameEnd(input, pos) == |input|
  {
    var e := NameEnd(input, pos);
    if e == |input| {
      var t := Fault(input, UNCLOSED, pos, |input|);
      assert t in StepGetterValue(input, pos, pd, gd).toks;
    } else {
      assert Unexpected("inside getter value", input[e])[2] != UNCLOSED[2];
    }
  }

  lemma StepUnclosed(input: Ascii, c: Config)
    requires c.At? && ReadyAt(input, c)
    ensures AnyUnclosed(Step(input, c.state, c.pos, c.parens, c.getters).toks) <==> LoopsAtEnd(input, c)
  {
    if c.state == LexGetterType {
      TypeUnclosed(input, c.pos, c.parens, c.getters);
    } else if c.state == LexGetterValue {
      ValueUnclosed(input, c.pos, c.parens, c.getters);
    } else {
      forall t | t in Step(input, c.state, c.pos, c.parens, c.getters).toks ensures OtherMessage(t) {
        OtherErrors(input, c, t);
      }
    }
  }

  /** In the program the lexer's run ends if and only if its tokens, up to the first error, do not
      end in that of an unclosed getter. */
  lemma {:induction false} LoopsIff(input: Ascii, c: Config)
    requires ReadyAt(input, c)
    ensures Loops(input, c) <==> EndsUnclosed(Scan(input, c))
    decreases if c.At? then |input| - c.pos + 1 else 0, if c.At? then Rank(c.state) else 0
  {
    if c.At? {
      var m := Step(input, c.state, c.pos, c.parens, c.getters);
      ScanStep(input, c, m);
      StepUnclosed(input, c);
      UnclosedBehind(m.toks, Scan(input, m.next));
      LoopsIff(input, m.next);
    }
  }

  /** So it does not end on `(a [`, nor on any file that goes on like a getter type to its end. */
  lemma UnclosedFile(input: Ascii)
    requires |input| >= 4 && input[..4] == "(a [" && forall i :: 4 <= i < |input| ==> !EndsType(input[i])
    ensures Loops(input, At(LexComment, 0, 0, 0))
  {
    var toks := OpensGetter(input);
    TypeEndIs(input, 4, |input|);
    LoopsIff(input, At(LexGetterType, 4, 1, 1));
    UnclosedBehind(toks, Scan(input, At(LexGetterType, 4, 1, 1)));
    LoopsIff(input, At(LexComment, 0, 0, 0));
  }
}
