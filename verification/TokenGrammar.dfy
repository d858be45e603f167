/**
 What every token stream looks like: brackets nest, tokens tile the input, the run ends
 in EOF, Error or the panic of an empty name.
 */
module TokenGrammar {
  import opened Text
  import opened Tokens
  import opened Scanner

  /** Positions in the bracket language of tokens. */
  datatype Place =
    | TopLevel       // between definitions
    | PromiseStart   // just behind (
    | InPromise
    | ArgText        // just behind an opening quote
    | ArgEnd
    | GetterStart    // just behind [
    | TypeSeen
    | SeparatorSeen
    | ValueSeen
    | InGetter       // behind an item of a getter
    | Over           // EOF or an error has been sent

  /** A place together with the number of open promises and of open getters. */
  datatype Nest = Nest(place: Place, parens: nat, getters: nat)

  predicate Sound(n: Nest) {
    match n.place
    case TopLevel => n.parens == 0 && n.getters == 0
    case PromiseStart => n.parens > 0 && n.getters == 0
    case InPromise => n.parens > 0 && n.getters == 0
    case ArgText => n.parens > 0
    case ArgEnd => n.parens > 0
    case Over => true
    case _ => n.parens > 0 && n.getters > 0
  }

  datatype NextNest = Bad | Good(nest: Nest)

  function Closed(n: Nest): Place {
    if n.getters <= 1 then InPromise else InGetter
  }

  /** The one token grammar: which token may come where, and where it leads. */
  function After(n: Nest, t: Type): NextNest {
    if t == Error then (if n.place == Over then Bad else Good(n.(place := Over)))
    else match n.place
      case TopLevel =>
        (match t
         case Comment => Good(n)
         case LeftPromise => Good(Nest(PromiseStart, 1, 0))
         case EOF => Good(n.(place := Over))
         case _ => Bad)
      case PromiseStart => if t == PromiseName then Good(n.(place := InPromise)) else Bad
      case InPromise =>
        (match t
         case LeftPromise => Good(Nest(PromiseStart, n.parens + 1, n.getters))
         case RightPromise =>
           if n.parens == 0 then Bad
           else Good(Nest(if n.parens == 1 then TopLevel else InPromise, n.parens - 1, n.getters))
         case LeftArg => Good(n.(place := ArgText))
         case LeftGetter => Good(Nest(GetterStart, n.parens, n.getters + 1))
         case _ => Bad)
      case ArgText => if t == Argument then Good(n.(place := ArgEnd)) else Bad
      case ArgEnd =>
        if t == RightArg then Good(n.(place := if n.getters == 0 then InPromise else InGetter)) else Bad
      case GetterStart => if t == GetterType then Good(n.(place := TypeSeen)) else Bad
      case TypeSeen =>
        (match t
         case GetterSeparator => Good(n.(place := SeparatorSeen))
         case LeftArg => Good(n.(place := ArgText))
         case LeftGetter => Good(Nest(GetterStart, n.parens, n.getters + 1))
         case _ => Bad)
      case SeparatorSeen =>
        (match t
         case GetterValue => Good(n.(place := ValueSeen))
         case LeftArg => Good(n.(place := ArgText))
         case _ => Bad)
      case ValueSeen =>
        if t == RightGetter && n.getters > 0 then Good(Nest(Closed(n), n.parens, n.getters - 1)) else Bad
      case InGetter =>
        (match t
         case LeftArg => Good(n.(place := ArgText))
         case LeftGetter => Good(Nest(GetterStart, n.parens, n.getters + 1))
         case RightGetter => if n.getters > 0 then Good(Nest(Closed(n), n.parens, n.getters - 1)) else Bad
         case _ => Bad)
      case Over => Bad
  }

  /** The stream is a sentence of the grammar from n on, and is not cut short: it ends with
      EOF outside every bracket, with an error, or with the panic that only a promise name
      can cause. */
  predicate Grammatical(s: Stream, n: Nest) {
    match s
    case Next(t, rest) => After(n, t.typ).Good? && Grammatical(rest, After(n, t.typ).nest)
    case Ended => n.place == Over
    case Crashed => n.place == PromiseStart
  }

  predicate SeesAfterSpace(input: Ascii, pos: nat, c: char)
    requires pos <= |input|
  {
    SkipSpace(input, pos) < |input| && input[SkipSpace(input, pos)] == c
  }

  /** The grammar position a lexer configuration stands for. Where a state function is
      entered from several places, what it is about to read tells which token comes. */
  predicate Matches(input: Ascii, c: Config, n: Nest) {
    ReadyAt(input, c) && Sound(n) &&
    match c
    case Done => n.place == Over
    case Panic => n.place == PromiseStart
    case At(st, pos, pd, gd) =>
      pd == n.parens && gd == n.getters &&
      match st
      case LexComment => n.place == TopLevel
      case LexPromiseOpening => n.place == TopLevel || n.place == InPromise
      case LexPromiseName => n.place == PromiseStart
      case LexInsidePromise => n.place == InPromise
      case LexPromiseClosing => n.place == InPromise && input[pos] == ')'
      case LexArgument => n.place in {InPromise, InGetter, TypeSeen, SeparatorSeen}
      case LexInsideGetter =>
        n.place == InGetter || (n.place in {InPromise, TypeSeen} && SeesAfterSpace(input, pos, '['))
      case LexGetterOpening => n.place in {InPromise, InGetter, TypeSeen}
      case LexGetterType => n.place == GetterStart
      case LexGetterValue => n.place == SeparatorSeen
      case LexGetterClosing => n.place in {ValueSeen, InGetter}
  }

  /** Where n leads after a list of tokens. */
  function Run(toks: seq<Token>, n: Nest): NextNest {
    if toks == [] then Good(n)
    else match After(n, toks[0].typ)
      case Bad => Bad
      case Good(m) => Run(toks[1..], m)
  }

  lemma GrammaticalEmit(toks: seq<Token>, rest: Stream, n: Nest)
    requires Run(toks, n).Good? && Grammatical(rest, Run(toks, n).nest)
    ensures Grammatical(Emit(toks, rest), n)
  {
    if toks != [] {
      GrammaticalEmit(toks[1..], rest, After(n, toks[0].typ).nest);
    }
  }

  lemma RunOne(t: Token, n: Nest)
    ensures Run([t], n) == After(n, t.typ)
  {
  }

  lemma RunMore(t: Token, toks: seq<Token>, n: Nest)
    requires After(n, t.typ).Good?
    ensures Run([t] + toks, n) == Run(toks, After(n, t.typ).nest)
  {
    assert ([t] + toks)[1..] == toks;
  }

  lemma RunTwo(a: Token, b: Token, n: Nest)
    requires After(n, a.typ).Good?
    ensures Run([a, b], n) == After(After(n, a.typ).nest, b.typ)
  {
    assert [a, b] == [a] + [b];
    RunMore(a, [b], n);
    RunOne(b, After(n, a.typ).nest);
  }

  /** The step from c keeps the grammar. */
  ghost predicate Keeps(input: Ascii, m: Move, n: Nest) {
    Run(m.toks, n).Good? && Matches(input, m.next, Run(m.toks, n).nest)
  }

  lemma RunArgument(open: Token, arg: Token, close: Token, n: Nest)
    requires open.typ == LeftArg && arg.typ == Argument && close.typ == RightArg &&
             After(n, LeftArg) == Good(n.(place := ArgText))
    ensures Run([open, arg, close], n) == Good(n.(place := if n.getters == 0 then InPromise else InGetter))
  {
    RunTwo(arg, close, n.(place := ArgText));
    RunMore(open, [arg, close], n);
    assert [open] + [arg, close] == [open, arg, close];
  }

  lemma TakesArgument(input: Ascii, pos: nat, n: Nest)
    requires Matches(input, At(LexArgument, pos, n.parens, n.getters), n)
    ensures Ready(input, LexArgument, pos) && n.parens > 0 && After(n, LeftArg) == Good(n.(place := ArgText))
  {
  }

  lemma BehindArgument(input: Ascii, k: nat, n: Nest)
    requires k <= |input| && n.parens > 0
    ensures var m := n.(place := if n.getters == 0 then InPromise else InGetter);
            Matches(input, At(AfterGetterPart(n.getters), k, n.parens, n.getters), m)
  {
  }

  lemma ArgumentKeeps(input: Ascii, pos: nat, n: Nest)
    requires Matches(input, At(LexArgument, pos, n.parens, n.getters), n)
    ensures Keeps(input, StepArgument(input, pos, n.parens, n.getters), n)
  {
    TakesArgument(input, pos, n);
    var a := SkipSpace(input, pos);
    var q := FindQuote(input, a + 1);
    var open := Slice(input, LeftArg, a, a + 1);
    ArgumentIs(input, pos, a, q, n.parens, n.getters);
    if q == |input| {
      RunTwo(open, Fault(input, "unexpected eof in argument", a + 1, q), n);
    } else {
      RunArgument(open, Slice(input, Argument, a + 1, q), Slice(input, RightArg, q, q + 1), n);
      BehindArgument(input, q + 1, n);
    }
  }

  /** A getter type that a colon ends. */
  lemma ColonKeeps(input: Ascii, pos: nat, n: Nest)
    requires Ready(input, LexGetterType, pos) && n.place == GetterStart && Sound(n)
    requires var e := FindTypeEnd(input, pos); e < |input| && input[e] == ':'
    ensures Keeps(input, StepGetterType(input, pos, n.parens, n.getters), n)
  {
    var t := TrimBack(input, FindTypeEnd(input, pos));
    var u := TrimBack(input, t + 1);
    ColonStep(input, pos, n.parens, n.getters);
    RunTwo(Slice(input, GetterType, pos, t), Slice(input, GetterSeparator, t, u), n);
  }

  /** A getter type that a quote or a bracket ends. */
  lemma ItemKeeps(input: Ascii, pos: nat, n: Nest)
    requires Ready(input, LexGetterType, pos) && n.place == GetterStart && Sound(n)
    requires var e := FindTypeEnd(input, pos); e < |input| && input[e] != ':'
    ensures Keeps(input, StepGetterType(input, pos, n.parens, n.getters), n)
  {
    var e := FindTypeEnd(input, pos);
    var t := TrimBack(input, e);
    assert pos <= t;
    RunOne(Slice(input, GetterType, pos, t), n);
    SkipSpaceIs(input, t, e);
  }

  lemma GetterTypeKeeps(input: Ascii, pos: nat, n: Nest)
    requires Matches(input, At(LexGetterType, pos, n.parens, n.getters), n)
    ensures Keeps(input, StepGetterType(input, pos, n.parens, n.getters), n)
  {
    var e := FindTypeEnd(input, pos);
    if e == |input| {
      RunOne(Fault(input, "unclosed getter", pos, e), n);
    } else if input[e] == ':' {
      ColonKeeps(input, pos, n);
    } else {
      ItemKeeps(input, pos, n);
    }
  }

  lemma PromisePartKeeps(input: Ascii, c: Config, n: Nest)
    requires c.At? && Matches(input, c, n)
    requires c.state in {LexComment, LexPromiseOpening, LexPromiseName, LexInsidePromise, LexPromiseClosing}
    ensures Keeps(input, Step(input, c.state, c.pos, c.parens, c.getters), n)
  {
    var m := Step(input, c.state, c.pos, c.parens, c.getters);
    if m.toks != [] {
      RunOne(m.toks[0], n);
    }
  }

  lemma GetterPartKeeps(input: Ascii, c: Config, n: Nest)
    requires c.At? && Matches(input, c, n)
    requires c.state in {LexInsideGetter, LexGetterOpening, LexGetterClosing}
    ensures Keeps(input, Step(input, c.state, c.pos, c.parens, c.getters), n)
  {
    var m := Step(input, c.state, c.pos, c.parens, c.getters);
    if m.toks != [] {
      RunOne(m.toks[0], n);
    }
  }

  lemma GetterValueKeeps(input: Ascii, pos: nat, n: Nest)
    requires Matches(input, At(LexGetterValue, pos, n.parens, n.getters), n)
    ensures Keeps(input, StepGetterValue(input, pos, n.parens, n.getters), n)
  {
    var m := StepGetterValue(input, pos, n.parens, n.getters);
    if m.toks != [] {
      RunOne(m.toks[0], n);
    }
  }

  lemma StepKeeps(input: Ascii, c: Config, n: Nest)
    requires c.At? && Matches(input, c, n)
    ensures Keeps(input, Step(input, c.state, c.pos, c.parens, c.getters), n)
  {
    match c.state
    case LexArgument => ArgumentKeeps(input, c.pos, n);
    case LexGetterType => GetterTypeKeeps(input, c.pos, n);
    case LexGetterValue => GetterValueKeeps(input, c.pos, n);
    case LexInsideGetter => GetterPartKeeps(input, c, n);
    case LexGetterOpening => GetterPartKeeps(input, c, n);
    case LexGetterClosing => GetterPartKeeps(input, c, n);
    case _ => PromisePartKeeps(input, c, n);
  }

  /** From any configuration the lexer can be in, what it sends is a sentence of the grammar. */
  lemma {:induction false} ScanGrammatical(input: Ascii, c: Config, n: Nest)
    requires Matches(input, c, n)
    ensures Grammatical(Scan(input, c), n)
    decreases if c.At? then |input| - c.pos + 1 else 0, if c.At? then Rank(c.state) else 0
  {
    if c.At? {
      StepKeeps(input, c, n);
      var m := Step(input, c.state, c.pos, c.parens, c.getters);
      ScanGrammatical(input, m.next, Run(m.toks, n).nest);
      GrammaticalEmit(m.toks, Scan(input, m.next), n);
    }
  }

  const OUTSIDE := Nest(TopLevel, 0, 0)

  /** The grammar theorem: on every input the token stream nests properly in promise,
      argument and getter brackets, names every promise at once, and ends in EOF only
      outside all brackets. */
  lemma LexGrammatical(input: Ascii)
    ensures Grammatical(Lex(input), OUTSIDE)
  {
    ScanGrammatical(input, At(LexComment, 0, 0, 0), OUTSIDE);
  }
}
