/**
 The reference scanner: what one state function of the lexer consumes and emits, said by
 "skip white space, take the longest run, cut trailing white space" instead of by
 moving a cursor back and forth. Lexer.dfy proves the state functions against it.
 */
module Scanner {
  import opened Text
  import opened Tokens

  datatype State =
    | LexComment
    | LexPromiseOpening
    | LexPromiseName
    | LexInsidePromise
    | LexPromiseClosing
    | LexArgument
    | LexInsideGetter
    | LexGetterOpening
    | LexGetterType
    | LexGetterValue
    | LexGetterClosing

  /** Where the lexer stands between two state functions. */
  datatype Config =
    | At(state: State, pos: nat, parens: int, getters: int)
    | Done
    | Panic

  datatype Move = Move(toks: seq<Token>, next: Config)

  /** What a state function relies on when it is entered. */
  predicate Ready(input: Ascii, st: State, pos: nat) {
    pos <= |input| &&
    match st
    case LexPromiseOpening => pos < |input| && input[pos] == '('
    case LexPromiseName => pos > 0 && input[pos - 1] == '('
    case LexPromiseClosing => pos < |input|
    case LexArgument => SkipSpace(input, pos) < |input| && input[SkipSpace(input, pos)] == '"'
    case LexGetterOpening => pos < |input| && input[pos] == '['
    case LexGetterType => pos > 0 && input[pos - 1] == '['
    case LexGetterValue => pos > 0 && !IsSpace(input[pos - 1])
    case LexGetterClosing => SkipSpace(input, pos) < |input| && input[SkipSpace(input, pos)] == ']'
    case _ => true
  }

  predicate ReadyAt(input: Ascii, c: Config) {
    c.At? ==> Ready(input, c.state, c.pos)
  }

  function FindQuote(s: string, i: nat): (k: nat)
    requires i <= |s|
    ensures i <= k <= |s|
    ensures forall j :: i <= j < k ==> s[j] != '"'
    ensures k < |s| ==> s[k] == '"'
    decreases |s| - i
  {
    if i < |s| && s[i] != '"' then FindQuote(s, i + 1) else i
  }

  predicate EndsType(c: char) {
    c == ':' || c == '"' || c == '['
  }

  function FindTypeEnd(s: string, i: nat): (k: nat)
    requires i <= |s|
    ensures i <= k <= |s|
    ensures forall j :: i <= j < k ==> !EndsType(s[j])
    ensures k < |s| ==> EndsType(s[k])
    decreases |s| - i
  {
    if i < |s| && !EndsType(s[i]) then FindTypeEnd(s, i + 1) else i
  }

  function Stop(tok: Token): Move {
    Move([tok], Done)
  }

  /** What stands for the end of the input in a message. */
  const NO_CHAR := '\U{FFFD}'

  function Unexpected(place: string, c: char): string {
    "unexpected char " + place + ": " + Quoted(c)
  }

  function AfterGetterPart(getters: int): State {
    if getters == 0 then LexInsidePromise else LexInsideGetter
  }

  /** Orders the states that can follow one another without consuming input. */
  function Rank(st: State): nat {
    match st
    case LexPromiseName => 4
    case LexInsidePromise => 3
    case LexGetterType => 3
    case LexGetterValue => 2
    case LexInsideGetter => 2
    case LexComment => 2
    case _ => 1
  }

  /** Every state function moves forward or, standing still, falls in rank, and leaves
      the next one what it relies on. */
  predicate Advances(input: Ascii, st: State, pos: nat, c: Config) {
    ReadyAt(input, c) &&
    (c.At? ==> pos < c.pos || (pos == c.pos && Rank(c.state) < Rank(st)))
  }

  function StepComment(input: Ascii, pos: nat, pd: int, gd: int): (m: Move)
    requires Ready(input, LexComment, pos)
    ensures Advances(input, LexComment, pos, m.next)
  {
    if pos == |input| then Stop(Slice(input, EOF, pos, pos))
    else if input[pos] == '(' then Move([], At(LexPromiseOpening, pos, pd, gd))
    else Move([Slice(input, Comment, pos, pos + 1)], At(LexComment, pos + 1, pd, gd))
  }

  function StepPromiseName(input: Ascii, pos: nat, pd: int, gd: int): (m: Move)
    requires Ready(input, LexPromiseName, pos)
    ensures Advances(input, LexPromiseName, pos, m.next)
  {
    var a := SkipSpace(input, pos);
    var e := NameEnd(input, a);
    if e == |input| then Stop(Fault(input, "unexpected eof in promise", a, e))
    else
      var t := TrimBack(input, e);
      // the slice of the name is out of bounds
      if t < a then Move([], Panic)
      else Move([Slice(input, PromiseName, a, t)], At(LexInsidePromise, t, pd, gd))
  }

  function StepInsidePromise(input: Ascii, pos: nat, pd: int, gd: int): (m: Move)
    requires Ready(input, LexInsidePromise, pos)
    ensures Advances(input, LexInsidePromise, pos, m.next)
  {
    var k := SkipSpace(input, pos);
    if k == |input| then Stop(Fault(input, "unexpected eof in promise", pos, k))
    else match input[k]
      case '(' => Move([], At(LexPromiseOpening, k, pd, gd))
      case ')' => Move([], At(LexPromiseClosing, k, pd, gd))
      case '[' => Move([], At(LexInsideGetter, k, pd, gd))
      case '"' => Move([], At(LexArgument, k, pd, gd))
      case _ => Stop(Fault(input, Unexpected("inside promise", input[k]), pos, k + 1))
  }

  function StepPromiseClosing(input: Ascii, pos: nat, pd: int, gd: int): (m: Move)
    requires Ready(input, LexPromiseClosing, pos)
    ensures Advances(input, LexPromiseClosing, pos, m.next)
  {
    var k := SkipSpace(input, pos);
    if k < |input| && input[k] == ')' then
      Move([Slice(input, RightPromise, k, k + 1)],
           At(if pd - 1 == 0 then LexComment else LexInsidePromise, k + 1, pd - 1, gd))
    else
      Stop(Fault(input, Unexpected("at end of promise", if k < |input| then input[k] else NO_CHAR), k,
                 if k < |input| then k + 1 else k))
  }

  function StepArgument(input: Ascii, pos: nat, pd: int, gd: int): (m: Move)
    requires Ready(input, LexArgument, pos)
    ensures Advances(input, LexArgument, pos, m.next)
  {
    var a := SkipSpace(input, pos);
    var q := FindQuote(input, a + 1);
    var open := Slice(input, LeftArg, a, a + 1);
    if q == |input| then Move([open, Fault(input, "unexpected eof in argument", a + 1, q)], Done)
    else Move([open, Slice(input, Argument, a + 1, q), Slice(input, RightArg, q, q + 1)],
              At(AfterGetterPart(gd), q + 1, pd, gd))
  }

  /** The step over an argument with its quotes at a and q. */
  lemma ArgumentIs(input: Ascii, pos: nat, a: nat, q: nat, pd: int, gd: int)
    requires Ready(input, LexArgument, pos) && a == SkipSpace(input, pos) && q == FindQuote(input, a + 1)
    ensures StepArgument(input, pos, pd, gd) ==
            if q == |input| then
              Move([Slice(input, LeftArg, a, a + 1), Fault(input, "unexpected eof in argument", a + 1, q)], Done)
            else
              Move([Slice(input, LeftArg, a, a + 1), Slice(input, Argument, a + 1, q),
                    Slice(input, RightArg, q, q + 1)],
                   At(AfterGetterPart(gd), q + 1, pd, gd))
  {
  }

  function StepInsideGetter(input: Ascii, pos: nat, pd: int, gd: int): (m: Move)
    requires Ready(input, LexInsideGetter, pos)
    ensures Advances(input, LexInsideGetter, pos, m.next)
  {
    var k := SkipSpace(input, pos);
    if k == |input| then Stop(Fault(input, "unexpected eof in getter", k, k))
    else match input[k]
      case '[' => Move([], At(LexGetterOpening, k, pd, gd))
      case ']' => Move([], At(LexGetterClosing, k, pd, gd))
      case '"' => Move([], At(LexArgument, k, pd, gd))
      case _ => Stop(Fault(input, Unexpected("inside getter", input[k]), k, k + 1))
  }

  function StepGetterType(input: Ascii, pos: nat, pd: int, gd: int): (m: Move)
    requires Ready(input, LexGetterType, pos)
    ensures Advances(input, LexGetterType, pos, m.next)
  {
    var e := FindTypeEnd(input, pos);
    if e == |input| then Stop(Fault(input, "unclosed getter", pos, e))
    else
      var t := TrimBack(input, e);
      var typ := Slice(input, GetterType, pos, t);
      match input[e]
      case ':' =>
        // white space before the colon hides it: the separator is then empty
        var u := TrimBack(input, t + 1);
        assert u >= t;
        Move([typ, Slice(input, GetterSeparator, t, u)], At(LexGetterValue, u, pd, gd))
      case '"' => Move([typ], At(LexArgument, t, pd, gd))
      case _ => Move([typ], At(LexInsideGetter, t, pd, gd))
  }

  /** The step at a getter type that a colon ends. */
  lemma ColonStep(input: Ascii, pos: nat, pd: int, gd: int)
    requires Ready(input, LexGetterType, pos)
    requires var e := FindTypeEnd(input, pos); e < |input| && input[e] == ':'
    ensures var t := TrimBack(input, FindTypeEnd(input, pos));
            var u := TrimBack(input, t + 1);
            pos <= t <= u <= |input| && (input[t..u] == ":" || input[t..u] == "") &&
            StepGetterType(input, pos, pd, gd) ==
            Move([Slice(input, GetterType, pos, t), Slice(input, GetterSeparator, t, u)], At(LexGetterValue, u, pd, gd))
  {
    var e := FindTypeEnd(input, pos);
    var t := TrimBack(input, e);
    assert t >= pos;
    var u := TrimBack(input, t + 1);
    assert u == t || u == t + 1;
    if u == t + 1 {
      assert input[t..u] == [input[t]];
      assert t == e by {
        assert !IsSpace(input[t]);
      }
    }
  }

  function StepGetterValue(input: Ascii, pos: nat, pd: int, gd: int): (m: Move)
    requires Ready(input, LexGetterValue, pos)
    ensures Advances(input, LexGetterValue, pos, m.next)
  {
    var e := NameEnd(input, pos);
    if e == |input| then Stop(Fault(input, "unclosed getter", pos, e))
    else match input[e]
      case ']' => var t := TrimBack(input, e);
                  Move([Slice(input, GetterValue, pos, t)], At(LexGetterClosing, t, pd, gd))
      case '"' => Move([], At(LexArgument, e, pd, gd))
      case _ => Stop(Fault(input, Unexpected("inside getter value", input[e]), pos, e + 1))
  }

  function StepGetterClosing(input: Ascii, pos: nat, pd: int, gd: int): (m: Move)
    requires Ready(input, LexGetterClosing, pos)
    ensures Advances(input, LexGetterClosing, pos, m.next)
  {
    var k := SkipSpace(input, pos);
    Move([Slice(input, RightGetter, k, k + 1)], At(AfterGetterPart(gd - 1), k + 1, pd, gd - 1))
  }

  function Step(input: Ascii, st: State, pos: nat, pd: int, gd: int): (m: Move)
    requires Ready(input, st, pos)
    ensures Advances(input, st, pos, m.next)
  {
    match st
    case LexComment => StepComment(input, pos, pd, gd)
    case LexPromiseOpening => Move([Slice(input, LeftPromise, pos, pos + 1)], At(LexPromiseName, pos + 1, pd + 1, gd))
    case LexPromiseName => StepPromiseName(input, pos, pd, gd)
    case LexInsidePromise => StepInsidePromise(input, pos, pd, gd)
    case LexPromiseClosing => StepPromiseClosing(input, pos, pd, gd)
    case LexArgument => StepArgument(input, pos, pd, gd)
    case LexInsideGetter => StepInsideGetter(input, pos, pd, gd)
    case LexGetterOpening => Move([Slice(input, LeftGetter, pos, pos + 1)], At(LexGetterType, pos + 1, pd, gd + 1))
    case LexGetterType => StepGetterType(input, pos, pd, gd)
    case LexGetterValue => StepGetterValue(input, pos, pd, gd)
    case LexGetterClosing => StepGetterClosing(input, pos, pd, gd)
  }

  /** Everything the lexer sends from configuration c on. */
  function Scan(input: Ascii, c: Config): (s: Stream)
    requires ReadyAt(input, c)
    decreases if c.At? then |input| - c.pos + 1 else 0, if c.At? then Rank(c.state) else 0
  {
    match c
    case Done => Ended
    case Panic => Crashed
    case At(st, pos, pd, gd) =>
      var m := Step(input, st, pos, pd, gd);
      Emit(m.toks, Scan(input, m.next))
  }

  lemma ScanStep(input: Ascii, c: Config, m: Move)
    requires c.At? && ReadyAt(input, c) && Step(input, c.state, c.pos, c.parens, c.getters) == m
    ensures ReadyAt(input, m.next) && Scan(input, c) == Emit(m.toks, Scan(input, m.next))
  {
  }

  /** The value of a getter that starts on white space in front of a colon. */
  lemma HiddenValue(input: Ascii, t: nat, e: nat, pd: int, gd: int) returns (fault: Token)
    requires Ready(input, LexGetterValue, t) && t < e < |input| && input[e] == ':' &&
             forall j :: t <= j < e ==> IsSpace(input[j])
    ensures fault.typ == Error && StepGetterValue(input, t, pd, gd) == Stop(fault)
  {
    var k := NameEnd(input, t);
    assert k <= e;
    fault := Fault(input, Unexpected("inside getter value", input[k]), t, k + 1);
  }

  lemma HiddenEnd(input: Ascii, t: nat, e: nat, pd: int, gd: int) returns (fault: Token)
    requires Ready(input, LexGetterValue, t) && t < e < |input| && input[e] == ':' &&
             forall j :: t <= j < e ==> IsSpace(input[j])
    ensures fault.typ == Error && Scan(input, At(LexGetterValue, t, pd, gd)) == Emit([fault], Ended)
  {
    fault := HiddenValue(input, t, e, pd, gd);
    ScanStep(input, At(LexGetterValue, t, pd, gd), Stop(fault));
  }

  lemma HiddenSeparator(input: Ascii, pos: nat, e: nat, pd: int, gd: int)
    requires Ready(input, LexGetterType, pos) && e == FindTypeEnd(input, pos) < |input| && input[e] == ':' &&
             IsSpace(input[e - 1])
    ensures var t := TrimBack(input, e);
            pos <= t < e && StepGetterType(input, pos, pd, gd) ==
            Move([Slice(input, GetterType, pos, t), Slice(input, GetterSeparator, t, t)], At(LexGetterValue, t, pd, gd))
  {
    var t := TrimBack(input, e);
    assert t < e;
    TrimBackIs(input, t + 1, t);
    ColonStep(input, pos, pd, gd);
  }

  /** White space before the colon of a getter hides the colon: the separator is empty, and
      whatever follows, the lexer ends in an error. */
  lemma ColonHidden(input: Ascii, pos: nat, e: nat, pd: int, gd: int) returns (typ: Token, sep: Token, fault: Token)
    requires Ready(input, LexGetterType, pos) && e == FindTypeEnd(input, pos) < |input| && input[e] == ':' &&
             IsSpace(input[e - 1])
    ensures typ.typ == GetterType && sep.typ == GetterSeparator && sep.val == "" && fault.typ == Error
    ensures Scan(input, At(LexGetterType, pos, pd, gd)) == Emit([typ, sep], Emit([fault], Ended))
  {
    var t := TrimBack(input, e);
    HiddenSeparator(input, pos, e, pd, gd);
    fault := HiddenEnd(input, t, e, pd, gd);
    typ, sep := Slice(input, GetterType, pos, t), Slice(input, GetterSeparator, t, t);
    ScanStep(input, At(LexGetterType, pos, pd, gd), Move([typ, sep], At(LexGetterValue, t, pd, gd)));
  }

  /** The token stream of a whole file. */
  function Lex(input: Ascii): Stream {
    Scan(input, At(LexComment, 0, 0, 0))
  }
}
