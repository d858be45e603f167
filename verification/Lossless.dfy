/**
 Tokens tile the input: together with the white space between them they are the file, and
 the one way to crash the lexer is a promise name that is not there.
 */
module Lossless {
  import opened Text
  import opened Tokens
  import opened Scanner

  /** Not the message of the error at the end of a promise, which alone has an 'a' here. */
  predicate OtherMessage(msg: string) {
    |msg| < 17 || msg[16] != 'a'
  }

  lemma PlaceTells(place: string, c: char)
    requires place != ""
    ensures OtherMessage(Unexpected(place, c)) <==> place[0] != 'a'
  {
    assert Unexpected(place, c)[16] == place[0];
  }

  /** The bracket characters; the tokens of one character are that character. */
  predicate Spelled(t: Token) {
    match t.typ
    case Comment => |t.val| == 1 && t.val != "("
    case LeftPromise => t.val == "("
    case RightPromise => t.val == ")"
    case PromiseName => NameRunes(t.val) && TrimSpace(t.val) == t.val
    case LeftArg => t.val == "\""
    case RightArg => t.val == "\""
    case Argument => '"' !in t.val
    case LeftGetter => t.val == "["
    case GetterSeparator => t.val == ":" || t.val == ""
    case GetterValue => NameRunes(t.val) && (t.val == "" || t.val[|t.val| - 1] != ' ')
    case RightGetter => t.val == "]"
    case EOF => t.val == ""
    case Error => OtherMessage(t.val)
    case _ => true
  }

  /** White space and then a character that cannot start a name. */
  predicate EmptyName(input: Ascii, i: nat)
    requires i <= |input|
  {
    i < SkipSpace(input, i) < |input| && !IsNameRune(input[SkipSpace(input, i)])
  }

  predicate SpaceBetween(input: Ascii, a: nat, b: nat) {
    a <= b <= |input| && forall j :: a <= j < b ==> IsSpace(input[j])
  }

  /** What may be lost between two tokens: white space, or the value of a getter that turns
      out to be followed by a quote. */
  predicate Gap(input: Ascii, a: nat, b: nat, prev: Type, t: Type) {
    SpaceBetween(input, a, b) ||
    (prev == GetterSeparator && t == LeftArg && a <= b <= |input| && forall j :: a <= j < b ==> IsNameRune(input[j]))
  }

  /** The tokens of s cover the input from `from` on, where a token of type `prev` ended. */
  predicate Tiles(input: Ascii, s: Stream, from: nat, prev: Type) {
    from <= |input| &&
    match s
    case Next(t, rest) =>
      Spelled(t) && Line(input, from) <= t.line &&
      if t.typ == Error then rest == Ended
      else
        t.start <= t.end <= |input| && t.val == input[t.start..t.end] && t.line == Line(input, t.end) &&
        Gap(input, from, t.start, prev, t.typ) &&
        (t.typ == LeftPromise ==> (rest == Crashed <==> EmptyName(input, t.end))) &&
        Tiles(input, rest, t.end, t.typ)
    case Ended => prev == EOF && from == |input|
    case Crashed => prev == LeftPromise
  }

  /** What a configuration has passed over since the last token. */
  predicate Pending(input: Ascii, c: Config, from: nat, prev: Type) {
    from <= |input| && ReadyAt(input, c) &&
    match c
    case Done => prev == EOF && from == |input|
    case Panic => prev == LeftPromise
    case At(st, pos, _, _) =>
      && from <= pos
      && (SpaceBetween(input, from, pos) ||
          (st == LexArgument && input[pos] == '"' && prev == GetterSeparator && Gap(input, from, pos, prev, LeftArg)))
      && (st == LexPromiseName ==> from == pos && prev == LeftPromise)
      && (st == LexGetterValue ==> from == pos && prev == GetterSeparator)
      && (st == LexPromiseClosing ==> input[pos] == ')')
  }

  lemma TrimmedName(input: Ascii, a: nat, t: nat)
    requires a <= t <= |input| && forall j :: a <= j < t ==> IsNameRune(input[j])
    requires a < t ==> !IsSpace(input[a]) && !IsSpace(input[t - 1])
    ensures NameRunes(input[a..t]) && TrimSpace(input[a..t]) == input[a..t]
  {
    var w := input[a..t];
    if w != [] {
      SkipSpaceIs(w, 0, 0);
      TrimBackIs(w, |w|, |w|);
    }
  }

  /** A token other than `(` in its place behind `from`. */
  ghost predicate Tile(input: Ascii, t: Token, from: nat, prev: Type) {
    from <= |input| && Spelled(t) && Line(input, from) <= t.line && t.typ != LeftPromise &&
    (t.typ != Error ==>
       t.start <= t.end <= |input| && t.val == input[t.start..t.end] && t.line == Line(input, t.end) &&
       Gap(input, from, t.start, prev, t.typ))
  }

  /** Tokens other than `(`, each in its place behind the one before; only the last may be an error. */
  ghost predicate TileRun(input: Ascii, toks: seq<Token>, from: nat, prev: Type) {
    toks != [] ==>
      Tile(input, toks[0], from, prev) && (toks[0].typ == Error ==> |toks| == 1) &&
      TileRun(input, toks[1..], toks[0].end, toks[0].typ)
  }

  predicate Failed(toks: seq<Token>) {
    toks != [] && toks[|toks| - 1].typ == Error
  }

  function LastEnd(toks: seq<Token>, from: nat): nat {
    if toks == [] then from else toks[|toks| - 1].end
  }

  function LastType(toks: seq<Token>, prev: Type): Type {
    if toks == [] then prev else toks[|toks| - 1].typ
  }

  /** A step from a place covered up to `from`: its tokens are in place, and it leaves a
      configuration that is covered up to the last of them. */
  ghost predicate StepTiles(input: Ascii, m: Move, from: nat, prev: Type) {
    TileRun(input, m.toks, from, prev) &&
    if Failed(m.toks) then m.next == Done
    else Pending(input, m.next, LastEnd(m.toks, from), LastType(m.toks, prev))
  }

  lemma {:induction false} TileRunTiles(input: Ascii, toks: seq<Token>, rest: Stream, from: nat, prev: Type)
    requires from <= |input| && TileRun(input, toks, from, prev)
    requires if Failed(toks) then rest == Ended else Tiles(input, rest, LastEnd(toks, from), LastType(toks, prev))
    ensures Tiles(input, Emit(toks, rest), from, prev)
  {
    if toks != [] && toks[0].typ != Error {
      TileRunTiles(input, toks[1..], rest, toks[0].end, toks[0].typ);
    }
  }

  lemma SliceTile(input: Ascii, typ: Type, a: nat, b: nat, from: nat, prev: Type)
    requires a <= b <= |input| && Gap(input, from, a, prev, typ)
    requires Spelled(Slice(input, typ, a, b)) && typ != LeftPromise && typ != Error
    ensures Tile(input, Slice(input, typ, a, b), from, prev)
    ensures TileRun(input, [Slice(input, typ, a, b)], from, prev)
  {
    LineGrows(input, from, b);
  }

  lemma FaultTile(input: Ascii, msg: string, a: nat, b: nat, from: nat, prev: Type)
    requires from <= b <= |input| && OtherMessage(msg)
    ensures TileRun(input, [Fault(input, msg, a, b)], from, prev)
  {
    LineGrows(input, from, b);
  }

  lemma TileRunMore(input: Ascii, t: Token, toks: seq<Token>, from: nat, prev: Type)
    requires Tile(input, t, from, prev) && t.typ != Error && TileRun(input, toks, t.end, t.typ)
    ensures TileRun(input, [t] + toks, from, prev)
  {
    assert ([t] + toks)[1..] == toks;
  }

  lemma NameTiles(input: Ascii, pos: nat, pd: int, gd: int)
    requires Ready(input, LexPromiseName, pos)
    ensures StepTiles(input, StepPromiseName(input, pos, pd, gd), pos, LeftPromise)
  {
    var a := SkipSpace(input, pos);
    var e := NameEnd(input, a);
    if e == |input| {
      FaultTile(input, "unexpected eof in promise", a, e, pos, LeftPromise);
    } else if TrimBack(input, e) >= a {
      TrimmedName(input, a, TrimBack(input, e));
      SliceTile(input, PromiseName, a, TrimBack(input, e), pos, LeftPromise);
    }
  }

  /** The lexer panics on a promise name exactly when there is none behind the white space. */
  lemma CrashIsEmptyName(input: Ascii, pos: nat, pd: int, gd: int)
    requires Ready(input, LexPromiseName, pos)
    ensures Scan(input, At(LexPromiseName, pos, pd, gd)) == Crashed <==> EmptyName(input, pos)
  {
  }

  lemma CommentTiles(input: Ascii, pos: nat, pd: int, gd: int, from: nat, prev: Type)
    requires Pending(input, At(LexComment, pos, pd, gd), from, prev)
    ensures StepTiles(input, StepComment(input, pos, pd, gd), from, prev)
  {
    if pos == |input| {
      SliceTile(input, EOF, pos, pos, from, prev);
    } else if input[pos] != '(' {
      SliceTile(input, Comment, pos, pos + 1, from, prev);
    }
  }

  /** The three sorts of steps: one token, an error, or nothing. */
  lemma SendsOne(input: Ascii, typ: Type, a: nat, b: nat, next: Config, from: nat, prev: Type)
    requires a <= b <= |input| && Tile(input, Slice(input, typ, a, b), from, prev) && typ != Error
    requires Pending(input, next, b, typ)
    ensures StepTiles(input, Move([Slice(input, typ, a, b)], next), from, prev)
  {
  }

  lemma SendsFault(input: Ascii, msg: string, a: nat, b: nat, from: nat, prev: Type)
    requires from <= b <= |input| && OtherMessage(msg)
    ensures StepTiles(input, Stop(Fault(input, msg, a, b)), from, prev)
  {
    FaultTile(input, msg, a, b, from, prev);
  }

  lemma SendsUnexpected(input: Ascii, place: string, k: nat, a: nat, from: nat, prev: Type)
    requires from <= k < |input| && place != "" && place[0] != 'a'
    ensures StepTiles(input, Stop(Fault(input, Unexpected(place, input[k]), a, k + 1)), from, prev)
  {
    PlaceTells(place, input[k]);
    SendsFault(input, Unexpected(place, input[k]), a, k + 1, from, prev);
  }

  lemma SendsNothing(input: Ascii, next: Config, from: nat, prev: Type)
    requires Pending(input, next, from, prev)
    ensures StepTiles(input, Move([], next), from, prev)
  {
  }

  lemma InsidePromiseTiles(input: Ascii, pos: nat, pd: int, gd: int, from: nat, prev: Type)
    requires Pending(input, At(LexInsidePromise, pos, pd, gd), from, prev)
    ensures StepTiles(input, StepInsidePromise(input, pos, pd, gd), from, prev)
  {
    var k := SkipSpace(input, pos);
    if k == |input| {
      SendsFault(input, "unexpected eof in promise", pos, k, from, prev);
    } else if input[k] == '(' || input[k] == ')' || input[k] == '[' || input[k] == '"' {
      var next := StepInsidePromise(input, pos, pd, gd).next;
      SkipSpaceIs(input, k, k);
      SendsNothing(input, next, from, prev);
    } else {
      SendsUnexpected(input, "inside promise", k, pos, from, prev);
    }
  }

  lemma PromiseClosingTiles(input: Ascii, pos: nat, pd: int, gd: int, from: nat, prev: Type)
    requires Pending(input, At(LexPromiseClosing, pos, pd, gd), from, prev)
    ensures StepTiles(input, StepPromiseClosing(input, pos, pd, gd), from, prev)
  {
    SliceTile(input, RightPromise, pos, pos + 1, from, prev);
  }

  lemma InsideGetterTiles(input: Ascii, pos: nat, pd: int, gd: int, from: nat, prev: Type)
    requires Pending(input, At(LexInsideGetter, pos, pd, gd), from, prev)
    ensures StepTiles(input, StepInsideGetter(input, pos, pd, gd), from, prev)
  {
    var k := SkipSpace(input, pos);
    if k == |input| {
      SendsFault(input, "unexpected eof in getter", k, k, from, prev);
    } else if input[k] == '[' || input[k] == ']' || input[k] == '"' {
      var next := StepInsideGetter(input, pos, pd, gd).next;
      SkipSpaceIs(input, k, k);
      SendsNothing(input, next, from, prev);
    } else {
      SendsUnexpected(input, "inside getter", k, k, from, prev);
    }
  }

  lemma GetterOpeningTiles(input: Ascii, pos: nat, pd: int, gd: int, from: nat, prev: Type)
    requires Pending(input, At(LexGetterOpening, pos, pd, gd), from, prev)
    ensures StepTiles(input, Step(input, LexGetterOpening, pos, pd, gd), from, prev)
  {
    SliceTile(input, LeftGetter, pos, pos + 1, from, prev);
    SendsOne(input, LeftGetter, pos, pos + 1, At(LexGetterType, pos + 1, pd, gd + 1), from, prev);
  }

  lemma ItemPending(input: Ascii, k: nat, pd: int, gd: int, prev: Type)
    requires k <= |input|
    ensures Pending(input, At(AfterGetterPart(gd), k, pd, gd), k, prev)
  {
  }

  lemma SpaceOn(input: Ascii, from: nat, pos: nat)
    requires SpaceBetween(input, from, pos)
    ensures SpaceBetween(input, from, SkipSpace(input, pos))
  {
  }

  lemma BracketTile(input: Ascii, k: nat, from: nat, prev: Type)
    requires SpaceBetween(input, from, k) && k < |input| && input[k] == ']'
    ensures Tile(input, Slice(input, RightGetter, k, k + 1), from, prev)
  {
    assert input[k..k + 1] == "]";
    SliceTile(input, RightGetter, k, k + 1, from, prev);
  }

  lemma ClosingTiles(input: Ascii, k: nat, pd: int, gd: int, from: nat, prev: Type)
    requires SpaceBetween(input, from, k) && k < |input| && input[k] == ']'
    ensures StepTiles(input, Move([Slice(input, RightGetter, k, k + 1)], At(AfterGetterPart(gd), k + 1, pd, gd)),
                      from, prev)
  {
    BracketTile(input, k, from, prev);
    ItemPending(input, k + 1, pd, gd, RightGetter);
    SendsOne(input, RightGetter, k, k + 1, At(AfterGetterPart(gd), k + 1, pd, gd), from, prev);
  }

  lemma GetterClosingTiles(input: Ascii, pos: nat, pd: int, gd: int, from: nat, prev: Type)
    requires Pending(input, At(LexGetterClosing, pos, pd, gd), from, prev)
    ensures StepTiles(input, StepGetterClosing(input, pos, pd, gd), from, prev)
  {
    SpaceOn(input, from, pos);
    ClosingTiles(input, SkipSpace(input, pos), pd, gd - 1, from, prev);
  }

  lemma ClosedValueTiles(input: Ascii, pos: nat, e: nat, pd: int, gd: int)
    requires Ready(input, LexGetterValue, pos) && e == NameEnd(input, pos) < |input| && input[e] == ']'
    ensures var t := TrimBack(input, e);
            t <= e && StepTiles(input, Move([Slice(input, GetterValue, pos, t)], At(LexGetterClosing, t, pd, gd)),
                                pos, GetterSeparator)
  {
    var t := TrimBack(input, e);
    assert pos <= t;
    assert t > pos ==> input[pos..t][t - pos - 1] == input[t - 1];
    SkipSpaceIs(input, t, e);
    SliceTile(input, GetterValue, pos, t, pos, GetterSeparator);
    SendsOne(input, GetterValue, pos, t, At(LexGetterClosing, t, pd, gd), pos, GetterSeparator);
  }

  lemma GetterValueTiles(input: Ascii, pos: nat, pd: int, gd: int)
    requires Ready(input, LexGetterValue, pos)
    ensures StepTiles(input, StepGetterValue(input, pos, pd, gd), pos, GetterSeparator)
  {
    var e := NameEnd(input, pos);
    if e == |input| {
      SendsFault(input, "unclosed getter", pos, e, pos, GetterSeparator);
    } else if input[e] == ']' {
      ClosedValueTiles(input, pos, e, pd, gd);
    } else if input[e] == '"' {
      SkipSpaceIs(input, e, e);
      SendsNothing(input, At(LexArgument, e, pd, gd), pos, GetterSeparator);
    } else {
      SendsUnexpected(input, "inside getter value", e, pos, pos, GetterSeparator);
    }
  }

  /** A getter type and the separator behind it. */
  lemma SeparatorTiles(input: Ascii, pos: nat, t: nat, u: nat, from: nat, prev: Type)
    requires pos <= t <= u <= |input| && Gap(input, from, pos, prev, GetterType)
    requires input[t..u] == ":" || input[t..u] == ""
    ensures TileRun(input, [Slice(input, GetterType, pos, t), Slice(input, GetterSeparator, t, u)], from, prev)
  {
    SliceTile(input, GetterType, pos, t, from, prev);
    SliceTile(input, GetterSeparator, t, u, t, GetterType);
    TileRunMore(input, Slice(input, GetterType, pos, t), [Slice(input, GetterSeparator, t, u)], from, prev);
  }

  lemma ValuePending(input: Ascii, u: nat, pd: int, gd: int)
    requires Ready(input, LexGetterValue, u)
    ensures Pending(input, At(LexGetterValue, u, pd, gd), u, GetterSeparator)
  {
  }

  lemma TypeThenColon(input: Ascii, pos: nat, pd: int, gd: int, from: nat, prev: Type)
    requires Pending(input, At(LexGetterType, pos, pd, gd), from, prev)
    requires var e := FindTypeEnd(input, pos); e < |input| && input[e] == ':'
    ensures StepTiles(input, StepGetterType(input, pos, pd, gd), from, prev)
  {
    var t := TrimBack(input, FindTypeEnd(input, pos));
    var u := TrimBack(input, t + 1);
    ColonStep(input, pos, pd, gd);
    SeparatorTiles(input, pos, t, u, from, prev);
    ValuePending(input, u, pd, gd);
  }

  lemma TypeThenItem(input: Ascii, pos: nat, pd: int, gd: int, from: nat, prev: Type)
    requires Pending(input, At(LexGetterType, pos, pd, gd), from, prev)
    requires var e := FindTypeEnd(input, pos); e < |input| && input[e] != ':'
    ensures StepTiles(input, StepGetterType(input, pos, pd, gd), from, prev)
  {
    var e := FindTypeEnd(input, pos);
    SliceTile(input, GetterType, pos, TrimBack(input, e), from, prev);
    SkipSpaceIs(input, TrimBack(input, e), e);
  }

  lemma GetterTypeTiles(input: Ascii, pos: nat, pd: int, gd: int, from: nat, prev: Type)
    requires Pending(input, At(LexGetterType, pos, pd, gd), from, prev)
    ensures StepTiles(input, StepGetterType(input, pos, pd, gd), from, prev)
  {
    var e := FindTypeEnd(input, pos);
    if e == |input| {
      FaultTile(input, "unclosed getter", pos, e, from, prev);
    } else if input[e] == ':' {
      TypeThenColon(input, pos, pd, gd, from, prev);
    } else {
      TypeThenItem(input, pos, pd, gd, from, prev);
    }
  }

  lemma GapToQuote(input: Ascii, c: Config, from: nat, prev: Type)
    requires c.At? && c.state == LexArgument && Pending(input, c, from, prev)
    ensures Ready(input, LexArgument, c.pos) && Gap(input, from, SkipSpace(input, c.pos), prev, LeftArg)
  {
  }

  /** Two and three tokens. */
  lemma SendsTwo(input: Ascii, a: Token, b: Token, from: nat, prev: Type)
    requires Tile(input, a, from, prev) && a.typ != Error && TileRun(input, [b], a.end, a.typ)
    ensures TileRun(input, [a, b], from, prev)
  {
    TileRunMore(input, a, [b], from, prev);
    assert [a] + [b] == [a, b];
  }

  lemma SendsThree(input: Ascii, a: Token, b: Token, c: Token, from: nat, prev: Type)
    requires Tile(input, a, from, prev) && a.typ != Error && TileRun(input, [b, c], a.end, a.typ)
    ensures TileRun(input, [a, b, c], from, prev)
  {
    TileRunMore(input, a, [b, c], from, prev);
    assert [a] + [b, c] == [a, b, c];
  }

  lemma QuoteTile(input: Ascii, typ: Type, a: nat, from: nat, prev: Type)
    requires typ == LeftArg || typ == RightArg
    requires a < |input| && Gap(input, from, a, prev, typ) && input[a] == '"'
    ensures Tile(input, Slice(input, typ, a, a + 1), from, prev)
    ensures TileRun(input, [Slice(input, typ, a, a + 1)], from, prev)
  {
    assert input[a..a + 1] == "\"";
    SliceTile(input, typ, a, a + 1, from, prev);
  }

  lemma UnclosedTiles(input: Ascii, a: nat, from: nat, prev: Type)
    requires a < |input| && Gap(input, from, a, prev, LeftArg) && input[a] == '"'
    ensures StepTiles(input,
                      Move([Slice(input, LeftArg, a, a + 1),
                            Fault(input, "unexpected eof in argument", a + 1, |input|)], Done), from, prev)
  {
    QuoteTile(input, LeftArg, a, from, prev);
    FaultTile(input, "unexpected eof in argument", a + 1, |input|, a + 1, LeftArg);
    SendsTwo(input, Slice(input, LeftArg, a, a + 1), Fault(input, "unexpected eof in argument", a + 1, |input|),
             from, prev);
  }

  lemma TextTile(input: Ascii, a: nat, q: nat)
    requires a <= q <= |input| && q == FindQuote(input, a)
    ensures Tile(input, Slice(input, Argument, a, q), a, LeftArg)
  {
    forall j | 0 <= j < q - a ensures input[a..q][j] != '"' {
      assert input[a..q][j] == input[a + j];
    }
    SliceTile(input, Argument, a, q, a, LeftArg);
  }

  lemma ClosedTiles(input: Ascii, a: nat, q: nat, next: Config, from: nat, prev: Type)
    requires a < q < |input| && Gap(input, from, a, prev, LeftArg) && input[a] == '"' && q == FindQuote(input, a + 1)
    requires Pending(input, next, q + 1, RightArg)
    ensures StepTiles(input,
                      Move([Slice(input, LeftArg, a, a + 1), Slice(input, Argument, a + 1, q),
                            Slice(input, RightArg, q, q + 1)], next), from, prev)
  {
    var open, arg, close := Slice(input, LeftArg, a, a + 1), Slice(input, Argument, a + 1, q),
                            Slice(input, RightArg, q, q + 1);
    QuoteTile(input, RightArg, q, q, Argument);
    TextTile(input, a + 1, q);
    SendsTwo(input, arg, close, a + 1, LeftArg);
    QuoteTile(input, LeftArg, a, from, prev);
    SendsThree(input, open, arg, close, from, prev);
  }

  lemma QuoteTiles(input: Ascii, pos: nat, a: nat, pd: int, gd: int, from: nat, prev: Type)
    requires Ready(input, LexArgument, pos) && a == SkipSpace(input, pos) && Gap(input, from, a, prev, LeftArg)
    ensures StepTiles(input, StepArgument(input, pos, pd, gd), from, prev)
  {
    var q := FindQuote(input, a + 1);
    ArgumentIs(input, pos, a, q, pd, gd);
    if q == |input| {
      UnclosedTiles(input, a, from, prev);
    } else {
      ItemPending(input, q + 1, pd, gd, RightArg);
      ClosedTiles(input, a, q, At(AfterGetterPart(gd), q + 1, pd, gd), from, prev);
    }
  }

  lemma ArgumentTiles(input: Ascii, c: Config, from: nat, prev: Type)
    requires c.At? && c.state == LexArgument && Pending(input, c, from, prev)
    ensures StepTiles(input, StepArgument(input, c.pos, c.parens, c.getters), from, prev)
  {
    GapToQuote(input, c, from, prev);
    QuoteTiles(input, c.pos, SkipSpace(input, c.pos), c.parens, c.getters, from, prev);
  }

  lemma EveryStepTiles(input: Ascii, c: Config, from: nat, prev: Type)
    requires c.At? && Pending(input, c, from, prev) && c.state != LexPromiseOpening
    ensures StepTiles(input, Step(input, c.state, c.pos, c.parens, c.getters), from, prev)
  {
    match c.state
    case LexPromiseName => NameTiles(input, c.pos, c.parens, c.getters);
    case LexArgument => ArgumentTiles(input, c, from, prev);
    case LexGetterType => GetterTypeTiles(input, c.pos, c.parens, c.getters, from, prev);
    case LexGetterValue => GetterValueTiles(input, c.pos, c.parens, c.getters);
    case LexInsideGetter => InsideGetterTiles(input, c.pos, c.parens, c.getters, from, prev);
    case LexComment => CommentTiles(input, c.pos, c.parens, c.getters, from, prev);
    case LexInsidePromise => InsidePromiseTiles(input, c.pos, c.parens, c.getters, from, prev);
    case LexPromiseClosing => PromiseClosingTiles(input, c.pos, c.parens, c.getters, from, prev);
    case LexGetterOpening => GetterOpeningTiles(input, c.pos, c.parens, c.getters, from, prev);
    case LexGetterClosing => GetterClosingTiles(input, c.pos, c.parens, c.getters, from, prev);
  }

  lemma OpeningTiles(input: Ascii, pos: nat, rest: Stream, from: nat, prev: Type)
    requires Pending(input, At(LexPromiseOpening, pos, 0, 0), from, prev)
    requires Tiles(input, rest, pos + 1, LeftPromise)
    requires rest == Crashed <==> EmptyName(input, pos + 1)
    ensures Tiles(input, Next(Slice(input, LeftPromise, pos, pos + 1), rest), from, prev)
  {
    LineGrows(input, from, pos + 1);
  }

  /** What is needed of the rest of the stream behind the step from c. */
  predicate Continues(input: Ascii, m: Move, rest: Stream, from: nat, prev: Type) {
    if Failed(m.toks) then rest == Ended else Tiles(input, rest, LastEnd(m.toks, from), LastType(m.toks, prev))
  }

  lemma NextPending(input: Ascii, c: Config, from: nat, prev: Type)
    requires c.At? && Pending(input, c, from, prev)
    ensures var m := Step(input, c.state, c.pos, c.parens, c.getters);
            if Failed(m.toks) then m.next == Done
            else Pending(input, m.next, LastEnd(m.toks, from), LastType(m.toks, prev))
  {
    if c.state != LexPromiseOpening {
      EveryStepTiles(input, c, from, prev);
    }
  }

  /** A step in front of what follows it. */
  lemma StepThenRest(input: Ascii, c: Config, rest: Stream, from: nat, prev: Type)
    requires c.At? && Pending(input, c, from, prev)
    requires Continues(input, Step(input, c.state, c.pos, c.parens, c.getters), rest, from, prev)
    requires c.state == LexPromiseOpening ==> (rest == Crashed <==> EmptyName(input, c.pos + 1))
    ensures Tiles(input, Emit(Step(input, c.state, c.pos, c.parens, c.getters).toks, rest), from, prev)
  {
    var m := Step(input, c.state, c.pos, c.parens, c.getters);
    if c.state == LexPromiseOpening {
      OpeningTiles(input, c.pos, rest, from, prev);
      EmitOne(m.toks[0], rest);
    } else {
      EveryStepTiles(input, c, from, prev);
      TileRunTiles(input, m.toks, rest, from, prev);
    }
  }

  lemma CrashBehind(input: Ascii, c: Config)
    requires c.At? && c.state == LexPromiseOpening && ReadyAt(input, c)
    ensures c.pos < |input| &&
            (Scan(input, Step(input, c.state, c.pos, c.parens, c.getters).next) == Crashed <==>
             EmptyName(input, c.pos + 1))
  {
    CrashIsEmptyName(input, c.pos + 1, c.parens + 1, c.getters);
  }

  /** From any configuration on, what the lexer sends tiles what it has not yet covered. */
  lemma {:induction false} ScanTiles(input: Ascii, c: Config, from: nat, prev: Type)
    requires Pending(input, c, from, prev)
    ensures Tiles(input, Scan(input, c), from, prev)
    decreases if c.At? then |input| - c.pos + 1 else 0, if c.At? then Rank(c.state) else 0
  {
    if c.At? {
      var m := Step(input, c.state, c.pos, c.parens, c.getters);
      assert Scan(input, c) == Emit(m.toks, Scan(input, m.next));
      NextPending(input, c, from, prev);
      if !Failed(m.toks) {
        ScanTiles(input, m.next, LastEnd(m.toks, from), LastType(m.toks, prev));
      }
      if c.state == LexPromiseOpening {
        CrashBehind(input, c);
      }
      StepThenRest(input, c, Scan(input, m.next), from, prev);
    }
  }

  /** The lossless theorem for a whole file. */
  lemma LexTiles(input: Ascii)
    ensures Tiles(input, Lex(input), 0, Comment)
  {
    ScanTiles(input, At(LexComment, 0, 0, 0), 0, Comment);
  }
}
