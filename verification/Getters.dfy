/** Which getters the parser refuses, and that a file with one of them is never read. */
module Getters {
  import opened Text
  import opened Tokens
  import opened Scanner
  import opened Syntax
  import opened Parser
  import LexErrors
  import NeverBlocks
  import TokenGrammar

  /** What a getter with a value, from behind its opening bracket, is read as. */
  lemma GetterReads(typ: Token, sep: Token, val: Token, close: Token, rest: Stream)
    requires typ.typ == GetterType && sep.typ == GetterSeparator && val.typ == GetterValue && close.typ == RightGetter
    ensures var r := ParseGetter(Next(typ, Next(sep, Next(val, Next(close, rest)))), "", NoArg);
            if !BadValue(typ.val, val.val) then r == Ok(Meant(typ.val, val.val), rest)
            else if typ.val == "arg" then r == Fail(BadPosition(val.val))
            else if typ.val == "join" then r == Fail(BadJoin(sep.val))
            else r == Fail(UnknownGetter(val.val))
  {
    var t, s1, s2 := typ.val, Next(val, Next(close, rest)), Next(sep, Next(val, Next(close, rest)));
    PicksIff(t, val.val);
    if t == "join" {
      assert ParseJoiner(s2, []) == Fail(BadJoin(sep.val));
    } else {
      assert ParseGetter(s2, t, NoArg) == ParseGetter(s1, t, NoArg);
      if !BadValue(t, val.val) {
        assert ParseGetter(Next(close, rest), t, Meant(t, val.val)) == Ok(Meant(t, val.val), rest);
      }
    }
  }

  /** Next comes a value under a type that refuses it. */
  predicate RefusedNext(s: Stream) {
    s.Next? && s.head.typ == GetterType &&
    s.tail.Next? && s.tail.head.typ == GetterSeparator &&
    s.tail.tail.Next? && s.tail.tail.head.typ == GetterValue && BadValue(s.head.val, s.tail.tail.head.val)
  }

  /** Somewhere a value comes under a type that refuses it. */
  predicate HasRefused(s: Stream) {
    s.Next? && (RefusedNext(s) || HasRefused(s.tail))
  }

  /** It comes right behind the opening bracket of a getter. */
  predicate OpensRefused(s: Stream) {
    s.Next? && ((s.head.typ == LeftGetter && RefusedNext(s.tail)) || OpensRefused(s.tail))
  }

  /** The lexer sends a type nowhere else. */
  lemma {:induction false} RefusedOpens(s: Stream, n: TokenGrammar.Nest)
    requires TokenGrammar.Grammatical(s, n)
    ensures HasRefused(s) ==> OpensRefused(s) || (n.place == TokenGrammar.GetterStart && RefusedNext(s))
    decreases Length(s)
  {
    if s.Next? {
      RefusedOpens(s.tail, TokenGrammar.After(n, s.head.typ).nest);
    }
  }

  lemma RefusedFails(s: Stream, typ: string, getter: Arg)
    requires RefusedNext(s)
    ensures !ParseGetter(s, typ, getter).Ok?
  {
    var t, v := s.head.val, s.tail.tail.head.val;
    PicksIff(t, v);
    if t == "join" {
      assert !ParseJoiner(s.tail, []).Ok?;
    } else {
      assert ParseGetter(s.tail, t, getter) == ParseGetter(s.tail.tail, t, getter);
      assert !ParseGetter(s.tail.tail, t, getter).Ok?;
    }
  }

  /** A parse that succeeds has met no such getter on its way. */
  predicate Passes<T>(r: Parsed<T>, s: Stream) {
    r.Ok? ==> (OpensRefused(r.rest) <==> OpensRefused(s))
  }

  lemma {:induction false} ArgPasses(s: Stream, text: string)
    ensures Passes(ParseArg(s, text), s)
    decreases Length(s)
  {
    if s.Next? && s.head.typ == Argument {
      ArgPasses(s.tail, s.head.val);
    }
  }

  lemma {:induction false} GetterPasses(s: Stream, typ: string, getter: Arg)
    ensures Passes(ParseGetter(s, typ, getter), s)
    decreases Length(s), 1
  {
    match s
    case Next(t, rest) =>
      if t.typ == GetterType && t.val == "join" {
        JoinerPasses(rest, []);
      } else if t.typ == GetterValue {
        if GetterOf(typ, t.val).Picked? {
          GetterPasses(rest, typ, GetterOf(typ, t.val).value);
        }
      } else if t.typ == LeftGetter && RefusedNext(rest) {
        RefusedFails(rest, typ, getter);
      } else if t.typ != Error && t.typ != RightGetter {
        GetterPasses(rest, if t.typ == GetterType then t.val else typ, getter);
      }
    case _ =>
  }

  /** A getter from its opening bracket on. */
  lemma {:induction false} OpenedPasses(s: Stream)
    requires s.Next? && s.head.typ == LeftGetter
    ensures Passes(ParseGetter(s.tail, "", NoArg), s)
    decreases Length(s), 0
  {
    if RefusedNext(s.tail) {
      RefusedFails(s.tail, "", NoArg);
    } else {
      GetterPasses(s.tail, "", NoArg);
    }
  }

  lemma {:induction false} JoinerPasses(s: Stream, parts: seq<Arg>)
    ensures Passes(ParseJoiner(s, parts), s)
    decreases Length(s), 1
  {
    if s.Next? && s.head.typ == LeftArg {
      var r := ParseArg(s.tail, "");
      ArgPasses(s.tail, "");
      if r.Ok? {
        JoinerPasses(r.rest, parts + [r.value]);
      }
    } else if s.Next? && s.head.typ == LeftGetter {
      var r := ParseGetter(s.tail, "", NoArg);
      OpenedPasses(s);
      if r.Ok? {
        JoinerPasses(r.rest, parts + [r.value]);
      }
    }
  }

  lemma {:induction false} PromisePasses(s: Stream, p: Unresolved)
    ensures Passes(ParsePromise(s, p), s)
    decreases Length(s), 1
  {
    match s
    case Next(t, rest) =>
      match t.typ {
        case EOF =>
        case Error =>
        case RightPromise =>
        case LeftPromise =>
          var r := ParsePromise(rest, EMPTY_PROMISE);
          PromisePasses(rest, EMPTY_PROMISE);
          if r.Ok? {
            PromisePasses(r.rest, p.(children := p.children + [r.value]));
          }
        case LeftArg =>
          var r := ParseArg(rest, "");
          ArgPasses(rest, "");
          if r.Ok? {
            PromisePasses(r.rest, p.(args := p.args + [r.value]));
          }
        case LeftGetter =>
          var r := ParseGetter(rest, "", NoArg);
          OpenedPasses(s);
          if r.Ok? {
            PromisePasses(r.rest, p.(args := p.args + [r.value]));
          }
        case PromiseName => PromisePasses(rest, p.(name := t.val));
        case _ => PromisePasses(rest, p);
      }
    case _ =>
  }

  lemma {:induction false} GeneratePasses(s: Stream, tree: Tree)
    requires TokenGrammar.Grammatical(s, TokenGrammar.OUTSIDE)
    ensures Passes(Generate(s, tree), s)
    decreases Length(s)
  {
    match s
    case Next(t, rest) =>
      var n := TokenGrammar.After(TokenGrammar.OUTSIDE, t.typ).nest;
      if t.typ == LeftPromise {
        var r := ParsePromise(rest, EMPTY_PROMISE);
        var k := NeverBlocks.PromiseComes(rest, EMPTY_PROMISE, n);
        PromisePasses(rest, EMPTY_PROMISE);
        if r.Ok? && r.value.name !in tree {
          GeneratePasses(r.rest, tree[r.value.name := r.value]);
        }
      } else if t.typ == Comment {
        GeneratePasses(rest, tree);
      }
    case _ =>
  }

  /** A file in which a getter has a type other than arg, env or var, or a position that is no
      number, is never read. */
  lemma RefusedUnreadable(input: Ascii, tree: Tree)
    requires HasRefused(Lex(input))
    ensures !Generate(Lex(input), tree).Ok?
  {
    TokenGrammar.LexGrammatical(input);
    RefusedOpens(Lex(input), TokenGrammar.OUTSIDE);
    GeneratePasses(Lex(input), tree);
    NeverBlocks.ParserNeverBlocks(input, tree);
  }

  lemma {:induction false} RefusedBehind(toks: seq<Token>, rest: Stream)
    requires HasRefused(rest)
    ensures HasRefused(Emit(toks, rest))
    decreases |toks|
  {
    if toks != [] {
      RefusedBehind(toks[1..], rest);
    }
  }

  /** The tokens of the getter [typ:val], from behind its opening bracket at 4. */
  lemma ValueScans(input: Ascii, e: nat, k: nat) returns (rest: Stream)
    requires Ready(input, LexGetterType, 4) && 4 < e < k < |input| && input[e] == ':' && input[k] == ']'
    requires !IsSpace(input[e - 1]) && !IsSpace(input[k - 1])
    requires (forall i :: 4 <= i < e ==> !EndsType(input[i])) && forall i :: e < i < k ==> IsNameRune(input[i])
    ensures Scan(input, At(LexGetterType, 4, 1, 1)) ==
            Emit([Slice(input, GetterType, 4, e), Slice(input, GetterSeparator, e, e + 1)],
                 Emit([Slice(input, GetterValue, e + 1, k)], rest))
  {
    LexErrors.TypeEndIs(input, 4, e);
    TrimBackIs(input, e, e);
    TrimBackIs(input, e + 1, e + 1);
    ColonStep(input, 4, 1, 1);
    ScanStep(input, At(LexGetterType, 4, 1, 1),
             Move([Slice(input, GetterType, 4, e), Slice(input, GetterSeparator, e, e + 1)],
                  At(LexGetterValue, e + 1, 1, 1)));
    rest := ValueSends(input, e + 1, k);
  }

  lemma ValueSends(input: Ascii, v: nat, k: nat) returns (rest: Stream)
    requires 0 < v <= k < |input| && input[k] == ']' && !IsSpace(input[v - 1]) && !IsSpace(input[k - 1])
    requires forall i :: v <= i < k ==> IsNameRune(input[i])
    ensures Ready(input, LexGetterValue, v)
    ensures Scan(input, At(LexGetterValue, v, 1, 1)) == Emit([Slice(input, GetterValue, v, k)], rest)
  {
    NameEndIs(input, v, k);
    TrimBackIs(input, k, k);
    SkipSpaceIs(input, k, k);
    ScanStep(input, At(LexGetterValue, v, 1, 1),
             Move([Slice(input, GetterValue, v, k)], At(LexGetterClosing, k, 1, 1)));
    rest := Scan(input, At(LexGetterClosing, k, 1, 1));
  }

  /** So `(a [foo:x])` is not read, nor `(a [arg:x])`, nor any file that starts so, whatever the
      type and the value that it refuses, and whatever follows. */
  lemma RefusedFile(input: Ascii, e: nat, k: nat, tree: Tree)
    requires 4 < e < k < |input| && input[..4] == "(a [" && input[e] == ':' && input[k] == ']'
    requires !IsSpace(input[e - 1]) && !IsSpace(input[k - 1])
    requires (forall i :: 4 <= i < e ==> !EndsType(input[i])) && forall i :: e < i < k ==> IsNameRune(input[i])
    requires BadValue(input[4..e], input[e + 1..k])
    ensures HasRefused(Lex(input)) && !Generate(Lex(input), tree).Ok?
  {
    assert forall i :: 0 <= i < 4 ==> input[i] == input[..4][i];
    LexErrors.OpensDefinition(input);
    LexErrors.OpensFirst(input);
    var rest := ValueScans(input, e, k);
    var typ, sep, val := Slice(input, GetterType, 4, e), Slice(input, GetterSeparator, e, e + 1),
                         Slice(input, GetterValue, e + 1, k);
    EmitOne(val, rest);
    EmitTwo(typ, sep, Next(val, rest));
    EmitOne(Slice(input, LeftGetter, 3, 4), Next(typ, Next(sep, Next(val, rest))));
    var inside := Scan(input, At(LexInsidePromise, 2, 1, 0));
    assert HasRefused(inside);
    RefusedBehind([Slice(input, PromiseName, 1, 2)], inside);
    RefusedBehind([Slice(input, LeftPromise, 0, 1)], Emit([Slice(input, PromiseName, 1, 2)], inside));
    RefusedUnreadable(input, tree);
  }
}
