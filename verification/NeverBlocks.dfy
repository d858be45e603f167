/**
 The parser and the lexer hand tokens over an unbuffered channel: a parser that asks for one
 token too many hangs. On every file it stops in time.
 */
module NeverBlocks {
  import opened Text
  import opened Tokens
  import opened Syntax
  import opened Parser
  import opened TokenGrammar
  import Scanner
  import Lossless

  predicate InsideGetter(n: Nest) {
    Sound(n) && n.parens > 0 && n.getters > 0 && n.place != Over
  }

  /** Where an item of a promise or of a getter may come next. */
  predicate BetweenItems(n: Nest) {
    Sound(n) && n.parens > 0 && (n.place == InPromise || n.place == InGetter)
  }

  function Finish(s: Stream): Stream {
    match s
    case Next(_, rest) => Finish(rest)
    case _ => s
  }

  /** The lexer will panic further on. */
  predicate Crashes(s: Stream) {
    Finish(s) == Crashed
  }

  /** A parse that has got to its end or to an error, or has met the lexer's panic. */
  predicate Comes<T>(r: Parsed<T>, s: Stream) {
    r != Blocked && (r == Down ==> Crashes(s)) && (r.Ok? ==> Finish(r.rest) == Finish(s))
  }

  lemma {:induction false} ArgComes(s: Stream, text: string, n: Nest) returns (n': Nest)
    requires Grammatical(s, n) && Sound(n) && (n.place == ArgText || n.place == ArgEnd)
    ensures var r := ParseArg(s, text);
            Comes(r, s) &&
            (r.Ok? ==> Grammatical(r.rest, n') && BetweenItems(n') && n'.parens == n.parens && n'.getters == n.getters)
  {
    n' := n;
    match s
    case Ended =>
    case Crashed =>
    case Next(t, rest) =>
      if t.typ == Argument {
        n' := ArgComes(rest, t.val, After(n, t.typ).nest);
      } else if t.typ == RightArg {
        n' := After(n, t.typ).nest;
      }
  }

  /** A getter that has been read from s, opened at n, and leaves off at m. */
  predicate LeavesGetter(r: Parsed<Arg>, s: Stream, n: Nest, m: Nest) {
    Comes(r, s) &&
    (r.Ok? ==> Grammatical(r.rest, m) && BetweenItems(m) && m.parens == n.parens && m.getters >= n.getters - 1)
  }

  lemma {:induction false} GetterComes(s: Stream, typ: string, getter: Arg, n: Nest) returns (n': Nest)
    requires Grammatical(s, n) && InsideGetter(n)
    ensures LeavesGetter(ParseGetter(s, typ, getter), s, n, n')
    decreases Length(s)
  {
    n' := n;
    match s
    case Ended =>
    case Crashed =>
    case Next(t, rest) =>
      var m := After(n, t.typ).nest;
      if t.typ == Error {
      } else if t.typ == RightGetter {
        n' := m;
      } else {
        assert InsideGetter(m) && m.parens == n.parens && m.getters >= n.getters;
        if t.typ == GetterType && t.val == "join" {
          n' := JoinerComes(rest, [], m);
        } else if t.typ == GetterValue {
          if GetterOf(typ, t.val).Picked? {
            n' := GetterComes(rest, typ, GetterOf(typ, t.val).value, m);
          }
        } else {
          n' := GetterComes(rest, if t.typ == GetterType then t.val else typ, getter, m);
        }
      }
  }

  lemma {:induction false} JoinerComes(s: Stream, parts: seq<Arg>, n: Nest) returns (n': Nest)
    requires Grammatical(s, n) && InsideGetter(n)
    ensures LeavesGetter(ParseJoiner(s, parts), s, n, n')
    decreases Length(s)
  {
    n' := n;
    match s
    case Ended =>
    case Crashed =>
    case Next(t, rest) =>
      if t.typ == RightGetter {
        n' := After(n, t.typ).nest;
      } else if t.typ == LeftArg {
        var m := ArgComes(rest, "", After(n, t.typ).nest);
        var r := ParseArg(rest, "");
        if r.Ok? {
          n' := JoinerComes(r.rest, parts + [r.value], m);
        }
      } else if t.typ == LeftGetter {
        var r := ParseGetter(rest, "", NoArg);
        var m := GetterComes(rest, "", NoArg, After(n, t.typ).nest);
        if r.Ok? {
          n' := JoinerComes(r.rest, parts + [r.value], m);
        }
      }
  }

  lemma {:induction false} PromiseComes(s: Stream, p: Unresolved, n: Nest) returns (n': Nest)
    requires Grammatical(s, n) && (BetweenItems(n) || (n.place == PromiseStart && Sound(n)))
    ensures var r := ParsePromise(s, p);
            Comes(r, s) &&
            (r.Ok? ==>
               Grammatical(r.rest, n') && n' == Nest(if n.parens == 1 then TopLevel else InPromise, n.parens - 1, 0))
    decreases Length(s)
  {
    n' := n;
    match s
    case Ended =>
    case Crashed =>
    case Next(t, rest) =>
      var m := After(n, t.typ).nest;
      match t.typ {
      case Error =>
      case RightPromise => n' := m;
      case LeftPromise =>
        var k := PromiseComes(rest, EMPTY_PROMISE, m);
        var r := ParsePromise(rest, EMPTY_PROMISE);
        if r.Ok? {
          n' := PromiseComes(r.rest, p.(children := p.children + [r.value]), k);
        }
      case LeftArg =>
        var k := ArgComes(rest, "", m);
        var r := ParseArg(rest, "");
        if r.Ok? {
          n' := PromiseComes(r.rest, p.(args := p.args + [r.value]), k);
        }
      case LeftGetter =>
        var k := GetterComes(rest, "", NoArg, m);
        var r := ParseGetter(rest, "", NoArg);
        if r.Ok? {
          n' := PromiseComes(r.rest, p.(args := p.args + [r.value]), k);
        }
      case PromiseName =>
        n' := PromiseComes(rest, p.(name := t.val), m);
      case RightGetter =>
        n' := PromiseComes(rest, p, m);
      case _ =>
      }
  }

  /** On every grammatical stream the parser comes to an end: it never waits for a token that
      is not sent, it goes down only with the lexer, and it has read everything when it
      succeeds. */
  lemma {:induction false} GenerateComes(s: Stream, tree: Tree)
    requires Grammatical(s, OUTSIDE)
    ensures var r := Generate(s, tree);
            r != Blocked && (r == Down ==> Crashes(s)) && (r.Ok? ==> r.rest == Ended && !Crashes(s))
    decreases Length(s)
  {
    match s
    case Ended =>
    case Crashed =>
    case Next(t, rest) =>
      if t.typ == LeftPromise {
        var k := PromiseComes(rest, EMPTY_PROMISE, After(OUTSIDE, t.typ).nest);
        var r := ParsePromise(rest, EMPTY_PROMISE);
        if r.Ok? && !(r.value.name in tree) {
          GenerateComes(r.rest, tree[r.value.name := r.value]);
        }
      } else if t.typ == Comment {
        GenerateComes(rest, tree);
      } else if t.typ == EOF {
        assert Grammatical(rest, OUTSIDE.(place := Over));
        assert rest == Ended && Finish(s) == Finish(rest) == Ended;
      }
  }

  /** Some promise of the stream opens on white space with no name behind it. */
  predicate Nameless(input: Ascii, s: Stream) {
    s.Next? &&
    ((s.head.typ == LeftPromise && s.head.end <= |input| && Lossless.EmptyName(input, s.head.end)) ||
     Nameless(input, s.tail))
  }

  /** The lexer panics on exactly the files in which a promise has no name. */
  lemma {:induction false} CrashIffNameless(input: Ascii, s: Stream, from: nat, prev: Type)
    requires Lossless.Tiles(input, s, from, prev) && s != Crashed
    ensures Crashes(s) <==> Nameless(input, s)
  {
    if s.Next? {
      assert Finish(s) == Finish(s.tail);
      if s.tail.Next? {
        CrashIffNameless(input, s.tail, s.head.end, s.head.typ);
      } else {
        assert Finish(s.tail) == s.tail && !Nameless(input, s.tail);
      }
    }
  }

  /** The main result of the hand-off, for whole files: reading a file never blocks, and it
      brings the process down only if some promise of the file has white space and no name
      behind its bracket. A file that is read in full has no such promise. */
  lemma ParserNeverBlocks(input: Ascii, tree: Tree)
    ensures var s := Scanner.Lex(input);
            var r := Generate(s, tree);
            r != Blocked && (r == Down ==> Nameless(input, s)) && (r.Ok? ==> r.rest == Ended && !Nameless(input, s))
  {
    var s := Scanner.Lex(input);
    LexGrammatical(input);
    GenerateComes(s, tree);
    Lossless.LexTiles(input);
    CrashIffNameless(input, s, 0, Comment);
  }

  /** Somewhere in the text a `(` is followed by white space and then by a character that
      cannot start a name. */
  ghost predicate HasNameless(input: Ascii) {
    exists i :: 0 < i <= |input| && input[i - 1] == '(' && Lossless.EmptyName(input, i)
  }

  lemma {:induction false} NamelessInText(input: Ascii, s: Stream, from: nat, prev: Type)
    requires Lossless.Tiles(input, s, from, prev) && Nameless(input, s)
    ensures HasNameless(input)
  {
    var t := s.head;
    if t.typ == LeftPromise && t.end <= |input| && Lossless.EmptyName(input, t.end) {
      assert t.val == input[t.start..t.end] == "(";
      assert input[t.end - 1] == '(';
    } else {
      NamelessInText(input, s.tail, t.end, t.typ);
    }
  }

  /** So a text without such a place never brings the process down. */
  lemma NamedNeverCrashes(input: Ascii, tree: Tree)
    requires !HasNameless(input)
    ensures Generate(Scanner.Lex(input), tree) != Down
  {
    ParserNeverBlocks(input, tree);
    Lossless.LexTiles(input);
    if Nameless(input, Scanner.Lex(input)) {
      NamelessInText(input, Scanner.Lex(input), 0, Comment);
    }
  }

  /** The shortest file that does. */
  lemma EmptyPromiseCrashes(input: Ascii, tree: Tree)
    requires input == "( )"
    ensures Generate(Scanner.Lex(input), tree) == Down
  {
    var open := Slice(input, LeftPromise, 0, 1);
    Scanner.ScanStep(input, Scanner.At(Scanner.LexComment, 0, 0, 0),
                     Scanner.Move([], Scanner.At(Scanner.LexPromiseOpening, 0, 0, 0)));
    Scanner.ScanStep(input, Scanner.At(Scanner.LexPromiseOpening, 0, 0, 0),
                     Scanner.Move([open], Scanner.At(Scanner.LexPromiseName, 1, 1, 0)));
    SkipSpaceIs(input, 1, 2);
    Lossless.CrashIsEmptyName(input, 1, 1, 0);
    EmitOne(open, Crashed);
  }
}
