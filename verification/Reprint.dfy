/**
 What the parser reads can be written: every definition it adds to a table has a text, so
 that printing the table and reading the text gives the table again.
 */
module Reprint {
  import opened Text
  import opened Tokens
  import opened Syntax
  import opened Parser
  import opened SourceText
  import opened Printer
  import Lossless
  import NeverBlocks
  import Scanner
  import TokenGrammar

  /** The tokens are spelled as the lexer spells them, and no joiner is closed at once. */
  predicate Spells(s: Stream) {
    s.Next? ==>
      Lossless.Spelled(s.head) && (s.head.typ == Argument ==> IsAscii(s.head.val)) &&
      (s.head.typ == GetterType && s.tail.Next? ==> s.tail.head.typ != RightGetter) &&
      Spells(s.tail)
  }

  lemma {:induction false} LexerSpells(input: Ascii, s: Stream, from: nat, prev: Type, n: TokenGrammar.Nest)
    requires Lossless.Tiles(input, s, from, prev) && TokenGrammar.Grammatical(s, n)
    ensures Spells(s)
    decreases s
  {
    if s.Next? && s.tail.Next? {
      LexerSpells(input, s.tail, s.head.end, s.head.typ, TokenGrammar.After(n, s.head.typ).nest);
    }
  }

  lemma {:induction false} ArgWritable(s: Stream, text: string)
    requires Spells(s) && GoodText(text)
    ensures var r := ParseArg(s, text); r.Ok? ==> WritableArg(r.value) && Spells(r.rest)
    decreases Length(s)
  {
    if s.Next? && s.head.typ == Argument {
      ArgWritable(s.tail, s.head.val);
    }
  }

  lemma {:induction false} GetterWritable(s: Stream, typ: string, getter: Arg)
    requires Spells(s) && WritableArg(getter)
    ensures var r := ParseGetter(s, typ, getter); r.Ok? ==> WritableArg(r.value) && Spells(r.rest)
    decreases Length(s)
  {
    match s
    case Next(t, rest) =>
      if t.typ == GetterType && t.val == "join" {
        JoinerWritable(rest, []);
      } else if t.typ == GetterValue {
        if GetterOf(typ, t.val).Picked? {
          GetterWritable(rest, typ, GetterOf(typ, t.val).value);
        }
      } else if t.typ != Error && t.typ != RightGetter {
        GetterWritable(rest, if t.typ == GetterType then t.val else typ, getter);
      }
    case _ =>
  }

  lemma {:induction false} OneMoreArg(list: seq<Arg>, a: Arg)
    requires WritableArgs(list) && WritableArg(a)
    ensures WritableArgs(list + [a])
    decreases |list|
  {
    if list != [] {
      OneMoreArg(list[1..], a);
      assert (list + [a])[1..] == list[1..] + [a];
    }
  }

  lemma {:induction false} JoinerWritable(s: Stream, parts: seq<Arg>)
    requires Spells(s) && WritableArgs(parts) && (parts == [] && s.Next? ==> s.head.typ != RightGetter)
    ensures var r := ParseJoiner(s, parts); r.Ok? ==> WritableArg(r.value) && Spells(r.rest)
    decreases Length(s)
  {
    if s.Next? && s.head.typ == LeftArg {
      var r := ParseArg(s.tail, "");
      ArgWritable(s.tail, "");
      if r.Ok? {
        OneMoreArg(parts, r.value);
        JoinerWritable(r.rest, parts + [r.value]);
      }
    } else if s.Next? && s.head.typ == LeftGetter {
      var r := ParseGetter(s.tail, "", NoArg);
      GetterWritable(s.tail, "", NoArg);
      if r.Ok? {
        OneMoreArg(parts, r.value);
        JoinerWritable(r.rest, parts + [r.value]);
      }
    }
  }

  lemma {:induction false} OneMoreChild(us: seq<Unresolved>, u: Unresolved)
    requires WritableAll(us) && Writable(u)
    ensures WritableAll(us + [u])
    decreases |us|
  {
    if us != [] {
      OneMoreChild(us[1..], u);
      assert (us + [u])[1..] == us[1..] + [u];
    }
  }

  lemma {:induction false} PromiseWritable(s: Stream, p: Unresolved)
    requires Spells(s) && Writable(p)
    ensures var r := ParsePromise(s, p); r.Ok? ==> Writable(r.value) && Spells(r.rest)
    decreases Length(s)
  {
    match s
    case Next(t, rest) =>
      match t.typ {
        case EOF =>
        case Error =>
        case RightPromise =>
        case LeftPromise =>
          var r := ParsePromise(rest, EMPTY_PROMISE);
          PromiseWritable(rest, EMPTY_PROMISE);
          if r.Ok? {
            OneMoreChild(p.children, r.value);
            PromiseWritable(r.rest, p.(children := p.children + [r.value]));
          }
        case LeftArg =>
          var r := ParseArg(rest, "");
          ArgWritable(rest, "");
          if r.Ok? {
            OneMoreArg(p.args, r.value);
            PromiseWritable(r.rest, p.(args := p.args + [r.value]));
          }
        case LeftGetter =>
          var r := ParseGetter(rest, "", NoArg);
          GetterWritable(rest, "", NoArg);
          if r.Ok? {
            OneMoreArg(p.args, r.value);
            PromiseWritable(r.rest, p.(args := p.args + [r.value]));
          }
        case PromiseName => PromiseWritable(rest, p.(name := t.val));
        case _ => PromiseWritable(rest, p);
      }
    case _ =>
  }

  /** A table of definitions that can be written, each under its own name. */
  predicate WritableTable(tree: Tree) {
    forall k :: k in tree ==> tree[k].name == k && Writable(tree[k])
  }

  lemma {:induction false} GenerateWritable(s: Stream, tree: Tree)
    requires Spells(s) && WritableTable(tree)
    ensures var r := Generate(s, tree); r.Ok? ==> WritableTable(r.value)
    decreases Length(s)
  {
    match s
    case Next(t, rest) =>
      if t.typ == LeftPromise {
        var r := ParsePromise(rest, EMPTY_PROMISE);
        PromiseWritable(rest, EMPTY_PROMISE);
        if r.Ok? && r.value.name !in tree {
          GenerateWritable(r.rest, tree[r.value.name := r.value]);
        }
      } else if t.typ != EOF && t.typ != Error {
        GenerateWritable(rest, tree);
      }
    case _ =>
  }

  /** Whatever a file says, if it is read, every definition read can be written. */
  lemma ReadIsWritable(input: Ascii, tree: Tree)
    requires WritableTable(tree)
    ensures var r := Generate(Scanner.Lex(input), tree); r.Ok? ==> WritableTable(r.value)
  {
    Lossless.LexTiles(input);
    TokenGrammar.LexGrammatical(input);
    LexerSpells(input, Scanner.Lex(input), 0, Comment, TokenGrammar.OUTSIDE);
    GenerateWritable(Scanner.Lex(input), tree);
  }

  /** us are the definitions of tree, in some order. */
  predicate Lists(us: seq<Unresolved>, tree: Tree) {
    NewNames(map[], us) && Added(map[], us) == tree
  }

  lemma {:induction false} AddedBehind(tree: Tree, us: seq<Unresolved>, u: Unresolved)
    requires NewNames(tree, us) && u.name !in Added(tree, us)
    ensures NewNames(tree, us + [u]) && Added(tree, us + [u]) == Added(tree, us)[u.name := u]
    decreases |us|
  {
    if us == [] {
      assert (us + [u])[1..] == [];
    } else {
      assert (us + [u])[1..] == us[1..] + [u];
      AddedBehind(tree[us[0].name := us[0]], us[1..], u);
    }
    AddedKeeps(tree, us);
  }

  lemma {:induction false} AddedKeeps(tree: Tree, us: seq<Unresolved>)
    ensures tree.Keys <= Added(tree, us).Keys
    decreases |us|
  {
    if us != [] {
      AddedKeeps(tree[us[0].name := us[0]], us[1..]);
    }
  }

  /** Every table under own names can be listed. */
  lemma {:induction false} Listing(tree: Tree) returns (us: seq<Unresolved>)
    requires WritableTable(tree)
    ensures Lists(us, tree) && WritableAll(us)
    decreases |tree|
  {
    if tree == map[] {
      us := [];
    } else {
      var k :| k in tree;
      var rest := Listing(tree - {k});
      AddedBehind(map[], rest, tree[k]);
      OneMoreChild(rest, tree[k]);
      us := rest + [tree[k]];
      assert (tree - {k})[k := tree[k]] == tree;
    }
  }

  lemma AsciiConcat(a: string, b: string)
    requires IsAscii(a) && IsAscii(b)
    ensures IsAscii(a + b)
  {
  }

  lemma {:induction false} ShownArgAscii(a: ArgText)
    requires GoodArg(a)
    ensures IsAscii(ShowArg(a))
    decreases a, 0
  {
    match a
    case Quoted(text) => QuotedAscii(text);
    case Getter(typ, val, pad) =>
      GetterAscii(typ, val, pad);
    case Dropped(typ, val, text, close) =>
      QuotedAscii(text);
      DroppedAscii(typ, val, ShowQuoted(text), close);
    case JoinText(pieces, close) =>
      ShownPiecesAscii(pieces);
      AsciiConcat(close, "]");
      AsciiConcat(ShowPieces(pieces), close + "]");
      AsciiConcat("join", ShowPieces(pieces) + (close + "]"));
  }

  lemma QuotedAscii(text: string)
    requires IsAscii(text)
    ensures IsAscii(ShowQuoted(text))
  {
  }

  lemma GetterAscii(typ: string, val: string, pad: string)
    requires IsAscii(typ) && IsAscii(val) && IsAscii(pad)
    ensures IsAscii("[" + (typ + (":" + (val + (pad + "]")))))
  {
    AsciiConcat(pad, "]");
    AsciiConcat(val, pad + "]");
    AsciiConcat(typ, ":" + (val + (pad + "]")));
  }

  lemma DroppedAscii(typ: string, val: string, quoted: string, close: string)
    requires IsAscii(typ) && IsAscii(val) && IsAscii(quoted) && IsAscii(close)
    ensures IsAscii("[" + (typ + (":" + (val + (quoted + (close + "]"))))))
  {
    AsciiConcat(close, "]");
    AsciiConcat(quoted, close + "]");
    AsciiConcat(val, quoted + (close + "]"));
    AsciiConcat(typ, ":" + (val + (quoted + (close + "]"))));
  }

  lemma {:induction false} ShownPiecesAscii(ps: seq<Piece>)
    requires GoodPieces(ps)
    ensures IsAscii(ShowPieces(ps))
    decreases ps, 1
  {
    if ps != [] {
      ShownArgAscii(ps[0].arg);
      ShownPiecesAscii(ps[1..]);
    }
  }

  lemma {:induction false} ShownPromiseAscii(p: PromiseText)
    requires GoodPromise(p)
    ensures IsAscii(ShowPromise(p))
    decreases p, 0
  {
    ShownItemsAscii(p.items);
  }

  lemma {:induction false} ShownItemsAscii(items: seq<Item>)
    requires GoodItems(items)
    ensures IsAscii(ShowItems(items))
    decreases items, 1
  {
    if items != [] {
      match items[0] {
        case ArgItem(_, arg) => ShownArgAscii(arg);
        case ChildItem(_, child) => ShownPromiseAscii(child);
      }
      ShownItemsAscii(items[1..]);
    }
  }

  lemma {:induction false} ShownDefsAscii(tree: Tree, defs: seq<Definition>)
    requires GoodDefs(tree, defs)
    ensures IsAscii(ShowDefs(defs))
    decreases defs
  {
    if defs != [] {
      ShownPromiseAscii(defs[0].promise);
      ShownDefsAscii(tree[defs[0].promise.name := PromiseOf(defs[0].promise)], defs[1..]);
    }
  }

  /** For every file that is read: printing its definitions, in any order, and reading the text
      gives the same table. */
  lemma Reprints(input: Ascii, us: seq<Unresolved>)
    requires Generate(Scanner.Lex(input), map[]).Ok? && Lists(us, Generate(Scanner.Lex(input), map[]).value)
    ensures IsAscii(Print(us)) && Generate(Scanner.Lex(Print(us)), map[]) == Generate(Scanner.Lex(input), map[])
  {
    var tree := Generate(Scanner.Lex(input), map[]).value;
    ReadIsWritable(input, map[]);
    NeverBlocks.ParserNeverBlocks(input, map[]);
    ListedWritable(map[], us);
    DefsGood(map[], us);
    ShownDefsAscii(map[], DefsFor(us));
    assert Print(us) == ShowDefs(DefsFor(us)) + "";
    PrintsBack(Print(us), us, map[]);
  }

  lemma {:induction false} ListedWritable(tree: Tree, us: seq<Unresolved>)
    requires NewNames(tree, us) && WritableTable(Added(tree, us))
    ensures WritableAll(us)
    decreases |us|
  {
    if us != [] {
      var more := tree[us[0].name := us[0]];
      AddedHolds(more, us[1..]);
      assert us[0].name in more && more[us[0].name] == us[0];
      ListedWritable(more, us[1..]);
    }
  }

  lemma {:induction false} AddedHolds(tree: Tree, us: seq<Unresolved>)
    requires NewNames(tree, us)
    ensures forall k :: k in tree ==> k in Added(tree, us) && Added(tree, us)[k] == tree[k]
    decreases |us|
  {
    if us != [] {
      AddedHolds(tree[us[0].name := us[0]], us[1..]);
    }
  }
}
