/**
 Printing: which definitions have a text at all, one text for each of them, and what comes
 back when it is read.
 */
module Printer {
  import opened Text
  import opened Tokens
  import opened Syntax
  import opened Parser
  import opened SourceText
  import Scanner
  import RoundTrip

  /** The arguments that can be written. A constant has no escape for a quote, a joiner has
      parts, and a getter keeps no space at the end of its value. */
  predicate WritableArg(a: Arg)
    decreases a
  {
    match a
    case Constant(text) => GoodText(text)
    case ArgGetter(i) => -MAX_INT - 1 <= i <= MAX_INT
    case EnvGetter(name) => WritableValue(name)
    case VarGetter(name) => WritableValue(name)
    case Join(parts) => parts != [] && WritableArgs(parts)
    case NoArg => true
  }

  predicate WritableValue(val: string) {
    NameRunes(val) && (val == "" || val[|val| - 1] != ' ')
  }

  predicate WritableArgs(list: seq<Arg>)
    decreases list
  {
    list != [] ==> WritableArg(list[0]) && WritableArgs(list[1..])
  }

  predicate WritableName(name: string) {
    name == "" || GoodName(name)
  }

  predicate Writable(u: Unresolved)
    decreases u
  {
    WritableName(u.name) && WritableArgs(u.args) && WritableAll(u.children)
  }

  predicate WritableAll(us: seq<Unresolved>)
    decreases us
  {
    us != [] ==> Writable(us[0]) && WritableAll(us[1..])
  }

  function TextOfArg(a: Arg): ArgText
    decreases a, 0
  {
    match a
    case Constant(text) => Quoted(text)
    case ArgGetter(i) => Getter("arg", Notation(i), "")
    case EnvGetter(name) => Getter("env", name, "")
    case VarGetter(name) => Getter("var", name, "")
    case Join(parts) => JoinText(PiecesFor(parts), "")
    case NoArg => Dropped("var", "", "", "")
  }

  function PiecesFor(parts: seq<Arg>): seq<Piece>
    decreases parts, 1
  {
    if parts == [] then [] else [Piece(" ", TextOfArg(parts[0]))] + PiecesFor(parts[1..])
  }

  function ArgItems(list: seq<Arg>): seq<Item> {
    if list == [] then [] else [ArgItem(" ", TextOfArg(list[0]))] + ArgItems(list[1..])
  }

  /** The items with no space in front of the first. */
  function Tightened(items: seq<Item>): seq<Item> {
    if items == [] then []
    else match items[0]
      case ArgItem(_, arg) => [ArgItem("", arg)] + items[1..]
      case ChildItem(_, child) => [ChildItem("", child)] + items[1..]
  }

  /** A definition on a line: name, arguments, nested promises. */
  function TextOf(u: Unresolved): PromiseText
    decreases u, 0
  {
    var items := ArgItems(u.args) + ChildItems(u.children);
    PromiseText("", u.name, if u.name == "" then Tightened(items) else items, "")
  }

  function ChildItems(us: seq<Unresolved>): seq<Item>
    decreases us, 1
  {
    if us == [] then [] else [ChildItem(" ", TextOf(us[0]))] + ChildItems(us[1..])
  }

  lemma DigitsWritable(s: string)
    requires Digits(s)
    ensures WritableValue(s) && WritableValue("-" + s)
  {
    forall i | 0 <= i < |s| ensures IsNameRune(s[i]) && s[i] != ' ' {
      assert IsDigit(s[i]);
    }
  }

  lemma NotationGood(n: int)
    requires -MAX_INT - 1 <= n <= MAX_INT
    ensures WritableValue(Notation(n)) && IsInt(Notation(n)) && IntOf(Notation(n)) == n
  {
    AtoiNotation(n);
    AtoiIff(Notation(n));
    DigitsWritable(if n < 0 then Itoa(0 - n) else Itoa(n));
  }

  lemma {:induction false} ArgTextGood(a: Arg)
    requires WritableArg(a)
    ensures GoodArg(TextOfArg(a)) && ArgOf(TextOfArg(a)) == a
    decreases a, 0
  {
    match a
    case ArgGetter(i) => NotationGood(i);
    case Join(parts) => PiecesGood(parts);
    case _ =>
  }

  lemma {:induction false} PiecesGood(parts: seq<Arg>)
    requires WritableArgs(parts)
    ensures GoodPieces(PiecesFor(parts)) && PartsOf(PiecesFor(parts)) == parts && |PiecesFor(parts)| == |parts|
    decreases parts, 1
  {
    if parts != [] {
      ArgTextGood(parts[0]);
      PiecesGood(parts[1..]);
      assert PiecesFor(parts)[1..] == PiecesFor(parts[1..]);
    }
  }

  lemma {:induction false} AppendItems(a: seq<Item>, b: seq<Item>)
    ensures ArgsOf(a + b) == ArgsOf(a) + ArgsOf(b) && ChildrenOf(a + b) == ChildrenOf(a) + ChildrenOf(b)
    ensures GoodItems(a) && GoodItems(b) ==> GoodItems(a + b)
    decreases |a|
  {
    if a == [] {
      assert a + b == b;
    } else {
      var c := a[1..] + b;
      AppendItems(a[1..], b);
      ConsItem(a[0], a[1..]);
      ConsItem(a[0], c);
      assert [a[0]] + a[1..] == a && [a[0]] + c == a + b;
    }
  }

  lemma ConsItem(i: Item, rest: seq<Item>)
    ensures ArgsOf([i] + rest) == (if i.ArgItem? then [ArgOf(i.arg)] else []) + ArgsOf(rest)
    ensures ChildrenOf([i] + rest) == (if i.ChildItem? then [PromiseOf(i.child)] else []) + ChildrenOf(rest)
    ensures GoodItems([i] + rest) <==>
            Blank(i.space) && (if i.ArgItem? then GoodArg(i.arg) else GoodPromise(i.child)) && GoodItems(rest)
  {
    assert ([i] + rest)[1..] == rest;
  }

  lemma {:induction false} ArgItemsGood(list: seq<Arg>)
    requires WritableArgs(list)
    ensures var items := ArgItems(list); GoodItems(items) && ArgsOf(items) == list && ChildrenOf(items) == []
    decreases |list|
  {
    if list != [] {
      ArgTextGood(list[0]);
      ArgItemsGood(list[1..]);
      assert ArgItems(list)[1..] == ArgItems(list[1..]);
    }
  }

  lemma {:induction false} ChildItemsGood(us: seq<Unresolved>)
    requires WritableAll(us)
    ensures var items := ChildItems(us); GoodItems(items) && ArgsOf(items) == [] && ChildrenOf(items) == us
    decreases us, 1
  {
    if us != [] {
      TextGood(us[0]);
      ChildItemsGood(us[1..]);
      assert ChildItems(us)[1..] == ChildItems(us[1..]);
    }
  }

  lemma TightenedGood(items: seq<Item>)
    requires GoodItems(items)
    ensures var t := Tightened(items);
            GoodItems(t) && Tight(t, "") && ArgsOf(t) == ArgsOf(items) && ChildrenOf(t) == ChildrenOf(items)
  {
    if items != [] {
      assert Tightened(items)[1..] == items[1..];
    }
  }

  /** Every writable definition has a text that the layout rules allow, and that means it. */
  lemma {:induction false} TextGood(u: Unresolved)
    requires Writable(u)
    ensures GoodPromise(TextOf(u)) && PromiseOf(TextOf(u)) == u
    decreases u, 0
  {
    ArgItemsGood(u.args);
    ChildItemsGood(u.children);
    AppendItems(ArgItems(u.args), ChildItems(u.children));
    TightenedGood(ArgItems(u.args) + ChildItems(u.children));
  }

  lemma {:induction false} GoodArgWritable(t: ArgText)
    requires GoodArg(t)
    ensures WritableArg(ArgOf(t))
    decreases t, 0
  {
    if t.JoinText? {
      GoodPiecesWritable(t.pieces);
    }
  }

  lemma {:induction false} GoodPiecesWritable(ps: seq<Piece>)
    requires GoodPieces(ps)
    ensures WritableArgs(PartsOf(ps))
    decreases ps, 1
  {
    if ps != [] {
      GoodArgWritable(ps[0].arg);
      GoodPiecesWritable(ps[1..]);
      assert PartsOf(ps)[1..] == PartsOf(ps[1..]);
    }
  }

  lemma {:induction false} GoodItemsWritable(items: seq<Item>)
    requires GoodItems(items)
    ensures WritableArgs(ArgsOf(items)) && WritableAll(ChildrenOf(items))
    decreases items, 1
  {
    if items != [] {
      GoodItemsWritable(items[1..]);
      match items[0]
      case ArgItem(_, arg) =>
        GoodArgWritable(arg);
        assert ArgsOf(items)[1..] == ArgsOf(items[1..]);
      case ChildItem(_, child) =>
        GoodTextWritable(child);
        assert ChildrenOf(items)[1..] == ChildrenOf(items[1..]);
    }
  }

  /** And no other definition has one. */
  lemma {:induction false} GoodTextWritable(p: PromiseText)
    requires GoodPromise(p)
    ensures Writable(PromiseOf(p))
    decreases p, 0
  {
    GoodItemsWritable(p.items);
  }

  lemma WritableIff(u: Unresolved)
    ensures Writable(u) <==> exists p :: GoodPromise(p) && PromiseOf(p) == u
  {
    if Writable(u) {
      TextGood(u);
    }
    forall p | GoodPromise(p) && PromiseOf(p) == u ensures Writable(u) {
      GoodTextWritable(p);
    }
  }

  function DefsFor(us: seq<Unresolved>): seq<Definition> {
    if us == [] then [] else [Definition("", TextOf(us[0]))] + DefsFor(us[1..])
  }

  /** The text of a list of definitions. */
  function Print(us: seq<Unresolved>): string {
    Show(File(DefsFor(us), ""))
  }

  /** The table of a list of definitions. */
  function Added(tree: Tree, us: seq<Unresolved>): Tree
    decreases |us|
  {
    if us == [] then tree else Added(tree[us[0].name := us[0]], us[1..])
  }

  predicate NewNames(tree: Tree, us: seq<Unresolved>)
    decreases |us|
  {
    us != [] ==> us[0].name !in tree && NewNames(tree[us[0].name := us[0]], us[1..])
  }

  lemma {:induction false} DefsGood(tree: Tree, us: seq<Unresolved>)
    requires WritableAll(us) && NewNames(tree, us)
    ensures GoodDefs(tree, DefsFor(us)) && TableOf(tree, DefsFor(us)) == Added(tree, us)
    decreases |us|
  {
    if us != [] {
      TextGood(us[0]);
      DefsGood(tree[us[0].name := us[0]], us[1..]);
      assert DefsFor(us)[1..] == DefsFor(us[1..]);
    }
  }

  /** Printing any definitions that can be written at all, under new names, and reading the text
      back gives exactly these definitions. */
  lemma PrintsBack(input: Ascii, us: seq<Unresolved>, tree: Tree)
    requires input == Print(us) && WritableAll(us) && NewNames(tree, us)
    ensures Generate(Scanner.Lex(input), tree) == Ok(Added(tree, us), Ended)
  {
    DefsGood(tree, us);
    RoundTrip.ReadsBack(input, File(DefsFor(us), ""), tree);
  }

  function NilValue(val: string, text: string): PromiseText {
    PromiseText("", "setvar", [ArgItem(" ", Quoted("n")), ArgItem(" ", Dropped("var", val, text, ""))], "")
  }

  function NilDefinition(val: string, text: string): PromiseText {
    PromiseText("", "a", [ChildItem(" ", NilValue(val, text))], "")
  }

  lemma ItemsShown(a: Item, b: Item)
    ensures ShowItems([a]) == ShowItem(a) && ShowItems([a, b]) == ShowItem(a) + ShowItem(b)
    ensures GoodItems([a]) && GoodItems([b]) ==> GoodItems([a, b])
  {
    assert [a, b][1..] == [b] && [a][1..] == [] && [b][1..] == [];
    assert ShowItems([b]) == ShowItem(b);
  }

  lemma Shown(name: string, items: seq<Item>)
    ensures ShowPromise(PromiseText("", name, items, "")) == "(" + name + ShowItems(items) + ")"
  {
  }

  lemma TwoArgs(a: ArgText, b: ArgText)
    ensures var items := [ArgItem(" ", a), ArgItem(" ", b)];
            ArgsOf(items) == [ArgOf(a), ArgOf(b)] && ChildrenOf(items) == []
  {
    var x, y := ArgItem(" ", a), ArgItem(" ", b);
    assert [x, y][1..] == [y] && [y][1..] == [];
    assert ArgsOf([]) == [] && ChildrenOf([]) == [];
    assert ArgsOf([y]) == [ArgOf(b)] && ChildrenOf([y]) == [];
  }

  lemma GoodOne(a: ArgText)
    requires GoodArg(a)
    ensures GoodItems([ArgItem(" ", a)])
  {
    assert [ArgItem(" ", a)][1..] == [];
    assert GoodItems([]);
  }

  lemma NilValueShown(val: string, text: string)
    ensures ShowPromise(NilValue(val, text)) ==
            "(" + "setvar" + (" \"n\"" + ShowItem(ArgItem(" ", Dropped("var", val, text, "")))) + ")"
    ensures PromiseOf(NilValue(val, text)) == Unresolved("setvar", [Constant("n"), NoArg], [])
    ensures NameRunes(val) && GoodText(text) ==> GoodPromise(NilValue(val, text))
  {
    var n, d := Quoted("n"), Dropped("var", val, text, "");
    var a, b := ArgItem(" ", n), ArgItem(" ", d);
    ItemsShown(a, b);
    Shown("setvar", [a, b]);
    assert ShowItem(a) == " \"n\"";
    TwoArgs(n, d);
    if NameRunes(val) && GoodText(text) {
      GoodOne(n);
      GoodOne(d);
    }
  }

  lemma NilDefinitionShown(val: string, text: string)
    ensures ShowPromise(NilDefinition(val, text)) == "(" + "a" + (" " + ShowPromise(NilValue(val, text))) + ")"
    ensures PromiseOf(NilDefinition(val, text)) == Unresolved("a", [], [PromiseOf(NilValue(val, text))])
    ensures GoodPromise(NilValue(val, text)) ==> GoodPromise(NilDefinition(val, text))
  {
    var c := ChildItem(" ", NilValue(val, text));
    ItemsShown(c, c);
    Shown("a", [c]);
    assert [c][1..] == [];
    assert ArgsOf([c]) == ArgsOf([]) == [] && ChildrenOf([]) == [];
    assert ChildrenOf([c]) == [PromiseOf(NilValue(val, text))];
    if GoodPromise(NilValue(val, text)) {
      assert GoodItems([]) && GoodItems([c]);
    }
  }

  /** A value with a quote behind it is dropped, and the getter is nil. */
  lemma DroppedValue(input: Ascii, val: string, text: string)
    requires NameRunes(val) && GoodText(text)
    requires var getter := " " + ("[" + ("var" + (":" + (val + ("\"" + (text + "\"") + "]")))));
             input == "(" + "a" + (" " + ("(" + "setvar" + (" \"n\"" + getter) + ")")) + ")"
    ensures Generate(Scanner.Lex(input), map[]) ==
            Ok(map["a" := Unresolved("a", [], [Unresolved("setvar", [Constant("n"), NoArg], [])])], Ended)
  {
    NilValueShown(val, text);
    NilDefinitionShown(val, text);
    var defs := [Definition("", NilDefinition(val, text))];
    assert "" + "]" == "]";
    assert defs[1..] == [];
    assert ShowDefs(defs) == ShowPromise(NilDefinition(val, text));
    assert GoodDefs(map[], defs);
    assert TableOf(map[], defs) == map["a" := PromiseOf(NilDefinition(val, text))];
    RoundTrip.ReadsBack(input, File(defs, ""), map[]);
  }
}
