/**
 Configuration text as its author writes it: definitions with their layout. Arguments and
 nested promises come in any order, with any white space where the language allows it.
 */
module SourceText {
  import opened Text
  import opened Syntax
  import Parser

  datatype ArgText =
    | Quoted(text: string)                                  // "text"
    | Getter(typ: string, val: string, pad: string)         // [typ:val ]
    | Dropped(typ: string, val: string, text: string, close: string)   // [typ:val"text" ], which is nil
    | JoinText(pieces: seq<Piece>, close: string)           // [join ... ]

  datatype Piece = Piece(space: string, arg: ArgText)

  datatype Item =
    | ArgItem(space: string, arg: ArgText)
    | ChildItem(space: string, child: PromiseText)

  datatype PromiseText = PromiseText(lead: string, name: string, items: seq<Item>, close: string)

  /** A definition with the comment in front of it. */
  datatype Definition = Definition(comment: string, promise: PromiseText)

  datatype File = File(defs: seq<Definition>, comment: string)

  function ShowQuoted(text: string): string {
    "\"" + (text + "\"")
  }

  function ShowArg(a: ArgText): string {
    match a
    case Quoted(text) => ShowQuoted(text)
    case Getter(typ, val, pad) => "[" + (typ + (":" + (val + (pad + "]"))))
    case Dropped(typ, val, text, close) => "[" + (typ + (":" + (val + (ShowQuoted(text) + (close + "]")))))
    case JoinText(pieces, close) => "[" + ("join" + (ShowPieces(pieces) + (close + "]")))
  }

  function ShowPieces(ps: seq<Piece>): string {
    if ps == [] then "" else ps[0].space + (ShowArg(ps[0].arg) + ShowPieces(ps[1..]))
  }

  function ShowPromise(p: PromiseText): string {
    "(" + (p.lead + (p.name + (ShowItems(p.items) + (p.close + ")"))))
  }

  function ShowItem(i: Item): string {
    match i
    case ArgItem(space, arg) => space + ShowArg(arg)
    case ChildItem(space, child) => space + ShowPromise(child)
  }

  function ShowItems(items: seq<Item>): string {
    if items == [] then "" else ShowItem(items[0]) + ShowItems(items[1..])
  }

  function ShowDefs(defs: seq<Definition>): string {
    if defs == [] then "" else defs[0].comment + (ShowPromise(defs[0].promise) + ShowDefs(defs[1..]))
  }

  function Show(f: File): string {
    ShowDefs(f.defs) + f.comment
  }

  /** What the text means: names, arguments and children without their layout. */
  function ArgOf(a: ArgText): Arg {
    match a
    case Quoted(text) => Constant(text)
    case Getter(typ, val, _) =>
      if Parser.BadValue(typ, val) then NoArg else Parser.Meant(typ, val)
    case Dropped(_, _, _, _) => NoArg
    case JoinText(pieces, _) => Join(PartsOf(pieces))
  }

  function PartsOf(ps: seq<Piece>): seq<Arg> {
    if ps == [] then [] else [ArgOf(ps[0].arg)] + PartsOf(ps[1..])
  }

  function PromiseOf(p: PromiseText): Unresolved {
    Unresolved(p.name, ArgsOf(p.items), ChildrenOf(p.items))
  }

  function ArgsOf(items: seq<Item>): seq<Arg> {
    if items == [] then []
    else match items[0]
      case ArgItem(_, arg) => [ArgOf(arg)] + ArgsOf(items[1..])
      case ChildItem(_, _) => ArgsOf(items[1..])
  }

  function ChildrenOf(items: seq<Item>): seq<Unresolved> {
    if items == [] then []
    else match items[0]
      case ArgItem(_, _) => ChildrenOf(items[1..])
      case ChildItem(_, child) => [PromiseOf(child)] + ChildrenOf(items[1..])
  }

  function TableOf(tree: Tree, defs: seq<Definition>): Tree
    decreases defs
  {
    if defs == [] then tree
    else TableOf(tree[defs[0].promise.name := PromiseOf(defs[0].promise)], defs[1..])
  }

  predicate GoodText(text: string) {
    '"' !in text && IsAscii(text)
  }

  /** The layout the language allows. */
  predicate GoodArg(a: ArgText) {
    match a
    case Quoted(text) => GoodText(text)
    case Getter(typ, val, pad) =>
      && (typ == "arg" || typ == "env" || typ == "var")
      && !Parser.BadValue(typ, val)
      && NameRunes(val) && (val == "" || val[|val| - 1] != ' ')
      && (forall i :: 0 <= i < |pad| ==> pad[i] == ' ')
    case Dropped(typ, val, text, close) =>
      (typ == "arg" || typ == "env" || typ == "var") && NameRunes(val) && GoodText(text) && Blank(close)
    case JoinText(pieces, close) => pieces != [] && GoodPieces(pieces) && Blank(close)
  }

  predicate GoodPieces(ps: seq<Piece>) {
    ps != [] ==> Blank(ps[0].space) && GoodArg(ps[0].arg) && GoodPieces(ps[1..])
  }

  predicate GoodName(name: string) {
    name != "" && NameRunes(name) && name[0] != ' ' && name[|name| - 1] != ' '
  }

  /** No white space in front of the first item. */
  predicate Tight(items: seq<Item>, close: string) {
    if items == [] then close == "" else items[0].space == ""
  }

  /** A promise may have no name at all, if there is no white space where it would be. */
  predicate GoodPromise(p: PromiseText) {
    && Blank(p.lead) && Blank(p.close)
    && (GoodName(p.name) || (p.name == "" && p.lead == "" && Tight(p.items, p.close)))
    && GoodItems(p.items)
  }

  predicate GoodItems(items: seq<Item>) {
    items != [] ==>
      Blank(items[0].space) &&
      (match items[0]
       case ArgItem(_, arg) => GoodArg(arg)
       case ChildItem(_, child) => GoodPromise(child)) &&
      GoodItems(items[1..])
  }

  predicate GoodComment(comment: string) {
    '(' !in comment && IsAscii(comment)
  }

  /** Definitions with names that are new to the table and to one another. */
  predicate GoodDefs(tree: Tree, defs: seq<Definition>)
    decreases defs
  {
    defs != [] ==>
      GoodComment(defs[0].comment) && GoodPromise(defs[0].promise) && defs[0].promise.name !in tree &&
      GoodDefs(tree[defs[0].promise.name := PromiseOf(defs[0].promise)], defs[1..])
  }

  predicate GoodFile(tree: Tree, f: File) {
    GoodDefs(tree, f.defs) && GoodComment(f.comment)
  }
}
