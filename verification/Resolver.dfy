/**
 Resolving the table of definitions: every reference is replaced by the definition it
 names, so that a finite tree is left. Nothing looks for cycles of references: one that the
 program gets into, without meeting an error first, it follows until its stack is gone. Here
 the depth of references is bounded by `fuel`, and `Deep` says that the bound was not enough.
 */
module Resolver {
  import opened Syntax
  import opened Promises

  datatype Reason = OneChild | NotFound | BadBuiltin

  datatype Resolved<T> = Ok(value: T) | Err(reason: Reason) | Deep

  const BUILTINS := {"or", "and", "not", "test", "indir", "setenv", "change", "pipe", "spipe", "setvar", "readvar",
                     "template", "restart", "true", "false", "eval", "asuser", "error", "warn", "info"}

  function Accept(ok: bool, p: Promise): Resolved<Promise> {
    if ok then Ok(p) else Err(BadBuiltin)
  }

  function ExecsOf(children: seq<Promise>): Resolved<seq<Exec>> {
    if children == [] then Ok([])
    else if !children[0].Run? then Err(BadBuiltin)
    else match ExecsOf(children[1..])
      case Ok(es) => Ok([children[0].exec] + es)
      case stop => stop
  }

  function NewPipe(children: seq<Promise>, args: seq<Arg>): Resolved<Promise> {
    if args != [] then Err(BadBuiltin)
    else match ExecsOf(children)
      case Ok(es) => Ok(Pipe(es))
      case Err(e) => Err(e)
      case Deep => Deep
  }

  /** The New methods of the builtin promises. Setvar and template ignore nested promises. */
  function New(name: string, children: seq<Promise>, args: seq<Arg>): Resolved<Promise> {
    match name
    case "or" => if |children| < 2 || args != [] then Err(BadBuiltin) else Ok(Or(children))
    case "and" => if |children| < 2 || args != [] then Err(BadBuiltin) else Ok(And(children))
    case "not" => if |children| != 1 || args != [] then Err(BadBuiltin) else Ok(Not(children[0]))
    case "true" => if |children| != 1 || args != [] then Err(BadBuiltin) else Ok(True(children[0]))
    case "false" => if |children| != 1 || args != [] then Err(BadBuiltin) else Ok(False(children[0]))
    case "test" => Accept(children == [] && args != [], Run(Exec(ExecTest, args)))
    case "change" => Accept(children == [] && args != [], Run(Exec(ExecChange, args)))
    case "indir" => if |args| != 1 || |children| != 1 then Err(BadBuiltin) else Ok(InDir(args[0], children[0]))
    case "setenv" =>
      if |children| != 1 || |args| != 2 then Err(BadBuiltin) else Ok(SetEnv(args[0], args[1], children[0]))
    case "asuser" => if |args| != 1 || |children| != 1 then Err(BadBuiltin) else Ok(AsUser(args[0], children[0]))
    case "pipe" => NewPipe(children, args)
    case "spipe" => NewPipe(children, args)
    case "setvar" => if |args| == 2 then Ok(SetVar(args[0], args[1])) else Err(BadBuiltin)
    case "readvar" =>
      if |args| != 1 || |children| != 1 then Err(BadBuiltin)
      else if children[0].Run? || children[0].Pipe? || children[0].Named? then Ok(ReadVar(args[0], children[0]))
      else Err(BadBuiltin)
    case "template" => Accept(|args| == 3, Foreign(Template, args))
    case "restart" => Accept(|args| <= 1 && children == [], Foreign(Restart, args))
    case "eval" => if children != [] || |args| != 2 then Err(BadBuiltin) else Ok(EvalFile(args[0], args[1]))
    case "error" => Accept(children == [] && |args| >= 1, Log(Error, args))
    case "warn" => Accept(children == [] && |args| >= 1, Log(Warning, args))
    case "info" => Accept(children == [] && |args| >= 1, Log(Info, args))
    case _ => Err(NotFound)
  }

  /** A use of a promise. A definition shadows a builtin of the same name, and what is nested
      in the use of a definition is not even looked at. */
  function Resolve(fuel: nat, tree: Tree, u: Unresolved): Resolved<Promise>
    decreases fuel, u
  {
    if u.name in tree then
      if fuel == 0 then Deep
      else match ResolvePrimary(fuel - 1, tree, tree[u.name])
        case Ok(p) => Ok(Named(p.name, p.body, u.args))
        case stop => stop
    else match ResolveAll(fuel, tree, u.children)
      case Ok(children) => New(u.name, children, u.args)
      case Err(e) => Err(e)
      case Deep => Deep
  }

  function ResolveAll(fuel: nat, tree: Tree, us: seq<Unresolved>): (r: Resolved<seq<Promise>>)
    ensures r.Ok? ==> |r.value| == |us|
    decreases fuel, us
  {
    if us == [] then Ok([])
    else match Resolve(fuel, tree, us[0])
      case Ok(p) =>
        (match ResolveAll(fuel, tree, us[1..])
         case Ok(ps) => Ok([p] + ps)
         case stop => stop)
      case Err(e) => Err(e)
      case Deep => Deep
  }

  /** A definition; the promise it defines is its only child. */
  function ResolvePrimary(fuel: nat, tree: Tree, d: Unresolved): (r: Resolved<Promise>)
    ensures r.Ok? ==> r.value.Named?
    decreases fuel, d, 0
  {
    if |d.children| != 1 then Err(OneChild)
    else match Resolve(fuel, tree, d.children[0])
      case Ok(p) => Ok(Named(d.name, p, []))
      case stop => stop
  }

  /** Every definition of the table resolves with the given bound. */
  predicate Resolves(f: nat, tree: Tree) {
    forall k :: k in tree ==> ResolvePrimary(f, tree, tree[k]).Ok?
  }

  /** The table, resolved in the order in which its keys happen to come. */
  function ResolveTable(fuel: nat, tree: Tree, order: seq<string>,
                        done: map<string, Promise>): Resolved<map<string, Promise>>
    requires forall k :: k in order ==> k in tree
  {
    if order == [] then Ok(done)
    else match ResolvePrimary(fuel, tree, tree[order[0]])
      case Ok(p) => ResolveTable(fuel, tree, order[1..], done[order[0] := p])
      case Err(e) => Err(e)
      case Deep => Deep
  }
}
