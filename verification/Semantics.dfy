/**
 What evaluating a promise means, as a function from state to state: variables belong to
 the nearest enclosing named promise, the environment and the directory to the enclosing
 setenv and indir, and commands act on one world that all promises share.
 */
module Semantics {
  import opened Text
  import opened Syntax
  import opened Promises
  import Resolver

  datatype Cred = Cred(uid: int, gid: int)

  datatype Command = Command(argv: seq<string>, dir: string, env: seq<string>, cred: Option<Cred>)

  /** Whether a command ran alone, fed the next one of a pipe, or ended a pipe. */
  datatype Role = Single | Feeder | Last

  /** A command that was run, and what it left in the output buffer. */
  datatype Event = Event(typ: ExecType, cmd: Command, role: Role, out: string)

  datatype Exit = Exit(ok: bool, out: string, err: string)

  /** The machine the program runs on. Its answers may depend on every command run so far.
      `lookPath` finds an executable; `table` gives the definitions in the files at a path. */
  datatype Host = Host(
    environ: seq<string>,
    getenv: string -> string,
    starts: (seq<Event>, Command) -> bool,
    runs: (seq<Event>, Command) -> Exit,
    directory: (seq<Event>, string, Option<Cred>) -> Option<string>,
    joinPath: (string, string) -> string,
    lookPath: (seq<Event>, string) -> Option<string>,
    hasFile: (seq<Event>, string) -> bool,
    table: (seq<Event>, string, string) -> Option<Tree>,
    user: string -> Option<Cred>,
    foreign: (seq<Event>, ForeignKind, seq<string>, map<string, string>) -> Option<bool>)

  type Vars = map<string, string>

  /** What all promises share: the output buffers, the counters of the log, and the machine.
      `misses` says, for every pipe whose last command did not start, how many commands had
      been run by then. */
  datatype World = World(
    stdout: string, stderr: string, changes: nat, tests: nat, warnings: nat, errors: nat,
    trace: seq<Event>, misses: seq<nat>)

  datatype State = State(vars: Vars, world: World)

  /** What a promise inherits from those around it. `depth` bounds how deep (eval)s may still nest. */
  datatype Scope = Scope(env: seq<string>, inDir: string, cred: Option<Cred>, verbose: bool, depth: nat)

  datatype Panic =
    | NilArgument
    | NegativePosition
    | NoCommand
    | NoFormat
    | EmptyPipe
    | AlreadyDefined(name: string)
    | BadDirectory
    | UnknownUser
    | NotStarted
    | NotCompiled
    | TooDeep
    | ForeignFailure

  datatype Outcome = Returned(ok: bool) | Panicked(why: Panic)

  datatype Res = Res(out: Outcome, st: State)

  datatype Val<T> = Got(value: T) | Broke(why: Panic)

  /** The value of an argument inside a call with the given arguments. */
  function GetValue(h: Host, a: Arg, args: seq<string>, vars: Vars): Val<string>
    decreases a
  {
    match a
    case Constant(text) => Got(text)
    case ArgGetter(i) => if |args| <= i then Got("") else if i < 0 then Broke(NegativePosition) else Got(args[i])
    case EnvGetter(name) => Got(h.getenv(name))
    case VarGetter(name) => Got(if name in vars then vars[name] else "missing")
    case Join(parts) => JoinValues(h, parts, args, vars)
    case NoArg => Broke(NilArgument)
  }

  function JoinValues(h: Host, parts: seq<Arg>, args: seq<string>, vars: Vars): Val<string>
    decreases parts
  {
    if parts == [] then Got("")
    else match GetValue(h, parts[0], args, vars)
      case Broke(why) => Broke(why)
      case Got(v) =>
        match JoinValues(h, parts[1..], args, vars)
        case Broke(why) => Broke(why)
        case Got(rest) => Got(v + rest)
  }

  function GetValues(h: Host, params: seq<Arg>, args: seq<string>, vars: Vars): (r: Val<seq<string>>)
    ensures r.Got? ==> |r.value| == |params|
  {
    if params == [] then Got([])
    else match GetValue(h, params[0], args, vars)
      case Broke(why) => Broke(why)
      case Got(v) =>
        match GetValues(h, params[1..], args, vars)
        case Broke(why) => Broke(why)
        case Got(rest) => Got([v] + rest)
  }

  /** The lines of an output, one behind the other without their ends. */
  function Flatten(out: string): string {
    if out == "" then ""
    else if out[0] == '\n' then Flatten(out[1..])
    else if out[0] == '\r' && (|out| == 1 || out[1] == '\n') then Flatten(out[1..])
    else [out[0]] + Flatten(out[1..])
  }

  function Counted(w: World, typ: ExecType): World {
    match typ
    case ExecChange => w.(changes := w.changes + 1)
    case ExecTest => w.(tests := w.tests + 1)
  }

  /** Output on stderr is a warning, if it is reported at all. */
  function Reported(w: World, report: bool): World {
    if report && !Blank(w.stderr) then w.(warnings := w.warnings + 1) else w
  }

  /** The executable that a command names; inside an (indir) one below the directory is preferred. */
  function Executable(h: Host, name: string, sc: Scope, trace: seq<Event>): string {
    if sc.inDir == "" then name
    else match h.lookPath(trace, h.joinPath(sc.inDir, name))
      case Some(found) => found
      case None => name
  }

  function Prepare(h: Host, e: Exec, args: seq<string>, sc: Scope, st: State): Val<Command> {
    if e.args == [] then Broke(NoCommand)
    else match GetValues(h, e.args, args, st.vars)
      case Broke(why) => Broke(why)
      case Got(argv) =>
        Got(Command([Executable(h, argv[0], sc, st.world.trace)] + argv[1..],
                    if sc.inDir != "" then sc.inDir else h.getenv("PWD"), h.environ + sc.env, sc.cred))
  }

  function PrepareAll(h: Host, es: seq<Exec>, args: seq<string>, sc: Scope, st: State): (r: Val<seq<Command>>)
    ensures r.Got? ==> |r.value| == |es|
  {
    if es == [] then Got([])
    else match Prepare(h, es[0], args, sc, st)
      case Broke(why) => Broke(why)
      case Got(c) =>
        match PrepareAll(h, es[1..], args, sc, st)
        case Broke(why) => Broke(why)
        case Got(rest) => Got([c] + rest)
  }

  /** A (test) or (change). */
  function RunStep(h: Host, e: Exec, args: seq<string>, sc: Scope, st: State): Res {
    match Prepare(h, e, args, sc, st)
    case Broke(why) => Res(Panicked(why), st)
    case Got(cmd) => RunCommand(h, e.typ, cmd, sc.verbose || e.typ == ExecChange, st)
  }

  function RunCommand(h: Host, typ: ExecType, cmd: Command, report: bool, st: State): Res {
    var w := st.world.(stdout := "", stderr := "");
    if !h.starts(w.trace, cmd) then Res(Panicked(NotStarted), st.(world := w))
    else
      var x := h.runs(w.trace, cmd);
      var out := Flatten(x.out);
      var w' := w.(stdout := out, stderr := Flatten(x.err), trace := w.trace + [Event(typ, cmd, Single, out)]);
      Res(Returned(x.ok), st.(world := Counted(Reported(w', report), typ)))
  }

  datatype Fed = Fed(ok: bool, world: World)

  /** Start all commands of a pipe but the last. */
  function Feed(h: Host, es: seq<Exec>, cmds: seq<Command>, w: World): Fed
    requires |es| == |cmds|
  {
    if |cmds| <= 1 then Fed(true, w)
    else if !h.starts(w.trace, cmds[0]) then Fed(false, w)
    else Feed(h, es[1..], cmds[1..], Counted(w.(trace := w.trace + [Event(es[0].typ, cmds[0], Feeder, "")]), es[0].typ))
  }

  predicate HasChange(es: seq<Exec>) {
    exists i :: 0 <= i < |es| && es[i].typ == ExecChange
  }

  /** The last command of a pipe; one that does not start merely fails. */
  function EndPipe(h: Host, e: Exec, cmd: Command, report: bool, st: State): Res {
    var w := st.world;
    if !h.starts(w.trace, cmd) then
      Res(Returned(false), st.(world := w.(stdout := "", stderr := "", misses := w.misses + [|w.trace|])))
    else
      var x := h.runs(w.trace, cmd);
      var w' := w.(stdout := x.out, stderr := x.err, trace := w.trace + [Event(e.typ, cmd, Last, x.out)]);
      Res(Returned(x.ok), st.(world := Reported(w', report)))
  }

  function PipeStep(h: Host, es: seq<Exec>, args: seq<string>, sc: Scope, st: State): Res {
    match PrepareAll(h, es, args, sc, st)
    case Broke(why) => Res(Panicked(why), st)
    case Got(cmds) =>
      if es == [] then Res(Panicked(EmptyPipe), st)
      else
        var fed := Feed(h, es, cmds, st.world);
        if !fed.ok then Res(Panicked(NotStarted), st.(world := fed.world))
        else EndPipe(h, es[|es| - 1], cmds[|cmds| - 1], sc.verbose || HasChange(es), st.(world := fed.world))
  }

  /** Variables are written once; writing the same value again does no harm. */
  function Store(st: State, name: string, value: string, result: bool): Res {
    if name in st.vars && st.vars[name] != TrimSpace(value) then Res(Panicked(AlreadyDefined(name)), st)
    else Res(Returned(result), st.(vars := st.vars[name := TrimSpace(value)]))
  }

  function SetVarStep(h: Host, variable: Arg, value: Arg, args: seq<string>, st: State): Res {
    match GetValue(h, variable, args, st.vars)
    case Broke(why) => Res(Panicked(why), st)
    case Got(name) =>
      match GetValue(h, value, args, st.vars)
      case Broke(why) => Res(Panicked(why), st)
      case Got(val) => Store(st, name, val, true)
  }

  /** What (readvar) does once its command has run. */
  function ReadVarStep(h: Host, variable: Arg, args: seq<string>, r: Res): Res {
    match r.out
    case Panicked(_) => r
    case Returned(ok) =>
      match GetValue(h, variable, args, r.st.vars)
      case Broke(why) => Res(Panicked(why), r.st)
      case Got(name) => Store(r.st, name, r.st.world.stdout, ok)
  }

  /** Log messages do not see variables. */
  function LogStep(h: Host, typ: LogType, params: seq<Arg>, args: seq<string>, st: State): Res {
    if params == [] then Res(Panicked(NoFormat), st)
    else match GetValues(h, params, args, map[])
      case Broke(why) => Res(Panicked(why), st)
      case Got(_) =>
        var w := st.world;
        Res(Returned(true),
            st.(world := match typ
                         case Info => w
                         case Warning => w.(warnings := w.warnings + 1)
                         case Error => w.(errors := w.errors + 1)))
  }

  function ForeignStep(h: Host, kind: ForeignKind, params: seq<Arg>, args: seq<string>, st: State): Res {
    match GetValues(h, params, args, st.vars)
    case Broke(why) => Res(Panicked(why), st)
    case Got(vs) =>
      match h.foreign(st.world.trace, kind, vs, st.vars)
      case None => Res(Panicked(ForeignFailure), st)
      case Some(ok) => Res(Returned(ok), st)
  }

  predicate IsAbs(path: string) {
    path != "" && path[0] == '/'
  }

  /** The directory an (indir) leads to; None if there is no such directory. */
  function Enter(h: Host, dir: string, sc: Scope, trace: seq<Event>): Option<string> {
    var d := if sc.inDir != "" && !IsAbs(dir) then h.joinPath(sc.inDir, dir) else dir;
    if d == "" then Some("") else h.directory(trace, d, sc.cred)
  }

  function InDirScope(h: Host, dir: Arg, args: seq<string>, sc: Scope, st: State): (r: Val<Scope>)
    ensures r.Got? ==> r.value.depth == sc.depth
  {
    match GetValue(h, dir, args, st.vars)
    case Broke(why) => Broke(why)
    case Got(d) =>
      match Enter(h, d, sc, st.world.trace)
      case None => Broke(BadDirectory)
      case Some(d') => Got(sc.(inDir := d'))
  }

  function SetEnvScope(h: Host, variable: Arg, value: Arg, args: seq<string>, sc: Scope, st: State): (r: Val<Scope>)
    ensures r.Got? ==> r.value.depth == sc.depth
  {
    match GetValue(h, variable, args, st.vars)
    case Broke(why) => Broke(why)
    case Got(name) =>
      match GetValue(h, value, args, st.vars)
      case Broke(why) => Broke(why)
      case Got(val) => Got(sc.(env := sc.env + [name + "=" + val]))
  }

  function AsUserScope(h: Host, user: Arg, args: seq<string>, sc: Scope, st: State): (r: Val<Scope>)
    ensures r.Got? ==> r.value.depth == sc.depth
  {
    match GetValue(h, user, args, st.vars)
    case Broke(why) => Broke(why)
    case Got(name) =>
      match h.user(name)
      case None => Broke(UnknownUser)
      case Some(c) => Got(sc.(cred := Some(c)))
  }

  /** What an (eval) has compiled: a table that resolves, one of its names, and the directory to run in. */
  datatype Program = Program(tree: Tree, root: string, dir: string)

  predicate Compiles(p: Program) {
    p.root in p.tree && Resolver.Resolves(|p.tree|, p.tree)
  }

  /** The program in the files at dir; the library has to be there too. */
  function Load(h: Host, name: string, dir: string, st: State): (r: Val<Program>)
    ensures r.Got? ==> Compiles(r.value)
  {
    var trace := st.world.trace;
    if name == "" || !h.hasFile(trace, dir) || "lib_dir" !in st.vars || !h.hasFile(trace, st.vars["lib_dir"]) then
      Broke(NotCompiled)
    else match h.table(trace, st.vars["lib_dir"], dir)
      case Some(tree) =>
        if Compiles(Program(tree, name, dir)) then Got(Program(tree, name, dir)) else Broke(NotCompiled)
      case None => Broke(NotCompiled)
  }

  function Compiled(h: Host, root: Arg, path: Arg, args: seq<string>, st: State): (r: Val<Program>)
    ensures r.Got? ==> Compiles(r.value)
  {
    match GetValue(h, root, args, st.vars)
    case Broke(why) => Broke(why)
    case Got(name) =>
      match GetValue(h, path, args, st.vars)
      case Broke(why) => Broke(why)
      case Got(dir) => Load(h, name, dir, st)
  }

  /** The promise that a compiled program is about. */
  function RootOf(p: Program): Promise
    requires Compiles(p)
  {
    Resolver.ResolvePrimary(|p.tree|, p.tree, p.tree[p.root]).value
  }

  function EvalScope(p: Program, sc: Scope): (r: Scope)
    requires sc.depth > 0
    ensures r.depth < sc.depth
  {
    sc.(inDir := p.dir, depth := sc.depth - 1)
  }

  function Negated(r: Res): Res {
    if r.out.Returned? then r.(out := Returned(!r.out.ok)) else r
  }

  function Forced(r: Res, ok: bool): Res {
    if r.out.Returned? then r.(out := Returned(ok)) else r
  }

  /** A call keeps its variables to itself. */
  function Leave(caller: Vars, r: Res): Res {
    r.(st := r.st.(vars := caller))
  }

  function Eval(h: Host, p: Promise, args: seq<string>, sc: Scope, st: State): Res
    decreases sc.depth, p
  {
    match p
    case Named(_, body, params) =>
      (match GetValues(h, params, args, st.vars)
       case Broke(why) => Res(Panicked(why), st)
       case Got(vs) => Leave(st.vars, Eval(h, body, vs, sc, st)))
    case And(ps) => EvalAnd(h, ps, args, sc, st)
    case Or(ps) => EvalOr(h, ps, args, sc, st)
    case Not(q) => Negated(Eval(h, q, args, sc, st))
    case True(q) => Forced(Eval(h, q, args, sc, st), true)
    case False(q) => Forced(Eval(h, q, args, sc, st), false)
    case Run(e) => RunStep(h, e, args, sc, st)
    case Pipe(es) => PipeStep(h, es, args, sc, st)
    case SetVar(variable, value) => SetVarStep(h, variable, value, args, st)
    case ReadVar(variable, source) => ReadVarStep(h, variable, args, Eval(h, source, args, sc, st))
    case InDir(dir, q) =>
      (match InDirScope(h, dir, args, sc, st)
       case Broke(why) => Res(Panicked(why), st)
       case Got(sc') => Eval(h, q, args, sc', st))
    case SetEnv(variable, value, q) =>
      (match SetEnvScope(h, variable, value, args, sc, st)
       case Broke(why) => Res(Panicked(why), st)
       case Got(sc') => Eval(h, q, args, sc', st))
    case AsUser(user, q) =>
      (match AsUserScope(h, user, args, sc, st)
       case Broke(why) => Res(Panicked(why), st)
       case Got(sc') => Eval(h, q, args, sc', st))
    case Log(typ, params) => LogStep(h, typ, params, args, st)
    case EvalFile(root, path) =>
      (match Compiled(h, root, path, args, st)
       case Broke(why) => Res(Panicked(why), st)
       case Got(program) =>
         if sc.depth == 0 then Res(Panicked(TooDeep), st)
         else Eval(h, RootOf(program), [], EvalScope(program, sc), st))
    case Foreign(kind, params) => ForeignStep(h, kind, params, args, st)
  }

  function EvalAnd(h: Host, ps: seq<Promise>, args: seq<string>, sc: Scope, st: State): Res
    decreases sc.depth, ps
  {
    if ps == [] then Res(Returned(true), st)
    else
      var r := Eval(h, ps[0], args, sc, st);
      if r.out == Returned(true) then EvalAnd(h, ps[1..], args, sc, r.st) else r
  }

  function EvalOr(h: Host, ps: seq<Promise>, args: seq<string>, sc: Scope, st: State): Res
    decreases sc.depth, ps
  {
    if ps == [] then Res(Returned(false), st)
    else
      var r := Eval(h, ps[0], args, sc, st);
      if r.out == Returned(false) then EvalOr(h, ps[1..], args, sc, r.st) else r
  }
}
