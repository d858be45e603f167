/**
 The evaluator as it runs: contexts are copied shallowly, so that promises share one map of
 variables, two output buffers, the counters of the log and, as far as its capacity goes,
 the array behind the environment. It is proved to mean what Semantics says.
 */
module Evaluator {
  import opened Text
  import opened Syntax
  import opened Promises
  import opened Semantics
  import Striplines

  class Variables {
    var m: Vars

    constructor ()
      ensures m == map[]
    {
      m := map[];
    }
  }

  class Buffer {
    var content: string

    constructor ()
      ensures content == ""
    {
      content := "";
    }

    method Reset()
      modifies this
      ensures content == ""
    {
      content := "";
    }

    method Write(s: string)
      modifies this
      ensures content == old(content) + s
    {
      content := content + s;
    }
  }

  /** The global log and the machine underneath. */
  class Machine {
    const host: Host
    var changes: nat
    var tests: nat
    var warnings: nat
    var errors: nat
    var trace: seq<Event>
    var misses: seq<nat>

    constructor (h: Host)
      ensures host == h && changes == tests == warnings == errors == 0 && trace == [] && misses == []
    {
      host := h;
      changes, tests, warnings, errors := 0, 0, 0, 0;
      trace, misses := [], [];
    }

    method IncrementExecCounter(typ: ExecType)
      modifies `changes, `tests
      ensures changes == old(changes) + (if typ == ExecChange then 1 else 0)
      ensures tests == old(tests) + (if typ == ExecTest then 1 else 0)
    {
      if typ == ExecChange {
        changes := changes + 1;
      }
      if typ == ExecTest {
        tests := tests + 1;
      }
    }
  }

  /** A slice that starts where its array does; the capacity is the length of the array. */
  datatype Slice = Slice(store: array<string>, len: nat)

  predicate Fits(s: Slice) {
    s.len <= s.store.Length
  }

  function Elements(s: Slice): seq<string>
    requires Fits(s)
    reads s.store
  {
    s.store[..s.len]
  }

  /** Go's append: in place while there is room, into a larger array otherwise. */
  method Append(s: Slice, x: string) returns (r: Slice)
    requires Fits(s)
    modifies s.store
    ensures Fits(r) && Elements(r) == old(Elements(s)) + [x]
    ensures Elements(s) == old(Elements(s))
    ensures r.store == s.store || fresh(r.store)
  {
    if s.len < s.store.Length {
      s.store[s.len] := x;
      r := Slice(s.store, s.len + 1);
    } else {
      var spare :| 0 <= spare;
      var larger := new string[s.len + 1 + spare](i => "");
      for i := 0 to s.len
        invariant larger[..i] == s.store[..i]
        invariant Elements(s) == old(Elements(s))
      {
        larger[i] := s.store[i];
      }
      larger[s.len] := x;
      r := Slice(larger, s.len + 1);
    }
  }

  /** A context. Copying it copies the references. */
  datatype Context = Context(
    vars: Variables, stdout: Buffer, stderr: Buffer, machine: Machine,
    env: Slice, inDir: string, cred: Option<Cred>, verbose: bool, depth: nat)

  predicate Proper(ctx: Context) {
    ctx.stdout != ctx.stderr && Fits(ctx.env)
  }

  function WorldOf(ctx: Context): World
    reads ctx.stdout, ctx.stderr, ctx.machine
  {
    var m := ctx.machine;
    World(ctx.stdout.content, ctx.stderr.content, m.changes, m.tests, m.warnings, m.errors, m.trace, m.misses)
  }

  function StateOf(ctx: Context): State
    reads ctx.vars, ctx.stdout, ctx.stderr, ctx.machine
  {
    State(ctx.vars.m, WorldOf(ctx))
  }

  function ScopeOf(ctx: Context): Scope
    requires Proper(ctx)
    reads ctx.env.store
  {
    Scope(Elements(ctx.env), ctx.inDir, ctx.cred, ctx.verbose, ctx.depth)
  }

  /** The value of an argument; that of a joiner is collected part by part. */
  method Value(h: Host, a: Arg, args: seq<string>, vars: Vars) returns (r: Val<string>)
    ensures r == GetValue(h, a, args, vars)
    decreases a, 0
  {
    match a
    case Constant(text) => r := Got(text);
    case ArgGetter(i) =>
      if |args| <= i {
        r := Got("");
      } else if i < 0 {
        r := Broke(NegativePosition);  // index out of range
      } else {
        r := Got(args[i]);
      }
    case EnvGetter(name) => r := Got(h.getenv(name));
    case VarGetter(name) => r := Got(if name in vars then vars[name] else "missing");
    case Join(parts) => r := JoinedValue(h, parts, args, vars);
    case NoArg => r := Broke(NilArgument);  // nil in the program
  }

  /** The values of a list of arguments, evaluated one after another. */
  method Values(h: Host, params: seq<Arg>, args: seq<string>, vars: Vars) returns (r: Val<seq<string>>)
    ensures r == GetValues(h, params, args, vars)
  {
    var vs: seq<string> := [];
    var i := 0;
    assert forall rest: seq<string> :: vs + rest == rest;
    while i < |params|
      invariant 0 <= i <= |params|
      invariant GetValues(h, params, args, vars) ==
                match GetValues(h, params[i..], args, vars)
                case Got(rest) => Got(vs + rest)
                case Broke(why) => Broke(why)
    {
      var v := Value(h, params[i], args, vars);
      match v {
        case Broke(why) => return Broke(why);
        case Got(v) =>
          assert params[i..][1..] == params[i + 1..];
          assert forall rest: seq<string> :: vs + ([v] + rest) == (vs + [v]) + rest;
          vs := vs + [v];
      }
      i := i + 1;
    }
    r := Got(vs);
    assert vs + [] == vs;
  }

  method JoinedValue(h: Host, parts: seq<Arg>, args: seq<string>, vars: Vars) returns (r: Val<string>)
    ensures r == JoinValues(h, parts, args, vars)
    decreases parts
  {
    var result := "";
    var i := 0;
    assert forall rest: string :: result + rest == rest;
    while i < |parts|
      invariant 0 <= i <= |parts|
      invariant JoinValues(h, parts, args, vars) ==
                match JoinValues(h, parts[i..], args, vars)
                case Got(rest) => Got(result + rest)
                case Broke(why) => Broke(why)
    {
      var v := Value(h, parts[i], args, vars);
      match v {
        case Broke(why) => return Broke(why);
        case Got(v) =>
          assert parts[i..][1..] == parts[i + 1..];
          assert forall rest: string :: result + (v + rest) == (result + v) + rest;
          result := result + v;
      }
      i := i + 1;
    }
    r := Got(result);
    assert result + "" == result;
  }

  method GetCommand(e: Exec, args: seq<string>, ctx: Context) returns (r: Val<Command>)
    requires Proper(ctx)
    ensures r == Prepare(ctx.machine.host, e, args, ScopeOf(ctx), StateOf(ctx))
  {
    var h := ctx.machine.host;
    if e.args == [] {
      return Broke(NoCommand);
    }
    var argv := Values(h, e.args, args, ctx.vars.m);
    match argv
    case Broke(why) => r := Broke(why);
    case Got(vs) =>
      var name, rest := vs[0], vs[1..];
      var dir := h.getenv("PWD");
      if ctx.inDir != "" {
        var found := h.lookPath(ctx.machine.trace, h.joinPath(ctx.inDir, name));
        if found.Some? {
          name := found.value;
        }
        dir := ctx.inDir;
      }
      var env := h.environ;
      for i := 0 to ctx.env.len
        invariant env == h.environ + Elements(ctx.env)[..i]
      {
        env := env + [ctx.env.store[i]];
      }
      assert Elements(ctx.env)[..ctx.env.len] == Elements(ctx.env);
      r := Got(Command([name] + rest, dir, env, ctx.cred));
  }

  method ProcessCmdOutput(ctx: Context)
    modifies ctx.machine`warnings
    ensures WorldOf(ctx) == Reported(old(WorldOf(ctx)), true)
  {
    assert [ctx.stderr.content][1..] == [];
    assert Striplines.Concat([ctx.stderr.content]) == ctx.stderr.content;
    var _, hasContent := Striplines.Strip([ctx.stderr.content]);
    if hasContent {
      ctx.machine.warnings := ctx.machine.warnings + 1;
    }
  }

  method RunAlone(typ: ExecType, cmd: Command, report: bool, ctx: Context) returns (out: Outcome)
    requires Proper(ctx)
    modifies ctx.stdout, ctx.stderr, ctx.machine
    ensures Res(out, StateOf(ctx)) == RunCommand(ctx.machine.host, typ, cmd, report, old(StateOf(ctx)))
  {
    var h := ctx.machine.host;
    ctx.stdout.Reset();
    ctx.stderr.Reset();
    if !h.starts(ctx.machine.trace, cmd) {
      return Panicked(NotStarted);
    }
    var x := h.runs(ctx.machine.trace, cmd);
    ctx.stdout.Write(Flatten(x.out));
    ctx.stderr.Write(Flatten(x.err));
    assert ctx.stdout.content == Flatten(x.out) && ctx.stderr.content == Flatten(x.err);
    ctx.machine.trace := ctx.machine.trace + [Event(typ, cmd, Single, Flatten(x.out))];
    if report {
      ProcessCmdOutput(ctx);
    }
    ctx.machine.IncrementExecCounter(typ);
    out := Returned(x.ok);
  }

  method EvalExec(e: Exec, args: seq<string>, ctx: Context) returns (out: Outcome)
    requires Proper(ctx)
    modifies ctx.stdout, ctx.stderr, ctx.machine
    ensures Res(out, StateOf(ctx)) == RunStep(ctx.machine.host, e, args, ScopeOf(ctx), old(StateOf(ctx)))
  {
    var c := GetCommand(e, args, ctx);
    if c.Broke? {
      return Panicked(c.why);
    }
    out := RunAlone(e.typ, c.value, ctx.verbose || e.typ == ExecChange, ctx);
  }

  /** The commands of a pipe, and whether one of them is a (change). */
  method GetCommands(es: seq<Exec>, args: seq<string>, ctx: Context) returns (r: Val<seq<Command>>, hasChange: bool)
    requires Proper(ctx)
    ensures r == PrepareAll(ctx.machine.host, es, args, ScopeOf(ctx), StateOf(ctx))
    ensures r.Got? ==> (hasChange <==> HasChange(es))
  {
    var h := ctx.machine.host;
    var commands: seq<Command> := [];
    hasChange := false;
    var i := 0;
    assert forall rest: seq<Command> :: commands + rest == rest;
    while i < |es|
      invariant 0 <= i <= |es|
      invariant hasChange <==> exists j :: 0 <= j < i && es[j].typ == ExecChange
      invariant PrepareAll(h, es, args, ScopeOf(ctx), StateOf(ctx)) ==
                match PrepareAll(h, es[i..], args, ScopeOf(ctx), StateOf(ctx))
                case Got(rest) => Got(commands + rest)
                case Broke(why) => Broke(why)
    {
      var c := GetCommand(es[i], args, ctx);
      if c.Broke? {
        return Broke(c.why), hasChange;
      }
      assert es[i..][1..] == es[i + 1..];
      assert forall rest: seq<Command> :: commands + ([c.value] + rest) == (commands + [c.value]) + rest;
      commands := commands + [c.value];
      if es[i].typ == ExecChange {
        hasChange := true;
      }
      i := i + 1;
    }
    assert commands + [] == commands;
    r := Got(commands);
  }

  method StartFeeders(es: seq<Exec>, commands: seq<Command>, ctx: Context) returns (ok: bool)
    requires Proper(ctx) && |commands| == |es| > 0
    modifies ctx.machine
    ensures Feed(ctx.machine.host, es, commands, old(WorldOf(ctx))) == Fed(ok, WorldOf(ctx))
  {
    var h := ctx.machine.host;
    var i := 0;
    while i < |commands| - 1
      invariant 0 <= i <= |commands| - 1
      invariant Feed(h, es, commands, old(WorldOf(ctx))) == Feed(h, es[i..], commands[i..], WorldOf(ctx))
    {
      if !h.starts(ctx.machine.trace, commands[i]) {
        return false;
      }
      ctx.machine.trace := ctx.machine.trace + [Event(es[i].typ, commands[i], Feeder, "")];
      ctx.machine.IncrementExecCounter(es[i].typ);
      assert es[i..][1..] == es[i + 1..] && commands[i..][1..] == commands[i + 1..];
      i := i + 1;
    }
    ok := true;
  }

  method RunLast(e: Exec, cmd: Command, report: bool, ctx: Context) returns (out: Outcome)
    requires Proper(ctx)
    modifies ctx.stdout, ctx.stderr, ctx.machine
    ensures Res(out, StateOf(ctx)) == EndPipe(ctx.machine.host, e, cmd, report, old(StateOf(ctx)))
  {
    var h := ctx.machine.host;
    ctx.stdout.Reset();
    ctx.stderr.Reset();
    var ok := false;
    if h.starts(ctx.machine.trace, cmd) {
      var x := h.runs(ctx.machine.trace, cmd);
      ctx.stdout.Write(x.out);
      ctx.stderr.Write(x.err);
      assert ctx.stdout.content == x.out && ctx.stderr.content == x.err;
      ctx.machine.trace := ctx.machine.trace + [Event(e.typ, cmd, Last, x.out)];
      ok := x.ok;
    } else {
      ctx.machine.misses := ctx.machine.misses + [|ctx.machine.trace|];
    }
    if report {
      ProcessCmdOutput(ctx);
    }
    out := Returned(ok);
  }

  method EvalPipe(es: seq<Exec>, args: seq<string>, ctx: Context) returns (out: Outcome)
    requires Proper(ctx)
    modifies ctx.stdout, ctx.stderr, ctx.machine
    ensures Res(out, StateOf(ctx)) == PipeStep(ctx.machine.host, es, args, ScopeOf(ctx), old(StateOf(ctx)))
  {
    var h := ctx.machine.host;
    var prepared, hasChange := GetCommands(es, args, ctx);
    if prepared.Broke? {
      return Panicked(prepared.why);
    }
    var commands := prepared.value;
    if |commands| == 0 {
      return Panicked(EmptyPipe);  // slice bounds out of range
    }
    var started := StartFeeders(es, commands, ctx);
    if !started {
      return Panicked(NotStarted);
    }
    out := RunLast(es[|es| - 1], commands[|commands| - 1], ctx.verbose || hasChange, ctx);
  }

  /** Evaluate a promise. Whatever is shared on the way, the outcome, the variables, the
      buffers, the counters and the commands run are those of the semantics, and the
      environment of the context is left as it was. */
  method Evaluate(p: Promise, args: seq<string>, ctx: Context) returns (out: Outcome)
    requires Proper(ctx)
    modifies ctx.vars, ctx.stdout, ctx.stderr, ctx.machine, ctx.env.store
    ensures Res(out, StateOf(ctx)) == Eval(ctx.machine.host, p, args, old(ScopeOf(ctx)), old(StateOf(ctx)))
    ensures ScopeOf(ctx) == old(ScopeOf(ctx))
    decreases ctx.depth, p, 1
  {
    match p
    case Named(_, body, params) => out := EvaluateNamed(body, params, args, ctx);
    case And(ps) => out := EvaluateAnd(ps, args, ctx);
    case Or(ps) => out := EvaluateOr(ps, args, ctx);
    case Not(q) =>
      out := Evaluate(q, args, ctx);
      if out.Returned? {
        out := Returned(!out.ok);
      }
    case True(q) => out := EvaluateForced(q, true, args, ctx);
    case False(q) => out := EvaluateForced(q, false, args, ctx);
    case ReadVar(variable, source) => out := EvaluateReadVar(variable, source, args, ctx);
    case InDir(_, _) => out := EvaluateScoped(p, args, ctx);
    case SetEnv(_, _, _) => out := EvaluateScoped(p, args, ctx);
    case AsUser(_, _) => out := EvaluateScoped(p, args, ctx);
    case EvalFile(_, _) => out := EvaluateFile(p, args, ctx);
    case _ => out := EvaluateLeaf(p, args, ctx);
  }

  /** The promises that change the context for their child. */
  method EvaluateScoped(p: Promise, args: seq<string>, ctx: Context) returns (out: Outcome)
    requires Proper(ctx) && (p.InDir? || p.SetEnv? || p.AsUser?)
    modifies ctx.vars, ctx.stdout, ctx.stderr, ctx.machine, ctx.env.store
    ensures Res(out, StateOf(ctx)) == Eval(ctx.machine.host, p, args, old(ScopeOf(ctx)), old(StateOf(ctx)))
    ensures ScopeOf(ctx) == old(ScopeOf(ctx))
    decreases ctx.depth, p, 0
  {
    match p
    case InDir(dir, q) => out := EvaluateInDir(dir, q, args, ctx);
    case SetEnv(variable, value, q) => out := EvaluateSetEnv(variable, value, q, args, ctx);
    case AsUser(user, q) => out := EvaluateAsUser(user, q, args, ctx);
  }

  /** The promises that contain no others. */
  method EvaluateLeaf(p: Promise, args: seq<string>, ctx: Context) returns (out: Outcome)
    requires Proper(ctx) && (p.Run? || p.Pipe? || p.SetVar? || p.Log? || p.Foreign?)
    modifies ctx.vars, ctx.stdout, ctx.stderr, ctx.machine
    ensures Res(out, StateOf(ctx)) == Eval(ctx.machine.host, p, args, ScopeOf(ctx), old(StateOf(ctx)))
  {
    match p
    case Run(e) => out := EvalExec(e, args, ctx);
    case Pipe(es) => out := EvalPipe(es, args, ctx);
    case SetVar(variable, value) => out := EvalSetVar(variable, value, args, ctx);
    case Log(typ, params) => out := EvalLog(typ, params, args, ctx);
    case Foreign(kind, params) => out := EvalForeign(kind, params, args, ctx);
  }

  /** (true) and (false). */
  method EvaluateForced(q: Promise, ok: bool, args: seq<string>, ctx: Context) returns (out: Outcome)
    requires Proper(ctx)
    modifies ctx.vars, ctx.stdout, ctx.stderr, ctx.machine, ctx.env.store
    ensures Res(out, StateOf(ctx)) == Forced(Eval(ctx.machine.host, q, args, old(ScopeOf(ctx)), old(StateOf(ctx))), ok)
    ensures ScopeOf(ctx) == old(ScopeOf(ctx))
    decreases ctx.depth, q, 2
  {
    out := Evaluate(q, args, ctx);
    if out.Returned? {
      out := Returned(ok);
    }
  }

  method EvaluateReadVar(variable: Arg, source: Promise, args: seq<string>, ctx: Context) returns (out: Outcome)
    requires Proper(ctx)
    modifies ctx.vars, ctx.stdout, ctx.stderr, ctx.machine, ctx.env.store
    ensures Res(out, StateOf(ctx)) ==
            ReadVarStep(ctx.machine.host, variable, args,
                        Eval(ctx.machine.host, source, args, old(ScopeOf(ctx)), old(StateOf(ctx))))
    ensures ScopeOf(ctx) == old(ScopeOf(ctx))
    decreases ctx.depth, source, 2
  {
    out := Evaluate(source, args, ctx);
    if out.Returned? {
      out := EvalReadVar(variable, args, out.ok, ctx);
    }
  }

  method EvaluateAnd(ps: seq<Promise>, args: seq<string>, ctx: Context) returns (out: Outcome)
    requires Proper(ctx)
    modifies ctx.vars, ctx.stdout, ctx.stderr, ctx.machine, ctx.env.store
    ensures Res(out, StateOf(ctx)) == EvalAnd(ctx.machine.host, ps, args, old(ScopeOf(ctx)), old(StateOf(ctx)))
    ensures ScopeOf(ctx) == old(ScopeOf(ctx))
    decreases ctx.depth, ps, 1
  {
    ghost var h, sc := ctx.machine.host, ScopeOf(ctx);
    var i := 0;
    while i < |ps|
      invariant 0 <= i <= |ps|
      invariant ScopeOf(ctx) == sc
      invariant EvalAnd(h, ps, args, sc, old(StateOf(ctx))) == EvalAnd(h, ps[i..], args, sc, StateOf(ctx))
    {
      out := Evaluate(ps[i], args, ctx);
      if out != Returned(true) {
        return;
      }
      assert ps[i..][1..] == ps[i + 1..];
      i := i + 1;
    }
    out := Returned(true);
  }

  method EvaluateOr(ps: seq<Promise>, args: seq<string>, ctx: Context) returns (out: Outcome)
    requires Proper(ctx)
    modifies ctx.vars, ctx.stdout, ctx.stderr, ctx.machine, ctx.env.store
    ensures Res(out, StateOf(ctx)) == EvalOr(ctx.machine.host, ps, args, old(ScopeOf(ctx)), old(StateOf(ctx)))
    ensures ScopeOf(ctx) == old(ScopeOf(ctx))
    decreases ctx.depth, ps, 1
  {
    ghost var h, sc := ctx.machine.host, ScopeOf(ctx);
    var i := 0;
    while i < |ps|
      invariant 0 <= i <= |ps|
      invariant ScopeOf(ctx) == sc
      invariant EvalOr(h, ps, args, sc, old(StateOf(ctx))) == EvalOr(h, ps[i..], args, sc, StateOf(ctx))
    {
      out := Evaluate(ps[i], args, ctx);
      if out != Returned(false) {
        return;
      }
      assert ps[i..][1..] == ps[i + 1..];
      i := i + 1;
    }
    out := Returned(false);
  }

  /** The variables, copied key by key. */
  method CopyVars(vars: Variables) returns (copied: Variables)
    ensures fresh(copied) && copied.m == vars.m
  {
    copied := new Variables();
    var keys := vars.m.Keys;
    while keys != {}
      modifies copied
      invariant keys <= vars.m.Keys && copied.m.Keys == vars.m.Keys - keys
      invariant forall k :: k in copied.m ==> copied.m[k] == vars.m[k]
      decreases keys
    {
      var k :| k in keys;
      copied.m := copied.m[k := vars.m[k]];
      keys := keys - {k};
    }
  }

  /** A call: arguments by value, and variables in a map of its own. */
  method EvaluateNamed(body: Promise, params: seq<Arg>, args: seq<string>, ctx: Context) returns (out: Outcome)
    requires Proper(ctx)
    modifies ctx.stdout, ctx.stderr, ctx.machine, ctx.env.store
    ensures Res(out, StateOf(ctx)) ==
            Eval(ctx.machine.host, Named("", body, params), args, old(ScopeOf(ctx)), old(StateOf(ctx)))
    ensures ScopeOf(ctx) == old(ScopeOf(ctx))
    decreases ctx.depth, body, 2
  {
    var vs := Values(ctx.machine.host, params, args, ctx.vars.m);
    if vs.Broke? {
      return Panicked(vs.why);
    }
    var copied := CopyVars(ctx.vars);
    var inner := ctx.(vars := copied);
    out := Evaluate(body, vs.value, inner);
  }

  /** What q does in a scope inside the one around it, if there is such a scope. */
  function Under(h: Host, sc: Val<Scope>, q: Promise, args: seq<string>, st: State): Res {
    match sc
    case Broke(why) => Res(Panicked(why), st)
    case Got(inner) => Eval(h, q, args, inner, st)
  }

  /** The context inside an (indir). */
  method EnterDir(dir: Arg, args: seq<string>, ctx: Context) returns (r: Val<Context>)
    requires Proper(ctx)
    ensures match InDirScope(ctx.machine.host, dir, args, ScopeOf(ctx), StateOf(ctx))
            case Broke(why) => r == Broke(why)
            case Got(sc) => r == Got(ctx.(inDir := sc.inDir))
  {
    var h := ctx.machine.host;
    var d := Value(h, dir, args, ctx.vars.m);
    if d.Broke? {
      return Broke(d.why);
    }
    var copied := ctx;
    if ctx.inDir != "" {
      if IsAbs(d.value) {
        copied := copied.(inDir := d.value);
      } else {
        copied := copied.(inDir := h.joinPath(ctx.inDir, d.value));
      }
    } else {
      copied := copied.(inDir := d.value);
    }
    if copied.inDir != "" {
      var clean := h.directory(ctx.machine.trace, copied.inDir, copied.cred);
      if clean == None {
        return Broke(BadDirectory);
      }
      copied := copied.(inDir := clean.value);
    }
    r := Got(copied);
  }

  method EvaluateInDir(dir: Arg, q: Promise, args: seq<string>, ctx: Context) returns (out: Outcome)
    requires Proper(ctx)
    modifies ctx.vars, ctx.stdout, ctx.stderr, ctx.machine, ctx.env.store
    ensures Res(out, StateOf(ctx)) ==
            Under(ctx.machine.host, InDirScope(ctx.machine.host, dir, args, old(ScopeOf(ctx)), old(StateOf(ctx))),
                  q, args, old(StateOf(ctx)))
    ensures ScopeOf(ctx) == old(ScopeOf(ctx))
    decreases ctx.depth, q, 2
  {
    ghost var sc := InDirScope(ctx.machine.host, dir, args, ScopeOf(ctx), StateOf(ctx));
    var copied := EnterDir(dir, args, ctx);
    if copied.Broke? {
      return Panicked(copied.why);
    }
    assert ScopeOf(copied.value) == sc.value && StateOf(copied.value) == StateOf(ctx);
    out := Evaluate(q, args, copied.value);
  }

  /** The context inside a (setenv). */
  method ExtendEnv(variable: Arg, value: Arg, args: seq<string>, ctx: Context) returns (r: Val<Context>)
    requires Proper(ctx)
    modifies ctx.env.store
    ensures Elements(ctx.env) == old(Elements(ctx.env))
    ensures match SetEnvScope(ctx.machine.host, variable, value, args, old(ScopeOf(ctx)), old(StateOf(ctx)))
            case Broke(why) => r == Broke(why)
            case Got(sc) =>
              r.Got? && r.value == ctx.(env := r.value.env) && Fits(r.value.env) &&
              Elements(r.value.env) == sc.env && ctx.env.len < r.value.env.len &&
              (r.value.env.store == ctx.env.store || fresh(r.value.env.store))
  {
    var h := ctx.machine.host;
    var name := Value(h, variable, args, ctx.vars.m);
    if name.Broke? {
      return Broke(name.why);
    }
    var val := Value(h, value, args, ctx.vars.m);
    if val.Broke? {
      return Broke(val.why);
    }
    var extended := Append(ctx.env, name.value + "=" + val.value);
    r := Got(ctx.(env := extended));
  }

  method EvaluateSetEnv(variable: Arg, value: Arg, q: Promise, args: seq<string>, ctx: Context) returns (out: Outcome)
    requires Proper(ctx)
    modifies ctx.vars, ctx.stdout, ctx.stderr, ctx.machine, ctx.env.store
    ensures Res(out, StateOf(ctx)) ==
            Under(ctx.machine.host,
                  SetEnvScope(ctx.machine.host, variable, value, args, old(ScopeOf(ctx)), old(StateOf(ctx))),
                  q, args, old(StateOf(ctx)))
    ensures ScopeOf(ctx) == old(ScopeOf(ctx))
    decreases ctx.depth, q, 2
  {
    ghost var before := Elements(ctx.env);
    ghost var sc := SetEnvScope(ctx.machine.host, variable, value, args, ScopeOf(ctx), StateOf(ctx));
    var copied := ExtendEnv(variable, value, args, ctx);
    if copied.Broke? {
      return Panicked(copied.why);
    }
    assert ScopeOf(copied.value) == sc.value && StateOf(copied.value) == StateOf(ctx);
    out := Evaluate(q, args, copied.value);
    // a promise inside may have reused the array, but only behind the end of this slice
    assert Elements(ctx.env) == before by {
      if copied.value.env.store == ctx.env.store {
        assert Elements(ctx.env) == Elements(copied.value.env)[..ctx.env.len];
      }
    }
  }

  /** The context inside an (asuser). */
  method Become(user: Arg, args: seq<string>, ctx: Context) returns (r: Val<Context>)
    requires Proper(ctx)
    ensures match AsUserScope(ctx.machine.host, user, args, ScopeOf(ctx), StateOf(ctx))
            case Broke(why) => r == Broke(why)
            case Got(sc) => r == Got(ctx.(cred := sc.cred))
  {
    var h := ctx.machine.host;
    var name := Value(h, user, args, ctx.vars.m);
    if name.Broke? {
      return Broke(name.why);
    }
    var cred := h.user(name.value);
    if cred == None {
      return Broke(UnknownUser);
    }
    r := Got(ctx.(cred := cred));
  }

  method EvaluateAsUser(user: Arg, q: Promise, args: seq<string>, ctx: Context) returns (out: Outcome)
    requires Proper(ctx)
    modifies ctx.vars, ctx.stdout, ctx.stderr, ctx.machine, ctx.env.store
    ensures Res(out, StateOf(ctx)) ==
            Under(ctx.machine.host, AsUserScope(ctx.machine.host, user, args, old(ScopeOf(ctx)), old(StateOf(ctx))),
                  q, args, old(StateOf(ctx)))
    ensures ScopeOf(ctx) == old(ScopeOf(ctx))
    decreases ctx.depth, q, 2
  {
    ghost var sc := AsUserScope(ctx.machine.host, user, args, ScopeOf(ctx), StateOf(ctx));
    var copied := Become(user, args, ctx);
    if copied.Broke? {
      return Panicked(copied.why);
    }
    assert ScopeOf(copied.value) == sc.value && StateOf(copied.value) == StateOf(ctx);
    out := Evaluate(q, args, copied.value);
  }

  method CompilePromise(name: string, dir: string, ctx: Context) returns (r: Val<Program>)
    ensures r == Load(ctx.machine.host, name, dir, StateOf(ctx))
  {
    var h, trace := ctx.machine.host, ctx.machine.trace;
    if name == "" || !h.hasFile(trace, dir) {
      return Broke(NotCompiled);
    }
    if "lib_dir" !in ctx.vars.m || !h.hasFile(trace, ctx.vars.m["lib_dir"]) {
      return Broke(NotCompiled);
    }
    var tree := h.table(trace, ctx.vars.m["lib_dir"], dir);
    if tree == None || !Compiles(Program(tree.value, name, dir)) {
      return Broke(NotCompiled);
    }
    r := Got(Program(tree.value, name, dir));
  }

  /** The program that an (eval) is about. */
  method OpenFile(root: Arg, path: Arg, args: seq<string>, ctx: Context) returns (r: Val<Program>)
    ensures r == Compiled(ctx.machine.host, root, path, args, StateOf(ctx))
  {
    var name := Value(ctx.machine.host, root, args, ctx.vars.m);
    if name.Broke? {
      return Broke(name.why);
    }
    var dir := Value(ctx.machine.host, path, args, ctx.vars.m);
    if dir.Broke? {
      return Broke(dir.why);
    }
    r := CompilePromise(name.value, dir.value, ctx);
  }

  /** An (eval) runs a promise of other files, without arguments and in their directory. */
  method EvaluateFile(p: Promise, args: seq<string>, ctx: Context) returns (out: Outcome)
    requires Proper(ctx) && p.EvalFile?
    modifies ctx.vars, ctx.stdout, ctx.stderr, ctx.machine, ctx.env.store
    ensures Res(out, StateOf(ctx)) == Eval(ctx.machine.host, p, args, old(ScopeOf(ctx)), old(StateOf(ctx)))
    ensures ScopeOf(ctx) == old(ScopeOf(ctx))
    decreases ctx.depth, p, 0
  {
    var program := OpenFile(p.root, p.path, args, ctx);
    if program.Broke? {
      return Panicked(program.why);
    }
    if ctx.depth == 0 {
      return Panicked(TooDeep);
    }
    var copied := ctx.(inDir := program.value.dir, depth := ctx.depth - 1);
    assert ScopeOf(copied) == EvalScope(program.value, ScopeOf(ctx));
    out := Evaluate(RootOf(program.value), [], copied);
  }

  method StoreVar(name: string, value: string, result: bool, ctx: Context) returns (out: Outcome)
    modifies ctx.vars
    ensures Res(out, StateOf(ctx)) == Store(old(StateOf(ctx)), name, value, result)
  {
    var val := TrimSpace(value);
    if name in ctx.vars.m && ctx.vars.m[name] != val {
      return Panicked(AlreadyDefined(name));
    }
    ctx.vars.m := ctx.vars.m[name := val];
    out := Returned(result);
  }

  method EvalSetVar(variable: Arg, value: Arg, args: seq<string>, ctx: Context) returns (out: Outcome)
    modifies ctx.vars
    ensures Res(out, StateOf(ctx)) == SetVarStep(ctx.machine.host, variable, value, args, old(StateOf(ctx)))
  {
    var name := Value(ctx.machine.host, variable, args, ctx.vars.m);
    if name.Broke? {
      return Panicked(name.why);
    }
    var val := Value(ctx.machine.host, value, args, ctx.vars.m);
    if val.Broke? {
      return Panicked(val.why);
    }
    out := StoreVar(name.value, val.value, true, ctx);
  }

  method EvalReadVar(variable: Arg, args: seq<string>, result: bool, ctx: Context) returns (out: Outcome)
    modifies ctx.vars
    ensures Res(out, StateOf(ctx)) ==
            ReadVarStep(ctx.machine.host, variable, args, Res(Returned(result), old(StateOf(ctx))))
  {
    var name := Value(ctx.machine.host, variable, args, ctx.vars.m);
    if name.Broke? {
      return Panicked(name.why);
    }
    out := StoreVar(name.value, ctx.stdout.content, result, ctx);
  }

  method EvalLog(typ: LogType, params: seq<Arg>, args: seq<string>, ctx: Context) returns (out: Outcome)
    modifies ctx.machine
    ensures Res(out, StateOf(ctx)) == LogStep(ctx.machine.host, typ, params, args, old(StateOf(ctx)))
  {
    if params == [] {
      return Panicked(NoFormat);
    }
    var vs := Values(ctx.machine.host, params, args, map[]);
    if vs.Broke? {
      return Panicked(vs.why);
    }
    match typ {
      case Info =>
      case Warning => ctx.machine.warnings := ctx.machine.warnings + 1;
      case Error => ctx.machine.errors := ctx.machine.errors + 1;
    }
    out := Returned(true);
  }

  method EvalForeign(kind: ForeignKind, params: seq<Arg>, args: seq<string>, ctx: Context) returns (out: Outcome)
    ensures Res(out, StateOf(ctx)) == ForeignStep(ctx.machine.host, kind, params, args, StateOf(ctx))
  {
    var vs := Values(ctx.machine.host, params, args, ctx.vars.m);
    if vs.Broke? {
      return Panicked(vs.why);
    }
    var r := ctx.machine.host.foreign(ctx.machine.trace, kind, vs.value, ctx.vars.m);
    out := if r == None then Panicked(ForeignFailure) else Returned(r.value);
  }
}
