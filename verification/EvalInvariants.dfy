/** What every evaluation keeps, whether it returns or panics. */
module EvalInvariants {
  import opened Text
  import opened Syntax
  import opened Promises
  import opened Semantics
  import Commands

  /** Variables are write-once: what is bound stays bound to the same value. */
  predicate Grows(a: Vars, b: Vars) {
    forall k :: k in a ==> k in b && b[k] == a[k]
  }

  /** The commands of a type that count: the last command of a pipe does not. */
  function Counting(trace: seq<Event>, typ: ExecType): nat {
    if trace == [] then 0
    else
      var e := trace[|trace| - 1];
      Counting(trace[..|trace| - 1], typ) + if e.typ == typ && e.role != Last then 1 else 0
  }

  /** The counters are ahead of the trace by as much as before. */
  predicate SameLead(a: World, b: World) {
    b.changes - Counting(b.trace, ExecChange) == a.changes - Counting(a.trace, ExecChange) &&
    b.tests - Counting(b.trace, ExecTest) == a.tests - Counting(a.trace, ExecTest)
  }

  /** Commands and misses are only added, and a miss is dated by the commands run before it. */
  predicate Later(a: World, b: World) {
    a.trace <= b.trace && a.misses <= b.misses &&
    forall i :: |a.misses| <= i < |b.misses| ==> |a.trace| <= b.misses[i] <= |b.trace|
  }

  predicate Evolves(a: State, b: State) {
    Grows(a.vars, b.vars) && SameLead(a.world, b.world) && Later(a.world, b.world)
  }

  /** Since a, a pipe's last command did not start, and nothing has run behind it. */
  predicate Missed(a: World, b: World) {
    |b.misses| > |a.misses| && b.misses[|b.misses| - 1] == |b.trace|
  }

  /** What the output buffer holds at b if it was last looked at at a. */
  function Buffered(a: World, b: World): string {
    if Missed(a, b) then ""
    else if |b.trace| <= |a.trace| then a.stdout
    else b.trace[|b.trace| - 1].out
  }

  /** The output buffer is that of the most recent command; behind a pipe whose last command
      did not start it is empty. */
  predicate Settles(a: World, b: World) {
    b.stdout == Buffered(a, b) &&
    (|b.trace| > |a.trace| && b.trace[|b.trace| - 1].role == Feeder ==> Missed(a, b))
  }

  /** What a result r of evaluating from st keeps. */
  predicate Keeps(st: State, r: Res) {
    Evolves(st, r.st) && (r.out.Returned? ==> Settles(st.world, r.st.world))
  }

  lemma LaterOn(a: World, b: World, c: World)
    requires Later(a, b) && Later(b, c)
    ensures Later(a, c)
  {
    forall i | |a.misses| <= i < |c.misses| ensures |a.trace| <= c.misses[i] <= |c.trace| {
      if i < |b.misses| {
        assert c.misses[i] == b.misses[i];
      }
    }
  }

  lemma SettlesOn(a: World, b: World, c: World)
    requires Later(a, b) && Later(b, c) && Settles(a, b) && Settles(b, c)
    ensures Settles(a, c)
  {
    var m := |c.misses| - 1;
    if |c.trace| == |b.trace| {
      assert c.trace == b.trace;
      if |b.misses| < |c.misses| {
        assert c.misses[m] == |c.trace|;
      } else {
        assert c.misses == b.misses;
      }
    } else if |b.misses| < |c.misses| {
      assert Missed(a, c) <==> Missed(b, c);
    } else if |a.misses| < |b.misses| {
      assert c.misses == b.misses && b.misses[m] <= |b.trace|;
    }
  }

  lemma EvolvesOn(a: State, b: State, c: State)
    requires Evolves(a, b) && Evolves(b, c)
    ensures Evolves(a, c)
    ensures Settles(a.world, b.world) && Settles(b.world, c.world) ==> Settles(a.world, c.world)
  {
    LaterOn(a.world, b.world, c.world);
    if Settles(a.world, b.world) && Settles(b.world, c.world) {
      SettlesOn(a.world, b.world, c.world);
    }
  }

  lemma OneMore(trace: seq<Event>, e: Event, typ: ExecType)
    ensures Counting(trace + [e], typ) == Counting(trace, typ) + if e.typ == typ && e.role != Last then 1 else 0
  {
    assert (trace + [e])[..|trace|] == trace;
  }

  /** One command more, counted if it counts. */
  lemma OneEvent(a: State, b: State, ev: Event)
    requires b.vars == a.vars && b.world.trace == a.world.trace + [ev] && b.world.misses == a.world.misses
    requires b.world.changes == a.world.changes + (if ev.typ == ExecChange && ev.role != Last then 1 else 0)
    requires b.world.tests == a.world.tests + (if ev.typ == ExecTest && ev.role != Last then 1 else 0)
    ensures Evolves(a, b)
    ensures ev.role != Feeder && b.world.stdout == ev.out ==> Settles(a.world, b.world)
  {
    OneMore(a.world.trace, ev, ExecChange);
    OneMore(a.world.trace, ev, ExecTest);
  }

  lemma RunEvolves(h: Host, e: Exec, args: seq<string>, sc: Scope, st: State)
    ensures Keeps(st, RunStep(h, e, args, sc, st))
  {
    var c := Prepare(h, e, args, sc, st);
    if c.Got? && h.starts(st.world.trace, c.value) {
      var x := h.runs(st.world.trace, c.value);
      OneEvent(st, RunStep(h, e, args, sc, st).st, Event(e.typ, c.value, Single, Flatten(x.out)));
    }
  }

  lemma {:induction false} FeedEvolves(h: Host, es: seq<Exec>, cmds: seq<Command>, w: World, vars: Vars)
    requires |es| == |cmds|
    ensures Evolves(State(vars, w), State(vars, Feed(h, es, cmds, w).world))
    ensures Feed(h, es, cmds, w).world.misses == w.misses
    decreases |cmds|
  {
    if |cmds| > 1 && h.starts(w.trace, cmds[0]) {
      var ev := Event(es[0].typ, cmds[0], Feeder, "");
      var w' := Counted(w.(trace := w.trace + [ev]), es[0].typ);
      OneEvent(State(vars, w), State(vars, w'), ev);
      FeedEvolves(h, es[1..], cmds[1..], w', vars);
      EvolvesOn(State(vars, w), State(vars, w'), State(vars, Feed(h, es, cmds, w).world));
    }
  }

  /** Whatever a pipe has fed, its last command settles the buffer, by its output or by not starting. */
  lemma EndEvolves(h: Host, e: Exec, cmd: Command, report: bool, start: State, st: State)
    requires Evolves(start, st) && st.world.misses == start.world.misses
    ensures Keeps(start, EndPipe(h, e, cmd, report, st))
  {
    var r := EndPipe(h, e, cmd, report, st).st;
    var w := st.world;
    if h.starts(w.trace, cmd) {
      OneEvent(st, r, Event(e.typ, cmd, Last, h.runs(w.trace, cmd).out));
      EvolvesOn(start, st, r);
    } else {
      assert r.world.misses == start.world.misses + [|w.trace|];
    }
  }

  lemma PipeEvolves(h: Host, es: seq<Exec>, args: seq<string>, sc: Scope, st: State)
    ensures Keeps(st, PipeStep(h, es, args, sc, st))
  {
    var cmds := PrepareAll(h, es, args, sc, st);
    if cmds.Got? && es != [] {
      FeedEvolves(h, es, cmds.value, st.world, st.vars);
      var fed := Feed(h, es, cmds.value, st.world);
      if fed.ok {
        var last := |es| - 1;
        EndEvolves(h, es[last], cmds.value[last], sc.verbose || HasChange(es), st, st.(world := fed.world));
      }
    }
  }

  /** Binding a variable that is unbound, or bound to the same value, only adds. */
  lemma StoreGrows(st: State, name: string, value: string, ok: bool)
    ensures Grows(st.vars, Store(st, name, value, ok).st.vars) && Store(st, name, value, ok).st.world == st.world
  {
  }

  lemma StoreKeeps(st: State, r: Res, name: string, value: string, ok: bool)
    requires Keeps(st, r) && r.out.Returned?
    ensures Keeps(st, Store(r.st, name, value, ok))
  {
    StoreGrows(r.st, name, value, ok);
  }

  lemma StoreEvolves(st: State, name: string, value: string, ok: bool)
    ensures Keeps(st, Store(st, name, value, ok))
  {
    StoreKeeps(st, Res(Returned(ok), st), name, value, ok);
  }

  lemma SetVarEvolves(h: Host, variable: Arg, value: Arg, args: seq<string>, st: State)
    ensures Keeps(st, SetVarStep(h, variable, value, args, st))
  {
    var name, val := GetValue(h, variable, args, st.vars), GetValue(h, value, args, st.vars);
    if name.Got? && val.Got? {
      StoreEvolves(st, name.value, val.value, true);
    }
  }

  lemma LogEvolves(h: Host, typ: LogType, params: seq<Arg>, args: seq<string>, st: State)
    ensures Keeps(st, LogStep(h, typ, params, args, st))
  {
  }

  lemma ReadVarKeeps(h: Host, variable: Arg, args: seq<string>, st: State, r: Res)
    requires Keeps(st, r)
    ensures Keeps(st, ReadVarStep(h, variable, args, r))
  {
    if r.out.Returned? {
      var name := GetValue(h, variable, args, r.st.vars);
      if name.Got? {
        StoreKeeps(st, r, name.value, r.st.world.stdout, r.out.ok);
      }
    }
  }

  /** Whatever is evaluated, and even if it panics: variables are only added, and the counters
      move with the commands that count; and if it returns, the output buffer is that of the
      most recent command, or empty if that was the last one of a pipe and did not start. */
  lemma {:induction false} EvalEvolves(h: Host, p: Promise, args: seq<string>, sc: Scope, st: State)
    ensures Keeps(st, Eval(h, p, args, sc, st))
    decreases sc.depth, p
  {
    match p
    case Named(_, body, params) =>
      var vs := GetValues(h, params, args, st.vars);
      if vs.Got? {
        EvalEvolves(h, body, vs.value, sc, st);
      }
    case And(ps) => AndEvolves(h, ps, args, sc, st);
    case Or(ps) => OrEvolves(h, ps, args, sc, st);
    case Not(q) => EvalEvolves(h, q, args, sc, st);
    case True(q) => EvalEvolves(h, q, args, sc, st);
    case False(q) => EvalEvolves(h, q, args, sc, st);
    case ReadVar(variable, source) =>
      EvalEvolves(h, source, args, sc, st);
      ReadVarKeeps(h, variable, args, st, Eval(h, source, args, sc, st));
    case InDir(_, _) => ScopedEvolves(h, p, args, sc, st);
    case SetEnv(_, _, _) => ScopedEvolves(h, p, args, sc, st);
    case AsUser(_, _) => ScopedEvolves(h, p, args, sc, st);
    case EvalFile(_, _) => FileEvolves(h, p, args, sc, st);
    case Run(e) => RunEvolves(h, e, args, sc, st);
    case Pipe(es) => PipeEvolves(h, es, args, sc, st);
    case _ => SimpleEvolves(h, p, args, sc, st);
  }

  /** The promises that run no command. */
  lemma SimpleEvolves(h: Host, p: Promise, args: seq<string>, sc: Scope, st: State)
    requires p.SetVar? || p.Log? || p.Foreign?
    ensures Keeps(st, Eval(h, p, args, sc, st))
  {
    match p
    case SetVar(variable, value) => SetVarEvolves(h, variable, value, args, st);
    case Log(typ, params) => LogEvolves(h, typ, params, args, st);
    case Foreign(_, _) =>
  }

  lemma {:induction false} FileEvolves(h: Host, p: Promise, args: seq<string>, sc: Scope, st: State)
    requires p.EvalFile?
    ensures Keeps(st, Eval(h, p, args, sc, st))
    decreases sc.depth, p, 0
  {
    var program := Compiled(h, p.root, p.path, args, st);
    if program.Got? && sc.depth > 0 {
      EvalEvolves(h, RootOf(program.value), [], EvalScope(program.value, sc), st);
    }
  }

  lemma {:induction false} ScopedEvolves(h: Host, p: Promise, args: seq<string>, sc: Scope, st: State)
    requires p.InDir? || p.SetEnv? || p.AsUser?
    ensures Keeps(st, Eval(h, p, args, sc, st))
    decreases sc.depth, p, 0
  {
    var s := match p
      case InDir(dir, _) => InDirScope(h, dir, args, sc, st)
      case SetEnv(variable, value, _) => SetEnvScope(h, variable, value, args, sc, st)
      case AsUser(user, _) => AsUserScope(h, user, args, sc, st);
    if s.Got? {
      EvalEvolves(h, p.child, args, s.value, st);
    }
  }

  lemma {:induction false} AndEvolves(h: Host, ps: seq<Promise>, args: seq<string>, sc: Scope, st: State)
    ensures Keeps(st, EvalAnd(h, ps, args, sc, st))
    decreases sc.depth, ps
  {
    if ps != [] {
      var r := Eval(h, ps[0], args, sc, st);
      EvalEvolves(h, ps[0], args, sc, st);
      if r.out == Returned(true) {
        AndEvolves(h, ps[1..], args, sc, r.st);
        EvolvesOn(st, r.st, EvalAnd(h, ps[1..], args, sc, r.st).st);
      }
    }
  }

  lemma {:induction false} OrEvolves(h: Host, ps: seq<Promise>, args: seq<string>, sc: Scope, st: State)
    ensures Keeps(st, EvalOr(h, ps, args, sc, st))
    decreases sc.depth, ps
  {
    if ps != [] {
      var r := Eval(h, ps[0], args, sc, st);
      EvalEvolves(h, ps[0], args, sc, st);
      if r.out == Returned(false) {
        OrEvolves(h, ps[1..], args, sc, r.st);
        EvolvesOn(st, r.st, EvalOr(h, ps[1..], args, sc, r.st).st);
      }
    }
  }

  lemma WriteRefused(h: Host, args: seq<string>, sc: Scope, st: State, name: string, value: string)
    requires name in st.vars && st.vars[name] != value && TrimSpace(value) == value
    ensures Eval(h, SetVar(Constant(name), Constant(value)), args, sc, st) == Res(Panicked(AlreadyDefined(name)), st)
  {
  }

  /** A variable that a promise has bound keeps its value through everything that follows,
      so a later write of another value must panic and leave the state alone. */
  lemma NoOverwriting(h: Host, p: Promise, q: Promise, args: seq<string>, sc: Scope, st: State, name: string,
                      value: string)
    requires var bound := Eval(h, p, args, sc, st).st.vars;
             name in bound && value != bound[name] && TrimSpace(value) == value
    ensures var s := Eval(h, q, args, sc, Eval(h, p, args, sc, st).st).st;
            Eval(h, SetVar(Constant(name), Constant(value)), args, sc, s) == Res(Panicked(AlreadyDefined(name)), s)
  {
    var s := Eval(h, p, args, sc, st).st;
    var t := Eval(h, q, args, sc, s).st;
    EvalEvolves(h, q, args, sc, s);
    assert Grows(s.vars, t.vars);
    WriteRefused(h, args, sc, t, name, value);
  }

  /** A variable cannot be overwritten in a called promise either, although the call has a map
      of its own: a (setvar) in it succeeds exactly if the name is unbound in the caller or
      bound to the same value, and then the caller does not see it. */
  lemma NoLocalOverwriting(h: Host, f: string, name: string, value: string, args: seq<string>, sc: Scope, st: State)
    ensures var r := Eval(h, Named(f, SetVar(Constant(name), Constant(value)), []), args, sc, st);
            (r.out == Returned(true) <==> (name in st.vars ==> st.vars[name] == TrimSpace(value))) &&
            (r.out != Returned(true) <==> r.out == Panicked(AlreadyDefined(name))) && r.st == st
  {
    assert Eval(h, SetVar(Constant(name), Constant(value)), [], sc, st) == Store(st, name, value, true);
  }

  lemma Stored(st: State, name: string, value: string, ok: bool)
    requires Store(st, name, value, ok).out.Returned?
    ensures var t := Store(st, name, value, ok).st;
            t.world == st.world && name in t.vars && t.vars[name] == TrimSpace(value)
  {
  }

  /** What (readvar) binds, to the name that its argument gives once the promise under it has
      run, is the trimmed output of the most recent command, even where that promise has run
      none itself: then it is what the buffer held before. */
  lemma ReadsLastOutput(h: Host, source: Promise, variable: Arg, args: seq<string>, sc: Scope, st: State)
    requires Eval(h, ReadVar(variable, source), args, sc, st).out.Returned?
    ensures var name := GetValue(h, variable, args, Eval(h, source, args, sc, st).st.vars);
            var r := Eval(h, ReadVar(variable, source), args, sc, st).st;
            name.Got? && name.value in r.vars && r.vars[name.value] == TrimSpace(Buffered(st.world, r.world)) &&
            r.world.stdout == Buffered(st.world, r.world)
  {
    var r := Eval(h, source, args, sc, st);
    var name := GetValue(h, variable, args, r.st.vars);
    EvalEvolves(h, source, args, sc, st);
    assert Eval(h, ReadVar(variable, source), args, sc, st) == ReadVarStep(h, variable, args, r);
    Stored(r.st, name.value, r.st.world.stdout, r.out.ok);
  }

  /** The exception is real: where nothing starts, (readvar) of a pipe binds the empty string,
      whatever the output of the commands before, and no command is run. */
  lemma ReadsMissedPipe(h: Host, cmd: string, name: string, sc: Scope, st: State)
    requires name !in st.vars && forall trace: seq<Event>, c: Command :: !h.starts(trace, c)
    ensures var pipe := Pipe([Exec(ExecTest, [Constant(cmd)])]);
            var r := Eval(h, ReadVar(Constant(name), pipe), [], sc, st);
            r.out == Returned(false) && r.st.vars == st.vars[name := ""] && r.st.world.trace == st.world.trace &&
            Missed(st.world, r.st.world)
  {
    var e := Exec(ExecTest, [Constant(cmd)]);
    Commands.PipeOfNothing(h, cmd, sc, st);
    var r := PipeStep(h, [e], [], sc, st);
    assert Eval(h, Pipe([e]), [], sc, st) == r;
    assert Eval(h, ReadVar(Constant(name), Pipe([e])), [], sc, st) == Store(r.st, name, "", false);
  }

  function Nots(ps: seq<Promise>): seq<Promise> {
    if ps == [] then [] else [Not(ps[0])] + Nots(ps[1..])
  }

  /** De Morgan holds with all effects: the same commands run, in the same states. */
  lemma {:induction false} DeMorgan(h: Host, ps: seq<Promise>, args: seq<string>, sc: Scope, st: State)
    ensures Negated(EvalAnd(h, ps, args, sc, st)) == EvalOr(h, Nots(ps), args, sc, st)
    decreases ps
  {
    if ps != [] {
      assert Nots(ps)[1..] == Nots(ps[1..]);
      var r := Eval(h, ps[0], args, sc, st);
      assert Eval(h, Not(ps[0]), args, sc, st) == Negated(r);
      DeMorgan(h, ps[1..], args, sc, r.st);
    }
  }
}
