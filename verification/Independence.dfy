/**
 What evaluation does not depend on: the counters are only added to, never read, and the
 bound on nested (eval)s does not matter unless it is reached.
 */
module Independence {
  import opened Syntax
  import opened Promises
  import opened Semantics

  /** Commands look at the variables and at what has been run, and at nothing else of a state. */
  lemma {:induction false} SameCommands(h: Host, es: seq<Exec>, args: seq<string>, a: Scope, st: State, b: Scope,
                                        ts: State)
    requires b == a.(depth := b.depth) && ts.vars == st.vars && ts.world.trace == st.world.trace
    ensures PrepareAll(h, es, args, b, ts) == PrepareAll(h, es, args, a, st)
    decreases |es|
  {
    if es != [] {
      assert Prepare(h, es[0], args, b, ts) == Prepare(h, es[0], args, a, st);
      SameCommands(h, es[1..], args, a, st, b, ts);
    }
  }

  /** The four counters of the log. */
  datatype Numbers = Numbers(changes: nat, tests: nat, errors: nat, warnings: nat)

  function Plus(w: World, n: Numbers): World {
    w.(changes := w.changes + n.changes, tests := w.tests + n.tests, errors := w.errors + n.errors,
       warnings := w.warnings + n.warnings)
  }

  function Ahead(st: State, n: Numbers): State {
    st.(world := Plus(st.world, n))
  }

  function AheadRes(r: Res, n: Numbers): Res {
    r.(st := Ahead(r.st, n))
  }

  lemma RunAhead(h: Host, e: Exec, args: seq<string>, sc: Scope, st: State, n: Numbers)
    ensures RunStep(h, e, args, sc, Ahead(st, n)) == AheadRes(RunStep(h, e, args, sc, st), n)
  {
    assert Prepare(h, e, args, sc, Ahead(st, n)) == Prepare(h, e, args, sc, st);
  }

  lemma {:induction false} FeedAhead(h: Host, es: seq<Exec>, cmds: seq<Command>, w: World, n: Numbers)
    requires |es| == |cmds|
    ensures var fed := Feed(h, es, cmds, w); Feed(h, es, cmds, Plus(w, n)) == Fed(fed.ok, Plus(fed.world, n))
    decreases |cmds|
  {
    if |cmds| > 1 && h.starts(w.trace, cmds[0]) {
      var ev := Event(es[0].typ, cmds[0], Feeder, "");
      var w' := Counted(w.(trace := w.trace + [ev]), es[0].typ);
      FeedAhead(h, es[1..], cmds[1..], w', n);
      assert Counted(Plus(w, n).(trace := w.trace + [ev]), es[0].typ) == Plus(w', n);
    }
  }

  lemma PipeAhead(h: Host, es: seq<Exec>, args: seq<string>, sc: Scope, st: State, n: Numbers)
    ensures PipeStep(h, es, args, sc, Ahead(st, n)) == AheadRes(PipeStep(h, es, args, sc, st), n)
  {
    SameCommands(h, es, args, sc, st, sc, Ahead(st, n));
    var cmds := PrepareAll(h, es, args, sc, st);
    if cmds.Got? && es != [] {
      FeedAhead(h, es, cmds.value, st.world, n);
      var fed := Feed(h, es, cmds.value, st.world);
      if fed.ok {
        EndAhead(h, es[|es| - 1], cmds.value[|es| - 1], sc.verbose || HasChange(es), st.(world := fed.world), n);
      }
    }
  }

  lemma EndAhead(h: Host, e: Exec, cmd: Command, report: bool, st: State, n: Numbers)
    ensures EndPipe(h, e, cmd, report, Ahead(st, n)) == AheadRes(EndPipe(h, e, cmd, report, st), n)
  {
  }

  lemma ReadVarAhead(h: Host, variable: Arg, args: seq<string>, r: Res, n: Numbers)
    ensures ReadVarStep(h, variable, args, AheadRes(r, n)) == AheadRes(ReadVarStep(h, variable, args, r), n)
  {
  }

  lemma LeafAhead(h: Host, p: Promise, args: seq<string>, sc: Scope, st: State, n: Numbers)
    requires p.SetVar? || p.Log? || p.Foreign?
    ensures Eval(h, p, args, sc, Ahead(st, n)) == AheadRes(Eval(h, p, args, sc, st), n)
  {
  }

  /** Started with counters that are ahead, an evaluation does the same and ends with counters
      that are ahead by as much. */
  lemma {:induction false} EvalAhead(h: Host, p: Promise, args: seq<string>, sc: Scope, st: State, n: Numbers)
    ensures Eval(h, p, args, sc, Ahead(st, n)) == AheadRes(Eval(h, p, args, sc, st), n)
    decreases sc.depth, p
  {
    match p
    case Named(_, body, params) =>
      var vs := GetValues(h, params, args, st.vars);
      if vs.Got? {
        EvalAhead(h, body, vs.value, sc, st, n);
      }
    case And(ps) => AndAhead(h, ps, args, sc, st, n);
    case Or(ps) => OrAhead(h, ps, args, sc, st, n);
    case Not(q) => EvalAhead(h, q, args, sc, st, n);
    case True(q) => EvalAhead(h, q, args, sc, st, n);
    case False(q) => EvalAhead(h, q, args, sc, st, n);
    case ReadVar(variable, source) =>
      EvalAhead(h, source, args, sc, st, n);
      ReadVarAhead(h, variable, args, Eval(h, source, args, sc, st), n);
    case Run(e) => RunAhead(h, e, args, sc, st, n);
    case Pipe(es) => PipeAhead(h, es, args, sc, st, n);
    case InDir(_, _) => ScopedAhead(h, p, args, sc, st, n);
    case SetEnv(_, _, _) => ScopedAhead(h, p, args, sc, st, n);
    case AsUser(_, _) => ScopedAhead(h, p, args, sc, st, n);
    case EvalFile(_, _) => FileAhead(h, p, args, sc, st, n);
    case _ => LeafAhead(h, p, args, sc, st, n);
  }

  lemma {:induction false} ScopedAhead(h: Host, p: Promise, args: seq<string>, sc: Scope, st: State, n: Numbers)
    requires p.InDir? || p.SetEnv? || p.AsUser?
    ensures Eval(h, p, args, sc, Ahead(st, n)) == AheadRes(Eval(h, p, args, sc, st), n)
    decreases sc.depth, p, 0
  {
    var s := match p
      case InDir(dir, _) => InDirScope(h, dir, args, sc, st)
      case SetEnv(variable, value, _) => SetEnvScope(h, variable, value, args, sc, st)
      case AsUser(user, _) => AsUserScope(h, user, args, sc, st);
    if s.Got? {
      EvalAhead(h, p.child, args, s.value, st, n);
    }
  }

  lemma {:induction false} FileAhead(h: Host, p: Promise, args: seq<string>, sc: Scope, st: State, n: Numbers)
    requires p.EvalFile?
    ensures Eval(h, p, args, sc, Ahead(st, n)) == AheadRes(Eval(h, p, args, sc, st), n)
    decreases sc.depth, p, 0
  {
    var program := Compiled(h, p.root, p.path, args, st);
    assert Compiled(h, p.root, p.path, args, Ahead(st, n)) == program;
    if program.Got? && sc.depth > 0 {
      EvalAhead(h, RootOf(program.value), [], EvalScope(program.value, sc), st, n);
    }
  }

  lemma {:induction false} AndAhead(h: Host, ps: seq<Promise>, args: seq<string>, sc: Scope, st: State, n: Numbers)
    ensures EvalAnd(h, ps, args, sc, Ahead(st, n)) == AheadRes(EvalAnd(h, ps, args, sc, st), n)
    decreases sc.depth, ps
  {
    if ps != [] {
      EvalAhead(h, ps[0], args, sc, st, n);
      AndAhead(h, ps[1..], args, sc, Eval(h, ps[0], args, sc, st).st, n);
    }
  }

  lemma {:induction false} OrAhead(h: Host, ps: seq<Promise>, args: seq<string>, sc: Scope, st: State, n: Numbers)
    ensures EvalOr(h, ps, args, sc, Ahead(st, n)) == AheadRes(EvalOr(h, ps, args, sc, st), n)
    decreases sc.depth, ps
  {
    if ps != [] {
      EvalAhead(h, ps[0], args, sc, st, n);
      OrAhead(h, ps[1..], args, sc, Eval(h, ps[0], args, sc, st).st, n);
    }
  }

  /** The scope sc with a larger bound. */
  function Deeper(sc: Scope, d: nat): Scope {
    sc.(depth := d)
  }

  lemma LeafDeeper(h: Host, p: Promise, args: seq<string>, sc: Scope, st: State, d: nat)
    requires p.Run? || p.Pipe? || p.SetVar? || p.Log? || p.Foreign?
    ensures Eval(h, p, args, Deeper(sc, d), st) == Eval(h, p, args, sc, st)
  {
    match p
    case Run(e) => assert Prepare(h, e, args, Deeper(sc, d), st) == Prepare(h, e, args, sc, st);
    case Pipe(es) => SameCommands(h, es, args, sc, st, Deeper(sc, d), st);
    case _ =>
  }

  /** An evaluation that does not nest (eval)s too deep is the same under every larger bound. */
  lemma {:induction false} EvalDeeper(h: Host, p: Promise, args: seq<string>, sc: Scope, st: State, d: nat)
    requires sc.depth <= d && Eval(h, p, args, sc, st).out != Panicked(TooDeep)
    ensures Eval(h, p, args, Deeper(sc, d), st) == Eval(h, p, args, sc, st)
    decreases sc.depth, p
  {
    match p
    case Named(_, body, params) =>
      var vs := GetValues(h, params, args, st.vars);
      if vs.Got? {
        EvalDeeper(h, body, vs.value, sc, st, d);
      }
    case And(ps) => AndDeeper(h, ps, args, sc, st, d);
    case Or(ps) => OrDeeper(h, ps, args, sc, st, d);
    case Not(q) => EvalDeeper(h, q, args, sc, st, d);
    case True(q) => EvalDeeper(h, q, args, sc, st, d);
    case False(q) => EvalDeeper(h, q, args, sc, st, d);
    case ReadVar(_, source) => EvalDeeper(h, source, args, sc, st, d);
    case InDir(_, _) => ScopedDeeper(h, p, args, sc, st, d);
    case SetEnv(_, _, _) => ScopedDeeper(h, p, args, sc, st, d);
    case AsUser(_, _) => ScopedDeeper(h, p, args, sc, st, d);
    case EvalFile(_, _) => FileDeeper(h, p, args, sc, st, d);
    case _ => LeafDeeper(h, p, args, sc, st, d);
  }

  lemma {:induction false} ScopedDeeper(h: Host, p: Promise, args: seq<string>, sc: Scope, st: State, d: nat)
    requires p.InDir? || p.SetEnv? || p.AsUser?
    requires sc.depth <= d && Eval(h, p, args, sc, st).out != Panicked(TooDeep)
    ensures Eval(h, p, args, Deeper(sc, d), st) == Eval(h, p, args, sc, st)
    decreases sc.depth, p, 0
  {
    var s := match p
      case InDir(dir, _) => InDirScope(h, dir, args, sc, st)
      case SetEnv(variable, value, _) => SetEnvScope(h, variable, value, args, sc, st)
      case AsUser(user, _) => AsUserScope(h, user, args, sc, st);
    if s.Got? {
      EvalDeeper(h, p.child, args, s.value, st, d);
    }
  }

  lemma {:induction false} FileDeeper(h: Host, p: Promise, args: seq<string>, sc: Scope, st: State, d: nat)
    requires p.EvalFile? && sc.depth <= d && Eval(h, p, args, sc, st).out != Panicked(TooDeep)
    ensures Eval(h, p, args, Deeper(sc, d), st) == Eval(h, p, args, sc, st)
    decreases sc.depth, p, 0
  {
    var program := Compiled(h, p.root, p.path, args, st);
    if program.Got? {
      EvalDeeper(h, RootOf(program.value), [], EvalScope(program.value, sc), st, d - 1);
    }
  }

  lemma {:induction false} AndDeeper(h: Host, ps: seq<Promise>, args: seq<string>, sc: Scope, st: State, d: nat)
    requires sc.depth <= d && EvalAnd(h, ps, args, sc, st).out != Panicked(TooDeep)
    ensures EvalAnd(h, ps, args, Deeper(sc, d), st) == EvalAnd(h, ps, args, sc, st)
    decreases sc.depth, ps
  {
    if ps != [] {
      EvalDeeper(h, ps[0], args, sc, st, d);
      var r := Eval(h, ps[0], args, sc, st);
      if r.out == Returned(true) {
        AndDeeper(h, ps[1..], args, sc, r.st, d);
      }
    }
  }

  lemma {:induction false} OrDeeper(h: Host, ps: seq<Promise>, args: seq<string>, sc: Scope, st: State, d: nat)
    requires sc.depth <= d && EvalOr(h, ps, args, sc, st).out != Panicked(TooDeep)
    ensures EvalOr(h, ps, args, Deeper(sc, d), st) == EvalOr(h, ps, args, sc, st)
    decreases sc.depth, ps
  {
    if ps != [] {
      EvalDeeper(h, ps[0], args, sc, st, d);
      var r := Eval(h, ps[0], args, sc, st);
      if r.out == Returned(false) {
        OrDeeper(h, ps[1..], args, sc, r.st, d);
      }
    }
  }
}
