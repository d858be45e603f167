/**
 Where every command runs: for each command that an evaluation runs, the (setenv)s, (indir)s,
 (asuser)s and (eval)s around it, each entered in the scope that the one before it makes, give
 exactly the environment, the directory and the user of the command.
 */
module Environment {
  import opened Syntax
  import opened Promises
  import opened Semantics

  /** A promise that changes the scope for the one inside it. */
  datatype Frame =
    | SetEnvFrame(variable: Arg, value: Arg)
    | InDirFrame(dir: Arg)
    | AsUserFrame(user: Arg)
    | EvalFrame(root: Arg, path: Arg)

  /** Such a promise around a command: with what arguments and in what state it was entered, and
      the scope inside. */
  datatype Around = Around(frame: Frame, args: seq<string>, st: State, inner: Scope)

  /** A command that is run, and what is around it, outermost first. */
  datatype Site = Site(exec: Exec, arounds: seq<Around>)

  /** The directory inside an (indir) that is given `given`: an absolute one replaces the directory
      in force and a relative one is joined to it, and what the machine finds there is entered. */
  predicate IsDirectory(h: Host, sc: Scope, given: string, trace: seq<Event>, d: string) {
    var absolute := given != "" && given[0] == '/';
    var target := if sc.inDir == "" || absolute then given else h.joinPath(sc.inDir, given);
    if target == "" then d == "" else h.directory(trace, target, sc.cred) == Some(d)
  }

  /** Entered in scope sc, a leads to its inner scope. */
  predicate Leads(h: Host, sc: Scope, a: Around) {
    match a.frame
    case SetEnvFrame(variable, value) =>
      var name, val := GetValue(h, variable, a.args, a.st.vars), GetValue(h, value, a.args, a.st.vars);
      name.Got? && val.Got? && a.inner == sc.(env := sc.env + [name.value + "=" + val.value])
    case InDirFrame(dir) =>
      var given := GetValue(h, dir, a.args, a.st.vars);
      given.Got? && IsDirectory(h, sc, given.value, a.st.world.trace, a.inner.inDir) &&
      a.inner == sc.(inDir := a.inner.inDir)
    case AsUserFrame(user) =>
      var name := GetValue(h, user, a.args, a.st.vars);
      name.Got? && h.user(name.value).Some? && a.inner == sc.(cred := h.user(name.value))
    case EvalFrame(_, path) =>
      var dir := GetValue(h, path, a.args, a.st.vars);
      dir.Got? && sc.depth > 0 && a.inner == sc.(inDir := dir.value, depth := sc.depth - 1)
  }

  /** Each leads from the scope inside the one before it. */
  predicate Nested(h: Host, sc: Scope, arounds: seq<Around>)
    decreases |arounds|
  {
    arounds != [] ==> Leads(h, sc, arounds[0]) && Nested(h, arounds[0].inner, arounds[1..])
  }

  /** The scope inside all of them. */
  function Innermost(sc: Scope, arounds: seq<Around>): Scope {
    if arounds == [] then sc else arounds[|arounds| - 1].inner
  }

  function Enclosed(a: Around, sites: seq<Site>): (r: seq<Site>)
    ensures |r| == |sites|
  {
    seq(|sites|, i requires 0 <= i < |sites| => Site(sites[i].exec, [a] + sites[i].arounds))
  }

  function Bare(es: seq<Exec>): (r: seq<Site>)
    ensures |r| == |es|
  {
    seq(|es|, i requires 0 <= i < |es| => Site(es[i], []))
  }

  /** How many commands running p adds to the trace. */
  function Count(st: State, r: Res): int {
    |r.st.world.trace| - |st.world.trace|
  }

  /** Where the commands that evaluating p runs stand in p, in the order in which they run. */
  function Sites(h: Host, p: Promise, args: seq<string>, sc: Scope, st: State): seq<Site>
    decreases sc.depth, p
  {
    match p
    case Named(_, body, params) =>
      var vs := GetValues(h, params, args, st.vars);
      if vs.Got? then Sites(h, body, vs.value, sc, st) else []
    case And(ps) => SitesOfAll(h, ps, args, sc, st, true)
    case Or(ps) => SitesOfAll(h, ps, args, sc, st, false)
    case Not(q) => Sites(h, q, args, sc, st)
    case True(q) => Sites(h, q, args, sc, st)
    case False(q) => Sites(h, q, args, sc, st)
    case ReadVar(_, source) => Sites(h, source, args, sc, st)
    case Run(e) => Bare(if Count(st, RunStep(h, e, args, sc, st)) == 1 then [e] else [])
    case Pipe(es) =>
      var k := Count(st, PipeStep(h, es, args, sc, st));
      Bare(if 0 <= k <= |es| then es[..k] else [])
    case InDir(dir, q) =>
      var s := InDirScope(h, dir, args, sc, st);
      if s.Got? then Enclosed(Around(InDirFrame(dir), args, st, s.value), Sites(h, q, args, s.value, st)) else []
    case SetEnv(variable, value, q) =>
      var s := SetEnvScope(h, variable, value, args, sc, st);
      if s.Got? then
        Enclosed(Around(SetEnvFrame(variable, value), args, st, s.value), Sites(h, q, args, s.value, st))
      else []
    case AsUser(user, q) =>
      var s := AsUserScope(h, user, args, sc, st);
      if s.Got? then Enclosed(Around(AsUserFrame(user), args, st, s.value), Sites(h, q, args, s.value, st)) else []
    case EvalFile(root, path) =>
      var program := Compiled(h, root, path, args, st);
      if program.Got? && sc.depth > 0 then
        var inner := EvalScope(program.value, sc);
        Enclosed(Around(EvalFrame(root, path), args, st, inner), Sites(h, RootOf(program.value), [], inner, st))
      else []
    case _ => []
  }

  /** The promises of ps are evaluated for as long as they return `on`. */
  function SitesOfAll(h: Host, ps: seq<Promise>, args: seq<string>, sc: Scope, st: State, on: bool): seq<Site>
    decreases sc.depth, ps
  {
    if ps == [] then []
    else
      var r := Eval(h, ps[0], args, sc, st);
      Sites(h, ps[0], args, sc, st) + if r.out == Returned(on) then SitesOfAll(h, ps[1..], args, sc, r.st, on) else []
  }

  /** A command that is run in scope sc. */
  predicate RunsIn(h: Host, sc: Scope, c: Command) {
    c.env == h.environ + sc.env && c.dir == (if sc.inDir == "" then h.getenv("PWD") else sc.inDir) && c.cred == sc.cred
  }

  /** The commands run between a and b stand at the given sites, and each runs in the scope that
      what is around it makes of sc. */
  predicate Explains(h: Host, sc: Scope, a: World, b: World, sites: seq<Site>) {
    a.trace <= b.trace && |b.trace| == |a.trace| + |sites| &&
    forall i :: 0 <= i < |sites| ==> Explained(h, sc, b.trace[|a.trace| + i], sites[i])
  }

  predicate Explained(h: Host, sc: Scope, ev: Event, site: Site) {
    ev.typ == site.exec.typ && Nested(h, sc, site.arounds) && RunsIn(h, Innermost(sc, site.arounds), ev.cmd)
  }

  lemma ExplainsOn(h: Host, sc: Scope, a: World, b: World, c: World, s: seq<Site>, t: seq<Site>)
    requires Explains(h, sc, a, b, s) && Explains(h, sc, b, c, t)
    ensures Explains(h, sc, a, c, s + t)
  {
    forall i | 0 <= i < |s + t| ensures Explained(h, sc, c.trace[|a.trace| + i], (s + t)[i]) {
      if i < |s| {
        assert c.trace[|a.trace| + i] == b.trace[|a.trace| + i];
      } else {
        assert c.trace[|b.trace| + (i - |s|)] == c.trace[|a.trace| + i];
      }
    }
  }

  lemma OneAround(h: Host, sc: Scope, a: Around, ev: Event, site: Site)
    requires Leads(h, sc, a) && Explained(h, a.inner, ev, site)
    ensures Explained(h, sc, ev, Site(site.exec, [a] + site.arounds))
  {
    assert ([a] + site.arounds)[1..] == site.arounds;
  }

  lemma ExplainsEnclosed(h: Host, sc: Scope, a: World, b: World, around: Around, sites: seq<Site>)
    requires Leads(h, sc, around) && Explains(h, around.inner, a, b, sites)
    ensures Explains(h, sc, a, b, Enclosed(around, sites))
  {
    forall i | 0 <= i < |sites| ensures Explained(h, sc, b.trace[|a.trace| + i], Enclosed(around, sites)[i]) {
      OneAround(h, sc, around, b.trace[|a.trace| + i], sites[i]);
    }
  }

  lemma RunExplained(h: Host, e: Exec, args: seq<string>, sc: Scope, st: State)
    ensures Explains(h, sc, st.world, RunStep(h, e, args, sc, st).st.world, Sites(h, Run(e), args, sc, st))
  {
  }

  lemma {:induction false} PreparedUnder(h: Host, es: seq<Exec>, args: seq<string>, sc: Scope, st: State)
    requires PrepareAll(h, es, args, sc, st).Got?
    ensures forall c :: c in PrepareAll(h, es, args, sc, st).value ==> RunsIn(h, sc, c)
    decreases |es|
  {
    if es != [] {
      PreparedUnder(h, es[1..], args, sc, st);
    }
  }

  /** From a to b the first k commands of a pipe have been run. */
  predicate RanFirst(h: Host, sc: Scope, a: World, b: World, es: seq<Exec>, k: nat)
    requires k <= |es|
  {
    Explains(h, sc, a, b, Bare(es[..k]))
  }

  lemma OneMoreRan(h: Host, sc: Scope, a: World, b: World, c: World, es: seq<Exec>, k: nat)
    requires k < |es| && RanFirst(h, sc, a, b, es, k) && |c.trace| == |b.trace| + 1 && b.trace <= c.trace
    requires c.trace[|b.trace|].typ == es[k].typ && RunsIn(h, sc, c.trace[|b.trace|].cmd)
    ensures RanFirst(h, sc, a, c, es, k + 1)
  {
    ExplainsOn(h, sc, a, b, c, Bare(es[..k]), [Site(es[k], [])]);
    assert Bare(es[..k]) + [Site(es[k], [])] == Bare(es[..k + 1]);
  }

  /** The commands of a pipe from the k-th on are started, up to the last one or the first that does not start. */
  lemma {:induction false} FeedRan(h: Host, es: seq<Exec>, cmds: seq<Command>, sc: Scope, a: World, w: World,
                                   k: nat) returns (m: nat)
    requires k < |es| == |cmds| && RanFirst(h, sc, a, w, es, k)
    requires forall c :: c in cmds ==> RunsIn(h, sc, c)
    ensures var fed := Feed(h, es[k..], cmds[k..], w);
            m < |es| && RanFirst(h, sc, a, fed.world, es, m) && (fed.ok ==> m == |es| - 1)
    decreases |es| - k
  {
    m := k;
    if k < |es| - 1 && h.starts(w.trace, cmds[k]) {
      var w' := Counted(w.(trace := w.trace + [Event(es[k].typ, cmds[k], Feeder, "")]), es[k].typ);
      OneMoreRan(h, sc, a, w, w', es, k);
      m := FeedRan(h, es, cmds, sc, a, w', k + 1);
      assert es[k..][1..] == es[k + 1..] && cmds[k..][1..] == cmds[k + 1..];
    }
  }

  lemma PipeRan(h: Host, es: seq<Exec>, args: seq<string>, sc: Scope, st: State) returns (m: nat)
    ensures m <= |es| && RanFirst(h, sc, st.world, PipeStep(h, es, args, sc, st).st.world, es, m)
  {
    m := 0;
    var cmds := PrepareAll(h, es, args, sc, st);
    if cmds.Got? && es != [] {
      PreparedUnder(h, es, args, sc, st);
      assert es[0..] == es && cmds.value[0..] == cmds.value;
      m := FeedRan(h, es, cmds.value, sc, st.world, st.world, 0);
      var fed := Feed(h, es, cmds.value, st.world);
      if fed.ok {
        m := LastRan(h, es, cmds.value, sc, sc.verbose || HasChange(es), st.world, st.(world := fed.world));
      }
    }
  }

  lemma LastRan(h: Host, es: seq<Exec>, cmds: seq<Command>, sc: Scope, report: bool, a: World,
                st: State) returns (m: nat)
    requires |es| == |cmds| > 0 && RanFirst(h, sc, a, st.world, es, |es| - 1)
    requires RunsIn(h, sc, cmds[|es| - 1])
    ensures var r := EndPipe(h, es[|es| - 1], cmds[|es| - 1], report, st);
            m <= |es| && RanFirst(h, sc, a, r.st.world, es, m)
  {
    m := |es| - 1;
    if h.starts(st.world.trace, cmds[m]) {
      OneMoreRan(h, sc, a, st.world, EndPipe(h, es[m], cmds[m], report, st).st.world, es, m);
      m := m + 1;
    }
  }

  lemma PipeExplained(h: Host, es: seq<Exec>, args: seq<string>, sc: Scope, st: State)
    ensures Explains(h, sc, st.world, PipeStep(h, es, args, sc, st).st.world, Sites(h, Pipe(es), args, sc, st))
  {
    var m := PipeRan(h, es, args, sc, st);
    assert Count(st, PipeStep(h, es, args, sc, st)) == m;
  }

  /** For every promise: each command it runs, in every called promise and (eval)ed file too, runs
      in exactly the scope that what is around it makes of the scope of the promise. */
  lemma {:induction false} EveryScope(h: Host, p: Promise, args: seq<string>, sc: Scope, st: State)
    ensures Explains(h, sc, st.world, Eval(h, p, args, sc, st).st.world, Sites(h, p, args, sc, st))
    decreases sc.depth, p
  {
    match p
    case Named(_, body, params) =>
      var vs := GetValues(h, params, args, st.vars);
      if vs.Got? {
        EveryScope(h, body, vs.value, sc, st);
      }
    case And(ps) => AndScopes(h, ps, args, sc, st);
    case Or(ps) => OrScopes(h, ps, args, sc, st);
    case Not(q) => EveryScope(h, q, args, sc, st);
    case True(q) => EveryScope(h, q, args, sc, st);
    case False(q) => EveryScope(h, q, args, sc, st);
    case ReadVar(_, source) => EveryScope(h, source, args, sc, st);
    case Run(e) => RunExplained(h, e, args, sc, st);
    case Pipe(es) => PipeExplained(h, es, args, sc, st);
    case InDir(_, _) => InDirScopes(h, p, args, sc, st);
    case AsUser(_, _) => AsUserScopes(h, p, args, sc, st);
    case SetEnv(_, _, _) => SetEnvScopes(h, p, args, sc, st);
    case EvalFile(_, _) => FileScopes(h, p, args, sc, st);
    case _ =>
  }

  lemma {:induction false} InDirScopes(h: Host, p: Promise, args: seq<string>, sc: Scope, st: State)
    requires p.InDir?
    ensures Explains(h, sc, st.world, Eval(h, p, args, sc, st).st.world, Sites(h, p, args, sc, st))
    decreases sc.depth, p, 0
  {
    var s := InDirScope(h, p.dir, args, sc, st);
    if s.Got? {
      EveryScope(h, p.child, args, s.value, st);
      var a := Around(InDirFrame(p.dir), args, st, s.value);
      assert Leads(h, sc, a);
      ExplainsEnclosed(h, sc, st.world, Eval(h, p.child, args, s.value, st).st.world, a,
                       Sites(h, p.child, args, s.value, st));
    }
  }

  lemma {:induction false} AsUserScopes(h: Host, p: Promise, args: seq<string>, sc: Scope, st: State)
    requires p.AsUser?
    ensures Explains(h, sc, st.world, Eval(h, p, args, sc, st).st.world, Sites(h, p, args, sc, st))
    decreases sc.depth, p, 0
  {
    var s := AsUserScope(h, p.user, args, sc, st);
    if s.Got? {
      EveryScope(h, p.child, args, s.value, st);
      var a := Around(AsUserFrame(p.user), args, st, s.value);
      assert Leads(h, sc, a);
      ExplainsEnclosed(h, sc, st.world, Eval(h, p.child, args, s.value, st).st.world, a,
                       Sites(h, p.child, args, s.value, st));
    }
  }

  lemma {:induction false} SetEnvScopes(h: Host, p: Promise, args: seq<string>, sc: Scope, st: State)
    requires p.SetEnv?
    ensures Explains(h, sc, st.world, Eval(h, p, args, sc, st).st.world, Sites(h, p, args, sc, st))
    decreases sc.depth, p, 0
  {
    var s := SetEnvScope(h, p.variable, p.value, args, sc, st);
    if s.Got? {
      EveryScope(h, p.child, args, s.value, st);
      var a := Around(SetEnvFrame(p.variable, p.value), args, st, s.value);
      assert Leads(h, sc, a);
      ExplainsEnclosed(h, sc, st.world, Eval(h, p.child, args, s.value, st).st.world, a,
                       Sites(h, p.child, args, s.value, st));
    }
  }

  lemma {:induction false} FileScopes(h: Host, p: Promise, args: seq<string>, sc: Scope, st: State)
    requires p.EvalFile?
    ensures Explains(h, sc, st.world, Eval(h, p, args, sc, st).st.world, Sites(h, p, args, sc, st))
    decreases sc.depth, p, 0
  {
    var program := Compiled(h, p.root, p.path, args, st);
    if program.Got? && sc.depth > 0 {
      var root, inner := RootOf(program.value), EvalScope(program.value, sc);
      EveryScope(h, root, [], inner, st);
      CompiledIn(h, p.root, p.path, args, st);
      var a := Around(EvalFrame(p.root, p.path), args, st, inner);
      assert Leads(h, sc, a);
      ExplainsEnclosed(h, sc, st.world, Eval(h, root, [], inner, st).st.world, a, Sites(h, root, [], inner, st));
    }
  }

  lemma CompiledIn(h: Host, root: Arg, path: Arg, args: seq<string>, st: State)
    requires Compiled(h, root, path, args, st).Got?
    ensures GetValue(h, path, args, st.vars) == Got(Compiled(h, root, path, args, st).value.dir)
  {
  }

  lemma {:induction false} AndScopes(h: Host, ps: seq<Promise>, args: seq<string>, sc: Scope, st: State)
    ensures Explains(h, sc, st.world, EvalAnd(h, ps, args, sc, st).st.world, SitesOfAll(h, ps, args, sc, st, true))
    decreases sc.depth, ps
  {
    if ps != [] {
      var r := Eval(h, ps[0], args, sc, st);
      EveryScope(h, ps[0], args, sc, st);
      if r.out == Returned(true) {
        AndScopes(h, ps[1..], args, sc, r.st);
        ExplainsOn(h, sc, st.world, r.st.world, EvalAnd(h, ps[1..], args, sc, r.st).st.world,
                   Sites(h, ps[0], args, sc, st), SitesOfAll(h, ps[1..], args, sc, r.st, true));
      } else {
        assert Sites(h, ps[0], args, sc, st) + [] == Sites(h, ps[0], args, sc, st);
      }
    }
  }

  lemma {:induction false} OrScopes(h: Host, ps: seq<Promise>, args: seq<string>, sc: Scope, st: State)
    ensures Explains(h, sc, st.world, EvalOr(h, ps, args, sc, st).st.world, SitesOfAll(h, ps, args, sc, st, false))
    decreases sc.depth, ps
  {
    if ps != [] {
      var r := Eval(h, ps[0], args, sc, st);
      EveryScope(h, ps[0], args, sc, st);
      if r.out == Returned(false) {
        OrScopes(h, ps[1..], args, sc, r.st);
        ExplainsOn(h, sc, st.world, r.st.world, EvalOr(h, ps[1..], args, sc, r.st).st.world,
                   Sites(h, ps[0], args, sc, st), SitesOfAll(h, ps[1..], args, sc, r.st, false));
      } else {
        assert Sites(h, ps[0], args, sc, st) + [] == Sites(h, ps[0], args, sc, st);
      }
    }
  }

  /** In the text of p there is a path to the command e on which exactly these promises lie, in
      this order. What an (eval) runs is not in the text. */
  predicate OnPath(p: Promise, e: Exec, arounds: seq<Around>)
    decreases p
  {
    match p
    case Named(_, body, _) => OnPath(body, e, arounds)
    case And(ps) => exists q :: q in ps && OnPath(q, e, arounds)
    case Or(ps) => exists q :: q in ps && OnPath(q, e, arounds)
    case Not(q) => OnPath(q, e, arounds)
    case True(q) => OnPath(q, e, arounds)
    case False(q) => OnPath(q, e, arounds)
    case Run(f) => e == f && arounds == []
    case Pipe(es) => e in es && arounds == []
    case SetVar(_, _) => false
    case ReadVar(_, source) => OnPath(source, e, arounds)
    case InDir(dir, q) => arounds != [] && arounds[0].frame == InDirFrame(dir) && OnPath(q, e, arounds[1..])
    case SetEnv(variable, value, q) =>
      arounds != [] && arounds[0].frame == SetEnvFrame(variable, value) && OnPath(q, e, arounds[1..])
    case AsUser(user, q) => arounds != [] && arounds[0].frame == AsUserFrame(user) && OnPath(q, e, arounds[1..])
    case Log(_, _) => false
    case EvalFile(root, path) => arounds != [] && arounds[0].frame == EvalFrame(root, path)
    case Foreign(_, _) => false
  }

  /** The sites are where the text says. */
  lemma {:induction false} SitesOnPaths(h: Host, p: Promise, args: seq<string>, sc: Scope, st: State)
    ensures forall s :: s in Sites(h, p, args, sc, st) ==> OnPath(p, s.exec, s.arounds)
    decreases sc.depth, p
  {
    match p
    case Named(_, body, params) =>
      var vs := GetValues(h, params, args, st.vars);
      if vs.Got? {
        SitesOnPaths(h, body, vs.value, sc, st);
      }
    case And(ps) => AllOnPaths(h, ps, args, sc, st, true);
    case Or(ps) => AllOnPaths(h, ps, args, sc, st, false);
    case Not(q) => SitesOnPaths(h, q, args, sc, st);
    case True(q) => SitesOnPaths(h, q, args, sc, st);
    case False(q) => SitesOnPaths(h, q, args, sc, st);
    case ReadVar(_, source) => SitesOnPaths(h, source, args, sc, st);
    case InDir(dir, q) =>
      var s := InDirScope(h, dir, args, sc, st);
      if s.Got? {
        SitesOnPaths(h, q, args, s.value, st);
        EnclosedIn(p, Around(InDirFrame(dir), args, st, s.value), q, Sites(h, q, args, s.value, st));
      }
    case AsUser(user, q) =>
      var s := AsUserScope(h, user, args, sc, st);
      if s.Got? {
        SitesOnPaths(h, q, args, s.value, st);
        EnclosedIn(p, Around(AsUserFrame(user), args, st, s.value), q, Sites(h, q, args, s.value, st));
      }
    case SetEnv(variable, value, q) =>
      var s := SetEnvScope(h, variable, value, args, sc, st);
      if s.Got? {
        SitesOnPaths(h, q, args, s.value, st);
        EnclosedIn(p, Around(SetEnvFrame(variable, value), args, st, s.value), q, Sites(h, q, args, s.value, st));
      }
    case _ =>
  }

  /** p is the promise q inside the frame f. */
  predicate Frames(p: Promise, f: Frame, q: Promise) {
    match f
    case SetEnvFrame(variable, value) => p == SetEnv(variable, value, q)
    case InDirFrame(dir) => p == InDir(dir, q)
    case AsUserFrame(user) => p == AsUser(user, q)
    case EvalFrame(_, _) => false
  }

  lemma EnclosedIn(p: Promise, a: Around, q: Promise, sites: seq<Site>)
    requires Frames(p, a.frame, q) && forall s :: s in sites ==> OnPath(q, s.exec, s.arounds)
    ensures forall s :: s in Enclosed(a, sites) ==> OnPath(p, s.exec, s.arounds)
  {
    forall s | s in Enclosed(a, sites) ensures OnPath(p, s.exec, s.arounds) {
      var i :| 0 <= i < |sites| && s == Site(sites[i].exec, [a] + sites[i].arounds);
      assert sites[i] in sites;
      OneEnclosed(p, a, q, sites[i]);
    }
  }

  lemma OneEnclosed(p: Promise, a: Around, q: Promise, s: Site)
    requires Frames(p, a.frame, q) && OnPath(q, s.exec, s.arounds)
    ensures OnPath(p, s.exec, [a] + s.arounds)
  {
    assert ([a] + s.arounds)[1..] == s.arounds;
  }

  lemma {:induction false} AllOnPaths(h: Host, ps: seq<Promise>, args: seq<string>, sc: Scope, st: State, on: bool)
    ensures forall s :: s in SitesOfAll(h, ps, args, sc, st, on) ==> exists q :: q in ps && OnPath(q, s.exec, s.arounds)
    decreases sc.depth, ps
  {
    if ps != [] {
      SitesOnPaths(h, ps[0], args, sc, st);
      AllOnPaths(h, ps[1..], args, sc, Eval(h, ps[0], args, sc, st).st, on);
      forall s | s in SitesOfAll(h, ps, args, sc, st, on) ensures exists q :: q in ps && OnPath(q, s.exec, s.arounds) {
        if s in Sites(h, ps[0], args, sc, st) {
          assert ps[0] in ps;
        } else {
          assert s in SitesOfAll(h, ps[1..], args, sc, Eval(h, ps[0], args, sc, st).st, on);
          var q :| q in ps[1..] && OnPath(q, s.exec, s.arounds);
          assert q in ps;
        }
      }
    }
  }

  /** The bindings of the (setenv)s among arounds, outermost first. */
  function Bindings(h: Host, arounds: seq<Around>): seq<string> {
    if arounds == [] then []
    else
      var a := arounds[0];
      (match a.frame
       case SetEnvFrame(variable, value) =>
         var name, val := GetValue(h, variable, a.args, a.st.vars), GetValue(h, value, a.args, a.st.vars);
         if name.Got? && val.Got? then [name.value + "=" + val.value] else []
       case _ => []) + Bindings(h, arounds[1..])
  }

  lemma {:induction false} BindingsAround(h: Host, sc: Scope, arounds: seq<Around>)
    requires Nested(h, sc, arounds)
    ensures Innermost(sc, arounds).env == sc.env + Bindings(h, arounds)
    decreases |arounds|
  {
    if arounds == [] {
      assert sc.env + [] == sc.env;
    } else {
      var rest := arounds[1..];
      BindingsAround(h, arounds[0].inner, rest);
      assert Innermost(sc, arounds) == Innermost(arounds[0].inner, rest);
      assert Bindings(h, arounds) == Bindings(h, arounds[..1]) + Bindings(h, rest) by {
        assert arounds[..1][1..] == [] && Bindings(h, []) == [];
      }
      assert arounds[0].inner.env == sc.env + Bindings(h, arounds[..1]);
      assert (sc.env + Bindings(h, arounds[..1])) + Bindings(h, rest) == sc.env + Bindings(h, arounds);
    }
  }

  /** Every command sees exactly the process environment, the bindings in force around the promise,
      and those of the (setenv)s around the command, from the outermost to the innermost. */
  lemma EveryEnvironment(h: Host, p: Promise, args: seq<string>, sc: Scope, st: State, i: nat)
    requires i < |Sites(h, p, args, sc, st)|
    ensures var t := Eval(h, p, args, sc, st).st.world.trace;
            var arounds := Sites(h, p, args, sc, st)[i].arounds;
            |st.world.trace| + i < |t| && t[|st.world.trace| + i].cmd.env == h.environ + sc.env + Bindings(h, arounds)
  {
    var sites := Sites(h, p, args, sc, st);
    var t := Eval(h, p, args, sc, st).st.world.trace;
    EveryScope(h, p, args, sc, st);
    assert Explained(h, sc, t[|st.world.trace| + i], sites[i]);
    BindingsAround(h, sc, sites[i].arounds);
    var bs := Bindings(h, sites[i].arounds);
    assert h.environ + (sc.env + bs) == h.environ + sc.env + bs;
  }

  /** The parts of a scope, and the frames that set them. */
  datatype Part = Env | Dir | User

  predicate Sets(f: Frame, part: Part) {
    match part
    case Env => f.SetEnvFrame?
    case Dir => f.InDirFrame? || f.EvalFrame?
    case User => f.AsUserFrame?
  }

  predicate SamePart(a: Scope, b: Scope, part: Part) {
    match part
    case Env => a.env == b.env
    case Dir => a.inDir == b.inDir
    case User => a.cred == b.cred
  }

  /** Only the innermost frame that sets a part counts for the directory and the user: what is
      inside it leaves them alone. */
  lemma {:induction false} InnermostCounts(h: Host, sc: Scope, arounds: seq<Around>, part: Part)
    requires Nested(h, sc, arounds) && forall a :: a in arounds ==> !Sets(a.frame, part)
    ensures SamePart(Innermost(sc, arounds), sc, part)
    decreases |arounds|
  {
    if arounds != [] {
      InnermostCounts(h, arounds[0].inner, arounds[1..], part);
      assert arounds[0] in arounds;
    }
  }

  lemma {:induction false} NestedFrom(h: Host, sc: Scope, arounds: seq<Around>, k: nat)
    requires Nested(h, sc, arounds) && k < |arounds|
    ensures Leads(h, Innermost(sc, arounds[..k]), arounds[k]) && Nested(h, arounds[k].inner, arounds[k + 1..])
    decreases k
  {
    if k > 0 {
      NestedFrom(h, arounds[0].inner, arounds[1..], k - 1);
      assert arounds[1..][..k - 1] == arounds[1..k] && arounds[1..][k..] == arounds[k + 1..];
      assert arounds[..k][|arounds[..k]| - 1] == arounds[k - 1];
    }
  }

  /** Every command runs in the directory that the innermost (indir) or (eval) around it leads to
      from those around that one; without any, in that of the scope of the promise. Where there
      is none at all, it is the working directory. */
  lemma EveryDirectory(h: Host, p: Promise, args: seq<string>, sc: Scope, st: State, i: nat, k: int)
    requires i < |Sites(h, p, args, sc, st)|
    requires var arounds := Sites(h, p, args, sc, st)[i].arounds;
             -1 <= k < |arounds| && (k >= 0 ==> Sets(arounds[k].frame, Dir)) &&
             forall j :: k < j < |arounds| ==> !Sets(arounds[j].frame, Dir)
    ensures var t := Eval(h, p, args, sc, st).st.world.trace;
            var arounds := Sites(h, p, args, sc, st)[i].arounds;
            var d := if k < 0 then sc.inDir else arounds[k].inner.inDir;
            |st.world.trace| + i < |t| && t[|st.world.trace| + i].cmd.dir == (if d == "" then h.getenv("PWD") else d) &&
            (k >= 0 ==> Leads(h, Innermost(sc, arounds[..k]), arounds[k]))
  {
    var sites := Sites(h, p, args, sc, st);
    var t := Eval(h, p, args, sc, st).st.world.trace;
    EveryScope(h, p, args, sc, st);
    assert Explained(h, sc, t[|st.world.trace| + i], sites[i]);
    LastDirectory(h, sc, sites[i].arounds, k);
  }

  lemma LastDirectory(h: Host, sc: Scope, arounds: seq<Around>, k: int)
    requires Nested(h, sc, arounds) && -1 <= k < |arounds|
    requires forall j :: k < j < |arounds| ==> !Sets(arounds[j].frame, Dir)
    ensures Innermost(sc, arounds).inDir == if k < 0 then sc.inDir else arounds[k].inner.inDir
    ensures k >= 0 ==> Leads(h, Innermost(sc, arounds[..k]), arounds[k])
  {
    if k < 0 {
      InnermostCounts(h, sc, arounds, Dir);
    } else {
      NestedFrom(h, sc, arounds, k);
      var rest := arounds[k + 1..];
      InnermostCounts(h, arounds[k].inner, rest, Dir);
      assert Innermost(sc, arounds) == Innermost(arounds[k].inner, rest);
    }
  }

  /** There is nothing in the text of p that sets the part, and no (eval). */
  predicate Lacks(p: Promise, part: Part)
    decreases p
  {
    match p
    case Named(_, body, _) => Lacks(body, part)
    case And(ps) => forall q :: q in ps ==> Lacks(q, part)
    case Or(ps) => forall q :: q in ps ==> Lacks(q, part)
    case Not(q) => Lacks(q, part)
    case True(q) => Lacks(q, part)
    case False(q) => Lacks(q, part)
    case ReadVar(_, source) => Lacks(source, part)
    case InDir(_, q) => part != Dir && Lacks(q, part)
    case AsUser(_, q) => part != User && Lacks(q, part)
    case SetEnv(_, _, q) => part != Env && Lacks(q, part)
    case EvalFile(_, _) => false
    case _ => true
  }

  lemma {:induction false} NothingOnPath(p: Promise, e: Exec, arounds: seq<Around>, part: Part)
    requires Lacks(p, part) && OnPath(p, e, arounds)
    ensures forall a :: a in arounds ==> !Sets(a.frame, part)
    decreases p
  {
    match p
    case Named(_, body, _) => NothingOnPath(body, e, arounds, part);
    case And(ps) => var q :| q in ps && OnPath(q, e, arounds); NothingOnPath(q, e, arounds, part);
    case Or(ps) => var q :| q in ps && OnPath(q, e, arounds); NothingOnPath(q, e, arounds, part);
    case Not(q) => NothingOnPath(q, e, arounds, part);
    case True(q) => NothingOnPath(q, e, arounds, part);
    case False(q) => NothingOnPath(q, e, arounds, part);
    case ReadVar(_, source) => NothingOnPath(source, e, arounds, part);
    case InDir(_, q) => NothingOnPath(q, e, arounds[1..], part);
    case AsUser(_, q) => NothingOnPath(q, e, arounds[1..], part);
    case SetEnv(_, _, q) => NothingOnPath(q, e, arounds[1..], part);
    case _ =>
  }

  /** That part of the command's surroundings is the one of scope sc. */
  predicate HasPart(h: Host, sc: Scope, c: Command, part: Part) {
    match part
    case Env => c.env == h.environ + sc.env
    case Dir => c.dir == if sc.inDir == "" then h.getenv("PWD") else sc.inDir
    case User => c.cred == sc.cred
  }

  lemma OneOuter(h: Host, p: Promise, sc: Scope, ev: Event, site: Site, part: Part)
    requires Lacks(p, part) && OnPath(p, site.exec, site.arounds) && Explained(h, sc, ev, site)
    ensures HasPart(h, sc, ev.cmd, part)
  {
    NothingOnPath(p, site.exec, site.arounds, part);
    InnermostCounts(h, sc, site.arounds, part);
  }

  lemma OuterAt(h: Host, p: Promise, sc: Scope, a: World, b: World, sites: seq<Site>, part: Part, i: nat)
    requires Lacks(p, part) && Explains(h, sc, a, b, sites) && |a.trace| <= i < |b.trace|
    requires forall s :: s in sites ==> OnPath(p, s.exec, s.arounds)
    ensures HasPart(h, sc, b.trace[i].cmd, part)
  {
    var k := i - |a.trace|;
    assert Explained(h, sc, b.trace[|a.trace| + k], sites[k]) && sites[k] in sites;
    OneOuter(h, p, sc, b.trace[i], sites[k], part);
  }

  /** Where nothing that sets it is written, no sibling's or caller's binding, directory or user
      shows up: every command has that of the scope of the promise. */
  lemma OnlyOuter(h: Host, p: Promise, args: seq<string>, sc: Scope, st: State, part: Part)
    requires Lacks(p, part)
    ensures var t := Eval(h, p, args, sc, st).st.world.trace;
            forall i :: |st.world.trace| <= i < |t| ==> HasPart(h, sc, t[i].cmd, part)
  {
    var w := Eval(h, p, args, sc, st).st.world;
    var sites := Sites(h, p, args, sc, st);
    EveryScope(h, p, args, sc, st);
    SitesOnPaths(h, p, args, sc, st);
    forall i | |st.world.trace| <= i < |w.trace| ensures HasPart(h, sc, w.trace[i].cmd, part) {
      OuterAt(h, p, sc, st.world, w, sites, part, i);
    }
  }

  /** An (indir) evaluates its child in the directory that it leads to, and panics if there is none. */
  lemma InDirAnswers(h: Host, dir: Arg, q: Promise, args: seq<string>, sc: Scope, st: State, d: string)
    ensures var given := GetValue(h, dir, args, st.vars);
            var r := Eval(h, InDir(dir, q), args, sc, st);
            given.Got? ==>
              (IsDirectory(h, sc, given.value, st.world.trace, d) ==> r == Eval(h, q, args, sc.(inDir := d), st)) &&
              ((forall d' :: !IsDirectory(h, sc, given.value, st.world.trace, d')) ==>
               r == Res(Panicked(BadDirectory), st))
  {
    var given := GetValue(h, dir, args, st.vars);
    if given.Got? {
      var s := InDirScope(h, dir, args, sc, st);
      if s.Got? {
        assert IsDirectory(h, sc, given.value, st.world.trace, s.value.inDir);
      }
    }
  }

  /** An (asuser) evaluates its child as the user it names, and panics if there is none. */
  lemma AsUserAnswers(h: Host, user: Arg, q: Promise, args: seq<string>, sc: Scope, st: State)
    ensures var name := GetValue(h, user, args, st.vars);
            name.Got? ==>
              Eval(h, AsUser(user, q), args, sc, st) ==
              if h.user(name.value).Some? then Eval(h, q, args, sc.(cred := h.user(name.value)), st)
              else Res(Panicked(UnknownUser), st)
  {
  }

  /** p inside a (setenv) for each name and value, the first one outermost. */
  function Within(names: seq<Arg>, values: seq<Arg>, p: Promise): Promise
    requires |names| == |values|
  {
    if names == [] then p else SetEnv(names[0], values[0], Within(names[1..], values[1..], p))
  }

  /** The binding that a (setenv) makes. */
  predicate Binds(h: Host, variable: Arg, value: Arg, args: seq<string>, vars: Vars, b: string) {
    var name, val := GetValue(h, variable, args, vars), GetValue(h, value, args, vars);
    name.Got? && val.Got? && b == name.value + "=" + val.value
  }

  lemma EntersSetEnv(h: Host, name: Arg, value: Arg, b: string, q: Promise, args: seq<string>, sc: Scope, st: State)
    requires Binds(h, name, value, args, st.vars, b)
    ensures Eval(h, SetEnv(name, value, q), args, sc, st) == Eval(h, q, args, sc.(env := sc.env + [b]), st)
  {
  }

  /** (setenv)s directly inside one another put their bindings behind those around them, the
      outermost first. */
  lemma {:induction false} NestedBindings(h: Host, names: seq<Arg>, values: seq<Arg>, bs: seq<string>, p: Promise,
                                          args: seq<string>, sc: Scope, st: State)
    requires |names| == |values| == |bs|
    requires forall i :: 0 <= i < |bs| ==> Binds(h, names[i], values[i], args, st.vars, bs[i])
    ensures Eval(h, Within(names, values, p), args, sc, st) == Eval(h, p, args, sc.(env := sc.env + bs), st)
    decreases |names|
  {
    if names == [] {
      assert sc.env + bs == sc.env;
    } else {
      var inner := sc.(env := sc.env + [bs[0]]);
      EntersSetEnv(h, names[0], values[0], bs[0], Within(names[1..], values[1..], p), args, sc, st);
      forall i | 0 <= i < |bs| - 1 ensures Binds(h, names[1..][i], values[1..][i], args, st.vars, bs[1..][i]) {
        assert names[1..][i] == names[i + 1] && values[1..][i] == values[i + 1] && bs[1..][i] == bs[i + 1];
      }
      NestedBindings(h, names[1..], values[1..], bs[1..], p, args, inner, st);
      assert (sc.env + [bs[0]]) + bs[1..] == sc.env + bs;
    }
  }
}
