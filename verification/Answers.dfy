/** What a promise answers: the result, the buffers and the variables it leaves. */
module Answers {
  import opened Text
  import opened Syntax
  import opened Promises
  import opened Semantics
  import opened Commands
  import opened Arguments
  import Resolver
  import Striplines

  /** Output as a single command leaves it: the lines without their ends, one behind the other. */
  function Lines(out: string): string {
    Glue(Striplines.Split(out))
  }

  lemma OnlyCommand(h: Host, c: Command, d: Command, e: Exec, args: seq<string>, sc: Scope, st: State)
    requires CommandFor(h, c, e, args, sc, st) && CommandFor(h, d, e, args, sc, st)
    ensures c == d
  {
    forall i | 0 <= i < |e.args| ensures c.argv[i] == d.argv[i] {
      if i > 0 {
        assert Got(c.argv[i]) == GetValue(h, e.args[i], args, st.vars) == Got(d.argv[i]);
      }
    }
    assert c.argv == d.argv;
  }

  lemma Prepares(h: Host, c: Command, e: Exec, args: seq<string>, sc: Scope, st: State)
    requires CommandFor(h, c, e, args, sc, st)
    ensures Prepare(h, e, args, sc, st) == Got(c)
  {
    ValuesEach(h, e.args, args, st.vars);
    forall i | 0 <= i < |e.args| ensures GetValue(h, e.args[i], args, st.vars).Got? {
      if i > 0 {
        assert GetValue(h, e.args[i], args, st.vars) == Got(c.argv[i]);
      }
    }
    PreparedFor(h, e, args, sc, st);
    OnlyCommand(h, c, Prepare(h, e, args, sc, st).value, e, args, sc, st);
  }

  /** What is counted for a command: one of its type, and a warning if errors are reported. */
  predicate Counts(a: World, b: World, typ: ExecType, report: bool) {
    b.changes == a.changes + (if typ == ExecChange then 1 else 0) &&
    b.tests == a.tests + (if typ == ExecTest then 1 else 0) &&
    b.warnings == a.warnings + (if report && !Blank(b.stderr) then 1 else 0) &&
    b.errors == a.errors && b.misses == a.misses
  }

  /** The result of a command that is run by itself. */
  predicate AnswersAlone(h: Host, typ: ExecType, c: Command, report: bool, a: World, out: Outcome, w: World) {
    if !h.starts(a.trace, c) then
      out == Panicked(NotStarted) && w == a.(stdout := "", stderr := "")
    else
      var x := h.runs(a.trace, c);
      out == Returned(x.ok) && w.stdout == Lines(x.out) && w.stderr == Lines(x.err) &&
      w.trace == a.trace + [Event(typ, c, Single, Lines(x.out))] && Counts(a, w, typ, report)
  }

  /** A (test) or (change) whose command starts returns what the machine answers to it, and
      leaves its output in the one buffer and its errors in the other; if it does not start,
      it panics and leaves nothing. */
  lemma RunAnswers(h: Host, e: Exec, c: Command, args: seq<string>, sc: Scope, st: State)
    requires CommandFor(h, c, e, args, sc, st)
    ensures var r := Eval(h, Run(e), args, sc, st);
            r.st.vars == st.vars &&
            AnswersAlone(h, e.typ, c, sc.verbose || e.typ == ExecChange, st.world, r.out, r.st.world)
  {
    Prepares(h, c, e, args, sc, st);
    CommandAnswers(h, e.typ, c, sc.verbose || e.typ == ExecChange, st);
  }

  lemma CommandAnswers(h: Host, typ: ExecType, c: Command, report: bool, st: State)
    ensures var r := RunCommand(h, typ, c, report, st);
            r.st.vars == st.vars && AnswersAlone(h, typ, c, report, st.world, r.out, r.st.world)
  {
    var x := h.runs(st.world.trace, c);
    FlattenIsLines(x.out);
    FlattenIsLines(x.err);
  }

  /** It has no command, and panics without doing anything, if and only if it has no argument or
      one without a value. */
  lemma NoCommandIff(h: Host, e: Exec, args: seq<string>, sc: Scope, st: State)
    ensures Prepare(h, e, args, sc, st).Broke? <==> e.args == [] || exists i :: 0 <= i < |e.args| && Breaks(e.args[i])
    ensures Prepare(h, e, args, sc, st).Broke? ==>
              Eval(h, Run(e), args, sc, st) == Res(Panicked(Prepare(h, e, args, sc, st).why), st)
  {
    ValuesEach(h, e.args, args, st.vars);
    forall i | 0 <= i < |e.args| ensures GetValue(h, e.args[i], args, st.vars).Broke? <==> Breaks(e.args[i]) {
      BreaksIff(h, e.args[i], args, st.vars);
    }
  }

  /** What has been run once the first k commands of a pipe have been started. */
  function Fed(trace: seq<Event>, es: seq<Exec>, cmds: seq<Command>, k: nat): seq<Event>
    requires k <= |es| == |cmds|
  {
    if k == 0 then trace
    else Fed(trace, es, cmds, k - 1) + [Event(es[k - 1].typ, cmds[k - 1], Feeder, "")]
  }

  predicate CommandsFor(h: Host, cmds: seq<Command>, es: seq<Exec>, args: seq<string>, sc: Scope, st: State) {
    |cmds| == |es| && forall i :: 0 <= i < |es| ==> CommandFor(h, cmds[i], es[i], args, sc, st)
  }

  lemma {:induction false} PreparesAll(h: Host, cmds: seq<Command>, es: seq<Exec>, args: seq<string>, sc: Scope,
                                       st: State)
    requires CommandsFor(h, cmds, es, args, sc, st)
    ensures PrepareAll(h, es, args, sc, st) == Got(cmds)
    decreases |es|
  {
    if es != [] {
      Prepares(h, cmds[0], es[0], args, sc, st);
      forall i | 0 <= i < |es| - 1 ensures CommandFor(h, cmds[1..][i], es[1..][i], args, sc, st) {
        assert cmds[1..][i] == cmds[i + 1] && es[1..][i] == es[i + 1];
      }
      PreparesAll(h, cmds[1..], es[1..], args, sc, st);
      assert [cmds[0]] + cmds[1..] == cmds;
    }
  }

  lemma {:induction false} FedBehind(trace: seq<Event>, es: seq<Exec>, cmds: seq<Command>, k: nat)
    requires 0 < k <= |es| == |cmds|
    ensures Fed(trace, es, cmds, k) == Fed(trace + [Event(es[0].typ, cmds[0], Feeder, "")], es[1..], cmds[1..], k - 1)
    decreases k
  {
    if k > 1 {
      FedBehind(trace, es, cmds, k - 1);
      assert es[1..][k - 2] == es[k - 1] && cmds[1..][k - 2] == cmds[k - 1];
    }
  }

  /** The first m commands start, and the next one does not if it feeds another. */
  predicate StartsFirst(h: Host, trace: seq<Event>, es: seq<Exec>, cmds: seq<Command>, m: nat) {
    m < |es| == |cmds| &&
    (forall i :: 0 <= i < m ==> h.starts(Fed(trace, es, cmds, i), cmds[i])) &&
    (m < |es| - 1 ==> !h.starts(Fed(trace, es, cmds, m), cmds[m]))
  }

  lemma StartsTail(h: Host, trace: seq<Event>, es: seq<Exec>, cmds: seq<Command>, m: nat)
    requires 0 < m && StartsFirst(h, trace, es, cmds, m)
    ensures h.starts(trace, cmds[0])
    ensures StartsFirst(h, trace + [Event(es[0].typ, cmds[0], Feeder, "")], es[1..], cmds[1..], m - 1)
  {
    var next := trace + [Event(es[0].typ, cmds[0], Feeder, "")];
    assert h.starts(Fed(trace, es, cmds, 0), cmds[0]);
    forall i | 0 <= i < m ensures Fed(next, es[1..], cmds[1..], i) == Fed(trace, es, cmds, i + 1) {
      FedBehind(trace, es, cmds, i + 1);
    }
    forall i | 0 <= i < m - 1 ensures h.starts(Fed(next, es[1..], cmds[1..], i), cmds[1..][i]) {
      assert h.starts(Fed(trace, es, cmds, i + 1), cmds[i + 1]);
    }
  }

  lemma {:induction false} FeedIs(h: Host, es: seq<Exec>, cmds: seq<Command>, w: World, m: nat)
    requires StartsFirst(h, w.trace, es, cmds, m)
    ensures var fed := Feed(h, es, cmds, w);
            fed.ok == (m == |es| - 1) && fed.world.trace == Fed(w.trace, es, cmds, m) &&
            fed.world.stdout == w.stdout && fed.world.stderr == w.stderr &&
            fed.world.warnings == w.warnings && fed.world.errors == w.errors && fed.world.misses == w.misses
    decreases m
  {
    if m > 0 {
      var w' := Counted(w.(trace := w.trace + [Event(es[0].typ, cmds[0], Feeder, "")]), es[0].typ);
      StartsTail(h, w.trace, es, cmds, m);
      FeedIs(h, es[1..], cmds[1..], w', m - 1);
      FedBehind(w.trace, es, cmds, m);
    }
  }

  /** The result of the last command of a pipe, run behind `run`. */
  predicate LastAnswers(h: Host, e: Exec, cmd: Command, report: bool, run: seq<Event>, a: World, out: Outcome,
                        w: World) {
    if !h.starts(run, cmd) then
      out == Returned(false) && w.trace == run && w.stdout == w.stderr == "" &&
      w.misses == a.misses + [|run|] && w.warnings == a.warnings
    else
      var x := h.runs(run, cmd);
      out == Returned(x.ok) && w.stdout == x.out && w.stderr == x.err &&
      w.trace == run + [Event(e.typ, cmd, Last, x.out)] && w.misses == a.misses &&
      w.warnings == a.warnings + (if report && !Blank(x.err) then 1 else 0)
  }

  lemma EndAnswers(h: Host, e: Exec, cmd: Command, report: bool, st: State)
    ensures var r := EndPipe(h, e, cmd, report, st);
            r.st.vars == st.vars && LastAnswers(h, e, cmd, report, st.world.trace, st.world, r.out, r.st.world)
  {
  }

  lemma PipeIs(h: Host, es: seq<Exec>, cmds: seq<Command>, args: seq<string>, sc: Scope, st: State)
    requires es != [] && |cmds| == |es| && PrepareAll(h, es, args, sc, st) == Got(cmds)
    ensures var fed := Feed(h, es, cmds, st.world);
            Eval(h, Pipe(es), args, sc, st) ==
            if fed.ok then EndPipe(h, es[|es| - 1], cmds[|es| - 1], sc.verbose ||
                                   HasChange(es), st.(world := fed.world))
            else Res(Panicked(NotStarted), st.(world := fed.world))
  {
  }

  /** A pipe, told by how many of its commands start one after another. If one that feeds another
      does not start, it panics. Otherwise it returns what the machine answers to its last
      command, and leaves the output and the errors of that one as they are; or, if that one
      does not start, false and nothing. */
  lemma PipeAnswers(h: Host, es: seq<Exec>, cmds: seq<Command>, m: nat, args: seq<string>, sc: Scope, st: State)
    requires CommandsFor(h, cmds, es, args, sc, st) && StartsFirst(h, st.world.trace, es, cmds, m)
    ensures var r := Eval(h, Pipe(es), args, sc, st);
            var w := r.st.world;
            var run := Fed(st.world.trace, es, cmds, m);
            r.st.vars == st.vars &&
            if m < |es| - 1 then
              r.out == Panicked(NotStarted) && w.trace == run && w.stdout == st.world.stdout
            else
              var report := sc.verbose || exists e :: e in es && e.typ == ExecChange;
              LastAnswers(h, es[m], cmds[m], report, run, st.world, r.out, w)
  {
    PreparesAll(h, cmds, es, args, sc, st);
    FeedIs(h, es, cmds, st.world, m);
    PipeIs(h, es, cmds, args, sc, st);
    if m == |es| - 1 {
      HasChangeIff(es);
      FedAnswers(h, es[m], cmds[m], sc.verbose || HasChange(es), Feed(h, es, cmds, st.world).world, st);
    }
  }

  lemma FedAnswers(h: Host, e: Exec, cmd: Command, report: bool, fed: World, st: State)
    requires fed.misses == st.world.misses && fed.warnings == st.world.warnings
    ensures var r := EndPipe(h, e, cmd, report, st.(world := fed));
            r.st.vars == st.vars && LastAnswers(h, e, cmd, report, fed.trace, st.world, r.out, r.st.world)
  {
    EndAnswers(h, e, cmd, report, st.(world := fed));
  }

  lemma HasChangeIff(es: seq<Exec>)
    ensures HasChange(es) <==> exists e :: e in es && e.typ == ExecChange
  {
    if HasChange(es) {
      var i :| 0 <= i < |es| && es[i].typ == ExecChange;
      assert es[i] in es;
    }
  }

  /** r is what is left of s once its trimmed output has been bound to the name that the argument
      gives: it returns what s returns, if and only if the argument has a value then and the
      name is unbound or bound to that output already. */
  predicate BindsOutput(h: Host, variable: Arg, args: seq<string>, s: Res, r: Res) {
    var name := GetValue(h, variable, args, s.st.vars);
    var val := TrimSpace(s.st.world.stdout);
    r.st.world == s.st.world &&
    (r.out.Returned? <==>
       s.out.Returned? && name.Got? && (name.value in s.st.vars ==> s.st.vars[name.value] == val)) &&
    if r.out.Returned? then r.out == s.out && r.st.vars == s.st.vars[name.value := val] else r.st.vars == s.st.vars
  }

  lemma StepBindsOutput(h: Host, variable: Arg, args: seq<string>, s: Res)
    ensures BindsOutput(h, variable, args, s, ReadVarStep(h, variable, args, s))
  {
  }

  /** (readvar) returns what its child returns, and binds its output. */
  lemma ReadVarAnswers(h: Host, variable: Arg, source: Promise, args: seq<string>, sc: Scope, st: State)
    ensures var s := Eval(h, source, args, sc, st);
            var r := Eval(h, ReadVar(variable, source), args, sc, st);
            BindsOutput(h, variable, args, s, r) && (r.out.Returned? ==> r.out == s.out)
  {
    var s := Eval(h, source, args, sc, st);
    StepBindsOutput(h, variable, args, s);
    assert Eval(h, ReadVar(variable, source), args, sc, st) == ReadVarStep(h, variable, args, s);
  }

  /** (setvar) binds the trimmed value, and returns true, if and only if both arguments have a
      value and the name is unbound or bound to it already; otherwise it changes nothing. */
  lemma SetVarAnswers(h: Host, variable: Arg, value: Arg, args: seq<string>, sc: Scope, st: State)
    ensures var r := Eval(h, SetVar(variable, value), args, sc, st);
            var name, val := GetValue(h, variable, args, st.vars), GetValue(h, value, args, st.vars);
            (r.out == Returned(true) <==>
               name.Got? && val.Got? && (name.value in st.vars ==> st.vars[name.value] == TrimSpace(val.value))) &&
            (r.out.Returned? ==> r == Res(Returned(true), st.(vars := st.vars[name.value := TrimSpace(val.value)]))) &&
            (!r.out.Returned? ==> r.st == st)
  {
  }

  /** A command with one argument. */
  function With(typ: ExecType, cmd: string, a: Arg): Exec {
    Exec(typ, [Constant(cmd), a])
  }

  /** The value of an argument is what the command is given. */
  lemma ValueReaches(h: Host, typ: ExecType, cmd: string, a: Arg, v: string, args: seq<string>, sc: Scope, st: State)
    requires Stands(h, a, args, st.vars, v)
    ensures var r := Eval(h, Run(With(typ, cmd, a)), args, sc, st);
            r.out.Returned? ==>
              var t := r.st.world.trace;
              |t| == |st.world.trace| + 1 && |t[|t| - 1].cmd.argv| == 2 && t[|t| - 1].cmd.argv[1] == v
  {
    var e := With(typ, cmd, a);
    StandsIff(h, a, args, st.vars, v);
    if Eval(h, Run(e), args, sc, st).out.Returned? {
      RunsItsCommand(h, e, args, sc, st);
      var t := Eval(h, Run(e), args, sc, st).st.world.trace;
      assert GetValue(h, e.args[1], args, st.vars) == Got(t[|t| - 1].cmd.argv[1]);
    }
  }

  /** What a (setvar) writes is what a command behind it is given, trimmed. */
  lemma WrittenReaches(h: Host, name: string, value: string, typ: ExecType, cmd: string, args: seq<string>,
                       sc: Scope, st: State)
    requires name in st.vars ==> st.vars[name] == TrimSpace(value)
    ensures var write, use := SetVar(Constant(name), Constant(value)), Run(With(typ, cmd, VarGetter(name)));
            var r := Eval(h, And([write, use]), args, sc, st);
            r.out.Returned? ==>
              var t := r.st.world.trace;
              |t| == |st.world.trace| + 1 && |t[|t| - 1].cmd.argv| == 2 && t[|t| - 1].cmd.argv[1] == TrimSpace(value)
  {
    var write, use := SetVar(Constant(name), Constant(value)), Run(With(typ, cmd, VarGetter(name)));
    SetVarAnswers(h, Constant(name), Constant(value), args, sc, st);
    var s := Eval(h, write, args, sc, st).st;
    ValueReaches(h, typ, cmd, VarGetter(name), TrimSpace(value), args, sc, s);
    assert [write, use][1..] == [use] && [use][1..] == [];
    var r := Eval(h, use, args, sc, s);
    assert EvalAnd(h, [use], args, sc, s).st == r.st;
    assert r.out.Returned? <==> EvalAnd(h, [use], args, sc, s).out.Returned?;
  }

  /** The i-th argument of a call is what [arg:i] stands for in the promise called; one that is not
      there is empty. */
  lemma PassedReaches(h: Host, f: string, params: seq<Arg>, i: nat, v: string, typ: ExecType, cmd: string,
                      args: seq<string>, sc: Scope, st: State)
    requires if i < |params| then Stands(h, params[i], args, st.vars, v) else v == ""
    ensures var r := Eval(h, Named(f, Run(With(typ, cmd, ArgGetter(i))), params), args, sc, st);
            r.out.Returned? ==>
              var t := r.st.world.trace;
              |t| == |st.world.trace| + 1 && |t[|t| - 1].cmd.argv| == 2 && t[|t| - 1].cmd.argv[1] == v
  {
    var vs := GetValues(h, params, args, st.vars);
    ValuesEach(h, params, args, st.vars);
    if vs.Got? {
      if i < |params| {
        StandsIff(h, params[i], args, st.vars, v);
        assert Got(vs.value[i]) == GetValue(h, params[i], args, st.vars);
      }
      ValueReaches(h, typ, cmd, ArgGetter(i), v, vs.value, sc, st);
    }
  }

  /** Whatever a called promise does, the variables of its caller stay as they are. */
  lemma CallKeepsVariables(h: Host, f: string, body: Promise, params: seq<Arg>, args: seq<string>, sc: Scope, st: State)
    ensures Eval(h, Named(f, body, params), args, sc, st).st.vars == st.vars
  {
  }

  /** The state once the first k promises of ps have been evaluated in turn. */
  function Behind(h: Host, ps: seq<Promise>, k: nat, args: seq<string>, sc: Scope, st: State): State
    requires k <= |ps|
  {
    if k == 0 then st else Eval(h, ps[k - 1], args, sc, Behind(h, ps, k - 1, args, sc, st)).st
  }

  /** What the k-th of them answers then. */
  function Turn(h: Host, ps: seq<Promise>, k: nat, args: seq<string>, sc: Scope, st: State): Res
    requires k < |ps|
  {
    Eval(h, ps[k], args, sc, Behind(h, ps, k, args, sc, st))
  }

  lemma {:induction false} BehindTail(h: Host, ps: seq<Promise>, k: nat, args: seq<string>, sc: Scope, st: State)
    requires 0 < k <= |ps|
    ensures Behind(h, ps, k, args, sc, st) == Behind(h, ps[1..], k - 1, args, sc, Eval(h, ps[0], args, sc, st).st)
    decreases k
  {
    if k > 1 {
      BehindTail(h, ps, k - 1, args, sc, st);
      assert ps[1..][k - 2] == ps[k - 1];
    }
  }

  /** The first k return `on`. */
  predicate AllTurn(h: Host, ps: seq<Promise>, k: nat, on: bool, args: seq<string>, sc: Scope, st: State)
    requires k <= |ps|
  {
    forall i :: 0 <= i < k ==> Turn(h, ps, i, args, sc, st).out == Returned(on)
  }

  lemma AllTurnTail(h: Host, ps: seq<Promise>, k: nat, on: bool, args: seq<string>, sc: Scope, st: State)
    requires 0 < k <= |ps| && AllTurn(h, ps, k, on, args, sc, st)
    ensures Eval(h, ps[0], args, sc, st).out == Returned(on)
    ensures AllTurn(h, ps[1..], k - 1, on, args, sc, Eval(h, ps[0], args, sc, st).st)
  {
    assert Turn(h, ps, 0, args, sc, st).out == Returned(on);
    var s := Eval(h, ps[0], args, sc, st).st;
    forall i | 0 <= i < k - 1 ensures Turn(h, ps[1..], i, args, sc, s).out == Returned(on) {
      BehindTail(h, ps, i + 1, args, sc, st);
      assert Turn(h, ps, i + 1, args, sc, st).out == Returned(on) && ps[1..][i] == ps[i + 1];
    }
  }

  /** (and) evaluates its children in turn up to the first that does not return true, and answers
      what that one does; true if there is none. */
  lemma {:induction false} AndAnswers(h: Host, ps: seq<Promise>, k: nat, args: seq<string>, sc: Scope, st: State)
    requires k <= |ps| && AllTurn(h, ps, k, true, args, sc, st)
    requires k < |ps| ==> Turn(h, ps, k, args, sc, st).out != Returned(true)
    ensures Eval(h, And(ps), args, sc, st) ==
            if k < |ps| then Turn(h, ps, k, args, sc, st) else Res(Returned(true), Behind(h, ps, k, args, sc, st))
    decreases |ps|
  {
    if k > 0 {
      var s := Eval(h, ps[0], args, sc, st).st;
      AllTurnTail(h, ps, k, true, args, sc, st);
      BehindTail(h, ps, k, args, sc, st);
      AndAnswers(h, ps[1..], k - 1, args, sc, s);
    }
  }

  /** (or) evaluates them up to the first that does not return false. */
  lemma {:induction false} OrAnswers(h: Host, ps: seq<Promise>, k: nat, args: seq<string>, sc: Scope, st: State)
    requires k <= |ps| && AllTurn(h, ps, k, false, args, sc, st)
    requires k < |ps| ==> Turn(h, ps, k, args, sc, st).out != Returned(false)
    ensures Eval(h, Or(ps), args, sc, st) ==
            if k < |ps| then Turn(h, ps, k, args, sc, st) else Res(Returned(false), Behind(h, ps, k, args, sc, st))
    decreases |ps|
  {
    if k > 0 {
      var s := Eval(h, ps[0], args, sc, st).st;
      AllTurnTail(h, ps, k, false, args, sc, st);
      BehindTail(h, ps, k, args, sc, st);
      OrAnswers(h, ps[1..], k - 1, args, sc, s);
    }
  }

  /** (not), (true) and (false) do what their child does, and return the opposite of what it
      returns, true, and false; they panic as it does. */
  lemma WrapsAnswer(h: Host, q: Promise, args: seq<string>, sc: Scope, st: State)
    ensures var r := Eval(h, q, args, sc, st);
            var n, t, f := Eval(h, Not(q), args, sc, st), Eval(h, True(q), args, sc, st),
                           Eval(h, False(q), args, sc, st);
            n.st == t.st == f.st == r.st &&
            match r.out
            case Returned(ok) => n.out == Returned(!ok) && t.out == Returned(true) && f.out == Returned(false)
            case Panicked(_) => n.out == t.out == f.out == r.out
  {
  }

  /** A (warn) or (error) is counted once as what it is, and an (info) is not. They do not see
      variables, and they panic if they have no argument or one without a value. */
  lemma LogAnswers(h: Host, typ: LogType, params: seq<Arg>, args: seq<string>, sc: Scope, st: State)
    ensures var r := Eval(h, Log(typ, params), args, sc, st);
            var w := st.world;
            (r.out == Returned(true) <==> params != [] && forall i :: 0 <= i < |params| ==> !Breaks(params[i])) &&
            (r.out.Returned? ==>
               r == Res(Returned(true),
                        st.(world := w.(warnings := w.warnings + (if typ == Warning then 1 else 0),
                                        errors := w.errors + (if typ == LogType.Error then 1 else 0))))) &&
            (!r.out.Returned? ==> r.st == st)
  {
    ValuesEach(h, params, args, map[]);
    forall i | 0 <= i < |params| ensures GetValue(h, params[i], args, map[]).Broke? <==> Breaks(params[i]) {
      BreaksIff(h, params[i], args, map[]);
    }
  }

  /** A (template) or (restart) answers what the machine answers for the values of its arguments. */
  lemma ForeignAnswers(h: Host, kind: ForeignKind, params: seq<Arg>, vs: seq<string>, args: seq<string>, sc: Scope,
                       st: State)
    requires |vs| == |params| && forall i :: 0 <= i < |vs| ==> Stands(h, params[i], args, st.vars, vs[i])
    ensures Eval(h, Foreign(kind, params), args, sc, st) ==
            match h.foreign(st.world.trace, kind, vs, st.vars)
            case Some(ok) => Res(Returned(ok), st)
            case None => Res(Panicked(ForeignFailure), st)
  {
    ValuesEach(h, params, args, st.vars);
    forall i | 0 <= i < |vs| ensures GetValue(h, params[i], args, st.vars) == Got(vs[i]) {
      StandsIff(h, params[i], args, st.vars, vs[i]);
    }
    var r := GetValues(h, params, args, st.vars).value;
    forall i | 0 <= i < |vs| ensures r[i] == vs[i] {
      assert Got(r[i]) == GetValue(h, params[i], args, st.vars);
    }
    assert r == vs;
  }

  /** The files at dir give a table that resolves and has the root; the library is there too. */
  predicate Loads(h: Host, name: string, dir: string, st: State, tree: Tree) {
    var trace := st.world.trace;
    name != "" && h.hasFile(trace, dir) && "lib_dir" in st.vars && h.hasFile(trace, st.vars["lib_dir"]) &&
    h.table(trace, st.vars["lib_dir"], dir) == Some(tree) && name in tree && Resolver.Resolves(|tree|, tree)
  }

  lemma LoadIff(h: Host, name: string, dir: string, st: State, tree: Tree)
    ensures Loads(h, name, dir, st, tree) ==> Load(h, name, dir, st) == Got(Program(tree, name, dir))
    ensures Load(h, name, dir, st).Broke? ==> Load(h, name, dir, st) == Broke(NotCompiled)
    ensures Load(h, name, dir, st).Got? ==> Loads(h, name, dir, st, Load(h, name, dir, st).value.tree)
  {
  }

  /** An (eval) evaluates the root of such a table without arguments, in the directory of the files,
      and panics if there is none. */
  lemma FileAnswers(h: Host, root: Arg, path: Arg, name: string, dir: string, tree: Tree,
                    args: seq<string>, sc: Scope, st: State)
    requires Stands(h, root, args, st.vars, name) && Stands(h, path, args, st.vars, dir) &&
             Loads(h, name, dir, st, tree)
    ensures Eval(h, EvalFile(root, path), args, sc, st) ==
            if sc.depth == 0 then Res(Panicked(TooDeep), st)
            else Eval(h, RootOf(Program(tree, name, dir)), [], sc.(inDir := dir, depth := sc.depth - 1), st)
  {
    var program := Program(tree, name, dir);
    CompiledIs(h, root, path, name, dir, args, st);
    LoadIff(h, name, dir, st, tree);
    FileIs(h, root, path, Got(program), args, sc, st);
    if sc.depth > 0 {
      EntersDir(program, sc);
    }
  }

  lemma EntersDir(program: Program, sc: Scope)
    requires sc.depth > 0
    ensures EvalScope(program, sc) == sc.(inDir := program.dir, depth := sc.depth - 1)
  {
  }

  lemma CompiledIs(h: Host, root: Arg, path: Arg, name: string, dir: string, args: seq<string>, st: State)
    requires Stands(h, root, args, st.vars, name) && Stands(h, path, args, st.vars, dir)
    ensures Compiled(h, root, path, args, st) == Load(h, name, dir, st)
  {
    StandsIff(h, root, args, st.vars, name);
    StandsIff(h, path, args, st.vars, dir);
  }

  lemma NoFileAnswers(h: Host, root: Arg, path: Arg, name: string, dir: string, args: seq<string>, sc: Scope, st: State)
    requires Stands(h, root, args, st.vars, name) && Stands(h, path, args, st.vars, dir)
    requires forall tree :: !Loads(h, name, dir, st, tree)
    ensures Eval(h, EvalFile(root, path), args, sc, st) == Res(Panicked(NotCompiled), st)
  {
    CompiledIs(h, root, path, name, dir, args, st);
    LoadIff(h, name, dir, st, map[]);
    FileIs(h, root, path, Load(h, name, dir, st), args, sc, st);
  }

  lemma FileIs(h: Host, root: Arg, path: Arg, v: Val<Program>, args: seq<string>, sc: Scope, st: State)
    requires v == Compiled(h, root, path, args, st)
    ensures v.Got? ==> Compiles(v.value)
    ensures Eval(h, EvalFile(root, path), args, sc, st) ==
            if v.Broke? then Res(Panicked(v.why), st)
            else if sc.depth == 0 then Res(Panicked(TooDeep), st)
            else Eval(h, RootOf(v.value), [], EvalScope(v.value, sc), st)
  {
  }
}
