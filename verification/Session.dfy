/** A server's runs, one after another: what is reported about each. */
module Session {
  import opened Syntax
  import opened Promises
  import opened Semantics
  import opened Evaluator
  import opened EvalInvariants
  import opened Independence
  import Answers
  import Commands

  /** A promise that a client wants run. `mismatch` says that its version is not the server's. */
  datatype Job = Job(promise: Promise, vars: Vars, verbose: bool, depth: nat, mismatch: bool)

  datatype Report = Finished(ok: bool, numbers: Numbers) | Failed(why: Panic)

  /** What is left of a run for the next one: the counters, and the commands run so far. */
  datatype Tally = Tally(numbers: Numbers, trace: seq<Event>, misses: seq<nat>)

  datatype Ran = Ran(report: Report, tally: Tally)

  const ZERO := Numbers(0, 0, 0, 0)

  function Start(job: Job, tally: Tally): State {
    var n := tally.numbers;
    State(job.vars, World("", "", n.changes, n.tests, n.warnings, n.errors, tally.trace, tally.misses))
  }

  function ScopeFor(job: Job): Scope {
    Scope([], "", None, job.verbose, job.depth)
  }

  function NumbersOf(w: World): Numbers {
    Numbers(w.changes, w.tests, w.errors, w.warnings)
  }

  /** One run in a fresh context. The counters are reset behind the report, so that a run
      that panics leaves them as they are. */
  function ExecOnce(h: Host, job: Job, tally: Tally): Ran {
    var r := Eval(h, job.promise, [], ScopeFor(job), Start(job, tally));
    var w := r.st.world;
    match r.out
    case Returned(ok) => Ran(Finished(ok, NumbersOf(w)), Tally(ZERO, w.trace, w.misses))
    case Panicked(why) => Ran(Failed(why), Tally(NumbersOf(w), w.trace, w.misses))
  }

  /** The server counts a warning for a client of another version before it runs its promise. */
  function Warned(job: Job, tally: Tally): Tally {
    var n := tally.numbers;
    if job.mismatch then tally.(numbers := n.(warnings := n.warnings + 1)) else tally
  }

  function RunOnce(h: Host, job: Job, tally: Tally): Ran {
    ExecOnce(h, job, Warned(job, tally))
  }

  function TallyOf(m: Machine): Tally
    reads m
  {
    Tally(Numbers(m.changes, m.tests, m.errors, m.warnings), m.trace, m.misses)
  }

  /** The report says what the promise returns, or why it panics, when it is evaluated without
      arguments, directory, user or bindings, behind everything that has been run before. */
  lemma ReportTells(h: Host, job: Job, tally: Tally)
    ensures var n := tally.numbers;
            var w := World("", "", n.changes, n.tests, n.warnings + (if job.mismatch then 1 else 0), n.errors,
                           tally.trace, tally.misses);
            var r := Eval(h, job.promise, [], Scope([], "", None, job.verbose, job.depth), State(job.vars, w));
            var ran := RunOnce(h, job, tally);
            ran.tally.trace == r.st.world.trace &&
            match ran.report
            case Finished(ok, _) => r.out == Returned(ok)
            case Failed(why) => r.out == Panicked(why)
  {
  }

  /** So the report about a (test) or (change) is the machine's answer to its command. */
  lemma ReportsAnswer(h: Host, job: Job, e: Exec, c: Command, tally: Tally)
    requires job.promise == Run(e) && Commands.CommandFor(h, c, e, [], ScopeFor(job), Start(job, Warned(job, tally)))
    ensures var ran := RunOnce(h, job, tally);
            if h.starts(tally.trace, c) then
              ran.report.Finished? && ran.report.ok == h.runs(tally.trace, c).ok &&
              ran.report.numbers.changes == tally.numbers.changes + (if e.typ == ExecChange then 1 else 0)
            else ran.report == Failed(NotStarted)
  {
    Answers.RunAnswers(h, e, c, [], ScopeFor(job), Start(job, Warned(job, tally)));
  }

  /** The context in which every run starts. */
  method FreshContext(job: Job, machine: Machine) returns (ctx: Context)
    ensures fresh(ctx.vars) && fresh(ctx.stdout) && fresh(ctx.stderr) && fresh(ctx.env.store) && ctx.machine == machine
    ensures Proper(ctx) && ScopeOf(ctx) == ScopeFor(job) && StateOf(ctx) == Start(job, TallyOf(machine))
  {
    var variables := new Variables();
    variables.m := job.vars;
    var stdout := new Buffer();
    var stderr := new Buffer();
    var store := new string[0];
    ctx := Context(variables, stdout, stderr, machine, Slice(store, 0), "", None, job.verbose, job.depth);
  }

  method ExecPromise(job: Job, machine: Machine) returns (report: Report)
    modifies machine
    ensures Ran(report, TallyOf(machine)) == ExecOnce(machine.host, job, old(TallyOf(machine)))
  {
    var ctx := FreshContext(job, machine);
    var out := Evaluate(job.promise, [], ctx);
    match out
    case Panicked(why) => report := Failed(why);
    case Returned(ok) =>
      report := Finished(ok, Numbers(machine.changes, machine.tests, machine.errors, machine.warnings));
      machine.changes, machine.tests, machine.errors, machine.warnings := 0, 0, 0, 0;
  }

  /** What the server does with a promise that it has received. */
  method Serve(job: Job, machine: Machine) returns (report: Report)
    modifies machine
    ensures Ran(report, TallyOf(machine)) == RunOnce(machine.host, job, old(TallyOf(machine)))
  {
    if job.mismatch {
      machine.warnings := machine.warnings + 1;
    }
    report := ExecPromise(job, machine);
  }

  /** All runs in turn, on a server that starts with its counters at zero. */
  function Runs(h: Host, jobs: seq<Job>, trace: seq<Event>): (rs: seq<Ran>)
    ensures |rs| == |jobs|
  {
    if jobs == [] then []
    else
      var earlier := Runs(h, jobs[..|jobs| - 1], trace);
      earlier + [RunOnce(h, jobs[|jobs| - 1], TallyAfter(earlier, trace))]
  }

  function TallyAfter(rs: seq<Ran>, trace: seq<Event>): Tally {
    if rs == [] then Tally(ZERO, trace, []) else rs[|rs| - 1].tally
  }

  /** The commands that had been run when the counters were last reset. */
  function AtReset(rs: seq<Ran>, trace: seq<Event>): seq<Event> {
    if rs == [] then trace
    else if rs[|rs| - 1].report.Finished? then rs[|rs| - 1].tally.trace
    else AtReset(rs[..|rs| - 1], trace)
  }

  /** The counters of a tally are those of the commands run since reset. */
  predicate CountsSince(tally: Tally, reset: seq<Event>) {
    reset <= tally.trace &&
    tally.numbers.changes == Counting(tally.trace, ExecChange) - Counting(reset, ExecChange) &&
    tally.numbers.tests == Counting(tally.trace, ExecTest) - Counting(reset, ExecTest)
  }

  /** A run counts on from where the counters stand. */
  lemma RunCountsOn(h: Host, job: Job, tally: Tally, reset: seq<Event>)
    requires CountsSince(tally, reset)
    ensures var r := RunOnce(h, job, tally);
            tally.trace <= r.tally.trace &&
            match r.report
            case Finished(_, numbers) =>
              CountsSince(r.tally, r.tally.trace) && CountsSince(r.tally.(numbers := numbers), reset)
            case Failed(_) => CountsSince(r.tally, reset)
  {
    EvalEvolves(h, job.promise, [], ScopeFor(job), Start(job, Warned(job, tally)));
  }

  lemma {:induction false} TallyCountsSinceReset(h: Host, jobs: seq<Job>, trace: seq<Event>)
    ensures var rs := Runs(h, jobs, trace); CountsSince(TallyAfter(rs, trace), AtReset(rs, trace))
    decreases |jobs|
  {
    if jobs != [] {
      var earlier := jobs[..|jobs| - 1];
      var rs := Runs(h, jobs, trace);
      TallyCountsSinceReset(h, earlier, trace);
      assert rs[..|rs| - 1] == Runs(h, earlier, trace);
      RunCountsOn(h, jobs[|jobs| - 1], TallyAfter(rs[..|rs| - 1], trace), AtReset(rs[..|rs| - 1], trace));
    }
  }

  /** More commands count for more, and for as much exactly if none of those added counts. */
  lemma {:induction false} CountingMore(a: seq<Event>, b: seq<Event>, typ: ExecType)
    requires a <= b
    ensures Counting(a, typ) <= Counting(b, typ)
    ensures Counting(a, typ) == Counting(b, typ) <==>
            forall i :: |a| <= i < |b| && b[i].typ == typ ==> b[i].role == Last
    decreases |b|
  {
    if |a| == |b| {
      assert a == b;
    } else {
      var shorter := b[..|b| - 1];
      CountingMore(a, shorter, typ);
      assert forall i :: |a| <= i < |shorter| ==> shorter[i] == b[i];
    }
  }

  /** No command run between a and b counts. */
  predicate NothingCounted(a: seq<Event>, b: seq<Event>) {
    a <= b && forall i :: |a| <= i < |b| ==> b[i].role == Last
  }

  lemma NothingCountedIff(a: seq<Event>, b: seq<Event>)
    requires a <= b
    ensures NothingCounted(a, b) <==>
            Counting(a, ExecChange) == Counting(b, ExecChange) && Counting(a, ExecTest) == Counting(b, ExecTest)
  {
    CountingMore(a, b, ExecChange);
    CountingMore(a, b, ExecTest);
  }

  /** The numbers in a report are those of the commands run between a and b. */
  predicate Tells(report: Report, a: seq<Event>, b: seq<Event>) {
    report.Finished? && a <= b &&
    report.numbers.changes == Counting(b, ExecChange) - Counting(a, ExecChange) &&
    report.numbers.tests == Counting(b, ExecTest) - Counting(a, ExecTest)
  }

  lemma TellsIff(report: Report, a: seq<Event>, b: seq<Event>, c: seq<Event>)
    requires Tells(report, a, c) && a <= b <= c
    ensures Tells(report, b, c) <==> NothingCounted(a, b)
  {
    NothingCountedIff(a, b);
  }

  /** What a run counts by itself. */
  function Own(h: Host, job: Job, tally: Tally): Numbers {
    var r := ExecOnce(h, job, tally.(numbers := ZERO));
    if r.report.Finished? then r.report.numbers else r.tally.numbers
  }

  function Add(a: Numbers, b: Numbers): Numbers {
    Numbers(a.changes + b.changes, a.tests + b.tests, a.errors + b.errors, a.warnings + b.warnings)
  }

  /** A run adds what it counts by itself to the counters it finds, the server's warning
      included, and otherwise takes no notice of them. */
  lemma RunAdds(h: Host, job: Job, tally: Tally)
    ensures var r := RunOnce(h, job, tally);
            var alone := ExecOnce(h, job, tally.(numbers := ZERO));
            var sum := Add(Warned(job, tally).numbers, Own(h, job, tally));
            r.tally.trace == alone.tally.trace &&
            match r.report
            case Finished(ok, numbers) => alone.report.Finished? && numbers == sum
            case Failed(why) => alone.report == r.report && r.tally.numbers == sum
  {
    var alone := tally.(numbers := ZERO);
    var found := Warned(job, tally);
    assert Start(job, found) == Ahead(Start(job, alone), found.numbers);
    EvalAhead(h, job.promise, [], ScopeFor(job), Start(job, alone), found.numbers);
  }

  /** No run that panicked since the last report has counted anything, or been warned about. */
  predicate Quiet(h: Host, jobs: seq<Job>, trace: seq<Event>)
    decreases |jobs|
  {
    jobs == [] ||
    var earlier, last := jobs[..|jobs| - 1], jobs[|jobs| - 1];
    var before := TallyAfter(Runs(h, earlier, trace), trace);
    RunOnce(h, last, before).report.Finished? ||
    (Own(h, last, before) == ZERO && !last.mismatch && Quiet(h, earlier, trace))
  }

  lemma {:induction false} ZeroIffQuiet(h: Host, jobs: seq<Job>, trace: seq<Event>)
    ensures TallyAfter(Runs(h, jobs, trace), trace).numbers == ZERO <==> Quiet(h, jobs, trace)
    decreases |jobs|
  {
    if jobs != [] {
      var earlier := jobs[..|jobs| - 1];
      ZeroIffQuiet(h, earlier, trace);
      RunAdds(h, jobs[|jobs| - 1], TallyAfter(Runs(h, earlier, trace), trace));
    }
  }

  lemma NumbersIff(h: Host, jobs: seq<Job>, job: Job, trace: seq<Event>)
    ensures var before := TallyAfter(Runs(h, jobs, trace), trace);
            var r := RunOnce(h, job, before);
            r.report.Finished? ==> (r.report.numbers == Own(h, job, before) <==> !job.mismatch && Quiet(h, jobs, trace))
  {
    RunAdds(h, job, TallyAfter(Runs(h, jobs, trace), trace));
    ZeroIffQuiet(h, jobs, trace);
  }

  /** The report about a run that ends counts the commands since the report before it. Its
      four numbers are those of the run alone if and only if its client has the server's version
      and no run that panicked in between has counted anything or been warned about; those of
      the commands are, if and only if no such run has run a
      command that counts. */
  lemma ReportIsOfRunIff(h: Host, jobs: seq<Job>, job: Job, trace: seq<Event>)
    ensures var rs := Runs(h, jobs, trace);
            var before := TallyAfter(rs, trace);
            var r := RunOnce(h, job, before);
            r.report.Finished? ==>
              Tells(r.report, AtReset(rs, trace), r.tally.trace) &&
              (r.report.numbers == Own(h, job, before) <==> !job.mismatch && Quiet(h, jobs, trace)) &&
              (Tells(r.report, before.trace, r.tally.trace) <==> NothingCounted(AtReset(rs, trace), before.trace))
  {
    var rs := Runs(h, jobs, trace);
    var before := TallyAfter(rs, trace);
    var r := RunOnce(h, job, before);
    TallyCountsSinceReset(h, jobs, trace);
    RunCountsOn(h, job, before, AtReset(rs, trace));
    NumbersIff(h, jobs, job, trace);
    if r.report.Finished? {
      TellsIff(r.report, AtReset(rs, trace), before.trace, r.tally.trace);
    }
  }

  /** A change, and a pipe without commands. */
  function ChangeAndPanic(cmd: string): Job {
    Job(And([Run(Exec(ExecChange, [Constant(cmd)])), Pipe([])]), map[], false, 0, false)
  }

  function Idle(mismatch: bool): Job {
    Job(Log(Info, [Constant("idle")]), map[], false, 0, mismatch)
  }

  lemma ChangesAndPanics(h: Host, cmd: string)
    requires forall trace: seq<Event>, c: Command :: h.starts(trace, c) && h.runs(trace, c).ok
    ensures var r := RunOnce(h, ChangeAndPanic(cmd), TallyAfter([], []));
            r.report.Failed? && r.tally.numbers.changes == 1 && r.tally.numbers.tests == 0
  {
    var e := Exec(ExecChange, [Constant(cmd)]);
    var job := ChangeAndPanic(cmd);
    var sc, start := ScopeFor(job), Start(job, TallyAfter([], []));
    Commands.ValuesEach(h, e.args, [], map[]);
    assert Prepare(h, e, [], sc, start).Got?;
    var r := RunStep(h, e, [], sc, start);
    assert r.out == Returned(true) && r.st.world.changes == 1 && r.st.world.tests == 0;
    assert PipeStep(h, [], [], sc, r.st) == Res(Panicked(EmptyPipe), r.st);
    assert [Run(e), Pipe([])][1..] == [Pipe([])];
    assert EvalAnd(h, [Pipe([])], [], sc, r.st) == Res(Panicked(EmptyPipe), r.st);
    assert Eval(h, Run(e), [], sc, start) == r;
    assert Eval(h, And([Run(e), Pipe([])]), [], sc, start) == Res(Panicked(EmptyPipe), r.st);
  }

  /** It need not be: behind a run that makes one change and panics, a run without any
      command is reported to have made that change. */
  lemma ReportsChangeOfOther(h: Host, cmd: string)
    requires forall trace: seq<Event>, c: Command :: h.starts(trace, c) && h.runs(trace, c).ok
    ensures var before := TallyAfter(Runs(h, [ChangeAndPanic(cmd)], []), []);
            var r := RunOnce(h, Idle(false), before);
            r.report.Finished? && r.report.numbers.changes == 1 && r.tally.trace == before.trace
  {
    ChangesAndPanics(h, cmd);
    assert [ChangeAndPanic(cmd)][..0] == [];
    assert Runs(h, [], []) == [];
    assert Runs(h, [ChangeAndPanic(cmd)], []) == [RunOnce(h, ChangeAndPanic(cmd), TallyAfter([], []))];
    Commands.ValuesEach(h, [Constant("idle")], [], map[]);
  }

  /** The report of a client of another version, although nothing has run before, has a warning
      that its run did not give. */
  lemma ReportsWarningOfServer(h: Host)
    ensures var before := TallyAfter([], []);
            var r := RunOnce(h, Idle(true), before);
            Quiet(h, [], []) && r.report == Finished(true, Numbers(0, 0, 0, 1)) && Own(h, Idle(true), before) == ZERO
  {
    Commands.ValuesEach(h, [Constant("idle")], [], map[]);
  }

  /** A promise that panics at once. */
  function Broken(mismatch: bool): Job {
    Job(Pipe([]), map[], false, 0, mismatch)
  }

  /** If such a client's run panics, its warning is in the report of the next client. */
  lemma ReportsWarningOfOther(h: Host)
    ensures var rs := Runs(h, [Broken(true)], []);
            var r := RunOnce(h, Idle(false), TallyAfter(rs, []));
            rs[0].report == Failed(EmptyPipe) && r.report == Finished(true, Numbers(0, 0, 0, 1))
  {
    assert [Broken(true)][..0] == [];
    assert Runs(h, [], []) == [];
    Commands.ValuesEach(h, [Constant("idle")], [], map[]);
  }
}
