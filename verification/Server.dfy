/**
 The server as a state machine: an accept loop, any number of connections that receive,
 execute and answer commands, one global log writer, and a flag that says the server is
 dying. Every interleaving of their steps is a run.
 */
module Server {
  import opened Syntax

  /** Where a connection's goroutine stands. */
  datatype Phase =
    | Waiting      // for a command
    | Decoding     // a command has been received
    | Executing
    | Answering    // about to send the response to an executed command
    | Refusing     // about to send the response to a command that could not be decoded
    | Checking     // whether the server is dying
    | Closed

  /** The counts are of commands received, answered, and started while the server was dying. */
  datatype Conn = Conn(phase: Phase, received: nat, answered: nat, late: nat)

  datatype RunPhase = RunChecking | Accepting | RunDone

  datatype Writer = Stdout | To(conn: nat)

  /** `alive` counts the connections accepted before the server began to die. */
  datatype State = State(run: RunPhase, dying: bool, alive: nat, redirect: bool, writer: Writer, conns: seq<Conn>)

  datatype Step =
    | Kill
    | CheckRun
    | Accept
    | AcceptTimeout
    | AcceptFails
    | Receive(i: nat)
    | HangUp(i: nat)
    | Decode(i: nat, ok: bool)
    | Finish(i: nat)
    | Send(i: nat, ok: bool)
    | CheckDying(i: nat)

  function Start(redirect: bool): State {
    State(RunChecking, false, 0, redirect, Stdout, [])
  }

  function Pending(c: Conn): nat {
    if c.phase in {Decoding, Executing, Answering, Refusing} then 1 else 0
  }

  /** Connection i goes to phase p. */
  function Goes(s: State, i: nat, p: Phase): State
    requires i < |s.conns|
  {
    s.(conns := s.conns[i := s.conns[i].(phase := p)])
  }

  predicate In(s: State, i: nat, p: Phase) {
    i < |s.conns| && s.conns[i].phase == p
  }

  /** The state after a step; None if the step cannot be taken. */
  function Take(s: State, step: Step): Option<State> {
    match step
    case Kill => Some(s.(dying := true, alive := if s.dying then s.alive else |s.conns|))
    case CheckRun =>
      if s.run != RunChecking then None else Some(s.(run := if s.dying then RunDone else Accepting))
    case Accept =>
      if s.run != Accepting then None
      else Some(s.(run := RunChecking, conns := s.conns + [Conn(Waiting, 0, 0, 0)]))
    case AcceptTimeout => if s.run != Accepting then None else Some(s.(run := RunChecking))
    case AcceptFails => if s.run != Accepting then None else Some(s.(run := RunDone))
    case Receive(i) =>
      if !In(s, i, Waiting) then None
      else Some(s.(conns := s.conns[i := s.conns[i].(phase := Decoding, received := s.conns[i].received + 1)]))
    case HangUp(i) => if !In(s, i, Waiting) then None else Some(Goes(s, i, Closed))
    case Decode(i, ok) =>
      if !In(s, i, Decoding) then None
      else if !ok then Some(Goes(s, i, Refusing))
      else
        // the log is redirected to this connection while its command runs
        var c := s.conns[i].(phase := Executing, late := s.conns[i].late + if s.dying then 1 else 0);
        Some(s.(conns := s.conns[i := c], writer := if s.redirect then To(i) else s.writer))
    case Finish(i) =>
      if !In(s, i, Executing) then None
      else Some(Goes(s, i, Answering).(writer := if s.redirect then Stdout else s.writer))
    case Send(i, ok) =>
      if !In(s, i, Answering) && !In(s, i, Refusing) then None
      else
        var c := s.conns[i];
        var p := if ok && c.phase == Answering then Checking else Closed;
        Some(s.(conns := s.conns[i := c.(phase := p, answered := c.answered + 1)]))
    case CheckDying(i) =>
      if !In(s, i, Checking) then None else Some(Goes(s, i, if s.dying then Closed else Waiting))
  }

  /** Every received command is answered exactly once before the next is received, and a
      connection that has started a command while the server was dying starts no other. */
  predicate ConnInv(s: State, c: Conn) {
    c.received == c.answered + Pending(c) &&
    c.late <= 1 && (!s.dying ==> c.late == 0) &&
    (c.phase == Waiting || c.phase == Decoding ==> c.late == 0)
  }

  predicate Inv(s: State) {
    && (forall i :: 0 <= i < |s.conns| ==> ConnInv(s, s.conns[i]))
    && (s.writer.To? ==> s.redirect && In(s, s.writer.conn, Executing))
    && (s.dying ==> s.alive <= |s.conns| <= s.alive + 1 && (|s.conns| == s.alive + 1 ==> s.run != Accepting))
  }

  lemma StartInv(redirect: bool)
    ensures Inv(Start(redirect))
  {
  }

  /** What a step on connection i leaves of the others. */
  lemma OthersKeep(s: State, t: State, i: nat)
    requires Inv(s) && i < |s.conns| && |t.conns| == |s.conns| && t.dying == s.dying && ConnInv(t, t.conns[i])
    requires forall j :: 0 <= j < |s.conns| && j != i ==> t.conns[j] == s.conns[j]
    ensures forall j :: 0 <= j < |t.conns| ==> ConnInv(t, t.conns[j])
  {
    forall j | 0 <= j < |t.conns| ensures ConnInv(t, t.conns[j]) {
      if j != i {
        assert ConnInv(s, s.conns[j]);
      }
    }
  }

  lemma ConnStepInv(s: State, step: Step)
    requires step.Receive? || step.HangUp? || step.Decode? || step.Finish? || step.Send? || step.CheckDying?
    requires Inv(s) && Take(s, step).Some?
    ensures Inv(Take(s, step).value)
  {
    OthersKeep(s, Take(s, step).value, step.i);
  }

  /** Every step of the accept loop and of every connection keeps the invariant. */
  lemma StepInv(s: State, step: Step)
    requires Inv(s) && Take(s, step).Some?
    ensures Inv(Take(s, step).value)
  {
    var t := Take(s, step).value;
    match step
    case Kill =>
      forall j | 0 <= j < |t.conns| ensures ConnInv(t, t.conns[j]) {
        assert ConnInv(s, s.conns[j]);
      }
    case Accept =>
      forall j | 0 <= j < |t.conns| ensures ConnInv(t, t.conns[j]) {
        if j < |s.conns| {
          assert ConnInv(s, s.conns[j]);
        }
      }
    case CheckRun =>
    case AcceptTimeout =>
    case AcceptFails =>
    case _ => ConnStepInv(s, step);
  }

  /** The state after a list of steps; a step that cannot be taken ends the run. */
  function Run(s: State, steps: seq<Step>): State
    decreases |steps|
  {
    if steps == [] || Take(s, steps[0]).None? then s else Run(Take(s, steps[0]).value, steps[1..])
  }

  lemma {:induction false} RunInv(s: State, steps: seq<Step>)
    requires Inv(s)
    ensures Inv(Run(s, steps))
    decreases |steps|
  {
    if steps != [] && Take(s, steps[0]).Some? {
      StepInv(s, steps[0]);
      RunInv(Take(s, steps[0]).value, steps[1..]);
    }
  }

  function LateStarts(conns: seq<Conn>): nat {
    if conns == [] then 0 else conns[0].late + LateStarts(conns[1..])
  }

  lemma {:induction false} FewLate(s: State, conns: seq<Conn>)
    requires forall i :: 0 <= i < |conns| ==> ConnInv(s, conns[i])
    ensures LateStarts(conns) <= |conns| && (!s.dying ==> LateStarts(conns) == 0)
    decreases |conns|
  {
    if conns != [] {
      assert ConnInv(s, conns[0]);
      FewLate(s, conns[1..]);
    }
  }

  /** Over every run: the log goes to standard output or to a connection whose command is
      running, answers never lag behind commands by more than one, and once the server is
      dying at most one connection more is accepted and at most one command per connection
      is started. */
  lemma EveryRun(redirect: bool, steps: seq<Step>)
    ensures var s := Run(Start(redirect), steps);
            && (s.writer == Stdout || (s.redirect && In(s, s.writer.conn, Executing)))
            && (forall i :: 0 <= i < |s.conns| ==> s.conns[i].received == s.conns[i].answered + Pending(s.conns[i]))
            && (forall i :: 0 <= i < |s.conns| ==> s.conns[i].late <= if s.dying then 1 else 0)
            && (s.dying ==> s.alive <= |s.conns| <= s.alive + 1)
            && LateStarts(s.conns) <= (if s.dying then s.alive + 1 else 0)
  {
    var s := Run(Start(redirect), steps);
    StartInv(redirect);
    RunInv(Start(redirect), steps);
    FewLate(s, s.conns);
    forall i | 0 <= i < |s.conns|
      ensures s.conns[i].received == s.conns[i].answered + Pending(s.conns[i]) &&
              s.conns[i].late <= if s.dying then 1 else 0
    {
      assert ConnInv(s, s.conns[i]);
    }
  }

  /** Every step can be taken. */
  predicate Taken(s: State, steps: seq<Step>)
    decreases |steps|
  {
    steps == [] || (Take(s, steps[0]).Some? && Taken(Take(s, steps[0]).value, steps[1..]))
  }

  /** A step by which a connection other than i sets or restores the global log writer. */
  predicate Interferes(step: Step, i: nat) {
    match step
    case Decode(j, ok) => ok && j != i
    case Finish(j) => j != i
    case _ => false
  }

  lemma {:induction false} WriterSince(s: State, steps: seq<Step>, i: nat)
    requires s.redirect && In(s, i, Executing) && Taken(s, steps) && Finish(i) !in steps
    ensures var t := Run(s, steps);
            In(t, i, Executing) &&
            (t.writer == To(i) <==> s.writer == To(i) && forall step :: step in steps ==> !Interferes(step, i))
    decreases |steps|
  {
    if steps != [] {
      var t := Take(s, steps[0]).value;
      assert steps[0] in steps && steps == [steps[0]] + steps[1..];
      WriterSince(t, steps[1..], i);
    }
  }

  /** From the moment its command starts, and for as long as it runs, what connection i logs goes
      to its own client if and only if no other connection has since started or finished one:
      the first who finishes takes the log from all others. */
  lemma OwnLogIff(s: State, steps: seq<Step>, i: nat)
    requires s.redirect && In(s, i, Decoding) && Finish(i) !in steps
    requires Taken(Take(s, Decode(i, true)).value, steps)
    ensures var t := Run(Take(s, Decode(i, true)).value, steps);
            In(t, i, Executing) && (t.writer == To(i) <==> forall step :: step in steps ==> !Interferes(step, i))
  {
    WriterSince(Take(s, Decode(i, true)).value, steps, i);
  }

  /** Two clients at a time are enough: when the second is done, the first one's log goes to
      standard output while its command is still running. */
  lemma LogLostToOther(s: State, i: nat, j: nat)
    requires s.redirect && i != j && In(s, i, Decoding) && In(s, j, Decoding)
    ensures var t := Run(s, [Decode(i, true), Decode(j, true), Finish(j)]);
            In(t, i, Executing) && t.writer == Stdout
  {
    var t := Take(s, Decode(i, true)).value;
    var u := Take(t, Decode(j, true)).value;
    assert [Decode(i, true), Decode(j, true), Finish(j)][1..] == [Decode(j, true), Finish(j)];
    assert [Decode(j, true), Finish(j)][1..] == [Finish(j)];
    assert Run(u, [Finish(j)]) == Take(u, Finish(j)).value;
  }

  /** The steps by which connection i is served one command. */
  function Round(i: nat): seq<Step> {
    [Receive(i), Decode(i, true), Finish(i), Send(i, true), CheckDying(i)]
  }

  function Rounds(i: nat, n: nat): seq<Step> {
    if n == 0 then [] else Round(i) + Rounds(i, n - 1)
  }

  /** The state once connection i has been served n commands more, with the server alive. */
  function Served(s: State, i: nat, n: nat): State
    requires i < |s.conns|
  {
    var c := s.conns[i];
    s.(conns := s.conns[i := Conn(Waiting, c.received + n, c.answered + n, c.late)],
       writer := if s.redirect && n > 0 then Stdout else s.writer)
  }

  lemma {:induction false} RunAfter(s: State, a: seq<Step>, b: seq<Step>)
    requires Taken(s, a)
    ensures Run(s, a + b) == Run(Run(s, a), b)
    ensures Taken(s, a + b) <==> Taken(Run(s, a), b)
    decreases |a|
  {
    if a == [] {
      assert a + b == b;
    } else {
      assert (a + b)[0] == a[0] && (a + b)[1..] == a[1..] + b;
      RunAfter(Take(s, a[0]).value, a[1..], b);
    }
  }

  lemma RunOne(s: State, step: Step, rest: seq<Step>)
    requires Take(s, step).Some?
    ensures Run(s, [step] + rest) == Run(Take(s, step).value, rest)
    ensures Taken(s, [step] + rest) <==> Taken(Take(s, step).value, rest)
  {
    assert ([step] + rest)[1..] == rest;
  }

  /** Connection i as it is while its command runs. */
  function Started(s: State, i: nat): State
    requires i < |s.conns|
  {
    var c := s.conns[i];
    s.(conns := s.conns[i := Conn(Executing, c.received + 1, c.answered, c.late + if s.dying then 1 else 0)],
       writer := if s.redirect then To(i) else s.writer)
  }

  lemma UpdatedTwice(conns: seq<Conn>, i: nat, c: Conn, d: Conn)
    requires i < |conns|
    ensures conns[i := c][i := d] == conns[i := d]
  {
  }

  lemma RoundStarts(s: State, i: nat)
    requires In(s, i, Waiting)
    ensures var steps := [Receive(i), Decode(i, true)];
            Taken(s, steps) && Run(s, steps) == Started(s, i)
  {
    var a := Take(s, Receive(i)).value;
    RunOne(a, Decode(i, true), []);
    RunOne(s, Receive(i), [Decode(i, true)]);
    assert [Decode(i, true)] + [] == [Decode(i, true)];
    assert [Receive(i)] + [Decode(i, true)] == [Receive(i), Decode(i, true)];
    UpdatedTwice(s.conns, i, a.conns[i], Started(s, i).conns[i]);
  }

  lemma RoundEnds(s: State, i: nat)
    requires In(s, i, Executing)
    ensures var steps := [Finish(i), Send(i, true), CheckDying(i)];
            var c := s.conns[i];
            Taken(s, steps) &&
            Run(s, steps) ==
            s.(conns := s.conns[i := Conn(if s.dying then Closed else Waiting, c.received, c.answered + 1, c.late)],
               writer := if s.redirect then Stdout else s.writer)
  {
    var a := Take(s, Finish(i)).value;
    var b := Take(a, Send(i, true)).value;
    var c := Take(b, CheckDying(i)).value;
    UpdatedTwice(s.conns, i, a.conns[i], b.conns[i]);
    UpdatedTwice(s.conns, i, b.conns[i], c.conns[i]);
    RunOne(b, CheckDying(i), []);
    RunOne(a, Send(i, true), [CheckDying(i)]);
    RunOne(s, Finish(i), [Send(i, true), CheckDying(i)]);
    assert [CheckDying(i)] + [] == [CheckDying(i)];
    assert [Send(i, true)] + [CheckDying(i)] == [Send(i, true), CheckDying(i)];
    assert [Finish(i)] + [Send(i, true), CheckDying(i)] == [Finish(i), Send(i, true), CheckDying(i)];
  }

  /** A round can be taken. A live connection waits for the next command behind it, and one of a
      dying server is closed. */
  lemma RoundServes(s: State, i: nat)
    requires In(s, i, Waiting)
    ensures Taken(s, Round(i))
    ensures !s.dying ==> Run(s, Round(i)) == Served(s, i, 1)
    ensures s.dying ==> In(Run(s, Round(i)), i, Closed)
  {
    var a, b := [Receive(i), Decode(i, true)], [Finish(i), Send(i, true), CheckDying(i)];
    RoundStarts(s, i);
    RoundEnds(Started(s, i), i);
    RunAfter(s, a, b);
    assert Round(i) == a + b;
  }

  lemma ServedMore(s: State, i: nat, n: nat)
    requires i < |s.conns| && n > 0
    ensures Served(Served(s, i, 1), i, n - 1) == Served(s, i, n)
  {
    UpdatedTwice(s.conns, i, Served(s, i, 1).conns[i], Served(s, i, n).conns[i]);
  }

  /** For as long as the server is alive, a connection can be served any number of commands, and
      each is answered. */
  lemma {:induction false} ServesOn(s: State, i: nat, n: nat)
    requires In(s, i, Waiting) && !s.dying
    ensures Taken(s, Rounds(i, n)) && Run(s, Rounds(i, n)) == Served(s, i, n)
    decreases n
  {
    if n == 0 {
      assert s.conns[i := s.conns[i]] == s.conns;
    } else {
      RoundServes(s, i);
      RunAfter(s, Round(i), Rounds(i, n - 1));
      ServesOn(Served(s, i, 1), i, n - 1);
      ServedMore(s, i, n);
    }
  }

  /** A step that ends connection i whatever the server does: its client goes, its command cannot
      be decoded, or its answer cannot be sent. */
  predicate Ends(step: Step, i: nat) {
    step == HangUp(i) || step == Decode(i, false) || step == Send(i, false)
  }

  /** Whatever the other connections and the accept loop do in between, a live server drops no
      connection: it is still there unless one of these steps ended it. */
  lemma {:induction false} NeverDropped(s: State, steps: seq<Step>, i: nat)
    requires i < |s.conns| && s.conns[i].phase !in {Refusing, Closed} && !s.dying
    requires Kill !in steps && forall step :: step in steps ==> !Ends(step, i)
    ensures var t := Run(s, steps); !t.dying && i < |t.conns| && t.conns[i].phase !in {Refusing, Closed}
    decreases |steps|
  {
    if steps != [] && Take(s, steps[0]).Some? {
      assert steps[0] in steps && forall step :: step in steps[1..] ==> step in steps;
      NeverDropped(Take(s, steps[0]).value, steps[1..], i);
    }
  }

  /** A command that cannot be decoded is answered too, but it is the last one. */
  lemma RefusesOnce(s: State, i: nat, sent: bool)
    requires In(s, i, Waiting)
    ensures var steps := [Receive(i), Decode(i, false), Send(i, sent)];
            var c := s.conns[i];
            Taken(s, steps) &&
            Run(s, steps) == s.(conns := s.conns[i := Conn(Closed, c.received + 1, c.answered + 1, c.late)])
  {
    var a := Take(s, Receive(i)).value;
    var b := Take(a, Decode(i, false)).value;
    var last := [Send(i, sent)];
    RunOne(b, Send(i, sent), []);
    assert last + [] == last && Run(b, last) == Take(b, Send(i, sent)).value && Taken(b, last);
    RunOne(a, Decode(i, false), last);
    RunOne(s, Receive(i), [Decode(i, false)] + last);
    assert [Receive(i), Decode(i, false), Send(i, sent)] == [Receive(i)] + ([Decode(i, false)] + last);
  }

  /** A connection whose answer cannot be sent is closed. */
  lemma UnsentCloses(s: State, i: nat)
    requires In(s, i, Answering) || In(s, i, Refusing)
    ensures Take(s, Send(i, false)).Some? && In(Take(s, Send(i, false)).value, i, Closed)
  {
  }

  lemma {:induction false} ClosedStays(s: State, steps: seq<Step>, i: nat)
    requires In(s, i, Closed)
    ensures In(Run(s, steps), i, Closed) && Run(s, steps).conns[i] == s.conns[i]
    decreases |steps|
  {
    if steps != [] && Take(s, steps[0]).Some? {
      ClosedStays(Take(s, steps[0]).value, steps[1..], i);
    }
  }

  /** The accept loop takes the next client if and only if the server is not dying when it looks. */
  lemma AcceptsIffAlive(s: State)
    requires s.run == RunChecking
    ensures var steps := [CheckRun, Accept];
            (Taken(s, steps) <==> !s.dying) &&
            Run(s, steps) == if s.dying then s.(run := RunDone) else s.(conns := s.conns + [Conn(Waiting, 0, 0, 0)])
  {
    RunOne(s, CheckRun, [Accept]);
    assert [CheckRun] + [Accept] == [CheckRun, Accept];
    var t := Take(s, CheckRun).value;
    if !s.dying {
      RunOne(t, Accept, []);
      assert [Accept] + [] == [Accept];
    }
  }
}
