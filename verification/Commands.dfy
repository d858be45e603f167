/** Which commands a promise runs, with what arguments, where, and in what environment. */
module Commands {
  import opened Text
  import opened Syntax
  import opened Promises
  import opened Semantics
  import Striplines

  /** Argument by argument: a list has values exactly if each has one, in the same order. */
  lemma {:induction false} ValuesEach(h: Host, params: seq<Arg>, args: seq<string>, vars: Vars)
    ensures var r := GetValues(h, params, args, vars);
            (r.Got? <==> forall i :: 0 <= i < |params| ==> GetValue(h, params[i], args, vars).Got?) &&
            (r.Got? ==> forall i :: 0 <= i < |params| ==> Got(r.value[i]) == GetValue(h, params[i], args, vars))
    decreases |params|
  {
    if params != [] {
      ValuesEach(h, params[1..], args, vars);
      assert forall i :: 0 <= i < |params| - 1 ==> params[1..][i] == params[i + 1];
      assert GetValues(h, params, args, vars).Got? ==> GetValues(h, params[1..], args, vars).Got?;
      forall i | 0 <= i < |params| && GetValues(h, params, args, vars).Got?
        ensures Got(GetValues(h, params, args, vars).value[i]) == GetValue(h, params[i], args, vars)
      {
        if i > 0 {
          assert params[i] == params[1..][i - 1];
        }
      }
      if forall i :: 0 <= i < |params| ==> GetValue(h, params[i], args, vars).Got? {
        forall i | 0 <= i < |params| - 1 ensures GetValue(h, params[1..][i], args, vars).Got? {
          assert params[1..][i] == params[i + 1];
        }
      }
    }
  }

  /** Inside an (indir) an executable found below the directory stands for the name it was
      found by. */
  predicate NamesExecutable(h: Host, name: string, exe: string, sc: Scope, trace: seq<Event>) {
    if sc.inDir != "" && h.lookPath(trace, h.joinPath(sc.inDir, name)).Some? then
      h.lookPath(trace, h.joinPath(sc.inDir, name)) == Some(exe)
    else exe == name
  }

  /** c is the command that e stands for: its arguments one by one, in the directory, the
      environment and with the user in force. */
  predicate CommandFor(h: Host, c: Command, e: Exec, args: seq<string>, sc: Scope, st: State) {
    |c.argv| == |e.args| > 0 &&
    (var name := GetValue(h, e.args[0], args, st.vars);
     name.Got? && NamesExecutable(h, name.value, c.argv[0], sc, st.world.trace)) &&
    (forall i :: 0 < i < |e.args| ==> GetValue(h, e.args[i], args, st.vars) == Got(c.argv[i])) &&
    c.dir == (if sc.inDir == "" then h.getenv("PWD") else sc.inDir) &&
    c.env == h.environ + sc.env && c.cred == sc.cred
  }

  lemma PreparedFor(h: Host, e: Exec, args: seq<string>, sc: Scope, st: State)
    requires Prepare(h, e, args, sc, st).Got?
    ensures CommandFor(h, Prepare(h, e, args, sc, st).value, e, args, sc, st)
  {
    ValuesEach(h, e.args, args, st.vars);
    var vs := GetValues(h, e.args, args, st.vars).value;
    assert Got(vs[0]) == GetValue(h, e.args[0], args, st.vars);
  }

  lemma {:induction false} PreparedEach(h: Host, es: seq<Exec>, args: seq<string>, sc: Scope, st: State)
    requires PrepareAll(h, es, args, sc, st).Got?
    ensures forall i :: 0 <= i < |es| ==> CommandFor(h, PrepareAll(h, es, args, sc, st).value[i], es[i], args, sc, st)
    decreases |es|
  {
    if es != [] {
      PreparedFor(h, es[0], args, sc, st);
      PreparedEach(h, es[1..], args, sc, st);
      var cs := PrepareAll(h, es, args, sc, st).value;
      forall i | 0 <= i < |es| ensures CommandFor(h, cs[i], es[i], args, sc, st) {
        if i > 0 {
          assert cs[i] == PrepareAll(h, es[1..], args, sc, st).value[i - 1] && es[i] == es[1..][i - 1];
        }
      }
    }
  }

  /** A (test) or (change) that returns has run one command, its own. */
  lemma RunsItsCommand(h: Host, e: Exec, args: seq<string>, sc: Scope, st: State)
    requires RunStep(h, e, args, sc, st).out.Returned?
    ensures var t := RunStep(h, e, args, sc, st).st.world.trace;
            |t| == |st.world.trace| + 1 && t[..|st.world.trace|] == st.world.trace &&
            t[|st.world.trace|].typ == e.typ && t[|st.world.trace|].role == Single &&
            CommandFor(h, t[|st.world.trace|].cmd, e, args, sc, st)
  {
    PreparedFor(h, e, args, sc, st);
  }

  /** Event ev runs c, the command of e; the last command of a pipe is run as its last. */
  predicate RunsIn(ev: Event, c: Command, e: Exec, last: bool) {
    ev.typ == e.typ && ev.cmd == c && ev.role == (if last then Last else Feeder)
  }

  /** From before to after the first k commands of a pipe are run, in order. */
  predicate RunFirst(before: seq<Event>, after: seq<Event>, es: seq<Exec>, cmds: seq<Command>, k: nat)
    requires k <= |es| == |cmds|
  {
    before <= after && |after| == |before| + k &&
    forall i :: 0 <= i < k ==> RunsIn(after[|before| + i], cmds[i], es[i], i == |es| - 1)
  }

  /** One command in front of those that follow it. */
  lemma OneBefore(before: seq<Event>, ev: Event, after: seq<Event>, es: seq<Exec>, cmds: seq<Command>, k: nat)
    requires k < |es| == |cmds| && RunsIn(ev, cmds[0], es[0], 0 == |es| - 1)
    requires RunFirst(before + [ev], after, es[1..], cmds[1..], k)
    ensures RunFirst(before, after, es, cmds, k + 1)
  {}

  lemma {:induction false} FeedsInOrder(h: Host, es: seq<Exec>, cmds: seq<Command>, w: World)
    requires |es| == |cmds| > 0 && Feed(h, es, cmds, w).ok
    ensures RunFirst(w.trace, Feed(h, es, cmds, w).world.trace, es, cmds, |es| - 1)
    decreases |cmds|
  {
    if |cmds| > 1 {
      var ev := Event(es[0].typ, cmds[0], Feeder, "");
      var w' := Counted(w.(trace := w.trace + [ev]), es[0].typ);
      FeedsInOrder(h, es[1..], cmds[1..], w');
      OneBefore(w.trace, ev, Feed(h, es, cmds, w).world.trace, es, cmds, |es| - 2);
    }
  }

  lemma OneBehind(before: seq<Event>, fed: seq<Event>, ev: Event, es: seq<Exec>, cmds: seq<Command>)
    requires |es| == |cmds| > 0 && RunFirst(before, fed, es, cmds, |es| - 1)
    requires RunsIn(ev, cmds[|es| - 1], es[|es| - 1], true)
    ensures RunFirst(before, fed + [ev], es, cmds, |es|)
  {}

  /** A pipe that returns has run its commands, each once and in order, all of them if and only
      if the last one started; otherwise all but that one, with an empty output buffer. */
  lemma PipeRunsAll(h: Host, es: seq<Exec>, args: seq<string>, sc: Scope, st: State)
    requires PipeStep(h, es, args, sc, st).out.Returned?
    ensures var cmds := PrepareAll(h, es, args, sc, st);
            cmds.Got? && es != [] &&
            (forall i :: 0 <= i < |es| ==> CommandFor(h, cmds.value[i], es[i], args, sc, st)) &&
            var fed := Feed(h, es, cmds.value, st.world).world.trace;
            var w := PipeStep(h, es, args, sc, st).st.world;
            RunFirst(st.world.trace, fed, es, cmds.value, |es| - 1) &&
            (RunFirst(st.world.trace, w.trace, es, cmds.value, |es|) <==> h.starts(fed, cmds.value[|es| - 1])) &&
            (!h.starts(fed, cmds.value[|es| - 1]) ==>
               w.trace == fed && w.stdout == "" && PipeStep(h, es, args, sc, st).out == Returned(false))
  {
    var cmds := PrepareAll(h, es, args, sc, st).value;
    PreparedEach(h, es, args, sc, st);
    FeedsInOrder(h, es, cmds, st.world);
    var fed := Feed(h, es, cmds, st.world).world.trace;
    var t := PipeStep(h, es, args, sc, st).st.world.trace;
    if h.starts(fed, cmds[|es| - 1]) {
      var ev := t[|fed|];
      assert t == fed + [ev];
      OneBehind(st.world.trace, fed, ev, es, cmds);
    }
  }

  /** Where nothing starts, a pipe of one command returns, and has run nothing. */
  lemma PipeOfNothing(h: Host, cmd: string, sc: Scope, st: State)
    requires forall trace: seq<Event>, c: Command :: !h.starts(trace, c)
    ensures var r := PipeStep(h, [Exec(ExecTest, [Constant(cmd)])], [], sc, st);
            r.out == Returned(false) && r.st.vars == st.vars && r.st.world.stdout == "" &&
            r.st.world.trace == st.world.trace && r.st.world.misses == st.world.misses + [|st.world.trace|]
  {
    var e := Exec(ExecTest, [Constant(cmd)]);
    ValuesEach(h, e.args, [], st.vars);
    assert Prepare(h, e, [], sc, st).Got? && [e][1..] == [];
    assert PrepareAll(h, [e], [], sc, st).Got?;
  }

  /** A line without the carriage return at its end. */
  function DropCR(line: string): string {
    if line != "" && line[|line| - 1] == '\r' then line[..|line| - 1] else line
  }

  function Glue(lines: seq<string>): string {
    if lines == [] then "" else DropCR(lines[0]) + Glue(lines[1..])
  }

  predicate EndsLine(tail: string) {
    tail == "" || tail[0] == '\n'
  }

  lemma FlattenRune(c: char, s: string)
    requires c != '\n'
    ensures Flatten([c] + s) == if c == '\r' && EndsLine(s) then Flatten(s) else [c] + Flatten(s)
  {
    assert ([c] + s)[1..] == s;
  }

  lemma DropCRRune(c: char, rest: string)
    ensures DropCR([c] + rest) == if c == '\r' && rest == "" then "" else [c] + DropCR(rest)
  {
    var line := [c] + rest;
    if rest != "" {
      assert line[|line| - 1] == rest[|rest| - 1];
      assert line[..|line| - 1] == [c] + rest[..|rest| - 1];
    }
  }

  lemma FlattenMore(c: char, rest: string, tail: string, kept: string)
    requires c != '\n' && !EndsLine(rest) && Flatten(rest + tail) == kept + Flatten(tail)
    ensures Flatten([c] + rest + tail) == [c] + kept + Flatten(tail)
  {
    var s := rest + tail;
    assert !EndsLine(s) by {
      assert s[0] == rest[0];
    }
    FlattenRune(c, s);
    assert [c] + rest + tail == [c] + s;
    var f := Flatten(tail);
    assert [c] + (kept + f) == [c] + kept + f;
  }

  /** A line, and what follows it: nothing, or its newline and more. */
  lemma {:induction false} FlattenLine(line: string, tail: string)
    requires Striplines.NoNewline(line) && EndsLine(tail)
    ensures Flatten(line + tail) == DropCR(line) + Flatten(tail)
    decreases |line|
  {
    if line == "" {
      assert line + tail == tail;
    } else {
      var c, rest := line[0], line[1..];
      assert line == [c] + rest;
      DropCRRune(c, rest);
      if rest == "" {
        assert line == [c];
        FlattenRune(c, tail);
      } else {
        assert rest[0] == line[1];
        FlattenLine(rest, tail);
        var kept := DropCR(rest);
        FlattenMore(c, rest, tail, kept);
      }
    }
  }

  /** What a single command leaves in the buffer: the lines of its output, each without its
      ending, one behind the other. */
  lemma {:induction false} FlattenIsLines(out: string)
    ensures Flatten(out) == Glue(Striplines.Split(out))
    decreases |out|
  {
    var i := Striplines.FirstNewline(out);
    if i == |out| {
      FlattenLine(out, "");
      assert out + "" == out;
      Striplines.SplitLine(out);
      assert Glue([out]) == DropCR(out) + Glue([]);
    } else {
      var line, rest := out[..i], out[i + 1..];
      var tail := "\n" + rest;
      assert out == line + tail && out == line + "\n" + rest && tail[1..] == rest;
      FlattenLine(line, tail);
      FlattenIsLines(rest);
      Striplines.SplitHead(line, rest);
      assert ([line] + Striplines.Split(rest))[1..] == Striplines.Split(rest);
    }
  }
}
