/**
 Arguments are call-by-value: passing arguments to a promise is writing them into its text
 before it is evaluated, in the arguments of its calls too, but not into the promises called.
 */
module Substitution {
  import opened Syntax
  import opened Promises
  import opened Semantics

  function SubstArg(a: Arg, args: seq<string>): Arg
    decreases a
  {
    match a
    case ArgGetter(i) => if i < 0 then a else Constant(if i < |args| then args[i] else "")
    case Join(parts) => Join(SubstArgs(parts, args))
    case _ => a
  }

  function SubstArgs(list: seq<Arg>, args: seq<string>): (r: seq<Arg>)
    ensures |r| == |list|
    decreases list
  {
    if list == [] then [] else [SubstArg(list[0], args)] + SubstArgs(list[1..], args)
  }

  function SubstExec(e: Exec, args: seq<string>): Exec {
    Exec(e.typ, SubstArgs(e.args, args))
  }

  function SubstExecs(es: seq<Exec>, args: seq<string>): (r: seq<Exec>)
    ensures |r| == |es|
  {
    if es == [] then [] else [SubstExec(es[0], args)] + SubstExecs(es[1..], args)
  }

  function Subst(p: Promise, args: seq<string>): Promise
    decreases p
  {
    match p
    case Named(name, body, params) => Named(name, body, SubstArgs(params, args))
    case And(ps) => And(SubstAll(ps, args))
    case Or(ps) => Or(SubstAll(ps, args))
    case Not(q) => Not(Subst(q, args))
    case True(q) => True(Subst(q, args))
    case False(q) => False(Subst(q, args))
    case Run(e) => Run(SubstExec(e, args))
    case Pipe(es) => Pipe(SubstExecs(es, args))
    case SetVar(variable, value) => SetVar(SubstArg(variable, args), SubstArg(value, args))
    case ReadVar(variable, source) => ReadVar(SubstArg(variable, args), Subst(source, args))
    case InDir(dir, q) => InDir(SubstArg(dir, args), Subst(q, args))
    case SetEnv(variable, value, q) => SetEnv(SubstArg(variable, args), SubstArg(value, args), Subst(q, args))
    case AsUser(user, q) => AsUser(SubstArg(user, args), Subst(q, args))
    case Log(typ, params) => Log(typ, SubstArgs(params, args))
    case EvalFile(root, path) => EvalFile(SubstArg(root, args), SubstArg(path, args))
    case Foreign(kind, params) => Foreign(kind, SubstArgs(params, args))
  }

  function SubstAll(ps: seq<Promise>, args: seq<string>): seq<Promise>
    decreases ps
  {
    if ps == [] then [] else [Subst(ps[0], args)] + SubstAll(ps[1..], args)
  }

  /** An argument that depends on no call. */
  predicate Closed(a: Arg)
    decreases a
  {
    match a
    case ArgGetter(i) => i < 0
    case Join(parts) => forall b :: b in parts ==> Closed(b)
    case _ => true
  }

  /** After substitution no reference to an argument is left. */
  lemma {:induction false} SubstCloses(a: Arg, args: seq<string>)
    ensures Closed(SubstArg(a, args))
    decreases a
  {
    if a.Join? {
      SubstArgsClose(a.parts, args);
    }
  }

  lemma {:induction false} SubstArgsClose(list: seq<Arg>, args: seq<string>)
    ensures forall b :: b in SubstArgs(list, args) ==> Closed(b)
    decreases list
  {
    if list != [] {
      SubstCloses(list[0], args);
      SubstArgsClose(list[1..], args);
    }
  }

  predicate ClosedList(list: seq<Arg>) {
    forall a :: a in list ==> Closed(a)
  }

  /** A promise that depends on no arguments of its own. The promises it calls get theirs from it. */
  predicate ClosedPromise(p: Promise)
    decreases p
  {
    match p
    case Named(_, _, params) => ClosedList(params)
    case And(ps) => ClosedAll(ps)
    case Or(ps) => ClosedAll(ps)
    case Not(q) => ClosedPromise(q)
    case True(q) => ClosedPromise(q)
    case False(q) => ClosedPromise(q)
    case Run(e) => ClosedList(e.args)
    case Pipe(es) => forall e :: e in es ==> ClosedList(e.args)
    case SetVar(variable, value) => Closed(variable) && Closed(value)
    case ReadVar(variable, source) => Closed(variable) && ClosedPromise(source)
    case InDir(dir, q) => Closed(dir) && ClosedPromise(q)
    case SetEnv(variable, value, q) => Closed(variable) && Closed(value) && ClosedPromise(q)
    case AsUser(user, q) => Closed(user) && ClosedPromise(q)
    case Log(_, params) => ClosedList(params)
    case EvalFile(root, path) => Closed(root) && Closed(path)
    case Foreign(_, params) => ClosedList(params)
  }

  predicate ClosedAll(ps: seq<Promise>)
    decreases ps
  {
    ps != [] ==> ClosedPromise(ps[0]) && ClosedAll(ps[1..])
  }

  lemma {:induction false} SubstExecsClose(es: seq<Exec>, args: seq<string>)
    ensures forall e :: e in SubstExecs(es, args) ==> ClosedList(e.args)
    decreases es
  {
    if es != [] {
      SubstArgsClose(es[0].args, args);
      SubstExecsClose(es[1..], args);
    }
  }

  /** After substitution no reference to an argument is left in a promise. */
  lemma {:induction false} SubstClosesPromise(p: Promise, args: seq<string>)
    ensures ClosedPromise(Subst(p, args))
    decreases p
  {
    match p
    case Named(_, _, params) => SubstArgsClose(params, args);
    case And(ps) => SubstClosesAll(ps, args);
    case Or(ps) => SubstClosesAll(ps, args);
    case Not(q) => SubstClosesPromise(q, args);
    case True(q) => SubstClosesPromise(q, args);
    case False(q) => SubstClosesPromise(q, args);
    case Run(e) => SubstArgsClose(e.args, args);
    case Pipe(es) => SubstExecsClose(es, args);
    case SetVar(variable, value) => SubstCloses(variable, args); SubstCloses(value, args);
    case ReadVar(variable, source) => SubstCloses(variable, args); SubstClosesPromise(source, args);
    case InDir(dir, q) => SubstCloses(dir, args); SubstClosesPromise(q, args);
    case SetEnv(variable, value, q) =>
      SubstCloses(variable, args);
      SubstCloses(value, args);
      SubstClosesPromise(q, args);
    case AsUser(user, q) => SubstCloses(user, args); SubstClosesPromise(q, args);
    case Log(_, params) => SubstArgsClose(params, args);
    case EvalFile(root, path) => SubstCloses(root, args); SubstCloses(path, args);
    case Foreign(_, params) => SubstArgsClose(params, args);
  }

  lemma {:induction false} SubstClosesAll(ps: seq<Promise>, args: seq<string>)
    ensures ClosedAll(SubstAll(ps, args))
    decreases ps
  {
    if ps != [] {
      assert SubstAll(ps, args)[1..] == SubstAll(ps[1..], args);
      SubstClosesPromise(ps[0], args);
      SubstClosesAll(ps[1..], args);
    }
  }

  lemma {:induction false} SameValue(h: Host, a: Arg, args: seq<string>, others: seq<string>, vars: Vars)
    ensures GetValue(h, SubstArg(a, args), others, vars) == GetValue(h, a, args, vars)
    decreases a
  {
    if a.Join? {
      SameJoin(h, a.parts, args, others, vars);
    }
  }

  lemma {:induction false} SameJoin(h: Host, parts: seq<Arg>, args: seq<string>, others: seq<string>, vars: Vars)
    ensures JoinValues(h, SubstArgs(parts, args), others, vars) == JoinValues(h, parts, args, vars)
    decreases parts
  {
    if parts != [] {
      assert SubstArgs(parts, args)[1..] == SubstArgs(parts[1..], args);
      SameValue(h, parts[0], args, others, vars);
      SameJoin(h, parts[1..], args, others, vars);
    }
  }

  lemma {:induction false} SameValues(h: Host, list: seq<Arg>, args: seq<string>, others: seq<string>, vars: Vars)
    ensures GetValues(h, SubstArgs(list, args), others, vars) == GetValues(h, list, args, vars)
    decreases list
  {
    if list != [] {
      assert SubstArgs(list, args)[1..] == SubstArgs(list[1..], args);
      SameValue(h, list[0], args, others, vars);
      SameValues(h, list[1..], args, others, vars);
    }
  }

  lemma {:induction false} SameCommands(h: Host, es: seq<Exec>, args: seq<string>, others: seq<string>, sc: Scope,
                                        st: State)
    ensures PrepareAll(h, SubstExecs(es, args), others, sc, st) == PrepareAll(h, es, args, sc, st)
    decreases es
  {
    if es != [] {
      assert SubstExecs(es, args)[1..] == SubstExecs(es[1..], args);
      SameValues(h, es[0].args, args, others, st.vars);
      SameCommands(h, es[1..], args, others, sc, st);
    }
  }

  lemma {:induction false} SameTypes(es: seq<Exec>, args: seq<string>)
    ensures forall i :: 0 <= i < |es| ==> SubstExecs(es, args)[i].typ == es[i].typ
    decreases es
  {
    if es != [] {
      SameTypes(es[1..], args);
      forall i | 0 <= i < |es| ensures SubstExecs(es, args)[i].typ == es[i].typ {
        if i > 0 {
          assert SubstExecs(es, args)[i] == SubstExecs(es[1..], args)[i - 1];
        }
      }
    }
  }

  lemma {:induction false} SameFeed(h: Host, es: seq<Exec>, fs: seq<Exec>, cmds: seq<Command>, w: World)
    requires |es| == |fs| == |cmds| && forall i :: 0 <= i < |es| ==> es[i].typ == fs[i].typ
    ensures Feed(h, es, cmds, w) == Feed(h, fs, cmds, w)
    decreases |cmds|
  {
    if |cmds| > 1 && h.starts(w.trace, cmds[0]) {
      SameFeed(h, es[1..], fs[1..], cmds[1..],
               Counted(w.(trace := w.trace + [Event(es[0].typ, cmds[0], Feeder, "")]), es[0].typ));
    }
  }

  lemma SamePipe(h: Host, es: seq<Exec>, args: seq<string>, others: seq<string>, sc: Scope, st: State)
    ensures PipeStep(h, SubstExecs(es, args), others, sc, st) == PipeStep(h, es, args, sc, st)
  {
    var fs := SubstExecs(es, args);
    SameCommands(h, es, args, others, sc, st);
    SameTypes(es, args);
    var cmds := PrepareAll(h, es, args, sc, st);
    if cmds.Got? && es != [] {
      SameFeed(h, fs, es, cmds.value, st.world);
      assert HasChange(fs) == HasChange(es) by {
        assert forall i :: 0 <= i < |es| ==> fs[i].typ == es[i].typ;
      }
    }
  }

  /** Evaluating with arguments is evaluating, with whatever arguments, the promise they have
      been written into. */
  lemma {:induction false} SubstPreserves(h: Host, p: Promise, args: seq<string>, others: seq<string>, sc: Scope,
                                          st: State)
    ensures Eval(h, Subst(p, args), others, sc, st) == Eval(h, p, args, sc, st)
    decreases p
  {
    match p
    case And(ps) => SubstAndOr(h, ps, args, others, sc, st);
    case Or(ps) => SubstAndOr(h, ps, args, others, sc, st);
    case Not(q) => SubstPreserves(h, q, args, others, sc, st);
    case True(q) => SubstPreserves(h, q, args, others, sc, st);
    case False(q) => SubstPreserves(h, q, args, others, sc, st);
    case ReadVar(variable, source) =>
      SubstPreserves(h, source, args, others, sc, st);
      SameValue(h, variable, args, others, Eval(h, source, args, sc, st).st.vars);
    case InDir(_, _) => SubstScoped(h, p, args, others, sc, st);
    case SetEnv(_, _, _) => SubstScoped(h, p, args, others, sc, st);
    case AsUser(_, _) => SubstScoped(h, p, args, others, sc, st);
    case _ => SubstLeaf(h, p, args, others, sc, st);
  }

  lemma SubstLeaf(h: Host, p: Promise, args: seq<string>, others: seq<string>, sc: Scope, st: State)
    requires p.Named? || p.Run? || p.Pipe? || p.SetVar? || p.Log? || p.EvalFile? || p.Foreign?
    ensures Eval(h, Subst(p, args), others, sc, st) == Eval(h, p, args, sc, st)
  {
    match p
    case Named(_, _, params) => SameValues(h, params, args, others, st.vars);
    case Run(e) => SameValues(h, e.args, args, others, st.vars);
    case Pipe(es) => SamePipe(h, es, args, others, sc, st);
    case SetVar(variable, value) =>
      SameValue(h, variable, args, others, st.vars);
      SameValue(h, value, args, others, st.vars);
    case Log(_, params) => SameValues(h, params, args, others, map[]);
    case EvalFile(root, path) =>
      SameValue(h, root, args, others, st.vars);
      SameValue(h, path, args, others, st.vars);
    case Foreign(_, params) => SameValues(h, params, args, others, st.vars);
  }

  lemma {:induction false} SubstScoped(h: Host, p: Promise, args: seq<string>, others: seq<string>, sc: Scope,
                                       st: State)
    requires p.InDir? || p.SetEnv? || p.AsUser?
    ensures Eval(h, Subst(p, args), others, sc, st) == Eval(h, p, args, sc, st)
    decreases p, 0
  {
    var s := match p
      case InDir(dir, _) => InDirScope(h, dir, args, sc, st)
      case SetEnv(variable, value, _) => SetEnvScope(h, variable, value, args, sc, st)
      case AsUser(user, _) => AsUserScope(h, user, args, sc, st);
    match p {
      case InDir(dir, _) => SameValue(h, dir, args, others, st.vars);
      case SetEnv(variable, value, _) =>
        SameValue(h, variable, args, others, st.vars);
        SameValue(h, value, args, others, st.vars);
      case AsUser(user, _) => SameValue(h, user, args, others, st.vars);
    }
    if s.Got? {
      SubstPreserves(h, p.child, args, others, s.value, st);
    }
  }

  lemma {:induction false} SubstAndOr(h: Host, ps: seq<Promise>, args: seq<string>, others: seq<string>, sc: Scope,
                                      st: State)
    ensures EvalAnd(h, SubstAll(ps, args), others, sc, st) == EvalAnd(h, ps, args, sc, st)
    ensures EvalOr(h, SubstAll(ps, args), others, sc, st) == EvalOr(h, ps, args, sc, st)
    decreases ps
  {
    if ps != [] {
      assert SubstAll(ps, args)[1..] == SubstAll(ps[1..], args);
      SubstPreserves(h, ps[0], args, others, sc, st);
      SubstAndOr(h, ps[1..], args, others, sc, Eval(h, ps[0], args, sc, st).st);
    }
  }
}
