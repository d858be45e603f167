/**
 Trees that come out of the resolver are well typed, and a well-typed tree can panic only
 for the reasons that are written in it.
 */
module Soundness {
  import opened Syntax
  import opened Promises
  import opened Semantics
  import opened Resolver

  /** What the New methods guarantee of every promise in a tree, called ones included. */
  predicate WellTyped(p: Promise)
    decreases p
  {
    match p
    case Named(_, body, _) => WellTyped(body)
    case And(ps) => |ps| >= 2 && AllWellTyped(ps)
    case Or(ps) => |ps| >= 2 && AllWellTyped(ps)
    case Not(q) => WellTyped(q)
    case True(q) => WellTyped(q)
    case False(q) => WellTyped(q)
    case Run(e) => e.args != []
    case Pipe(es) => forall e :: e in es ==> e.args != []
    case ReadVar(_, source) => (source.Run? || source.Pipe? || source.Named?) && WellTyped(source)
    case InDir(_, q) => WellTyped(q)
    case SetEnv(_, _, q) => WellTyped(q)
    case AsUser(_, q) => WellTyped(q)
    case Log(_, params) => params != []
    case SetVar(_, _) => true
    case EvalFile(_, _) => true
    case Foreign(kind, params) => if kind == Template then |params| == 3 else |params| <= 1
  }

  predicate AllWellTyped(ps: seq<Promise>)
    decreases ps
  {
    ps != [] ==> WellTyped(ps[0]) && AllWellTyped(ps[1..])
  }

  lemma {:induction false} EachWellTyped(ps: seq<Promise>, p: Promise)
    requires AllWellTyped(ps) && p in ps
    ensures WellTyped(p)
    decreases ps
  {
    if p != ps[0] {
      assert p in ps[1..];
      EachWellTyped(ps[1..], p);
    }
  }

  lemma {:induction false} ExecsWellTyped(ps: seq<Promise>)
    requires AllWellTyped(ps) && ExecsOf(ps).Ok?
    ensures forall e :: e in ExecsOf(ps).value ==> e.args != []
    decreases ps
  {
    if ps != [] {
      ExecsWellTyped(ps[1..]);
    }
  }

  lemma NewWellTyped(name: string, ps: seq<Promise>, args: seq<Arg>)
    requires AllWellTyped(ps) && New(name, ps, args).Ok?
    ensures WellTyped(New(name, ps, args).value)
  {
    if name == "pipe" || name == "spipe" {
      ExecsWellTyped(ps);
    } else if |ps| == 1 {
      EachWellTyped(ps, ps[0]);
    }
  }

  lemma {:induction false} ResolveWellTyped(f: nat, tree: Tree, u: Unresolved)
    requires Resolve(f, tree, u).Ok?
    ensures WellTyped(Resolve(f, tree, u).value)
    decreases f, u
  {
    if u.name in tree {
      ResolveWellTyped(f - 1, tree, tree[u.name].children[0]);
    } else {
      ResolveAllWellTyped(f, tree, u.children);
      NewWellTyped(u.name, ResolveAll(f, tree, u.children).value, u.args);
    }
  }

  lemma {:induction false} ResolveAllWellTyped(f: nat, tree: Tree, us: seq<Unresolved>)
    requires ResolveAll(f, tree, us).Ok?
    ensures AllWellTyped(ResolveAll(f, tree, us).value)
    decreases f, us
  {
    if us != [] {
      ResolveWellTyped(f, tree, us[0]);
      ResolveAllWellTyped(f, tree, us[1..]);
      assert ResolveAll(f, tree, us).value[1..] == ResolveAll(f, tree, us[1..]).value;
    }
  }

  /** The reasons for which an argument can panic: a getter without a value, a negative position. */
  predicate ArgCan(a: Arg, why: Panic)
    decreases a
  {
    match a
    case NoArg => why == NilArgument
    case ArgGetter(i) => i < 0 && why == NegativePosition
    case Join(parts) => exists b :: b in parts && ArgCan(b, why)
    case _ => false
  }

  predicate ArgsCan(list: seq<Arg>, why: Panic) {
    exists a :: a in list && ArgCan(a, why)
  }

  predicate ExecCan(e: Exec, why: Panic) {
    (e.args == [] && why == NoCommand) || ArgsCan(e.args, why)
  }

  /** The faults that the New methods are there to exclude. */
  predicate TypeFault(why: Panic) {
    why == NoCommand || why == NoFormat
  }

  /** The reasons for which a promise can panic, read off its text. The files of an (eval) are
      not in the text, but what they define has been through the New methods too. */
  predicate Can(p: Promise, why: Panic)
    decreases p
  {
    match p
    case Named(_, body, params) => ArgsCan(params, why) || Can(body, why)
    case And(ps) => AnyCan(ps, why)
    case Or(ps) => AnyCan(ps, why)
    case Not(q) => Can(q, why)
    case True(q) => Can(q, why)
    case False(q) => Can(q, why)
    case Run(e) => why == NotStarted || ExecCan(e, why)
    case Pipe(es) =>
      (es == [] && why == EmptyPipe) || (|es| > 1 && why == NotStarted) || exists e :: e in es && ExecCan(e, why)
    case SetVar(variable, value) => why.AlreadyDefined? || ArgCan(variable, why) || ArgCan(value, why)
    case ReadVar(variable, source) => why.AlreadyDefined? || ArgCan(variable, why) || Can(source, why)
    case InDir(dir, q) => why == BadDirectory || ArgCan(dir, why) || Can(q, why)
    case SetEnv(variable, value, q) => ArgCan(variable, why) || ArgCan(value, why) || Can(q, why)
    case AsUser(user, q) => why == UnknownUser || ArgCan(user, why) || Can(q, why)
    case Log(_, params) => (params == [] && why == NoFormat) || ArgsCan(params, why)
    case EvalFile(_, _) => !TypeFault(why)
    case Foreign(_, params) => why == ForeignFailure || ArgsCan(params, why)
  }

  predicate AnyCan(ps: seq<Promise>, why: Panic)
    decreases ps
  {
    ps != [] && (Can(ps[0], why) || AnyCan(ps[1..], why))
  }

  lemma {:induction false} ArgBlame(h: Host, a: Arg, args: seq<string>, vars: Vars)
    ensures var v := GetValue(h, a, args, vars); v.Broke? ==> ArgCan(a, v.why)
    decreases a
  {
    if a.Join? {
      JoinBlame(h, a.parts, args, vars);
    }
  }

  lemma {:induction false} JoinBlame(h: Host, parts: seq<Arg>, args: seq<string>, vars: Vars)
    ensures var v := JoinValues(h, parts, args, vars); v.Broke? ==> exists b :: b in parts && ArgCan(b, v.why)
    decreases parts
  {
    if parts != [] {
      ArgBlame(h, parts[0], args, vars);
      JoinBlame(h, parts[1..], args, vars);
    }
  }

  lemma {:induction false} ArgsBlame(h: Host, list: seq<Arg>, args: seq<string>, vars: Vars)
    ensures var v := GetValues(h, list, args, vars); v.Broke? ==> ArgsCan(list, v.why)
    decreases list
  {
    if list != [] {
      ArgBlame(h, list[0], args, vars);
      ArgsBlame(h, list[1..], args, vars);
    }
  }

  lemma {:induction false} CommandsBlame(h: Host, es: seq<Exec>, args: seq<string>, sc: Scope, st: State)
    ensures var v := PrepareAll(h, es, args, sc, st); v.Broke? ==> exists e :: e in es && ExecCan(e, v.why)
    decreases es
  {
    if es != [] {
      ArgsBlame(h, es[0].args, args, st.vars);
      if Prepare(h, es[0], args, sc, st).Broke? {
        assert es[0] in es;
      }
      CommandsBlame(h, es[1..], args, sc, st);
    }
  }

  lemma PipeBlame(h: Host, es: seq<Exec>, args: seq<string>, sc: Scope, st: State)
    ensures var r := PipeStep(h, es, args, sc, st).out; r.Panicked? ==> Can(Pipe(es), r.why)
  {
    CommandsBlame(h, es, args, sc, st);
  }

  lemma {:induction false} FilePanics(h: Host, p: Promise, args: seq<string>, sc: Scope, st: State)
    requires p.EvalFile?
    ensures var r := Eval(h, p, args, sc, st).out; r.Panicked? ==> Can(p, r.why)
    decreases sc.depth, p, 0
  {
    ArgBlame(h, p.root, args, st.vars);
    ArgBlame(h, p.path, args, st.vars);
    ArgNoFault(p.root, NoCommand);
    ArgNoFault(p.root, NoFormat);
    ArgNoFault(p.path, NoCommand);
    ArgNoFault(p.path, NoFormat);
    var program := Compiled(h, p.root, p.path, args, st);
    if program.Got? && sc.depth > 0 {
      var q := RootOf(program.value);
      RootWellTyped(program.value);
      PanicsForAReason(h, q, [], EvalScope(program.value, sc), st);
      WellTypedNoFault(q, NoCommand);
      WellTypedNoFault(q, NoFormat);
    }
  }

  lemma RootWellTyped(program: Program)
    requires Compiles(program)
    ensures WellTyped(RootOf(program))
  {
    var tree := program.tree;
    ResolveWellTyped(|tree|, tree, tree[program.root].children[0]);
  }

  /** Every panic has its reason in the tree. */
  lemma {:induction false} PanicsForAReason(h: Host, p: Promise, args: seq<string>, sc: Scope, st: State)
    ensures var r := Eval(h, p, args, sc, st).out; r.Panicked? ==> Can(p, r.why)
    decreases sc.depth, p
  {
    match p
    case Named(_, body, params) =>
      var vs := GetValues(h, params, args, st.vars);
      ArgsBlame(h, params, args, st.vars);
      if vs.Got? {
        PanicsForAReason(h, body, vs.value, sc, st);
      }
    case And(ps) => AndPanics(h, ps, args, sc, st);
    case Or(ps) => OrPanics(h, ps, args, sc, st);
    case Not(q) => PanicsForAReason(h, q, args, sc, st);
    case True(q) => PanicsForAReason(h, q, args, sc, st);
    case False(q) => PanicsForAReason(h, q, args, sc, st);
    case ReadVar(variable, source) =>
      PanicsForAReason(h, source, args, sc, st);
      ArgBlame(h, variable, args, Eval(h, source, args, sc, st).st.vars);
    case InDir(_, _) => ScopedPanics(h, p, args, sc, st);
    case SetEnv(_, _, _) => ScopedPanics(h, p, args, sc, st);
    case AsUser(_, _) => ScopedPanics(h, p, args, sc, st);
    case EvalFile(_, _) => FilePanics(h, p, args, sc, st);
    case _ => LeafPanics(h, p, args, sc, st);
  }

  lemma LeafPanics(h: Host, p: Promise, args: seq<string>, sc: Scope, st: State)
    requires p.Run? || p.Pipe? || p.SetVar? || p.Log? || p.Foreign?
    ensures var r := Eval(h, p, args, sc, st).out; r.Panicked? ==> Can(p, r.why)
  {
    match p
    case Run(e) => ArgsBlame(h, e.args, args, st.vars);
    case Pipe(es) => PipeBlame(h, es, args, sc, st);
    case SetVar(variable, value) =>
      ArgBlame(h, variable, args, st.vars);
      ArgBlame(h, value, args, st.vars);
    case Log(_, params) => ArgsBlame(h, params, args, map[]);
    case Foreign(_, params) => ArgsBlame(h, params, args, st.vars);
  }

  lemma {:induction false} ScopedPanics(h: Host, p: Promise, args: seq<string>, sc: Scope, st: State)
    requires p.InDir? || p.SetEnv? || p.AsUser?
    ensures var r := Eval(h, p, args, sc, st).out; r.Panicked? ==> Can(p, r.why)
    decreases sc.depth, p, 0
  {
    var s := match p
      case InDir(dir, _) => InDirScope(h, dir, args, sc, st)
      case SetEnv(variable, value, _) => SetEnvScope(h, variable, value, args, sc, st)
      case AsUser(user, _) => AsUserScope(h, user, args, sc, st);
    match p {
      case InDir(dir, _) => ArgBlame(h, dir, args, st.vars);
      case SetEnv(variable, value, _) =>
        ArgBlame(h, variable, args, st.vars);
        ArgBlame(h, value, args, st.vars);
      case AsUser(user, _) => ArgBlame(h, user, args, st.vars);
    }
    if s.Got? {
      PanicsForAReason(h, p.child, args, s.value, st);
    }
  }

  lemma {:induction false} AndPanics(h: Host, ps: seq<Promise>, args: seq<string>, sc: Scope, st: State)
    ensures var r := EvalAnd(h, ps, args, sc, st).out; r.Panicked? ==> AnyCan(ps, r.why)
    decreases sc.depth, ps
  {
    if ps != [] {
      PanicsForAReason(h, ps[0], args, sc, st);
      AndPanics(h, ps[1..], args, sc, Eval(h, ps[0], args, sc, st).st);
    }
  }

  lemma {:induction false} OrPanics(h: Host, ps: seq<Promise>, args: seq<string>, sc: Scope, st: State)
    ensures var r := EvalOr(h, ps, args, sc, st).out; r.Panicked? ==> AnyCan(ps, r.why)
    decreases sc.depth, ps
  {
    if ps != [] {
      PanicsForAReason(h, ps[0], args, sc, st);
      OrPanics(h, ps[1..], args, sc, Eval(h, ps[0], args, sc, st).st);
    }
  }

  lemma {:induction false} ArgNoFault(a: Arg, why: Panic)
    requires TypeFault(why)
    ensures !ArgCan(a, why)
    decreases a
  {
    if a.Join? {
      forall b | b in a.parts ensures !ArgCan(b, why) {
        ArgNoFault(b, why);
      }
    }
  }

  lemma ArgsNoFault(list: seq<Arg>, why: Panic)
    requires TypeFault(why)
    ensures !ArgsCan(list, why)
  {
    forall a | a in list ensures !ArgCan(a, why) {
      ArgNoFault(a, why);
    }
  }

  /** Well-typed trees are safe from the faults that the New methods are there to exclude. */
  lemma {:induction false} WellTypedNoFault(p: Promise, why: Panic)
    requires WellTyped(p) && TypeFault(why)
    ensures !Can(p, why)
    decreases p
  {
    match p
    case Named(_, body, params) => ArgsNoFault(params, why); WellTypedNoFault(body, why);
    case And(ps) => AllNoFault(ps, why);
    case Or(ps) => AllNoFault(ps, why);
    case Not(q) => WellTypedNoFault(q, why);
    case True(q) => WellTypedNoFault(q, why);
    case False(q) => WellTypedNoFault(q, why);
    case Run(e) => ArgsNoFault(e.args, why);
    case Pipe(es) =>
      forall e | e in es ensures !ExecCan(e, why) {
        ArgsNoFault(e.args, why);
      }
    case SetVar(variable, value) => ArgNoFault(variable, why); ArgNoFault(value, why);
    case ReadVar(variable, source) => ArgNoFault(variable, why); WellTypedNoFault(source, why);
    case InDir(dir, q) => ArgNoFault(dir, why); WellTypedNoFault(q, why);
    case SetEnv(variable, value, q) =>
      ArgNoFault(variable, why);
      ArgNoFault(value, why);
      WellTypedNoFault(q, why);
    case AsUser(user, q) => ArgNoFault(user, why); WellTypedNoFault(q, why);
    case Log(_, params) => ArgsNoFault(params, why);
    case EvalFile(_, _) =>
    case Foreign(_, params) => ArgsNoFault(params, why);
  }

  lemma {:induction false} AllNoFault(ps: seq<Promise>, why: Panic)
    requires AllWellTyped(ps) && TypeFault(why)
    ensures !AnyCan(ps, why)
    decreases ps
  {
    if ps != [] {
      WellTypedNoFault(ps[0], why);
      AllNoFault(ps[1..], why);
    }
  }

  /** Soundness of loading: a promise that resolved never panics for want of a command or of a
      format, and whatever it does panic for is written in the tree. */
  lemma LoadedIsSound(f: nat, tree: Tree, u: Unresolved, h: Host, args: seq<string>, sc: Scope, st: State)
    requires Resolve(f, tree, u).Ok?
    ensures var p := Resolve(f, tree, u).value;
            var r := Eval(h, p, args, sc, st).out;
            r.Panicked? ==> Can(p, r.why) && r.why != NoCommand && r.why != NoFormat
  {
    var p := Resolve(f, tree, u).value;
    ResolveWellTyped(f, tree, u);
    PanicsForAReason(h, p, args, sc, st);
    WellTypedNoFault(p, NoCommand);
    WellTypedNoFault(p, NoFormat);
  }
}
