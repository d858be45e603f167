/**
 A second interpreter, which never builds a tree: it walks the table of definitions and
 looks every name up when it is called. Inlining the definitions first, as the program
 does, changes nothing: outcome, variables, commands, counters and panics are the same.
 */
module Inlining {
  import opened Syntax
  import opened Promises
  import opened Semantics
  import opened Resolver
  import opened ResolverTheory

  /** `Overrun`: calls nest deeper than allowed. `Stuck`: the table is malformed here. */
  datatype Walk = Overrun | Stuck | Done(res: Res)

  predicate IsExec(tree: Tree, u: Unresolved) {
    u.name !in tree && (u.name == "test" || u.name == "change") && u.children == [] && u.args != []
  }

  function ExecIn(u: Unresolved): Exec {
    Exec(if u.name == "test" then ExecTest else ExecChange, u.args)
  }

  function ExecsIn(us: seq<Unresolved>): seq<Exec> {
    if us == [] then [] else [ExecIn(us[0])] + ExecsIn(us[1..])
  }

  /** The use of a definition, without arguments. */
  function Call(k: string): Unresolved {
    Unresolved(k, [], [])
  }

  function OnDone(r: Walk, f: Res -> Res): Walk {
    if r.Done? then Done(f(r.res)) else r
  }

  /** Evaluate the use u of a promise; at most `calls` calls may nest. */
  function Interp(h: Host, calls: nat, tree: Tree, u: Unresolved, args: seq<string>, sc: Scope, st: State): Walk
    decreases sc.depth, calls, u, 0
  {
    var kids := u.children;
    if u.name in tree then
      var d := tree[u.name];
      if calls == 0 then Overrun
      else if |d.children| != 1 then Stuck
      else match GetValues(h, u.args, args, st.vars)
        case Broke(why) => Done(Res(Panicked(why), st))
        case Got(vs) => OnDone(Interp(h, calls - 1, tree, d.children[0], vs, sc, st), r => Leave(st.vars, r))
    else if u.name == "and" then
      InterpAnd(h, calls, tree, kids, args, sc, st)
    else if u.name == "or" then
      InterpOr(h, calls, tree, kids, args, sc, st)
    else if u.name == "not" && |kids| == 1 then
      OnDone(Interp(h, calls, tree, kids[0], args, sc, st), r => Negated(r))
    else if u.name == "true" && |kids| == 1 then
      OnDone(Interp(h, calls, tree, kids[0], args, sc, st), r => Forced(r, true))
    else if u.name == "false" && |kids| == 1 then
      OnDone(Interp(h, calls, tree, kids[0], args, sc, st), r => Forced(r, false))
    else if IsExec(tree, u) then
      Done(RunStep(h, ExecIn(u), args, sc, st))
    else if (u.name == "pipe" || u.name == "spipe") && forall i :: 0 <= i < |kids| ==> IsExec(tree, kids[i]) then
      Done(PipeStep(h, ExecsIn(kids), args, sc, st))
    else if u.name == "setvar" && |u.args| == 2 then
      Done(SetVarStep(h, u.args[0], u.args[1], args, st))
    else if u.name == "readvar" && |u.args| == 1 && |kids| == 1 then
      OnDone(Interp(h, calls, tree, kids[0], args, sc, st), r => ReadVarStep(h, u.args[0], args, r))
    else if u.name == "indir" && |u.args| == 1 && |kids| == 1 then
      InterpIn(h, calls, tree, kids[0], args, InDirScope(h, u.args[0], args, sc, st), st)
    else if u.name == "setenv" && |u.args| == 2 && |kids| == 1 then
      InterpIn(h, calls, tree, kids[0], args, SetEnvScope(h, u.args[0], u.args[1], args, sc, st), st)
    else if u.name == "asuser" && |u.args| == 1 && |kids| == 1 then
      InterpIn(h, calls, tree, kids[0], args, AsUserScope(h, u.args[0], args, sc, st), st)
    else if u.name == "info" then Done(LogStep(h, Info, u.args, args, st))
    else if u.name == "warn" then Done(LogStep(h, Warning, u.args, args, st))
    else if u.name == "error" then Done(LogStep(h, LogType.Error, u.args, args, st))
    else if u.name == "template" then Done(ForeignStep(h, Template, u.args, args, st))
    else if u.name == "restart" then Done(ForeignStep(h, Restart, u.args, args, st))
    else if u.name == "eval" && |u.args| == 2 then
      match Compiled(h, u.args[0], u.args[1], args, st)
      case Broke(why) => Done(Res(Panicked(why), st))
      case Got(program) =>
        if sc.depth == 0 then Done(Res(Panicked(TooDeep), st))
        else Interp(h, |program.tree| + 1, program.tree, Call(program.root), [], EvalScope(program, sc), st)
    else Stuck
  }

  /** u in the scope that an (indir), (setenv) or (asuser) around it has made. */
  function InterpIn(h: Host, calls: nat, tree: Tree, u: Unresolved, args: seq<string>, sc: Val<Scope>, st: State): Walk
    decreases if sc.Got? then sc.value.depth else 0, calls, u, 1
  {
    match sc
    case Broke(why) => Done(Res(Panicked(why), st))
    case Got(sc') => Interp(h, calls, tree, u, args, sc', st)
  }

  function InterpAnd(h: Host, calls: nat, tree: Tree, us: seq<Unresolved>, args: seq<string>, sc: Scope,
                     st: State): Walk
    decreases sc.depth, calls, us
  {
    if us == [] then Done(Res(Returned(true), st))
    else match Interp(h, calls, tree, us[0], args, sc, st)
      case Done(r) => if r.out == Returned(true) then InterpAnd(h, calls, tree, us[1..], args, sc, r.st) else Done(r)
      case stop => stop
  }

  function InterpOr(h: Host, calls: nat, tree: Tree, us: seq<Unresolved>, args: seq<string>, sc: Scope, st: State): Walk
    decreases sc.depth, calls, us
  {
    if us == [] then Done(Res(Returned(false), st))
    else match Interp(h, calls, tree, us[0], args, sc, st)
      case Done(r) => if r.out == Returned(false) then InterpOr(h, calls, tree, us[1..], args, sc, r.st) else Done(r)
      case stop => stop
  }

  /** Resolved children are the children resolved one by one. */
  lemma {:induction false} ResolvedEach(f: nat, tree: Tree, us: seq<Unresolved>, i: nat)
    requires ResolveAll(f, tree, us).Ok? && i < |us|
    ensures Resolve(f, tree, us[i]) == Ok(ResolveAll(f, tree, us).value[i])
    decreases us
  {
    if i > 0 {
      ResolvedEach(f, tree, us[1..], i - 1);
    }
  }

  /** A promise that resolves to a command is a command on its face. */
  lemma ExecOnItsFace(f: nat, tree: Tree, u: Unresolved)
    requires Resolve(f, tree, u).Ok? && Resolve(f, tree, u).value.Run?
    ensures IsExec(tree, u) && Resolve(f, tree, u).value == Run(ExecIn(u))
  {
    ResolvedIsGood(f, tree, u);
    var ps := ResolveAll(f, tree, u.children).value;
    NewFits(u.name, ps, u.args);
  }

  lemma {:induction false} ExecsOnTheirFace(f: nat, tree: Tree, us: seq<Unresolved>)
    requires ResolveAll(f, tree, us).Ok? && ExecsOf(ResolveAll(f, tree, us).value).Ok?
    ensures ExecsOf(ResolveAll(f, tree, us).value).value == ExecsIn(us)
    ensures forall i :: 0 <= i < |us| ==> IsExec(tree, us[i])
    decreases us
  {
    if us != [] {
      var ps := ResolveAll(f, tree, us).value;
      assert ps[1..] == ResolveAll(f, tree, us[1..]).value;
      ExecOnItsFace(f, tree, us[0]);
      ExecsOnTheirFace(f, tree, us[1..]);
      forall i | 0 <= i < |us| ensures IsExec(tree, us[i]) {
        if i > 0 {
          assert us[i] == us[1..][i - 1];
        }
      }
    }
  }

  /** Inlining preserves meaning: if u resolves within f levels of reference, then looking
      names up as they are called gives what evaluating the resolved tree gives. */
  lemma {:induction false} InliningPreserves(h: Host, f: nat, tree: Tree, u: Unresolved, args: seq<string>,
                                             sc: Scope, st: State)
    requires Resolve(f, tree, u).Ok?
    ensures Interp(h, f, tree, u, args, sc, st) == Done(Eval(h, Resolve(f, tree, u).value, args, sc, st))
    decreases sc.depth, f, u
  {
    if u.name in tree {
      CallPreserves(h, f, tree, u, args, sc, st);
    } else if u.name in {"and", "or"} {
      ChainPreserves(h, f, tree, u, args, sc, st);
    } else if u.name in {"not", "true", "false"} {
      WrapPreserves(h, f, tree, u, args, sc, st);
    } else if u.name == "readvar" {
      ReadVarPreserves(h, f, tree, u, args, sc, st);
    } else if u.name == "indir" {
      InDirPreserves(h, f, tree, u, args, sc, st);
    } else if u.name == "setenv" {
      SetEnvPreserves(h, f, tree, u, args, sc, st);
    } else if u.name == "asuser" {
      AsUserPreserves(h, f, tree, u, args, sc, st);
    } else if u.name == "eval" {
      FilePreserves(h, f, tree, u, args, sc, st);
    } else if u.name in {"test", "change", "pipe", "spipe"} {
      CommandPreserves(h, f, tree, u, args, sc, st);
    } else {
      LeafPreserves(h, f, tree, u, args, sc, st);
    }
  }

  lemma {:induction false} CommandPreserves(h: Host, f: nat, tree: Tree, u: Unresolved, args: seq<string>,
                                            sc: Scope, st: State)
    requires Resolve(f, tree, u).Ok? && u.name !in tree && u.name in {"test", "change", "pipe", "spipe"}
    ensures Interp(h, f, tree, u, args, sc, st) == Done(Eval(h, Resolve(f, tree, u).value, args, sc, st))
  {
    if u.name in {"pipe", "spipe"} {
      ExecsOnTheirFace(f, tree, u.children);
    } else {
      ExecOnItsFace(f, tree, u);
    }
  }

  lemma {:induction false} LeafPreserves(h: Host, f: nat, tree: Tree, u: Unresolved, args: seq<string>, sc: Scope,
                                         st: State)
    requires Resolve(f, tree, u).Ok? && u.name !in tree &&
             !(u.name in {"and", "or", "not", "true", "false", "readvar", "indir", "setenv", "asuser", "eval",
                          "test", "change", "pipe", "spipe"})
    ensures Interp(h, f, tree, u, args, sc, st) == Done(Eval(h, Resolve(f, tree, u).value, args, sc, st))
  {
    NewFits(u.name, ResolveAll(f, tree, u.children).value, u.args);
  }

  lemma {:induction false} WrapPreserves(h: Host, f: nat, tree: Tree, u: Unresolved, args: seq<string>, sc: Scope,
                                         st: State)
    requires Resolve(f, tree, u).Ok? && u.name !in tree && u.name in {"not", "true", "false"}
    ensures Interp(h, f, tree, u, args, sc, st) == Done(Eval(h, Resolve(f, tree, u).value, args, sc, st))
    decreases sc.depth, f, u, 0
  {
    var q := OnlyChild(f, tree, u);
    InliningPreserves(h, f, tree, u.children[0], args, sc, st);
    InterpWrap(h, f, tree, u, q, args, sc, st);
  }

  lemma InterpWrap(h: Host, f: nat, tree: Tree, u: Unresolved, q: Promise, args: seq<string>, sc: Scope, st: State)
    requires u.name !in tree && u.name in {"not", "true", "false"} && |u.children| == 1
    requires Interp(h, f, tree, u.children[0], args, sc, st) == Done(Eval(h, q, args, sc, st))
    ensures var p := if u.name == "not" then Not(q) else if u.name == "true" then True(q) else False(q);
            Interp(h, f, tree, u, args, sc, st) == Done(Eval(h, p, args, sc, st))
  {
  }

  lemma {:induction false} ReadVarPreserves(h: Host, f: nat, tree: Tree, u: Unresolved, args: seq<string>,
                                            sc: Scope, st: State)
    requires Resolve(f, tree, u).Ok? && u.name !in tree && u.name == "readvar"
    ensures Interp(h, f, tree, u, args, sc, st) == Done(Eval(h, Resolve(f, tree, u).value, args, sc, st))
    decreases sc.depth, f, u, 0
  {
    var q := OnlyChild(f, tree, u);
    InliningPreserves(h, f, tree, u.children[0], args, sc, st);
    InterpReadVar(h, f, tree, u, q, args, sc, st);
  }

  /** The child of a promise that takes exactly one, and what the two resolve to. */
  lemma OnlyChild(f: nat, tree: Tree, u: Unresolved) returns (q: Promise)
    requires Resolve(f, tree, u).Ok? && u.name !in tree
    requires u.name in {"not", "true", "false", "readvar", "indir", "setenv", "asuser"}
    ensures |u.children| == 1 && Resolve(f, tree, u.children[0]) == Ok(q)
    ensures Fits(u.name, SortsOfPromises([q]), |u.args|) && New(u.name, [q], u.args) == Resolve(f, tree, u)
  {
    var ps := ResolveAll(f, tree, u.children).value;
    NewFits(u.name, ps, u.args);
    ResolvedEach(f, tree, u.children, 0);
    q := ps[0];
    assert ps == [q];
  }

  lemma InterpReadVar(h: Host, f: nat, tree: Tree, u: Unresolved, q: Promise, args: seq<string>, sc: Scope, st: State)
    requires u.name !in tree && u.name == "readvar" && |u.args| == 1 && |u.children| == 1
    requires Interp(h, f, tree, u.children[0], args, sc, st) == Done(Eval(h, q, args, sc, st))
    ensures Interp(h, f, tree, u, args, sc, st) == Done(Eval(h, ReadVar(u.args[0], q), args, sc, st))
  {
  }

  lemma {:induction false} ChainPreserves(h: Host, f: nat, tree: Tree, u: Unresolved, args: seq<string>, sc: Scope,
                                          st: State)
    requires Resolve(f, tree, u).Ok? && u.name !in tree && u.name in {"and", "or"}
    ensures Interp(h, f, tree, u, args, sc, st) == Done(Eval(h, Resolve(f, tree, u).value, args, sc, st))
    decreases sc.depth, f, u, 0
  {
    NewFits(u.name, ResolveAll(f, tree, u.children).value, u.args);
    AndPreserves(h, f, tree, u.children, args, sc, st);
    OrPreserves(h, f, tree, u.children, args, sc, st);
  }

  lemma {:induction false} CallPreserves(h: Host, f: nat, tree: Tree, u: Unresolved, args: seq<string>, sc: Scope,
                                         st: State)
    requires Resolve(f, tree, u).Ok? && u.name in tree
    ensures Interp(h, f, tree, u, args, sc, st) == Done(Eval(h, Resolve(f, tree, u).value, args, sc, st))
    decreases sc.depth, f, u, 0
  {
    var vs := GetValues(h, u.args, args, st.vars);
    if vs.Got? {
      InliningPreserves(h, f - 1, tree, tree[u.name].children[0], vs.value, sc, st);
    }
  }

  lemma {:induction false} InDirPreserves(h: Host, f: nat, tree: Tree, u: Unresolved, args: seq<string>, sc: Scope,
                                          st: State)
    requires Resolve(f, tree, u).Ok? && u.name !in tree && u.name == "indir"
    ensures Interp(h, f, tree, u, args, sc, st) == Done(Eval(h, Resolve(f, tree, u).value, args, sc, st))
    decreases sc.depth, f, u, 0
  {
    var q := OnlyChild(f, tree, u);
    var s := InDirScope(h, u.args[0], args, sc, st);
    if s.Got? {
      InliningPreserves(h, f, tree, u.children[0], args, s.value, st);
    }
    InterpInDir(h, f, tree, u, q, args, sc, st);
  }

  lemma InterpInDir(h: Host, f: nat, tree: Tree, u: Unresolved, q: Promise, args: seq<string>, sc: Scope, st: State)
    requires u.name !in tree && u.name == "indir" && |u.args| == 1 && |u.children| == 1
    requires var s := InDirScope(h, u.args[0], args, sc, st);
             s.Got? ==> Interp(h, f, tree, u.children[0], args, s.value, st) == Done(Eval(h, q, args, s.value, st))
    ensures Interp(h, f, tree, u, args, sc, st) == Done(Eval(h, InDir(u.args[0], q), args, sc, st))
  {
  }

  lemma {:induction false} SetEnvPreserves(h: Host, f: nat, tree: Tree, u: Unresolved, args: seq<string>, sc: Scope,
                                           st: State)
    requires Resolve(f, tree, u).Ok? && u.name !in tree && u.name == "setenv"
    ensures Interp(h, f, tree, u, args, sc, st) == Done(Eval(h, Resolve(f, tree, u).value, args, sc, st))
    decreases sc.depth, f, u, 0
  {
    var q := OnlyChild(f, tree, u);
    var s := SetEnvScope(h, u.args[0], u.args[1], args, sc, st);
    if s.Got? {
      InliningPreserves(h, f, tree, u.children[0], args, s.value, st);
    }
    InterpSetEnv(h, f, tree, u, q, args, sc, st);
  }

  lemma InterpSetEnv(h: Host, f: nat, tree: Tree, u: Unresolved, q: Promise, args: seq<string>, sc: Scope, st: State)
    requires u.name !in tree && u.name == "setenv" && |u.args| == 2 && |u.children| == 1
    requires var s := SetEnvScope(h, u.args[0], u.args[1], args, sc, st);
             s.Got? ==> Interp(h, f, tree, u.children[0], args, s.value, st) == Done(Eval(h, q, args, s.value, st))
    ensures Interp(h, f, tree, u, args, sc, st) == Done(Eval(h, SetEnv(u.args[0], u.args[1], q), args, sc, st))
  {
  }

  lemma {:induction false} AsUserPreserves(h: Host, f: nat, tree: Tree, u: Unresolved, args: seq<string>, sc: Scope,
                                           st: State)
    requires Resolve(f, tree, u).Ok? && u.name !in tree && u.name == "asuser"
    ensures Interp(h, f, tree, u, args, sc, st) == Done(Eval(h, Resolve(f, tree, u).value, args, sc, st))
    decreases sc.depth, f, u, 0
  {
    var q := OnlyChild(f, tree, u);
    var s := AsUserScope(h, u.args[0], args, sc, st);
    if s.Got? {
      InliningPreserves(h, f, tree, u.children[0], args, s.value, st);
    }
    InterpAsUser(h, f, tree, u, q, args, sc, st);
  }

  lemma InterpAsUser(h: Host, f: nat, tree: Tree, u: Unresolved, q: Promise, args: seq<string>, sc: Scope, st: State)
    requires u.name !in tree && u.name == "asuser" && |u.args| == 1 && |u.children| == 1
    requires var s := AsUserScope(h, u.args[0], args, sc, st);
             s.Got? ==> Interp(h, f, tree, u.children[0], args, s.value, st) == Done(Eval(h, q, args, s.value, st))
    ensures Interp(h, f, tree, u, args, sc, st) == Done(Eval(h, AsUser(u.args[0], q), args, sc, st))
  {
  }

  /** What an (eval) runs is a program of its own, with a table of its own. */
  lemma {:induction false} FilePreserves(h: Host, f: nat, tree: Tree, u: Unresolved, args: seq<string>, sc: Scope,
                                         st: State)
    requires Resolve(f, tree, u).Ok? && u.name !in tree && u.name == "eval"
    ensures Interp(h, f, tree, u, args, sc, st) == Done(Eval(h, Resolve(f, tree, u).value, args, sc, st))
    decreases sc.depth, f, u, 0
  {
    FileShape(f, tree, u);
    var program := Compiled(h, u.args[0], u.args[1], args, st);
    if program.Got? && sc.depth > 0 {
      LoadedMeansTable(h, program.value.tree, program.value.root, EvalScope(program.value, sc), st);
    }
    InterpFile(h, f, tree, u, args, sc, st);
  }

  lemma FileShape(f: nat, tree: Tree, u: Unresolved)
    requires Resolve(f, tree, u).Ok? && u.name !in tree && u.name == "eval"
    ensures |u.args| == 2 && Resolve(f, tree, u) == Ok(EvalFile(u.args[0], u.args[1]))
  {
    NewFits(u.name, ResolveAll(f, tree, u.children).value, u.args);
  }

  lemma InterpFile(h: Host, f: nat, tree: Tree, u: Unresolved, args: seq<string>, sc: Scope, st: State)
    requires u.name !in tree && u.name == "eval" && |u.args| == 2
    requires var program := Compiled(h, u.args[0], u.args[1], args, st);
             program.Got? && sc.depth > 0 ==>
               var t, k, inner := program.value.tree, program.value.root, EvalScope(program.value, sc);
               Interp(h, |t| + 1, t, Call(k), [], inner, st) == Done(Eval(h, RootOf(program.value), [], inner, st))
    ensures Interp(h, f, tree, u, args, sc, st) == Done(Eval(h, EvalFile(u.args[0], u.args[1]), args, sc, st))
  {
  }

  lemma {:induction false} AndPreserves(h: Host, f: nat, tree: Tree, us: seq<Unresolved>, args: seq<string>,
                                        sc: Scope, st: State)
    requires ResolveAll(f, tree, us).Ok?
    ensures InterpAnd(h, f, tree, us, args, sc, st) == Done(EvalAnd(h, ResolveAll(f, tree, us).value, args, sc, st))
    decreases sc.depth, f, us
  {
    if us != [] {
      var ps := ResolveAll(f, tree, us).value;
      assert ps[1..] == ResolveAll(f, tree, us[1..]).value;
      InliningPreserves(h, f, tree, us[0], args, sc, st);
      var r := Eval(h, ps[0], args, sc, st);
      if r.out == Returned(true) {
        AndPreserves(h, f, tree, us[1..], args, sc, r.st);
      }
    }
  }

  lemma {:induction false} OrPreserves(h: Host, f: nat, tree: Tree, us: seq<Unresolved>, args: seq<string>,
                                       sc: Scope, st: State)
    requires ResolveAll(f, tree, us).Ok?
    ensures InterpOr(h, f, tree, us, args, sc, st) == Done(EvalOr(h, ResolveAll(f, tree, us).value, args, sc, st))
    decreases sc.depth, f, us
  {
    if us != [] {
      var ps := ResolveAll(f, tree, us).value;
      assert ps[1..] == ResolveAll(f, tree, us[1..]).value;
      InliningPreserves(h, f, tree, us[0], args, sc, st);
      var r := Eval(h, ps[0], args, sc, st);
      if r.out == Returned(false) {
        OrPreserves(h, f, tree, us[1..], args, sc, r.st);
      }
    }
  }

  /** For a loaded program: calling the definition k by name, with the bound on nested calls
      that every program that loads stays within, is evaluating the promise k loaded to. */
  lemma {:induction false} LoadedMeansTable(h: Host, tree: Tree, k: string, sc: Scope, st: State)
    requires Resolves(|tree|, tree) && k in tree
    ensures Interp(h, |tree| + 1, tree, Call(k), [], sc, st) ==
            Done(Eval(h, ResolvePrimary(|tree|, tree, tree[k]).value, [], sc, st))
    decreases sc.depth, |tree|, tree[k].children, 1
  {
    InliningPreserves(h, |tree|, tree, tree[k].children[0], [], sc, st);
  }
}
