/**
 When resolution ends, and when it succeeds: the table resolves exactly when its references
 have no cycle and every definition is well formed on its own.
 */
module ResolverTheory {
  import opened Syntax
  import opened Promises
  import opened Resolver

  /** The definitions that resolving u looks up. */
  function Refs(tree: Tree, u: Unresolved): set<string>
    decreases u
  {
    if u.name in tree then {u.name} else RefsAll(tree, u.children)
  }

  function RefsAll(tree: Tree, us: seq<Unresolved>): set<string>
    decreases us
  {
    if us == [] then {} else Refs(tree, us[0]) + RefsAll(tree, us[1..])
  }

  /** Definition a uses definition b. */
  predicate Uses(tree: Tree, a: string, b: string) {
    a in tree && |tree[a].children| == 1 && b in Refs(tree, tree[a].children[0])
  }

  /** A chain of definitions, each using the next. */
  predicate Chain(tree: Tree, p: seq<string>) {
    p != [] && (forall i :: 0 <= i < |p| ==> p[i] in tree) &&
    forall i :: 0 <= i < |p| - 1 ==> Uses(tree, p[i], p[i + 1])
  }

  predicate Cycle(tree: Tree, p: seq<string>) {
    |p| > 1 && Chain(tree, p) && p[0] == p[|p| - 1]
  }

  ghost predicate Acyclic(tree: Tree) {
    forall p :: !Cycle(tree, p)
  }

  /** What sort of promise a use turns into, as far as its name tells. */
  datatype Sort = IsNamed | IsRun | IsPipe | IsOther

  function SortOf(tree: Tree, u: Unresolved): Sort {
    if u.name in tree then IsNamed
    else if u.name == "test" || u.name == "change" then IsRun
    else if u.name == "pipe" || u.name == "spipe" then IsPipe
    else IsOther
  }

  function SortsOf(tree: Tree, us: seq<Unresolved>): seq<Sort> {
    seq(|us|, i requires 0 <= i < |us| => SortOf(tree, us[i]))
  }

  function SortOfPromise(p: Promise): Sort {
    if p.Named? then IsNamed else if p.Run? then IsRun else if p.Pipe? then IsPipe else IsOther
  }

  function SortsOfPromises(ps: seq<Promise>): seq<Sort> {
    seq(|ps|, i requires 0 <= i < |ps| => SortOfPromise(ps[i]))
  }

  /** The builtin table: how many nested promises and arguments each takes, and of what sort. */
  predicate Fits(name: string, sorts: seq<Sort>, nargs: nat) {
    if name == "or" || name == "and" then |sorts| >= 2 && nargs == 0
    else if name == "not" || name == "true" || name == "false" then |sorts| == 1 && nargs == 0
    else if name == "test" || name == "change" then |sorts| == 0 && nargs >= 1
    else if name == "error" || name == "warn" || name == "info" then |sorts| == 0 && nargs >= 1
    else if name == "indir" || name == "asuser" then |sorts| == 1 && nargs == 1
    else if name == "setenv" then |sorts| == 1 && nargs == 2
    else if name == "setvar" then nargs == 2
    else if name == "template" then nargs == 3
    else if name == "pipe" || name == "spipe" then nargs == 0 && forall i :: 0 <= i < |sorts| ==> sorts[i] == IsRun
    else if name == "readvar" then nargs == 1 && |sorts| == 1 && sorts[0] != IsOther
    else if name == "restart" then |sorts| == 0 && nargs <= 1
    else name == "eval" && |sorts| == 0 && nargs == 2
  }

  /** Everything in u outside references is a builtin that fits. */
  predicate LocallyGood(tree: Tree, u: Unresolved)
    decreases u
  {
    u.name in tree ||
    (LocallyGoodAll(tree, u.children) && Fits(u.name, SortsOf(tree, u.children), |u.args|))
  }

  predicate LocallyGoodAll(tree: Tree, us: seq<Unresolved>)
    decreases us
  {
    us != [] ==> LocallyGood(tree, us[0]) && LocallyGoodAll(tree, us[1..])
  }

  predicate GoodDefinition(tree: Tree, k: string)
    requires k in tree
  {
    |tree[k].children| == 1 && LocallyGood(tree, tree[k].children[0])
  }

  lemma {:induction false} ExecsOfRuns(ps: seq<Promise>)
    ensures ExecsOf(ps).Ok? <==> forall i :: 0 <= i < |ps| ==> ps[i].Run?
    ensures ExecsOf(ps) != Deep
  {
    if ps != [] {
      ExecsOfRuns(ps[1..]);
      assert forall i :: 0 <= i < |ps[1..]| ==> ps[1..][i] == ps[i + 1];
      assert (forall i :: 0 <= i < |ps| ==> ps[i].Run?) ==> forall i :: 0 <= i < |ps[1..]| ==> ps[1..][i].Run?;
    }
  }

  /** New accepts exactly what the builtin table says, and makes a promise of the sort the name says. */
  lemma NewFits(name: string, ps: seq<Promise>, args: seq<Arg>)
    ensures New(name, ps, args) != Deep
    ensures New(name, ps, args).Ok? <==> Fits(name, SortsOfPromises(ps), |args|)
    ensures New(name, ps, args).Ok? ==>
              SortOfPromise(New(name, ps, args).value) ==
              if name == "test" || name == "change" then IsRun
              else if name == "pipe" || name == "spipe" then IsPipe else IsOther
  {
    ExecsOfRuns(ps);
    assert forall i :: 0 <= i < |ps| ==> (ps[i].Run? <==> SortsOfPromises(ps)[i] == IsRun);
  }

  /** The names of the builtin table are those that are found. */
  lemma FoundIffBuiltin(name: string, ps: seq<Promise>, args: seq<Arg>)
    ensures New(name, ps, args) == Err(NotFound) <==> name !in BUILTINS
  {
    ExecsOfRuns(ps);
    ExecsFail(ps);
  }

  lemma {:induction false} ExecsFail(ps: seq<Promise>)
    ensures ExecsOf(ps).Err? ==> ExecsOf(ps).reason == BadBuiltin
    decreases |ps|
  {
    if ps != [] {
      ExecsFail(ps[1..]);
    }
  }

  /** More fuel does not change a result. */
  lemma {:induction false} Monotone(f: nat, g: nat, tree: Tree, u: Unresolved)
    requires f <= g && Resolve(f, tree, u) != Deep
    ensures Resolve(g, tree, u) == Resolve(f, tree, u)
    decreases f, u
  {
    if u.name in tree {
      MonotonePrimary(f - 1, g - 1, tree, tree[u.name]);
    } else {
      MonotoneAll(f, g, tree, u.children);
    }
  }

  lemma {:induction false} MonotoneAll(f: nat, g: nat, tree: Tree, us: seq<Unresolved>)
    requires f <= g && ResolveAll(f, tree, us) != Deep
    ensures ResolveAll(g, tree, us) == ResolveAll(f, tree, us)
    decreases f, us
  {
    if us != [] {
      Monotone(f, g, tree, us[0]);
      if Resolve(f, tree, us[0]).Ok? {
        MonotoneAll(f, g, tree, us[1..]);
      }
    }
  }

  lemma {:induction false} MonotonePrimary(f: nat, g: nat, tree: Tree, d: Unresolved)
    requires f <= g && ResolvePrimary(f, tree, d) != Deep
    ensures ResolvePrimary(g, tree, d) == ResolvePrimary(f, tree, d)
    decreases f, d, 0
  {
    if |d.children| == 1 {
      Monotone(f, g, tree, d.children[0]);
    }
  }

  /** Definition k needs more than f nested references, if it ends at all. */
  predicate DeepAt(tree: Tree, k: string, f: nat) {
    k in tree && ResolvePrimary(f, tree, tree[k]) == Deep
  }

  /** If u needs exactly f levels, some definition it looks up needs exactly f - 1. */
  lemma {:induction false} Sharpest(f: nat, tree: Tree, u: Unresolved) returns (k: string)
    requires Resolve(f, tree, u) == Deep && Resolve(f + 1, tree, u) != Deep
    ensures k in Refs(tree, u) && k in tree && !DeepAt(tree, k, f) && (f > 0 ==> DeepAt(tree, k, f - 1))
    decreases u
  {
    if u.name in tree {
      k := u.name;
    } else {
      var r := ResolveAll(f, tree, u.children);
      if r.Ok? {
        NewFits(u.name, r.value, u.args);
      }
      k := SharpestOf(f, tree, u.children);
    }
  }

  lemma {:induction false} SharpestOf(f: nat, tree: Tree, us: seq<Unresolved>) returns (k: string)
    requires ResolveAll(f, tree, us) == Deep && ResolveAll(f + 1, tree, us) != Deep
    ensures k in RefsAll(tree, us) && k in tree && !DeepAt(tree, k, f) && (f > 0 ==> DeepAt(tree, k, f - 1))
    decreases us
  {
    if Resolve(f, tree, us[0]) == Deep {
      k := Sharpest(f, tree, us[0]);
    } else {
      Monotone(f, f + 1, tree, us[0]);
      k := SharpestOf(f, tree, us[1..]);
    }
  }

  lemma {:induction false} SharpestPrimary(f: nat, tree: Tree, d: Unresolved) returns (k: string)
    requires ResolvePrimary(f, tree, d) == Deep && ResolvePrimary(f + 1, tree, d) != Deep
    ensures |d.children| == 1 && k in Refs(tree, d.children[0]) && k in tree
    ensures !DeepAt(tree, k, f) && (f > 0 ==> DeepAt(tree, k, f - 1))
  {
    k := Sharpest(f, tree, d.children[0]);
  }

  /** A definition that needs exactly f + 1 levels has f + 1 different definitions below it. */
  lemma {:induction false} ManyBelow(f: nat, tree: Tree, k: string) returns (below: set<string>)
    requires DeepAt(tree, k, f) && ResolvePrimary(f + 1, tree, tree[k]) != Deep
    ensures below <= tree.Keys && |below| == f + 1 && forall b :: b in below ==> !DeepAt(tree, b, f)
    decreases f
  {
    var m := SharpestPrimary(f, tree, tree[k]);
    if f == 0 {
      below := {m};
    } else {
      var rest := ManyBelow(f - 1, tree, m);
      forall b | b in rest ensures !DeepAt(tree, b, f) {
        MonotonePrimary(f - 1, f, tree, tree[b]);
      }
      assert m !in rest;
      below := rest + {m};
    }
  }

  /** The fuel bound is exact: what has not ended after as many nested references as there
      are definitions never ends. */
  lemma {:induction false} DeepForEver(tree: Tree, k: string, f: nat)
    requires DeepAt(tree, k, |tree|)
    ensures DeepAt(tree, k, f)
    decreases f
  {
    if f > |tree| {
      DeepForEver(tree, k, f - 1);
      assert |tree.Keys| == |tree|;
      if !DeepAt(tree, k, f) {
        var below := ManyBelow(f - 1, tree, k);
        SubsetSize(below, tree.Keys);
      }
    } else if !DeepAt(tree, k, f) {
      MonotonePrimary(f, |tree|, tree, tree[k]);
    }
  }

  lemma {:induction false} SubsetSize<T>(a: set<T>, b: set<T>)
    requires a <= b
    ensures |a| <= |b|
  {
    if a != {} {
      var x :| x in a;
      SubsetSize(a - {x}, b - {x});
    }
  }

  /** Without cycles, the references taken so far are all different, so there is an end to them. */
  lemma {:induction false} EndsBelow(tree: Tree, fuel: nat, u: Unresolved, trail: seq<string>)
    requires Acyclic(tree) && fuel + |trail| >= |tree|
    requires trail == [] ||
             (Chain(tree, trail) && forall r :: r in Refs(tree, u) && r in tree ==> Uses(tree, trail[|trail| - 1], r))
    ensures Resolve(fuel, tree, u) != Deep
    decreases fuel, u
  {
    if u.name in tree {
      var trail' := trail + [u.name];
      assert Chain(tree, trail');
      ChainIsShort(tree, trail');
      var d := tree[u.name];
      if |d.children| == 1 {
        EndsBelow(tree, fuel - 1, d.children[0], trail');
      }
    } else {
      EndsBelowAll(tree, fuel, u.children, trail);
      if ResolveAll(fuel, tree, u.children).Ok? {
        NewFits(u.name, ResolveAll(fuel, tree, u.children).value, u.args);
      }
    }
  }

  lemma {:induction false} EndsBelowAll(tree: Tree, fuel: nat, us: seq<Unresolved>, trail: seq<string>)
    requires Acyclic(tree) && fuel + |trail| >= |tree|
    requires trail == [] ||
             (Chain(tree, trail) &&
              forall r :: r in RefsAll(tree, us) && r in tree ==> Uses(tree, trail[|trail| - 1], r))
    ensures ResolveAll(fuel, tree, us) != Deep
    decreases fuel, us
  {
    if us != [] {
      EndsBelow(tree, fuel, us[0], trail);
      EndsBelowAll(tree, fuel, us[1..], trail);
    }
  }

  lemma ChainIsShort(tree: Tree, p: seq<string>)
    requires Acyclic(tree) && Chain(tree, p)
    ensures |p| <= |tree|
  {
    forall i, j | 0 <= i < j < |p| ensures p[i] != p[j] {
      if p[i] == p[j] {
        assert Cycle(tree, p[i..j + 1]);
      }
    }
    var names := DistinctSize(p);
    SubsetSize(names, tree.Keys);
    assert |tree.Keys| == |tree|;
  }

  lemma {:induction false} DistinctSize(p: seq<string>) returns (s: set<string>)
    requires forall i, j :: 0 <= i < j < |p| ==> p[i] != p[j]
    ensures |s| == |p| && forall x :: x in s <==> x in p
  {
    if p == [] {
      s := {};
    } else {
      var r := DistinctSize(p[1..]);
      assert p[0] !in r;
      assert forall x :: x in p <==> x == p[0] || x in p[1..];
      s := r + {p[0]};
    }
  }

  /** A use that resolves turns into the sort of promise its name says, is locally good, and
      everything it looks up resolves with one level less. */
  lemma {:induction false} ResolvedIsGood(f: nat, tree: Tree, u: Unresolved)
    requires Resolve(f, tree, u).Ok?
    ensures SortOfPromise(Resolve(f, tree, u).value) == SortOf(tree, u) && LocallyGood(tree, u)
    ensures forall r :: r in Refs(tree, u) && r in tree ==> f > 0 && ResolvePrimary(f - 1, tree, tree[r]).Ok?
    decreases u
  {
    if u.name !in tree {
      var ps := ResolveAll(f, tree, u.children).value;
      ResolvedAreGood(f, tree, u.children);
      NewFits(u.name, ps, u.args);
      assert SortsOfPromises(ps) == SortsOf(tree, u.children);
    }
  }

  lemma {:induction false} ResolvedAreGood(f: nat, tree: Tree, us: seq<Unresolved>)
    requires ResolveAll(f, tree, us).Ok?
    ensures LocallyGoodAll(tree, us) && SortsOfPromises(ResolveAll(f, tree, us).value) == SortsOf(tree, us)
    ensures forall r :: r in RefsAll(tree, us) && r in tree ==> f > 0 && ResolvePrimary(f - 1, tree, tree[r]).Ok?
    decreases us
  {
    if us != [] {
      ResolvedIsGood(f, tree, us[0]);
      ResolvedAreGood(f, tree, us[1..]);
      var ps := ResolveAll(f, tree, us).value;
      assert ps[1..] == ResolveAll(f, tree, us[1..]).value;
      forall i | 0 <= i < |us| ensures SortOfPromise(ps[i]) == SortOf(tree, us[i]) {
        if i > 0 {
          assert SortsOfPromises(ps[1..])[i - 1] == SortsOf(tree, us[1..])[i - 1];
        }
      }
    }
  }

  /** Locally good definitions cannot fail; they can only be too deep. */
  lemma {:induction false} GoodNeverFails(f: nat, tree: Tree, u: Unresolved)
    requires (forall k :: k in tree ==> GoodDefinition(tree, k)) && LocallyGood(tree, u)
    ensures !Resolve(f, tree, u).Err?
    decreases f, u
  {
    if u.name in tree {
      if f > 0 {
        assert GoodDefinition(tree, u.name);
        GoodNeverFails(f - 1, tree, tree[u.name].children[0]);
      }
    } else {
      GoodNeverFailsAll(f, tree, u.children);
      var r := ResolveAll(f, tree, u.children);
      if r.Ok? {
        ResolvedAreGood(f, tree, u.children);
        NewFits(u.name, r.value, u.args);
      }
    }
  }

  lemma {:induction false} GoodNeverFailsAll(f: nat, tree: Tree, us: seq<Unresolved>)
    requires (forall k :: k in tree ==> GoodDefinition(tree, k)) && LocallyGoodAll(tree, us)
    ensures !ResolveAll(f, tree, us).Err?
    decreases f, us
  {
    if us != [] {
      GoodNeverFails(f, tree, us[0]);
      GoodNeverFailsAll(f, tree, us[1..]);
    }
  }

  /** A chain cannot be longer than the levels its first definition resolves with. */
  lemma {:induction false} ChainWithin(f: nat, tree: Tree, p: seq<string>)
    requires Chain(tree, p) && ResolvePrimary(f, tree, tree[p[0]]).Ok?
    ensures f + 1 >= |p| && ResolvePrimary(f + 1 - |p|, tree, tree[p[|p| - 1]]).Ok?
    decreases |p|
  {
    if |p| > 1 {
      assert Uses(tree, p[0], p[1]);
      ResolvedIsGood(f, tree, tree[p[0]].children[0]);
      assert Chain(tree, p[1..]) by {
        assert forall i :: 0 <= i < |p| - 1 ==> p[1..][i] == p[i + 1];
      }
      ChainWithin(f - 1, tree, p[1..]);
    }
  }

  lemma {:induction false} NoCycle(f: nat, tree: Tree, p: seq<string>)
    requires Cycle(tree, p) && ResolvePrimary(f, tree, tree[p[0]]).Ok?
    ensures false
    decreases f
  {
    ChainWithin(f, tree, p);
    NoCycle(f + 1 - |p|, tree, p);
  }

  /** The main result: a table resolves, with any bound or without one, exactly when its
      references have no cycle and every definition is well formed on its own. */
  lemma ResolvesIff(tree: Tree)
    ensures Resolves(|tree|, tree) <==> Acyclic(tree) && forall k :: k in tree ==> GoodDefinition(tree, k)
    ensures forall f :: Resolves(f, tree) ==> Resolves(|tree|, tree)
  {
    forall f: nat | Resolves(f, tree)
      ensures Acyclic(tree) && forall k :: k in tree ==> GoodDefinition(tree, k)
    {
      forall k | k in tree ensures GoodDefinition(tree, k) {
        ResolvedIsGood(f, tree, tree[k].children[0]);
      }
      forall p | Cycle(tree, p) ensures false {
        NoCycle(f, tree, p);
      }
    }
    if Acyclic(tree) && forall k :: k in tree ==> GoodDefinition(tree, k) {
      forall k | k in tree ensures ResolvePrimary(|tree|, tree, tree[k]).Ok? {
        assert GoodDefinition(tree, k);
        EndsBelow(tree, |tree|, tree[k].children[0], []);
        GoodNeverFails(|tree|, tree, tree[k].children[0]);
      }
    }
  }

  /** Acyclic tables always end, in a tree or in an error. */
  lemma AcyclicEnds(tree: Tree, u: Unresolved)
    requires Acyclic(tree)
    ensures Resolve(|tree|, tree, u) != Deep
  {
    EndsBelow(tree, |tree|, u, []);
  }

  /** The definitions that resolving u gets to look up: uses behind one that does not resolve
      are not looked at. */
  function Reached(tree: Tree, u: Unresolved): set<string>
    decreases u
  {
    if u.name in tree then {u.name} else ReachedAll(tree, u.children)
  }

  function ReachedAll(tree: Tree, us: seq<Unresolved>): set<string>
    decreases us
  {
    if us == [] then {}
    else Reached(tree, us[0]) + if Resolve(|tree|, tree, us[0]).Ok? then ReachedAll(tree, us[1..]) else {}
  }

  /** Resolving definition a gets to definition b. */
  predicate Follows(tree: Tree, a: string, b: string) {
    a in tree && b in tree && |tree[a].children| == 1 && b in Reached(tree, tree[a].children[0])
  }

  /** Definitions that resolving the first of them gets to, one from the other. */
  predicate Trail(tree: Tree, p: seq<string>) {
    p != [] && p[0] in tree && forall i :: 0 <= i < |p| - 1 ==> Follows(tree, p[i], p[i + 1])
  }

  /** A use that has not ended with a level for each definition does not end with one more. */
  lemma UseForEver(tree: Tree, u: Unresolved)
    requires Resolve(|tree|, tree, u) == Deep
    ensures Resolve(|tree| + 1, tree, u) == Deep
  {
    if Resolve(|tree| + 1, tree, u) != Deep {
      var k := Sharpest(|tree|, tree, u);
      assert |tree.Keys| == |tree| > 0;
      var below := ManyBelow(|tree| - 1, tree, k);
      assert k !in below;
      SubsetSize(below + {k}, tree.Keys);
    }
  }

  /** A use that does not end gets to a definition that does not end. */
  lemma {:induction false} NextDeep(tree: Tree, u: Unresolved) returns (k: string)
    requires Resolve(|tree| + 1, tree, u) == Deep
    ensures k in Reached(tree, u) && DeepAt(tree, k, |tree|)
    decreases u
  {
    if u.name in tree {
      k := u.name;
    } else {
      var r := ResolveAll(|tree| + 1, tree, u.children);
      if r.Ok? {
        NewFits(u.name, r.value, u.args);
      }
      k := NextDeepOf(tree, u.children);
    }
  }

  lemma {:induction false} NextDeepOf(tree: Tree, us: seq<Unresolved>) returns (k: string)
    requires ResolveAll(|tree| + 1, tree, us) == Deep
    ensures k in ReachedAll(tree, us) && DeepAt(tree, k, |tree|)
    decreases us
  {
    if Resolve(|tree| + 1, tree, us[0]) == Deep {
      k := NextDeep(tree, us[0]);
    } else {
      if Resolve(|tree|, tree, us[0]) == Deep {
        UseForEver(tree, us[0]);
      }
      Monotone(|tree|, |tree| + 1, tree, us[0]);
      k := NextDeepOf(tree, us[1..]);
    }
  }

  /** What does not end goes on from definition to definition, as far as one likes. */
  lemma {:induction false} DeepTrail(tree: Tree, k: string, n: nat) returns (p: seq<string>)
    requires DeepAt(tree, k, |tree|)
    ensures Trail(tree, p) && p[0] == k && |p| == n + 1
    decreases n
  {
    if n == 0 {
      p := [k];
    } else {
      DeepForEver(tree, k, |tree| + 1);
      var next := NextDeep(tree, tree[k].children[0]);
      var rest := DeepTrail(tree, next, n - 1);
      p := [k] + rest;
      assert forall i :: 0 < i < |p| ==> p[i] == rest[i - 1];
    }
  }

  /** A use gets too deep if a definition that it gets to does, or if it has no level at all. */
  lemma {:induction false} ReachedDeep(f: nat, tree: Tree, u: Unresolved, k: string)
    requires k in Reached(tree, u) && k in tree && (f > 0 ==> DeepAt(tree, k, f - 1))
    ensures Resolve(f, tree, u) == Deep
    decreases u
  {
    if u.name !in tree {
      ReachedDeepOf(f, tree, u.children, k);
    }
  }

  lemma {:induction false} ReachedDeepOf(f: nat, tree: Tree, us: seq<Unresolved>, k: string)
    requires k in ReachedAll(tree, us) && k in tree && (f > 0 ==> DeepAt(tree, k, f - 1))
    ensures ResolveAll(f, tree, us) == Deep
    decreases us
  {
    if k in Reached(tree, us[0]) {
      ReachedDeep(f, tree, us[0], k);
    } else {
      if Resolve(f, tree, us[0]) != Deep {
        if f <= |tree| {
          Monotone(f, |tree|, tree, us[0]);
        } else {
          Monotone(|tree|, f, tree, us[0]);
        }
      }
      ReachedDeepOf(f, tree, us[1..], k);
    }
  }

  /** A trail of n steps takes n levels. */
  lemma {:induction false} TrailDeep(tree: Tree, p: seq<string>)
    requires Trail(tree, p) && |p| >= 2
    ensures DeepAt(tree, p[0], |p| - 2)
    decreases |p|
  {
    assert Follows(tree, p[0], p[1]);
    if |p| > 2 {
      assert forall i :: 0 <= i < |p| - 1 ==> p[1..][i] == p[i + 1];
      TrailDeep(tree, p[1..]);
    }
    ReachedDeep(|p| - 2, tree, tree[p[0]].children[0], p[1]);
  }

  /** Resolving a definition never ends if and only if it gets from definition to definition for
      more steps than there are definitions, so that it comes round. */
  lemma EndlessIff(tree: Tree, k: string)
    ensures DeepAt(tree, k, |tree|) <==> exists p :: Trail(tree, p) && p[0] == k && |p| == |tree| + 2
  {
    if DeepAt(tree, k, |tree|) {
      var p := DeepTrail(tree, k, |tree| + 1);
    }
    forall p | Trail(tree, p) && p[0] == k && |p| == |tree| + 2 ensures DeepAt(tree, k, |tree|) {
      TrailDeep(tree, p);
    }
  }

  /** Where every definition is well formed on its own, some definition never ends if and only
      if the references have a cycle. */
  lemma EndlessIffCycle(tree: Tree)
    requires forall k :: k in tree ==> GoodDefinition(tree, k)
    ensures (exists k :: DeepAt(tree, k, |tree|)) <==> !Acyclic(tree)
  {
    ResolvesIff(tree);
    forall k | k in tree ensures !ResolvePrimary(|tree|, tree, tree[k]).Err? {
      assert GoodDefinition(tree, k);
      GoodNeverFails(|tree|, tree, tree[k].children[0]);
    }
    if !Acyclic(tree) {
      var k :| k in tree && !ResolvePrimary(|tree|, tree, tree[k]).Ok?;
      assert DeepAt(tree, k, |tree|);
    } else {
      assert Resolves(|tree|, tree);
    }
  }

  /** (a (a)): a cycle that never ends. */
  function SelfCall(): Tree {
    map["a" := Unresolved("a", [], [Unresolved("a", [], [])])]
  }

  lemma SelfCallNeverEnds(f: nat)
    ensures Cycle(SelfCall(), ["a", "a"]) && DeepAt(SelfCall(), "a", f)
  {
    var t := SelfCall();
    assert Uses(t, "a", "a");
    if f > 0 {
      SelfCallNeverEnds(f - 1);
    }
  }

  /** (a (and (nosuch) (a))): a cycle that is an error, because a name that is not known comes first. */
  function CutCycle(): Tree {
    map["a" := Unresolved("a", [], [Unresolved("and", [], [Unresolved("nosuch", [], []), Unresolved("a", [], [])])])]
  }

  lemma CutCycleEnds(f: nat)
    ensures Cycle(CutCycle(), ["a", "a"]) && ResolvePrimary(f, CutCycle(), CutCycle()["a"]) == Err(NotFound)
  {
    var t := CutCycle();
    var nosuch, a := Unresolved("nosuch", [], []), Unresolved("a", [], []);
    assert [nosuch, a][1..] == [a];
    assert Refs(t, a) == {"a"} && RefsAll(t, [a]) == {"a"} + RefsAll(t, []);
    assert "a" in RefsAll(t, [nosuch, a]);
    assert Uses(t, "a", "a");
    assert Resolve(f, t, nosuch) == Err(NotFound);
    assert ResolveAll(f, t, [nosuch, a]) == Err(NotFound);
  }
}
