/**
 From files to a resolved program: the files are parsed one after another into one table,
 and the table is resolved key by key. Neither order matters.
 */
module Program {
  import opened Text
  import opened Tokens
  import opened Syntax
  import opened Promises
  import Parser
  import Scanner
  import Lexer
  import Resolver
  import NeverBlocks
  import ResolverTheory

  /** How reading a program ends. `Overflow` is the endless recursion of the resolver. */
  datatype Result =
    | Loaded(promises: map<string, Promise>)
    | SyntaxError(error: Parser.Error)
    | ResolveError(reason: Resolver.Reason)
    | Overflow
    | LexerPanic

  /** The table of all files, read in the given order. */
  function Tables(inputs: seq<Ascii>, tree: Tree): Parser.Parsed<Tree> {
    if inputs == [] then Parser.Ok(tree, Ended)
    else match Parser.Generate(Scanner.Lex(inputs[0]), tree)
      case Ok(t, _) => Tables(inputs[1..], t)
      case stop => stop
  }

  function Resolved(tree: Tree): map<string, Promise>
    requires Resolver.Resolves(|tree|, tree)
  {
    map k | k in tree :: Resolver.ResolvePrimary(|tree|, tree, tree[k]).value
  }

  /** r is what a program with this table loads to. */
  ghost predicate LoadsTo(tree: Tree, r: Result) {
    if Resolver.Resolves(|tree|, tree) then r == Loaded(Resolved(tree))
    else
      exists k :: k in tree &&
        match Resolver.ResolvePrimary(|tree|, tree, tree[k])
        case Err(e) => r == ResolveError(e)
        case Deep => r == Overflow
        case Ok(_) => false
  }

  /** Reading a table may never end if and only if resolving some definition goes from
      definition to definition for more steps than there are definitions. */
  lemma OverflowIff(tree: Tree)
    ensures LoadsTo(tree, Overflow) <==>
            exists p :: ResolverTheory.Trail(tree, p) && |p| == |tree| + 2
  {
    forall p | ResolverTheory.Trail(tree, p) && |p| == |tree| + 2 ensures LoadsTo(tree, Overflow) {
      ResolverTheory.EndlessIff(tree, p[0]);
      assert Resolver.ResolvePrimary(|tree|, tree, tree[p[0]]) == Resolver.Deep;
    }
    if LoadsTo(tree, Overflow) {
      var k :| k in tree && Resolver.ResolvePrimary(|tree|, tree, tree[k]) == Resolver.Deep;
      ResolverTheory.EndlessIff(tree, k);
    }
  }

  /** A table whose definitions are well formed on their own is read in full if its references
      have no cycle, and is read for ever if they have one. */
  lemma OverflowIffCycle(tree: Tree, r: Result)
    requires LoadsTo(tree, r) && forall k :: k in tree ==> ResolverTheory.GoodDefinition(tree, k)
    ensures r == Overflow <==> !ResolverTheory.Acyclic(tree)
    ensures r.Loaded? <==> ResolverTheory.Acyclic(tree)
  {
    ResolverTheory.ResolvesIff(tree);
    forall k | k in tree ensures !Resolver.ResolvePrimary(|tree|, tree, tree[k]).Err? {
      assert ResolverTheory.GoodDefinition(tree, k);
      ResolverTheory.GoodNeverFails(|tree|, tree, tree[k].children[0]);
    }
  }

  /** A cycle need not be followed: the first of these tables is read for ever, and the second,
      which has the same cycle, is an error. */
  lemma CyclesDiffer(r: Result)
    ensures LoadsTo(ResolverTheory.SelfCall(), r) ==> r == Overflow
    ensures LoadsTo(ResolverTheory.CutCycle(), r) ==> r == ResolveError(Resolver.NotFound)
  {
    ResolverTheory.SelfCallNeverEnds(1);
    ResolverTheory.CutCycleEnds(1);
  }

  /** Read and resolve a program. The map is walked in whatever order its keys come. */
  method Parse(inputs: seq<Ascii>) returns (r: Result)
    ensures match Tables(inputs, map[])
            case Ok(tree, _) => LoadsTo(tree, r)
            case Fail(e) => r == SyntaxError(e)
            case Down => r == LexerPanic
            case Blocked => false
  {
    var unresolved: Tree := map[];
    var i := 0;
    while i < |inputs|
      invariant 0 <= i <= |inputs|
      invariant Tables(inputs[i..], unresolved) == Tables(inputs, map[])
    {
      var l := new Lexer.Lexer(inputs[i]);
      l.Run();
      var tokens := new Parser.Reader(Emit(l.tokens, if l.crashed then Crashed else Ended));
      NeverBlocks.ParserNeverBlocks(inputs[i], unresolved);
      var parsed := tokens.GeneratePromises(unresolved);
      assert inputs[i..][1..] == inputs[i + 1..];
      match parsed {
        case Ok(t, _) => unresolved := t;
        case Fail(e) => return SyntaxError(e);
        case Down => return LexerPanic;
      }
      i := i + 1;
    }
    r := ResolveKeys(unresolved);
  }

  lemma FailsAt(tree: Tree, k: string, r: Result)
    requires k in tree
    requires match Resolver.ResolvePrimary(|tree|, tree, tree[k])
             case Err(e) => r == ResolveError(e)
             case Deep => r == Overflow
             case Ok(_) => false
    ensures LoadsTo(tree, r)
  {
  }

  lemma LoadsInFull(tree: Tree, promises: map<string, Promise>)
    requires promises.Keys == tree.Keys && ResolvedIn(tree, promises)
    ensures LoadsTo(tree, Loaded(promises))
  {
    assert forall k :: k in tree ==> Resolver.ResolvePrimary(|tree|, tree, tree[k]).Ok?;
    assert promises == Resolved(tree);
  }

  /** These definitions have been resolved. */
  predicate ResolvedIn(tree: Tree, promises: map<string, Promise>) {
    forall k :: k in promises ==>
      k in tree && Resolver.ResolvePrimary(|tree|, tree, tree[k]) == Resolver.Ok(promises[k])
  }

  /** Resolve every definition, in whatever order the map is walked. */
  method ResolveKeys(unresolved: Tree) returns (r: Result)
    ensures LoadsTo(unresolved, r)
  {
    var n := |unresolved|;
    var keys := unresolved.Keys;
    var resolved: map<string, Promise> := map[];
    while keys != {}
      invariant keys <= unresolved.Keys && resolved.Keys == unresolved.Keys - keys
      invariant ResolvedIn(unresolved, resolved)
      decreases keys
    {
      var k :| k in keys;
      var p := Resolver.ResolvePrimary(n, unresolved, unresolved[k]);
      if !p.Ok? {
        r := if p.Err? then ResolveError(p.reason) else Overflow;
        FailsAt(unresolved, k, r);
        return;
      }
      resolved := resolved[k := p.value];
      keys := keys - {k};
    }
    r := Loaded(resolved);
    LoadsInFull(unresolved, resolved);
  }

  /** The definitions of a file, whatever was defined before. */
  function Defs(s: Stream): Option<seq<Unresolved>>
    decreases Length(s)
  {
    match s
    case Ended => None
    case Crashed => None
    case Next(t, rest) =>
      match t.typ
      case EOF => Some([])
      case Error => None
      case LeftPromise =>
        (match Parser.ParsePromise(rest, EMPTY_PROMISE)
         case Ok(p, rest') =>
           (match Defs(rest')
            case Some(ds) => Some([p] + ds)
            case None => None)
         case _ => None)
      case _ => Defs(rest)
  }

  function AllDefs(inputs: seq<Ascii>): Option<seq<Unresolved>> {
    if inputs == [] then Some([])
    else match (Defs(Scanner.Lex(inputs[0])), AllDefs(inputs[1..]))
      case (Some(a), Some(b)) => Some(a + b)
      case _ => None
  }

  /** A table with more definitions, if their names are all new. */
  function Added(tree: Tree, ds: seq<Unresolved>): Option<Tree>
    decreases ds
  {
    if ds == [] then Some(tree)
    else if ds[0].name in tree then None
    else Added(tree[ds[0].name := ds[0]], ds[1..])
  }

  lemma {:induction false} AddedConcat(tree: Tree, a: seq<Unresolved>, b: seq<Unresolved>)
    ensures Added(tree, a + b) == match Added(tree, a) case Some(t) => Added(t, b) case None => None
    decreases a
  {
    if a == [] {
      assert a + b == b;
    } else {
      assert (a + b)[1..] == a[1..] + b;
      if a[0].name !in tree {
        AddedConcat(tree[a[0].name := a[0]], a[1..], b);
      }
    }
  }

  /** Parsing a file is reading its definitions and adding them. */
  lemma {:induction false} GenerateIsAdding(s: Stream, tree: Tree, t: Tree)
    ensures (Parser.Generate(s, tree).Ok? && Parser.Generate(s, tree).value == t) <==>
            (Defs(s).Some? && Added(tree, Defs(s).value) == Some(t))
    decreases Length(s)
  {
    match s
    case Ended =>
    case Crashed =>
    case Next(tok, rest) =>
      if tok.typ == LeftPromise {
        var r := Parser.ParsePromise(rest, EMPTY_PROMISE);
        if r.Ok? && r.value.name !in tree {
          GenerateIsAdding(r.rest, tree[r.value.name := r.value], t);
          if Defs(r.rest).Some? {
            assert ([r.value] + Defs(r.rest).value)[1..] == Defs(r.rest).value;
          }
        }
      } else if tok.typ != EOF && !tok.typ.Error? {
        GenerateIsAdding(rest, tree, t);
      }
  }

  /** Reading all files is adding the definitions of all files. */
  lemma {:induction false} TablesAreAdding(inputs: seq<Ascii>, tree: Tree, t: Tree)
    ensures (Tables(inputs, tree).Ok? && Tables(inputs, tree).value == t) <==>
            (AllDefs(inputs).Some? && Added(tree, AllDefs(inputs).value) == Some(t))
    decreases inputs
  {
    if inputs != [] {
      var s := Scanner.Lex(inputs[0]);
      var r := Parser.Generate(s, tree);
      if r.Ok? {
        GenerateIsAdding(s, tree, r.value);
        TablesAreAdding(inputs[1..], r.value, t);
        if AllDefs(inputs).Some? {
          AddedConcat(tree, Defs(s).value, AllDefs(inputs[1..]).value);
        }
      } else if AllDefs(inputs).Some? {
        var ds := Defs(s).value;
        AddedConcat(tree, ds, AllDefs(inputs[1..]).value);
        if Added(tree, ds).Some? {
          GenerateIsAdding(s, tree, Added(tree, ds).value);
        }
      }
    }
  }

  predicate Named(tree: Tree) {
    forall k :: k in tree ==> tree[k].name == k
  }

  /** d is the definition the table has under d's name. */
  predicate In(d: Unresolved, tree: Tree) {
    d.name in tree && tree[d.name] == d
  }

  /** t holds the definitions of tree and of ds, each under its own name, and no others. */
  ghost predicate Holds(t: Tree, tree: Tree, ds: seq<Unresolved>) {
    |t| == |tree| + |ds| && Named(t) && Named(tree) &&
    forall d: Unresolved :: In(d, t) <==> (d in ds || In(d, tree))
  }

  lemma {:induction false} AddedHolds(tree: Tree, ds: seq<Unresolved>, t: Tree)
    requires Named(tree) && Added(tree, ds) == Some(t)
    ensures Holds(t, tree, ds)
    decreases ds
  {
    if ds != [] {
      var tree' := tree[ds[0].name := ds[0]];
      assert tree'.Keys == tree.Keys + {ds[0].name};
      AddedHolds(tree', ds[1..], t);
      forall d: Unresolved ensures In(d, t) <==> (d in ds || In(d, tree)) {
        assert d in ds <==> d == ds[0] || d in ds[1..];
      }
    }
  }

  lemma {:induction false} HoldsAdded(tree: Tree, ds: seq<Unresolved>, t: Tree)
    requires Holds(t, tree, ds)
    ensures Added(tree, ds) == Some(t)
    decreases ds
  {
    if ds == [] {
      SameTable(t, tree);
    } else {
      var d := ds[0];
      assert forall x :: x in ds <==> x == d || x in ds[1..];
      if d.name in tree {
        assert In(tree[d.name], tree) && In(d, t) && In(tree[d.name], t);
        TooFew(t, tree, ds[1..]);
      }
      var tree' := tree[d.name := d];
      assert tree'.Keys == tree.Keys + {d.name};
      forall x: Unresolved ensures In(x, t) <==> (x in ds[1..] || In(x, tree')) {
      }
      HoldsAdded(tree', ds[1..], t);
    }
  }

  lemma SameTable(t: Tree, tree: Tree)
    requires Holds(t, tree, [])
    ensures t == tree
  {
    forall k ensures k in t <==> k in tree {
      if k in t {
        assert In(t[k], t);
      }
      if k in tree {
        assert In(tree[k], tree);
      }
    }
    forall k | k in t ensures t[k] == tree[k] {
      assert In(t[k], t) && In(t[k], tree);
    }
  }

  /** A table cannot have more definitions than it is made of. */
  lemma TooFew(t: Tree, tree: Tree, ds: seq<Unresolved>)
    requires Named(t) && forall d: Unresolved :: In(d, t) ==> d in ds || In(d, tree)
    ensures |t| <= |tree| + |ds|
  {
    var names := NamesOf(ds);
    forall k | k in t ensures k in tree.Keys + names {
      assert In(t[k], t);
    }
    ResolverTheory.SubsetSize(t.Keys, tree.Keys + names);
    assert |t.Keys| == |t| && |tree.Keys| == |tree|;
  }

  lemma {:induction false} NamesOf(ds: seq<Unresolved>) returns (names: set<string>)
    ensures |names| <= |ds| && forall d :: d in ds ==> d.name in names
  {
    if ds == [] {
      names := {};
    } else {
      var rest := NamesOf(ds[1..]);
      names := rest + {ds[0].name};
      assert forall x :: x in ds <==> x == ds[0] || x in ds[1..];
    }
  }

  lemma {:induction false} AllDefsConcat(a: seq<Ascii>, b: seq<Ascii>)
    ensures AllDefs(a + b) ==
            match (AllDefs(a), AllDefs(b))
            case (Some(x), Some(y)) => Some(x + y)
            case _ => None
  {
    if a == [] {
      assert a + b == b;
      if AllDefs(b).Some? {
        assert [] + AllDefs(b).value == AllDefs(b).value;
      }
    } else {
      assert (a + b)[1..] == a[1..] + b;
      AllDefsConcat(a[1..], b);
      match (Defs(Scanner.Lex(a[0])), AllDefs(a[1..]), AllDefs(b))
      case (Some(x), Some(y), Some(z)) => assert (x + y) + z == x + (y + z);
      case _ =>
    }
  }

  lemma TakeOut<T>(rest: seq<T>, front: seq<T>, x: T, back: seq<T>)
    requires multiset([x] + rest) == multiset(front + ([x] + back))
    ensures multiset(rest) == multiset(front + back)
  {
    assert multiset([x] + rest) == multiset{x} + multiset(rest);
    assert multiset(front + ([x] + back)) == multiset(front) + (multiset{x} + multiset(back));
    assert multiset(rest) == multiset([x] + rest) - multiset{x};
  }

  /** The same files in another order have the same definitions, in another order. */
  lemma {:induction false} SameDefs(a: seq<Ascii>, b: seq<Ascii>)
    requires multiset(a) == multiset(b) && AllDefs(a).Some?
    ensures AllDefs(b).Some? && multiset(AllDefs(a).value) == multiset(AllDefs(b).value)
    decreases |a|
  {
    if a == [] {
      assert |b| == |multiset(b)|;
    } else {
      assert a[0] in multiset(a);
      assert a[0] in multiset(b);
      var j :| 0 <= j < |b| && b[j] == a[0];
      var front, back := b[..j], b[j + 1..];
      assert b == front + ([a[0]] + back);
      assert a == [a[0]] + a[1..];
      TakeOut(a[1..], front, a[0], back);
      SameDefs(a[1..], front + back);
      AllDefsConcat(front, back);
      AllDefsConcat(front, [a[0]] + back);
      AllDefsConcat([a[0]], back);
      AllDefsConcat([a[0]], a[1..]);
    }
  }

  /** If the files parse in one order, they parse to the same table in every order. */
  lemma FilesInAnyOrder(a: seq<Ascii>, b: seq<Ascii>)
    requires multiset(a) == multiset(b) && Tables(a, map[]).Ok?
    ensures Tables(b, map[]).Ok? && Tables(b, map[]).value == Tables(a, map[]).value
  {
    var t := Tables(a, map[]).value;
    TablesAreAdding(a, map[], t);
    SameDefs(a, b);
    var da, db := AllDefs(a).value, AllDefs(b).value;
    AddedHolds(map[], da, t);
    assert |multiset(da)| == |multiset(db)|;
    forall d: Unresolved ensures d in da <==> d in db {
      assert d in da <==> d in multiset(da);
      assert d in db <==> d in multiset(db);
    }
    HoldsAdded(map[], db, t);
    TablesAreAdding(b, map[], t);
  }

  /** A program that loads in one order of its files loads to the same promises in every
      order, however the map of definitions is walked. */
  lemma LoadsInAnyOrder(a: seq<Ascii>, b: seq<Ascii>, r: Result, r': Result)
    requires multiset(a) == multiset(b) && Tables(a, map[]).Ok? && r.Loaded? && LoadsTo(Tables(a, map[]).value, r)
    ensures Tables(b, map[]).Ok? && (LoadsTo(Tables(b, map[]).value, r') ==> r' == r)
  {
    FilesInAnyOrder(a, b);
  }
}
