/** The whole pipeline, from text to effects. */
module Pipeline {
  import opened Text
  import opened Syntax
  import opened Promises
  import opened SourceText
  import Tokens
  import Parser
  import RoundTrip
  import Program
  import ResolverTheory
  import Semantics
  import Inlining

  /** The table of several files. */
  function TableOfAll(tree: Tree, files: seq<File>): Tree
    decreases |files|
  {
    if files == [] then tree else TableOfAll(TableOf(tree, files[0].defs), files[1..])
  }

  predicate GoodFiles(tree: Tree, files: seq<File>)
    decreases |files|
  {
    files != [] ==> GoodFile(tree, files[0]) && GoodFiles(TableOf(tree, files[0].defs), files[1..])
  }

  predicate Written(inputs: seq<Ascii>, files: seq<File>) {
    |inputs| == |files| && forall i :: 0 <= i < |inputs| ==> inputs[i] == Show(files[i])
  }

  lemma {:induction false} FilesReadBack(inputs: seq<Ascii>, files: seq<File>, tree: Tree)
    requires Written(inputs, files) && GoodFiles(tree, files)
    ensures Program.Tables(inputs, tree) == Parser.Ok(TableOfAll(tree, files), Tokens.Ended)
    decreases |files|
  {
    if files != [] {
      RoundTrip.ReadsBack(inputs[0], files[0], tree);
      FilesReadBack(inputs[1..], files[1..], TableOf(tree, files[0].defs));
    }
  }

  lemma {:induction false} DefsNamed(tree: Tree, defs: seq<Definition>)
    requires Program.Named(tree)
    ensures Program.Named(TableOf(tree, defs))
    decreases defs
  {
    if defs != [] {
      DefsNamed(tree[defs[0].promise.name := PromiseOf(defs[0].promise)], defs[1..]);
    }
  }

  lemma {:induction false} FilesNamed(tree: Tree, files: seq<File>)
    requires Program.Named(tree)
    ensures Program.Named(TableOfAll(tree, files))
    decreases |files|
  {
    if files != [] {
      DefsNamed(tree, files[0].defs);
      FilesNamed(TableOf(tree, files[0].defs), files[1..]);
    }
  }

  /** From text to effects: a program written in any layout, whose references have no cycle and
      whose definitions are well formed, loads; and evaluating the promise that definition k
      loaded to does exactly what the definitions in the text say, each looked up by name as
      it is called. */
  lemma TextMeansWhatItSays(inputs: seq<Ascii>, files: seq<File>, k: string, r: Program.Result,
                            h: Semantics.Host, sc: Semantics.Scope, st: Semantics.State)
    requires Written(inputs, files) && GoodFiles(map[], files)
    requires var tree := TableOfAll(map[], files);
             k in tree && ResolverTheory.Acyclic(tree) &&
             (forall d :: d in tree ==> ResolverTheory.GoodDefinition(tree, d)) &&
             Program.LoadsTo(tree, r)
    ensures var tree := TableOfAll(map[], files);
            Program.Tables(inputs, map[]) == Parser.Ok(tree, Tokens.Ended) &&
            r.Loaded? && k in r.promises &&
            Inlining.Interp(h, |tree| + 1, tree, Inlining.Call(k), [], sc, st) ==
            Inlining.Done(Semantics.Eval(h, r.promises[k], [], sc, st))
  {
    var tree := TableOfAll(map[], files);
    FilesReadBack(inputs, files, map[]);
    ResolverTheory.ResolvesIff(tree);
    FilesNamed(map[], files);
    Inlining.LoadedMeansTable(h, tree, k, sc, st);
  }
}
