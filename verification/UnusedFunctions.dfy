/** Removal of functions that cannot be called (unused_fn_remove_pass.hpp). */
module UnusedFunctions {
  import opened Wrappers
  import opened Mangling

  /** A function graph: its entity's name and the names its calls refer to, in the order they are found. */
  datatype Fn = Fn(name: string, calls: seq<string>)

  /** The first graph of that name. */
  function Find(fs: seq<Fn>, name: string): (r: Option<nat>)
    ensures r.Some? ==> r.value < |fs| && fs[r.value].name == name && forall j :: 0 <= j < r.value ==> fs[j].name != name
    ensures r.None? ==> forall j :: 0 <= j < |fs| ==> fs[j].name != name
  {
    if fs == [] then None
    else if fs[0].name == name then Some(0)
    else
      var r := Find(fs[1..], name);
      if r.None? then None else Some(r.value + 1)
  }

  /** Function `i` calls function `j`. */
  predicate Calls(fs: seq<Fn>, i: nat, j: nat) {
    i < |fs| && exists k :: 0 <= k < |fs[i].calls| && Find(fs, fs[i].calls[k]) == Some(j)
  }

  ghost predicate CallChain(fs: seq<Fn>, path: seq<nat>, i: nat) {
    && |path| > 0 && Find(fs, "main") == Some(path[0]) && path[|path|-1] == i
    && forall k :: 0 <= k < |path| - 1 ==> Calls(fs, path[k], path[k+1])
  }

  /** Function `i` can be reached from main by calls. */
  ghost predicate Reachable(fs: seq<Fn>, i: nat) { exists path :: CallChain(fs, path, i) }

  lemma ReachStep(fs: seq<Fn>, i: nat, j: nat)
    requires Reachable(fs, i) && Calls(fs, i, j)
    ensures Reachable(fs, j)
  {
    var path :| CallChain(fs, path, i);
    var longer := path + [j];
    forall k | 0 <= k < |longer| - 1 ensures Calls(fs, longer[k], longer[k+1]) {
      if k < |path| - 1 { assert Calls(fs, path[k], path[k+1]); }
    }
    assert CallChain(fs, longer, j);
  }

  /** What the visited functions call is visited or waiting. */
  ghost predicate Closed(fs: seq<Fn>, visited: set<nat>, queue: seq<nat>) {
    forall i, j :: i in visited && Calls(fs, i, j) ==> j in visited || j in queue
  }

  lemma ClosedAfterVisit(fs: seq<Fn>, visited: set<nat>, rest: seq<nat>, graph: nat, queue: seq<nat>)
    requires Closed(fs, visited, [graph] + rest)
    requires (forall i :: i in rest ==> i in queue) && forall j :: Calls(fs, graph, j) ==> j in queue
    ensures Closed(fs, visited + {graph}, queue)
  {
    forall i, j | i in visited + {graph} && Calls(fs, i, j) ensures j in visited + {graph} || j in queue {
      if i in visited { assert j in visited || j in [graph] + rest; }
    }
  }

  lemma ClosedAfterSkip(fs: seq<Fn>, visited: set<nat>, rest: seq<nat>, graph: nat)
    requires Closed(fs, visited, [graph] + rest) && graph in visited
    ensures Closed(fs, visited, rest)
  {
    forall i, j | i in visited && Calls(fs, i, j) ensures j in visited || j in rest {
      assert j in visited || j in [graph] + rest;
    }
  }

  lemma {:induction false} ClosedHoldsChain(fs: seq<Fn>, visited: set<nat>, path: seq<nat>, i: nat, k: nat)
    requires Closed(fs, visited, []) && CallChain(fs, path, i) && path[0] in visited && k < |path|
    ensures path[k] in visited
    decreases k
  {
    if k > 0 {
      ClosedHoldsChain(fs, visited, path, i, k - 1);
      assert Calls(fs, path[k-1], path[k-1+1]);
    }
  }

  /** The functions at the positions listed in `keep`, in order. */
  function Selected(fs: seq<Fn>, keep: set<nat>, from: nat): seq<Fn>
    requires from <= |fs|
    decreases |fs| - from
  {
    if from == |fs| then [] else (if from in keep then [fs[from]] else []) + Selected(fs, keep, from + 1)
  }

  ghost function ReachableSet(fs: seq<Fn>): set<nat> { set i: nat | i < |fs| && Reachable(fs, i) }

  class UnusedFnRmPass {
    var allGraphs: seq<Fn>
    var worklist: seq<nat>
    var referencedFunctions: set<nat>

    constructor (graphs: seq<Fn>)
      ensures allGraphs == graphs && worklist == [] && referencedFunctions == {}
    {
      allGraphs, worklist, referencedFunctions := graphs, [], {};
    }

    /** Everything seen so far is reachable, and main has been seen. */
    ghost predicate Sound()
      reads this
    {
      && (forall i :: i in referencedFunctions ==> i < |allGraphs| && Reachable(allGraphs, i))
      && (forall i :: i in worklist ==> i < |allGraphs| && Reachable(allGraphs, i))
      && Closed(allGraphs, referencedFunctions, worklist)
      && (var m := Find(allGraphs, "main"); m.Some? ==> m.value in referencedFunctions || m.value in worklist)
    }

    method InitWorkList()
      requires worklist == [] && referencedFunctions == {}
      modifies this`worklist
      ensures Sound() && |worklist| <= 1
    {
      var m := Find(allGraphs, "main");
      if m.Some? {
        worklist := [m.value];
        assert CallChain(allGraphs, [m.value], m.value);
      }
    }

    /** Enqueues the functions that `graph` calls. */
    method EnqueueCallees(graph: nat)
      requires graph < |allGraphs| && Reachable(allGraphs, graph)
      modifies this`worklist
      ensures forall i :: i in old(worklist) ==> i in worklist
      ensures forall i :: i in worklist ==> i in old(worklist) || (i < |allGraphs| && Reachable(allGraphs, i))
      ensures forall j :: Calls(allGraphs, graph, j) ==> j in worklist
    {
      var names := allGraphs[graph].calls;
      var k := 0;
      while k < |names|
        invariant k <= |names| && forall i :: i in old(worklist) ==> i in worklist
        invariant forall i :: i in worklist ==> i in old(worklist) || (i < |allGraphs| && Reachable(allGraphs, i))
        invariant forall j :: 0 <= j < k && Find(allGraphs, names[j]).Some? ==> Find(allGraphs, names[j]).value in worklist
      {
        var f := Find(allGraphs, names[k]);
        if f.Some? {
          assert Calls(allGraphs, graph, f.value);
          ReachStep(allGraphs, graph, f.value);
          worklist := worklist + [f.value];
        }
        k := k + 1;
      }
    }

    method VisitFront()
      requires Sound() && worklist != []
      modifies this`worklist, this`referencedFunctions
      ensures Sound() && referencedFunctions == old(referencedFunctions) + {old(worklist[0])}
      ensures old(worklist[0]) in old(referencedFunctions) ==> |worklist| < |old(worklist)|
    {
      var graph := worklist[0];
      ghost var rest := worklist[1..];
      assert worklist == [graph] + rest && graph in worklist;
      assert forall i :: i in rest ==> i in worklist;
      worklist := worklist[1..];
      if graph !in referencedFunctions {
        EnqueueCallees(graph);
        ClosedAfterVisit(allGraphs, referencedFunctions, rest, graph, worklist);
        referencedFunctions := referencedFunctions + {graph};
      } else {
        ClosedAfterSkip(allGraphs, referencedFunctions, rest, graph);
        assert referencedFunctions == referencedFunctions + {graph};
      }
    }

    /** ProgramPass::run: what remains are exactly the functions reachable from main, in their original order. */
    method Run()
      requires worklist == [] && referencedFunctions == {}
      modifies this
      ensures allGraphs == Selected(old(allGraphs), ReachableSet(old(allGraphs)), 0)
    {
      InitWorkList();
      ghost var fs := allGraphs;
      ghost var all := set i: nat | i < |fs| && IsPosition(fs, i);
      while worklist != []
        invariant allGraphs == fs && Sound() && referencedFunctions <= all
        decreases |all - referencedFunctions|, |worklist|
      {
        ghost var before := referencedFunctions;
        VisitFront();
        assert referencedFunctions <= all;
        if referencedFunctions != before { Fewer(all - before, all - referencedFunctions); }
      }
      forall i: nat | i < |fs| && Reachable(fs, i) ensures i in referencedFunctions {
        var path :| CallChain(fs, path, i);
        ClosedHoldsChain(fs, referencedFunctions, path, i, |path| - 1);
      }
      assert referencedFunctions == ReachableSet(fs);
      RemoveUnreferenced();
    }

    /** remove_if and erase. */
    method RemoveUnreferenced()
      modifies this`allGraphs
      ensures allGraphs == Selected(old(allGraphs), referencedFunctions, 0)
    {
      var kept := [];
      var i := 0;
      while i < |allGraphs|
        invariant i <= |allGraphs| && kept + Selected(allGraphs, referencedFunctions, i) == Selected(allGraphs, referencedFunctions, 0)
      {
        if i in referencedFunctions {
          kept := kept + [allGraphs[i]];
        }
        i := i + 1;
      }
      allGraphs := kept;
    }
  }

  predicate IsPosition(fs: seq<Fn>, i: nat) { i < |fs| }

  lemma Fewer(a: set<nat>, b: set<nat>)
    requires b < a
    ensures |b| < |a|
  {
    assert a == b + (a - b) && a - b != {};
  }

  /** The function a name refers to in the program. */
  function Named(fs: seq<Fn>, name: string): Option<Fn> {
    var r := Find(fs, name);
    if r.Some? then Some(fs[r.value]) else None
  }

  lemma NamedFirst(f: Fn, rest: seq<Fn>, name: string)
    ensures Named([f] + rest, name) == if f.name == name then Some(f) else Named(rest, name)
  {
    assert ([f] + rest)[1..] == rest;
  }

  lemma {:induction false} SelectedFinds(fs: seq<Fn>, keep: set<nat>, from: nat, name: string, j: nat)
    requires from <= j < |fs| && j in keep && fs[j].name == name && forall q :: from <= q < j ==> fs[q].name != name
    ensures Named(Selected(fs, keep, from), name) == Some(fs[j])
    decreases j - from
  {
    var rest := Selected(fs, keep, from + 1);
    NamedFirst(fs[from], rest, name);
    if from < j {
      SelectedFinds(fs, keep, from + 1, name, j);
      assert [] + rest == rest;
    }
  }

  lemma SelectedLacks(fs: seq<Fn>, keep: set<nat>, name: string)
    requires Find(fs, name).None?
    ensures Named(Selected(fs, keep, 0), name).None?
  {
    var r := Find(Selected(fs, keep, 0), name);
    if r.Some? {
      SelectedIsFilter(fs, keep, 0, Selected(fs, keep, 0)[r.value]);
      assert false;
    }
  }

  /** A name that a kept function calls refers to the same function among what remains, or to none as before. */
  lemma CalleesAreKept(fs: seq<Fn>, i: nat, k: nat)
    requires i in ReachableSet(fs) && k < |fs[i].calls|
    ensures Named(Selected(fs, ReachableSet(fs), 0), fs[i].calls[k]) == Named(fs, fs[i].calls[k])
  {
    var name := fs[i].calls[k];
    var r := Find(fs, name);
    if r.Some? {
      assert Calls(fs, i, r.value);
      ReachStep(fs, i, r.value);
      SelectedFinds(fs, ReachableSet(fs), 0, name, r.value);
    } else {
      SelectedLacks(fs, ReachableSet(fs), name);
    }
  }

  /** Main is never removed. */
  lemma MainIsKept(fs: seq<Fn>)
    ensures Named(Selected(fs, ReachableSet(fs), 0), "main") == Named(fs, "main")
  {
    var r := Find(fs, "main");
    if r.Some? {
      assert CallChain(fs, [r.value], r.value);
      SelectedFinds(fs, ReachableSet(fs), 0, "main", r.value);
    } else {
      SelectedLacks(fs, ReachableSet(fs), "main");
    }
  }

  // ---- names ----

  predicate DistinctNames(fs: seq<Fn>) { forall i, j :: 0 <= i < j < |fs| ==> fs[i].name != fs[j].name }

  /** With distinct names the first function of a name is the function of that name. */
  lemma FindsExactly(fs: seq<Fn>, name: string, i: nat)
    requires DistinctNames(fs)
    ensures Find(fs, name) == Some(i) <==> i < |fs| && fs[i].name == name
  {
    var r := Find(fs, name);
    if i < |fs| && fs[i].name == name {
      assert r.Some?;
      assert r.value == i;
    }
  }

  /** The entity name of a method; None stands for the main method. */
  function EntityName(m: Option<MethodName>): string { if m.None? then "main" else Mangle(m.value) }

  /** The functions of a checked program, in any order, have distinct names. */
  lemma ProgramNamesDistinct(fs: seq<Fn>, methods: seq<Option<MethodName>>)
    requires |fs| == |methods| && forall i :: 0 <= i < |fs| ==> fs[i].name == EntityName(methods[i])
    requires forall i :: 0 <= i < |fs| && methods[i].Some? ==> Legal(methods[i].value) && NoVoidParameter(methods[i].value)
    requires forall i, j :: 0 <= i < j < |fs| ==> methods[i] != methods[j]
    ensures DistinctNames(fs)
  {
    forall i, j | 0 <= i < j < |fs| ensures fs[i].name != fs[j].name {
      var m, n := methods[i], methods[j];
      if m.Some? { MangledNamesAreUnique(m.value, m.value); }
      if n.Some? { MangledNamesAreUnique(n.value, n.value); }
      if m.Some? && n.Some? { CheckedNamesAreUnique(m.value, n.value); }
    }
  }

  /** Selected keeps order and picks exactly the listed positions. */
  lemma {:induction false} SelectedIsFilter(fs: seq<Fn>, keep: set<nat>, from: nat, f: Fn)
    requires from <= |fs|
    ensures f in Selected(fs, keep, from) <==> exists i :: from <= i < |fs| && i in keep && fs[i] == f
    decreases |fs| - from
  {
    if from < |fs| { SelectedIsFilter(fs, keep, from + 1, f); }
  }
}
