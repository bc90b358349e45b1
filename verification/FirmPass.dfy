/** The initial order of the worklist (FunctionPass::init_topological in firm_pass.hpp). */
module FirmPass {
  import opened FirmGraph

  /** Nodes marked visited so far, and nodes handed to initNode, in that order. */
  datatype Walk = Walk(visited: set<Id>, order: seq<Id>)

  ghost function Unmarked(g: Graph, visited: set<Id>): set<Id> {
    set n: Id | n < |g.nodes| && IsBreaker(g.nodes[n].kind) && n !in visited
  }

  ghost function Depth(g: Graph, n: Id): nat
    requires n < |g.nodes| && Acyclic(g)
  {
    if IsBreaker(g.nodes[n].kind) then 0 else 1 + g.rank[n]
  }

  lemma FewerUnmarked(g: Graph, visited: set<Id>, visited': set<Id>)
    requires visited <= visited'
    ensures |Unmarked(g, visited')| <= |Unmarked(g, visited)|
    ensures forall n: Id :: n < |g.nodes| && IsBreaker(g.nodes[n].kind) && n !in visited && n in visited' ==>
              |Unmarked(g, visited')| < |Unmarked(g, visited)|
  {
    var a, b := Unmarked(g, visited'), Unmarked(g, visited);
    assert a <= b;
    SubsetCardinality(a, b);
    forall n: Id | n < |g.nodes| && IsBreaker(g.nodes[n].kind) && n !in visited && n in visited' ensures |a| < |b| {
      assert n in b && a <= b - {n};
      SubsetCardinality(a, b - {n});
    }
  }

  lemma {:induction false} SubsetCardinality(a: set<Id>, b: set<Id>)
    requires a <= b
    ensures |a| <= |b|
  {
    if a != {} {
      var x :| x in a;
      SubsetCardinality(a - {x}, b - {x});
    }
  }

  /** Operands lie inside the graph, and below a node that does not break cycles. */
  lemma OperandsBelow(g: Graph, n: Id)
    requires WellFormed(g) && n < |g.nodes|
    ensures var Node(k, b) := g.nodes[n];
      && b < |g.nodes| && g.nodes[b].kind.Block?
      && forall q: Id :: q in Operands(k) ==>
           Uses(g, n, q) && q < |g.nodes| && Depth(g, q) < |g.nodes| + 1 && (!IsBreaker(k) ==> Depth(g, q) < Depth(g, n))
  {
    assert WellFormedNode(g, n);
    forall q: Id | q in Operands(g.nodes[n].kind) ensures Uses(g, n, q) && q < |g.nodes| {
      assert Uses(g, n, q);
    }
  }

  function Listed(w: Walk, n: Id): Walk { Walk(w.visited + {n}, w.order + [n]) }

  ghost function Limit(g: Graph, n: Id): nat
    requires n < |g.nodes| && Acyclic(g)
  {
    if IsBreaker(g.nodes[n].kind) then |g.nodes| + 1 else Depth(g, n)
  }

  /** init_topological: blocks before operands before the node itself, cycles broken at phis and blocks. */
  ghost function Topo(g: Graph, w: Walk, n: Id): (r: Walk)
    requires WellFormed(g) && n < |g.nodes|
    ensures w.visited <= r.visited
    decreases |Unmarked(g, w.visited)|, 2 * Depth(g, n) + 1, 1
  {
    FewerUnmarked(g, w.visited, w.visited + {n});
    if n in w.visited then w
    else if IsBreaker(g.nodes[n].kind) then Listed(TopoInputs(g, w.(visited := w.visited + {n}), n), n)
    else
      var r := TopoInputs(g, w, n);
      if n in r.visited then r else Listed(r, n)
  }

  ghost function TopoInputs(g: Graph, w: Walk, n: Id): (r: Walk)
    requires WellFormed(g) && n < |g.nodes|
    ensures w.visited <= r.visited
    decreases |Unmarked(g, w.visited)|, 2 * Limit(g, n) + 1, 0
  {
    OperandsBelow(g, n);
    var Node(k, b) := g.nodes[n];
    var w1 := if k.Block? then w else Topo(g, w, b);
    FewerUnmarked(g, w.visited, w1.visited);
    TopoAll(g, w1, Operands(k), Limit(g, n))
  }

  ghost function TopoAll(g: Graph, w: Walk, ns: seq<Id>, depth: nat): (r: Walk)
    requires WellFormed(g) && forall q: Id :: q in ns ==> q < |g.nodes| && Depth(g, q) < depth
    ensures w.visited <= r.visited
    decreases |Unmarked(g, w.visited)|, 2 * depth, |ns|
  {
    if ns == [] then w
    else
      assert ns[0] in ns && forall q :: q in ns[1..] ==> q in ns;
      var w1 := Topo(g, w, ns[0]);
      FewerUnmarked(g, w.visited, w1.visited);
      TopoAll(g, w1, ns[1..], depth)
  }

  // ---- every node is handed to initNode ----

  ghost predicate Follows(g: Graph, m: Id, q: Id) {
    m < |g.nodes| && (Uses(g, m, q) || (!g.nodes[m].kind.Block? && q == g.nodes[m].block))
  }

  ghost predicate Closed(g: Graph, visited: set<Id>, open: set<Id>) {
    forall m: Id, q: Id :: m in visited && m !in open && Follows(g, m, q) ==> q in visited
  }

  /** Walk `r` continues walk `w`: nothing is forgotten and everything newly visited is listed. */
  ghost predicate Extends(g: Graph, w: Walk, r: Walk, open: set<Id>) {
    && w.visited <= r.visited && w.order <= r.order
    && (forall m: Id :: m in r.visited && m !in w.visited ==> m in r.order)
    && (forall m: Id :: m in r.order && m !in w.order ==> m < |g.nodes|)
    && (Closed(g, w.visited, open) ==> Closed(g, r.visited, open))
  }

  lemma ExtendsTrans(g: Graph, w: Walk, r: Walk, t: Walk, open: set<Id>)
    requires Extends(g, w, r, open) && Extends(g, r, t, open)
    ensures Extends(g, w, t, open)
  {
  }

  lemma {:induction false} TopoExtends(g: Graph, w: Walk, n: Id, open: set<Id>)
    requires WellFormed(g) && n < |g.nodes|
    ensures var r := Topo(g, w, n); n in r.visited && Extends(g, w, r, open)
    decreases |Unmarked(g, w.visited)|, 2 * Depth(g, n) + 1, 1
  {
    if n !in w.visited {
      if IsBreaker(g.nodes[n].kind) {
        var w1 := w.(visited := w.visited + {n});
        FewerUnmarked(g, w.visited, w1.visited);
        InputsExtend(g, w1, n, open + {n});
        Finish(g, w, w1, TopoInputs(g, w1, n), n, open);
      } else {
        InputsExtend(g, w, n, open);
        if n !in TopoInputs(g, w, n).visited { Finish(g, w, w, TopoInputs(g, w, n), n, open); }
      }
    }
  }

  lemma {:induction false} InputsExtend(g: Graph, w: Walk, n: Id, open: set<Id>)
    requires WellFormed(g) && n < |g.nodes|
    ensures var r := TopoInputs(g, w, n);
      Extends(g, w, r, open) && forall q: Id :: Follows(g, n, q) ==> q in r.visited
    decreases |Unmarked(g, w.visited)|, 2 * Limit(g, n) + 1, 0
  {
    OperandsBelow(g, n);
    var Node(k, b) := g.nodes[n];
    var w1 := if k.Block? then w else Topo(g, w, b);
    if !k.Block? { TopoExtends(g, w, b, open); }
    FewerUnmarked(g, w.visited, w1.visited);
    TopoAllExtends(g, w1, Operands(k), Limit(g, n), open);
    ExtendsTrans(g, w, w1, TopoInputs(g, w, n), open);
  }

  /** Listing `n` after everything it refers to has been visited. */
  lemma Finish(g: Graph, w: Walk, w1: Walk, w3: Walk, n: Id, open: set<Id>)
    requires w.order == w1.order && w.visited <= w1.visited <= w.visited + {n} && n < |g.nodes|
    requires Extends(g, w1, w3, open + {n}) || (w1 == w && Extends(g, w1, w3, open))
    requires forall q: Id :: Follows(g, n, q) ==> q in w3.visited
    ensures Extends(g, w, Listed(w3, n), open)
  {
    if Closed(g, w.visited, open) {
      assert Closed(g, w1.visited, open + {n});
      assert Closed(g, w3.visited + {n}, open);
    }
  }

  lemma {:induction false} TopoAllExtends(g: Graph, w: Walk, ns: seq<Id>, depth: nat, open: set<Id>)
    requires WellFormed(g) && forall q: Id :: q in ns ==> q < |g.nodes| && Depth(g, q) < depth
    ensures var r := TopoAll(g, w, ns, depth); (forall q: Id :: q in ns ==> q in r.visited) && Extends(g, w, r, open)
    decreases |Unmarked(g, w.visited)|, 2 * depth, |ns|
  {
    if ns != [] {
      assert ns[0] in ns && forall q :: q in ns[1..] ==> q in ns;
      var w1 := Topo(g, w, ns[0]);
      TopoExtends(g, w, ns[0], open);
      FewerUnmarked(g, w.visited, w1.visited);
      TopoAllExtends(g, w1, ns[1..], depth, open);
      ExtendsTrans(g, w, w1, TopoAll(g, w1, ns[1..], depth), open);
      forall q: Id | q in ns ensures q in TopoAll(g, w, ns, depth).visited {
        assert q == ns[0] || q in ns[1..];
      }
    }
  }

  ghost predicate Chain(g: Graph, path: seq<Id>, n: Id) {
    |path| > 0 && path[0] == g.end && path[|path|-1] == n && forall i :: 0 <= i < |path| - 1 ==> Follows(g, path[i], path[i+1])
  }

  ghost predicate Reached(g: Graph, n: Id) { exists path :: Chain(g, path, n) }

  /** Every node can be found from the End node, the only nodes libfirm keeps out-edges for. */
  ghost predicate AllReachable(g: Graph) { forall n: Id :: n < |g.nodes| ==> Reached(g, n) }

  lemma {:induction false} ClosedReaches(g: Graph, visited: set<Id>, path: seq<Id>, n: Id, i: nat)
    requires Closed(g, visited, {}) && Chain(g, path, n) && g.end in visited && i < |path|
    ensures path[i] in visited
  {
    if i > 0 {
      ClosedReaches(g, visited, path, n, i - 1);
      assert Follows(g, path[i-1], path[i-1+1]);
    }
  }

  /** The walk from the End node hands every node to initNode. */
  lemma TopoCoversGraph(g: Graph, n: Id)
    requires WellFormed(g) && AllReachable(g) && n < |g.nodes|
    ensures n in Topo(g, Walk({}, []), g.end).order
  {
    TopoExtends(g, Walk({}, []), g.end, {});
    assert Reached(g, n);
    var path :| Chain(g, path, n);
    ClosedReaches(g, Topo(g, Walk({}, []), g.end).visited, path, n, |path| - 1);
  }

  lemma TopoInRange(g: Graph)
    requires WellFormed(g)
    ensures forall n :: n in Topo(g, Walk({}, []), g.end).order ==> n < |g.nodes|
  {
    TopoExtends(g, Walk({}, []), g.end, {});
  }

  // ---- the jump out of the start block is the first control node ----

  /** Following first predecessors from block `b`, none of them Bad, reaches the start block after exactly `d` steps. */
  ghost predicate Distance(g: Graph, b: Id, d: nat)
    decreases d
  {
    && b < |g.nodes| && g.nodes[b].kind.Block?
    && if d == 0 then b == g.startBlock
       else
         && b != g.startBlock && g.nodes[b].kind.preds != [] && g.nodes[b].kind.preds[0] < |g.nodes|
         && !g.nodes[g.nodes[b].kind.preds[0]].kind.Bad? && Distance(g, g.nodes[g.nodes[b].kind.preds[0]].block, d - 1)
  }

  lemma {:induction false} DistanceUnique(g: Graph, b: Id, d: nat, e: nat)
    requires Distance(g, b, d) && Distance(g, b, e)
    ensures d == e
    decreases d
  {
    if d > 0 && e > 0 {
      DistanceUnique(g, g.nodes[g.nodes[b].kind.preds[0]].block, d - 1, e - 1);
    }
  }

  ghost predicate Farther(g: Graph, visited: set<Id>, d: nat) {
    forall m :: m in visited ==> exists e: nat :: e > d && Distance(g, m, e)
  }

  lemma NotYetThere(g: Graph, visited: set<Id>, b: Id, d: nat)
    requires Distance(g, b, d) && Farther(g, visited, d)
    ensures b !in visited
  {
    if b in visited {
      var e: nat :| e > d && Distance(g, b, e);
      DistanceUnique(g, b, d, e);
    }
  }

  lemma OnlyBlocks(g: Graph, visited: set<Id>, d: nat, m: Id)
    requires Farther(g, visited, d) && m in visited
    ensures m < |g.nodes| && g.nodes[m].kind.Block?
  {
    var e: nat :| e > d && Distance(g, m, e);
  }

  /** The walk goes down the chain of first predecessors before it lists anything. */
  lemma {:induction false} StartFirst(g: Graph, visited: set<Id>, b: Id, d: nat)
    requires WellFormed(g) && Distance(g, b, d) && Farther(g, visited, d)
    ensures var r := Topo(g, Walk(visited, []), b);
      if d == 0 then r == Walk(visited + {b}, [g.startBlock]) else [g.startBlock, g.startJmp] <= r.order
    decreases d, 0
  {
    NotYetThere(g, visited, b, d);
    var w1 := Walk(visited + {b}, []);
    assert Walk(visited, []).(visited := visited + {b}) == w1;
    if d > 0 {
      assert d > d - 1 && Distance(g, b, d);
      assert Farther(g, w1.visited, d - 1);
      BlockInputsFirst(g, w1.visited, b, d);
    } else {
      assert Operands(g.nodes[b].kind) == [];
      assert TopoInputs(g, w1, b) == w1;
    }
  }

  /** The inputs of a block start with its first predecessor. */
  lemma FirstInput(g: Graph, w: Walk, b: Id)
    requires WellFormed(g) && b < |g.nodes| && g.nodes[b].kind.Block? && g.nodes[b].kind.preds != []
    ensures var c := g.nodes[b].kind.preds[0]; c < |g.nodes| && Topo(g, w, c).order <= TopoInputs(g, w, b).order
  {
    OperandsBelow(g, b);
    var ops := Operands(g.nodes[b].kind);
    assert ops[0] in ops && forall q :: q in ops[1..] ==> q in ops;
    TopoAllExtends(g, Topo(g, w, ops[0]), ops[1..], |g.nodes| + 1, {});
  }

  lemma {:induction false} BlockInputsFirst(g: Graph, visited: set<Id>, b: Id, d: nat)
    requires WellFormed(g) && d > 0 && Distance(g, b, d) && Farther(g, visited, d - 1)
    ensures [g.startBlock, g.startJmp] <= TopoInputs(g, Walk(visited, []), b).order
    decreases d - 1, 2
  {
    assert WellFormedNode(g, b);
    assert g.nodes[b].kind.preds[0] in g.nodes[b].kind.preds;
    JumpFirst(g, visited, g.nodes[b].kind.preds[0], d - 1);
    FirstInput(g, Walk(visited, []), b);
  }

  lemma {:induction false} JumpFirst(g: Graph, visited: set<Id>, c: Id, d: nat)
    requires WellFormed(g) && c < |g.nodes| && IsModeX(g.nodes[c].kind) && !g.nodes[c].kind.Bad?
    requires Distance(g, g.nodes[c].block, d) && Farther(g, visited, d)
    ensures [g.startBlock, g.startJmp] <= Topo(g, Walk(visited, []), c).order
    decreases d, 1
  {
    assert WellFormedNode(g, c);
    if c in visited {
      OnlyBlocks(g, visited, d, c);
    }
    StartFirst(g, visited, g.nodes[c].block, d);
    OperandsBelow(g, c);
    var w1 := Topo(g, Walk(visited, []), g.nodes[c].block);
    TopoAllExtends(g, w1, Operands(g.nodes[c].kind), Depth(g, c), {});
  }

  /** Following first predecessors from the End node's block leads to the start block. */
  ghost predicate LeadsToStart(g: Graph) {
    g.end < |g.nodes| && exists d: nat :: d > 0 && Distance(g, g.nodes[g.end].block, d)
  }

  lemma StartJmpListedFirst(g: Graph)
    requires WellFormed(g) && LeadsToStart(g)
    ensures [g.startBlock, g.startJmp] <= Topo(g, Walk({}, []), g.end).order
  {
    assert WellFormedNode(g, g.end);
    var b := g.nodes[g.end].block;
    var d: nat :| d > 0 && Distance(g, b, d);
    StartFirst(g, {}, b, d);
    var w2 := Topo(g, Walk({}, []), b);
    FewerUnmarked(g, {}, w2.visited);
    OperandsBelow(g, g.end);
    TopoAllExtends(g, w2, Operands(g.nodes[g.end].kind), Depth(g, g.end), {});
  }
}
