/** Splitting of critical edges (remove_critical_edges in firm_visitor.cpp). */
module CriticalEdges {
  type Block = nat

  /** A control-flow predecessor: an exit of a block, or Bad, which has no block. */
  datatype Edge = From(block: Block, exit: nat) | Bad

  /** The predecessors of each block, in order. */
  type Graph = seq<seq<Edge>>

  ghost predicate IsEdge(g: Graph, b: Block, i: nat) { b < |g| && i < |g[b]| && g[b][i].From? }

  ghost predicate WellFormed(g: Graph) { forall b: Block, i: nat :: IsEdge(g, b, i) ==> g[b][i].block < |g| }

  ghost predicate Leaves(g: Graph, d: set<Block>, p: Block, b: Block, i: nat) { b in d && IsEdge(g, b, i) && g[b][i].block == p }

  /** At least two edges lead from block `p` into the blocks of `d`. */
  ghost predicate Several(g: Graph, d: set<Block>, p: Block) {
    exists b: Block, i: nat, c: Block, j: nat :: Leaves(g, d, p, b, i) && Leaves(g, d, p, c, j) && (b, i) != (c, j)
  }

  /** From a block with several successors into a block with several predecessors. */
  ghost predicate Critical(g: Graph, d: set<Block>, b: Block, i: nat) {
    b in d && IsEdge(g, b, i) && |g[b]| > 1 && Several(g, d, g[b][i].block)
  }

  /** Blocks found from the roots against the direction of control flow. */
  ghost predicate Discovered(g: Graph, d: set<Block>) {
    (forall b :: b in d ==> b < |g|) && forall b: Block, i: nat :: b in d && IsEdge(g, b, i) ==> g[b][i].block in d
  }

  // ---- what splitting a set of edges means ----

  type Place = (Block, nat)

  /** `h` is `g` with the edges at the places of `cut` led through new blocks of their own. */
  ghost predicate Split(g: Graph, h: Graph, cut: set<Place>) {
    && |g| <= |h|
    && (forall b: Block :: b < |g| ==> |h[b]| == |g[b]|)
    && (forall b: Block, i: nat :: b < |g| && i < |g[b]| && (b, i) !in cut ==> h[b][i] == g[b][i])
    && (forall b: Block, i: nat :: (b, i) in cut ==> Detours(g, h, b, i))
    && (forall b: Block, i: nat, c: Block, j: nat :: (b, i) in cut && (c, j) in cut && SameDetour(g, h, b, i, c, j) ==> b == c && i == j)
    && (forall n: Block :: |g| <= n < |h| ==> Inserted(g, h, cut, n))
  }

  /** The edge goes through a new block that has it as its only predecessor. */
  ghost predicate Detours(g: Graph, h: Graph, b: Block, i: nat) {
    && b < |g| <= |h| && i < |g[b]| && i < |h[b]| && g[b][i].From? && h[b][i].From? && h[b][i].exit == 0
    && |g| <= h[b][i].block < |h| && h[h[b][i].block] == [g[b][i]]
  }

  ghost predicate SameDetour(g: Graph, h: Graph, b: Block, i: nat, c: Block, j: nat) {
    Detours(g, h, b, i) && Detours(g, h, c, j) && h[b][i] == h[c][j]
  }

  ghost predicate Inserted(g: Graph, h: Graph, cut: set<Place>, n: Block) {
    exists b: Block, i: nat :: (b, i) in cut && Detours(g, h, b, i) && h[b][i].block == n
  }

  /** The edge before splitting: an edge out of a block added behind the first `n` is the one that leads into it. */
  function Undone(h: Graph, n: nat, e: Edge): Edge {
    if e.From? && n <= e.block < |h| && h[e.block] != [] then h[e.block][0] else e
  }

  /** Leaves out the blocks behind the first `n`. */
  function Contract(h: Graph, n: nat): (r: Graph)
    requires n <= |h|
    ensures |r| == n && forall b: Block :: b < n ==> |r[b]| == |h[b]| && forall i: nat :: i < |h[b]| ==> r[b][i] == Undone(h, n, h[b][i])
  {
    seq(n, b requires 0 <= b < n => seq(|h[b]|, i requires 0 <= i < |h[b]| => Undone(h, n, h[b][i])))
  }

  /** From the new graph and the number of old blocks alone the old graph can be read off: no edge was lost, added or
      moved to another place. */
  lemma ContractingRestores(g: Graph, h: Graph, cut: set<Place>)
    requires WellFormed(g) && Split(g, h, cut)
    ensures Contract(h, |g|) == g
  {
    var r := Contract(h, |g|);
    forall b: Block | b < |g| ensures r[b] == g[b] {
      forall i: nat | i < |g[b]| ensures r[b][i] == g[b][i] { PlaceRestored(g, h, cut, b, i); }
    }
  }

  lemma PlaceRestored(g: Graph, h: Graph, cut: set<Place>, b: Block, i: nat)
    requires WellFormed(g) && Split(g, h, cut) && b < |g| && i < |g[b]|
    ensures |h[b]| == |g[b]| && Undone(h, |g|, h[b][i]) == g[b][i]
  {
    if (b, i) in cut {
      assert Detours(g, h, b, i);
    } else if g[b][i].From? {
      assert IsEdge(g, b, i);
    }
  }

  /** Without edges to split nothing changes. */
  lemma SplitNone(g: Graph)
    ensures Split(g, g, {})
  {
  }

  function Through(g: Graph, b: Block, i: nat, e: Edge): Graph
    requires b < |g| && i < |g[b]|
  {
    g[b := g[b][i := From(|g|, 0)]] + [[e]]
  }

  lemma OldDetour(g: Graph, h: Graph, cut: set<Place>, b: Block, i: nat)
    requires Split(g, h, cut)
    ensures (b, i) in cut ==> Detours(g, h, b, i)
  {
  }

  lemma SplitOne(g: Graph, h: Graph, cut: set<Place>, b: Block, i: nat)
    requires WellFormed(g) && Split(g, h, cut) && IsEdge(g, b, i) && (b, i) !in cut
    ensures h[b][i] == g[b][i] && Split(g, Through(h, b, i, g[b][i]), cut + {(b, i)})
  {
    var k, c2 := Through(h, b, i, g[b][i]), cut + {(b, i)};
    forall c: Block, j: nat | (c, j) in c2 ensures Detours(g, k, c, j) {
      if (c, j) != (b, i) { assert Detours(g, h, c, j); }
    }
    forall n: Block | |g| <= n < |k| ensures Inserted(g, k, c2, n) {
      if n < |h| {
        assert Inserted(g, h, cut, n);
        var c: Block, j: nat :| (c, j) in cut && Detours(g, h, c, j) && h[c][j].block == n;
        assert (c, j) in c2 && Detours(g, k, c, j) && k[c][j].block == n;
      } else {
        assert (b, i) in c2 && Detours(g, k, b, i) && k[b][i].block == n;
      }
    }
    forall c: Block, j: nat, c': Block, j': nat | (c, j) in c2 && (c', j') in c2 && SameDetour(g, k, c, j, c', j')
      ensures c == c' && j == j'
    {
      OldDetour(g, h, cut, c, j);
      OldDetour(g, h, cut, c', j');
      assert (c, j) in cut && (c', j') in cut ==> SameDetour(g, h, c, j, c', j');
    }
  }

  // ---- no critical edge is left ----

  predicate IsNew(g: Graph, h: Graph, n: Block) { |g| <= n < |h| }

  ghost function AllOf(g: Graph, h: Graph, d: set<Block>): set<Block> { d + (set n: Block | n < |h| && IsNew(g, h, n)) }

  /** An inserted block has one predecessor, an old block. */
  lemma NewPred(g: Graph, h: Graph, cut: set<Place>, n: Block)
    requires WellFormed(g) && Split(g, h, cut) && IsNew(g, h, n)
    ensures |h[n]| == 1 && h[n][0].From? && h[n][0].block < |g|
  {
    assert Inserted(g, h, cut, n);
    var c: Block, j: nat :| (c, j) in cut && Detours(g, h, c, j) && h[c][j].block == n;
    assert IsEdge(g, c, j);
  }

  /** An edge of an old block comes from an inserted block exactly if it was split. */
  lemma OldPred(g: Graph, h: Graph, cut: set<Place>, b: Block, i: nat)
    requires WellFormed(g) && Split(g, h, cut) && b < |g| && IsEdge(h, b, i)
    ensures (b, i) in cut <==> h[b][i].block >= |g|
    ensures (b, i) in cut ==> Detours(g, h, b, i)
    ensures (b, i) !in cut ==> IsEdge(g, b, i) && h[b][i] == g[b][i]
  {
    OldDetour(g, h, cut, b, i);
    if (b, i) !in cut { assert IsEdge(g, b, i); }
  }

  ghost predicate CutIn(cut: set<Place>, d: set<Block>) { forall x: Block, y: nat :: (x, y) in cut ==> x in d }

  /** Where an edge of the new graph was in the old one. */
  lemma OldPlace(g: Graph, h: Graph, d: set<Block>, cut: set<Place>, p: Block, b: Block, i: nat) returns (c: Block, j: nat)
    requires WellFormed(g) && Split(g, h, cut) && Discovered(g, d) && CutIn(cut, d)
    requires p < |g| && Leaves(h, AllOf(g, h, d), p, b, i)
    ensures Leaves(g, d, p, c, j)
    ensures if b < |g| then (c, j) == (b, i) && (b, i) !in cut else (c, j) in cut && Detours(g, h, c, j) && h[c][j].block == b && i == 0
  {
    if b < |g| {
      OldPred(g, h, cut, b, i);
      c, j := b, i;
    } else {
      assert Inserted(g, h, cut, b);
      c, j :| (c, j) in cut && Detours(g, h, c, j) && h[c][j].block == b;
    }
  }

  /** A block of the old graph has several successors only if it had them before. */
  lemma SeveralBefore(g: Graph, h: Graph, d: set<Block>, cut: set<Place>, p: Block)
    requires WellFormed(g) && Split(g, h, cut) && Discovered(g, d) && CutIn(cut, d)
    requires p < |g| && Several(h, AllOf(g, h, d), p)
    ensures Several(g, d, p)
  {
    var all := AllOf(g, h, d);
    var b: Block, i: nat, c: Block, j: nat :| Leaves(h, all, p, b, i) && Leaves(h, all, p, c, j) && (b, i) != (c, j);
    var b1, i1 := OldPlace(g, h, d, cut, p, b, i);
    var c1, j1 := OldPlace(g, h, d, cut, p, c, j);
    assert Leaves(g, d, p, b1, i1) && Leaves(g, d, p, c1, j1) && (b1, i1) != (c1, j1);
  }

  /** An inserted block has one successor. */
  lemma InsertedHasOne(g: Graph, h: Graph, d: set<Block>, cut: set<Place>, n: Block)
    requires WellFormed(g) && Split(g, h, cut) && Discovered(g, d) && |g| <= n
    ensures !Several(h, AllOf(g, h, d), n)
  {
    var all := AllOf(g, h, d);
    forall b: Block, i: nat, c: Block, j: nat | Leaves(h, all, n, b, i) && Leaves(h, all, n, c, j) ensures b == c && i == j {
      OnlyCutsLeave(g, h, d, cut, n, b, i);
      OnlyCutsLeave(g, h, d, cut, n, c, j);
      assert SameDetour(g, h, b, i, c, j);
    }
  }

  lemma OnlyCutsLeave(g: Graph, h: Graph, d: set<Block>, cut: set<Place>, n: Block, b: Block, i: nat)
    requires WellFormed(g) && Split(g, h, cut) && Discovered(g, d) && |g| <= n && Leaves(h, AllOf(g, h, d), n, b, i)
    ensures (b, i) in cut && Detours(g, h, b, i)
  {
    if b < |g| {
      OldPred(g, h, cut, b, i);
    } else {
      NewPred(g, h, cut, b);
    }
  }

  /** Main result: among the blocks found and the blocks inserted there is no critical edge. */
  lemma NoCriticalEdgeLeft(g: Graph, h: Graph, d: set<Block>, cut: set<Place>, b: Block, i: nat)
    requires WellFormed(g) && Discovered(g, d) && Split(g, h, cut)
    requires forall x: Block, y: nat :: (x, y) in cut <==> Critical(g, d, x, y)
    ensures !Critical(h, AllOf(g, h, d), b, i)
  {
    if b in AllOf(g, h, d) && IsEdge(h, b, i) {
      if IsNew(g, h, b) {
        NewPred(g, h, cut, b);
      } else {
        OldPred(g, h, cut, b, i);
        if h[b][i].block >= |g| {
          InsertedHasOne(g, h, d, cut, h[b][i].block);
        } else if Several(h, AllOf(g, h, d), h[b][i].block) {
          SeveralBefore(g, h, d, cut, h[b][i].block);
        }
      }
    }
  }

  // ---- the pass ----

  /** The counted edges that leave block `p`. */
  ghost function Out(g: Graph, seen: set<Place>, p: Block): set<Place> {
    set x | x in seen && IsEdge(g, x.0, x.1) && g[x.0][x.1].block == p
  }

  ghost predicate IsSplit(g: Graph, h: Graph, d: set<Block>) {
    exists cut: set<Place> :: Split(g, h, cut) && forall x: Block, y: nat :: (x, y) in cut <==> Critical(g, d, x, y)
  }

  lemma OutGrows(g: Graph, seen: set<Place>, b: Block, i: nat, p: Block)
    requires (b, i) !in seen
    ensures |Out(g, seen + {(b, i)}, p)| == |Out(g, seen, p)| + if IsEdge(g, b, i) && g[b][i].block == p then 1 else 0
  {
    if IsEdge(g, b, i) && g[b][i].block == p {
      assert Out(g, seen + {(b, i)}, p) == Out(g, seen, p) + {(b, i)};
    } else {
      assert Out(g, seen + {(b, i)}, p) == Out(g, seen, p);
    }
  }

  lemma TwoElements(s: set<Place>)
    ensures |s| > 1 <==> exists x, y :: x in s && y in s && x != y
  {
    if |s| > 1 {
      var x :| x in s;
      assert |s - {x}| > 0;
      var y :| y in s - {x};
    }
    if x, y :| x in s && y in s && x != y {
      assert |s - {x} - {y}| == |s| - 2;
    }
  }

  class CriticalEdgeRemover {
    var preds: Graph
    var newBlocks: seq<Block>
    var numBlockPreds: map<Block, nat>
    var numBlockSuccs: map<Block, nat>
    ghost var seen: set<Place>

    constructor (g: Graph)
      ensures preds == g && newBlocks == [] && numBlockPreds == map[] && numBlockSuccs == map[] && seen == {}
    {
      preds, newBlocks, numBlockPreds, numBlockSuccs, seen := g, [], map[], map[], {};
    }

    function Succs(p: Block): nat
      reads this
    {
      if p in numBlockSuccs then numBlockSuccs[p] else 0
    }

    /** The edges of the blocks counted so far, the first `k` ones of block `b` included. */
    ghost predicate Counting(b: Block, k: nat)
      reads this
    {
      && WellFormed(preds)
      && (forall x: Block, y: nat :: (x, y) in seen <==> IsEdge(preds, x, y) && (x in numBlockPreds.Keys - {b} || (x == b && y < k)))
      && (forall p: Block :: Succs(p) == |Out(preds, seen, p)|)
      && (forall x :: x in numBlockPreds ==> x < |preds|) && (forall x :: x in newBlocks ==> x < |preds|)
      && (forall x: Block, y: nat :: (x, y) in seen ==>
            preds[x][y].block in numBlockPreds || preds[x][y].block in newBlocks || preds[x][y].block == b)
    }

    /** One more edge of `block`. */
    method CountEdge(block: Block, i: nat)
      requires block < |preds| && i < |preds[block]| && Counting(block, i)
      modifies this`newBlocks, this`numBlockSuccs, this`seen
      ensures Counting(block, i + 1) && forall x :: x in old(newBlocks) ==> x in newBlocks
    {
      var e := preds[block][i];
      if e.From? {
        assert IsEdge(preds, block, i);
        forall p: Block ensures |Out(preds, seen + {(block, i)}, p)| == |Out(preds, seen, p)| + if e.block == p then 1 else 0 {
          OutGrows(preds, seen, block, i, p);
        }
        newBlocks := newBlocks + [e.block];
        numBlockSuccs := numBlockSuccs[e.block := Succs(e.block) + 1];
        seen := seen + {(block, i)};
      }
    }

    /** The queue's front block: counted, if it is new. */
    method CountBlock(block: Block)
      requires block < |preds| && Counting(block, 0) && block !in numBlockPreds
      modifies this`newBlocks, this`numBlockPreds, this`numBlockSuccs, this`seen
      ensures Counting(block, |preds[block]|) && numBlockPreds == old(numBlockPreds)[block := |preds[block]|]
      ensures forall x :: x in old(newBlocks) ==> x in newBlocks
    {
      numBlockPreds := numBlockPreds[block := |preds[block]|];
      assert numBlockPreds.Keys - {block} == old(numBlockPreds.Keys) - {block};
      var i := 0;
      while i < |preds[block]|
        invariant i <= |preds[block]| && Counting(block, i) && numBlockPreds == old(numBlockPreds)[block := |preds[block]|]
        invariant forall x :: x in old(newBlocks) ==> x in newBlocks
      {
        CountEdge(block, i);
        i := i + 1;
      }
    }

    /** Every edge of the counted blocks is counted. */
    ghost predicate Counted()
      reads this
    {
      && WellFormed(preds)
      && (forall x: Block, y: nat :: (x, y) in seen <==> IsEdge(preds, x, y) && x in numBlockPreds)
      && (forall p: Block :: Succs(p) == |Out(preds, seen, p)|)
      && (forall x :: x in numBlockPreds ==> x < |preds| && numBlockPreds[x] == |preds[x]|)
      && (forall x :: x in newBlocks ==> x < |preds|)
      && (forall x: Block, y: nat :: (x, y) in seen ==> preds[x][y].block in numBlockPreds || preds[x][y].block in newBlocks)
    }

    /** Blocks not counted yet. */
    ghost function Uncounted(): set<Block>
      reads this
    {
      set b: Block | b < |preds| && b !in numBlockPreds
    }

    method VisitFront()
      requires Counted() && newBlocks != []
      modifies this`newBlocks, this`numBlockPreds, this`numBlockSuccs, this`seen
      ensures Counted() && numBlockPreds.Keys == old(numBlockPreds.Keys) + {old(newBlocks[0])}
      ensures forall x :: x in old(newBlocks) ==> x in newBlocks || x in numBlockPreds
      ensures |Uncounted()| < old(|Uncounted()|) || (|Uncounted()| == old(|Uncounted()|) && |newBlocks| < |old(newBlocks)|)
    {
      var block := newBlocks[0];
      assert block in newBlocks;
      newBlocks := newBlocks[1..];
      assert forall x :: x in old(newBlocks) ==> x == block || x in newBlocks;
      assert forall x :: x in newBlocks ==> x in old(newBlocks);
      assert forall p: Block :: Succs(p) == old(Succs(p));
      if block !in numBlockPreds {
        assert numBlockPreds.Keys - {block} == numBlockPreds.Keys;
        assert Counting(block, 0);
        CountBlock(block);
        assert forall x: Block, y: nat :: IsEdge(preds, x, y) && x == block ==> y < |preds[block]|;
        assert Uncounted() == old(Uncounted()) - {block} && block in old(Uncounted());
      } else {
        assert numBlockPreds.Keys == numBlockPreds.Keys + {block};
      }
    }

    /** The search from the end block and the blocks that are kept alive. */
    method Discover(roots: seq<Block>)
      requires WellFormed(preds) && (forall r :: r in roots ==> r < |preds|)
      requires newBlocks == [] && numBlockPreds == map[] && numBlockSuccs == map[] && seen == {}
      modifies this`newBlocks, this`numBlockPreds, this`numBlockSuccs, this`seen
      ensures Counted() && newBlocks == [] && forall r :: r in roots ==> r in numBlockPreds
    {
      newBlocks := roots;
      assert forall p: Block :: Out(preds, seen, p) == {};
      while newBlocks != []
        invariant Counted() && forall r :: r in roots ==> r in numBlockPreds || r in newBlocks
        decreases |Uncounted()|, |newBlocks|
      {
        VisitFront();
      }
    }

    /** Splits the critical edges into one block, beginning with `cut`. */
    method SplitBlock(block: Block, ghost g: Graph, ghost d: set<Block>, ghost cut: set<Place>) returns (ghost cut': set<Place>)
      requires WellFormed(g) && Split(g, preds, cut) && block in d && block < |g| && (forall y: nat :: (block, y) !in cut)
      requires forall p: Block :: Succs(p) > 1 <==> Several(g, d, p)
      modifies this`preds
      ensures Split(g, preds, cut')
      ensures forall x: Block, y: nat :: (x, y) in cut' <==> (x, y) in cut || (x == block && Critical(g, d, x, y))
    {
      cut' := cut;
      if |preds[block]| > 1 {
        var i := 0;
        while i < |preds[block]|
          invariant Split(g, preds, cut') && i <= |preds[block]| == |g[block]|
          invariant forall x: Block, y: nat :: (x, y) in cut' <==> (x, y) in cut || (x == block && y < i && Critical(g, d, x, y))
        {
          assert (block, i) !in cut' && preds[block][i] == g[block][i];
          var e := preds[block][i];
          if e.From? && Succs(e.block) > 1 {
            assert IsEdge(g, block, i);
            SplitOne(g, preds, cut', block, i);
            preds := Through(preds, block, i, e);
            cut' := cut' + {(block, i)};
          }
          i := i + 1;
        }
      }
    }

    /** The second loop; the hash map may list the blocks in any order. */
    method SplitAll()
      requires Counted() && newBlocks == []
      modifies this`preds
      ensures IsSplit(old(preds), preds, numBlockPreds.Keys)
    {
      ghost var g, d := preds, numBlockPreds.Keys;
      ghost var cut: set<Place> := {};
      SplitNone(g);
      forall p: Block ensures Succs(p) > 1 <==> Several(g, d, p) { CountsDecide(p); }
      var todo := numBlockPreds.Keys;
      while todo != {}
        invariant todo <= d && Split(g, preds, cut)
        invariant forall p: Block :: Succs(p) > 1 <==> Several(g, d, p)
        invariant forall x: Block, y: nat :: (x, y) in cut <==> x !in todo && Critical(g, d, x, y)
      {
        var block :| block in todo;
        cut := SplitBlock(block, g, d, cut);
        todo := todo - {block};
      }
    }

    /** A block has several successors if and only if more than one edge was counted. */
    lemma CountsDecide(p: Block)
      requires Counted()
      ensures Succs(p) > 1 <==> Several(preds, numBlockPreds.Keys, p)
    {
      var o, d := Out(preds, seen, p), numBlockPreds.Keys;
      TwoElements(o);
      if x, y :| x in o && y in o && x != y {
        assert Leaves(preds, d, p, x.0, x.1) && Leaves(preds, d, p, y.0, y.1) && (x.0, x.1) != (y.0, y.1);
      }
      if Several(preds, d, p) {
        var b: Block, i: nat, c: Block, j: nat :| Leaves(preds, d, p, b, i) && Leaves(preds, d, p, c, j) && (b, i) != (c, j);
        assert (b, i) in o && (c, j) in o;
      }
    }

    /** remove_critical_edges. */
    method Run(roots: seq<Block>)
      requires WellFormed(preds) && (forall r :: r in roots ==> r < |preds|)
      requires newBlocks == [] && numBlockPreds == map[] && numBlockSuccs == map[] && seen == {}
      modifies this
      ensures var d := numBlockPreds.Keys;
        && (forall r :: r in roots ==> r in d) && Discovered(old(preds), d) && IsSplit(old(preds), preds, d)
        && forall b: Block, i: nat :: !Critical(preds, AllOf(old(preds), preds, d), b, i)
    {
      Discover(roots);
      ghost var g, d := preds, numBlockPreds.Keys;
      assert forall b: Block, i: nat :: b in d && IsEdge(g, b, i) ==> (b, i) in seen;
      SplitAll();
      ghost var cut: set<Place> :| Split(g, preds, cut) && forall x: Block, y: nat :: (x, y) in cut <==> Critical(g, d, x, y);
      forall b: Block, i: nat ensures !Critical(preds, AllOf(g, preds, d), b, i) {
        NoCriticalEdgeLeft(g, preds, d, cut, b, i);
      }
    }
  }
}
