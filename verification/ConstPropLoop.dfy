/** Loops on which constant propagation (const_prop_pass.hpp) never comes to rest although every block is reached. */
module ConstPropLoop {
  import opened Wrappers
  import opened FirmGraph
  import opened FirmPass
  import opened ConstProp
  import opened ConstPropInvariant
  import opened ConstPropSubst
  import opened ConstPropRest
  import opened ConstPropTurns
  import opened ConstPropWalk
  import opened ConstPropAdrift
  import opened ConstPropPassClass

  // ---- x = first; do x = x + first while (bound < x); return x ----

  /** Block 2 is the loop: phi 7, sum 8, comparison 9, condition 10; edge 11 goes back, edge 12 leads to the return. */
  function Loop(first: int, bound: int): Graph {
    Graph(
      [Node(Block([]), 0), Node(Jmp, 0), Node(Block([1, 11]), 2), Node(Block([12]), 3), Node(Block([13]), 4),
       Node(Const(Num(Is, first)), 0), Node(Const(Num(Is, bound)), 0), Node(Phi([5, 8]), 2), Node(Arith(Add, 7, 5, 0), 2),
       Node(Cmp(Less, 6, 8), 2), Node(Cond(9), 2), Node(ProjX(10, true), 2), Node(ProjX(10, false), 2),
       Node(Return([7]), 3), Node(End([]), 4)],
      [[1, 5, 6], [2], [7, 8, 9, 10, 11, 12], [13], [14], [7, 8], [9], [8, 13], [7, 9], [10], [11, 12], [2], [3], [4], []],
      [0, 0, 0, 0, 0, 0, 0, 0, 1, 2, 3, 4, 4, 1, 0], {}, 0, 1, 14)
  }

  // ---- the graph is one that the pass accepts ----

  function LoopBlock(n: Id): Id {
    if n == 1 || n == 5 || n == 6 then 0 else if 7 <= n <= 12 then 2 else if n == 13 then 3 else if n == 14 then 4 else n
  }

  function LoopOps(n: Id): seq<Id> {
    if n == 2 then [1, 11]
    else if n == 3 then [12]
    else if n == 4 then [13]
    else if n == 7 then [5, 8]
    else if n == 8 then [7, 5]
    else if n == 9 then [6, 8]
    else if n == 10 then [9]
    else if n == 11 || n == 12 then [10]
    else if n == 13 then [7]
    else []
  }

  predicate LoopBreaker(n: Id) { n == 0 || n == 2 || n == 3 || n == 4 || n == 7 }

  predicate LoopEdge(n: Id, q: Id) { q in LoopOps(n) }

  predicate LoopMember(n: Id, b: Id) { n < 15 && LoopBlock(n) == b && b != n }

  lemma LoopUses(first: int, bound: int, n: Id, q: Id)
    ensures Uses(Loop(first, bound), n, q) <==> LoopEdge(n, q)
  {
    if n < 15 { LoopOperands(first, bound, n, q); }
  }

  lemma LoopOperands(first: int, bound: int, n: Id, q: Id)
    requires n < 15
    ensures q in Operands(Loop(first, bound).nodes[n].kind) <==> LoopEdge(n, q)
  {
    var ops := Operands(Loop(first, bound).nodes[n].kind);
    if n == 2 { assert ops == [1, 11]; }
    if n == 3 { assert ops == [12]; }
    if n == 4 { assert ops == [13]; }
    if n == 7 { assert ops == [5, 8]; }
    if n == 13 { assert ops == [7]; }
    if n == 14 { assert ops == []; }
    if n == 0 { assert ops == []; }
  }

  lemma LoopMembers(first: int, bound: int, n: Id, b: Id)
    ensures Member(Loop(first, bound), n, b) <==> LoopMember(n, b)
  {
  }

  lemma LoopOuts(first: int, bound: int, n: Id, u: Id)
    requires n < 15
    ensures u in Loop(first, bound).outs[n] <==> LoopEdge(u, n) || LoopMember(u, n)
  {
  }

  lemma LoopOutsExact(first: int, bound: int)
    ensures OutsExact(Loop(first, bound))
  {
    var g := Loop(first, bound);
    assert |g.nodes| == 15 && |g.outs| == 15;
    forall n: Id, q: Id | Uses(g, n, q) && q < 15 ensures n in g.outs[q] {
      LoopUses(first, bound, n, q);
      LoopOuts(first, bound, q, n);
    }
    forall n: Id | n < 15 && !g.nodes[n].kind.Block? && g.nodes[n].block < 15 ensures n in g.outs[g.nodes[n].block] {
      LoopMembers(first, bound, n, g.nodes[n].block);
      LoopOuts(first, bound, g.nodes[n].block, n);
    }
    forall n: Id, u: Id | n < 15 && u in g.outs[n] ensures Uses(g, u, n) || Member(g, u, n) {
      LoopOuts(first, bound, n, u);
      LoopUses(first, bound, u, n);
      LoopMembers(first, bound, u, n);
    }
  }

  lemma LoopNode(first: int, bound: int, n: Id)
    requires n < 15
    ensures WellFormedNode(Loop(first, bound), n)
  {
    var g := Loop(first, bound);
    forall q | q in Operands(g.nodes[n].kind)
      ensures q < 15 && (IsValue(g.nodes[n].kind) ==> IsValue(g.nodes[q].kind)) && (g.nodes[n].kind.Block? ==> IsModeX(g.nodes[q].kind))
    {
      LoopOperands(first, bound, n, q);
    }
  }

  lemma LoopAcyclic(first: int, bound: int)
    ensures Acyclic(Loop(first, bound))
  {
    var g := Loop(first, bound);
    assert |g.nodes| == 15 && |g.rank| == 15;
    forall n: Id, q: Id | Uses(g, n, q) && !IsBreaker(g.nodes[n].kind) && q < 15 ensures g.rank[q] < g.rank[n] {
      LoopUses(first, bound, n, q);
    }
  }

  lemma LoopKinds(first: int, bound: int)
    ensures var g := Loop(first, bound);
      g.nodes[0] == Node(Block([]), 0) && g.nodes[1] == Node(Jmp, 0) && g.nodes[14].kind.End?
  {
  }

  /** There are no divisions, and no node of mode M. */
  lemma LoopMemory(first: int, bound: int)
    ensures MemoryTyped(Loop(first, bound))
  {
    var g := Loop(first, bound);
    forall n: Id | n < |g.nodes| ensures !IsMemop(g.nodes[n].kind) && !g.nodes[n].kind.ProjMem? { }
  }

  lemma LoopFormed(first: int, bound: int)
    ensures WellFormed(Loop(first, bound)) && MemoryTyped(Loop(first, bound))
  {
    var g := Loop(first, bound);
    forall n: Id | n < |g.nodes| ensures WellFormedNode(g, n) { LoopNode(first, bound, n); }
    LoopOutsExact(first, bound);
    LoopAcyclic(first, bound);
    LoopKinds(first, bound);
    LoopMemory(first, bound);
  }

  lemma LoopSsa(first: int, bound: int)
    ensures IsSsa(Loop(first, bound))
  {
    forall n: Id | n < |Loop(first, bound).nodes| ensures Dominated(Loop(first, bound), n) { LoopDominated(first, bound, n); }
  }

  lemma LoopBlocks(first: int, bound: int, n: Id)
    requires n < 15
    ensures Loop(first, bound).nodes[n].block == LoopBlock(n)
  {
  }

  lemma LoopNeeds(first: int, bound: int, q: Id, n: Id)
    requires q < 15 && n < 15 && (LoopBlock(q) == 0 || LoopBlock(q) == LoopBlock(n))
    ensures NeedsAt(Loop(first, bound), q, n)
  {
    LoopBlocks(first, bound, q);
    LoopBlocks(first, bound, n);
    NearDominates(Loop(first, bound), LoopBlock(q), LoopBlock(n));
  }

  lemma LoopPhiDominated(first: int, bound: int)
    ensures Dominated(Loop(first, bound), 7)
  {
    LoopNeeds(first, bound, 5, 1);
    LoopNeeds(first, bound, 8, 11);
  }

  lemma LoopEdgeDominated(first: int, bound: int, n: Id)
    requires n == 11 || n == 12
    ensures Dominated(Loop(first, bound), n)
  {
    LoopNeeds(first, bound, 9, n);
  }

  lemma LoopDominated(first: int, bound: int, n: Id)
    requires n < 15
    ensures Dominated(Loop(first, bound), n)
  {
    if n == 7 {
      LoopPhiDominated(first, bound);
    } else if n == 11 || n == 12 {
      LoopEdgeDominated(first, bound, n);
    } else {
      LoopValueDominated(first, bound, n);
    }
  }

  lemma LoopValueDominated(first: int, bound: int, n: Id)
    requires n < 15 && n != 7 && n != 11 && n != 12
    ensures Dominated(Loop(first, bound), n)
  {
    var k := Loop(first, bound).nodes[n].kind;
    assert !k.Phi? && !k.ProjX? && (IsValue(k) ==> n == 5 || n == 6 || n == 8 || n == 9);
    forall q: Id | IsValue(k) && q in Operands(k) ensures NeedsAt(Loop(first, bound), q, n) {
      LoopOperands(first, bound, n, q);
      LoopNeeds(first, bound, q, n);
    }
  }

  /** A path from the End node to each node. */
  function LoopPath(n: Id): seq<Id> {
    if n == 0 then [14, 4, 13, 3, 12, 2, 1, 0]
    else if n == 1 then [14, 4, 13, 3, 12, 2, 1]
    else if n == 2 then [14, 4, 13, 3, 12, 2]
    else if n == 3 then [14, 4, 13, 3]
    else if n == 4 then [14, 4]
    else if n == 5 then [14, 4, 13, 7, 5]
    else if n == 6 then [14, 4, 13, 3, 12, 10, 9, 6]
    else if n == 7 then [14, 4, 13, 7]
    else if n == 8 then [14, 4, 13, 7, 8]
    else if n == 9 then [14, 4, 13, 3, 12, 10, 9]
    else if n == 10 then [14, 4, 13, 3, 12, 10]
    else if n == 11 then [14, 4, 13, 3, 12, 2, 11]
    else if n == 12 then [14, 4, 13, 3, 12]
    else if n == 13 then [14, 4, 13]
    else [14]
  }

  predicate LoopLink(m: Id, q: Id) { LoopEdge(m, q) || LoopMember(m, q) }

  lemma LoopFollows(first: int, bound: int, m: Id, q: Id)
    requires LoopLink(m, q)
    ensures Follows(Loop(first, bound), m, q)
  {
    LoopUses(first, bound, m, q);
    LoopMembers(first, bound, m, q);
  }

  lemma LoopPathLinks(n: Id)
    requires n < 15
    ensures var path := LoopPath(n);
      |path| > 0 && path[0] == 14 && path[|path|-1] == n && forall i :: 0 <= i < |path| - 1 ==> LoopLink(path[i], path[i+1])
  {
  }

  lemma LoopReached(first: int, bound: int, n: Id)
    requires n < 15
    ensures Reached(Loop(first, bound), n)
  {
    LoopPathLinks(n);
    var path := LoopPath(n);
    forall i | 0 <= i < |path| - 1 ensures Follows(Loop(first, bound), path[i], path[i+1]) {
      LoopFollows(first, bound, path[i], path[i+1]);
    }
    assert Chain(Loop(first, bound), path, n);
  }

  lemma LoopLeads(first: int, bound: int)
    ensures LeadsToStart(Loop(first, bound))
  {
    var g := Loop(first, bound);
    assert Distance(g, 0, 0);
    assert Distance(g, 2, 1) by { assert g.nodes[2].kind.preds[0] == 1 && g.nodes[1].block == 0; }
    assert Distance(g, 3, 2) by { assert g.nodes[3].kind.preds[0] == 12 && g.nodes[12].block == 2; }
    assert Distance(g, 4, 3) by { assert g.nodes[4].kind.preds[0] == 13 && g.nodes[13].block == 3; }
    assert g.nodes[g.end].block == 4;
  }

  lemma LoopAccepted(first: int, bound: int)
    ensures Accepts(Loop(first, bound)) && IsSsa(Loop(first, bound))
  {
    LoopFormed(first, bound);
    LoopSsa(first, bound);
    forall n: Id | n < |Loop(first, bound).nodes| ensures Reached(Loop(first, bound), n) { LoopReached(first, bound, n); }
    LoopLeads(first, bound);
  }

  /** No edge of the graph lies adrift. */
  lemma LoopNotAdrift(first: int, bound: int, region: set<Id>, c: Id)
    requires Adrift(Loop(first, bound), region)
    ensures !Inner(Loop(first, bound), region, c)
  {
  }

  lemma LoopNodesAre(first: int, bound: int)
    ensures var g := Loop(first, bound);
      && g.nodes[2].kind == Block([1, 11]) && g.nodes[7] == Node(Phi([5, 8]), 2) && g.nodes[8].kind == Arith(Add, 7, 5, 0)
      && g.nodes[9].kind == Cmp(Less, 6, 8) && g.nodes[10].kind == Cond(9) && g.nodes[11] == Node(ProjX(10, true), 2)
      && g.nodes[12] == Node(ProjX(10, false), 2) && g.nodes[13].kind.Return?
  {
  }

  lemma LoopOutsAre(first: int, bound: int)
    ensures var g := Loop(first, bound);
      && g.outs[7] == [8, 13] && g.outs[8] == [7, 9] && g.outs[9] == [10] && g.outs[10] == [11, 12]
      && g.outs[11] == [2] && g.outs[12] == [3] && g.outs[2] == [7, 8, 9, 10, 11, 12] && g.outs[3] == [13]
  {
  }

  /** What a mark on the edge back or the edge out wakes. */
  lemma BackWakes(g: Graph)
    requires |g.nodes| == 15 == |g.outs| && g.outs[2] == [7, 8, 9, 10, 11, 12]
    requires g.nodes[7].kind.Phi? && g.nodes[8].kind.Arith? && g.nodes[9].kind.Cmp? && g.nodes[10].kind.Cond?
    requires g.nodes[11].kind.ProjX? && g.nodes[12].kind.ProjX?
    ensures WokenIn(g, [2]) == [7, 11, 12]
  {
    assert Woken(g, []) == [] && WokenIn(g, []) == [];
    assert Woken(g, [12]) == [12] && Woken(g, [11, 12]) == [11] + [12] && Woken(g, [10, 11, 12]) == [] + [11, 12];
    assert Woken(g, [9, 10, 11, 12]) == [] + [11, 12] && Woken(g, [8, 9, 10, 11, 12]) == [] + [11, 12];
    assert Woken(g, [7, 8, 9, 10, 11, 12]) == [7] + [11, 12];
    assert WokenIn(g, [2]) == [7, 11, 12] + [];
  }

  lemma OutWakes(g: Graph)
    requires |g.nodes| == 15 == |g.outs| && g.outs[3] == [13] && g.nodes[13].kind.Return?
    ensures WokenIn(g, [3]) == [13]
  {
    assert Woken(g, [13]) == [13] + [] && WokenIn(g, [3]) == [13] + [];
  }

  lemma LoopIdles(first: int, bound: int)
    ensures var g := Loop(first, bound);
      forall n: Id :: n < 7 || 12 < n < 15 ==> IdleKind(g.nodes[n].kind) && (g.nodes[n].kind.Jmp? ==> n == 1)
  {
  }

  lemma PartsTogether(g: Graph)
    requires WellFormed(g) && |g.nodes| == 15 && g.startBlock == 0
    requires g.nodes[2].kind == Block([1, 11]) && g.nodes[7] == Node(Phi([5, 8]), 2) && g.nodes[8].kind == Arith(Add, 7, 5, 0)
    requires g.nodes[9].kind == Cmp(Less, 6, 8) && g.nodes[10].kind == Cond(9) && g.nodes[11] == Node(ProjX(10, true), 2)
    requires g.nodes[12] == Node(ProjX(10, false), 2) && g.nodes[13].kind.Return?
    requires g.outs[7] == [8, 13] && g.outs[8] == [7, 9] && g.outs[9] == [10] && g.outs[10] == [11, 12]
    requires g.outs[11] == [2] && g.outs[12] == [3] && g.outs[2] == [7, 8, 9, 10, 11, 12] && g.outs[3] == [13]
    requires forall n: Id :: n < 7 || 12 < n < 15 ==> IdleKind(g.nodes[n].kind) && (g.nodes[n].kind.Jmp? ==> n == 1)
    ensures LoopParts(g)
  {
    BackWakes(g);
    OutWakes(g);
  }

  lemma LoopHasParts(first: int, bound: int)
    ensures LoopParts(Loop(first, bound))
  {
    LoopFormed(first, bound);
    LoopNodesAre(first, bound);
    LoopOutsAre(first, bound);
    LoopIdles(first, bound);
    PartsTogether(Loop(first, bound));
  }

  // ---- the walk from the End node ----

  ghost predicate Row(g: Graph, n: Id) { Shaped(g, n, LoopBlock(n), LoopOps(n), LoopBreaker(n)) }

  /** A graph with the inputs of the loop. */
  ghost predicate LoopTable(g: Graph) { WellFormed(g) && |g.nodes| == 15 && forall n: Id :: n < 15 ==> Row(g, n) }

  /** A block or phi that has not been seen. */
  lemma ListBreaker(g: Graph, open: set<Id>, order: seq<Id>, n: Id, middle: seq<Id>, order': seq<Id>)
    requires LoopTable(g) && n < 15 && LoopBreaker(n) && n !in open && n !in order
    requires LoopBlock(n) == n || Lists(g, open + {n}, order, LoopBlock(n), order)
    requires |LoopOps(n)| <= 2 && ListsAll(g, open + {n}, order, LoopOps(n), middle, order')
    ensures Lists(g, open, order, n, order' + [n])
  {
    assert Row(g, n);
    BreakerListed(g, open, order, n, LoopBlock(n), LoopOps(n), middle, order');
  }

  /** Any other node that has not been seen; it may be by the time its operands have been. */
  lemma ListNode(g: Graph, open: set<Id>, order: seq<Id>, n: Id, start: seq<Id>, middle: seq<Id>, order': seq<Id>)
    requires LoopTable(g) && n < 15 && !LoopBreaker(n) && n !in open && n !in order
    requires Lists(g, open, order, LoopBlock(n), start)
    requires |LoopOps(n)| <= 2 && ListsAll(g, open, start, LoopOps(n), middle, order')
    ensures Lists(g, open, order, n, if n in order' then order' else order' + [n])
  {
    assert Row(g, n);
    NodeListed(g, open, order, n, LoopBlock(n), LoopOps(n), start, middle, order');
  }

  lemma WalkEntry(g: Graph)
    requires LoopTable(g)
    ensures Lists(g, {2, 3, 4}, [], 1, [0, 1])
  {
    ListBreaker(g, {2, 3, 4}, [], 0, [], []);
    assert [] + [0] == [0] && [0] + [1] == [0, 1];
    ListNode(g, {2, 3, 4}, [], 1, [0], [0], [0]);
  }

  lemma WalkSum(g: Graph)
    requires LoopTable(g)
    ensures Lists(g, {2, 3, 4, 7}, [0, 1, 6, 5], 8, [0, 1, 6, 5, 8])
  {
    var open, order := {2, 3, 4, 7}, [0, 1, 6, 5];
    Seen(g, open, order, 2);
    Seen(g, open, order, 7);
    Seen(g, open, order, 5);
    ListNode(g, open, order, 8, order, order, order);
    assert order + [8] == [0, 1, 6, 5, 8];
  }

  lemma WalkFirst(g: Graph)
    requires LoopTable(g)
    ensures Lists(g, {2, 3, 4, 7}, [0, 1, 6], 5, [0, 1, 6, 5])
  {
    var open, order := {2, 3, 4, 7}, [0, 1, 6];
    Seen(g, open, order, 0);
    ListNode(g, open, order, 5, order, [], order);
    assert order + [5] == [0, 1, 6, 5];
  }

  lemma WalkPhi(g: Graph)
    requires LoopTable(g)
    ensures Lists(g, {2, 3, 4}, [0, 1, 6], 7, [0, 1, 6, 5, 8, 7])
  {
    WalkFirst(g);
    WalkSum(g);
    assert {2, 3, 4} + {7} == {2, 3, 4, 7};
    Seen(g, {2, 3, 4, 7}, [0, 1, 6], 2);
    ListBreaker(g, {2, 3, 4}, [0, 1, 6], 7, [0, 1, 6, 5], [0, 1, 6, 5, 8]);
    assert [0, 1, 6, 5, 8] + [7] == [0, 1, 6, 5, 8, 7];
  }

  lemma WalkBound(g: Graph)
    requires LoopTable(g)
    ensures Lists(g, {2, 3, 4}, [0, 1], 6, [0, 1, 6])
  {
    Seen(g, {2, 3, 4}, [0, 1], 0);
    ListNode(g, {2, 3, 4}, [0, 1], 6, [0, 1], [], [0, 1]);
    assert [0, 1] + [6] == [0, 1, 6];
  }

  /** The sum is listed on the way to its own operand. */
  lemma WalkOperands(g: Graph)
    requires LoopTable(g)
    ensures Lists(g, {2, 3, 4}, [0, 1, 6], 8, [0, 1, 6, 5, 8, 7])
  {
    var open, order := {2, 3, 4}, [0, 1, 6, 5, 8, 7];
    Seen(g, open, [0, 1, 6], 2);
    WalkPhi(g);
    Seen(g, open, order, 5);
    ListNode(g, open, [0, 1, 6], 8, [0, 1, 6], order, order);
  }

  lemma WalkCmp(g: Graph)
    requires LoopTable(g)
    ensures Lists(g, {2, 3, 4}, [0, 1], 9, [0, 1, 6, 5, 8, 7, 9])
  {
    WalkBound(g);
    WalkOperands(g);
    Seen(g, {2, 3, 4}, [0, 1], 2);
    ListNode(g, {2, 3, 4}, [0, 1], 9, [0, 1], [0, 1, 6], [0, 1, 6, 5, 8, 7]);
    assert [0, 1, 6, 5, 8, 7] + [9] == [0, 1, 6, 5, 8, 7, 9];
  }

  lemma WalkCond(g: Graph)
    requires LoopTable(g)
    ensures Lists(g, {2, 3, 4}, [0, 1], 10, [0, 1, 6, 5, 8, 7, 9, 10])
  {
    WalkCmp(g);
    Seen(g, {2, 3, 4}, [0, 1], 2);
    ListNode(g, {2, 3, 4}, [0, 1], 10, [0, 1], [], [0, 1, 6, 5, 8, 7, 9]);
    assert [0, 1, 6, 5, 8, 7, 9] + [10] == [0, 1, 6, 5, 8, 7, 9, 10];
  }

  lemma WalkBack(g: Graph)
    requires LoopTable(g)
    ensures Lists(g, {2, 3, 4}, [0, 1], 11, [0, 1, 6, 5, 8, 7, 9, 10, 11])
  {
    WalkCond(g);
    Seen(g, {2, 3, 4}, [0, 1], 2);
    ListNode(g, {2, 3, 4}, [0, 1], 11, [0, 1], [], [0, 1, 6, 5, 8, 7, 9, 10]);
    assert [0, 1, 6, 5, 8, 7, 9, 10] + [11] == [0, 1, 6, 5, 8, 7, 9, 10, 11];
  }

  lemma WalkHead(g: Graph)
    requires LoopTable(g)
    ensures Lists(g, {3, 4}, [], 2, [0, 1, 6, 5, 8, 7, 9, 10, 11, 2])
  {
    WalkEntry(g);
    WalkBack(g);
    assert {3, 4} + {2} == {2, 3, 4};
    ListBreaker(g, {3, 4}, [], 2, [0, 1], [0, 1, 6, 5, 8, 7, 9, 10, 11]);
    assert [0, 1, 6, 5, 8, 7, 9, 10, 11] + [2] == [0, 1, 6, 5, 8, 7, 9, 10, 11, 2];
  }

  lemma WalkOut(g: Graph)
    requires LoopTable(g)
    ensures Lists(g, {3, 4}, [], 12, [0, 1, 6, 5, 8, 7, 9, 10, 11, 2, 12])
  {
    var order := [0, 1, 6, 5, 8, 7, 9, 10, 11, 2];
    WalkHead(g);
    Seen(g, {3, 4}, order, 10);
    ListNode(g, {3, 4}, [], 12, order, [], order);
    assert order + [12] == [0, 1, 6, 5, 8, 7, 9, 10, 11, 2, 12];
  }

  lemma WalkAfter(g: Graph)
    requires LoopTable(g)
    ensures Lists(g, {4}, [], 3, [0, 1, 6, 5, 8, 7, 9, 10, 11, 2, 12, 3])
  {
    WalkOut(g);
    assert {4} + {3} == {3, 4};
    ListBreaker(g, {4}, [], 3, [], [0, 1, 6, 5, 8, 7, 9, 10, 11, 2, 12]);
    assert [0, 1, 6, 5, 8, 7, 9, 10, 11, 2, 12] + [3] == [0, 1, 6, 5, 8, 7, 9, 10, 11, 2, 12, 3];
  }

  lemma WalkReturn(g: Graph)
    requires LoopTable(g)
    ensures Lists(g, {4}, [], 13, [0, 1, 6, 5, 8, 7, 9, 10, 11, 2, 12, 3, 13])
  {
    var order := [0, 1, 6, 5, 8, 7, 9, 10, 11, 2, 12, 3];
    WalkAfter(g);
    Seen(g, {4}, order, 7);
    ListNode(g, {4}, [], 13, order, [], order);
    assert order + [13] == [0, 1, 6, 5, 8, 7, 9, 10, 11, 2, 12, 3, 13];
  }

  lemma WalkLast(g: Graph)
    requires LoopTable(g)
    ensures Lists(g, {}, [], 4, [0, 1, 6, 5, 8, 7, 9, 10, 11, 2, 12, 3, 13, 4])
  {
    WalkReturn(g);
    assert {} + {4} == {4};
    ListBreaker(g, {}, [], 4, [], [0, 1, 6, 5, 8, 7, 9, 10, 11, 2, 12, 3, 13]);
    assert [0, 1, 6, 5, 8, 7, 9, 10, 11, 2, 12, 3, 13] + [4] == [0, 1, 6, 5, 8, 7, 9, 10, 11, 2, 12, 3, 13, 4];
  }

  lemma WalkEnd(g: Graph)
    requires LoopTable(g)
    ensures Lists(g, {}, [], 14, [0, 1, 6, 5, 8, 7, 9, 10, 11, 2, 12, 3, 13, 4] + [14])
  {
    var order := [0, 1, 6, 5, 8, 7, 9, 10, 11, 2, 12, 3, 13, 4];
    WalkLast(g);
    ListNode(g, {}, [], 14, order, [], order);
  }

  /** The order in which the nodes are handed to initNode. */
  lemma WalkLoop(g: Graph)
    requires LoopTable(g)
    ensures Topo(g, Walk({}, []), 14).order == [0, 1] + [6, 5] + [8, 7, 9, 10, 11, 2, 12, 3, 13, 4, 14]
  {
    WalkEnd(g);
    NothingWalked();
  }

  lemma LoopRow(first: int, bound: int, n: Id)
    requires n < 15
    ensures Row(Loop(first, bound), n)
  {
    LoopKindOps(first, bound, n);
  }

  lemma LoopKindOps(first: int, bound: int, n: Id)
    requires n < 15
    ensures Operands(Loop(first, bound).nodes[n].kind) == LoopOps(n)
  {
  }

  lemma LoopHasTable(first: int, bound: int)
    ensures LoopTable(Loop(first, bound))
  {
    LoopFormed(first, bound);
    forall n: Id | n < 15 ensures Row(Loop(first, bound), n) { LoopRow(first, bound, n); }
  }

  // ---- the first rounds ----

  /** What the first rounds depend on. */
  ghost predicate IsLoop(g: Graph, first: int, bound: int) {
    && Accepts(g) && LoopTable(g) && LoopParts(g) && g.end == 14
    && g.nodes[1] == Node(Jmp, 0) && g.nodes[0].kind.Block?
    && forall n: Id :: n < 15 ==> LabelRow(g, first, bound, n)
  }

  ghost predicate LabelRow(g: Graph, first: int, bound: int, n: Id) {
    && n < 15 && n < |g.nodes| && (g.nodes[n].kind.Const? <==> n == 5 || n == 6)
    && InitLabel(g.nodes[n].kind) == LoopLinks(first, bound, NotYet, NotYet, Varies)[n]
  }

  lemma LoopLabelRow(first: int, bound: int, n: Id)
    requires n < 15
    ensures LabelRow(Loop(first, bound), first, bound, n)
  {
  }

  lemma LoopIsLoop(first: int, bound: int)
    ensures IsLoop(Loop(first, bound), first, bound)
  {
    LoopAccepted(first, bound);
    LoopHasTable(first, bound);
    LoopHasParts(first, bound);
    LoopKinds(first, bound);
    forall n: Id | n < 15 ensures LabelRow(Loop(first, bound), first, bound, n) { LoopLabelRow(first, bound, n); }
  }

  ghost predicate ConstsOf(g: Graph) {
    |g.nodes| == 15 && forall n: Id :: n < 15 ==> (g.nodes[n].kind.Const? <==> n == 5 || n == 6)
  }

  lemma LoopEnqueued(g: Graph)
    requires ConstsOf(g)
    ensures Enqueued(g, [0, 1] + [6, 5] + [8, 7, 9, 10, 11, 2, 12, 3, 13, 4, 14]) ==
      [0, 1] + [8, 7, 9, 10, 11, 2, 12, 3, 13, 4, 14]
  {
    var late := [8, 7, 9, 10, 11, 2, 12, 3, 13, 4, 14];
    forall n | n in [0, 1] || n in late ensures n < |g.nodes| && !g.nodes[n].kind.Const? { }
    forall n | n in [6, 5] ensures n < |g.nodes| && g.nodes[n].kind.Const? { }
    EnqueuedAround(g, [0, 1], [6, 5], late);
  }

  lemma LoopConsts(g: Graph, first: int, bound: int)
    requires IsLoop(g, first, bound)
    ensures ConstsOf(g)
  {
    forall n: Id | n < 15 ensures g.nodes[n].kind.Const? <==> n == 5 || n == 6 { assert LabelRow(g, first, bound, n); }
  }

  lemma LoopQueue(g: Graph, first: int, bound: int, s: State)
    requires IsLoop(g, first, bound) && Started(g, s)
    ensures s.queue == [0, 1] + [8, 7, 9, 10, 11, 2, 12, 3, 13, 4, 14]
  {
    WalkLoop(g);
    LoopConsts(g, first, bound);
    LoopEnqueued(g);
  }

  lemma LoopLabels(g: Graph, first: int, bound: int, s: State)
    requires IsLoop(g, first, bound) && Started(g, s)
    ensures s.link == LoopLinks(first, bound, NotYet, NotYet, Varies)
  {
    forall n: Id | n < 15 ensures s.link[n] == LoopLinks(first, bound, NotYet, NotYet, Varies)[n] {
      StartQueue(g, s, n);
      assert LabelRow(g, first, bound, n);
    }
  }

  lemma MilestoneListed(first: int, bound: int)
    ensures LoopState(first, bound, Milestone(0)) ==
      State(LoopLinks(first, bound, NotYet, NotYet, Varies), map[1 := true], [8, 7, 9, 10, 11, 2, 12, 3, 13, 4, 14])
  {
    var q := Milestone(0).queue;
    assert Listing(q.tail.tail.tail.tail.tail.tail.tail) == [3, 13, 4, 14];
    assert Listing(q.tail.tail.tail.tail) == [11, 2, 12] + [3, 13, 4, 14];
    assert Listing(q) == [8, 7, 9, 10] + [11, 2, 12, 3, 13, 4, 14];
  }

  lemma FirstRounds(g: Graph, first: int, bound: int, s: State)
    requires IsLoop(g, first, bound) && Started(g, s)
    ensures Rounds(g, s, 2) == LoopState(first, bound, Milestone(0))
  {
    LoopQueue(g, first, bound, s);
    LoopLabels(g, first, bound, s);
    StartKeeps(g, s);
    StartVisited(g, s, [8, 7, 9, 10, 11, 2, 12, 3, 13, 4, 14]);
    MilestoneListed(first, bound);
  }

  /** Main result: a loop that is left at once keeps the worklist from ever running empty, although the graph is accepted,
      in SSA form, and has no edge adrift. */
  lemma LoopNeverRests(first: int, bound: int, s: State)
    requires LeftAtOnce(first, bound)
    ensures var g := Loop(first, bound);
      && Accepts(g) && IsSsa(g) && (forall region, c: Id :: Adrift(g, region) ==> !Inner(g, region, c))
      && (Started(g, s) ==> !ComesToRest(g, s))
  {
    var g := Loop(first, bound);
    LoopAccepted(first, bound);
    forall region, c: Id | Adrift(g, region) ensures !Inner(g, region, c) { LoopNotAdrift(first, bound, region, c); }
    if Started(g, s) {
      LoopIsLoop(first, bound);
      StartedNeverRests(g, first, bound, s);
    }
  }

  lemma StartedNeverRests(g: Graph, first: int, bound: int, s: State)
    requires IsLoop(g, first, bound) && LeftAtOnce(first, bound) && Started(g, s)
    ensures !ComesToRest(g, s)
  {
    FirstRounds(g, first, bound, s);
    MilestonesRecur(g, first, bound, s, 2);
  }
}
