/** A graph on which constant propagation (const_prop_pass.hpp) comes to rest with a phi labelled bad although its operands
    over the edges that are not excluded are one and the same constant. */
module ConstPropStale {
  import opened Wrappers
  import opened FirmGraph
  import opened FirmPass
  import opened ConstProp
  import opened ConstPropInvariant
  import opened ConstPropSubst
  import opened ConstPropRest
  import opened ConstPropExact
  import opened ConstPropPassClass
  import opened ConstPropWalk
  import opened ConstPropSettle
  import opened ConstPropPhis

  // ---- x = a; while (false && x < b) x = b; return x ----

  /** Block 2 is the loop header with phi 5; block 7, behind a Bad, holds the comparison 8 and the edge 10 back. */
  function Stale(a: int, b: int): Graph {
    Graph(
      [Node(Block([]), 0), Node(Jmp, 0), Node(Block([1, 10]), 2), Node(Const(Num(Is, a)), 0), Node(Const(Num(Is, b)), 0),
       Node(Phi([3, 4]), 2), Node(Bad, 2), Node(Block([6]), 7), Node(Cmp(Less, 5, 4), 7), Node(Cond(8), 7),
       Node(ProjX(9, true), 7), Node(Return([5]), 2), Node(Block([11]), 12), Node(End([]), 12)],
      [[1, 3, 4], [2], [5, 6, 11], [5], [5, 8], [8, 11], [7], [8, 9, 10], [9], [10], [2], [12], [13], []],
      [0, 0, 0, 0, 0, 0, 0, 0, 1, 2, 3, 1, 0, 0], {}, 0, 1, 13)
  }

  // ---- the graph is one that the pass accepts ----

  function HomeOf(n: Id): Id {
    if n == 1 || n == 3 || n == 4 then 0
    else if n == 5 || n == 6 || n == 11 then 2
    else if n == 8 || n == 9 || n == 10 then 7
    else if n == 13 then 12
    else n
  }

  function InputsOf(n: Id): seq<Id> {
    if n == 2 then [1, 10]
    else if n == 5 then [3, 4]
    else if n == 7 then [6]
    else if n == 8 then [5, 4]
    else if n == 9 then [8]
    else if n == 10 then [9]
    else if n == 11 then [5]
    else if n == 12 then [11]
    else []
  }

  predicate Breaks(n: Id) { n == 0 || n == 2 || n == 5 || n == 7 || n == 12 }

  predicate Inhabits(n: Id, b: Id) { n < 14 && HomeOf(n) == b && b != n }

  lemma StaleOperands(a: int, b: int, n: Id)
    requires n < 14
    ensures Operands(Stale(a, b).nodes[n].kind) == InputsOf(n)
  {
  }

  lemma StaleUses(a: int, b: int, n: Id, q: Id)
    ensures Uses(Stale(a, b), n, q) <==> n < 14 && q in InputsOf(n)
  {
    if n < 14 { StaleOperands(a, b, n); }
  }

  lemma StaleHomes(a: int, b: int, n: Id)
    requires n < 14
    ensures Stale(a, b).nodes[n].block == HomeOf(n) && (Stale(a, b).nodes[n].kind.Block? <==> HomeOf(n) == n)
    ensures IsBreaker(Stale(a, b).nodes[n].kind) <==> Breaks(n)
  {
  }

  lemma StaleMembers(a: int, b: int, n: Id, q: Id)
    ensures Member(Stale(a, b), n, q) <==> Inhabits(n, q)
  {
    if n < 14 { StaleHomes(a, b, n); }
  }

  lemma StaleOuts(a: int, b: int, n: Id, u: Id)
    requires n < 14
    ensures u in Stale(a, b).outs[n] <==> (u < 14 && n in InputsOf(u)) || Inhabits(u, n)
  {
  }

  lemma StaleOutsExact(a: int, b: int)
    ensures OutsExact(Stale(a, b))
  {
    var g := Stale(a, b);
    assert |g.nodes| == 14 && |g.outs| == 14;
    forall n: Id, q: Id | Uses(g, n, q) && q < 14 ensures n in g.outs[q] {
      StaleUses(a, b, n, q);
      StaleOuts(a, b, q, n);
    }
    forall n: Id | n < 14 && !g.nodes[n].kind.Block? && g.nodes[n].block < 14 ensures n in g.outs[g.nodes[n].block] {
      StaleMembers(a, b, n, g.nodes[n].block);
      StaleOuts(a, b, g.nodes[n].block, n);
    }
    forall n: Id, u: Id | n < 14 && u in g.outs[n] ensures Uses(g, u, n) || Member(g, u, n) {
      StaleOuts(a, b, n, u);
      StaleUses(a, b, u, n);
      StaleMembers(a, b, u, n);
    }
  }

  lemma StaleNode(a: int, b: int, n: Id)
    requires n < 14
    ensures WellFormedNode(Stale(a, b), n)
  {
    var g := Stale(a, b);
    StaleOperands(a, b, n);
    forall q | q in Operands(g.nodes[n].kind)
      ensures q < 14 && (IsValue(g.nodes[n].kind) ==> IsValue(g.nodes[q].kind)) && (g.nodes[n].kind.Block? ==> IsModeX(g.nodes[q].kind))
    {
    }
  }

  lemma StaleAcyclic(a: int, b: int)
    ensures Acyclic(Stale(a, b))
  {
    var g := Stale(a, b);
    assert |g.nodes| == 14 && |g.rank| == 14;
    forall n: Id, q: Id | Uses(g, n, q) && !IsBreaker(g.nodes[n].kind) && q < 14 ensures g.rank[q] < g.rank[n] {
      StaleUses(a, b, n, q);
    }
  }

  lemma StaleEnds(a: int, b: int)
    ensures var g := Stale(a, b);
      g.nodes[0] == Node(Block([]), 0) && g.nodes[1] == Node(Jmp, 0) && g.nodes[13].kind.End?
  {
  }

  lemma StaleMemory(a: int, b: int)
    ensures MemoryTyped(Stale(a, b))
  {
    var g := Stale(a, b);
    forall n: Id | n < |g.nodes| ensures !IsMemop(g.nodes[n].kind) && !g.nodes[n].kind.ProjMem? { }
  }

  lemma StaleFormed(a: int, b: int)
    ensures WellFormed(Stale(a, b)) && MemoryTyped(Stale(a, b))
  {
    forall n: Id | n < |Stale(a, b).nodes| ensures WellFormedNode(Stale(a, b), n) { StaleNode(a, b, n); }
    StaleOutsExact(a, b);
    StaleAcyclic(a, b);
    StaleEnds(a, b);
    StaleMemory(a, b);
  }

  /** The header dominates the block behind the Bad, which stands in the header. */
  lemma HeaderDominates(a: int, b: int)
    ensures Dominates(Stale(a, b), 2, 7)
  {
    var g := Stale(a, b);
    forall bs: seq<Id>, cs: seq<Id> | IsPath(g, bs, cs) && bs[|cs|] == 7 ensures 2 in bs {
      var k := |cs| - 1;
      assert bs[0] == 0;
      assert k >= 0 && cs[k] in Preds(g, bs[k+1]) && bs[k+1] == 7;
      assert cs[k] == 6 && bs[k] == 2;
    }
  }

  lemma StaleNeeds(a: int, b: int, q: Id, n: Id)
    requires q < 14 && n < 14 && (HomeOf(q) == 0 || HomeOf(q) == HomeOf(n) || (HomeOf(q) == 2 && HomeOf(n) == 7))
    ensures NeedsAt(Stale(a, b), q, n)
  {
    StaleHomes(a, b, q);
    StaleHomes(a, b, n);
    if HomeOf(q) == 2 && HomeOf(n) == 7 {
      HeaderDominates(a, b);
    } else {
      NearDominates(Stale(a, b), HomeOf(q), HomeOf(n));
    }
  }

  lemma StalePhiDominated(a: int, b: int)
    ensures Dominated(Stale(a, b), 5)
  {
    StaleNeeds(a, b, 3, 1);
    StaleNeeds(a, b, 4, 10);
  }

  lemma StaleCmpDominated(a: int, b: int)
    ensures Dominated(Stale(a, b), 8)
  {
    StaleNeeds(a, b, 5, 8);
    StaleNeeds(a, b, 4, 8);
  }

  lemma StaleEdgeDominated(a: int, b: int)
    ensures Dominated(Stale(a, b), 10)
  {
    StaleNeeds(a, b, 8, 10);
  }

  lemma StaleDominated(a: int, b: int, n: Id)
    requires n < 14
    ensures Dominated(Stale(a, b), n)
  {
    if n == 5 {
      StalePhiDominated(a, b);
    } else if n == 8 {
      StaleCmpDominated(a, b);
    } else if n == 10 {
      StaleEdgeDominated(a, b);
    } else {
      StaleOperands(a, b, n);
    }
  }

  /** A path from the End node to each node. */
  function WayTo(n: Id): seq<Id> {
    if n == 0 then [13, 12, 11, 2, 1, 0]
    else if n == 1 then [13, 12, 11, 2, 1]
    else if n == 2 then [13, 12, 11, 2]
    else if n == 3 then [13, 12, 11, 5, 3]
    else if n == 4 then [13, 12, 11, 5, 4]
    else if n == 5 then [13, 12, 11, 5]
    else if n == 6 then [13, 12, 11, 2, 10, 7, 6]
    else if n == 7 then [13, 12, 11, 2, 10, 7]
    else if n == 8 then [13, 12, 11, 2, 10, 9, 8]
    else if n == 9 then [13, 12, 11, 2, 10, 9]
    else if n == 10 then [13, 12, 11, 2, 10]
    else if n == 11 then [13, 12, 11]
    else if n == 12 then [13, 12]
    else [13]
  }

  predicate Linked(m: Id, q: Id) { (m < 14 && q in InputsOf(m)) || Inhabits(m, q) }

  lemma WayLinked(n: Id)
    requires n < 14
    ensures var path := WayTo(n);
      |path| > 0 && path[0] == 13 && path[|path|-1] == n && forall i :: 0 <= i < |path| - 1 ==> Linked(path[i], path[i+1])
  {
  }

  lemma StaleReached(a: int, b: int, n: Id)
    requires n < 14
    ensures Reached(Stale(a, b), n)
  {
    WayLinked(n);
    var path := WayTo(n);
    forall i | 0 <= i < |path| - 1 ensures Follows(Stale(a, b), path[i], path[i+1]) {
      StaleUses(a, b, path[i], path[i+1]);
      StaleMembers(a, b, path[i], path[i+1]);
    }
    assert Chain(Stale(a, b), path, n);
  }

  lemma StaleLeads(a: int, b: int)
    ensures LeadsToStart(Stale(a, b))
  {
    var g := Stale(a, b);
    assert Distance(g, 0, 0);
    assert Distance(g, 2, 1) by { assert g.nodes[2].kind.preds[0] == 1 && g.nodes[1].block == 0; }
    assert Distance(g, 12, 2) by { assert g.nodes[12].kind.preds[0] == 11 && g.nodes[11].block == 2; }
    assert g.nodes[g.end].block == 12;
  }

  lemma StaleAccepted(a: int, b: int)
    ensures Accepts(Stale(a, b)) && IsSsa(Stale(a, b))
  {
    StaleFormed(a, b);
    forall n: Id | n < |Stale(a, b).nodes| ensures Dominated(Stale(a, b), n) { StaleDominated(a, b, n); }
    forall n: Id | n < |Stale(a, b).nodes| ensures Reached(Stale(a, b), n) { StaleReached(a, b, n); }
    StaleLeads(a, b);
  }

  // ---- the walk from the End node ----

  ghost predicate Table(g: Graph) { WellFormed(g) && |g.nodes| == 14 && forall n: Id :: n < 14 ==> Entry(g, n) }

  ghost predicate Entry(g: Graph, n: Id) { Shaped(g, n, HomeOf(n), InputsOf(n), Breaks(n)) }

  lemma StaleTable(a: int, b: int)
    ensures Table(Stale(a, b))
  {
    StaleFormed(a, b);
    forall n: Id | n < 14 ensures Entry(Stale(a, b), n) {
      StaleOperands(a, b, n);
      StaleHomes(a, b, n);
    }
  }

  lemma Opens(g: Graph, open: set<Id>, order: seq<Id>, n: Id, middle: seq<Id>, order': seq<Id>)
    requires Table(g) && n < 14 && Breaks(n) && n !in open && n !in order
    requires HomeOf(n) == n || Lists(g, open + {n}, order, HomeOf(n), order)
    requires |InputsOf(n)| <= 2 && ListsAll(g, open + {n}, order, InputsOf(n), middle, order')
    ensures Lists(g, open, order, n, order' + [n])
  {
    assert Entry(g, n);
    BreakerListed(g, open, order, n, HomeOf(n), InputsOf(n), middle, order');
  }

  lemma Visits(g: Graph, open: set<Id>, order: seq<Id>, n: Id, start: seq<Id>, middle: seq<Id>, order': seq<Id>)
    requires Table(g) && n < 14 && !Breaks(n) && n !in open && n !in order && n !in order'
    requires Lists(g, open, order, HomeOf(n), start)
    requires |InputsOf(n)| <= 2 && ListsAll(g, open, start, InputsOf(n), middle, order')
    ensures Lists(g, open, order, n, order' + [n])
  {
    assert Entry(g, n);
    NodeListed(g, open, order, n, HomeOf(n), InputsOf(n), start, middle, order');
  }

  lemma WalkEntry(g: Graph)
    requires Table(g)
    ensures Lists(g, {2, 12}, [], 1, [0, 1])
  {
    Opens(g, {2, 12}, [], 0, [], []);
    assert [] + [0] == [0] && [0] + [1] == [0, 1];
    Visits(g, {2, 12}, [], 1, [0], [0], [0]);
  }

  lemma WalkBehindBad(g: Graph)
    requires Table(g)
    ensures Lists(g, {2, 12}, [0, 1], 7, [0, 1, 6, 7])
  {
    assert {2, 12} + {7} == {2, 7, 12} && [0, 1] + [6] == [0, 1, 6] && [0, 1, 6] + [7] == [0, 1, 6, 7];
    Seen(g, {2, 7, 12}, [0, 1], 2);
    Visits(g, {2, 7, 12}, [0, 1], 6, [0, 1], [], [0, 1]);
    Opens(g, {2, 12}, [0, 1], 7, [], [0, 1, 6]);
  }

  lemma WalkConstants(g: Graph)
    requires Table(g)
    ensures Lists(g, {2, 5, 12}, [0, 1, 6, 7], 3, [0, 1, 6, 7, 3]) && Lists(g, {2, 5, 12}, [0, 1, 6, 7, 3], 4, [0, 1, 6, 7, 3, 4])
  {
    var open, order := {2, 5, 12}, [0, 1, 6, 7];
    assert order + [3] == [0, 1, 6, 7, 3] && [0, 1, 6, 7, 3] + [4] == [0, 1, 6, 7, 3, 4];
    Seen(g, open, order, 0);
    Visits(g, open, order, 3, order, [], order);
    Seen(g, open, [0, 1, 6, 7, 3], 0);
    Visits(g, open, [0, 1, 6, 7, 3], 4, [0, 1, 6, 7, 3], [], [0, 1, 6, 7, 3]);
  }

  lemma WalkPhi(g: Graph)
    requires Table(g)
    ensures Lists(g, {2, 12}, [0, 1, 6, 7], 5, [0, 1, 6, 7, 3, 4, 5])
  {
    WalkConstants(g);
    assert {2, 12} + {5} == {2, 5, 12} && [0, 1, 6, 7, 3, 4] + [5] == [0, 1, 6, 7, 3, 4, 5];
    Seen(g, {2, 5, 12}, [0, 1, 6, 7], 2);
    Opens(g, {2, 12}, [0, 1, 6, 7], 5, [0, 1, 6, 7, 3], [0, 1, 6, 7, 3, 4]);
  }

  lemma WalkCmp(g: Graph)
    requires Table(g)
    ensures Lists(g, {2, 12}, [0, 1, 6, 7], 8, [0, 1, 6, 7, 3, 4, 5, 8])
  {
    var open, order := {2, 12}, [0, 1, 6, 7, 3, 4, 5];
    assert order + [8] == [0, 1, 6, 7, 3, 4, 5, 8];
    Seen(g, open, [0, 1, 6, 7], 7);
    WalkPhi(g);
    Seen(g, open, order, 4);
    Visits(g, open, [0, 1, 6, 7], 8, [0, 1, 6, 7], order, order);
  }

  lemma WalkCond(g: Graph)
    requires Table(g)
    ensures Lists(g, {2, 12}, [0, 1, 6, 7], 9, [0, 1, 6, 7, 3, 4, 5, 8, 9])
  {
    var order := [0, 1, 6, 7, 3, 4, 5, 8];
    assert order + [9] == [0, 1, 6, 7, 3, 4, 5, 8, 9];
    Seen(g, {2, 12}, [0, 1, 6, 7], 7);
    WalkCmp(g);
    Visits(g, {2, 12}, [0, 1, 6, 7], 9, [0, 1, 6, 7], [], order);
  }

  lemma WalkBack(g: Graph)
    requires Table(g)
    ensures Lists(g, {2, 12}, [0, 1], 10, [0, 1, 6, 7, 3, 4, 5, 8, 9, 10])
  {
    var order := [0, 1, 6, 7, 3, 4, 5, 8, 9];
    assert order + [10] == [0, 1, 6, 7, 3, 4, 5, 8, 9, 10];
    WalkBehindBad(g);
    WalkCond(g);
    Visits(g, {2, 12}, [0, 1], 10, [0, 1, 6, 7], [], order);
  }

  lemma WalkHeader(g: Graph)
    requires Table(g)
    ensures Lists(g, {12}, [], 2, [0, 1, 6, 7, 3, 4, 5, 8, 9, 10, 2])
  {
    var order := [0, 1, 6, 7, 3, 4, 5, 8, 9, 10];
    assert order + [2] == [0, 1, 6, 7, 3, 4, 5, 8, 9, 10, 2] && {12} + {2} == {2, 12};
    WalkEntry(g);
    WalkBack(g);
    Opens(g, {12}, [], 2, [0, 1], order);
  }

  lemma WalkReturn(g: Graph)
    requires Table(g)
    ensures Lists(g, {12}, [], 11, [0, 1, 6, 7, 3, 4, 5, 8, 9, 10, 2, 11])
  {
    var order := [0, 1, 6, 7, 3, 4, 5, 8, 9, 10, 2];
    assert order + [11] == [0, 1, 6, 7, 3, 4, 5, 8, 9, 10, 2, 11];
    WalkHeader(g);
    Seen(g, {12}, order, 5);
    Visits(g, {12}, [], 11, order, [], order);
  }

  lemma WalkLast(g: Graph)
    requires Table(g)
    ensures Lists(g, {}, [], 12, [0, 1, 6, 7, 3, 4, 5, 8, 9, 10, 2, 11, 12])
  {
    var order := [0, 1, 6, 7, 3, 4, 5, 8, 9, 10, 2, 11];
    assert order + [12] == [0, 1, 6, 7, 3, 4, 5, 8, 9, 10, 2, 11, 12] && {} + {12} == {12};
    WalkReturn(g);
    Opens(g, {}, [], 12, [], order);
  }

  lemma WalkStale(g: Graph)
    requires Table(g)
    ensures Topo(g, Walk({}, []), 13).order == [0, 1, 6, 7] + [3, 4] + [5, 8, 9, 10, 2, 11, 12, 13]
  {
    var order := [0, 1, 6, 7, 3, 4, 5, 8, 9, 10, 2, 11, 12];
    assert order + [13] == [0, 1, 6, 7] + [3, 4] + [5, 8, 9, 10, 2, 11, 12, 13];
    WalkLast(g);
    Visits(g, {}, [], 13, order, [], order);
    NothingWalked();
  }

  // ---- the rounds ----

  function Links(a: int, b: int, phi: Label): seq<Label> {
    [BadLabel, BadLabel, BadLabel, Known(Num(Is, a)), Known(Num(Is, b)), phi, BadLabel, BadLabel, BadLabel, BadLabel, BadLabel,
     BadLabel, BadLabel, BadLabel]
  }

  /** What the rounds depend on. */
  ghost predicate IsStale(g: Graph) {
    && |g.nodes| == 14 && |g.outs| == 14 && g.startBlock == 0
    && g.nodes[5] == Node(Phi([3, 4]), 2) && g.nodes[6] == Node(Bad, 2) && g.nodes[8].kind == Cmp(Less, 5, 4)
    && g.nodes[9].kind == Cond(8) && g.nodes[10] == Node(ProjX(9, true), 7) && g.outs[5] == [8, 11] && g.outs[9] == [10]
    && Preds(g, 2) == [1, 10] && Preds(g, 7) == [6]
    && forall n: Id :: n == 0 || n == 2 || n == 7 || 10 < n < 14 ==> Passive(g.nodes[n].kind)
  }

  predicate Passive(k: Kind) { k.Block? || k.Return? || k.End? }

  lemma StaleIs(a: int, b: int)
    ensures IsStale(Stale(a, b))
  {
  }

  lemma PassiveVisit(g: Graph, p: State, n: Id)
    requires IsStale(g) && Fits(g, p) && n < 14 && Passive(g.nodes[n].kind)
    ensures VisitNode(g, p, n) == p
  {
  }

  lemma BadVisit(g: Graph, p: State)
    requires IsStale(g) && Fits(g, p) && 6 !in p.marks
    ensures VisitNode(g, p, 6) == p.(marks := p.marks[6 := false])
  {
  }

  lemma CondVisit(g: Graph, p: State)
    requires IsStale(g) && Fits(g, p)
    ensures VisitNode(g, p, 9) == p.(queue := p.queue + [10])
  {
  }

  lemma CmpVisit(g: Graph, p: State)
    requires IsStale(g) && Fits(g, p) && p.link[5] == BadLabel && p.link[8] == BadLabel
    ensures VisitNode(g, p, 8) == p
  {
    assert NewLabel(g, p, 8) == BadLabel;
  }

  lemma PhiJoin(link: seq<Label>, marks: map<Id, bool>)
    requires |link| == 14 && link[3].Known? && link[4].Known? && link[3] != link[4] && !MarkedFalse(marks, 1) && !MarkedFalse(marks, 10)
    ensures JoinFrom(link, marks, [3, 4], [1, 10], 0, Unknown) == BadLabel
  {
    assert JoinFrom(link, marks, [3, 4], [1, 10], 1, link[3]) == BadLabel;
  }

  /** The phi finds two constants: the edge back has no mark yet. */
  lemma PhiVisit(g: Graph, p: State)
    requires IsStale(g) && Fits(g, p) && p.link[3].Known? && p.link[4].Known? && p.link[3] != p.link[4] && p.link[5] == Unknown
    requires !MarkedFalse(p.marks, 1) && !MarkedFalse(p.marks, 10)
    ensures VisitNode(g, p, 5) == p.(link := p.link[5 := BadLabel], queue := p.queue + [8, 11])
  {
    PhiJoin(p.link, p.marks);
    assert NewLabel(g, p, 5) == BadLabel;
  }

  /** The edge back may be taken, but its block is known to be out of reach. */
  lemma EdgeVisit(g: Graph, p: State)
    requires IsStale(g) && Fits(g, p) && p.link[8] == BadLabel && p.link[9] == BadLabel && p.link[10] == BadLabel
    requires MarkedFalse(p.marks, 6) && !MarkedTrue(p.marks, 10)
    ensures VisitNode(g, p, 10) == p.(marks := p.marks[10 := false])
  {
    assert AnyMarked(p.marks, [6]) && !AnyTaken(p.marks, [6]);
    assert MayTake(g, p.link, 10) && NewLabel(g, p, 10) == BadLabel;
  }

  // ---- round by round ----

  /** The nodes in the order in which they are visited after the start block. */
  const VISITS: seq<Id> := [6, 7, 5, 8, 9, 10, 2, 11, 12, 13, 8, 11, 10]

  /** How many of these visits have been asked for before round `i`. */
  function Asked(i: nat): nat { if i < 3 then 10 else if i < 5 then 12 else 13 }

  function Marks(i: nat): map<Id, bool> {
    if i == 0 then map[1 := true] else if i < 6 then map[1 := true, 6 := false] else map[1 := true, 6 := false, 10 := false]
  }

  function StateAt(a: int, b: int, i: nat): State
    requires i <= 13
  {
    State(Links(a, b, if i < 3 then Unknown else BadLabel), Marks(i), VISITS[i..Asked(i)])
  }

  lemma QueueSplits(i: nat)
    requires i < 13
    ensures i < Asked(i) <= Asked(i + 1) <= 13 && VISITS[i..Asked(i)] == [VISITS[i]] + VISITS[i+1..Asked(i)]
    ensures VISITS[i+1..Asked(i)] + VISITS[Asked(i)..Asked(i+1)] == VISITS[i+1..Asked(i+1)]
  {
  }

  /** One round, if the visit changes labels and marks as it should and asks for the visits it should. */
  lemma OneTurn(g: Graph, a: int, b: int, i: nat)
    requires i < 13 && Fits(g, StateAt(a, b, i)) && VISITS[i] < |g.nodes|
    requires var p := State(StateAt(a, b, i).link, Marks(i), VISITS[i+1..Asked(i)]);
      Fits(g, p) ==> VisitNode(g, p, VISITS[i]) == State(StateAt(a, b, i + 1).link, Marks(i + 1), p.queue + VISITS[Asked(i)..Asked(i+1)])
    ensures Fits(g, StateAt(a, b, i + 1)) && Next(g, StateAt(a, b, i)) == StateAt(a, b, i + 1)
  {
    var s := StateAt(a, b, i);
    QueueSplits(i);
    RestFits(g, s);
    RoundFits(g, s);
    assert s.queue[1..] == VISITS[i+1..Asked(i)];
  }

  /** The state in which node VISITS[i] is visited. */
  function Popped(a: int, b: int, i: nat): State
    requires i < 13
  {
    QueueSplits(i);
    State(StateAt(a, b, i).link, Marks(i), VISITS[i+1..Asked(i)])
  }

  lemma PassiveTurn(g: Graph, a: int, b: int, i: nat)
    requires IsStale(g) && i < 13 && Fits(g, Popped(a, b, i)) && (i == 1 || 6 <= i < 10 || i == 11)
    ensures VisitNode(g, Popped(a, b, i), VISITS[i]) == Popped(a, b, i)
    ensures StateAt(a, b, i + 1).link == StateAt(a, b, i).link && Marks(i + 1) == Marks(i) && Asked(i + 1) == Asked(i)
  {
    PassiveVisit(g, Popped(a, b, i), VISITS[i]);
  }

  lemma FirstTurn(g: Graph, a: int, b: int)
    requires IsStale(g) && Fits(g, Popped(a, b, 0))
    ensures VisitNode(g, Popped(a, b, 0), VISITS[0]) == Popped(a, b, 0).(marks := Marks(1))
  {
    BadVisit(g, Popped(a, b, 0));
    assert Marks(0)[6 := false] == Marks(1);
  }

  lemma PhiTurn(g: Graph, a: int, b: int)
    requires IsStale(g) && a != b && Fits(g, Popped(a, b, 2))
    ensures VisitNode(g, Popped(a, b, 2), VISITS[2]) ==
      State(StateAt(a, b, 3).link, Marks(3), Popped(a, b, 2).queue + VISITS[Asked(2)..Asked(3)])
  {
    PhiVisit(g, Popped(a, b, 2));
    assert Links(a, b, Unknown)[5 := BadLabel] == Links(a, b, BadLabel);
    assert VISITS[10..12] == [8, 11];
  }

  lemma CmpTurn(g: Graph, a: int, b: int, i: nat)
    requires IsStale(g) && (i == 3 || i == 10) && Fits(g, Popped(a, b, i))
    ensures VisitNode(g, Popped(a, b, i), VISITS[i]) == Popped(a, b, i)
    ensures StateAt(a, b, i + 1).link == StateAt(a, b, i).link && Marks(i + 1) == Marks(i) && Asked(i + 1) == Asked(i)
  {
    CmpVisit(g, Popped(a, b, i));
  }

  lemma CondTurn(g: Graph, a: int, b: int)
    requires IsStale(g) && Fits(g, Popped(a, b, 4))
    ensures VisitNode(g, Popped(a, b, 4), VISITS[4]) ==
      State(StateAt(a, b, 5).link, Marks(5), Popped(a, b, 4).queue + VISITS[Asked(4)..Asked(5)])
  {
    CondVisit(g, Popped(a, b, 4));
    assert VISITS[12..13] == [10];
  }

  lemma EdgeTurn(g: Graph, a: int, b: int, i: nat)
    requires IsStale(g) && (i == 5 || i == 12) && Fits(g, Popped(a, b, i))
    ensures VisitNode(g, Popped(a, b, i), VISITS[i]) == Popped(a, b, i).(marks := Marks(i + 1))
    ensures StateAt(a, b, i + 1).link == StateAt(a, b, i).link && Asked(i + 1) == Asked(i)
  {
    EdgeVisit(g, Popped(a, b, i));
    assert Marks(i)[10 := false] == Marks(i + 1);
  }

  lemma NothingAsked(a: int, b: int, i: nat)
    requires i < 13 && Asked(i + 1) == Asked(i)
    ensures Asked(i) <= 13 && Popped(a, b, i).queue + VISITS[Asked(i)..Asked(i+1)] == Popped(a, b, i).queue
  {
  }

  lemma VisitAt(g: Graph, a: int, b: int, i: nat)
    requires IsStale(g) && a != b && i < 13 && Fits(g, Popped(a, b, i))
    ensures VISITS[i] < |g.nodes| && Asked(i) <= Asked(i + 1) <= 13
    ensures VisitNode(g, Popped(a, b, i), VISITS[i]) ==
      State(StateAt(a, b, i + 1).link, Marks(i + 1), Popped(a, b, i).queue + VISITS[Asked(i)..Asked(i+1)])
  {
    QueueSplits(i);
    if i == 2 {
      PhiTurn(g, a, b);
    } else if i == 4 {
      CondTurn(g, a, b);
    } else {
      NothingAsked(a, b, i);
      if i == 0 {
        FirstTurn(g, a, b);
      } else if i == 3 || i == 10 {
        CmpTurn(g, a, b, i);
      } else if i == 5 || i == 12 {
        EdgeTurn(g, a, b, i);
      } else {
        PassiveTurn(g, a, b, i);
      }
    }
  }

  lemma TurnAt(g: Graph, a: int, b: int, i: nat)
    requires IsStale(g) && a != b && i < 13 && Fits(g, StateAt(a, b, i))
    ensures Fits(g, StateAt(a, b, i + 1)) && Next(g, StateAt(a, b, i)) == StateAt(a, b, i + 1)
  {
    QueueSplits(i);
    RestFits(g, StateAt(a, b, i));
    assert StateAt(a, b, i).queue[1..] == Popped(a, b, i).queue;
    VisitAt(g, a, b, i);
    OneTurn(g, a, b, i);
  }

  lemma {:induction false} Turns(g: Graph, a: int, b: int, i: nat)
    requires IsStale(g) && a != b && i <= 13 && Fits(g, StateAt(a, b, 0))
    ensures Fits(g, StateAt(a, b, i)) && Rounds(g, StateAt(a, b, 0), i) == StateAt(a, b, i)
    decreases i
  {
    if i > 0 {
      Turns(g, a, b, i - 1);
      TurnAt(g, a, b, i - 1);
      LastRound(g, StateAt(a, b, 0), i - 1);
    }
  }

  // ---- the start ----

  lemma StaleConsts(a: int, b: int, n: Id)
    requires n < 14
    ensures Stale(a, b).nodes[n].kind.Const? <==> n == 3 || n == 4
    ensures InitLabel(Stale(a, b).nodes[n].kind) == Links(a, b, Unknown)[n]
  {
  }

  lemma StaleQueue(a: int, b: int)
    ensures Enqueued(Stale(a, b), [0, 1, 6, 7] + [3, 4] + [5, 8, 9, 10, 2, 11, 12, 13]) == [0, 1] + VISITS[..10]
  {
    var g := Stale(a, b);
    forall n: Id | n < 14 ensures g.nodes[n].kind.Const? <==> n == 3 || n == 4 { StaleConsts(a, b, n); }
    EnqueuedAround(g, [0, 1, 6, 7], [3, 4], [5, 8, 9, 10, 2, 11, 12, 13]);
    assert [0, 1, 6, 7] + [5, 8, 9, 10, 2, 11, 12, 13] == [0, 1] + VISITS[..10];
  }

  lemma StartLinks(g: Graph, a: int, b: int, s: State)
    requires g == Stale(a, b) && Accepts(g) && Started(g, s)
    ensures s.link == Links(a, b, Unknown)
  {
    assert |g.nodes| == 14;
    forall n: Id | n < 14 ensures s.link[n] == Links(a, b, Unknown)[n] {
      StartQueue(g, s, n);
      StaleConsts(a, b, n);
    }
  }

  lemma StartWorklist(g: Graph, s: State, queue: seq<Id>)
    requires Table(g) && g.end == 13 && Started(g, s)
    requires Enqueued(g, [0, 1, 6, 7] + [3, 4] + [5, 8, 9, 10, 2, 11, 12, 13]) == queue
    ensures s.marks == map[] && s.queue == queue
  {
    WalkStale(g);
  }

  lemma StaleStart(a: int, b: int, s: State)
    requires Accepts(Stale(a, b)) && Started(Stale(a, b), s)
    ensures s == State(Links(a, b, Unknown), map[], [0, 1] + VISITS[..10])
  {
    StaleTable(a, b);
    StaleQueue(a, b);
    StartLinks(Stale(a, b), a, b, s);
    StartWorklist(Stale(a, b), s, [0, 1] + VISITS[..10]);
  }

  lemma RestReached(g: Graph, a: int, b: int, s: State)
    requires IsStale(g) && a != b && Fits(g, s) && g.nodes[0].kind.Block? && g.startJmp == 1
    requires s == State(Links(a, b, Unknown), map[], [0, 1] + VISITS[..10])
    ensures Rounds(g, s, 15) == StateAt(a, b, 13)
  {
    StartVisited(g, s, VISITS[..10]);
    forall n | n in VISITS[..10] ensures n < |g.nodes| { assert n in s.queue; }
    assert StateAt(a, b, 0) == State(s.link, map[1 := true], VISITS[..10]);
    Turns(g, a, b, 13);
    RoundsAdd(g, s, 2, 13);
  }

  ghost predicate StaleAt(s: State, a: int) {
    s.queue == [] && LabelOf(s.link, 5) == BadLabel && Agree(s.link, s.marks, [3, 4], [1, 10], Num(Is, a))
  }

  lemma LastIsStale(a: int, b: int)
    ensures StaleAt(StateAt(a, b, 13), a)
  {
    var s := StateAt(a, b, 13);
    assert Counts(s.marks, [1, 10], 0) && LabelOf(s.link, [3, 4][0]) == Known(Num(Is, a));
    assert !Counts(s.marks, [1, 10], 1);
  }

  /** Main result: for any two numbers the pass comes to rest on this accepted graph in SSA form with the phi labelled bad,
      although the edge back is excluded and the only operand that counts is the constant `a`. */
  lemma StalePhi(a: int, b: int, s: State)
    requires a != b
    ensures var g := Stale(a, b);
      && Accepts(g) && IsSsa(g) && g.nodes[5] == Node(Phi([3, 4]), 2) && g.nodes[2].kind == Block([1, 10])
      && (Started(g, s) ==> StaleAt(Rounds(g, s, 15), a))
  {
    var g := Stale(a, b);
    StaleAccepted(a, b);
    StaleEnds(a, b);
    StaleIs(a, b);
    if Started(g, s) {
      StaleStart(a, b, s);
      StartKeeps(g, s);
      RestReached(g, a, b, s);
      LastIsStale(a, b);
    }
  }
}
