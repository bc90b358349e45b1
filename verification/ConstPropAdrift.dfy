/** Unreachable code on which constant propagation (const_prop_pass.hpp) never comes to rest. */
module ConstPropAdrift {
  import opened FirmGraph
  import opened FirmPass
  import opened ConstProp
  import opened ConstPropInvariant
  import opened ConstPropSubst
  import opened ConstPropRest
  import opened ConstPropPassClass

  /** No label can decide the edge: a jump, or a projection whose comparison has an operand that is never a constant. */
  ghost predicate NeverDecided(g: Graph, c: Id) {
    c < |g.nodes| && (g.nodes[c].kind.Jmp? || (g.nodes[c].kind.ProjX? && Blurred(g, SelectorOf(g, c))))
  }

  function SelectorOf(g: Graph, c: Id): Id
    requires c < |g.nodes| && g.nodes[c].kind.ProjX?
  {
    var cond := g.nodes[c].kind.cond;
    if cond < |g.nodes| && g.nodes[cond].kind.Cond? then g.nodes[cond].kind.selector else |g.nodes|
  }

  predicate Blurred(g: Graph, n: Id) {
    n < |g.nodes| && g.nodes[n].kind.Cmp? && (IsOpaque(g, g.nodes[n].kind.cleft) || IsOpaque(g, g.nodes[n].kind.cright))
  }

  predicate IsOpaque(g: Graph, n: Id) { n < |g.nodes| && g.nodes[n].kind.Opaque? }

  /** An edge inside the region. */
  ghost predicate Inner(g: Graph, region: set<Id>, c: Id) { NeverDecided(g, c) && g.nodes[c].block in region }

  /** A set of blocks entered only over its own edges, or by returns, and never from the start block. */
  ghost predicate Adrift(g: Graph, region: set<Id>) {
    && g.startBlock !in region
    && forall b, p: Id :: b in region && p in Preds(g, b) ==> p < |g.nodes| && (g.nodes[p].kind.Return? || Inner(g, region, p))
  }

  /** What every round keeps: comparisons with an opaque operand are no constants, and no edge of the region is marked. */
  ghost predicate Drifts(g: Graph, region: set<Id>, s: State) {
    && Workable(g, s)
    && (forall n: Id :: n < |g.nodes| && Blurred(g, n) ==> !s.link[n].Known?)
    && (forall n: Id :: IsOpaque(g, n) ==> s.link[n] == BadLabel)
    && (forall c: Id :: c in s.marks ==> c < |g.nodes| && IsControl(g.nodes[c].kind) && !Inner(g, region, c))
  }

  lemma LabelsDrift(g: Graph, region: set<Id>, s: State)
    requires Drifts(g, region, s) && s.queue != []
    ensures |Next(g, s).link| == |g.nodes|
    ensures forall n: Id :: n < |g.nodes| && Blurred(g, n) ==> !Next(g, s).link[n].Known?
    ensures forall n: Id :: IsOpaque(g, n) ==> Next(g, s).link[n] == BadLabel
  {
    RestFits(g, s);
    var n, p := s.queue[0], s.(queue := s.queue[1..]);
    VisitLinks(g, p, n);
    if Blurred(g, n) { BlurredLabel(g, p, n); }
    if IsOpaque(g, n) { OpaqueLabel(g, p, n); }
  }

  lemma BlurredLabel(g: Graph, s: State, n: Id)
    requires Fits(g, s) && n < |g.nodes| && Blurred(g, n) && forall n: Id :: IsOpaque(g, n) ==> s.link[n] == BadLabel
    ensures NewLabel(g, s, n) == BadLabel
  {
    assert WellFormedNode(g, n);
  }

  lemma OpaqueLabel(g: Graph, s: State, n: Id)
    requires Fits(g, s) && IsOpaque(g, n)
    ensures NewLabel(g, s, n) == s.link[n]
  {
  }

  /** An edge of the region may be taken, but nothing says that its block is reached. */
  lemma InnerSpins(g: Graph, region: set<Id>, s: State, c: Id)
    requires Drifts(g, region, s) && Adrift(g, region) && Inner(g, region, c)
    ensures Spins(g, s, c)
  {
    forall p | p in Preds(g, g.nodes[c].block) ensures p !in s.marks { }
    if g.nodes[c].kind.ProjX? { SelectorElsewhere(g, c); }
  }

  lemma MarksDrift(g: Graph, region: set<Id>, s: State)
    requires Drifts(g, region, s) && Adrift(g, region) && s.queue != []
    ensures forall c: Id :: c in Next(g, s).marks ==> c < |g.nodes| && IsControl(g.nodes[c].kind) && !Inner(g, region, c)
  {
    RestFits(g, s);
    var n, p := s.queue[0], s.(queue := s.queue[1..]);
    VisitStays(g, p, n);
    if !IsControl(g.nodes[n].kind) {
      OnlyControlMarked(g, p, n);
    } else if Inner(g, region, n) {
      InnerSpins(g, region, s, n);
      SpinningUnmarked(g, s, p, n);
    }
  }

  lemma SpinningUnmarked(g: Graph, s: State, p: State, n: Id)
    requires Fits(g, s) && Fits(g, p) && n < |g.nodes| && Spins(g, s, n) && p.link == s.link && p.marks == s.marks
    ensures VisitNode(g, p, n).marks == s.marks
  {
    assert Mark(g, p, n, true).marks == p.marks;
  }

  lemma NextDrifts(g: Graph, region: set<Id>, s: State)
    requires Drifts(g, region, s) && Adrift(g, region)
    ensures Drifts(g, region, Next(g, s))
  {
    if s.queue != [] {
      NextTracks(g, s);
      LabelsDrift(g, region, s);
      MarksDrift(g, region, s);
    }
  }

  lemma StartDrifts(g: Graph, region: set<Id>, s: State)
    requires Accepts(g) && Started(g, s)
    ensures Drifts(g, region, s)
  {
    StartKeeps(g, s);
    forall n: Id ensures n in s.queue <==> n < |g.nodes| && !g.nodes[n].kind.Const? { StartQueue(g, s, n); }
    forall n: Id | n < |g.nodes| ensures s.link[n] == InitLabel(g.nodes[n].kind) { StartQueue(g, s, n); }
  }

  /** Main result: whatever the labels, the worklist never runs empty if an edge lies adrift. */
  lemma AdriftNeverRests(g: Graph, region: set<Id>, c: Id, s: State)
    requires Accepts(g) && Started(g, s) && Adrift(g, region) && Inner(g, region, c)
    ensures !ComesToRest(g, s)
  {
    StartDrifts(g, region, s);
    var p := t => Drifts(g, region, t);
    forall t | p(t) ensures p(Next(g, t)) { NextDrifts(g, region, t); }
    forall n: nat ensures Rounds(g, s, n).queue != [] {
      RoundsInduction(g, s, n, p);
      InnerSpins(g, region, Rounds(g, s, n), c);
      assert EdgeWaits(g, Rounds(g, s, n).queue, c);
    }
  }

  // ---- a graph with such an edge ----

  /** Start block 0 jumps to block 2, which returns; block 6 has no predecessors and jumps to block 2 as well. */
  function DeadJump(): Graph {
    Graph(
      [Node(Block([]), 0), Node(Jmp, 0), Node(Block([1, 7]), 2), Node(Return([]), 2), Node(Block([3]), 4), Node(End([]), 4),
       Node(Block([]), 6), Node(Jmp, 6)],
      [[1], [2], [3], [4], [5], [], [7], [2]],
      [0, 0, 0, 0, 0, 0, 0, 0], {}, 0, 1, 5)
  }

  /** The edges and members of that graph. */
  predicate DeadJumpEdge(n: Id, q: Id) { (n == 2 && (q == 1 || q == 7)) || (n == 4 && q == 3) }

  predicate DeadJumpMember(n: Id, b: Id) { (n == 1 && b == 0) || (n == 3 && b == 2) || (n == 5 && b == 4) || (n == 7 && b == 6) }

  lemma DeadJumpUses(n: Id, q: Id)
    ensures Uses(DeadJump(), n, q) <==> DeadJumpEdge(n, q)
  {
    var g := DeadJump();
    if n == 2 { assert Operands(g.nodes[2].kind) == [1, 7]; }
    if n == 4 { assert Operands(g.nodes[4].kind) == [3]; }
  }

  lemma DeadJumpMembers(n: Id, b: Id)
    ensures Member(DeadJump(), n, b) <==> DeadJumpMember(n, b)
  {
  }

  lemma DeadJumpOuts(n: Id, u: Id)
    requires n < 8
    ensures u in DeadJump().outs[n] <==> DeadJumpEdge(u, n) || DeadJumpMember(u, n)
  {
  }

  lemma DeadJumpOperand(n: Id, q: Id)
    requires n < 8 && q in Operands(DeadJump().nodes[n].kind)
    ensures DeadJumpEdge(n, q) && q < 8 && IsModeX(DeadJump().nodes[q].kind) && !IsValue(DeadJump().nodes[n].kind)
  {
    assert Uses(DeadJump(), n, q);
    DeadJumpUses(n, q);
  }

  lemma DeadJumpNode(n: Id)
    requires n < 8
    ensures WellFormedNode(DeadJump(), n) && Dominated(DeadJump(), n)
  {
    var g := DeadJump();
    forall q | q in Operands(g.nodes[n].kind) ensures q < 8 && IsModeX(g.nodes[q].kind) && !IsValue(g.nodes[n].kind) {
      DeadJumpOperand(n, q);
    }
  }

  lemma DeadJumpOutsExact()
    ensures OutsExact(DeadJump())
  {
    var g := DeadJump();
    assert |g.nodes| == 8 && |g.outs| == 8;
    forall n: Id, q: Id | Uses(g, n, q) && q < 8 ensures n in g.outs[q] {
      DeadJumpUses(n, q);
      DeadJumpOuts(q, n);
    }
    forall n: Id | n < 8 && !g.nodes[n].kind.Block? && g.nodes[n].block < 8 ensures n in g.outs[g.nodes[n].block] {
      DeadJumpMembers(n, g.nodes[n].block);
      DeadJumpOuts(g.nodes[n].block, n);
    }
    forall n: Id, u: Id | n < 8 && u in g.outs[n] ensures Uses(g, u, n) || Member(g, u, n) {
      DeadJumpOuts(n, u);
      DeadJumpUses(u, n);
      DeadJumpMembers(u, n);
    }
  }

  lemma DeadJumpAcyclic()
    ensures Acyclic(DeadJump())
  {
    var g := DeadJump();
    forall n: Id, q: Id | Uses(g, n, q) ensures IsBreaker(g.nodes[n].kind) { DeadJumpUses(n, q); }
  }

  lemma DeadJumpFormed()
    ensures WellFormed(DeadJump()) && MemoryTyped(DeadJump()) && IsSsa(DeadJump())
  {
    var g := DeadJump();
    forall n: Id | n < |g.nodes| ensures WellFormedNode(g, n) && Dominated(g, n) { DeadJumpNode(n); }
    DeadJumpOutsExact();
    DeadJumpAcyclic();
    DeadJumpKinds();
  }

  lemma DeadJumpKinds()
    ensures var g := DeadJump();
      && MemoryTyped(g) && g.nodes[0] == Node(Block([]), 0) && g.nodes[1] == Node(Jmp, 0) && g.nodes[5].kind.End?
      && g.nodes[7] == Node(Jmp, 6) && Preds(g, 6) == []
  {
  }

  lemma DeadJumpReached(n: Id)
    requires n < 8
    ensures Reached(DeadJump(), n)
  {
    var g := DeadJump();
    var path := [5, 4, 3, 2] + (if n == 0 then [1, 0] else if n == 6 then [7, 6] else [n]);
    var short := if n < 2 || n > 5 then if n == 1 || n == 7 then [5, 4, 3, 2, n] else path else [5, 4, 3, 2][..6-n];
    assert Chain(g, short, n);
  }

  lemma DeadJumpLeads()
    ensures LeadsToStart(DeadJump())
  {
    var g := DeadJump();
    assert Distance(g, 0, 0);
    assert Distance(g, 2, 1) by { assert g.nodes[2].kind.preds[0] == 1 && g.nodes[1].block == 0; }
    assert Distance(g, 4, 2) by { assert g.nodes[4].kind.preds[0] == 3 && g.nodes[3].block == 2; }
    assert g.nodes[g.end].block == 4;
  }

  lemma DeadJumpAccepted()
    ensures Accepts(DeadJump()) && IsSsa(DeadJump())
  {
    DeadJumpFormed();
    forall n: Id | n < |DeadJump().nodes| ensures Reached(DeadJump(), n) { DeadJumpReached(n); }
    DeadJumpLeads();
  }

  /** The pass accepts the graph, which is in SSA form, and does not come to rest on it. */
  lemma DeadJumpNeverRests()
    ensures var g := DeadJump(); Accepts(g) && IsSsa(g) && forall s: State :: Started(g, s) ==> !ComesToRest(g, s)
  {
    var g := DeadJump();
    DeadJumpAccepted();
    DeadJumpKinds();
    assert Adrift(g, {6}) && Inner(g, {6}, 7);
    forall s: State | Started(g, s) ensures !ComesToRest(g, s) { AdriftNeverRests(g, {6}, 7, s); }
  }
}
