/** The constant propagation pass itself (const_prop_pass.hpp on top of firm_pass.hpp): links, edge marks, worklist and
    nodes are overwritten in place. */
module ConstPropPassClass {
  import opened Wrappers
  import opened FirmGraph
  import opened FirmPass
  import opened ConstProp
  import opened ConstPropInvariant
  import opened ConstPropSound
  import opened ConstPropRest
  import opened ConstPropSubst
  import opened ConstPropExact

  function InitLabel(k: Kind): Label {
    if k.Const? then Known(k.value) else if k.Arith? || k.Phi? then Unknown else BadLabel
  }

  /** The nodes that initNode puts on the worklist: all but constants. */
  function Enqueued(g: Graph, order: seq<Id>): seq<Id> {
    if order == [] then []
    else
      var n := order[|order|-1];
      Enqueued(g, order[..|order|-1]) + if n < |g.nodes| && g.nodes[n].kind.Const? then [] else [n]
  }

  lemma {:induction false} EnqueuedHas(g: Graph, order: seq<Id>, n: Id)
    ensures n in Enqueued(g, order) <==> n in order && !(n < |g.nodes| && g.nodes[n].kind.Const?)
  {
    if order != [] {
      var rest := order[..|order|-1];
      assert order == rest + [order[|order|-1]];
      EnqueuedHas(g, rest, n);
    }
  }

  lemma {:induction false} EnqueuedFirst(g: Graph, order: seq<Id>, a: Id, b: Id)
    requires [a, b] <= order && a < |g.nodes| && b < |g.nodes| && !g.nodes[a].kind.Const? && !g.nodes[b].kind.Const?
    ensures [a, b] <= Enqueued(g, order)
  {
    var rest := order[..|order|-1];
    if |order| == 2 {
      assert order == [a, b] && rest == [a] && rest[..0] == [];
      assert Enqueued(g, []) == [] && Enqueued(g, [a]) == [] + [a];
    } else {
      assert [a, b] <= rest;
      EnqueuedFirst(g, rest, a, b);
    }
  }

  /** The state after the initial walk. */
  ghost predicate Started(g: Graph, s: State)
    requires WellFormed(g)
  {
    var order := Topo(g, Walk({}, []), g.end).order;
    && |s.link| == |g.nodes| && s.marks == map[] && s.queue == Enqueued(g, order)
    && forall n: Id :: n in order && n < |g.nodes| ==> s.link[n] == InitLabel(g.nodes[n].kind)
  }

  /** What the pass relies on: SSA form, every node reachable from End, and first predecessors leading from the End
      node's block back to the start block. */
  ghost predicate Accepts(g: Graph) {
    WellFormed(g) && MemoryTyped(g) && AllReachable(g) && LeadsToStart(g)
  }

  lemma StartQueue(g: Graph, s: State, n: Id)
    requires Accepts(g) && Started(g, s)
    ensures n in s.queue <==> n < |g.nodes| && !g.nodes[n].kind.Const?
    ensures n < |g.nodes| ==> s.link[n] == InitLabel(g.nodes[n].kind)
  {
    TopoInRange(g);
    EnqueuedHas(g, Topo(g, Walk({}, []), g.end).order, n);
    if n < |g.nodes| { TopoCoversGraph(g, n); }
  }

  lemma StartOrder(g: Graph, s: State)
    requires Accepts(g) && Started(g, s)
    ensures StartJmpFirst(g, s.queue, 1)
  {
    var order := Topo(g, Walk({}, []), g.end).order;
    StartJmpListedFirst(g);
    EnqueuedFirst(g, order, g.startBlock, g.startJmp);
  }

  /** The state after the initial walk, without the walk. */
  ghost predicate Fresh(g: Graph, s: State) {
    && |s.link| == |g.nodes| && s.marks == map[] && StartJmpFirst(g, s.queue, 1)
    && forall n: Id :: FreshNode(g, s, n)
  }

  ghost predicate FreshNode(g: Graph, s: State, n: Id)
    requires |s.link| == |g.nodes|
  {
    && (n in s.queue <==> n < |g.nodes| && !g.nodes[n].kind.Const?)
    && (n < |g.nodes| ==> s.link[n] == InitLabel(g.nodes[n].kind))
  }

  lemma FreshKeeps(g: Graph, s: State)
    requires WellFormed(g) && MemoryTyped(g) && Fresh(g, s)
    ensures Invariant(g, s) && MemoryQuiet(g, s.link) && ExactKept(g, s)
  {
    forall n: Id ensures n in s.queue || Exact(g, s.link, n) { assert FreshNode(g, s, n); }
    forall n: Id | n in s.queue ensures n < |g.nodes| { assert FreshNode(g, s, n); }
    forall n: Id | n < |g.nodes| && IsValue(g.nodes[n].kind) ensures ValueWaits(g, s.queue, n) || Settled(g, s, n) {
      assert FreshNode(g, s, n);
    }
    forall c: Id | c < |g.nodes| && IsControl(g.nodes[c].kind) ensures c in s.queue { assert FreshNode(g, s, c); }
    forall n: Id | n < |g.nodes| && !IsValue(g.nodes[n].kind) ensures s.link[n] == BadLabel { assert FreshNode(g, s, n); }
    forall n: Id | n in g.memory && n < |s.link| ensures !s.link[n].Known? { assert FreshNode(g, s, n); }
  }

  /** The initial walk establishes the invariant. */
  lemma StartKeeps(g: Graph, s: State)
    requires Accepts(g) && Started(g, s)
    ensures Invariant(g, s) && MemoryQuiet(g, s.link) && ExactKept(g, s)
  {
    forall n: Id ensures FreshNode(g, s, n) { StartQueue(g, s, n); }
    StartOrder(g, s);
    FreshKeeps(g, s);
  }

  lemma AnyMarkedStep(marks: map<Id, bool>, preds: seq<Id>, i: nat)
    requires i < |preds|
    ensures AnyMarked(marks, preds[..i+1]) == (AnyMarked(marks, preds[..i]) || preds[i] in marks)
    ensures AnyTaken(marks, preds[..i+1]) == (AnyTaken(marks, preds[..i]) || MarkedTrue(marks, preds[i]))
  {
    assert preds[..i+1] == preds[..i] + [preds[i]];
    assert preds[i] in preds[..i+1];
  }

  // ---- what one call of substituteNode changes ----

  /** What substitution relies on: nodes that are not values, conditions, memory and its projections carry no
      constant, and what a node refers to is where it should be. */
  ghost predicate Substitutable(g: Graph, labels: seq<Label>) {
    && |labels| == |g.nodes| == |g.outs|
    && forall n: Id :: n < |g.nodes| ==> SubstitutableNode(g, labels, n)
  }

  ghost predicate SubstitutableNode(g: Graph, labels: seq<Label>, n: Id)
    requires n < |g.nodes| && |labels| == |g.nodes| == |g.outs|
  {
    var k := g.nodes[n].kind;
    && (k.ProjMem? || !IsValue(k) ==> !labels[n].Known?)
    && (IsMemop(k) ==> k.mem < |g.nodes| && !labels[k.mem].Known?)
    && (k.ProjMem? && k.pred < |g.nodes| ==> n in g.outs[k.pred])
    && (k.ProjX? ==> k.cond < |g.nodes| && g.nodes[k.cond].kind.Cond? && g.nodes[k.cond].kind.selector < |g.nodes|)
    && (forall u: Id :: u in g.outs[n] ==> u < |g.nodes|)
    && (forall m: Id :: k.ProjMem? && m < |g.nodes| && g.nodes[m].kind == k ==> m == n)
  }

  lemma RestIsSubstitutable(g: Graph, s: State)
    requires Finished(g, s) && MemoryTyped(g) && MemoryQuiet(g, s.link)
    ensures Substitutable(g, s.link)
  {
    forall n: Id | n < |g.nodes| ensures SubstitutableNode(g, s.link, n) {
      NodeIsSubstitutable(g, s, n);
    }
  }

  lemma NodeIsSubstitutable(g: Graph, s: State, n: Id)
    requires Finished(g, s) && MemoryTyped(g) && MemoryQuiet(g, s.link) && n < |g.nodes|
    ensures SubstitutableNode(g, s.link, n)
  {
    AtRest(g, s);
    assert WellFormedNode(g, n);
    var k := g.nodes[n].kind;
    if k.ProjMem? {
      assert Settled(g, s, n) && Uses(g, n, k.pred);
    } else if k.ProjX? {
      assert WellFormedNode(g, k.cond);
    } else if IsMemop(k) {
      assert k.mem in Operands(k);
    }
  }

  lemma ProjMemStays(g: Graph, labels: seq<Label>, done: set<Id>, m: Id, n: Id)
    requires Substitutable(g, labels) && m < |g.nodes| && n !in done
    ensures SubstKind(g, labels, done, m) == ProjMem(n) <==> g.nodes[m].kind == ProjMem(n)
  {
    assert SubstitutableNode(g, labels, m);
  }

  lemma ProjMemsListed(g: Graph, labels: seq<Label>, n: Id)
    requires Substitutable(g, labels) && n < |g.nodes|
    ensures forall m: Id :: m < |g.nodes| && g.nodes[m].kind == ProjMem(n) ==> m in g.outs[n]
  {
    forall m: Id | m < |g.nodes| && g.nodes[m].kind == ProjMem(n) ensures m in g.outs[n] {
      assert SubstitutableNode(g, labels, m);
    }
  }

  lemma CondStays(g: Graph, labels: seq<Label>, done: set<Id>, c: Id)
    requires Substitutable(g, labels) && c < |g.nodes| && g.nodes[c].kind.Cond?
    ensures SubstKind(g, labels, done, c) == g.nodes[c].kind
  {
    assert SubstitutableNode(g, labels, c);
  }

  /** A constant-labelled node that is not a Const yet has not been visited, and is as it was. */
  lemma FoldedOnce(g: Graph, labels: seq<Label>, done: set<Id>, n: Id)
    requires Substitutable(g, labels) && n < |g.nodes| && labels[n].Known? && !SubstKind(g, labels, done, n).Const?
    ensures n !in done && SubstKind(g, labels, done, n) == g.nodes[n].kind && IsValue(g.nodes[n].kind)
  {
    assert SubstitutableNode(g, labels, n);
  }

  /** Calls that find nothing to do. */
  lemma SubstIdle(g: Graph, labels: seq<Label>, done: set<Id>, n: Id)
    requires LabelsOf(g, labels) && n < |g.nodes|
    requires n in done || g.nodes[n].kind.Const? || !(labels[n].Known? || Decision(g, labels, n).Known?)
    ensures Substituted(g, labels, done + {n}).nodes == Substituted(g, labels, done).nodes
  {
    forall m: Id | m < |g.nodes| ensures SubstKind(g, labels, done + {n}, m) == SubstKind(g, labels, done, m) {
    }
  }

  /** A node other than `n` after `n` has been folded. */
  function Bypassed(g: Graph, labels: seq<Label>, done: set<Id>, n: Id, m: Id): Node
    requires LabelsOf(g, labels) && n < |g.nodes| && m < |g.nodes|
  {
    var k := if g.nodes[m].kind == ProjMem(n) && IsMemop(g.nodes[n].kind) then Copy(g.nodes[n].kind.mem) else SubstKind(g, labels, done, m);
    Node(k, g.nodes[m].block)
  }

  lemma SubstFolds(g: Graph, labels: seq<Label>, done: set<Id>, n: Id, now: seq<Node>)
    requires Substitutable(g, labels) && n < |g.nodes| && n !in done && labels[n].Known? && !g.nodes[n].kind.Const?
    requires |now| == |g.nodes| && now[n] == Node(Const(labels[n].value), g.nodes[n].block)
    requires forall m: Id :: m < |now| && m != n ==> now[m] == Bypassed(g, labels, done, n, m)
    ensures now == Substituted(g, labels, done + {n}).nodes
  {
    forall m: Id | m < |g.nodes| ensures now[m] == Node(SubstKind(g, labels, done + {n}, m), g.nodes[m].block) {
      assert SubstitutableNode(g, labels, m);
    }
  }

  lemma SubstDecides(g: Graph, labels: seq<Label>, done: set<Id>, c: Id, now: Kind)
    requires Substitutable(g, labels) && c < |g.nodes| && c !in done && Decision(g, labels, c).Known? && g.nodes[c].kind.ProjX?
    requires now == if (Decision(g, labels, c).value == Bool(true)) == g.nodes[c].kind.onTrue then Jmp else Bad
    ensures Substituted(g, labels, done + {c}).nodes == Substituted(g, labels, done).nodes[c := Node(now, g.nodes[c].block)]
  {
    assert SubstitutableNode(g, labels, c);
    forall m: Id | m < |g.nodes| && m != c ensures SubstKind(g, labels, done + {c}, m) == SubstKind(g, labels, done, m) {
    }
  }

  ghost predicate SameRuns(g: Graph, h: Graph) {
    forall vs: seq<Visit>, cs: seq<Id> :: IsRun(h, vs, cs) <==> IsRun(g, vs, cs)
  }

  lemma SubstitutedSameRuns(g: Graph, s: State, done: set<Id>)
    requires Finished(g, s) && IsSsa(g)
    ensures SameRuns(g, Substituted(g, s.link, done))
  {
    forall vs: seq<Visit>, cs: seq<Id> ensures IsRun(Substituted(g, s.link, done), vs, cs) <==> IsRun(g, vs, cs) {
      SubstitutionKeepsRuns(g, s, done, vs, cs);
    }
  }

  lemma BeginSubstitution(g: Graph, s: State)
    requires Finished(g, s) && MemoryTyped(g) && MemoryQuiet(g, s.link)
    ensures Substitutable(g, s.link) && Substituted(g, s.link, {}).nodes == g.nodes
  {
    RestIsSubstitutable(g, s);
  }

  ghost predicate AllFolded(g: Graph, link: seq<Label>, nodes: seq<Node>) { forall n: Id :: FoldedAt(g, link, nodes, n) }

  lemma EndSubstitution(g: Graph, s: State, done: set<Id>, now: seq<Node>)
    requires Finished(g, s) && IsSsa(g) && ExactKept(g, s) && now == Substituted(g, s.link, done).nodes
    requires forall m: Id :: m in done <==> m < |g.nodes|
    ensures SameRuns(g, g.(nodes := now)) && AllFolded(g, s.link, now)
    ensures forall n: Id :: NothingLeft(now, n)
  {
    assert g.(nodes := now) == Substituted(g, s.link, done);
    SubstitutedSameRuns(g, s, done);
    forall n: Id ensures FoldedAt(g, s.link, now, n) { SubstitutedIsFolded(g, s, done, n); }
    forall n: Id ensures NothingLeft(now, n) { FoldedLeavesNothing(g, s, now, n); }
  }

  lemma WalkCovers(g: Graph, order: seq<Id>)
    requires Accepts(g) && order == Topo(g, Walk({}, []), g.end).order
    ensures forall n: Id :: n in order <==> n < |g.nodes|
  {
    TopoInRange(g);
    forall n: Id | n < |g.nodes| ensures n in order { TopoCoversGraph(g, n); }
  }

  /** The same constants; exchangeWithLink may lose an unknown. */
  ghost predicate LinksAgree(labels: seq<Label>, link: seq<Label>) {
    |link| == |labels| && forall m: Id :: m < |link| ==> link[m] == labels[m] || (!link[m].Known? && !labels[m].Known?)
  }

  ghost predicate TargetsExist(g: Graph, targets: seq<Id>) {
    forall k :: 0 <= k < |targets| ==> targets[k] < |g.outs| && forall m :: m in g.outs[targets[k]] ==> m < |g.nodes|
  }

  lemma OutsExist(g: Graph, c: Id)
    requires OutsExact(g) && c < |g.nodes|
    ensures TargetsExist(g, g.outs[c])
  {
    forall k | 0 <= k < |g.outs[c]| ensures g.outs[c][k] < |g.outs| { assert g.outs[c][k] in g.outs[c]; }
  }

  lemma WokenStep(g: Graph, w: seq<Id>, targets: seq<Id>, i: nat)
    requires i < |targets| && targets[i] < |g.outs|
    ensures (w + Woken(g, g.outs[targets[i]])) + WokenIn(g, targets[i+1..]) == w + WokenIn(g, targets[i..])
  {
    var a, b := Woken(g, g.outs[targets[i]]), WokenIn(g, targets[i+1..]);
    assert targets[i..][1..] == targets[i+1..] && targets[i..][0] == targets[i];
    assert WokenIn(g, targets[i..]) == a + b;
    Splice(w, a, b);
  }

  // ---- the loop ----

  ghost predicate Running(g: Graph, s: State) { Invariant(g, s) && MemoryTyped(g) && MemoryQuiet(g, s.link) && ExactKept(g, s) }

  /** States from which the rounds left lead where `fuel` rounds lead from `s`. */
  lemma Leading(g: Graph, s: State, fuel: nat) returns (leads: (State, nat) -> bool)
    ensures leads(s, fuel) && forall t, left: nat :: left > 0 && leads(t, left) ==> leads(Next(g, t), left - 1)
    ensures forall t, left: nat :: leads(t, left) && (left == 0 || t.queue == []) ==> t == Rounds(g, s, fuel)
  {
    leads := (t: State, left: nat) => Rounds(g, t, left) == Rounds(g, s, fuel);
    forall t, left: nat | left > 0 && leads(t, left) ensures leads(Next(g, t), left - 1) { FirstRound(g, t, left); }
    forall t, left: nat | leads(t, left) && (left == 0 || t.queue == []) ensures t == Rounds(g, s, fuel) { NoRounds(g, t, left); }
  }

  lemma FirstRound(g: Graph, t: State, left: nat)
    requires left > 0
    ensures Rounds(g, t, left) == Rounds(g, Next(g, t), left - 1)
  {
  }

  lemma NoRounds(g: Graph, t: State, left: nat)
    requires left == 0 || t.queue == []
    ensures Rounds(g, t, left) == t
  {
    if left > 0 { RoundsOver(g, t, left); }
  }

  /** There is one state to start from. */
  lemma StartUnique(g: Graph, s: State, t: State)
    requires Accepts(g) && Started(g, s) && Started(g, t)
    ensures s == t
  {
    forall n: nat | n < |g.nodes| ensures s.link[n] == t.link[n] {
      StartQueue(g, s, n);
      StartQueue(g, t, n);
    }
  }

  lemma StartDecides(g: Graph, t: State, fuel: nat)
    requires Accepts(g) && exists s: State :: Started(g, s) && t == Rounds(g, s, fuel)
    ensures t.queue == [] <==> exists s: State :: Started(g, s) && Rounds(g, s, fuel).queue == []
  {
    var s: State :| Started(g, s) && t == Rounds(g, s, fuel);
    if s': State :| Started(g, s') && Rounds(g, s', fuel).queue == [] {
      StartUnique(g, s, s');
    }
  }

  class ConstPropPass {
    const graph: Graph                         // the graph as it was analysed
    var nodes: seq<Node>                       // its nodes now
    var link: seq<Label>
    var controlFlowVisited: map<Id, bool>
    var worklist: seq<Id>
    var visited: set<Id>
    var order: seq<Id>                         // nodes handed to initNode so far

    ghost function Model(): State
      reads this
    {
      State(link, controlFlowVisited, worklist)
    }

    /** Nodes carry no links at first that could be relied on. */
    constructor (g: Graph, leftover: seq<Label>)
      requires |leftover| == |g.nodes|
      ensures graph == g && nodes == g.nodes && link == leftover && controlFlowVisited == map[] && worklist == []
      ensures visited == {} && order == []
    {
      graph, nodes, link, controlFlowVisited, worklist, visited, order := g, g.nodes, leftover, map[], [], {}, [];
    }

    // ---- initial walk ----

    ghost predicate Walking()
      reads this
    {
      && WellFormed(graph) && nodes == graph.nodes && |link| == |graph.nodes| && worklist == Enqueued(graph, order)
      && forall n: Id :: n in order && n < |graph.nodes| ==> link[n] == InitLabel(graph.nodes[n].kind)
    }

    /** initNode: every node but a constant is enqueued. */
    method InitNode(n: Id)
      requires n < |graph.nodes| && Walking()
      modifies this`link, this`worklist, this`order
      ensures Walking() && order == old(order) + [n] && link == old(link)[n := InitLabel(graph.nodes[n].kind)]
    {
      assert (order + [n])[..|order + [n]|-1] == order;
      order := order + [n];
      link := link[n := InitLabel(nodes[n].kind)];
      if !nodes[n].kind.Const? {
        worklist := worklist + [n];
      }
    }

    method InitTopological(n: Id)
      requires Walking() && n < |graph.nodes|
      modifies this`link, this`worklist, this`order, this`visited
      ensures Walking() && Walk(visited, order) == Topo(graph, old(Walk(visited, order)), n)
      decreases |Unmarked(graph, visited)|, 2 * Depth(graph, n) + 1, 1
    {
      FewerUnmarked(graph, visited, visited + {n});
      if n in visited { return; }
      var isLoopBreaker := IsBreaker(nodes[n].kind);
      if isLoopBreaker {
        visited := visited + {n};
      }
      InitInputs(n);
      if isLoopBreaker || n !in visited {
        InitNode(n);
      }
      visited := visited + {n};
    }

    /** The two recursions of init_topological: first the block, then the operands. */
    method InitInputs(n: Id)
      requires Walking() && n < |graph.nodes|
      modifies this`link, this`worklist, this`order, this`visited
      ensures Walking() && Walk(visited, order) == TopoInputs(graph, old(Walk(visited, order)), n)
      decreases |Unmarked(graph, visited)|, 2 * Limit(graph, n) + 1, 0
    {
      OperandsBelow(graph, n);
      ghost var v0 := visited;
      if !nodes[n].kind.Block? {
        InitTopological(nodes[n].block);
        FewerUnmarked(graph, v0, visited);
      }
      InitAll(Operands(nodes[n].kind), Limit(graph, n));
    }

    method InitAll(preds: seq<Id>, ghost depth: nat)
      requires Walking() && forall q: Id :: q in preds ==> q < |graph.nodes| && Depth(graph, q) < depth
      modifies this`link, this`worklist, this`order, this`visited
      ensures Walking() && Walk(visited, order) == TopoAll(graph, old(Walk(visited, order)), preds, depth)
      decreases |Unmarked(graph, visited)|, 2 * depth, 0
    {
      ghost var w := Walk(visited, order);
      var i := 0;
      while i < |preds|
        invariant i <= |preds| && Walking() && w.visited <= visited
        invariant forall q: Id :: q in preds[i..] ==> q in preds
        invariant TopoAll(graph, Walk(visited, order), preds[i..], depth) == TopoAll(graph, w, preds, depth)
      {
        assert preds[i..] == [preds[i]] + preds[i+1..] && preds[i] in preds;
        FewerUnmarked(graph, w.visited, visited);
        InitTopological(preds[i]);
        i := i + 1;
      }
    }

    // ---- visits ----

    method EnqueueAllChildren(n: Id)
      requires n < |graph.outs|
      modifies this`worklist
      ensures worklist == old(worklist) + graph.outs[n]
    {
      var i := 0;
      while i < |graph.outs[n]|
        invariant i <= |graph.outs[n]| && worklist == old(worklist) + graph.outs[n][..i]
      {
        worklist := worklist + [graph.outs[n][i]];
        i := i + 1;
      }
    }

    method SetNodeLink(n: Id, val: Label)
      requires n < |link| && n < |graph.outs|
      modifies this`link, this`worklist
      ensures Model() == SetLink(graph, old(Model()), n, val)
    {
      if link[n] != val {
        link := link[n := val];
        EnqueueAllChildren(n);
      }
    }

    /** Phis and mode-X nodes among the members of a block. */
    method EnqueueMembers(members: seq<Id>)
      requires nodes == graph.nodes && forall m :: m in members ==> m < |graph.nodes|
      modifies this`worklist
      ensures worklist == old(worklist) + Woken(graph, members)
    {
      var j := 0;
      while j < |members|
        invariant j <= |members| && worklist + Woken(graph, members[j..]) == old(worklist) + Woken(graph, members)
      {
        var m := members[j];
        assert m in members;
        assert members[j..][1..] == members[j+1..];
        if IsModeX(nodes[m].kind) || nodes[m].kind.Phi? {
          worklist := worklist + [m];
        }
        j := j + 1;
      }
    }

    /** The two nested loops of maybeMarkControlFlow over the blocks that use edge `c`. */
    method EnqueueTargets(c: Id)
      requires c < |graph.outs| && nodes == graph.nodes && TargetsExist(graph, graph.outs[c])
      modifies this`worklist
      ensures worklist == old(worklist) + WokenIn(graph, graph.outs[c])
    {
      var targets := graph.outs[c];
      var i := 0;
      while i < |targets|
        invariant i <= |targets| && worklist + WokenIn(graph, targets[i..]) == old(worklist) + WokenIn(graph, targets)
      {
        WokenStep(graph, worklist, targets, i);
        EnqueueMembers(graph.outs[targets[i]]);
        i := i + 1;
      }
    }

    method MaybeMarkControlFlow(c: Id, taken: bool)
      requires WellFormed(graph) && c < |graph.nodes| && nodes == graph.nodes
      modifies this`controlFlowVisited, this`worklist
      ensures Model() == Mark(graph, old(Model()), c, taken)
    {
      if c in controlFlowVisited && controlFlowVisited[c] == taken { return; }
      if !taken {
        controlFlowVisited := controlFlowVisited[c := false];
        return;
      }
      assert WellFormedNode(graph, c);
      var b := nodes[c].block;
      if b == graph.startBlock {
        controlFlowVisited := controlFlowVisited[c := true];
      } else {
        var arr := nodes[b].kind.preds;
        var currentlyTaken, visitorReachable := false, false;
        var i := 0;
        while i < |arr|
          invariant unchanged(this) && i <= |arr| && visitorReachable == AnyMarked(controlFlowVisited, arr[..i])
          invariant currentlyTaken == AnyTaken(controlFlowVisited, arr[..i])
        {
          AnyMarkedStep(controlFlowVisited, arr, i);
          if arr[i] in controlFlowVisited {
            visitorReachable := true;
            currentlyTaken := currentlyTaken || controlFlowVisited[arr[i]];
          }
          i := i + 1;
        }
        assert arr[..i] == arr && arr == Preds(graph, b);
        if visitorReachable {
          controlFlowVisited := controlFlowVisited[c := currentlyTaken];
          if currentlyTaken {
            OutsExist(graph, c);
            EnqueueTargets(c);
          }
        } else {
          worklist := worklist + [c];
        }
      }
    }

    /** The label visitPhi computes. */
    method JoinOperands(n: Id) returns (val: Label)
      requires Fits(graph, Model()) && n < |graph.nodes| && graph.nodes[n].kind.Phi? && nodes == graph.nodes
      ensures val == NewLabel(graph, Model(), n)
    {
      assert WellFormedNode(graph, n);
      assert forall q :: q in Operands(graph.nodes[n].kind) ==> q < |link|;
      var ops, preds := nodes[n].kind.ops, nodes[nodes[n].block].kind.preds;
      val := Unknown;
      var i := 0;
      while i < |ops|
        invariant i <= |ops|
        invariant JoinFrom(link, controlFlowVisited, ops, preds, i, val) == JoinFrom(link, controlFlowVisited, ops, preds, 0, Unknown)
      {
        assert ops[i] in ops;
        if preds[i] in controlFlowVisited && !controlFlowVisited[preds[i]] {
          i := i + 1;
          continue;
        }
        var predVal := link[ops[i]];
        if val == BadLabel || predVal == BadLabel {
          val := BadLabel;
          return;
        } else if val == Unknown {
          val := predVal;
        } else if predVal != Unknown && val != predVal {
          val := BadLabel;
          return;
        }
        i := i + 1;
      }
    }

    /** The label that visiting any other value computes. */
    method Evaluate(n: Id) returns (val: Label)
      requires Fits(graph, Model()) && n < |graph.nodes| && nodes == graph.nodes
      requires IsValue(graph.nodes[n].kind) && !Inert(graph.nodes[n].kind) && !graph.nodes[n].kind.Phi?
      ensures val == NewLabel(graph, Model(), n)
    {
      assert WellFormedNode(graph, n);
      var k := nodes[n].kind;
      assert forall q :: q in Operands(k) ==> q < |link|;
      if k.Arith? {
        assert k.left in Operands(k) && k.right in Operands(k);
        val := Transfer(k.aop, link[k.left], link[k.right]);
      } else if k.Unary? {
        assert k.operand in Operands(k);
        val := TransferUnary(k.uop, link[k.operand]);
      } else if k.Cmp? {
        assert k.cleft in Operands(k) && k.cright in Operands(k);
        val := TransferCmp(k.rel, link[k.cleft], link[k.cright]);
      } else {
        assert k.pred in Operands(k);
        val := link[k.pred];
      }
    }

    /** visitProj for a projection of mode X. */
    method VisitProjX(n: Id)
      requires Fits(graph, Model()) && n < |graph.nodes| && graph.nodes[n].kind.ProjX? && nodes == graph.nodes
      modifies this`controlFlowVisited, this`worklist, this`link
      ensures Model() == VisitNode(graph, old(Model()), n)
    {
      assert WellFormedNode(graph, n);
      var cond := nodes[n].kind.cond;
      assert WellFormedNode(graph, cond);
      assert nodes[cond].kind.selector in Operands(nodes[cond].kind);
      var cmpVal := link[nodes[cond].kind.selector];
      if cmpVal.Known? {
        if (cmpVal.value == Bool(true)) == nodes[n].kind.onTrue {
          MaybeMarkControlFlow(n, true);
        } else {
          MaybeMarkControlFlow(n, false);
        }
      } else {
        MaybeMarkControlFlow(n, true);
      }
      SetNodeLink(n, link[cond]);
    }

    /** visitNode: the dispatch of FunctionPass. */
    method Visit(n: Id)
      requires Fits(graph, Model()) && n < |graph.nodes| && nodes == graph.nodes
      modifies this`controlFlowVisited, this`worklist, this`link
      ensures Model() == VisitNode(graph, old(Model()), n)
    {
      var k := nodes[n].kind;
      if k.Cond? {
        EnqueueAllChildren(n);
      } else if k.ProjX? {
        VisitProjX(n);
      } else if k.Jmp? {
        MaybeMarkControlFlow(n, true);
      } else if k.Bad? {
        MaybeMarkControlFlow(n, false);
      } else if k.Phi? {
        var val := JoinOperands(n);
        SetNodeLink(n, val);
      } else if IsValue(k) && !Inert(k) {
        var val := Evaluate(n);
        SetNodeLink(n, val);
      }
    }

    /** initWorkQueue. */
    method InitWorkQueue()
      requires Accepts(graph) && nodes == graph.nodes && |link| == |graph.nodes|
      requires worklist == [] && visited == {} && order == []
      modifies this`link, this`worklist, this`visited, this`order
      ensures controlFlowVisited == map[] ==> Started(graph, Model())
      ensures order == Topo(graph, Walk({}, []), graph.end).order
    {
      assert Enqueued(graph, []) == [];
      InitTopological(graph.end);
    }

    /** One iteration of the loop of FunctionPass::run. */
    method VisitFront()
      requires Fits(graph, Model()) && worklist != [] && nodes == graph.nodes
      modifies this`controlFlowVisited, this`worklist, this`link
      ensures Model() == Round(graph, old(Model()))
    {
      RestFits(graph, Model());
      var n := worklist[0];
      worklist := worklist[1..];
      assert Model() == old(Model()).(queue := old(Model()).queue[1..]);
      Visit(n);
    }

    method VisitNext()
      requires Running(graph, Model()) && worklist != [] && nodes == graph.nodes
      modifies this`controlFlowVisited, this`worklist, this`link
      ensures Running(graph, Model()) && Model() == Next(graph, old(Model()))
    {
      RoundKeeps(graph, Model());
      RoundKeepsMemory(graph, Model());
      RoundKeepsExact(graph, Model());
      VisitFront();
    }

    /** The loop of FunctionPass::run, until the worklist is empty or `fuel` rounds have been spent. */
    method Drain(fuel: nat) returns (done: bool)
      requires Running(graph, Model()) && nodes == graph.nodes
      modifies this`controlFlowVisited, this`worklist, this`link
      ensures Running(graph, Model()) && Model() == Rounds(graph, old(Model()), fuel)
      ensures done <==> worklist == []
    {
      var left := fuel;
      ghost var leads := Leading(graph, Model(), fuel);
      while worklist != [] && left > 0
        invariant Running(graph, Model()) && leads(Model(), left)
        decreases left
      {
        VisitNext();
        left := left - 1;
      }
      done := worklist == [];
    }

    /** The analysis: initial walk, then rounds. */
    method Analyse(fuel: nat) returns (done: bool)
      requires Accepts(graph) && nodes == graph.nodes && |link| == |graph.nodes|
      requires controlFlowVisited == map[] && worklist == [] && visited == {} && order == []
      modifies this`link, this`controlFlowVisited, this`worklist, this`visited, this`order
      ensures Running(graph, Model())
      ensures order == Topo(graph, Walk({}, []), graph.end).order
      ensures done <==> worklist == []
      ensures exists s: State :: Started(graph, s) && Model() == Rounds(graph, s, fuel)
    {
      InitWorkQueue();
      StartKeeps(graph, Model());
      done := Drain(fuel);
    }

    // ---- substitution ----

    /** `done` lists the nodes substituteNode has been called on; `labels` are those the analysis ended with. */
    ghost predicate Substituting(labels: seq<Label>, done: set<Id>)
      reads this
    {
      Substitutable(graph, labels) && LinksAgree(labels, link) && nodes == Substituted(graph, labels, done).nodes
    }

    /** The memory projection of the folded node `n` becomes a copy of the memory before it. */
    method BypassMemory(n: Id, mem: Id, ghost labels: seq<Label>, ghost done: set<Id>)
      requires Substituting(labels, done) && n < |graph.nodes| && IsMemop(graph.nodes[n].kind)
      requires mem == graph.nodes[n].kind.mem && n !in done
      modifies this`nodes, this`link
      ensures LinksAgree(labels, link) && |nodes| == old(|nodes|)
      ensures forall m: Id :: m < |nodes| ==>
        nodes[m] == (if graph.nodes[m].kind == ProjMem(n) then Node(Copy(mem), graph.nodes[m].block) else old(nodes[m]))
    {
      assert SubstitutableNode(graph, labels, n);
      var i := 0;
      while i < |graph.outs[n]|
        invariant unchanged(this) && i <= |graph.outs[n]|
        invariant forall j :: 0 <= j < i ==> graph.outs[n][j] < |graph.nodes| && graph.nodes[graph.outs[n][j]].kind != ProjMem(n)
      {
        var succ := graph.outs[n][i];
        assert succ in graph.outs[n];
        ProjMemStays(graph, labels, done, succ, n);
        if nodes[succ].kind == ProjMem(n) {
          assert SubstitutableNode(graph, labels, succ);
          link := link[mem := link[succ]];
          nodes := nodes[succ := Node(Copy(mem), nodes[succ].block)];
          return;
        }
        i := i + 1;
      }
      ProjMemsListed(graph, labels, n);
    }

    method SubstituteNode(n: Id, ghost labels: seq<Label>, ghost done: set<Id>)
      requires Substituting(labels, done) && n < |graph.nodes|
      modifies this`nodes, this`link
      ensures Substituting(labels, done + {n})
    {
      var k, val := nodes[n].kind, link[n];
      if !k.Const? && val.Known? {
        FoldedOnce(graph, labels, done, n);
        if IsMemop(k) {
          BypassMemory(n, k.mem, labels, done);
        }
        nodes := nodes[n := Node(Const(val.value), nodes[n].block)];
        SubstFolds(graph, labels, done, n, nodes);
      } else if k.ProjX? {
        SubstituteProjX(n, labels, done);
      } else {
        SubstIdle(graph, labels, done, n);
      }
    }

    method SubstituteProjX(n: Id, ghost labels: seq<Label>, ghost done: set<Id>)
      requires Substituting(labels, done) && n < |graph.nodes| && nodes[n].kind.ProjX?
      modifies this`nodes
      ensures Substituting(labels, done + {n})
    {
      assert SubstitutableNode(graph, labels, n);
      var cond, onTrue := nodes[n].kind.cond, nodes[n].kind.onTrue;
      CondStays(graph, labels, done, cond);
      var cmpVal := link[nodes[cond].kind.selector];
      if cmpVal.Known? {
        nodes := nodes[n := Node(if (cmpVal.value == Bool(true)) == onTrue then Jmp else Bad, nodes[n].block)];
        SubstDecides(graph, labels, done, n, nodes[n].kind);
      } else {
        SubstIdle(graph, labels, done, n);
      }
    }

    /** substituteNodes, over the nodes of the initial walk; the outcome does not depend on their order. */
    method SubstituteNodes(walk: seq<Id>, ghost labels: seq<Label>)
      requires Substituting(labels, {}) && forall n :: n in walk ==> n < |graph.nodes|
      modifies this`nodes, this`link
      ensures LabelsOf(graph, labels) && nodes == Substituted(graph, labels, set n | n in walk).nodes
    {
      ghost var done := {};
      var i := 0;
      while i < |walk|
        invariant i <= |walk| && Substituting(labels, done) && done == set n | n in walk[..i]
      {
        assert walk[..i+1] == walk[..i] + [walk[i]];
        assert walk[i] in walk;
        SubstituteNode(walk[i], labels, done);
        done := done + {walk[i]};
        i := i + 1;
      }
      assert walk[..i] == walk;
    }

    /** FunctionPass::run: a pass that comes to rest leaves a graph with exactly the runs it was given, in which every node
        with a constant label has become that constant and no operation on constants is left. */
    method Run(fuel: nat) returns (done: bool)
      requires Accepts(graph) && IsSsa(graph) && nodes == graph.nodes && |link| == |graph.nodes|
      requires controlFlowVisited == map[] && worklist == [] && visited == {} && order == []
      modifies this
      ensures done <==> exists s: State :: Started(graph, s) && Rounds(graph, s, fuel).queue == []
      ensures done ==> SameRuns(graph, graph.(nodes := nodes))
      ensures done ==> exists s: State :: Started(graph, s) && AllFolded(graph, Rounds(graph, s, fuel).link, nodes)
      ensures done ==> forall n: Id :: NothingLeft(nodes, n)
      ensures !done ==> nodes == graph.nodes
    {
      done := Analyse(fuel);
      StartDecides(graph, Model(), fuel);
      if done {
        SubstituteAll();
      }
    }

    /** substituteNodes after the analysis has come to rest. */
    method SubstituteAll()
      requires Accepts(graph) && IsSsa(graph) && nodes == graph.nodes && Finished(graph, Model()) && MemoryQuiet(graph, link)
      requires ExactKept(graph, Model())
      requires order == Topo(graph, Walk({}, []), graph.end).order
      modifies this`nodes, this`link
      ensures SameRuns(graph, graph.(nodes := nodes)) && AllFolded(graph, old(link), nodes)
      ensures forall n: Id :: NothingLeft(nodes, n)
    {
      ghost var s := Model();
      WalkCovers(graph, order);
      BeginSubstitution(graph, s);
      SubstituteNodes(order, s.link);
      EndSubstitution(graph, s, (set n | n in order), nodes);
    }
  }
}
