/** On graphs without cycles constant propagation (const_prop_pass.hpp) labels phis exactly: the initial walk lists a node
    behind everything it depends on, so that its first visit is final. */
module ConstPropLoopFree {
  import opened FirmGraph
  import opened FirmPass
  import opened ConstProp
  import opened ConstPropInvariant
  import opened ConstPropRest
  import opened ConstPropExact
  import opened ConstPropPassClass
  import opened ConstPropSettle
  import opened ConstPropPhis

  // ---- the walk lists a node behind what it refers to ----

  ghost predicate Sorted(g: Graph, order: seq<Id>) {
    forall i: nat, q: Id :: i < |order| && Follows(g, order[i], q) ==> q in order[..i]
  }

  /** Visited but not listed yet. */
  predicate Open(w: Walk, m: Id) { m in w.visited && m !in w.order }

  ghost predicate OpenAbove(height: Id -> nat, w: Walk, h: nat) { forall m: Id :: Open(w, m) ==> height(m) >= h }

  /** The walk `r` has opened nothing that it has not listed. */
  ghost predicate Closes(w: Walk, r: Walk) { w.order <= r.order && forall m: Id :: Open(r, m) ==> Open(w, m) }

  lemma ClosesTrans(w: Walk, r: Walk, t: Walk)
    requires Closes(w, r) && Closes(r, t)
    ensures Closes(w, t)
  {
  }

  lemma ListedSorted(g: Graph, w: Walk, n: Id)
    requires Sorted(g, w.order) && forall q: Id :: Follows(g, n, q) ==> q in w.order
    ensures Sorted(g, Listed(w, n).order)
  {
    var order := w.order + [n];
    forall i: nat, q: Id | i < |order| && Follows(g, order[i], q) ensures q in order[..i] {
      if i < |w.order| {
        assert order[..i] == w.order[..i] && Follows(g, w.order[i], q);
      } else {
        assert order[..i] == w.order;
      }
    }
  }

  lemma ListedCloses(w: Walk, w1: Walk, r: Walk, n: Id)
    requires w1.order == w.order && w1.visited <= w.visited + {n} && Closes(w1, r)
    ensures Closes(w, Listed(r, n))
  {
    forall m: Id | Open(Listed(r, n), m) ensures Open(w, m) { assert Open(r, m); }
  }

  lemma {:induction false} TopoSorted(g: Graph, height: Id -> nat, w: Walk, n: Id)
    requires WellFormed(g) && LoopFree(g, height) && n < |g.nodes| && Sorted(g, w.order) && OpenAbove(height, w, height(n) + 1)
    ensures var r := Topo(g, w, n); Sorted(g, r.order) && n in r.order && Closes(w, r)
    decreases |Unmarked(g, w.visited)|, 2 * Depth(g, n) + 1, 1
  {
    if n in w.visited {
      assert !Open(w, n);
    } else if IsBreaker(g.nodes[n].kind) {
      var w1 := w.(visited := w.visited + {n});
      FewerUnmarked(g, w.visited, w1.visited);
      InputsSorted(g, height, w1, n);
      ListedSorted(g, TopoInputs(g, w1, n), n);
      ListedCloses(w, w1, TopoInputs(g, w1, n), n);
    } else {
      InputsSorted(g, height, w, n);
      assert !Open(TopoInputs(g, w, n), n);
      ListedSorted(g, TopoInputs(g, w, n), n);
      ListedCloses(w, w, TopoInputs(g, w, n), n);
    }
  }

  lemma {:induction false} InputsSorted(g: Graph, height: Id -> nat, w: Walk, n: Id)
    requires WellFormed(g) && LoopFree(g, height) && n < |g.nodes| && Sorted(g, w.order) && OpenAbove(height, w, height(n))
    ensures var r := TopoInputs(g, w, n); Sorted(g, r.order) && Closes(w, r) && forall q: Id :: Follows(g, n, q) ==> q in r.order
    decreases |Unmarked(g, w.visited)|, 2 * Limit(g, n) + 1, 0
  {
    OperandsBelow(g, n);
    var Node(k, b) := g.nodes[n];
    var w1 := if k.Block? then w else Topo(g, w, b);
    if !k.Block? {
      assert Follows(g, n, b);
      TopoSorted(g, height, w, b);
    }
    FewerUnmarked(g, w.visited, w1.visited);
    forall q: Id | q in Operands(k) ensures height(q) < height(n) { assert Follows(g, n, q); }
    AllSorted(g, height, w1, Operands(k), Limit(g, n), height(n));
    ClosesTrans(w, w1, TopoInputs(g, w, n));
  }

  lemma {:induction false} AllSorted(g: Graph, height: Id -> nat, w: Walk, ns: seq<Id>, depth: nat, h: nat)
    requires WellFormed(g) && LoopFree(g, height) && Sorted(g, w.order) && OpenAbove(height, w, h)
    requires forall q: Id :: q in ns ==> q < |g.nodes| && Depth(g, q) < depth && height(q) < h
    ensures var r := TopoAll(g, w, ns, depth); Sorted(g, r.order) && Closes(w, r) && forall q: Id :: q in ns ==> q in r.order
    decreases |Unmarked(g, w.visited)|, 2 * depth, |ns|
  {
    if ns != [] {
      assert ns[0] in ns && forall q :: q in ns[1..] ==> q in ns;
      var w1 := Topo(g, w, ns[0]);
      TopoSorted(g, height, w, ns[0]);
      FewerUnmarked(g, w.visited, w1.visited);
      AllSorted(g, height, w1, ns[1..], depth, h);
      ClosesTrans(w, w1, TopoAll(g, w1, ns[1..], depth));
      assert forall q: Id :: q in ns ==> q == ns[0] || q in ns[1..];
    }
  }

  /** In the worklist, which constants are not put on. */
  ghost predicate QueueSorted(g: Graph, queue: seq<Id>) {
    forall i: nat, q: Id :: i < |queue| && Follows(g, queue[i], q) && q < |g.nodes| && !g.nodes[q].kind.Const? ==> q in queue[..i]
  }

  lemma {:induction false} EnqueuedSorted(g: Graph, order: seq<Id>)
    requires Sorted(g, order)
    ensures QueueSorted(g, Enqueued(g, order))
    decreases |order|
  {
    if order != [] {
      var rest, n := order[..|order|-1], order[|order|-1];
      forall i: nat, q: Id | i < |rest| && Follows(g, rest[i], q) ensures q in rest[..i] {
        assert rest[i] == order[i] && rest[..i] == order[..i];
      }
      EnqueuedSorted(g, rest);
      EnqueuedMore(g, rest, n, Enqueued(g, rest), Enqueued(g, order));
    }
  }

  lemma EnqueuedMore(g: Graph, rest: seq<Id>, n: Id, a: seq<Id>, b: seq<Id>)
    requires QueueSorted(g, a) && a == Enqueued(g, rest) && (b == a || b == a + [n]) && forall q: Id :: Follows(g, n, q) ==> q in rest
    ensures QueueSorted(g, b)
  {
    forall i: nat, q: Id | i < |b| && Follows(g, b[i], q) && q < |g.nodes| && !g.nodes[q].kind.Const? ensures q in b[..i] {
      if i < |a| {
        assert b[i] == a[i] && b[..i] == a[..i];
      } else {
        EnqueuedHas(g, rest, q);
        assert b[..i] == a;
      }
    }
  }

  lemma StartSorted(g: Graph, height: Id -> nat, s: State)
    requires Accepts(g) && LoopFree(g, height) && Started(g, s)
    ensures QueueSorted(g, s.queue)
  {
    TopoSorted(g, height, Walk({}, []), g.end);
    EnqueuedSorted(g, Topo(g, Walk({}, []), g.end).order);
  }

  // ---- a label computed from what stands still ----

  lemma VisitRelabels(g: Graph, s: State, n: Id)
    requires Fits(g, s) && n < |g.nodes| && Relabelled(g.nodes[n].kind) && s.queue != [] && s.queue[0] == n
    ensures |Next(g, s).link| == |s.link| && Next(g, s).link[n] == NewLabel(g, s, n)
  {
    RestFits(g, s);
    var p := s.(queue := s.queue[1..]);
    if g.nodes[n].kind.ProjX? { MarkFrame(g, p, n, MayTake(g, p.link, n)); }
    assert NewLabel(g, p, n) == NewLabel(g, s, n);
  }

  lemma LabelFixed(g: Graph, at: nat -> State, j: nat, n: Id)
    requires Trace(g, at) && n < |g.nodes| && Front(at, j, n) && (Relabelled(g.nodes[n].kind) ==> InputsStay(g, at, j, n))
    ensures LabelStays(at, j + 1, n)
  {
    if Relabelled(g.nodes[n].kind) {
      assert OneRound(g, at, j) && OneRound(g, at, j + 1);
      VisitRelabels(g, at(j), n);
      InputsLater(g, at, j, n, j + 1);
      InputsSame(g, at, j, n, j + 1);
      forall m: nat | m >= j + 1 ensures LabelSame(at(j + 1), at(m), n) { LabelOrNew(g, at, j + 1, n, m); }
    } else {
      UnlabelledStays(g, at, j + 1, n);
    }
  }

  // ---- a mark decided by what stands still ----

  /** Looking at the edge again would change nothing. */
  ghost predicate Steady(g: Graph, s: State, c: Id)
    requires Fits(g, s) && c < |g.nodes|
  {
    MarkSame(s, Mark(g, s, c, MayTake(g, s.link, c)), c)
  }

  lemma SteadyAfter(g: Graph, s: State, c: Id)
    requires Fits(g, s) && c < |g.nodes| && c !in Preds(g, g.nodes[c].block)
    ensures var t := Mark(g, s, c, MayTake(g, s.link, c)); MarkSame(t, Mark(g, t, c, MayTake(g, s.link, c)), c)
  {
    var b := g.nodes[c].block;
    var t := Mark(g, s, c, MayTake(g, s.link, c));
    assert forall p :: p in Preds(g, b) ==> (p in t.marks <==> p in s.marks) && MarkedTrue(t.marks, p) == MarkedTrue(s.marks, p);
    assert AnyMarked(t.marks, Preds(g, b)) == AnyMarked(s.marks, Preds(g, b));
    assert AnyTaken(t.marks, Preds(g, b)) == AnyTaken(s.marks, Preds(g, b));
  }

  /** What a visit of the edge decides by is the same in both states. */
  ghost predicate SameInputs(g: Graph, s: State, t: State, c: Id)
    requires c < |g.nodes|
  {
    DecisionSame(g, s, t, c) && forall p: Id :: p in Preds(g, g.nodes[c].block) ==> MarkSame(s, t, p)
  }

  lemma SteadySame(g: Graph, s: State, t: State, c: Id)
    requires Fits(g, s) && Fits(g, t) && c < |g.nodes| && SameInputs(g, s, t, c) && MarkSame(s, t, c)
    requires MarkSame(s, Mark(g, s, c, MayTake(g, s.link, c)), c)
    ensures Steady(g, t, c)
  {
    var preds := Preds(g, g.nodes[c].block);
    forall p | p in preds ensures (p in t.marks <==> p in s.marks) && MarkedTrue(t.marks, p) == MarkedTrue(s.marks, p) {
      assert MarkSame(s, t, p);
    }
    assert AnyMarked(t.marks, preds) == AnyMarked(s.marks, preds) && AnyTaken(t.marks, preds) == AnyTaken(s.marks, preds);
  }

  lemma EdgeVisited(g: Graph, s: State, c: Id)
    requires Fits(g, s) && c < |g.nodes| && IsControl(g.nodes[c].kind) && s.queue != [] && s.queue[0] == c
    ensures MarkSame(Mark(g, s, c, MayTake(g, s.link, c)), Next(g, s), c)
  {
    RestFits(g, s);
    var p := s.(queue := s.queue[1..]);
    MarkFrame(g, p, c, MayTake(g, p.link, c));
  }

  lemma SteadyNext(g: Graph, s: State, c: Id)
    requires Fits(g, s) && c < |g.nodes| && IsControl(g.nodes[c].kind) && Steady(g, s, c)
    ensures MarkSame(s, Next(g, s), c)
  {
    if s.queue != [] && s.queue[0] == c {
      EdgeVisited(g, s, c);
    } else {
      NextOther(g, s, c);
    }
  }

  ghost predicate EdgeInputsStay(g: Graph, at: nat -> State, k: nat, c: Id)
    requires c < |g.nodes|
  {
    DecisionStays(g, at, k, c) && forall p: Id :: p in Preds(g, g.nodes[c].block) ==> MarkStays(at, k, p)
  }

  lemma EdgeInputsSame(g: Graph, at: nat -> State, k: nat, c: Id, m: nat)
    requires c < |g.nodes| && EdgeInputsStay(g, at, k, c) && k <= m
    ensures SameInputs(g, at(k), at(m), c)
  {
    assert DecisionSame(g, at(k), at(m), c);
    forall p: Id | p in Preds(g, g.nodes[c].block) ensures MarkSame(at(k), at(m), p) { assert MarkStays(at, k, p); }
  }

  lemma SameFromBoth(g: Graph, s: State, t: State, u: State, c: Id)
    requires c < |g.nodes| && SameInputs(g, s, t, c) && SameInputs(g, s, u, c)
    ensures SameInputs(g, t, u, c)
  {
    forall p: Id | p in Preds(g, g.nodes[c].block) ensures MarkSame(t, u, p) { assert MarkSame(s, t, p) && MarkSame(s, u, p); }
  }

  lemma VisitedSteady(g: Graph, at: nat -> State, j: nat, c: Id)
    requires Trace(g, at) && c < |g.nodes| && IsControl(g.nodes[c].kind) && Front(at, j, c) && EdgeInputsStay(g, at, j, c)
    requires c !in Preds(g, g.nodes[c].block)
    ensures Fits(g, at(j + 1)) && Steady(g, at(j + 1), c)
  {
    assert OneRound(g, at, j) && OneRound(g, at, j + 1);
    var s := at(j);
    var t := Mark(g, s, c, MayTake(g, s.link, c));
    EdgeVisited(g, s, c);
    SteadyAfter(g, s, c);
    MarkFits(g, s, c, MayTake(g, s.link, c));
    MarkFrame(g, s, c, MayTake(g, s.link, c));
    EdgeInputsSame(g, at, j, c, j + 1);
    assert SameInputs(g, t, at(j + 1), c);
    SteadySame(g, t, at(j + 1), c);
  }

  lemma SteadyStep(g: Graph, at: nat -> State, c: Id, m: nat)
    requires Trace(g, at) && c < |g.nodes| && IsControl(g.nodes[c].kind) && Fits(g, at(m)) && Steady(g, at(m), c)
    ensures MarkSame(at(m), at(m + 1), c)
  {
    assert OneRound(g, at, m);
    SteadyNext(g, at(m), c);
  }

  lemma {:induction false} SteadyOn(g: Graph, at: nat -> State, k: nat, c: Id, m: nat)
    requires Trace(g, at) && c < |g.nodes| && IsControl(g.nodes[c].kind) && EdgeInputsStay(g, at, k, c) && k <= m
    requires Fits(g, at(k)) && Steady(g, at(k), c)
    ensures Fits(g, at(m)) && Steady(g, at(m), c) && MarkSame(at(k), at(m), c)
    decreases m
  {
    if k < m {
      SteadyOn(g, at, k, c, m - 1);
      SteadyStep(g, at, c, m - 1);
      assert OneRound(g, at, m);
      EdgeInputsSame(g, at, k, c, m);
      SteadySame(g, at(k), at(m), c);
    }
  }

  lemma EdgeInputsLater(g: Graph, at: nat -> State, k: nat, c: Id, m: nat)
    requires c < |g.nodes| && EdgeInputsStay(g, at, k, c) && k <= m
    ensures EdgeInputsStay(g, at, m, c)
  {
    DecisionLater(g, at, k, c, m);
    forall p: Id | p in Preds(g, g.nodes[c].block) ensures MarkStays(at, m, p) { MarkLater(at, k, m, p); }
  }

  lemma MarkFixed(g: Graph, at: nat -> State, j: nat, c: Id)
    requires Trace(g, at) && c < |g.nodes| && Front(at, j, c)
    requires IsControl(g.nodes[c].kind) ==> EdgeInputsStay(g, at, j, c) && c !in Preds(g, g.nodes[c].block)
    ensures MarkStays(at, j + 1, c)
  {
    if IsControl(g.nodes[c].kind) {
      VisitedSteady(g, at, j, c);
      EdgeInputsLater(g, at, j, c, j + 1);
      forall m: nat | m >= j + 1 ensures MarkSame(at(j + 1), at(m), c) { SteadyOn(g, at, j + 1, c, m); }
    } else {
      UncontrolledStays(g, at, j + 1, c);
    }
  }

  // ---- node by node, in the order of the worklist ----

  /** The nodes visited in the first `j` rounds stand still from their visit on. */
  ghost predicate FixedBefore(at: nat -> State, queue: seq<Id>, j: nat) {
    j <= |queue| && forall i: nat :: i < j ==> NodeStays(at, i + 1, queue[i])
  }

  /** A constant, or a node visited in the first `j` rounds. */
  predicate Earlier(g: Graph, queue: seq<Id>, j: nat, q: Id)
    requires j <= |queue|
  {
    q < |g.nodes| && (g.nodes[q].kind.Const? || q in queue[..j])
  }

  lemma EarlierStays(g: Graph, at: nat -> State, queue: seq<Id>, j: nat, q: Id)
    requires Trace(g, at) && FixedBefore(at, queue, j) && Earlier(g, queue, j, q)
    ensures NodeStays(at, j, q)
  {
    if q in queue[..j] {
      var i: nat :| i < j && queue[i] == q;
      assert NodeStays(at, i + 1, queue[i]);
      LabelLater(at, i + 1, j, q);
      MarkLater(at, i + 1, j, q);
    } else {
      UnlabelledStays(g, at, j, q);
      UncontrolledStays(g, at, j, q);
    }
  }

  lemma FollowedEarlier(g: Graph, queue: seq<Id>, j: nat, n: Id, q: Id)
    requires WellFormed(g) && QueueSorted(g, queue) && j <= |queue| && Follows(g, n, q) && (n in queue[..j] || (j < |queue| && queue[j] == n))
    ensures Earlier(g, queue, j, q)
  {
    assert WellFormedNode(g, n);
    var i: nat :| i <= j && i < |queue| && queue[i] == n;
    assert q < |g.nodes|;
    if !g.nodes[q].kind.Const? { assert q in queue[..i] && queue[..i] <= queue[..j]; }
  }

  lemma BlockEdgesEarlier(g: Graph, queue: seq<Id>, j: nat, n: Id, p: Id)
    requires WellFormed(g) && QueueSorted(g, queue) && j < |queue| && queue[j] == n && n < |g.nodes| && !g.nodes[n].kind.Block?
    requires p in Preds(g, g.nodes[n].block)
    ensures Earlier(g, queue, j, p)
  {
    var b := g.nodes[n].block;
    assert WellFormedNode(g, n) && Follows(g, n, b);
    FollowedEarlier(g, queue, j, n, b);
    assert Follows(g, b, p);
    FollowedEarlier(g, queue, j, b, p);
  }

  lemma InputsFixed(g: Graph, at: nat -> State, queue: seq<Id>, j: nat, n: Id)
    requires WellFormed(g) && Trace(g, at) && QueueSorted(g, queue) && FixedBefore(at, queue, j)
    requires j < |queue| && queue[j] == n && n < |g.nodes|
    ensures InputsStay(g, at, j, n)
  {
    forall q: Id | q in Operands(g.nodes[n].kind) ensures LabelStays(at, j, q) {
      assert Follows(g, n, q);
      FollowedEarlier(g, queue, j, n, q);
      EarlierStays(g, at, queue, j, q);
    }
    if g.nodes[n].kind.Phi? {
      forall p: Id | p in Preds(g, g.nodes[n].block) ensures MarkStays(at, j, p) {
        BlockEdgesEarlier(g, queue, j, n, p);
        EarlierStays(g, at, queue, j, p);
      }
    }
  }

  lemma SelectorEarlier(g: Graph, queue: seq<Id>, j: nat, c: Id)
    requires WellFormed(g) && QueueSorted(g, queue) && j < |queue| && queue[j] == c && c < |g.nodes| && g.nodes[c].kind.ProjX?
    ensures var cond := g.nodes[c].kind.cond;
      cond < |g.nodes| && g.nodes[cond].kind.Cond? && Earlier(g, queue, j, g.nodes[cond].kind.selector)
  {
    SelectorElsewhere(g, c);
    var cond := g.nodes[c].kind.cond;
    assert Follows(g, c, cond) && Follows(g, cond, g.nodes[cond].kind.selector);
    FollowedEarlier(g, queue, j, c, cond);
    FollowedEarlier(g, queue, j, cond, g.nodes[cond].kind.selector);
  }

  lemma DecisionFixed(g: Graph, at: nat -> State, queue: seq<Id>, j: nat, c: Id)
    requires WellFormed(g) && Trace(g, at) && QueueSorted(g, queue) && FixedBefore(at, queue, j)
    requires j < |queue| && queue[j] == c && c < |g.nodes| && IsControl(g.nodes[c].kind)
    ensures DecisionStays(g, at, j, c)
  {
    if g.nodes[c].kind.ProjX? {
      SelectorEarlier(g, queue, j, c);
      EarlierStays(g, at, queue, j, g.nodes[g.nodes[c].kind.cond].kind.selector);
    }
    forall m: nat | m >= j ensures DecisionSame(g, at(j), at(m), c) {
      assert OneRound(g, at, j) && OneRound(g, at, m);
      if g.nodes[c].kind.ProjX? {
        assert LabelSame(at(j), at(m), g.nodes[g.nodes[c].kind.cond].kind.selector);
      }
    }
  }

  lemma EdgeInputsFixed(g: Graph, at: nat -> State, queue: seq<Id>, j: nat, c: Id)
    requires WellFormed(g) && Trace(g, at) && QueueSorted(g, queue) && FixedBefore(at, queue, j)
    requires j < |queue| && queue[j] == c && c < |g.nodes| && IsControl(g.nodes[c].kind)
    ensures EdgeInputsStay(g, at, j, c)
  {
    DecisionFixed(g, at, queue, j, c);
    forall p: Id | p in Preds(g, g.nodes[c].block) ensures MarkStays(at, j, p) {
      BlockEdgesEarlier(g, queue, j, c, p);
      EarlierStays(g, at, queue, j, p);
    }
  }

  lemma NotIntoOwnBlock(g: Graph, height: Id -> nat, c: Id)
    requires WellFormed(g) && LoopFree(g, height) && c < |g.nodes| && IsControl(g.nodes[c].kind)
    ensures c !in Preds(g, g.nodes[c].block)
  {
    var b := g.nodes[c].block;
    assert WellFormedNode(g, c) && Follows(g, c, b);
    if c in Preds(g, b) { assert Follows(g, b, c); }
  }

  lemma NodeFixed(g: Graph, height: Id -> nat, at: nat -> State, queue: seq<Id>, j: nat)
    requires WellFormed(g) && LoopFree(g, height) && Trace(g, at) && QueueSorted(g, queue) && FixedBefore(at, queue, j)
    requires j < |queue| && Front(at, j, queue[j]) && queue[j] < |g.nodes|
    ensures NodeStays(at, j + 1, queue[j])
  {
    var n := queue[j];
    InputsFixed(g, at, queue, j, n);
    LabelFixed(g, at, j, n);
    if IsControl(g.nodes[n].kind) {
      EdgeInputsFixed(g, at, queue, j, n);
      NotIntoOwnBlock(g, height, n);
    }
    MarkFixed(g, at, j, n);
  }

  lemma {:induction false} AllFixed(g: Graph, height: Id -> nat, at: nat -> State, queue: seq<Id>, j: nat)
    requires WellFormed(g) && LoopFree(g, height) && Trace(g, at) && QueueSorted(g, queue) && queue == at(0).queue
    requires j <= |queue| && forall n :: n in queue ==> n < |g.nodes|
    ensures FixedBefore(at, queue, j)
    decreases j
  {
    if j > 0 {
      AllFixed(g, height, at, queue, j - 1);
      Served(g, at, 0, j - 1);
      assert queue[j-1] in queue;
      NodeFixed(g, height, at, queue, j - 1);
    }
  }

  // ---- the theorem ----

  lemma {:induction false} LastVisitFound(at: nat -> State, n: Id, j: nat, m: nat) returns (k: nat)
    requires j < m && Front(at, j, n)
    ensures j <= k && LastVisit(at, n, k, m)
    decreases m - j
  {
    if i: nat :| j < i < m && Front(at, i, n) {
      k := LastVisitFound(at, n, i, m);
    } else {
      k := j;
    }
  }

  lemma JoinsMarks(val: Label, link: seq<Label>, marks: map<Id, bool>, marks': map<Id, bool>, ops: seq<Id>, preds: seq<Id>)
    requires Joins(val, link, marks, ops, preds) && forall p :: p in preds ==> MarkedFalse(marks', p) == MarkedFalse(marks, p)
    ensures Joins(val, link, marks', ops, preds)
  {
    forall j: nat ensures Counts(marks', preds, j) == Counts(marks, preds, j) {
      if j < |preds| { assert preds[j] in preds; }
    }
  }

  /** The edges into the block of a phi are decided before its first visit. */
  lemma EdgesDecided(g: Graph, at: nat -> State, queue: seq<Id>, j: nat, n: Id, k: nat, m: nat, p: Id)
    requires WellFormed(g) && Trace(g, at) && QueueSorted(g, queue) && FixedBefore(at, queue, j)
    requires j < |queue| && queue[j] == n && n < |g.nodes| && !g.nodes[n].kind.Block? && p in Preds(g, g.nodes[n].block) && j <= k && j <= m
    ensures MarkedFalse(at(m).marks, p) == MarkedFalse(at(k).marks, p)
  {
    BlockEdgesEarlier(g, queue, j, n, p);
    EarlierStays(g, at, queue, j, p);
    assert MarkSame(at(j), at(k), p) && MarkSame(at(j), at(m), p);
  }

  lemma FirstVisit(g: Graph, height: Id -> nat, at: nat -> State, m: nat, n: Id) returns (j: nat)
    requires Accepts(g) && LoopFree(g, height) && Trace(g, at) && Started(g, at(0)) && at(m).queue == []
    requires n < |g.nodes| && !g.nodes[n].kind.Const?
    ensures var queue := at(0).queue; j < |queue| && queue[j] == n && QueueSorted(g, queue) && FixedBefore(at, queue, j)
    ensures j < m && Front(at, j, n) && n !in at(0).queue[..j]
  {
    StartSorted(g, height, at(0));
    StartNodes(g, at(0), n);
    j := PlaceInQueue(g, height, at, at(0).queue, m, n);
  }

  lemma {:induction false} FirstPlace(queue: seq<Id>, n: Id) returns (j: nat)
    requires n in queue
    ensures j < |queue| && queue[j] == n && n !in queue[..j]
    decreases |queue|
  {
    j :| j < |queue| && queue[j] == n;
    if n in queue[..j] {
      var i := FirstPlace(queue[..j], n);
      assert queue[..j][..i] == queue[..i];
      j := i;
    }
  }

  lemma PlaceInQueue(g: Graph, height: Id -> nat, at: nat -> State, queue: seq<Id>, m: nat, n: Id) returns (j: nat)
    requires WellFormed(g) && LoopFree(g, height) && Trace(g, at) && QueueSorted(g, queue) && queue == at(0).queue
    requires at(m).queue == [] && n in queue && forall q: Id :: q in queue ==> q < |g.nodes|
    ensures j < |queue| && queue[j] == n && n !in queue[..j] && FixedBefore(at, queue, j) && j < m && Front(at, j, n)
  {
    j := FirstPlace(queue, n);
    AllFixed(g, height, at, queue, j);
    Served(g, at, 0, j);
    if m <= j { RestStays(g, at, m, j); }
  }

  lemma StartNodes(g: Graph, s: State, n: Id)
    requires Accepts(g) && Started(g, s) && n < |g.nodes| && !g.nodes[n].kind.Const?
    ensures n in s.queue && forall q: Id :: q in s.queue ==> q < |g.nodes|
  {
    forall q: Id | q in s.queue ensures q < |g.nodes| { StartQueue(g, s, q); }
    StartQueue(g, s, n);
  }

  lemma PhiExact(g: Graph, height: Id -> nat, at: nat -> State, m: nat, n: Id)
    requires Accepts(g) && LoopFree(g, height) && Trace(g, at) && Started(g, at(0)) && at(m).queue == []
    requires n < |g.nodes| && g.nodes[n].kind.Phi?
    ensures Joins(LabelOf(at(m).link, n), at(m).link, at(m).marks, g.nodes[n].kind.ops, Preds(g, g.nodes[n].block))
  {
    var j := FirstVisit(g, height, at, m, n);
    var k := LastVisitFound(at, n, j, m);
    PhiAsLastSeen(g, at, n, k, m);
    var preds := Preds(g, g.nodes[n].block);
    forall p | p in preds ensures MarkedFalse(at(m).marks, p) == MarkedFalse(at(k).marks, p) {
      EdgesDecided(g, at, at(0).queue, j, n, k, m, p);
    }
    JoinsMarks(LabelOf(at(m).link, n), at(m).link, at(k).marks, at(m).marks, g.nodes[n].kind.ops, preds);
  }

  /** Main result: on a graph without cycles the label of every phi at rest is the join of its operands over the edges that
      are not excluded: a constant if they agree on one, bad only if one is bad or two are different constants. */
  lemma LoopFreePhisExact(g: Graph, height: Id -> nat, s: State, m: nat, n: Id)
    requires Accepts(g) && LoopFree(g, height) && Started(g, s) && Rounds(g, s, m).queue == []
    requires n < |g.nodes| && g.nodes[n].kind.Phi?
    ensures var r := Rounds(g, s, m); Joins(LabelOf(r.link, n), r.link, r.marks, g.nodes[n].kind.ops, Preds(g, g.nodes[n].block))
  {
    StartWorkable(g, s);
    var at := TraceOf(g, s);
    assert at(0) == s;
    PhiExact(g, height, at, m, n);
  }

  // ---- the marks ----

  /** The labels do not decide against the edge: it is a jump, or its comparison is not the opposite constant. */
  predicate Passable(g: Graph, link: seq<Label>, c: Id) {
    c < |g.nodes| && (g.nodes[c].kind.Jmp? ||
      (g.nodes[c].kind.ProjX? && LabelOf(link, SelectorOf(g.nodes, g.nodes[c].kind)) != Known(Bool(!g.nodes[c].kind.onTrue))))
  }

  /** The edge is marked as taken exactly if its block is the start block or entered over such an edge, and the labels do not
      decide against it; otherwise it is marked as not taken. */
  ghost predicate MarkedExactly(g: Graph, s: State, c: Id) {
    && c < |g.nodes| && c in s.marks
    && (s.marks[c] <==> Passable(g, s.link, c) && Entered(g, s.marks, g.nodes[c].block))
  }

  /** The start block, or a block with an edge into it that is marked as taken. */
  predicate Entered(g: Graph, marks: map<Id, bool>, b: Id) {
    b == g.startBlock || exists p :: p in Preds(g, b) && p in marks && marks[p]
  }

  lemma CmpIsBool(g: Graph, s: State, n: Id)
    requires Exact(g, s.link, n) && n < |g.nodes| && g.nodes[n].kind.Cmp?
    ensures LabelOf(s.link, n).Known? ==> LabelOf(s.link, n).value.Bool?
  {
  }

  lemma BoolOpposite(l: Label, t: bool)
    requires l.Known? ==> l.value.Bool?
    ensures (l.Known? ==> (l.value == Bool(true)) == t) <==> l != Known(Bool(!t))
  {
    if l.Known? {
      var b := l.value.b;
      assert l.value == Bool(b);
    }
  }

  lemma MayTakeIsPassable(g: Graph, s: State, c: Id)
    requires Fits(g, s) && c < |g.nodes| && IsControl(g.nodes[c].kind) && forall n: Id :: Exact(g, s.link, n)
    ensures MayTake(g, s.link, c) <==> Passable(g, s.link, c)
  {
    if g.nodes[c].kind.ProjX? {
      SelectorElsewhere(g, c);
      var n := SelectorOf(g.nodes, g.nodes[c].kind);
      assert Exact(g, s.link, n);
      CmpIsBool(g, s, n);
      BoolOpposite(s.link[n], g.nodes[c].kind.onTrue);
    }
  }

  lemma FirstMark(g: Graph, s: State, c: Id)
    requires Fits(g, s) && c < |g.nodes| && IsControl(g.nodes[c].kind) && c !in s.marks && s.queue != [] && s.queue[0] == c
    ensures var t := Next(g, s);
      c in t.marks ==> (t.marks[c] <==> MayTake(g, s.link, c) && Entered(g, s.marks, g.nodes[c].block))
  {
    EdgeVisited(g, s, c);
    var preds := Preds(g, g.nodes[c].block);
    assert AnyTaken(s.marks, preds) <==> exists p :: p in preds && p in s.marks && s.marks[p];
    if AnyTaken(s.marks, preds) {
      var p :| p in preds && MarkedTrue(s.marks, p);
      assert AnyMarked(s.marks, preds);
    }
  }

  lemma EnteredSame(g: Graph, s: State, t: State, c: Id)
    requires c < |g.nodes| && SameInputs(g, s, t, c)
    ensures Entered(g, t.marks, g.nodes[c].block) == Entered(g, s.marks, g.nodes[c].block)
  {
    forall p | p in Preds(g, g.nodes[c].block) ensures (p in t.marks <==> p in s.marks) && (p in s.marks ==> t.marks[p] == s.marks[p]) {
      assert MarkSame(s, t, p);
    }
  }

  lemma {:induction false} Unvisited(g: Graph, at: nat -> State, queue: seq<Id>, j: nat, i: nat, c: Id)
    requires Trace(g, at) && queue == at(0).queue && j < |queue| && i <= j && at(0).marks == map[] && c !in queue[..j]
    ensures c !in at(i).marks
    decreases i
  {
    if i > 0 {
      Unvisited(g, at, queue, j, i - 1, c);
      Served(g, at, 0, i - 1);
      assert queue[i-1] in queue[..j];
      assert OneRound(g, at, i - 1);
      NextOther(g, at(i - 1), c);
    }
  }

  lemma MarkFromFirst(g: Graph, height: Id -> nat, at: nat -> State, queue: seq<Id>, j: nat, m: nat, c: Id)
    requires WellFormed(g) && LoopFree(g, height) && Trace(g, at) && QueueSorted(g, queue) && FixedBefore(at, queue, j)
    requires j < |queue| && queue[j] == c && j < m && Front(at, j, c) && c < |g.nodes| && IsControl(g.nodes[c].kind)
    requires queue == at(0).queue && at(0).marks == map[] && c !in queue[..j]
    ensures |at(m).link| == |g.nodes|
    ensures c in at(m).marks ==> (at(m).marks[c] <==> MayTake(g, at(m).link, c) && Entered(g, at(m).marks, g.nodes[c].block))
  {
    Unvisited(g, at, queue, j, j, c);
    EdgeInputsFixed(g, at, queue, j, c);
    NotIntoOwnBlock(g, height, c);
    MarkFixed(g, at, j, c);
    EdgeInputsSame(g, at, j, c, m);
    EnteredSame(g, at(j), at(m), c);
    FirstMarked(g, at, j, c);
    assert MarkSame(at(j + 1), at(m), c);
  }

  lemma FirstMarked(g: Graph, at: nat -> State, j: nat, c: Id)
    requires Trace(g, at) && c < |g.nodes| && IsControl(g.nodes[c].kind) && c !in at(j).marks && Front(at, j, c)
    ensures |at(j).link| == |g.nodes|
    ensures c in at(j + 1).marks ==> (at(j + 1).marks[c] <==> MayTake(g, at(j).link, c) && Entered(g, at(j).marks, g.nodes[c].block))
  {
    assert OneRound(g, at, j);
    FirstMark(g, at(j), c);
  }

  lemma {:induction false} AlwaysExact(g: Graph, at: nat -> State, j: nat)
    requires Trace(g, at) && ExactKept(g, at(0))
    ensures ExactKept(g, at(j))
    decreases j
  {
    if j > 0 {
      AlwaysExact(g, at, j - 1);
      ExactStep(g, at, j - 1);
    }
  }

  lemma ExactStep(g: Graph, at: nat -> State, j: nat)
    requires Trace(g, at) && ExactKept(g, at(j))
    ensures ExactKept(g, at(j + 1))
  {
    assert OneRound(g, at, j);
    if at(j).queue != [] { RoundKeepsExact(g, at(j)); }
  }

  lemma RestDealt(g: Graph, at: nat -> State, m: nat, c: Id)
    requires Trace(g, at) && ExactKept(g, at(0)) && at(m).queue == [] && c < |g.nodes| && IsControl(g.nodes[c].kind)
    ensures Fits(g, at(m)) && Dealt(g, at(m), c) && (MayTake(g, at(m).link, c) <==> Passable(g, at(m).link, c))
  {
    assert OneRound(g, at, m);
    AlwaysExact(g, at, m);
    forall n: Id ensures Exact(g, at(m).link, n) { RestIsExact(g, at(m), n); }
    MayTakeIsPassable(g, at(m), c);
  }

  /** Main result: on a graph without cycles exactly the edges that the labels leave open on some way from the start block are
      marked as taken, and all others as not taken. */
  lemma LoopFreeMarksExact(g: Graph, height: Id -> nat, s: State, m: nat, c: Id)
    requires Accepts(g) && LoopFree(g, height) && Started(g, s) && Rounds(g, s, m).queue == []
    requires c < |g.nodes| && IsControl(g.nodes[c].kind)
    ensures MarkedExactly(g, Rounds(g, s, m), c)
  {
    StartWorkable(g, s);
    StartKeeps(g, s);
    var at := TraceOf(g, s);
    assert at(0) == s;
    var j := FirstVisit(g, height, at, m, c);
    MarkFromFirst(g, height, at, s.queue, j, m, c);
    RestDealt(g, at, m, c);
  }
}
