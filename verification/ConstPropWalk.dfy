/** The initial walk of the passes (FunctionPass::init_topological in firm_pass.hpp) on a given graph, node by node, the
    worklist it leaves, and the first rounds. */
module ConstPropWalk {
  import opened Wrappers
  import opened FirmGraph
  import opened FirmPass
  import opened ConstProp
  import opened ConstPropInvariant
  import opened ConstPropSubst
  import opened ConstPropRest
  import opened ConstPropPassClass

  /** The walk that has listed `order` and is inside the blocks and phis `open`. */
  function Walked(open: set<Id>, order: seq<Id>): Walk { Walk(open + (set n | n in order), order) }

  lemma ListedWalk(open: set<Id>, order: seq<Id>, n: Id)
    ensures Listed(Walked(open, order), n) == Walked(open - {n}, order + [n])
  {
  }

  /** The walk from `n` lists what `order'` has more than `order`. */
  ghost predicate Lists(g: Graph, open: set<Id>, order: seq<Id>, n: Id, order': seq<Id>)
    requires WellFormed(g)
  {
    n < |g.nodes| && Topo(g, Walked(open, order), n) == Walked(open, order')
  }

  lemma Seen(g: Graph, open: set<Id>, order: seq<Id>, n: Id)
    requires WellFormed(g) && n < |g.nodes| && (n in open || n in order)
    ensures Lists(g, open, order, n, order)
  {
  }

  /** Walking over at most two operands. */
  ghost function TopoFew(g: Graph, w: Walk, ops: seq<Id>): Walk
    requires WellFormed(g) && |ops| <= 2 && forall q :: q in ops ==> q < |g.nodes|
  {
    if |ops| == 0 then w
    else
      assert ops[0] in ops && ops[|ops|-1] in ops;
      if |ops| == 1 then Topo(g, w, ops[0]) else Topo(g, Topo(g, w, ops[0]), ops[1])
  }

  lemma {:induction false} FewWalked(g: Graph, w: Walk, ops: seq<Id>, depth: nat)
    requires WellFormed(g) && |ops| <= 2 && forall q: Id :: q in ops ==> q < |g.nodes| && Depth(g, q) < depth
    ensures TopoAll(g, w, ops, depth) == TopoFew(g, w, ops)
    decreases |ops|
  {
    if ops != [] {
      forall q | q in ops[1..] ensures q in ops { }
      assert ops[0] in ops;
      FewWalked(g, Topo(g, w, ops[0]), ops[1..], depth);
    }
  }

  lemma InputsWalked(g: Graph, w: Walk, n: Id, b: Id, ops: seq<Id>)
    requires WellFormed(g) && n < |g.nodes| && g.nodes[n].block == b && Operands(g.nodes[n].kind) == ops && |ops| <= 2
    ensures b < |g.nodes| && forall q :: q in ops ==> q < |g.nodes|
    ensures TopoInputs(g, w, n) == TopoFew(g, if g.nodes[n].kind.Block? then w else Topo(g, w, b), ops)
  {
    OperandsBelow(g, n);
    FewWalked(g, if g.nodes[n].kind.Block? then w else Topo(g, w, b), ops, Limit(g, n));
  }

  /** Where a node is and what it refers to. */
  ghost predicate Shaped(g: Graph, n: Id, b: Id, ops: seq<Id>, breaker: bool) {
    && n < |g.nodes| && g.nodes[n].block == b && Operands(g.nodes[n].kind) == ops
    && (g.nodes[n].kind.Block? <==> b == n) && (IsBreaker(g.nodes[n].kind) <==> breaker)
  }

  /** Over the operands, one after the other. */
  ghost predicate ListsAll(g: Graph, open: set<Id>, order: seq<Id>, ops: seq<Id>, middle: seq<Id>, order': seq<Id>)
    requires WellFormed(g) && |ops| <= 2
  {
    if |ops| == 0 then order == order'
    else if |ops| == 1 then Lists(g, open, order, ops[0], order')
    else Lists(g, open, order, ops[0], middle) && Lists(g, open, middle, ops[1], order')
  }

  /** A block or phi that has not been seen. */
  lemma BreakerListed(g: Graph, open: set<Id>, order: seq<Id>, n: Id, b: Id, ops: seq<Id>, middle: seq<Id>, order': seq<Id>)
    requires WellFormed(g) && Shaped(g, n, b, ops, true) && n !in open && n !in order
    requires b == n || Lists(g, open + {n}, order, b, order)
    requires |ops| <= 2 && ListsAll(g, open + {n}, order, ops, middle, order')
    ensures Lists(g, open, order, n, order' + [n])
  {
    var w := Walked(open + {n}, order);
    assert Walked(open, order).(visited := Walked(open, order).visited + {n}) == w;
    InputsWalked(g, w, n, b, ops);
    ListedWalk(open + {n}, order', n);
    assert open + {n} - {n} == open;
  }

  /** Any other node that has not been seen; it may be by the time its operands have been. */
  lemma NodeListed(g: Graph, open: set<Id>, order: seq<Id>, n: Id, b: Id, ops: seq<Id>, start: seq<Id>, middle: seq<Id>, order': seq<Id>)
    requires WellFormed(g) && Shaped(g, n, b, ops, false) && b != n && n !in open && n !in order
    requires Lists(g, open, order, b, start)
    requires |ops| <= 2 && ListsAll(g, open, start, ops, middle, order')
    ensures Lists(g, open, order, n, if n in order' then order' else order' + [n])
  {
    InputsWalked(g, Walked(open, order), n, b, ops);
    ListedWalk(open, order', n);
    assert open - {n} == open;
  }

  lemma NothingWalked()
    ensures Walked({}, []) == Walk({}, [])
  {
  }

  // ---- the worklist ----

  lemma {:induction false} EnqueuedJoined(g: Graph, a: seq<Id>, b: seq<Id>)
    ensures Enqueued(g, a + b) == Enqueued(g, a) + Enqueued(g, b)
    decreases |b|
  {
    if b == [] {
      assert a + b == a;
    } else {
      var rest, last := b[..|b|-1], b[|b|-1];
      assert (a + b)[..|a + b|-1] == a + rest && (a + b)[|a + b|-1] == last;
      EnqueuedJoined(g, a, rest);
      Splice(Enqueued(g, a), Enqueued(g, rest), Enqueued(g, b)[|Enqueued(g, rest)|..]);
    }
  }

  lemma {:induction false} EnqueuedAll(g: Graph, ns: seq<Id>)
    requires forall n :: n in ns ==> n < |g.nodes| && !g.nodes[n].kind.Const?
    ensures Enqueued(g, ns) == ns
  {
    if ns != [] {
      var rest := ns[..|ns|-1];
      assert ns == rest + [ns[|ns|-1]];
      forall n | n in rest ensures n in ns { }
      assert ns[|ns|-1] in ns;
      EnqueuedAll(g, rest);
    }
  }

  lemma {:induction false} EnqueuedNone(g: Graph, ns: seq<Id>)
    requires forall n :: n in ns ==> n < |g.nodes| && g.nodes[n].kind.Const?
    ensures Enqueued(g, ns) == []
  {
    if ns != [] {
      var rest := ns[..|ns|-1];
      assert ns == rest + [ns[|ns|-1]];
      forall n | n in rest ensures n in ns { }
      assert ns[|ns|-1] in ns;
      EnqueuedNone(g, rest);
    }
  }

  lemma EnqueuedAround(g: Graph, a: seq<Id>, b: seq<Id>, c: seq<Id>)
    requires forall n :: n in a || n in c ==> n < |g.nodes| && !g.nodes[n].kind.Const?
    requires forall n :: n in b ==> n < |g.nodes| && g.nodes[n].kind.Const?
    ensures Enqueued(g, a + b + c) == a + c
  {
    EnqueuedJoined(g, a + b, c);
    EnqueuedJoined(g, a, b);
    EnqueuedAll(g, a);
    EnqueuedNone(g, b);
    EnqueuedAll(g, c);
    assert a + [] == a;
  }

  // ---- dominance ----

  /** A block dominates itself, and the start block every block. */
  lemma NearDominates(g: Graph, d: Id, b: Id)
    requires d == g.startBlock || d == b
    ensures Dominates(g, d, b)
  {
    forall bs: seq<Id>, cs: seq<Id> | IsPath(g, bs, cs) && bs[|cs|] == b ensures d in bs { assert bs[0] in bs; }
  }

  // ---- the first rounds ----

  lemma NextIdle(g: Graph, s: State)
    requires Fits(g, s) && s.queue != [] && s.queue[0] < |g.nodes| && g.nodes[s.queue[0]].kind.Block?
    ensures Next(g, s) == s.(queue := s.queue[1..])
  {
    RestFits(g, s);
  }

  lemma NextStartJmp(g: Graph, s: State)
    requires Fits(g, s) && s.queue != [] && s.queue[0] == g.startJmp && g.startJmp !in s.marks
    ensures Next(g, s) == s.(marks := s.marks[g.startJmp := true], queue := s.queue[1..])
  {
    RestFits(g, s);
  }

  lemma TwoRounds(g: Graph, s: State, t: State, u: State)
    requires Next(g, s) == t && Next(g, t) == u
    ensures Rounds(g, s, 2) == u
  {
    LastRound(g, s, 0);
    LastRound(g, s, 1);
  }

  /** The block and the jump of the start block come first. */
  lemma StartVisited(g: Graph, s: State, rest: seq<Id>)
    requires Fits(g, s) && g.nodes[0].kind.Block? && g.startJmp == 1 && s.marks == map[] && s.queue == [0, 1] + rest
    ensures Rounds(g, s, 2) == State(s.link, map[1 := true], rest)
  {
    NextIdle(g, s);
    RestFits(g, s);
    var t := s.(queue := s.queue[1..]);
    assert t.queue == [1] + rest && t.queue[1..] == rest;
    NextStartJmp(g, t);
    TwoRounds(g, s, t, State(s.link, map[1 := true], rest));
  }
}
