/** What the label of a phi says once constant propagation (const_prop_pass.hpp) has come to rest: marking an edge as not
    taken wakes no phi, so a phi goes by the edges that were excluded when it was visited last. */
module ConstPropPhis {
  import opened FirmGraph
  import opened ConstProp
  import opened ConstPropInvariant
  import opened ConstPropRest
  import opened ConstPropExact
  import opened ConstPropPassClass
  import opened ConstPropSettle

  // ---- what the label of a phi has to say ----

  /** Operand `j` counts: the edge it comes over is not excluded. */
  predicate Counts(marks: map<Id, bool>, preds: seq<Id>, j: nat) { j < |preds| && !MarkedFalse(marks, preds[j]) }

  predicate Differ(a: Label, b: Label) { a.Known? && b.Known? && a != b }

  /** `val` is a constant if that is the only one among the operands that count, unknown if none of them says anything,
      and bad only because of a bad operand or of two constants. */
  ghost predicate Joins(val: Label, link: seq<Label>, marks: map<Id, bool>, ops: seq<Id>, preds: seq<Id>) {
    |ops| == |preds| && JoinsTo(val, link, marks, ops, preds, |ops|)
  }

  /** The same for the operands before `i`. */
  ghost predicate JoinsTo(val: Label, link: seq<Label>, marks: map<Id, bool>, ops: seq<Id>, preds: seq<Id>, i: nat)
    requires i <= |ops| == |preds|
  {
    match val
    case Unknown => forall j: nat :: j < i && Counts(marks, preds, j) ==> LabelOf(link, ops[j]) == Unknown
    case Known(_) =>
      && (exists j: nat :: j < i && Counts(marks, preds, j) && LabelOf(link, ops[j]) == val)
      && (forall j: nat :: j < i && Counts(marks, preds, j) ==> LabelOf(link, ops[j]) == val || LabelOf(link, ops[j]) == Unknown)
    case BadLabel =>
      || (exists j: nat :: j < i && Counts(marks, preds, j) && LabelOf(link, ops[j]) == BadLabel)
      || (exists j: nat, k: nat :: j < i && k < i && Counts(marks, preds, j) && Counts(marks, preds, k)
            && Differ(LabelOf(link, ops[j]), LabelOf(link, ops[k])))
  }

  lemma {:induction false} JoinIsExact(link: seq<Label>, marks: map<Id, bool>, ops: seq<Id>, preds: seq<Id>, i: nat, val: Label)
    requires i <= |ops| == |preds| && forall q :: q in ops ==> q < |link|
    requires JoinsTo(val, link, marks, ops, preds, i) && val != BadLabel
    ensures Joins(JoinFrom(link, marks, ops, preds, i, val), link, marks, ops, preds)
    decreases |ops| - i
  {
    if i < |ops| {
      assert ops[i] in ops;
      var p := link[ops[i]];
      if !MarkedFalse(marks, preds[i]) {
        assert Counts(marks, preds, i) && LabelOf(link, ops[i]) == p;
        if p == BadLabel {
        } else if val == Unknown {
          JoinIsExact(link, marks, ops, preds, i + 1, p);
        } else if p == Unknown || val == p {
          JoinIsExact(link, marks, ops, preds, i + 1, val);
        } else {
          var j: nat :| j < i && Counts(marks, preds, j) && LabelOf(link, ops[j]) == val;
          assert Differ(LabelOf(link, ops[j]), LabelOf(link, ops[i]));
        }
      } else {
        JoinIsExact(link, marks, ops, preds, i + 1, val);
      }
    }
  }

  // ---- the last visit of a node ----

  ghost predicate Front(at: nat -> State, k: nat, n: Id) { at(k).queue != [] && at(k).queue[0] == n }

  /** In round `k` node `n` is visited, and not again before round `m`. */
  ghost predicate LastVisit(at: nat -> State, n: Id, k: nat, m: nat) {
    k < m && Front(at, k, n) && forall j: nat :: k < j < m ==> !Front(at, j, n)
  }

  lemma {:induction false} RestStays(g: Graph, at: nat -> State, m: nat, j: nat)
    requires Trace(g, at) && at(m).queue == [] && m <= j
    ensures at(j) == at(m)
    decreases j
  {
    if m < j {
      RestStays(g, at, m, j - 1);
      assert OneRound(g, at, j - 1);
    }
  }

  /** A node that waits is visited before the worklist is empty. */
  lemma WaitingIsVisited(g: Graph, at: nat -> State, i: nat, m: nat, u: Id) returns (j: nat)
    requires Trace(g, at) && u in at(i).queue && at(m).queue == []
    ensures i <= j < m && Front(at, j, u)
  {
    var p: nat :| p < |at(i).queue| && at(i).queue[p] == u;
    Served(g, at, i, p);
    j := i + p;
    if j >= m { RestStays(g, at, m, j); }
  }

  /** Nothing wakes a node after its last visit. */
  lemma NotWoken(g: Graph, at: nat -> State, n: Id, k: nat, m: nat, j: nat)
    requires Trace(g, at) && LastVisit(at, n, k, m) && at(m).queue == [] && k < j
    ensures n !in at(j).queue
  {
    if n in at(j).queue {
      var i := WaitingIsVisited(g, at, j, m, n);
    }
  }

  lemma RoundFrame(g: Graph, at: nat -> State, j: nat, q: Id)
    requires Trace(g, at)
    ensures |at(j + 1).link| == |at(j).link| && (!Front(at, j, q) ==> LabelSame(at(j), at(j + 1), q) && MarkSame(at(j), at(j + 1), q))
    ensures LabelSame(at(j), at(j + 1), q) || (q < |g.outs| && forall u :: u in g.outs[q] ==> u in at(j + 1).queue)
  {
    assert OneRound(g, at, j);
    var s := at(j);
    if s.queue != [] {
      RestFits(g, s);
      VisitStays(g, s.(queue := s.queue[1..]), s.queue[0]);
    }
  }

  lemma {:induction false} LabelAfter(g: Graph, at: nat -> State, n: Id, k: nat, m: nat, j: nat)
    requires Trace(g, at) && LastVisit(at, n, k, m) && k < j <= m
    ensures LabelSame(at(k + 1), at(j), n)
    decreases j
  {
    if k + 1 < j {
      LabelAfter(g, at, n, k, m, j - 1);
      RoundFrame(g, at, j - 1, n);
    }
  }

  /** What the label of a node was computed from at its last visit stays. */
  lemma {:induction false} OperandAfter(g: Graph, at: nat -> State, n: Id, k: nat, m: nat, j: nat, q: Id)
    requires Trace(g, at) && LastVisit(at, n, k, m) && at(m).queue == [] && k <= j <= m
    requires WellFormed(g) && n < |g.nodes| && q in Operands(g.nodes[n].kind) && q < |g.nodes|
    ensures LabelSame(at(k), at(j), q)
    decreases j
  {
    if k < j {
      OperandAfter(g, at, n, k, m, j - 1, q);
      RoundFrame(g, at, j - 1, q);
      NotWoken(g, at, n, k, m, j);
      assert Uses(g, n, q) && n in g.outs[q];
    }
  }

  lemma NextInvariant(g: Graph, s: State)
    requires Invariant(g, s)
    ensures Invariant(g, Next(g, s))
  {
    if s.queue != [] { RoundKeeps(g, s); }
  }

  lemma InvariantStep(g: Graph, at: nat -> State, j: nat)
    requires Trace(g, at) && Invariant(g, at(j))
    ensures Invariant(g, at(j + 1))
  {
    assert OneRound(g, at, j);
    NextInvariant(g, at(j));
  }

  lemma {:induction false} AlwaysInvariant(g: Graph, at: nat -> State, j: nat)
    requires Trace(g, at) && Invariant(g, at(0))
    ensures Invariant(g, at(j))
    decreases j
  {
    if j > 0 {
      AlwaysInvariant(g, at, j - 1);
      InvariantStep(g, at, j - 1);
    }
  }

  /** An edge that is taken up again wakes the phis it leads to. */
  lemma ReturnWakes(g: Graph, s: State, c: Id, n: Id)
    requires Invariant(g, s) && MarkedFalse(s.marks, c) && n < |g.nodes| && g.nodes[n].kind.Phi? && c in Preds(g, g.nodes[n].block)
    ensures MarkedFalse(Next(g, s).marks, c) || n in Next(g, s).queue
  {
    assert c != g.startJmp;
    if s.queue != [] && s.queue[0] == c {
      RestFits(g, s);
      var p := s.(queue := s.queue[1..]);
      if IsControl(g.nodes[c].kind) {
        MarkWakes(g, p, c, MayTake(g, p.link, c));
        TargetsWoken(g, c, n);
        ReturnQueued(g, p, c, n);
      } else {
        OnlyControlMarked(g, p, c);
      }
    } else if s.queue != [] {
      RestFits(g, s);
      VisitStays(g, s.(queue := s.queue[1..]), s.queue[0]);
    }
  }

  lemma ReturnQueued(g: Graph, p: State, c: Id, n: Id)
    requires Fits(g, p) && c < |g.nodes| && IsControl(g.nodes[c].kind) && MarkedFalse(p.marks, c) && c != g.startJmp
    requires var t := Mark(g, p, c, MayTake(g, p.link, c)); MarkedTrue(t.marks, c) ==> n in t.queue
    ensures var t := VisitNode(g, p, c); MarkedFalse(t.marks, c) || n in t.queue
  {
    assert WellFormedNode(g, c);
    if g.nodes[c].kind.ProjX? {
      SetLinkFrame(g, Mark(g, p, c, MayTake(g, p.link, c)), c, NewLabel(g, p, c));
    }
  }

  lemma ReturnStep(g: Graph, at: nat -> State, j: nat, c: Id, n: Id)
    requires Trace(g, at) && Invariant(g, at(j)) && MarkedFalse(at(j).marks, c)
    requires n < |g.nodes| && g.nodes[n].kind.Phi? && c in Preds(g, g.nodes[n].block)
    ensures MarkedFalse(at(j + 1).marks, c) || n in at(j + 1).queue
  {
    assert OneRound(g, at, j);
    ReturnWakes(g, at(j), c, n);
  }

  /** An edge into the block of a phi that was excluded at its last visit stays excluded. */
  lemma {:induction false} ExcludedAfter(g: Graph, at: nat -> State, n: Id, k: nat, m: nat, j: nat, c: Id)
    requires Trace(g, at) && LastVisit(at, n, k, m) && at(m).queue == [] && k <= j <= m
    requires Invariant(g, at(0)) && n < |g.nodes| && g.nodes[n].kind.Phi?
    requires c in Preds(g, g.nodes[n].block) && MarkedFalse(at(k).marks, c)
    ensures MarkedFalse(at(j).marks, c)
    decreases j
  {
    if k < j {
      ExcludedAfter(g, at, n, k, m, j - 1, c);
      AlwaysInvariant(g, at, j - 1);
      ReturnStep(g, at, j - 1, c, n);
      NotWoken(g, at, n, k, m, j);
    }
  }

  // ---- the theorems ----

  lemma VisitJoins(g: Graph, s: State, n: Id)
    requires Fits(g, s) && n < |g.nodes| && g.nodes[n].kind.Phi? && s.queue != [] && s.queue[0] == n
    ensures |Next(g, s).link| == |s.link| && |g.nodes[n].kind.ops| == |Preds(g, g.nodes[n].block)|
    ensures Joins(LabelOf(Next(g, s).link, n), s.link, s.marks, g.nodes[n].kind.ops, Preds(g, g.nodes[n].block))
  {
    RestFits(g, s);
    assert WellFormedNode(g, n);
    var k := g.nodes[n].kind;
    forall q | q in k.ops ensures q < |s.link| { assert q in Operands(k); }
    JoinIsExact(s.link, s.marks, k.ops, Preds(g, g.nodes[n].block), 0, Unknown);
  }

  lemma LastJoins(g: Graph, at: nat -> State, n: Id, k: nat)
    requires Trace(g, at) && Front(at, k, n) && n < |g.nodes| && g.nodes[n].kind.Phi?
    ensures |at(k + 1).link| == |at(k).link|
    ensures Joins(LabelOf(at(k + 1).link, n), at(k).link, at(k).marks, g.nodes[n].kind.ops, Preds(g, g.nodes[n].block))
  {
    assert OneRound(g, at, k);
    VisitJoins(g, at(k), n);
  }

  lemma JoinsFrame(val: Label, link: seq<Label>, link': seq<Label>, marks: map<Id, bool>, ops: seq<Id>, preds: seq<Id>)
    requires Joins(val, link, marks, ops, preds) && forall j :: 0 <= j < |ops| ==> LabelOf(link', ops[j]) == LabelOf(link, ops[j])
    ensures Joins(val, link', marks, ops, preds)
  {
  }

  lemma OperandsAfter(g: Graph, at: nat -> State, n: Id, k: nat, m: nat)
    requires WellFormed(g) && Trace(g, at) && at(m).queue == [] && LastVisit(at, n, k, m) && n < |g.nodes| && g.nodes[n].kind.Phi?
    ensures forall j :: 0 <= j < |g.nodes[n].kind.ops| ==> LabelOf(at(m).link, g.nodes[n].kind.ops[j]) == LabelOf(at(k).link, g.nodes[n].kind.ops[j])
  {
    var ops := g.nodes[n].kind.ops;
    assert WellFormedNode(g, n);
    forall j | 0 <= j < |ops| ensures LabelOf(at(m).link, ops[j]) == LabelOf(at(k).link, ops[j]) {
      assert ops[j] in Operands(g.nodes[n].kind);
      OperandAfter(g, at, n, k, m, m, ops[j]);
    }
  }

  lemma LabelAsLastSeen(g: Graph, at: nat -> State, n: Id, k: nat, m: nat)
    requires WellFormed(g) && Trace(g, at) && at(m).queue == [] && LastVisit(at, n, k, m) && n < |g.nodes| && g.nodes[n].kind.Phi?
    ensures Joins(LabelOf(at(m).link, n), at(m).link, at(k).marks, g.nodes[n].kind.ops, Preds(g, g.nodes[n].block))
  {
    LastJoins(g, at, n, k);
    LabelAfter(g, at, n, k, m, m);
    OperandsAfter(g, at, n, k, m);
    JoinsFrame(LabelOf(at(m).link, n), at(k).link, at(m).link, at(k).marks, g.nodes[n].kind.ops, Preds(g, g.nodes[n].block));
  }

  /** Main result: at rest a phi is the join of its operands over the edges that were not excluded at its last visit; those
      that were excluded then still are. */
  lemma PhiAsLastSeen(g: Graph, at: nat -> State, n: Id, k: nat, m: nat)
    requires Accepts(g) && Trace(g, at) && Started(g, at(0)) && at(m).queue == [] && LastVisit(at, n, k, m)
    requires n < |g.nodes| && g.nodes[n].kind.Phi?
    ensures var preds := Preds(g, g.nodes[n].block);
      && Joins(LabelOf(at(m).link, n), at(m).link, at(k).marks, g.nodes[n].kind.ops, preds)
      && forall c :: c in preds && MarkedFalse(at(k).marks, c) ==> MarkedFalse(at(m).marks, c)
  {
    LabelAsLastSeen(g, at, n, k, m);
    forall c | c in Preds(g, g.nodes[n].block) && MarkedFalse(at(k).marks, c) ensures MarkedFalse(at(m).marks, c) {
      StartKeeps(g, at(0));
      ExcludedAfter(g, at, n, k, m, m, c);
    }
  }

  /** All operands that count say `v` or nothing, and one of them says `v`. */
  ghost predicate Agree(link: seq<Label>, marks: map<Id, bool>, ops: seq<Id>, preds: seq<Id>, v: Value) {
    && |ops| == |preds|
    && (exists j: nat :: j < |ops| && Counts(marks, preds, j) && LabelOf(link, ops[j]) == Known(v))
    && forall j: nat :: j < |ops| && Counts(marks, preds, j) ==> LabelOf(link, ops[j]) == Known(v) || LabelOf(link, ops[j]) == Unknown
  }

  /** The operands over edges that were excluded only after the last visit contradict `v` nowhere. */
  ghost predicate LateAgree(link: seq<Label>, seen: map<Id, bool>, marks: map<Id, bool>, ops: seq<Id>, preds: seq<Id>, v: Value) {
    |ops| == |preds| && forall j: nat :: j < |ops| && Counts(seen, preds, j) && !Counts(marks, preds, j) ==>
      LabelOf(link, ops[j]) == Known(v) || LabelOf(link, ops[j]) == Unknown
  }

  /** When all operands of a phi over edges that are not excluded at rest agree on a constant, the phi is labelled with it
      if and only if no operand over an edge excluded after the last visit of the phi says anything else. */
  lemma PhiConstantExactly(g: Graph, at: nat -> State, n: Id, k: nat, m: nat, v: Value)
    requires Accepts(g) && Trace(g, at) && Started(g, at(0)) && at(m).queue == [] && LastVisit(at, n, k, m)
    requires n < |g.nodes| && g.nodes[n].kind.Phi?
    requires Agree(at(m).link, at(m).marks, g.nodes[n].kind.ops, Preds(g, g.nodes[n].block), v)
    ensures LabelOf(at(m).link, n) == Known(v) <==>
      LateAgree(at(m).link, at(k).marks, at(m).marks, g.nodes[n].kind.ops, Preds(g, g.nodes[n].block), v)
  {
    PhiAsLastSeen(g, at, n, k, m);
    JoinDecides(LabelOf(at(m).link, n), at(m).link, at(k).marks, at(m).marks, g.nodes[n].kind.ops, Preds(g, g.nodes[n].block), v);
  }

  lemma JoinDecides(val: Label, link: seq<Label>, seen: map<Id, bool>, marks: map<Id, bool>, ops: seq<Id>, preds: seq<Id>, v: Value)
    requires Joins(val, link, seen, ops, preds) && Agree(link, marks, ops, preds, v)
    requires forall c :: c in preds && MarkedFalse(seen, c) ==> MarkedFalse(marks, c)
    ensures val == Known(v) <==> LateAgree(link, seen, marks, ops, preds, v)
  {
    forall j: nat | Counts(marks, preds, j) ensures Counts(seen, preds, j) { assert preds[j] in preds; }
    var j: nat :| j < |ops| && Counts(marks, preds, j) && LabelOf(link, ops[j]) == Known(v);
    assert Counts(seen, preds, j);
    if LateAgree(link, seen, marks, ops, preds, v) {
      forall i: nat | i < |ops| && Counts(seen, preds, i) ensures LabelOf(link, ops[i]) == Known(v) || LabelOf(link, ops[i]) == Unknown {
        assert Counts(marks, preds, i) || !Counts(marks, preds, i);
      }
    }
  }

  /** If no edge into its block is excluded at rest, a phi is the join of all its operands. */
  lemma PhiWithoutExclusion(g: Graph, at: nat -> State, n: Id, k: nat, m: nat)
    requires Accepts(g) && Trace(g, at) && Started(g, at(0)) && at(m).queue == [] && LastVisit(at, n, k, m)
    requires n < |g.nodes| && g.nodes[n].kind.Phi?
    requires forall c :: c in Preds(g, g.nodes[n].block) ==> !MarkedFalse(at(m).marks, c)
    ensures Joins(LabelOf(at(m).link, n), at(m).link, map[], g.nodes[n].kind.ops, Preds(g, g.nodes[n].block))
  {
    PhiAsLastSeen(g, at, n, k, m);
    var preds := Preds(g, g.nodes[n].block);
    forall j: nat | j < |preds| ensures Counts(at(k).marks, preds, j) == Counts(map[], preds, j) { assert preds[j] in preds; }
  }
}
