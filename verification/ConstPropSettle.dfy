/** Graphs on which constant propagation (const_prop_pass.hpp) comes to rest, recognised before the pass is run. */
module ConstPropSettle {
  import opened FirmGraph
  import opened FirmPass
  import opened ConstProp
  import opened ConstPropInvariant
  import opened ConstPropRest
  import opened ConstPropPassClass

  // ---- conditions on the graph ----

  /** Values whose label a visit computes from the labels of the operands. */
  predicate Computed(k: Kind) { IsValue(k) && !Inert(k) }

  ghost predicate LayeredNode(g: Graph, layer: Id -> nat, n: Id)
    requires n < |g.nodes|
  {
    var k := g.nodes[n].kind;
    && (Computed(k) ==>
          forall q: Id :: q in Operands(k) && q < |g.nodes| && Computed(g.nodes[q].kind) ==> layer(q) < layer(n))
    && (k.Phi? ==>
          forall p: Id :: p in Preds(g, g.nodes[n].block) && p < |g.nodes| && IsControl(g.nodes[p].kind) ==> layer(p) < layer(n))
    && (k.ProjX? && k.cond < |g.nodes| && g.nodes[k.cond].kind.Cond? ==> layer(g.nodes[k.cond].kind.selector) < layer(n))
  }

  /** No computed value depends on itself, through operands, through the edges a phi chooses by, and through the
      comparisons that decide these edges. Blocks may form cycles. */
  ghost predicate Layered(g: Graph, layer: Id -> nat) {
    forall n: Id :: n < |g.nodes| ==> LayeredNode(g, layer, n)
  }

  /** Jumps and projections, the control nodes that may be taken. */
  predicate Leaving(k: Kind) { k.Jmp? || k.ProjX? }

  ghost predicate AnchoredAt(g: Graph, steps: Id -> nat, b: Id, p: Id) {
    && p in Preds(g, b) && p < |g.nodes| && IsControl(g.nodes[p].kind)
    && (g.nodes[p].kind.Bad? || g.nodes[p].block == g.startBlock || steps(g.nodes[p].block) < steps(b))
  }

  /** Going back from a block with a jump or projection, over control nodes, ends in the start block or at a Bad. */
  ghost predicate Anchored(g: Graph, steps: Id -> nat) {
    forall c: Id :: c < |g.nodes| && Leaving(g.nodes[c].kind) && g.nodes[c].block != g.startBlock ==>
      exists p: Id :: AnchoredAt(g, steps, g.nodes[c].block, p)
  }

  // ---- the states of one run of the pass ----

  ghost predicate OneRound(g: Graph, at: nat -> State, m: nat) { Workable(g, at(m)) && at(m + 1) == Next(g, at(m)) }

  /** `at(m)` is the state after `m` rounds. */
  ghost predicate Trace(g: Graph, at: nat -> State) { forall m: nat :: OneRound(g, at, m) }

  lemma TraceOf(g: Graph, s: State) returns (at: nat -> State)
    requires Workable(g, s)
    ensures Trace(g, at) && forall m: nat :: at(m) == Rounds(g, s, m)
  {
    at := (m: nat) => Rounds(g, s, m);
    forall m: nat ensures OneRound(g, at, m) {
      RoundsTrack(g, s, m);
      LastRound(g, s, m);
    }
  }

  // ---- labels and marks that do not change any more ----

  ghost predicate LabelSame(s: State, t: State, n: Id) { |t.link| == |s.link| && (n < |s.link| ==> t.link[n] == s.link[n]) }

  ghost predicate MarkSame(s: State, t: State, c: Id) {
    (c in t.marks <==> c in s.marks) && (c in s.marks ==> t.marks[c] == s.marks[c])
  }

  /** From round `k` on. */
  ghost predicate LabelStays(at: nat -> State, k: nat, n: Id) { forall m: nat :: m >= k ==> LabelSame(at(k), at(m), n) }

  ghost predicate MarkStays(at: nat -> State, k: nat, c: Id) { forall m: nat :: m >= k ==> MarkSame(at(k), at(m), c) }

  ghost predicate NodeStays(at: nat -> State, k: nat, n: Id) { LabelStays(at, k, n) && MarkStays(at, k, n) }

  lemma LabelLater(at: nat -> State, k: nat, m: nat, n: Id)
    requires LabelStays(at, k, n) && k <= m
    ensures LabelStays(at, m, n)
  {
    assert LabelSame(at(k), at(m), n);
    forall j: nat | j >= m ensures LabelSame(at(m), at(j), n) { assert LabelSame(at(k), at(j), n); }
  }

  lemma MarkLater(at: nat -> State, k: nat, m: nat, c: Id)
    requires MarkStays(at, k, c) && k <= m
    ensures MarkStays(at, m, c)
  {
    assert MarkSame(at(k), at(m), c);
    forall j: nat | j >= m ensures MarkSame(at(m), at(j), c) { assert MarkSame(at(k), at(j), c); }
  }

  /** What a round does to one node is done by its visit. */
  lemma NextOther(g: Graph, s: State, n: Id)
    requires Fits(g, s) && (s.queue == [] || s.queue[0] != n)
    ensures LabelSame(s, Next(g, s), n) && MarkSame(s, Next(g, s), n)
  {
    if s.queue != [] {
      RestFits(g, s);
      VisitStays(g, s.(queue := s.queue[1..]), s.queue[0]);
    }
  }

  predicate Relabelled(k: Kind) { Computed(k) || k.ProjX? }

  lemma UnlabelledNext(g: Graph, s: State, n: Id)
    requires Workable(g, s) && (n < |g.nodes| ==> !Relabelled(g.nodes[n].kind))
    ensures LabelSame(s, Next(g, s), n)
  {
    if s.queue != [] && s.queue[0] == n {
      RestFits(g, s);
      var p := s.(queue := s.queue[1..]);
      if IsControl(g.nodes[n].kind) { MarkFrame(g, p, n, MayTake(g, p.link, n)); }
    } else {
      NextOther(g, s, n);
    }
  }

  /** A node that is neither computed nor a projection keeps its label. */
  lemma UnlabelledStays(g: Graph, at: nat -> State, k: nat, n: Id)
    requires Trace(g, at) && (n < |g.nodes| ==> !Relabelled(g.nodes[n].kind))
    ensures LabelStays(at, k, n)
  {
    forall m: nat | m >= k ensures LabelSame(at(k), at(m), n) { UnlabelledSame(g, at, k, n, m); }
  }

  lemma UnlabelledStep(g: Graph, at: nat -> State, n: Id, m: nat)
    requires Trace(g, at) && (n < |g.nodes| ==> !Relabelled(g.nodes[n].kind))
    ensures LabelSame(at(m), at(m + 1), n)
  {
    assert OneRound(g, at, m);
    UnlabelledNext(g, at(m), n);
  }

  lemma {:induction false} UnlabelledSame(g: Graph, at: nat -> State, k: nat, n: Id, m: nat)
    requires Trace(g, at) && (n < |g.nodes| ==> !Relabelled(g.nodes[n].kind)) && m >= k
    ensures LabelSame(at(k), at(m), n)
    decreases m
  {
    if m > k {
      UnlabelledSame(g, at, k, n, m - 1);
      UnlabelledStep(g, at, n, m - 1);
    }
  }

  lemma UncontrolledNext(g: Graph, s: State, n: Id)
    requires Workable(g, s) && (n < |g.nodes| ==> !IsControl(g.nodes[n].kind))
    ensures MarkSame(s, Next(g, s), n)
  {
    if s.queue != [] && s.queue[0] == n {
      RestFits(g, s);
      OnlyControlMarked(g, s.(queue := s.queue[1..]), n);
    } else {
      NextOther(g, s, n);
    }
  }

  /** Only control nodes are marked. */
  lemma UncontrolledStays(g: Graph, at: nat -> State, k: nat, n: Id)
    requires Trace(g, at) && (n < |g.nodes| ==> !IsControl(g.nodes[n].kind))
    ensures MarkStays(at, k, n)
  {
    forall m: nat | m >= k ensures MarkSame(at(k), at(m), n) { UncontrolledSame(g, at, k, n, m); }
  }

  lemma UncontrolledStep(g: Graph, at: nat -> State, n: Id, m: nat)
    requires Trace(g, at) && (n < |g.nodes| ==> !IsControl(g.nodes[n].kind))
    ensures MarkSame(at(m), at(m + 1), n)
  {
    assert OneRound(g, at, m);
    UncontrolledNext(g, at(m), n);
  }

  lemma {:induction false} UncontrolledSame(g: Graph, at: nat -> State, k: nat, n: Id, m: nat)
    requires Trace(g, at) && (n < |g.nodes| ==> !IsControl(g.nodes[n].kind)) && m >= k
    ensures MarkSame(at(k), at(m), n)
    decreases m
  {
    if m > k {
      UncontrolledSame(g, at, k, n, m - 1);
      UncontrolledStep(g, at, n, m - 1);
    }
  }

  // ---- labels settle ----

  /** What the label of `n` is computed from does not change any more. */
  ghost predicate InputsStay(g: Graph, at: nat -> State, k: nat, n: Id)
    requires n < |g.nodes|
  {
    && (forall q: Id :: q in Operands(g.nodes[n].kind) ==> LabelStays(at, k, q))
    && (g.nodes[n].kind.Phi? ==> forall p: Id :: p in Preds(g, g.nodes[n].block) ==> MarkStays(at, k, p))
  }

  lemma {:induction false} JoinSame(link: seq<Label>, marks: map<Id, bool>, link': seq<Label>, marks': map<Id, bool>, ops: seq<Id>,
                                    preds: seq<Id>, i: nat, val: Label)
    requires i <= |ops| == |preds| && |link| == |link'|
    requires forall q :: q in ops ==> q < |link| && link[q] == link'[q]
    requires forall p :: p in preds ==> MarkedFalse(marks, p) == MarkedFalse(marks', p)
    ensures JoinFrom(link, marks, ops, preds, i, val) == JoinFrom(link', marks', ops, preds, i, val)
    decreases |ops| - i
  {
    if i < |ops| {
      assert ops[i] in ops && preds[i] in preds;
      if MarkedFalse(marks, preds[i]) {
        JoinSame(link, marks, link', marks', ops, preds, i + 1, val);
      } else {
        JoinSame(link, marks, link', marks', ops, preds, i + 1, link[ops[i]]);
        JoinSame(link, marks, link', marks', ops, preds, i + 1, val);
      }
    }
  }

  lemma NewLabelSame(g: Graph, s: State, t: State, n: Id)
    requires Fits(g, s) && Fits(g, t) && n < |g.nodes| && Relabelled(g.nodes[n].kind)
    requires forall q: Id :: q in Operands(g.nodes[n].kind) ==> LabelSame(s, t, q)
    requires g.nodes[n].kind.Phi? ==> forall p: Id :: p in Preds(g, g.nodes[n].block) ==> MarkSame(s, t, p)
    ensures NewLabel(g, t, n) == NewLabel(g, s, n)
  {
    assert WellFormedNode(g, n);
    var k := g.nodes[n].kind;
    if k.Phi? {
      forall q: Id | q in k.ops ensures q < |s.link| && s.link[q] == t.link[q] { assert q in Operands(k) && LabelSame(s, t, q); }
      var preds := Preds(g, g.nodes[n].block);
      forall p: Id | p in preds ensures MarkedFalse(s.marks, p) == MarkedFalse(t.marks, p) { assert MarkSame(s, t, p); }
      JoinSame(s.link, s.marks, t.link, t.marks, k.ops, preds, 0, Unknown);
    } else if k.Arith? {
      assert k.left in Operands(k) && k.right in Operands(k);
    } else if k.Cmp? {
      assert k.cleft in Operands(k) && k.cright in Operands(k);
    } else if k.Unary? {
      assert k.operand in Operands(k);
    } else if k.ProjX? {
      assert k.cond in Operands(k);
    } else {
      assert k.ProjRes? && k.pred in Operands(k);
    }
  }

  lemma InputsSame(g: Graph, at: nat -> State, k: nat, n: Id, m: nat)
    requires Trace(g, at) && n < |g.nodes| && Relabelled(g.nodes[n].kind) && InputsStay(g, at, k, n) && m >= k
    ensures Fits(g, at(k)) && Fits(g, at(m)) && NewLabel(g, at(m), n) == NewLabel(g, at(k), n)
  {
    assert OneRound(g, at, k) && OneRound(g, at, m);
    forall q: Id | q in Operands(g.nodes[n].kind) ensures LabelSame(at(k), at(m), q) { assert LabelStays(at, k, q); }
    if g.nodes[n].kind.Phi? {
      forall p: Id | p in Preds(g, g.nodes[n].block) ensures MarkSame(at(k), at(m), p) { assert MarkStays(at, k, p); }
    }
    NewLabelSame(g, at(k), at(m), n);
  }

  /** A round leaves the label of `n` alone or makes it what the inputs say. */
  lemma LabelNext(g: Graph, s: State, n: Id)
    requires Fits(g, s) && n < |g.nodes| && Relabelled(g.nodes[n].kind)
    ensures LabelSame(s, Next(g, s), n) || (|Next(g, s).link| == |s.link| && Next(g, s).link[n] == NewLabel(g, s, n))
  {
    if s.queue != [] && s.queue[0] == n {
      RestFits(g, s);
      var p := s.(queue := s.queue[1..]);
      if g.nodes[n].kind.ProjX? { MarkFrame(g, p, n, MayTake(g, p.link, n)); }
      assert Next(g, s) == VisitNode(g, p, n) && NewLabel(g, p, n) == NewLabel(g, s, n);
    } else {
      NextOther(g, s, n);
    }
  }

  lemma LabelStep(g: Graph, at: nat -> State, n: Id, m: nat)
    requires Trace(g, at) && n < |g.nodes| && Relabelled(g.nodes[n].kind)
    ensures Fits(g, at(m)) && |at(m + 1).link| == |at(m).link|
    ensures LabelSame(at(m), at(m + 1), n) || at(m + 1).link[n] == NewLabel(g, at(m), n)
  {
    assert OneRound(g, at, m);
    LabelNext(g, at(m), n);
  }

  lemma {:induction false} LabelOrNew(g: Graph, at: nat -> State, k: nat, n: Id, m: nat)
    requires Trace(g, at) && n < |g.nodes| && Relabelled(g.nodes[n].kind) && InputsStay(g, at, k, n) && m >= k && Fits(g, at(k))
    ensures LabelSame(at(k), at(m), n) || (|at(m).link| == |g.nodes| && at(m).link[n] == NewLabel(g, at(k), n))
    decreases m
  {
    if m > k {
      LabelOrNew(g, at, k, n, m - 1);
      InputsSame(g, at, k, n, m - 1);
      LabelStep(g, at, n, m - 1);
    }
  }

  lemma InputsLater(g: Graph, at: nat -> State, k: nat, n: Id, m: nat)
    requires n < |g.nodes| && InputsStay(g, at, k, n) && m >= k
    ensures InputsStay(g, at, m, n)
  {
    forall q: Id | q in Operands(g.nodes[n].kind) ensures LabelStays(at, m, q) { LabelLater(at, k, m, q); }
    if g.nodes[n].kind.Phi? {
      forall p: Id | p in Preds(g, g.nodes[n].block) ensures MarkStays(at, m, p) { MarkLater(at, k, m, p); }
    }
  }

  /** Once the inputs of a node stand still its label changes at most once more. */
  lemma LabelSettles(g: Graph, at: nat -> State, k: nat, n: Id) returns (m: nat)
    requires Trace(g, at) && n < |g.nodes| && Relabelled(g.nodes[n].kind) && InputsStay(g, at, k, n)
    ensures m >= k && LabelStays(at, m, n)
  {
    assert OneRound(g, at, k);
    m := k;
    if !LabelStays(at, k, n) {
      m :| m >= k && !LabelSame(at(k), at(m), n);
      LabelOrNew(g, at, k, n, m);
      InputsSame(g, at, k, n, m);
      InputsLater(g, at, k, n, m);
      forall j: nat | j >= m ensures LabelSame(at(m), at(j), n) {
        LabelOrNew(g, at, m, n, j);
      }
    }
  }

  // ---- marks settle ----

  /** Labels decide about the edge the same way from round `k` on. */
  ghost predicate DecisionStays(g: Graph, at: nat -> State, k: nat, c: Id)
    requires c < |g.nodes|
  {
    forall m: nat :: m >= k ==> DecisionSame(g, at(k), at(m), c)
  }

  ghost predicate DecisionSame(g: Graph, s: State, t: State, c: Id)
    requires c < |g.nodes|
  {
    |s.link| == |t.link| == |g.nodes| && MayTake(g, t.link, c) == MayTake(g, s.link, c)
  }

  lemma DecisionLater(g: Graph, at: nat -> State, k: nat, c: Id, m: nat)
    requires c < |g.nodes| && DecisionStays(g, at, k, c) && m >= k
    ensures DecisionStays(g, at, m, c) && DecisionSame(g, at(k), at(m), c)
  {
    forall j: nat | j >= m ensures DecisionSame(g, at(m), at(j), c) { assert DecisionSame(g, at(k), at(j), c); }
  }

  /** How far the mark of an edge has got on its way, which ends at false if the edge may not be taken. */
  function MarkRank(marks: map<Id, bool>, c: Id, taken: bool): nat {
    if MarkedFalse(marks, c) then 1 else if taken && c in marks then 2 else 0
  }

  lemma MarkVisitRises(g: Graph, s: State, c: Id)
    requires Fits(g, s) && c < |g.nodes| && IsControl(g.nodes[c].kind)
    ensures var taken := MayTake(g, s.link, c); var t := VisitNode(g, s, c);
      MarkSame(s, t, c) || MarkRank(t.marks, c, taken) > MarkRank(s.marks, c, taken)
  {
  }

  lemma MarkRises(g: Graph, s: State, c: Id)
    requires Fits(g, s) && c < |g.nodes| && IsControl(g.nodes[c].kind)
    ensures var taken := MayTake(g, s.link, c); var t := Next(g, s);
      MarkSame(s, t, c) || MarkRank(t.marks, c, taken) > MarkRank(s.marks, c, taken)
  {
    if s.queue != [] && s.queue[0] == c {
      RestFits(g, s);
      MarkVisitRises(g, s.(queue := s.queue[1..]), c);
    } else {
      NextOther(g, s, c);
    }
  }

  lemma MarkStep(g: Graph, at: nat -> State, c: Id, m: nat)
    requires Trace(g, at) && c < |g.nodes| && IsControl(g.nodes[c].kind)
    ensures |at(m).link| == |g.nodes|
    ensures var taken := MayTake(g, at(m).link, c);
      MarkSame(at(m), at(m + 1), c) || MarkRank(at(m + 1).marks, c, taken) > MarkRank(at(m).marks, c, taken)
  {
    assert OneRound(g, at, m);
    MarkRises(g, at(m), c);
  }

  lemma {:induction false} MarkClimbs(g: Graph, at: nat -> State, k: nat, c: Id, m: nat)
    requires Trace(g, at) && c < |g.nodes| && IsControl(g.nodes[c].kind) && DecisionStays(g, at, k, c) && m >= k
    requires |at(k).link| == |g.nodes|
    ensures var taken := MayTake(g, at(k).link, c);
      MarkSame(at(k), at(m), c) || MarkRank(at(m).marks, c, taken) > MarkRank(at(k).marks, c, taken)
    decreases m
  {
    if m > k {
      MarkClimbs(g, at, k, c, m - 1);
      assert DecisionSame(g, at(k), at(m - 1), c);
      MarkStep(g, at, c, m - 1);
    }
  }

  /** Once the comparison of an edge stands still its mark changes at most twice more. */
  lemma {:induction false} MarkSettles(g: Graph, at: nat -> State, k: nat, c: Id) returns (m: nat)
    requires Trace(g, at) && c < |g.nodes| && IsControl(g.nodes[c].kind) && DecisionStays(g, at, k, c) && |at(k).link| == |g.nodes|
    ensures m >= k && MarkStays(at, m, c)
    decreases 2 - MarkRank(at(k).marks, c, MayTake(g, at(k).link, c))
  {
    m := k;
    if !MarkStays(at, k, c) {
      var j: nat :| j >= k && !MarkSame(at(k), at(j), c);
      MarkClimbs(g, at, k, c, j);
      DecisionLater(g, at, k, c, j);
      m := MarkSettles(g, at, j, c);
    }
  }

  // ---- layer by layer ----

  ghost predicate Below(layer: Id -> nat, r: nat, i: nat, n: Id) { layer(n) < r || (layer(n) == r && n < i) }

  /** The nodes of the layers below `r`, and those of layer `r` before `i`, stand still. */
  ghost predicate LowerStay(g: Graph, layer: Id -> nat, at: nat -> State, k: nat, r: nat, i: nat) {
    forall n: Id :: n < |g.nodes| && Below(layer, r, i, n) ==> NodeStays(at, k, n)
  }

  lemma LowerLater(g: Graph, layer: Id -> nat, at: nat -> State, k: nat, r: nat, i: nat, m: nat)
    requires LowerStay(g, layer, at, k, r, i) && m >= k
    ensures LowerStay(g, layer, at, m, r, i)
  {
    forall n: Id | n < |g.nodes| && Below(layer, r, i, n) ensures NodeStays(at, m, n) {
      LabelLater(at, k, m, n);
      MarkLater(at, k, m, n);
    }
  }

  /** What a node depends on lies below it, or never changes. */
  lemma InputsBelow(g: Graph, layer: Id -> nat, at: nat -> State, k: nat, i: Id)
    requires Trace(g, at) && WellFormed(g) && Layered(g, layer) && i < |g.nodes| && Relabelled(g.nodes[i].kind)
    requires LowerStay(g, layer, at, k, layer(i), i)
    ensures InputsStay(g, at, k, i)
  {
    assert WellFormedNode(g, i) && LayeredNode(g, layer, i);
    forall q: Id | q in Operands(g.nodes[i].kind) ensures LabelStays(at, k, q) { OperandBelow(g, layer, at, k, i, q); }
    if g.nodes[i].kind.Phi? {
      forall p: Id | p in Preds(g, g.nodes[i].block) ensures MarkStays(at, k, p) {
        if p < |g.nodes| && IsControl(g.nodes[p].kind) {
          assert Below(layer, layer(i), i, p) && NodeStays(at, k, p);
        } else {
          UncontrolledStays(g, at, k, p);
        }
      }
    }
  }

  lemma OperandBelow(g: Graph, layer: Id -> nat, at: nat -> State, k: nat, i: Id, q: Id)
    requires Trace(g, at) && WellFormed(g) && Layered(g, layer) && i < |g.nodes| && Relabelled(g.nodes[i].kind)
    requires LowerStay(g, layer, at, k, layer(i), i) && q in Operands(g.nodes[i].kind)
    ensures LabelStays(at, k, q)
  {
    assert WellFormedNode(g, i) && LayeredNode(g, layer, i);
    if Relabelled(g.nodes[q].kind) {
      assert Below(layer, layer(i), i, q) && NodeStays(at, k, q);
    } else {
      UnlabelledStays(g, at, k, q);
    }
  }

  lemma DecisionBelow(g: Graph, layer: Id -> nat, at: nat -> State, k: nat, i: Id)
    requires Trace(g, at) && WellFormed(g) && Layered(g, layer) && i < |g.nodes| && IsControl(g.nodes[i].kind)
    requires LowerStay(g, layer, at, k, layer(i), i)
    ensures DecisionStays(g, at, k, i)
  {
    assert LayeredNode(g, layer, i);
    if g.nodes[i].kind.ProjX? { SelectorElsewhere(g, i); }
    forall m: nat | m >= k ensures DecisionSame(g, at(k), at(m), i) {
      assert OneRound(g, at, k) && OneRound(g, at, m);
      if g.nodes[i].kind.ProjX? {
        var sel := g.nodes[g.nodes[i].kind.cond].kind.selector;
        assert Below(layer, layer(i), i, sel) && NodeStays(at, k, sel);
        assert LabelSame(at(k), at(m), sel);
      }
    }
  }

  /** One more node. */
  lemma NodeSettles(g: Graph, layer: Id -> nat, at: nat -> State, k: nat, i: Id) returns (m: nat)
    requires Trace(g, at) && WellFormed(g) && Layered(g, layer) && i < |g.nodes| && LowerStay(g, layer, at, k, layer(i), i)
    ensures m >= k && NodeStays(at, m, i)
  {
    var a, b := k, k;
    if Relabelled(g.nodes[i].kind) {
      InputsBelow(g, layer, at, k, i);
      a := LabelSettles(g, at, k, i);
    } else {
      UnlabelledStays(g, at, k, i);
    }
    if IsControl(g.nodes[i].kind) {
      DecisionBelow(g, layer, at, k, i);
      assert OneRound(g, at, k);
      b := MarkSettles(g, at, k, i);
    } else {
      UncontrolledStays(g, at, k, i);
    }
    m := if a < b then b else a;
    LabelLater(at, a, m, i);
    MarkLater(at, b, m, i);
  }

  lemma {:induction false} LayersSettle(g: Graph, layer: Id -> nat, at: nat -> State, r: nat, i: nat) returns (m: nat)
    requires Trace(g, at) && WellFormed(g) && Layered(g, layer) && i <= |g.nodes|
    ensures LowerStay(g, layer, at, m, r, i)
    decreases r, i
  {
    m := 0;
    if i > 0 {
      var k := LayersSettle(g, layer, at, r, i - 1);
      m := k;
      if layer(i - 1) == r { m := NodeSettles(g, layer, at, k, i - 1); }
      LowerLater(g, layer, at, k, r, i - 1, m);
    } else if r > 0 {
      m := LayersSettle(g, layer, at, r - 1, |g.nodes|);
    }
  }

  lemma {:induction false} Highest(layer: Id -> nat, n: nat) returns (r: nat)
    ensures forall i: Id :: i < n ==> layer(i) < r
  {
    r := 0;
    if n > 0 {
      var q := Highest(layer, n - 1);
      r := if layer(n - 1) < q then q else layer(n - 1) + 1;
    }
  }

  ghost predicate StillFrom(at: nat -> State, k: nat) {
    forall m: nat :: m >= k ==> at(m).link == at(k).link && at(m).marks == at(k).marks
  }

  /** On a layered graph labels and marks come to stand still. */
  lemma LayeredSettles(g: Graph, layer: Id -> nat, at: nat -> State) returns (k: nat)
    requires Trace(g, at) && WellFormed(g) && Layered(g, layer)
    ensures StillFrom(at, k)
  {
    var r := Highest(layer, |g.nodes|);
    k := LayersSettle(g, layer, at, r, 0);
    forall n: Id ensures NodeStays(at, k, n) {
      if n < |g.nodes| {
        assert Below(layer, r, 0, n);
      } else {
        UnlabelledStays(g, at, k, n);
        UncontrolledStays(g, at, k, n);
      }
    }
    forall m: nat | m >= k ensures at(m).link == at(k).link && at(m).marks == at(k).marks {
      forall n: Id ensures LabelSame(at(k), at(m), n) && MarkSame(at(k), at(m), n) { assert NodeStays(at, k, n); }
      AllSame(at(k), at(m));
    }
  }

  lemma AllSame(s: State, t: State)
    requires forall n: Id :: LabelSame(s, t, n) && MarkSame(s, t, n)
    ensures s.link == t.link && s.marks == t.marks
  {
    assert LabelSame(s, t, 0);
    forall n: Id | n < |s.link| ensures t.link[n] == s.link[n] { assert LabelSame(s, t, n); }
    forall c: Id ensures (c in t.marks <==> c in s.marks) && (c in s.marks ==> t.marks[c] == s.marks[c]) { assert MarkSame(s, t, c); }
  }

  // ---- no edge spins ----

  lemma QueueMoves(g: Graph, s: State, i: nat)
    requires Fits(g, s) && 0 < i < |s.queue|
    ensures var q := Next(g, s).queue; i - 1 < |q| && q[i-1] == s.queue[i]
  {
    RestFits(g, s);
    VisitStays(g, s.(queue := s.queue[1..]), s.queue[0]);
    assert s.queue[1..][i-1] == s.queue[i];
  }

  lemma QueueStep(g: Graph, at: nat -> State, k: nat, i: nat)
    requires Trace(g, at) && 0 < i < |at(k).queue|
    ensures i - 1 < |at(k + 1).queue| && at(k + 1).queue[i-1] == at(k).queue[i]
  {
    assert OneRound(g, at, k);
    QueueMoves(g, at(k), i);
  }

  /** A node at position `i` of the worklist is visited `i` rounds later. */
  lemma {:induction false} Served(g: Graph, at: nat -> State, k: nat, i: nat)
    requires Trace(g, at) && i < |at(k).queue|
    ensures at(k + i).queue != [] && at(k + i).queue[0] == at(k).queue[i]
    decreases i
  {
    if i > 0 {
      QueueStep(g, at, k, i);
      Served(g, at, k + 1, i - 1);
    }
  }

  lemma CondWakes(g: Graph, s: State, c: Id)
    requires Fits(g, s) && c < |g.nodes| && g.nodes[c].kind.ProjX? && s.queue != [] && s.queue[0] == g.nodes[c].kind.cond
    ensures c in Next(g, s).queue
  {
    SelectorIsCond(g, c);
    assert Uses(g, c, g.nodes[c].kind.cond);
  }

  lemma CondStep(g: Graph, at: nat -> State, k: nat, c: Id)
    requires Trace(g, at) && c < |g.nodes| && g.nodes[c].kind.ProjX? && at(k).queue != [] && at(k).queue[0] == g.nodes[c].kind.cond
    ensures c in at(k + 1).queue
  {
    assert OneRound(g, at, k);
    CondWakes(g, at(k), c);
  }

  /** So is a projection whose condition waits. */
  lemma EdgeServed(g: Graph, at: nat -> State, k: nat, c: Id) returns (m: nat)
    requires Trace(g, at) && c < |g.nodes| && EdgeWaits(g, at(k).queue, c)
    ensures m >= k && at(m).queue != [] && at(m).queue[0] == c
  {
    m := k;
    if c !in at(k).queue {
      var i: nat :| i < |at(k).queue| && at(k).queue[i] == g.nodes[c].kind.cond;
      Served(g, at, k, i);
      CondStep(g, at, k + i, c);
      m := k + i + 1;
    }
    var j: nat :| j < |at(m).queue| && at(m).queue[j] == c;
    Served(g, at, m, j);
    m := m + j;
  }

  lemma UnmarkedVisit(g: Graph, s: State, c: Id)
    requires Fits(g, s) && c < |g.nodes| && IsControl(g.nodes[c].kind) && c !in s.marks && c !in VisitNode(g, s, c).marks
    ensures Spins(g, s, c)
  {
  }

  /** When nothing changes any more, an edge without a mark spins. */
  lemma UnmarkedSpins(g: Graph, at: nat -> State, k: nat, c: Id)
    requires Trace(g, at) && StillFrom(at, k) && c < |g.nodes| && IsControl(g.nodes[c].kind) && c !in at(k).marks
    ensures Workable(g, at(k)) && Spins(g, at(k), c)
  {
    assert OneRound(g, at, k);
    assert EdgeWaits(g, at(k).queue, c);
    var m := EdgeServed(g, at, k, c);
    assert OneRound(g, at, m);
    var s := at(m);
    RestFits(g, s);
    assert at(m + 1).marks == at(k).marks;
    UnmarkedVisit(g, s.(queue := s.queue[1..]), c);
  }

  lemma {:induction false} AnchoredNeverSpins(g: Graph, steps: Id -> nat, at: nat -> State, k: nat, c: Id)
    requires Trace(g, at) && StillFrom(at, k) && Workable(g, at(k)) && Anchored(g, steps) && c < |g.nodes|
    ensures !Spins(g, at(k), c)
    decreases steps(g.nodes[c].block)
  {
    if Spins(g, at(k), c) {
      var p: Id :| AnchoredAt(g, steps, g.nodes[c].block, p);
      assert p !in at(k).marks;
      UnmarkedSpins(g, at, k, p);
      AnchoredNeverSpins(g, steps, at, k, p);
    }
  }

  lemma StillThere(g: Graph, s: State, at: nat -> State, k: nat)
    requires StillFrom(at, k) && forall m: nat :: at(m) == Rounds(g, s, m)
    ensures Still(g, Rounds(g, s, k))
  {
    forall m: nat ensures SameAfter(g, Rounds(g, s, k), m) {
      RoundsAdd(g, s, k, m);
      assert at(k + m) == Rounds(g, s, k + m);
    }
  }

  lemma StartWorkable(g: Graph, s: State)
    requires Accepts(g) && Started(g, s)
    ensures Workable(g, s)
  {
    StartKeeps(g, s);
    forall n: Id ensures n in s.queue <==> n < |g.nodes| && !g.nodes[n].kind.Const? { StartQueue(g, s, n); }
  }

  /** Main result: on a layered and anchored graph the pass comes to rest. */
  lemma LayeredComesToRest(g: Graph, layer: Id -> nat, steps: Id -> nat, s: State)
    requires Accepts(g) && Started(g, s) && Layered(g, layer) && Anchored(g, steps)
    ensures ComesToRest(g, s)
  {
    StartWorkable(g, s);
    var at := TraceOf(g, s);
    var k := LayeredSettles(g, layer, at);
    assert OneRound(g, at, k);
    forall c: Id | c < |g.nodes| ensures !Spins(g, at(k), c) { AnchoredNeverSpins(g, steps, at, k, c); }
    StillThere(g, s, at, k);
    assert StandsStill(g, Rounds(g, s, k));
    RestsExactly(g, s);
  }

  // ---- graphs without cycles ----

  /** Every node lies above its operands and its block: no cycle through phis and blocks. */
  ghost predicate LoopFree(g: Graph, height: Id -> nat) {
    forall n: Id, q: Id :: Follows(g, n, q) ==> height(q) < height(n)
  }

  /** The block holds a jump or a projection, and no control node leads to it. */
  ghost predicate Orphan(g: Graph, b: Id) {
    && b != g.startBlock
    && (exists c: Id :: c < |g.nodes| && g.nodes[c].block == b && Leaving(g.nodes[c].kind))
    && forall p: Id :: p in Preds(g, b) && p < |g.nodes| ==> !IsControl(g.nodes[p].kind)
  }

  ghost predicate Twin(g: Graph, c: Id, d: Id) {
    && c < |g.nodes| && d < |g.nodes| && g.nodes[c].block == g.nodes[d].block
    && g.nodes[c].kind.ProjX? && g.nodes[d].kind == ProjX(g.nodes[c].kind.cond, !g.nodes[c].kind.onTrue)
  }

  /** Each condition of an orphan block has both its projections. */
  ghost predicate Paired(g: Graph) {
    forall c: Id :: c < |g.nodes| && g.nodes[c].kind.ProjX? && Orphan(g, g.nodes[c].block) ==> exists d: Id :: Twin(g, c, d)
  }

  lemma LoopFreeLayered(g: Graph, height: Id -> nat)
    requires WellFormed(g) && LoopFree(g, height)
    ensures Layered(g, height)
  {
    forall n: Id | n < |g.nodes| ensures LayeredNode(g, height, n) { LoopFreeNode(g, height, n); }
  }

  lemma LoopFreeNode(g: Graph, height: Id -> nat, n: Id)
    requires WellFormed(g) && LoopFree(g, height) && n < |g.nodes|
    ensures LayeredNode(g, height, n)
  {
    var Node(k, b) := g.nodes[n];
    assert WellFormedNode(g, n);
    forall q: Id | q in Operands(k) ensures height(q) < height(n) { assert Follows(g, n, q); }
    if k.Phi? {
      assert Follows(g, n, b);
      forall p: Id | p in Preds(g, b) ensures height(p) < height(n) { assert Follows(g, b, p); }
    } else if k.ProjX? {
      SelectorElsewhere(g, n);
      assert Follows(g, n, k.cond) && Follows(g, k.cond, g.nodes[k.cond].kind.selector);
    }
  }

  lemma LoopFreeAnchored(g: Graph, height: Id -> nat)
    requires WellFormed(g) && LoopFree(g, height) && forall b: Id :: !Orphan(g, b)
    ensures Anchored(g, height)
  {
    forall c: Id | c < |g.nodes| && Leaving(g.nodes[c].kind) && g.nodes[c].block != g.startBlock
      ensures exists p: Id :: AnchoredAt(g, height, g.nodes[c].block, p)
    {
      var b := g.nodes[c].block;
      assert WellFormedNode(g, c);
      assert !Orphan(g, b);
      var p: Id :| p in Preds(g, b) && p < |g.nodes| && IsControl(g.nodes[p].kind);
      assert Follows(g, b, p) && Follows(g, p, g.nodes[p].block);
      assert AnchoredAt(g, height, b, p);
    }
  }

  /** What every round keeps around an orphan block: only control nodes are marked, its edges not as taken. */
  ghost predicate Orphaned(g: Graph, b: Id, s: State) {
    && Workable(g, s)
    && forall c: Id :: c in s.marks ==>
         c < |g.nodes| && IsControl(g.nodes[c].kind) && (g.nodes[c].block == b ==> !s.marks[c])
  }

  lemma OrphanUnmarked(g: Graph, b: Id, s: State)
    requires Orphaned(g, b, s) && Orphan(g, b)
    ensures !AnyMarked(s.marks, Preds(g, b))
  {
  }

  lemma NextOrphaned(g: Graph, b: Id, s: State)
    requires Orphaned(g, b, s) && Orphan(g, b)
    ensures Orphaned(g, b, Next(g, s))
  {
    if s.queue != [] {
      NextTracks(g, s);
      RestFits(g, s);
      var n, p := s.queue[0], s.(queue := s.queue[1..]);
      VisitStays(g, p, n);
      OrphanUnmarked(g, b, s);
      if IsControl(g.nodes[n].kind) { OrphanVisit(g, b, p, n); } else { OnlyControlMarked(g, p, n); }
    }
  }

  lemma OrphanVisit(g: Graph, b: Id, s: State, n: Id)
    requires Fits(g, s) && Orphan(g, b) && n < |g.nodes| && IsControl(g.nodes[n].kind)
    requires !AnyMarked(s.marks, Preds(g, b)) && (g.nodes[n].block == b ==> !MarkedTrue(s.marks, n))
    ensures g.nodes[n].block == b ==> !MarkedTrue(VisitNode(g, s, n).marks, n)
  {
  }

  lemma StartOrphaned(g: Graph, b: Id, s: State)
    requires Accepts(g) && Started(g, s)
    ensures Orphaned(g, b, s)
  {
    StartWorkable(g, s);
  }

  lemma TwinMayTake(g: Graph, link: seq<Label>, c: Id, d: Id)
    requires Twin(g, c, d) && |link| == |g.nodes| && !MayTake(g, link, c)
    ensures MayTake(g, link, d)
  {
  }

  lemma OrphanEdgeSpins(g: Graph, b: Id, s: State, c: Id)
    requires Orphaned(g, b, s) && Orphan(g, b) && c < |g.nodes| && g.nodes[c].block == b && MayTake(g, s.link, c)
    ensures Spins(g, s, c)
  {
    OrphanUnmarked(g, b, s);
  }

  /** Whatever the comparison of an orphan block says, one of its edges may be taken and spins. */
  lemma OrphanSpins(g: Graph, b: Id, s: State)
    requires Orphaned(g, b, s) && Orphan(g, b) && Paired(g)
    ensures !NoneSpins(g, s)
  {
    var c: Id :| c < |g.nodes| && g.nodes[c].block == b && Leaving(g.nodes[c].kind);
    var d := c;
    if !MayTake(g, s.link, c) {
      d :| Twin(g, c, d);
      TwinMayTake(g, s.link, c, d);
    }
    OrphanEdgeSpins(g, b, s, d);
  }

  /** An orphan block keeps the worklist from ever running empty. */
  lemma OrphanNeverRests(g: Graph, b: Id, s: State)
    requires Accepts(g) && Started(g, s) && Orphan(g, b) && Paired(g)
    ensures !ComesToRest(g, s)
  {
    StartOrphaned(g, b, s);
    var p := t => Orphaned(g, b, t);
    forall t | p(t) ensures p(Next(g, t)) { NextOrphaned(g, b, t); }
    forall n: nat ensures Rounds(g, s, n).queue != [] {
      RoundsInduction(g, s, n, p);
      OrphanSpins(g, b, Rounds(g, s, n));
      if Rounds(g, s, n).queue == [] { RestIsStill(g, Rounds(g, s, n)); }
    }
  }

  /** Main result: on a graph without cycles the pass comes to rest if and only if no block but the start block holds
      a jump or projection without a control node leading to it. */
  lemma LoopFreeRestsExactly(g: Graph, height: Id -> nat, s: State)
    requires Accepts(g) && Started(g, s) && LoopFree(g, height) && Paired(g)
    ensures ComesToRest(g, s) <==> forall b: Id :: !Orphan(g, b)
  {
    if b: Id :| Orphan(g, b) {
      OrphanNeverRests(g, b, s);
    } else {
      LoopFreeLayered(g, height);
      LoopFreeAnchored(g, height);
      LayeredComesToRest(g, height, height, s);
    }
  }
}
