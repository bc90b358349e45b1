/** How many edges lowering adds to a block, and the negations whose value this decides (visitUnaryExpression in
    firm_visitor.cpp). */
module LoweringEdges {
  import opened Wrappers
  import opened Lowering

  /** The edges a condition contributes to the block for that outcome; an edge that is never taken counts as well. */
  function Hits(e: Expr, outcome: bool): nat {
    match e
    case Not(e1) => Hits(e1, !outcome)
    case AndThen(l, r) => if outcome then Hits(r, true) else Hits(l, false) + Hits(r, false)
    case OrElse(l, r) => if outcome then Hits(l, true) + Hits(r, true) else Hits(r, false)
    case _ => 1
  }

  lemma {:induction false} HitsPositive(e: Expr, outcome: bool)
    ensures Hits(e, outcome) > 0
    decreases e
  {
    match e
    case Not(e1) => HitsPositive(e1, !outcome);
    case AndThen(l, r) => HitsPositive(r, outcome);
    case OrElse(l, r) => HitsPositive(r, outcome);
    case _ =>
  }

  lemma {:induction false} SingleHits(e: Expr)
    ensures Hits(e, true) + Hits(e, false) == 2 <==> SingleEdges(e)
    decreases e
  {
    match e
    case Not(e1) => SingleHits(e1);
    case AndThen(l, r) =>
      HitsPositive(l, false);
      HitsPositive(r, true);
      HitsPositive(r, false);
    case OrElse(l, r) =>
      HitsPositive(l, true);
      HitsPositive(r, true);
      HitsPositive(r, false);
    case _ =>
  }

  ghost predicate PredsSame(g: Graph, h: Graph, b: BlockId) {
    b < |g.blocks| && b < |h.blocks| && h.blocks[b].preds == g.blocks[b].preds
  }

  /** What a condition with targets `t` and `f` adds to block `b`. */
  ghost predicate PredsGrow(g: Graph, h: Graph, e: Expr, t: BlockId, f: BlockId, b: BlockId) {
    && b < |g.blocks| && b < |h.blocks|
    && |h.blocks[b].preds| == |g.blocks[b].preds| + (if b == t then Hits(e, true) else 0) + (if b == f then Hits(e, false) else 0)
    && (b != t && b != f ==> PredsSame(g, h, b))
  }

  lemma {:induction false} ValuePreds(g: Graph, e: Expr, b: BlockId)
    requires g.cur < |g.blocks| && b < |g.blocks|
    ensures PredsSame(g, LowerValue(g, e).graph, b)
    decreases e, 3
  {
    match e
    case Assign(_, e1) => ValuePreds(g, e1, b);
    case Prim(_, args) => ValuesPreds(g, args, b);
    case Rel(_, _, _) => RelationPreds(g, e, b);
    case AndThen(_, _) => JunctionValuePreds(g, e, b);
    case OrElse(_, _) => JunctionValuePreds(g, e, b);
    case Not(_) => NegationValuePreds(g, e, b);
    case _ =>
  }

  lemma {:induction false} ValuesPreds(g: Graph, es: seq<Expr>, b: BlockId)
    requires g.cur < |g.blocks| && b < |g.blocks|
    ensures PredsSame(g, LowerValues(g, es).graph, b)
    decreases es, 0
  {
    if es != [] {
      ValuePreds(g, es[0], b);
      ValuesPreds(LowerValue(g, es[0]).graph, es[1..], b);
    }
  }

  lemma {:induction false} RelationPreds(g: Graph, e: Expr, b: BlockId)
    requires g.cur < |g.blocks| && b < |g.blocks| && e.Rel?
    ensures PredsSame(g, LowerRelation(g, e), b)
    decreases e, 0
  {
    ValuePreds(g, e.left, b);
    ValuePreds(LowerValue(g, e.left).graph, e.right, b);
  }

  lemma {:induction false} JunctionValuePreds(g: Graph, e: Expr, b: BlockId)
    requires g.cur < |g.blocks| && b < |g.blocks| && (e.AndThen? || e.OrElse?)
    ensures PredsSame(g, LowerJunctionValue(g, e).graph, b)
    decreases e, 2
  {
    var n := |g.blocks|;
    JunctionPreds(NewBlock(NewBlock(NewBlock(g, []), []), []), e, n, n + 1, n + 2, b);
  }

  lemma {:induction false} NegationValuePreds(g: Graph, e: Expr, b: BlockId)
    requires g.cur < |g.blocks| && b < |g.blocks| && e.Not?
    ensures PredsSame(g, LowerValue(g, e).graph, b)
    decreases e, 2
  {
    NegationPreds(NewBlock(g, []), e, |g.blocks|, b);
  }

  /** Negation as such adds to block `n` what its operand adds for both outcomes. */
  lemma {:induction false} NegationPreds(g: Graph, e: Expr, n: BlockId, b: BlockId)
    requires g.cur < |g.blocks| && n < |g.blocks| && b < |g.blocks| && e.Not?
    ensures PredsGrow(g, LowerNegation(g, e, n), e, n, n, b)
    decreases e, 1
  {
    SingleHits(e);
    if SingleEdges(e) { SamePreds(g, Core(e), n, Negated(e), b); } else { BranchPreds(g, e.e, n, n, b); }
  }

  lemma {:induction false} SamePreds(g: Graph, e: Expr, t: BlockId, flip: bool, b: BlockId)
    requires g.cur < |g.blocks| && t < |g.blocks| && b < |g.blocks| && !e.Not? && !e.AndThen? && !e.OrElse?
    ensures var h := LowerSame(g, e, t, flip);
      b < |h.blocks| && |h.blocks[b].preds| == |g.blocks[b].preds| + (if b == t then 2 else 0) && (b != t ==> PredsSame(g, h, b))
    decreases e, 4
  {
    if e.Rel? {
      RelationPreds(g, e, b);
    } else if !e.BoolLit? {
      ValuePreds(g, e, b);
    }
  }

  lemma {:induction false} JunctionPreds(g: Graph, e: Expr, right: BlockId, t: BlockId, f: BlockId, b: BlockId)
    requires e.AndThen? || e.OrElse?
    requires g.cur < |g.blocks| && t < |g.blocks| && f < |g.blocks| && right < |g.blocks| && b < |g.blocks| && b != right
    ensures PredsGrow(g, LowerJunction(g, e, right, t, f), e, t, f, b)
    decreases e, 1
  {
    var t1, f1 := if e.AndThen? then right else t, if e.AndThen? then f else right;
    BranchPreds(g, e.left, t1, f1, b);
    BranchPreds(SetCur(LowerBranch(g, e.left, t1, f1), right), e.right, t, f, b);
  }

  /** A comparison or the test of a value. */
  lemma {:induction false} LeafPreds(g: Graph, e: Expr, t: BlockId, f: BlockId, b: BlockId)
    requires g.cur < |g.blocks| && t < |g.blocks| && f < |g.blocks| && b < |g.blocks|
    requires !e.AndThen? && !e.OrElse? && !e.Not? && !e.BoolLit?
    ensures PredsGrow(g, LowerBranch(g, e, t, f), e, t, f, b)
    decreases e, 4
  {
    if e.Rel? {
      RelationPreds(g, e, b);
    } else {
      ValuePreds(g, e, b);
    }
  }

  lemma {:induction false} BranchPreds(g: Graph, e: Expr, t: BlockId, f: BlockId, b: BlockId)
    requires g.cur < |g.blocks| && t < |g.blocks| && f < |g.blocks| && b < |g.blocks|
    ensures PredsGrow(g, LowerBranch(g, e, t, f), e, t, f, b)
    decreases e, 5
  {
    if e.AndThen? || e.OrElse? {
      JunctionPreds(NewBlock(g, []), e, |g.blocks|, t, f, b);
    } else if e.Not? {
      if t == f && g.blocks[t].preds == [] && SingleEdges(e) {
        NegationPreds(g, e, t, b);
      } else {
        BranchPreds(g, e.e, f, t, b);
      }
    } else if !e.BoolLit? {
      LeafPreds(g, e, t, f, b);
    }
  }

  // ---- exchanging two edges ----

  /** What visitUnaryExpression does to a target that has exactly two predecessors. */
  function SwapTwo(g: Graph, t: BlockId): Graph
    requires t < |g.blocks|
  {
    var ps := g.blocks[t].preds;
    if |ps| == 2 then g.(blocks := g.blocks[t := g.blocks[t].(preds := [ps[1], ps[0]])]) else g
  }

  lemma AddBothSwaps(g: Graph, t: BlockId, te: Edge, fe: Edge, flip: bool)
    requires t < |g.blocks| && g.blocks[t].preds == []
    ensures SwapTwo(AddBoth(g, t, te, fe, flip), t) == AddBoth(g, t, te, fe, !flip)
  {
    var h, k := AddBoth(g, t, te, fe, flip), AddBoth(g, t, te, fe, !flip);
    assert h.blocks[t].preds == [if flip then fe else te, if flip then te else fe];
    assert k.blocks[t].preds == [if flip then te else fe, if flip then fe else te];
    assert SwapTwo(h, t).blocks == k.blocks;
  }

  lemma SameSwaps(g: Graph, e: Expr, t: BlockId, flip: bool)
    requires g.cur < |g.blocks| && t < |g.blocks| && g.blocks[t].preds == [] && !e.Not? && !e.AndThen? && !e.OrElse?
    ensures SwapTwo(LowerSame(g, e, t, flip), t) == LowerSame(g, e, t, !flip)
  {
    if e.BoolLit? {
      AddBothSwaps(g, t, if e.b then Edge(g.cur, Jmp) else Bad, if e.b then Bad else Edge(g.cur, Jmp), flip);
    } else {
      var c := if e.Rel? then LowerRelation(g, e) else TestValue(LowerValue(g, e).graph, LowerValue(g, e).temp);
      if e.Rel? { RelationPreds(g, e, t); } else { ValuePreds(g, e, t); }
      AddBothSwaps(c, t, Edge(c.cur, ProjTrue), Edge(c.cur, ProjFalse), flip);
    }
  }

  /** Without negations the edge for true comes first. */
  lemma CoreIsSame(g: Graph, e: Expr, t: BlockId)
    requires g.cur < |g.blocks| && t < |g.blocks| && !e.Not? && !e.AndThen? && !e.OrElse?
    ensures LowerBranch(g, e, t, t) == LowerSame(g, e, t, false)
  {
  }

  /** Lowering the operand and exchanging the edges it left, if there are two, lowers the negation. */
  lemma NegationSwaps(g: Graph, e: Expr, t: BlockId)
    requires g.cur < |g.blocks| && t < |g.blocks| && e.Not?
    ensures SwapTwo(LowerBranch(g, e.e, t, t), t) == LowerBranch(g, e, t, t)
  {
    if g.blocks[t].preds == [] && SingleEdges(e) {
      if !e.e.Not? { CoreIsSame(g, e.e, t); }
      SameSwaps(g, Core(e), t, Negated(e.e));
    } else {
      BranchPreds(g, e.e, t, t, t);
      SingleHits(e.e);
      HitsPositive(e.e, true);
      HitsPositive(e.e, false);
    }
  }

  /** In a new block the same holds for the operand of a value. */
  lemma ValueNegationSwaps(g: Graph, e: Expr, n: BlockId)
    requires g.cur < |g.blocks| && n < |g.blocks| && g.blocks[n].preds == [] && e.Not?
    ensures LowerNegation(g, e, n) == LowerBranch(g, e, n, n)
  {
  }

  /** Main result: the phi of a negated value has two operands, and its block has as many predecessors exactly if the
      operand of the negation is no && or ||, further negations aside. */
  lemma NegationFits(g: Graph, e: Expr)
    requires g.cur < |g.blocks| && e.Not?
    ensures var r := LowerValue(g, e);
      var b := r.graph.blocks[r.graph.cur];
      && (|b.preds| == 2 <==> SingleEdges(e.e))
      && b.instrs != [] && b.instrs[|b.instrs|-1].Phi? && b.instrs[|b.instrs|-1].dst == r.temp && |b.instrs[|b.instrs|-1].args| == 2
  {
    var n := |g.blocks|;
    NegationPreds(NewBlock(g, []), e, n, n);
    SingleHits(e.e);
  }
}
