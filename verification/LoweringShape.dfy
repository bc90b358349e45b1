/** How lowering extends a graph: it only appends, writes only to the current block and to blocks it creates, and
    leaves every block through edges of its own. */
module LoweringShape {
  import opened Wrappers
  import opened Lowering

  /** No control edge occurs twice. */
  ghost predicate EdgesUnique(g: Graph) {
    forall t: BlockId, i: nat, u: BlockId, j: nat, b: BlockId, k ::
      HasEdge(g, t, i, Edge(b, k)) && HasEdge(g, u, j, Edge(b, k)) ==> t == u && i == j
  }

  ghost predicate SourcesExist(g: Graph) {
    forall t: BlockId, i: nat, b: BlockId, k :: HasEdge(g, t, i, Edge(b, k)) ==> b < |g.blocks|
  }

  ghost predicate Ok(g: Graph) { g.cur < |g.blocks| && 0 < |g.blocks| && EdgesUnique(g) && SourcesExist(g) }

  /** The block has no exit yet. */
  ghost predicate Open(g: Graph, b: BlockId) {
    b < |g.blocks| && g.blocks[b].cond.None? && forall t: BlockId, i: nat, k :: !HasEdge(g, t, i, Edge(b, k))
  }

  ghost predicate BlockKept(a: BasicBlock, b: BasicBlock) { a.preds <= b.preds && a.instrs == b.instrs && a.cond == b.cond }

  ghost predicate BlockGrows(a: BasicBlock, b: BasicBlock) {
    a.preds <= b.preds && a.instrs <= b.instrs && (a.cond.Some? ==> b.cond == a.cond)
  }

  /** `h` continues `g`. */
  ghost predicate Grows(g: Graph, h: Graph) {
    && |g.blocks| <= |h.blocks| && g.temps <= h.temps
    && (forall b: BlockId :: b < |g.blocks| ==> BlockGrows(g.blocks[b], h.blocks[b]))
    && (forall b: BlockId :: b < |g.blocks| && b != g.cur ==> BlockKept(g.blocks[b], h.blocks[b]))
    && (forall t: BlockId, i: nat, b: BlockId, k :: HasEdge(h, t, i, Edge(b, k)) && !HasEdge(g, t, i, Edge(b, k)) ==>
          b == g.cur || b >= |g.blocks|)
  }

  /** Where a continuation may work. */
  ghost predicate Onward(g: Graph, h: Graph) { h.cur == g.cur || h.cur >= |g.blocks| }

  lemma GrowsTrans(g: Graph, h: Graph, k: Graph)
    requires Grows(g, h) && Grows(h, k) && Onward(g, h)
    ensures Grows(g, k)
  {
    forall t: BlockId, i: nat, b: BlockId, kind | HasEdge(k, t, i, Edge(b, kind)) && !HasEdge(g, t, i, Edge(b, kind))
      ensures b == g.cur || b >= |g.blocks|
    {
      if HasEdge(h, t, i, Edge(b, kind)) {}
    }
  }

  lemma EdgesKept(g: Graph, h: Graph, t: BlockId, i: nat, e: Edge)
    requires Grows(g, h) && HasEdge(g, t, i, e)
    ensures HasEdge(h, t, i, e)
  {
    assert BlockGrows(g.blocks[t], h.blocks[t]);
  }

  lemma OpenKept(g: Graph, h: Graph, b: BlockId)
    requires Grows(g, h) && Open(g, b) && b != g.cur
    ensures Open(h, b)
  {
    assert BlockKept(g.blocks[b], h.blocks[b]);
    forall t: BlockId, i: nat, k ensures !HasEdge(h, t, i, Edge(b, k)) {
      assert !HasEdge(g, t, i, Edge(b, k));
    }
  }

  // ---- primitives ----

  /** Nothing but the current block's instructions and condition changes. */
  lemma SameEdges(g: Graph, h: Graph)
    requires |h.blocks| == |g.blocks| && h.cur < |h.blocks|
    requires forall b: BlockId :: b < |g.blocks| ==> h.blocks[b].preds == g.blocks[b].preds
    ensures forall t: BlockId, i: nat, e :: HasEdge(h, t, i, e) == HasEdge(g, t, i, e)
    ensures Ok(g) ==> Ok(h)
  {
    assert forall t: BlockId, i: nat, e :: HasEdge(h, t, i, e) == HasEdge(g, t, i, e);
  }

  lemma EmitShape(g: Graph, i: Instr)
    requires Ok(g) && Open(g, g.cur)
    ensures var h := Emit(g, i); Ok(h) && Open(h, h.cur) && Grows(g, h) && h.cur == g.cur && h.temps == g.temps + 1
  {
    SameEdges(g, Emit(g, i));
  }

  lemma SetCondShape(g: Graph, c: Cond)
    requires Ok(g) && Open(g, g.cur)
    ensures var h := SetCond(g, c); Ok(h) && Grows(g, h) && h.cur == g.cur && forall t: BlockId, i: nat, k :: !HasEdge(h, t, i, Edge(g.cur, k))
  {
    SameEdges(g, SetCond(g, c));
  }

  lemma SetCurShape(g: Graph, b: BlockId)
    requires Ok(g) && b < |g.blocks|
    ensures Ok(SetCur(g, b)) && (forall c: BlockId :: Open(g, c) ==> Open(SetCur(g, b), c))
  {
    SameEdges(g, SetCur(g, b));
    forall c: BlockId | Open(g, c) ensures Open(SetCur(g, b), c) {
      forall t: BlockId, i: nat, k ensures !HasEdge(SetCur(g, b), t, i, Edge(c, k)) { assert !HasEdge(g, t, i, Edge(c, k)); }
    }
  }

  /** Blocks a new edge leads to, with what they had before. */
  lemma AddPredEdges(g: Graph, t: BlockId, e: Edge)
    requires t < |g.blocks|
    ensures var h := AddPred(g, t, e);
      forall u: BlockId, i: nat, d :: HasEdge(h, u, i, d) <==> HasEdge(g, u, i, d) || (u == t && i == |g.blocks[t].preds| && d == e)
  {
  }

  lemma AddPredShape(g: Graph, t: BlockId, e: Edge)
    requires Ok(g) && t < |g.blocks|
    requires e.Edge? ==> e.source == g.cur && forall u: BlockId, i: nat :: !HasEdge(g, u, i, e)
    ensures var h := AddPred(g, t, e); Ok(h) && Grows(g, h) && h.cur == g.cur && HasEdge(h, t, |g.blocks[t].preds|, e)
  {
    AddPredEdges(g, t, e);
  }

  lemma NewBlockEdges(g: Graph, preds: seq<Edge>)
    ensures var h := NewBlock(g, preds);
      forall u: BlockId, i: nat, d :: HasEdge(h, u, i, d) <==> HasEdge(g, u, i, d) || (u == |g.blocks| && i < |preds| && d == preds[i])
  {
  }

  lemma NewBlockShape(g: Graph, preds: seq<Edge>)
    requires Ok(g) && (preds == [] || (preds == [Edge(g.cur, Jmp)] && Open(g, g.cur)))
    ensures var h := NewBlock(g, preds);
      && Ok(h) && Grows(g, h) && h.cur == g.cur && Open(h, |g.blocks|) && (preds == [] ==> forall b: BlockId :: Open(g, b) ==> Open(h, b))
  {
    NewBlockEdges(g, preds);
    assert forall i: nat :: i < |preds| ==> preds[i] == Edge(g.cur, Jmp);
    var h := NewBlock(g, preds);
    assert forall t: BlockId, i: nat, k :: !HasEdge(g, t, i, Edge(|g.blocks|, k));
  }

  /** A block that ends in a condition. */
  lemma ProjectShape(g: Graph, c: Cond, t: BlockId, f: BlockId)
    requires Ok(g) && Open(g, g.cur) && t < |g.blocks| && f < |g.blocks|
    ensures var h := Project(SetCond(g, c), t, f);
      && Ok(h) && Grows(g, h) && h.cur == g.cur && |h.blocks| == |g.blocks|
      && h.blocks[g.cur].cond == Some(c) && h.blocks[g.cur].instrs == g.blocks[g.cur].instrs
      && (exists i: nat :: HasEdge(h, t, i, Edge(g.cur, ProjTrue))) && (exists i: nat :: HasEdge(h, f, i, Edge(g.cur, ProjFalse)))
  {
    SetCondShape(g, c);
    var g1 := SetCond(g, c);
    AddPredShape(g1, t, Edge(g.cur, ProjTrue));
    var g2 := AddPred(g1, t, Edge(g.cur, ProjTrue));
    AddPredEdges(g1, t, Edge(g.cur, ProjTrue));
    AddPredShape(g2, f, Edge(g.cur, ProjFalse));
    var g3 := AddPred(g2, f, Edge(g.cur, ProjFalse));
    EdgesKept(g2, g3, t, |g1.blocks[t].preds|, Edge(g.cur, ProjTrue));
    GrowsTrans(g, g1, g2);
    GrowsTrans(g, g2, g3);
  }

  function BothEdges(trueEdge: Edge, falseEdge: Edge, flip: bool): seq<Edge> {
    if flip then [falseEdge, trueEdge] else [trueEdge, falseEdge]
  }

  /** Both edges of a finished block into one block. */
  lemma AddBothShape(g: Graph, t: BlockId, te: Edge, fe: Edge, flip: bool)
    requires Ok(g) && t < |g.blocks| && te != fe
    requires forall e :: e in [te, fe] && e.Edge? ==> e.source == g.cur && forall u: BlockId, i: nat :: !HasEdge(g, u, i, e)
    ensures var h := AddBoth(g, t, te, fe, flip); Ok(h) && Grows(g, h) && h.blocks[t].preds == g.blocks[t].preds + BothEdges(te, fe, flip)
  {
    var a, b := if flip then fe else te, if flip then te else fe;
    assert a in [te, fe] && b in [te, fe];
    var g1 := AddPred(g, t, a);
    AddPredShape(g, t, a);
    AddPredEdges(g, t, a);
    AddPredShape(g1, t, b);
    GrowsTrans(g, g1, AddPred(g1, t, b));
  }

  /** A block that ends in a condition both of whose outcomes lead to one block. */
  lemma BothShape(g: Graph, c: Cond, t: BlockId, flip: bool)
    requires Ok(g) && Open(g, g.cur) && t < |g.blocks|
    ensures var te, fe := Edge(g.cur, ProjTrue), Edge(g.cur, ProjFalse);
      var h := AddBoth(SetCond(g, c), t, te, fe, flip);
      && Ok(h) && Grows(g, h) && h.blocks[g.cur].cond == Some(c) && h.blocks[g.cur].instrs == g.blocks[g.cur].instrs
      && h.blocks[t].preds == g.blocks[t].preds + BothEdges(te, fe, flip)
  {
    SetCondShape(g, c);
    var g1 := SetCond(g, c);
    AddBothShape(g1, t, Edge(g.cur, ProjTrue), Edge(g.cur, ProjFalse), flip);
    GrowsTrans(g, g1, AddBoth(g1, t, Edge(g.cur, ProjTrue), Edge(g.cur, ProjFalse), flip));
  }

  lemma JmpShape(g: Graph, t: BlockId)
    requires Ok(g) && Open(g, g.cur) && t < |g.blocks|
    ensures var h := AddPred(g, t, Edge(g.cur, Jmp));
      && Ok(h) && Grows(g, h) && h.cur == g.cur && |h.blocks| == |g.blocks|
      && h.blocks[g.cur].cond == None && h.blocks[g.cur].instrs == g.blocks[g.cur].instrs
      && HasEdge(h, t, |g.blocks[t].preds|, Edge(g.cur, Jmp))
  {
    AddPredShape(g, t, Edge(g.cur, Jmp));
  }

  // ---- expressions ----

  ghost predicate Continues(g: Graph, h: Graph) { Ok(h) && Grows(g, h) && Onward(g, h) }

  lemma ContinuesTrans(g: Graph, h: Graph, k: Graph)
    requires Continues(g, h) && Continues(h, k)
    ensures Continues(g, k)
  {
    GrowsTrans(g, h, k);
  }

  /** The edge leaves the current block of `g0` or a block created since. */
  ghost predicate Unused(g0: Graph, g: Graph, e: Edge) {
    && e.Edge? && e.source < |g.blocks| && (e.source == g0.cur || e.source >= |g0.blocks|)
    && forall t: BlockId, i: nat :: !HasEdge(g, t, i, e)
  }

  lemma JoinBlockShape(g0: Graph, g: Graph, fe: Edge, te: Edge)
    requires Ok(g) && Grows(g0, g) && Unused(g0, g, fe) && Unused(g0, g, te) && fe != te
    ensures var h := SetCur(NewBlock(g, [fe, te]), |g.blocks|); Continues(g0, h) && Open(h, h.cur)
  {
    var h := SetCur(NewBlock(g, [fe, te]), |g.blocks|);
    NewBlockEdges(g, [fe, te]);
    SameEdges(NewBlock(g, [fe, te]), h);
    forall t: BlockId, i: nat, k ensures !HasEdge(h, t, i, Edge(h.cur, k)) {
      assert !HasEdge(g, t, i, Edge(h.cur, k));
    }
  }

  lemma JoinShape(g0: Graph, g: Graph, fe: Edge, te: Edge)
    requires Ok(g) && Grows(g0, g) && Unused(g0, g, fe) && Unused(g0, g, te) && fe != te
    ensures var r := JoinBoolean(g, fe, te); Continues(g0, r.graph) && Open(r.graph, r.graph.cur) && r.temp < r.graph.temps
  {
    JoinBlockShape(g0, g, fe, te);
    var g1 := SetCur(NewBlock(g, [fe, te]), |g.blocks|);
    EmitShape(g1, Constant(g1.temps, 0));
    var g2 := Emit(g1, Constant(g1.temps, 0));
    ContinuesTrans(g0, g1, g2);
    EmitShape(g2, Constant(g2.temps, 1));
    var g3 := Emit(g2, Constant(g2.temps, 1));
    ContinuesTrans(g0, g2, g3);
    EmitShape(g3, Phi(g3.temps, [g1.temps, g2.temps]));
    ContinuesTrans(g0, g3, Emit(g3, Phi(g3.temps, [g1.temps, g2.temps])));
  }

  lemma {:induction false} ValueShape(g: Graph, e: Expr)
    requires Ok(g) && Open(g, g.cur)
    ensures var r := LowerValue(g, e); Continues(g, r.graph) && Open(r.graph, r.graph.cur) && r.temp < r.graph.temps
    decreases e, 3
  {
    if e.IntLit? {
      EmitShape(g, Constant(g.temps, e.n));
    } else if e.BoolLit? {
      EmitShape(g, Constant(g.temps, Bit(e.b)));
    } else if e.VarRef? {
      EmitShape(g, ReadVar(g.temps, e.x));
    } else if e.Assign? {
      ValueShape(g, e.e);
      var r := LowerValue(g, e.e);
      EmitShape(r.graph, WriteVar(e.x, r.temp));
      ContinuesTrans(g, r.graph, Emit(r.graph, WriteVar(e.x, r.temp)));
    } else if e.Prim? {
      ValuesShape(g, e.args);
      var r := LowerValues(g, e.args);
      var i := Perform(r.graph.temps, e.op, r.temps);
      EmitShape(r.graph, i);
      ContinuesTrans(g, r.graph, Emit(r.graph, i));
    } else if e.Rel? {
      RelationValueShape(g, e);
    } else if e.Not? {
      NegationValueShape(g, e);
    } else {
      JunctionValueShape(g, e);
    }
  }

  lemma {:induction false} ValuesShape(g: Graph, es: seq<Expr>)
    requires Ok(g) && Open(g, g.cur)
    ensures var r := LowerValues(g, es);
      Continues(g, r.graph) && Open(r.graph, r.graph.cur) && |r.temps| == |es| && forall t :: t in r.temps ==> t < r.graph.temps
    decreases es, 0
  {
    if es != [] {
      ValueShape(g, es[0]);
      var a := LowerValue(g, es[0]);
      ValuesShape(a.graph, es[1..]);
      ContinuesTrans(g, a.graph, LowerValues(a.graph, es[1..]).graph);
    }
  }

  lemma {:induction false} OperandsShape(g: Graph, e: Expr)
    requires Ok(g) && Open(g, g.cur) && e.Rel?
    ensures var a := LowerValue(g, e.left);
      var b := LowerValue(a.graph, e.right);
      && Ok(a.graph) && Open(a.graph, a.graph.cur) && Grows(a.graph, b.graph) && a.temp < a.graph.temps
      && Continues(g, b.graph) && Open(b.graph, b.graph.cur)
    decreases e, 0
  {
    ValueShape(g, e.left);
    var a := LowerValue(g, e.left);
    ValueShape(a.graph, e.right);
    ContinuesTrans(g, a.graph, LowerValue(a.graph, e.right).graph);
  }

  lemma {:induction false} RelationValueShape(g: Graph, e: Expr)
    requires Ok(g) && Open(g, g.cur) && e.Rel?
    ensures var r := LowerValue(g, e); Continues(g, r.graph) && Open(r.graph, r.graph.cur) && r.temp < r.graph.temps
    decreases e, 1
  {
    OperandsShape(g, e);
    var a := LowerValue(g, e.left);
    var b := LowerValue(a.graph, e.right);
    var c := SetCond(b.graph, Cond(e.rel, a.temp, b.temp));
    SetCondShape(b.graph, Cond(e.rel, a.temp, b.temp));
    ContinuesTrans(g, b.graph, c);
    JoinShape(g, c, Edge(c.cur, ProjFalse), Edge(c.cur, ProjTrue));
  }

  /** The state before the condition both of whose outcomes lead to one block: a comparison or the test of a value. */
  function Condition(g: Graph, e: Expr): (Graph, Cond)
    requires g.cur < |g.blocks| && !e.Not? && !e.AndThen? && !e.OrElse? && !e.BoolLit?
  {
    if e.Rel? then
      var a := LowerValue(g, e.left);
      var b := LowerValue(a.graph, e.right);
      (b.graph, Cond(e.rel, a.temp, b.temp))
    else
      var r := LowerValue(g, e);
      (Emit(r.graph, Constant(r.graph.temps, 0)), Cond(NotEqual, r.temp, r.graph.temps))
  }

  lemma {:induction false} ConditionShape(g: Graph, e: Expr)
    requires Ok(g) && Open(g, g.cur) && !e.Not? && !e.AndThen? && !e.OrElse? && !e.BoolLit?
    ensures var (b, c) := Condition(g, e); Continues(g, b) && Open(b, b.cur)
    decreases e, 4, 0
  {
    if e.Rel? {
      OperandsShape(g, e);
    } else {
      ValueShape(g, e);
      var r := LowerValue(g, e);
      EmitShape(r.graph, Constant(r.graph.temps, 0));
      ContinuesTrans(g, r.graph, Condition(g, e).0);
    }
  }

  lemma SameIsBoth(g: Graph, e: Expr, t: BlockId, flip: bool)
    requires g.cur < |g.blocks| && !e.Not? && !e.AndThen? && !e.OrElse? && !e.BoolLit? && t < |g.blocks|
    ensures var (b, c) := Condition(g, e);
      && b.cur < |b.blocks| && |g.blocks| <= |b.blocks|
      && LowerSame(g, e, t, flip) == AddBoth(SetCond(b, c), t, Edge(b.cur, ProjTrue), Edge(b.cur, ProjFalse), flip)
  {
  }

  lemma {:induction false} SameShape(g: Graph, e: Expr, t: BlockId, flip: bool)
    requires Ok(g) && Open(g, g.cur) && t < |g.blocks| && !e.Not? && !e.AndThen? && !e.OrElse?
    ensures var h := LowerSame(g, e, t, flip); Ok(h) && Grows(g, h)
    decreases e, 4, 1
  {
    if e.BoolLit? {
      AddBothShape(g, t, if e.b then Edge(g.cur, Jmp) else Bad, if e.b then Bad else Edge(g.cur, Jmp), flip);
    } else {
      var (b, c) := Condition(g, e);
      ConditionShape(g, e);
      SameIsBoth(g, e, t, flip);
      BothShape(b, c, t, flip);
      GrowsTrans(g, b, LowerSame(g, e, t, flip));
    }
  }

  lemma {:induction false} NegationShape(g: Graph, e: Expr, n: BlockId)
    requires Ok(g) && Open(g, g.cur) && n < |g.blocks| && e.Not?
    ensures var h := LowerNegation(g, e, n); Ok(h) && Grows(g, h)
    decreases e, 1, 0
  {
    if SingleEdges(e) { SameShape(g, Core(e), n, Negated(e)); } else { BranchShape(g, e.e, n, n); }
  }

  lemma NotPhiShape(g: Graph)
    requires Ok(g) && Open(g, g.cur)
    ensures var r := NotPhi(g); Continues(g, r.graph) && Open(r.graph, r.graph.cur) && r.temp < r.graph.temps
  {
    EmitShape(g, Constant(g.temps, 1));
    var g2 := Emit(g, Constant(g.temps, 1));
    EmitShape(g2, Constant(g2.temps, 0));
    var g3 := Emit(g2, Constant(g2.temps, 0));
    ContinuesTrans(g, g2, g3);
    EmitShape(g3, Phi(g3.temps, [g.temps, g2.temps]));
    ContinuesTrans(g, g3, Emit(g3, Phi(g3.temps, [g.temps, g2.temps])));
  }

  /** The new block, before anything is in it. */
  lemma {:induction false} NegationBlock(g: Graph, e: Expr)
    requires Ok(g) && Open(g, g.cur) && e.Not?
    ensures var n, g1 := |g.blocks|, NewBlock(g, []);
      var h := SetCur(LowerNegation(g1, e, n), n);
      && Ok(g1) && Open(g1, g1.cur) && Continues(g, h) && Open(h, h.cur) && Grows(g1, h) && h.blocks[n].instrs == []
    decreases e, 1, 1
  {
    var n, g1 := |g.blocks|, NewBlock(g, []);
    NewBlockShape(g, []);
    NegationShape(g1, e, n);
    var h := LowerNegation(g1, e, n);
    OpenKept(g1, h, n);
    SetCurShape(h, n);
    GrowsTrans(g, g1, SetCur(h, n));
  }

  lemma {:induction false} NegationValueShape(g: Graph, e: Expr)
    requires Ok(g) && Open(g, g.cur) && e.Not?
    ensures var r := LowerValue(g, e); Continues(g, r.graph) && Open(r.graph, r.graph.cur) && r.temp < r.graph.temps
    decreases e, 2
  {
    NegationBlock(g, e);
    var h := SetCur(LowerNegation(NewBlock(g, []), e, |g.blocks|), |g.blocks|);
    NotPhiShape(h);
    ContinuesTrans(g, h, NotPhi(h).graph);
  }

  /** The blocks `t`, `f` and `right` are targets, not the current block. */
  lemma {:induction false} JunctionShape(g: Graph, e: Expr, right: BlockId, t: BlockId, f: BlockId)
    requires Ok(g) && Open(g, g.cur) && (e.AndThen? || e.OrElse?)
    requires Open(g, right) && right != g.cur && t < |g.blocks| && f < |g.blocks|
    ensures var h := LowerJunction(g, e, right, t, f);
      var g1 := SetCur(LowerBranch(g, e.left, if e.AndThen? then right else t, if e.AndThen? then f else right), right);
      && Ok(g1) && Open(g1, right) && Grows(g, g1) && Grows(g1, h) && Ok(h)
      && forall b: BlockId :: b < |g.blocks| && b != g.cur && b != right && Open(g, b) ==> Open(h, b)
    decreases e, 0
  {
    BranchShape(g, e.left, if e.AndThen? then right else t, if e.AndThen? then f else right);
    var g0 := LowerBranch(g, e.left, if e.AndThen? then right else t, if e.AndThen? then f else right);
    OpenKept(g, g0, right);
    SetCurShape(g0, right);
    var g1 := SetCur(g0, right);
    BranchShape(g1, e.right, t, f);
    var h := LowerBranch(g1, e.right, t, f);
    forall b: BlockId | b < |g.blocks| && b != g.cur && b != right && Open(g, b) ensures Open(h, b) {
      OpenKept(g, g0, b);
      OpenKept(g1, h, b);
    }
  }

  lemma {:induction false} JunctionValueShape(g: Graph, e: Expr)
    requires Ok(g) && Open(g, g.cur) && (e.AndThen? || e.OrElse?)
    ensures var r := LowerValue(g, e); Continues(g, r.graph) && Open(r.graph, r.graph.cur) && r.temp < r.graph.temps
    decreases e, 2
  {
    var n := |g.blocks|;
    var g3 := NewBlock(NewBlock(NewBlock(g, []), []), []);
    ThreeBlocks(g);
    JunctionWhole(g, g3, e, n, n + 1, n + 2);
    var h := LowerJunction(g3, e, n, n + 1, n + 2);
    JunctionTargets(g3, e, n, n + 1, n + 2);
    JoinShape(g, h, Edge(n + 2, Jmp), Edge(n + 1, Jmp));
  }

  /** The targets of a junction can still be given an exit. */
  lemma {:induction false} JunctionTargets(g: Graph, e: Expr, right: BlockId, t: BlockId, f: BlockId)
    requires Ok(g) && Open(g, g.cur) && (e.AndThen? || e.OrElse?) && Open(g, right) && right != g.cur
    requires Open(g, t) && Open(g, f) && t != g.cur && f != g.cur && t != right && f != right
    ensures var h := LowerJunction(g, e, right, t, f); Open(h, t) && Open(h, f)
    decreases e, 1
  {
    JunctionShape(g, e, right, t, f);
  }

  lemma ThreeBlocks(g: Graph)
    requires Ok(g) && Open(g, g.cur)
    ensures var g3 := NewBlock(NewBlock(NewBlock(g, []), []), []); var n := |g.blocks|;
      Continues(g, g3) && Open(g3, g3.cur) && Open(g3, n) && Open(g3, n + 1) && Open(g3, n + 2) && g3.cur == g.cur
  {
    NewBlockShape(g, []);
    var g1 := NewBlock(g, []);
    NewBlockShape(g1, []);
    var g2 := NewBlock(g1, []);
    NewBlockShape(g2, []);
    ContinuesTrans(g, g1, g2);
    ContinuesTrans(g, g2, NewBlock(g2, []));
  }

  /** The junction as a continuation of a graph that lacks the block of its right operand. */
  lemma {:induction false} JunctionWhole(g: Graph, g1: Graph, e: Expr, right: BlockId, t: BlockId, f: BlockId)
    requires Ok(g1) && Open(g1, g1.cur) && (e.AndThen? || e.OrElse?) && Open(g1, right) && t < |g1.blocks| && f < |g1.blocks|
    requires Grows(g, g1) && g1.cur == g.cur && g.cur < |g.blocks| <= right
    ensures Ok(LowerJunction(g1, e, right, t, f)) && Grows(g, LowerJunction(g1, e, right, t, f))
    decreases e, 1
  {
    JunctionShape(g1, e, right, t, f);
    var g2 := SetCur(LowerBranch(g1, e.left, if e.AndThen? then right else t, if e.AndThen? then f else right), right);
    GrowsTrans(g, g1, g2);
    GrowsTrans(g, g2, LowerJunction(g1, e, right, t, f));
  }

  lemma {:induction false} BranchShape(g: Graph, e: Expr, t: BlockId, f: BlockId)
    requires Ok(g) && Open(g, g.cur) && t < |g.blocks| && f < |g.blocks|
    ensures var h := LowerBranch(g, e, t, f); Ok(h) && Grows(g, h)
    decreases e, 4
  {
    if e.BoolLit? {
      LiteralShape(g, e.b, t, f);
    } else if e.Not? {
      if t == f && g.blocks[t].preds == [] && SingleEdges(e) {
        SameShape(g, Core(e), t, Negated(e));
      } else {
        BranchShape(g, e.e, f, t);
      }
    } else if e.Rel? {
      RelationBranchShape(g, e, t, f);
    } else if e.AndThen? || e.OrElse? {
      NewBlockShape(g, []);
      JunctionWhole(g, NewBlock(g, []), e, |g.blocks|, t, f);
    } else {
      ValueShape(g, e);
      var r := LowerValue(g, e);
      TestShape(r.graph, r.temp, t, f);
      GrowsTrans(g, r.graph, LowerBranch(g, e, t, f));
    }
  }

  lemma {:induction false} RelationBranchShape(g: Graph, e: Expr, t: BlockId, f: BlockId)
    requires Ok(g) && Open(g, g.cur) && t < |g.blocks| && f < |g.blocks| && e.Rel?
    ensures var h := LowerBranch(g, e, t, f); Ok(h) && Grows(g, h)
    decreases e, 1
  {
    OperandsShape(g, e);
    var a := LowerValue(g, e.left);
    var b := LowerValue(a.graph, e.right);
    var c := Cond(e.rel, a.temp, b.temp);
    ProjectShape(b.graph, c, t, f);
    assert LowerBranch(g, e, t, f) == Project(SetCond(b.graph, c), t, f);
    GrowsTrans(g, b.graph, Project(SetCond(b.graph, c), t, f));
  }

  lemma LiteralShape(g: Graph, b: bool, t: BlockId, f: BlockId)
    requires Ok(g) && Open(g, g.cur) && t < |g.blocks| && f < |g.blocks|
    ensures var h := LowerBranch(g, BoolLit(b), t, f);
      && Ok(h) && Grows(g, h) && h.cur == g.cur && |h.blocks| == |g.blocks|
      && h.blocks[g.cur].cond == None && h.blocks[g.cur].instrs == g.blocks[g.cur].instrs
      && var u := if b then t else f; exists i: nat :: HasEdge(h, u, i, Edge(g.cur, Jmp))
  {
    if b {
      JmpShape(g, t);
      var g1 := AddPred(g, t, Edge(g.cur, Jmp));
      AddPredShape(g1, f, Bad);
      GrowsTrans(g, g1, AddPred(g1, f, Bad));
      EdgesKept(g1, AddPred(g1, f, Bad), t, |g.blocks[t].preds|, Edge(g.cur, Jmp));
    } else {
      AddPredShape(g, t, Bad);
      var g1 := AddPred(g, t, Bad);
      AddPredEdges(g, t, Bad);
      JmpShape(g1, f);
      GrowsTrans(g, g1, AddPred(g1, f, Edge(g.cur, Jmp)));
    }
  }

  lemma TestShape(g: Graph, v: Temp, t: BlockId, f: BlockId)
    requires Ok(g) && Open(g, g.cur) && t < |g.blocks| && f < |g.blocks|
    ensures Ok(TestBoolean(g, v, t, f)) && Grows(g, TestBoolean(g, v, t, f))
  {
    var i := Constant(g.temps, 0);
    EmitShape(g, i);
    var g1 := Emit(g, i);
    ProjectShape(g1, Cond(NotEqual, v, g.temps), t, f);
    GrowsTrans(g, g1, TestBoolean(g, v, t, f));
  }
}
