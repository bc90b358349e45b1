/** How much constant propagation (const_prop_pass.hpp) finds: labels are no vaguer than the operands make them, and
    substitution leaves no operation on constants behind. */
module ConstPropExact {
  import opened Wrappers
  import opened FirmGraph
  import opened ConstProp
  import opened ConstPropInvariant
  import opened ConstPropRest
  import opened ConstPropSound
  import opened ConstPropSubst

  // ---- what a label has to say ----

  /** The label of an operation that yields `result` on the labels of two operands: a value on two constants, nothing
      known yet while an operand is unknown, and bad only for a reason. */
  predicate Folds(val: Label, l: Label, r: Label, result: Option<Value>) {
    && (l.Known? && r.Known? && result.Some? ==> val == Known(result.value))
    && (val == BadLabel ==> l == BadLabel || r == BadLabel || (l.Known? && r.Known? && result.None?))
    && (val == Unknown ==> l != BadLabel && r != BadLabel && (l == Unknown || r == Unknown))
    && (val.Known? ==> l.Known? && r.Known? && result == Some(val.value))
  }

  function OnArith(op: ArithOp, l: Label, r: Label): Option<Value> {
    if l.Known? && r.Known? then EvalArith(op, l.value, r.value) else None
  }

  function OnUnary(op: UnaryOp, l: Label): Option<Value> { if l.Known? then EvalUnary(op, l.value) else None }

  function OnCmp(rel: Relation, l: Label, r: Label): Option<Value> {
    if l.Known? && r.Known? then EvalCmp(rel, l.value, r.value) else None
  }

  function LabelOf(link: seq<Label>, n: Id): Label { if n < |link| then link[n] else BadLabel }

  /** The label of an operation fits the labels of its operands exactly. */
  predicate Exact(g: Graph, link: seq<Label>, n: Id) {
    n < |g.nodes| ==>
      var val := LabelOf(link, n);
      match g.nodes[n].kind
      case Arith(op, l, r, _) => Folds(val, LabelOf(link, l), LabelOf(link, r), OnArith(op, LabelOf(link, l), LabelOf(link, r)))
      case Unary(op, x) => Folds(val, LabelOf(link, x), LabelOf(link, x), OnUnary(op, LabelOf(link, x)))
      case Cmp(rel, l, r) => Folds(val, LabelOf(link, l), LabelOf(link, r), OnCmp(rel, LabelOf(link, l), LabelOf(link, r)))
      case ProjRes(p) => val == LabelOf(link, p)
      case _ => true
  }

  /** Every operation waits or is labelled exactly. */
  ghost predicate ExactKept(g: Graph, s: State) { forall n: Id :: n in s.queue || Exact(g, s.link, n) }

  // ---- every visit keeps it ----

  /** Operations on values other than phis. */
  predicate Operates(k: Kind) { k.Arith? || k.Unary? || k.Cmp? || k.ProjRes? }

  lemma ExactFrame(g: Graph, link: seq<Label>, link': seq<Label>, n: Id)
    requires Exact(g, link, n) && LabelOf(link', n) == LabelOf(link, n)
    requires n < |g.nodes| ==> forall q: Id :: q in Operands(g.nodes[n].kind) ==> LabelOf(link', q) == LabelOf(link, q)
    ensures Exact(g, link', n)
  {
    if n < |g.nodes| {
      var k := g.nodes[n].kind;
      if k.Arith? {
        assert k.left in Operands(k) && k.right in Operands(k);
      } else if k.Unary? {
        assert k.operand in Operands(k);
      } else if k.Cmp? {
        assert k.cleft in Operands(k) && k.cright in Operands(k);
      } else if k.ProjRes? {
        assert k.pred in Operands(k);
      }
    }
  }

  lemma NewLabelExact(g: Graph, s: State, n: Id, link: seq<Label>)
    requires Fits(g, s) && n < |g.nodes| && Operates(g.nodes[n].kind) && LabelOf(link, n) == NewLabel(g, s, n)
    requires forall q: Id :: q in Operands(g.nodes[n].kind) ==> LabelOf(link, q) == LabelOf(s.link, q)
    ensures Exact(g, link, n)
  {
    assert WellFormedNode(g, n);
    var k := g.nodes[n].kind;
    if k.Arith? {
      assert k.left in Operands(k) && k.right in Operands(k);
    } else if k.Unary? {
      assert k.operand in Operands(k);
    } else if k.Cmp? {
      assert k.cleft in Operands(k) && k.cright in Operands(k);
    } else {
      assert k.pred in Operands(k);
    }
  }

  /** An operation is not its own operand. */
  lemma NotOwnOperand(g: Graph, n: Id)
    requires WellFormed(g) && n < |g.nodes| && Operates(g.nodes[n].kind)
    ensures n !in Operands(g.nodes[n].kind)
  {
    if n in Operands(g.nodes[n].kind) { assert Uses(g, n, n); }
  }

  lemma VisitedIsExact(g: Graph, s: State, n: Id)
    requires Fits(g, s) && n < |g.nodes|
    ensures Exact(g, VisitNode(g, s, n).link, n)
  {
    if Operates(g.nodes[n].kind) {
      NotOwnOperand(g, n);
      var t := VisitNode(g, s, n);
      assert t.link == s.link[n := NewLabel(g, s, n)];
      NewLabelExact(g, s, n, t.link);
    }
  }

  lemma OtherStaysExact(g: Graph, s: State, n: Id, t: State, m: Id)
    requires Fits(g, s) && VisitFrame(g, s, n, t) && n < |g.nodes| && m != n && Exact(g, s.link, m)
    ensures m in t.queue || Exact(g, t.link, m)
  {
    if m !in t.queue {
      if m < |g.nodes| {
        forall q: Id | q in Operands(g.nodes[m].kind) ensures LabelOf(t.link, q) == LabelOf(s.link, q) {
          if q == n { assert Uses(g, m, n); }
        }
      }
      ExactFrame(g, s.link, t.link, m);
    }
  }

  lemma RoundKeepsExact(g: Graph, s: State)
    requires Fits(g, s) && s.queue != [] && ExactKept(g, s)
    ensures ExactKept(g, Round(g, s))
  {
    RestFits(g, s);
    var n, p := s.queue[0], s.(queue := s.queue[1..]);
    var t := Round(g, s);
    VisitStays(g, p, n);
    forall m: Id ensures m in t.queue || Exact(g, t.link, m) {
      if m == n {
        VisitedIsExact(g, p, n);
      } else if m in s.queue {
        assert s.queue == [n] + p.queue;
      } else {
        OtherStaysExact(g, p, n, t, m);
      }
    }
  }

  /** Main result: once the worklist is empty every operation is labelled exactly as its operands decide; nothing that
      could be computed is left bad or unknown. */
  lemma RestIsExact(g: Graph, s: State, n: Id)
    requires ExactKept(g, s) && s.queue == []
    ensures Exact(g, s.link, n)
  {
    assert n !in s.queue;
  }

  // ---- what substitution leaves ----

  /** The node of the comparison that decides a projection of a condition. */
  function SelectorOf(nodes: seq<Node>, k: Kind): Id {
    if k.ProjX? && k.cond < |nodes| && nodes[k.cond].kind.Cond? then nodes[k.cond].kind.selector else |nodes|
  }

  predicate ConstantAt(nodes: seq<Node>, n: Id) { n < |nodes| && nodes[n].kind.Const? }

  /** A node with a constant label is that constant; an edge whose comparison is a constant is a jump or gone; the memory
      behind a folded division is the memory before it; everything else is as it was. */
  predicate FoldedAt(g: Graph, link: seq<Label>, nodes: seq<Node>, n: Id) {
    |nodes| == |g.nodes| && (n < |nodes| ==>
      && nodes[n].block == g.nodes[n].block
      && var val := LabelOf(link, n);
         match g.nodes[n].kind
         case ProjX(_, onTrue) =>
           var l := LabelOf(link, SelectorOf(g.nodes, g.nodes[n].kind));
           nodes[n].kind == if l.Known? then if (l.value == Bool(true)) == onTrue then Jmp else Bad else g.nodes[n].kind
         case ProjMem(p) =>
           nodes[n].kind == if p < |g.nodes| && IsMemop(g.nodes[p].kind) && LabelOf(link, p).Known? then Copy(g.nodes[p].kind.mem) else g.nodes[n].kind
         case _ => nodes[n].kind == if val.Known? then Const(val.value) else g.nodes[n].kind)
  }

  /** No operation on constants is left that has a value, and no edge that a constant decides. */
  predicate NothingLeft(nodes: seq<Node>, n: Id) {
    n < |nodes| ==>
      match nodes[n].kind
      case Arith(op, l, r, _) =>
        ConstantAt(nodes, l) && ConstantAt(nodes, r) ==> EvalArith(op, nodes[l].kind.value, nodes[r].kind.value) == None
      case Unary(op, x) => ConstantAt(nodes, x) ==> EvalUnary(op, nodes[x].kind.value) == None
      case Cmp(rel, l, r) =>
        ConstantAt(nodes, l) && ConstantAt(nodes, r) ==> EvalCmp(rel, nodes[l].kind.value, nodes[r].kind.value) == None
      case ProjX(_, _) => !ConstantAt(nodes, SelectorOf(nodes, nodes[n].kind))
      case _ => true
  }

  lemma SubstitutedIsFolded(g: Graph, s: State, done: set<Id>, n: Id)
    requires Finished(g, s) && forall m: Id :: m in done <==> m < |g.nodes|
    ensures FoldedAt(g, s.link, Substituted(g, s.link, done).nodes, n)
  {
    if n < |g.nodes| {
      AtRest(g, s);
      assert WellFormedNode(g, n);
      var k := g.nodes[n].kind;
      assert !IsValue(k) ==> s.link[n] == BadLabel;
      if IsValue(k) { assert Settled(g, s, n); }
      if k.ProjX? { DecidedKind(g, s, done, n); }
    }
  }

  lemma ConstantIsKnown(g: Graph, s: State, nodes: seq<Node>, n: Id)
    requires Finished(g, s) && FoldedAt(g, s.link, nodes, n) && ConstantAt(nodes, n)
    ensures n < |s.link| && s.link[n] == Known(nodes[n].kind.value)
  {
    AtRest(g, s);
    if IsValue(g.nodes[n].kind) { assert Settled(g, s, n); }
  }

  lemma FoldedLeavesNothing(g: Graph, s: State, nodes: seq<Node>, n: Id)
    requires Finished(g, s) && ExactKept(g, s) && forall m: Id :: FoldedAt(g, s.link, nodes, m)
    ensures NothingLeft(nodes, n)
  {
    assert FoldedAt(g, s.link, nodes, n);
    if n < |nodes| {
      RestIsExact(g, s, n);
      AtRest(g, s);
      assert WellFormedNode(g, n);
      var k := nodes[n].kind;
      match k
      case Arith(op, l, r, _) => LeftOperands(g, s, nodes, l, r);
      case Unary(op, x) => LeftOperands(g, s, nodes, x, x);
      case Cmp(rel, l, r) => LeftOperands(g, s, nodes, l, r);
      case ProjX(c, _) => LeftEdge(g, s, nodes, n);
      case _ =>
    }
  }

  lemma LeftOperands(g: Graph, s: State, nodes: seq<Node>, l: Id, r: Id)
    requires Finished(g, s) && forall m: Id :: FoldedAt(g, s.link, nodes, m)
    ensures ConstantAt(nodes, l) ==> l < |s.link| && s.link[l] == Known(nodes[l].kind.value)
    ensures ConstantAt(nodes, r) ==> r < |s.link| && s.link[r] == Known(nodes[r].kind.value)
  {
    assert FoldedAt(g, s.link, nodes, l) && FoldedAt(g, s.link, nodes, r);
    if ConstantAt(nodes, l) { ConstantIsKnown(g, s, nodes, l); }
    if ConstantAt(nodes, r) { ConstantIsKnown(g, s, nodes, r); }
  }

  lemma LeftEdge(g: Graph, s: State, nodes: seq<Node>, n: Id)
    requires Finished(g, s) && (forall m: Id :: FoldedAt(g, s.link, nodes, m)) && n < |nodes| && nodes[n].kind.ProjX?
    ensures !ConstantAt(nodes, SelectorOf(nodes, nodes[n].kind))
  {
    assert FoldedAt(g, s.link, nodes, n);
    var sel := SelectorOf(nodes, nodes[n].kind);
    if ConstantAt(nodes, sel) {
      assert FoldedAt(g, s.link, nodes, nodes[n].kind.cond);
      LeftOperands(g, s, nodes, sel, sel);
    }
  }
}
