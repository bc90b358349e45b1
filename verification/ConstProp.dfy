/** Constant propagation with reachability (const_prop_pass.hpp): the effect of one visit on labels, edge marks and
    the FIFO worklist, and the class that performs it. */
module ConstProp {
  import opened Wrappers
  import opened FirmGraph

  /** tarval_unknown, a constant, tarval_bad. */
  datatype Label = Unknown | Known(value: Value) | BadLabel

  /** Labels of the nodes, marks of the control edges, and the worklist. */
  datatype State = State(link: seq<Label>, marks: map<Id, bool>, queue: seq<Id>)

  // ---- labels of single nodes ----

  function Transfer(op: ArithOp, l: Label, r: Label): Label {
    if l == BadLabel || r == BadLabel then BadLabel
    else if l == Unknown || r == Unknown then Unknown
    else
      var v := EvalArith(op, l.value, r.value);
      if v.Some? then Known(v.value) else BadLabel
  }

  function TransferUnary(op: UnaryOp, l: Label): Label {
    if l.Known? then
      var v := EvalUnary(op, l.value);
      if v.Some? then Known(v.value) else BadLabel
    else l
  }

  datatype Ordering = IsLess | IsEqual | IsGreater

  /** tarval_cmp on two constants of one mode. */
  function Compare(a: int, b: int): Ordering {
    if a < b then IsLess else if a == b then IsEqual else IsGreater
  }

  /** The switch of visitCmp. */
  function Decide(rel: Relation, o: Ordering): bool {
    match rel
    case Equal => o == IsEqual
    case LessGreater => o == IsLess || o == IsGreater
    case Less => o == IsLess
    case LessEqual => o == IsLess || o == IsEqual
    case Greater => o == IsGreater
    case GreaterEqual => o == IsGreater || o == IsEqual
  }

  function TransferCmp(rel: Relation, l: Label, r: Label): Label {
    if l == BadLabel || r == BadLabel then BadLabel
    else if l == Unknown || r == Unknown then Unknown
    else if !l.value.Num? || !r.value.Num? || l.value.mode != r.value.mode then BadLabel
    else Known(Bool(Decide(rel, Compare(l.value.n, r.value.n))))
  }

  /** The switch over tarval_cmp decides what the comparison means. */
  lemma CmpIsComparison(rel: Relation, a: Value, b: Value)
    ensures TransferCmp(rel, Known(a), Known(b)) ==
      if EvalCmp(rel, a, b).Some? then Known(EvalCmp(rel, a, b).value) else BadLabel
  {
  }

  predicate MarkedFalse(marks: map<Id, bool>, c: Id) { c in marks && !marks[c] }

  predicate MarkedTrue(marks: map<Id, bool>, c: Id) { c in marks && marks[c] }

  /** The loop of visitPhi over the operands from `i` on, `val` being the label so far. */
  function JoinFrom(link: seq<Label>, marks: map<Id, bool>, ops: seq<Id>, preds: seq<Id>, i: nat, val: Label): Label
    requires i <= |ops| == |preds|
    requires forall q :: q in ops ==> q < |link|
    decreases |ops| - i
  {
    if i == |ops| then val
    else
      assert ops[i] in ops;
      if MarkedFalse(marks, preds[i]) then JoinFrom(link, marks, ops, preds, i + 1, val)
      else
        var p := link[ops[i]];
        if val == BadLabel || p == BadLabel then BadLabel
        else if val == Unknown then JoinFrom(link, marks, ops, preds, i + 1, p)
        else if p == Unknown || val == p then JoinFrom(link, marks, ops, preds, i + 1, val)
        else BadLabel
  }

  // ---- one visit ----

  function SetLink(g: Graph, s: State, n: Id, val: Label): State
    requires n < |s.link| && n < |g.outs|
  {
    if s.link[n] == val then s else s.(link := s.link[n := val], queue := s.queue + g.outs[n])
  }

  predicate AnyMarked(marks: map<Id, bool>, preds: seq<Id>) { exists p :: p in preds && p in marks }

  predicate AnyTaken(marks: map<Id, bool>, preds: seq<Id>) { exists p :: p in preds && MarkedTrue(marks, p) }

  /** The phis and mode-X nodes among the members listed. */
  function Woken(g: Graph, members: seq<Id>): seq<Id> {
    if members == [] then []
    else
      var m := members[0];
      (if m < |g.nodes| && (IsModeX(g.nodes[m].kind) || g.nodes[m].kind.Phi?) then [m] else []) + Woken(g, members[1..])
  }

  function WokenIn(g: Graph, targets: seq<Id>): seq<Id> {
    if targets == [] then []
    else (if targets[0] < |g.outs| then Woken(g, g.outs[targets[0]]) else []) + WokenIn(g, targets[1..])
  }

  ghost predicate Fits(g: Graph, s: State) {
    WellFormed(g) && |s.link| == |g.nodes| && forall n :: n in s.queue ==> n < |g.nodes|
  }

  function Preds(g: Graph, b: Id): seq<Id> {
    if b < |g.nodes| && g.nodes[b].kind.Block? then g.nodes[b].kind.preds else []
  }

  function Mark(g: Graph, s: State, c: Id, taken: bool): State
    requires c < |g.nodes| && |g.outs| == |g.nodes|
  {
    if c in s.marks && s.marks[c] == taken then s
    else if !taken then s.(marks := s.marks[c := false])
    else
      var b := g.nodes[c].block;
      if b == g.startBlock then s.(marks := s.marks[c := true])
      else if AnyMarked(s.marks, Preds(g, b)) then
        if AnyTaken(s.marks, Preds(g, b))
        then s.(marks := s.marks[c := true], queue := s.queue + WokenIn(g, g.outs[c]))
        else s.(marks := s.marks[c := false])
      else s.(queue := s.queue + [c])
  }

  /** Whether the label of the comparison allows the edge `c` to be taken. */
  predicate MayTake(g: Graph, link: seq<Label>, c: Id)
    requires c < |g.nodes| && |link| == |g.nodes|
  {
    match g.nodes[c].kind
    case Jmp => true
    case ProjX(cond, t) =>
      if cond < |g.nodes| && g.nodes[cond].kind.Cond? && g.nodes[cond].kind.selector < |link| then
        var l := link[g.nodes[cond].kind.selector];
        l.Known? ==> (l.value == Bool(true)) == t
      else true
    case _ => false
  }

  /** Values whose label never changes. */
  predicate Inert(k: Kind) { k.Const? || k.Opaque? || k.ProjMem? || k.Copy? }

  /** The label computed by a visit from the labels of the operands. */
  ghost function NewLabel(g: Graph, s: State, n: Id): Label
    requires Fits(g, s) && n < |g.nodes|
  {
    var link, k := s.link, g.nodes[n].kind;
    assert WellFormedNode(g, n);
    assert forall q :: q in Operands(k) ==> q < |link|;
    if k.Arith? then assert k.left in Operands(k) && k.right in Operands(k); Transfer(k.aop, link[k.left], link[k.right])
    else if k.Unary? then assert k.operand in Operands(k); TransferUnary(k.uop, link[k.operand])
    else if k.Cmp? then assert k.cleft in Operands(k) && k.cright in Operands(k); TransferCmp(k.rel, link[k.cleft], link[k.cright])
    else if k.Phi? then JoinFrom(link, s.marks, k.ops, Preds(g, g.nodes[n].block), 0, Unknown)
    else if k.ProjRes? then assert k.pred in Operands(k); link[k.pred]
    else if k.ProjX? then assert k.cond in Operands(k); link[k.cond]
    else link[n]
  }

  /** visitNode on a node taken from the worklist. */
  ghost function VisitNode(g: Graph, s: State, n: Id): State
    requires Fits(g, s) && n < |g.nodes|
  {
    var k := g.nodes[n].kind;
    if k.Cond? then s.(queue := s.queue + g.outs[n])
    else if k.ProjX? then SetLink(g, Mark(g, s, n, MayTake(g, s.link, n)), n, NewLabel(g, s, n))
    else if k.Jmp? then Mark(g, s, n, true)
    else if k.Bad? then Mark(g, s, n, false)
    else if IsValue(k) && !Inert(k) then SetLink(g, s, n, NewLabel(g, s, n))
    else s
  }
}
