/** The part of a libfirm graph that constant propagation looks at, and what it means to run such a graph. */
module FirmGraph {
  import opened Wrappers

  type Id = nat

  datatype Mode = Is | Ls | Bu | P

  /** Integers of a mode, results of comparisons, and everything else (memory states, tuples, ...). */
  datatype Value = Num(mode: Mode, n: int) | Bool(b: bool) | Other(tag: int)

  datatype Relation = Equal | LessGreater | Less | LessEqual | Greater | GreaterEqual

  datatype ArithOp = Add | Sub | Mul | Div | Mod

  datatype UnaryOp = Minus | Not | Conv(to: Mode)

  datatype Kind =
    | Const(value: Value)
    | Arith(aop: ArithOp, left: Id, right: Id, mem: Id)  // mem is used by Div and Mod only
    | Unary(uop: UnaryOp, operand: Id)
    | Cmp(rel: Relation, cleft: Id, cright: Id)
    | Phi(ops: seq<Id>)
    | ProjRes(pred: Id)
    | ProjMem(pred: Id)
    | Copy(source: Id)             // a node exchanged for another one
    | Opaque(uses: seq<Id>)        // Start, Load, Store, Call, Address, Member, Sel, ...
    | Cond(selector: Id)
    | ProjX(cond: Id, onTrue: bool)
    | Jmp
    | Bad
    | Return(uses: seq<Id>)
    | End(uses: seq<Id>)
    | Block(preds: seq<Id>)

  datatype Node = Node(kind: Kind, block: Id)

  /** `outs[n]` lists the users of n, and its members if n is a block, in any order; `rank` witnesses that only
      phis and blocks close cycles, which every topological walk of libfirm relies on; `memory` lists the nodes of
      mode M. */
  datatype Graph = Graph(nodes: seq<Node>, outs: seq<seq<Id>>, rank: seq<nat>, memory: set<Id>,
                         startBlock: Id, startJmp: Id, end: Id)

  // ---- arithmetic of the target modes ----

  function Wrap(m: Mode, n: int): int {
    match m
    case Is => (n + 0x8000_0000) % 0x1_0000_0000 - 0x8000_0000
    case Ls => (n + 0x8000_0000_0000_0000) % 0x1_0000_0000_0000_0000 - 0x8000_0000_0000_0000
    case Bu => n % 0x100
    case P => n % 0x1_0000_0000_0000_0000
  }

  /** Division truncates towards zero. */
  function Quotient(a: int, b: int): int
    requires b != 0
  {
    var q := (if a < 0 then -a else a) / (if b < 0 then -b else b);
    if (a < 0) == (b < 0) then q else -q
  }

  function Raw(op: ArithOp, a: int, b: int): int
    requires op == Div || op == Mod ==> b != 0
  {
    match op
    case Add => a + b
    case Sub => a - b
    case Mul => a * b
    case Div => Quotient(a, b)
    case Mod => a - b * Quotient(a, b)
  }

  // ---- what this arithmetic is ----

  /** How many values a mode has, and the least of them. */
  function Modulus(m: Mode): int {
    match m case Is => 0x1_0000_0000 case Ls => 0x1_0000_0000_0000_0000 case Bu => 0x100 case P => 0x1_0000_0000_0000_0000
  }

  function Least(m: Mode): int { match m case Is => -0x8000_0000 case Ls => -0x8000_0000_0000_0000 case _ => 0 }

  /** Wrapping gives the one value of the mode that differs by a multiple of the number of its values. */
  lemma WrapIsCongruent(m: Mode, n: int)
    ensures Least(m) <= Wrap(m, n) < Least(m) + Modulus(m) && exists k: int :: n == Wrap(m, n) + k * Modulus(m)
  {
    var k := (n - Least(m)) / Modulus(m);
    assert n == Wrap(m, n) + k * Modulus(m);
  }

  lemma QuotientOfMagnitudes(x: nat, y: nat)
    requires y > 0
    ensures 0 <= x - y * (x / y) < y && y * (x / y) >= 0
  {
  }

  lemma SignsMultiply(y: int, q: int)
    ensures (-y) * q == -(y * q) && y * (-q) == -(y * q) && (-y) * (-q) == y * q
  {
  }

  function Magnitude(n: int): nat { if n < 0 then -n else n }

  lemma QuotientProduct(a: int, b: int) returns (p: int)
    requires b != 0
    ensures p >= 0 && 0 <= Magnitude(a) - p < Magnitude(b) && b * Quotient(a, b) == if a < 0 then -p else p
  {
    p := Magnitude(b) * (Magnitude(a) / Magnitude(b));
    QuotientOfMagnitudes(Magnitude(a), Magnitude(b));
    SignsMultiply(Magnitude(b), Magnitude(a) / Magnitude(b));
  }

  lemma RemainderOf(a: int, p: int, m: nat, r: int)
    requires p >= 0 && 0 <= Magnitude(a) - p < m && r == a - if a < 0 then -p else p
    ensures Magnitude(r) < m && (r > 0 ==> a > 0) && (r < 0 ==> a < 0)
  {
  }

  /** The quotient is the integer next to the exact one on the side of zero: the remainder is smaller than the divisor and has
      the sign of the dividend. */
  lemma DivisionTruncates(a: int, b: int)
    requires b != 0
    ensures var r := a - b * Quotient(a, b); Magnitude(r) < Magnitude(b) && (r > 0 ==> a > 0) && (r < 0 ==> a < 0)
  {
    var p := QuotientProduct(a, b);
    RemainderOf(a, p, Magnitude(b), a - b * Quotient(a, b));
  }

  /** None: division by zero, or operands no arithmetic is defined on. */
  function EvalArith(op: ArithOp, a: Value, b: Value): Option<Value> {
    if !a.Num? || !b.Num? || a.mode != b.mode || ((op == Div || op == Mod) && b.n == 0) then None
    else Some(Num(a.mode, Wrap(a.mode, Raw(op, a.n, b.n))))
  }

  function EvalUnary(op: UnaryOp, a: Value): Option<Value> {
    if !a.Num? then None
    else
      match op
      case Minus => Some(Num(a.mode, Wrap(a.mode, -a.n)))
      case Not => Some(Num(a.mode, Wrap(a.mode, -a.n - 1)))
      case Conv(m) => Some(Num(m, Wrap(m, a.n)))
  }

  function EvalCmp(rel: Relation, a: Value, b: Value): Option<Value> {
    if !a.Num? || !b.Num? || a.mode != b.mode then None
    else
      match rel
      case Equal => Some(Bool(a.n == b.n))
      case LessGreater => Some(Bool(a.n != b.n))
      case Less => Some(Bool(a.n < b.n))
      case LessEqual => Some(Bool(a.n <= b.n))
      case Greater => Some(Bool(a.n > b.n))
      case GreaterEqual => Some(Bool(a.n >= b.n))
  }

  // ---- structure ----

  predicate IsValue(k: Kind) {
    k.Const? || k.Arith? || k.Unary? || k.Cmp? || k.Phi? || k.ProjRes? || k.ProjMem? || k.Copy? || k.Opaque?
  }

  /** Nodes of mode X other than Return, which leaves the function. */
  predicate IsControl(k: Kind) { k.ProjX? || k.Jmp? || k.Bad? }

  predicate IsModeX(k: Kind) { IsControl(k) || k.Return? }

  /** Div and Mod order memory; their result and the memory after them are projections. */
  predicate IsMemop(k: Kind) { k.Arith? && (k.aop == Div || k.aop == Mod) }

  function Operands(k: Kind): seq<Id> {
    match k
    case Arith(_, l, r, m) => if IsMemop(k) then [m, l, r] else [l, r]
    case Unary(_, x) => [x]
    case Cmp(_, l, r) => [l, r]
    case Phi(ops) => ops
    case ProjRes(p) => [p]
    case ProjMem(p) => [p]
    case Copy(s) => [s]
    case Opaque(us) => us
    case Cond(s) => [s]
    case ProjX(c, _) => [c]
    case Return(us) => us
    case End(us) => us
    case Block(ps) => ps
    case _ => []
  }

  /** `n` has `q` among its operands. */
  ghost predicate Uses(g: Graph, n: Id, q: Id) {
    n < |g.nodes| && q in Operands(g.nodes[n].kind)
  }

  /** Each node is well placed and refers to nodes of the right sort. */
  ghost predicate WellFormedNode(g: Graph, n: Id)
    requires n < |g.nodes|
  {
    var Node(k, b) := g.nodes[n];
    && b < |g.nodes| && g.nodes[b].kind.Block? && (k.Block? ==> b == n)
    && (forall q :: q in Operands(k) ==> q < |g.nodes| && (IsValue(k) ==> IsValue(g.nodes[q].kind)))
    && (k.Phi? ==> |k.ops| == |g.nodes[b].kind.preds| && b != g.startBlock)
    && (k.Cond? ==> k.selector < |g.nodes| && g.nodes[k.selector].kind.Cmp?)
    && (k.ProjX? ==> k.cond < |g.nodes| && g.nodes[k.cond].kind.Cond?)
    && (k.Block? ==> forall q :: q in k.preds ==> q < |g.nodes| && IsModeX(g.nodes[q].kind))
    && (IsModeX(k) && !k.Bad? && b == g.startBlock ==> n == g.startJmp)
    && !k.Copy?
  }

  /** Only phis and blocks break cycles. */
  predicate IsBreaker(k: Kind) { k.Phi? || k.Block? }

  ghost predicate Acyclic(g: Graph) {
    && |g.rank| == |g.nodes| && (forall n: Id :: n < |g.nodes| ==> g.rank[n] < |g.nodes|)
    && forall n: Id, q: Id :: Uses(g, n, q) && !IsBreaker(g.nodes[n].kind) && q < |g.nodes| ==> g.rank[q] < g.rank[n]
  }

  ghost predicate Member(g: Graph, n: Id, b: Id) { n < |g.nodes| && !g.nodes[n].kind.Block? && g.nodes[n].block == b }

  /** Out-edges go to users and, from a block, to its members, and to nothing else. */
  ghost predicate OutsExact(g: Graph) {
    && |g.outs| == |g.nodes|
    && (forall n: Id, q: Id :: Uses(g, n, q) && q < |g.nodes| ==> n in g.outs[q])
    && (forall n: Id :: n < |g.nodes| && !g.nodes[n].kind.Block? && g.nodes[n].block < |g.nodes| ==> n in g.outs[g.nodes[n].block])
    && (forall n: Id, u: Id :: n < |g.nodes| && u in g.outs[n] ==> Uses(g, u, n) || Member(g, u, n))
  }

  /** Memory comes from memory projections, memory phis and opaque nodes; a division has one memory projection. */
  ghost predicate MemoryTyped(g: Graph) {
    && (forall n: Id :: n in g.memory && n < |g.nodes| ==>
          var k := g.nodes[n].kind;
          k.ProjMem? || k.Opaque? || (k.Phi? && forall q: Id :: q in k.ops ==> q in g.memory))
    && (forall n: Id :: n < |g.nodes| && IsMemop(g.nodes[n].kind) ==> g.nodes[n].kind.mem in g.memory)
    && (forall n: Id, m: Id :: n < |g.nodes| && m < |g.nodes| && g.nodes[n].kind.ProjMem? && g.nodes[n].kind == g.nodes[m].kind ==> n == m)
  }

  ghost predicate WellFormed(g: Graph) {
    && (forall n :: 0 <= n < |g.nodes| ==> WellFormedNode(g, n))
    && Acyclic(g) && OutsExact(g)
    && g.startBlock < |g.nodes| && g.nodes[g.startBlock].kind == Block([])
    && g.startJmp < |g.nodes| && g.nodes[g.startJmp] == Node(Jmp, g.startBlock)
    && g.end < |g.nodes| && g.nodes[g.end].kind.End?
  }

  // ---- runs ----

  type Env = map<Id, Value>

  /** One execution of a block, entered through its `entry`-th predecessor; `env` holds the latest value of every
      node executed so far. */
  datatype Visit = Visit(block: Id, entry: nat, env: Env)

  /** The value of a node other than a phi follows from its operands; opaque nodes may yield anything. */
  ghost predicate Computes(k: Kind, env: Env, v: Value) {
    match k
    case Const(c) => v == c
    case Arith(op, l, r, _) => l in env && r in env && EvalArith(op, env[l], env[r]) == Some(v)
    case Unary(op, x) => x in env && EvalUnary(op, env[x]) == Some(v)
    case Cmp(rel, l, r) => l in env && r in env && EvalCmp(rel, env[l], env[r]) == Some(v)
    case Copy(s) => s in env && v == env[s]
    case _ => true
  }

  /** The memory after a division is the memory before it. */
  ghost predicate MemoryPasses(g: Graph, k: Kind, env: Env, v: Value)
    requires k.ProjMem? ==> k.pred < |g.nodes|
  {
    k.ProjMem? && IsMemop(g.nodes[k.pred].kind) ==> g.nodes[k.pred].kind.mem in env && v == env[g.nodes[k.pred].kind.mem]
  }

  /** A projection has the value of its node; of an opaque node, which has several results, any value. */
  ghost predicate ResultPasses(g: Graph, k: Kind, env: Env, v: Value)
    requires k.ProjRes? ==> k.pred < |g.nodes|
  {
    k.ProjRes? && !g.nodes[k.pred].kind.Opaque? ==> k.pred in env && v == env[k.pred]
  }

  ghost predicate Inside(g: Graph, n: Id, b: Id) {
    n < |g.nodes| && g.nodes[n].block == b && IsValue(g.nodes[n].kind)
  }

  /** Executing block `b` after `before`, entered at predecessor `i`: phis read the old values, the others the new. */
  ghost predicate Executes(g: Graph, before: Env, b: Id, i: nat, after: Env) {
    && (forall n :: n in after <==> n in before || Inside(g, n, b))
    && (forall n :: n in before && !Inside(g, n, b) ==> n in after && after[n] == before[n])
    && (forall n :: Inside(g, n, b) ==> n in after && NodeExecutes(g, before, i, n, after))
  }

  ghost predicate NodeExecutes(g: Graph, before: Env, i: nat, n: Id, after: Env)
    requires n < |g.nodes| && n in after
  {
    var k := g.nodes[n].kind;
    && (k.Phi? ==> i < |k.ops| && k.ops[i] in before && after[n] == before[k.ops[i]])
    && (!k.Phi? ==>
          && Computes(k, after, after[n]) && (k.ProjMem? || k.ProjRes? ==> k.pred < |g.nodes|)
          && MemoryPasses(g, k, after, after[n]) && ResultPasses(g, k, after, after[n]))
  }

  /** Control may leave a block through `c`. */
  ghost predicate Leaves(g: Graph, env: Env, b: Id, c: Id) {
    && c < |g.nodes| && g.nodes[c].block == b
    && match g.nodes[c].kind
       case Jmp => true
       case ProjX(cond, t) =>
         cond < |g.nodes| && g.nodes[cond].kind.Cond? && g.nodes[cond].kind.selector in env
         && env[g.nodes[cond].kind.selector] == Bool(t)
       case _ => false
  }

  ghost predicate Enters(g: Graph, c: Id, b: Id, i: nat) {
    b < |g.nodes| && g.nodes[b].kind.Block? && i < |g.nodes[b].kind.preds| && g.nodes[b].kind.preds[i] == c
  }

  ghost predicate StepsTo(g: Graph, v: Visit, c: Id, w: Visit) {
    Leaves(g, v.env, v.block, c) && Enters(g, c, w.block, w.entry) && Executes(g, v.env, w.block, w.entry, w.env)
  }

  /** A run: the start block, then one visit per crossed control edge. */
  ghost predicate IsRun(g: Graph, vs: seq<Visit>, cs: seq<Id>)
  {
    && |vs| == |cs| + 1
    && vs[0].block == g.startBlock && Executes(g, map[], g.startBlock, vs[0].entry, vs[0].env)
    && forall k :: 0 <= k < |cs| ==> StepsTo(g, vs[k], cs[k], vs[k+1])
  }

  lemma RunStart(g: Graph, vs: seq<Visit>, cs: seq<Id>)
    requires IsRun(g, vs, cs)
    ensures |vs| > 0 && vs[0].block == g.startBlock && Executes(g, map[], vs[0].block, vs[0].entry, vs[0].env)
  {
  }

  lemma RunStep(g: Graph, vs: seq<Visit>, cs: seq<Id>, k: nat)
    requires IsRun(g, vs, cs) && 0 < k < |vs|
    ensures |vs| == |cs| + 1 && StepsTo(g, vs[k-1], cs[k-1], vs[k])
  {
    assert StepsTo(g, vs[k-1], cs[k-1], vs[k-1+1]);
  }

  /** What holds after the start block and is kept by every step holds throughout a run. */
  lemma {:induction false} RunInduction(g: Graph, vs: seq<Visit>, cs: seq<Id>, p: Visit -> bool, k: nat)
    requires IsRun(g, vs, cs) && k < |vs| && p(vs[0])
    requires forall v, c: Id, w :: p(v) && StepsTo(g, v, c, w) ==> p(w)
    ensures p(vs[k])
  {
    if k > 0 {
      RunInduction(g, vs, cs, p, k - 1);
      RunStep(g, vs, cs, k);
    }
  }
}
