/** Lowering of expressions and statements to a graph of blocks (firm_visitor.cpp), and what both sides mean.
    Local variables form a store; every other operation (arithmetic, field and array access, calls) is an event whose
    result may depend on all earlier events. */
module Lowering {
  import opened Wrappers

  type Var = nat
  type Temp = nat
  type BlockId = nat

  datatype Relation = Equal | NotEqual | Less | LessEqual | Greater | GreaterEqual

  predicate Holds(rel: Relation, a: int, b: int) {
    match rel
    case Equal => a == b
    case NotEqual => a != b
    case Less => a < b
    case LessEqual => a <= b
    case Greater => a > b
    case GreaterEqual => a >= b
  }

  // ---- source ----

  datatype Expr =
    | IntLit(n: int)
    | BoolLit(b: bool)
    | VarRef(x: Var)
    | Assign(x: Var, e: Expr)
    | Prim(op: string, args: seq<Expr>)
    | Rel(rel: Relation, left: Expr, right: Expr)
    | AndThen(left: Expr, right: Expr)
    | OrElse(left: Expr, right: Expr)
    | Not(e: Expr)

  datatype Stmt =
    | ExprStmt(e: Expr)
    | VarDecl(x: Var, init: Option<Expr>)
    | Block(stmts: seq<Stmt>)
    | If(cond: Expr, thenStmt: Option<Stmt>, elseStmt: Option<Stmt>)
    | While(cond: Expr, body: Option<Stmt>)
    | Return(value: Option<Expr>)

  datatype Event = Event(op: string, args: seq<int>)

  /** What an operation yields, given everything that happened before it. */
  type Oracle = (Event, seq<Event>) -> int

  datatype Store = Store(locals: map<Var, int>, trace: seq<Event>)

  function Read(s: Store, x: Var): int { if x in s.locals then s.locals[x] else 0 }

  function Write(s: Store, x: Var, v: int): Store { s.(locals := s.locals[x := v]) }

  function Bit(b: bool): int { if b then 1 else 0 }

  datatype Evaluated = Evaluated(value: int, store: Store)

  datatype EvaluatedAll = EvaluatedAll(values: seq<int>, store: Store)

  /** Operands from left to right; the right operand of && and || only if it decides. */
  function Eval(o: Oracle, e: Expr, s: Store): Evaluated
    decreases e
  {
    match e
    case IntLit(n) => Evaluated(n, s)
    case BoolLit(b) => Evaluated(Bit(b), s)
    case VarRef(x) => Evaluated(Read(s, x), s)
    case Assign(x, e1) => var r := Eval(o, e1, s); Evaluated(r.value, Write(r.store, x, r.value))
    case Prim(op, args) => var r := EvalAll(o, args, s); Happen(o, Event(op, r.values), r.store)
    case Rel(rel, l, r) =>
      var a := Eval(o, l, s);
      var b := Eval(o, r, a.store);
      Evaluated(Bit(Holds(rel, a.value, b.value)), b.store)
    case AndThen(l, r) =>
      var a := Eval(o, l, s);
      if a.value == 0 then Evaluated(0, a.store)
      else var b := Eval(o, r, a.store); Evaluated(Bit(b.value != 0), b.store)
    case OrElse(l, r) =>
      var a := Eval(o, l, s);
      if a.value != 0 then Evaluated(1, a.store)
      else var b := Eval(o, r, a.store); Evaluated(Bit(b.value != 0), b.store)
    case Not(e1) => var r := Eval(o, e1, s); Evaluated(Bit(r.value == 0), r.store)
  }

  function EvalAll(o: Oracle, es: seq<Expr>, s: Store): EvaluatedAll
    decreases es
  {
    if es == [] then EvaluatedAll([], s)
    else
      var a := Eval(o, es[0], s);
      var r := EvalAll(o, es[1..], a.store);
      EvaluatedAll([a.value] + r.values, r.store)
  }

  function Happen(o: Oracle, ev: Event, s: Store): Evaluated {
    Evaluated(o(ev, s.trace), s.(trace := s.trace + [ev]))
  }

  datatype Outcome = Normal(store: Store) | Returned(result: Option<int>, trace: seq<Event>) | Timeout

  /** Running a statement; `fuel` bounds the iterations of nested loops. */
  function Exec(o: Oracle, st: Stmt, s: Store, fuel: nat): Outcome
    decreases fuel, st, 1
  {
    match st
    case ExprStmt(e) => Normal(Eval(o, e, s).store)
    case VarDecl(x, None) => Normal(s)
    case VarDecl(x, Some(e)) => var r := Eval(o, e, s); Normal(Write(r.store, x, r.value))
    case Block(sts) => ExecAll(o, sts, s, fuel)
    case If(c, a, b) =>
      var r := Eval(o, c, s);
      if r.value != 0 then ExecOption(o, a, r.store, fuel) else ExecOption(o, b, r.store, fuel)
    case While(c, body) =>
      if fuel == 0 then Timeout
      else
        var r := Eval(o, c, s);
        if r.value == 0 then Normal(r.store)
        else
          var q := ExecOption(o, body, r.store, fuel);
          if q.Normal? then Exec(o, st, q.store, fuel - 1) else q
    case Return(None) => Returned(None, s.trace)
    case Return(Some(e)) => var r := Eval(o, e, s); Returned(Some(r.value), r.store.trace)
  }

  function ExecOption(o: Oracle, st: Option<Stmt>, s: Store, fuel: nat): Outcome
    decreases fuel, st, 0
  {
    if st.None? then Normal(s) else Exec(o, st.value, s, fuel)
  }

  function ExecAll(o: Oracle, sts: seq<Stmt>, s: Store, fuel: nat): Outcome
    decreases fuel, sts, 0
  {
    if sts == [] then Normal(s)
    else
      var q := Exec(o, sts[0], s, fuel);
      if q.Normal? then ExecAll(o, sts[1..], q.store, fuel) else q
  }

  // ---- target ----

  datatype Instr =
    | Constant(dst: Temp, n: int)
    | ReadVar(dst: Temp, x: Var)
    | WriteVar(x: Var, src: Temp)
    | Perform(dst: Temp, op: string, args: seq<Temp>)
    | Phi(dst: Temp, args: seq<Temp>)                  // one operand for each predecessor of the block
    | Leave(result: Option<Temp>)                      // Return

  datatype Cond = Cond(rel: Relation, left: Temp, right: Temp)

  datatype EdgeKind = Jmp | ProjTrue | ProjFalse | Ret

  datatype Edge = Edge(source: BlockId, kind: EdgeKind) | Bad

  datatype BasicBlock = BasicBlock(preds: seq<Edge>, instrs: seq<Instr>, cond: Option<Cond>)

  /** Block 0 is the end block; `temps` is the next unused temporary. */
  datatype Graph = Graph(blocks: seq<BasicBlock>, cur: BlockId, temps: Temp)

  datatype Config =
    | Running(block: BlockId, pc: nat, entry: nat, temps: map<Temp, int>, store: Store)
    | Halted(result: Option<int>, trace: seq<Event>)

  ghost predicate HasEdge(g: Graph, t: BlockId, i: nat, e: Edge) {
    t < |g.blocks| && i < |g.blocks[t].preds| && g.blocks[t].preds[i] == e
  }

  ghost predicate InstrSteps(o: Oracle, i: Instr, c: Config, d: Config)
    requires c.Running?
  {
    match i
    case Constant(t, n) => d == c.(pc := c.pc + 1, temps := c.temps[t := n])
    case ReadVar(t, x) => d == c.(pc := c.pc + 1, temps := c.temps[t := Read(c.store, x)])
    case WriteVar(x, t) => t in c.temps && d == c.(pc := c.pc + 1, store := Write(c.store, x, c.temps[t]))
    case Perform(t, op, args) =>
      && (forall a :: a in args ==> a in c.temps)
      && var r := Happen(o, Event(op, Values(c.temps, args)), c.store);
         d == c.(pc := c.pc + 1, temps := c.temps[t := r.value], store := r.store)
    case Phi(t, args) =>
      && c.entry < |args| && args[c.entry] in c.temps
      && d == c.(pc := c.pc + 1, temps := c.temps[t := c.temps[args[c.entry]]])
    case Leave(None) => d == Halted(None, c.store.trace)
    case Leave(Some(t)) => t in c.temps && d == Halted(Some(c.temps[t]), c.store.trace)
  }

  function Values(temps: map<Temp, int>, args: seq<Temp>): (r: seq<int>)
    requires forall a :: a in args ==> a in temps
    ensures |r| == |args| && forall i :: 0 <= i < |r| ==> r[i] == temps[args[i]]
  {
    seq(|args|, i requires 0 <= i < |args| => temps[args[i]])
  }

  /** Which of its edges a finished block is left through. */
  ghost predicate ExitsBy(b: BasicBlock, temps: map<Temp, int>, k: EdgeKind) {
    match b.cond
    case None => k == Jmp
    case Some(Cond(rel, l, r)) =>
      l in temps && r in temps && k == if Holds(rel, temps[l], temps[r]) then ProjTrue else ProjFalse
  }

  ghost predicate Steps(o: Oracle, g: Graph, c: Config, d: Config) {
    c.Running? && c.block < |g.blocks| &&
    var b := g.blocks[c.block];
    if c.pc < |b.instrs| then InstrSteps(o, b.instrs[c.pc], c, d)
    else
      && d.Running? && d.pc == 0 && d.temps == c.temps && d.store == c.store
      && exists k :: ExitsBy(b, c.temps, k) && HasEdge(g, d.block, d.entry, Edge(c.block, k))
  }

  /** `d` can be reached from `c` in exactly `n` steps. */
  ghost predicate Reaches(step: (Config, Config) -> bool, c: Config, d: Config, n: nat)
    decreases n
  {
    if n == 0 then c == d else exists m :: step(c, m) && Reaches(step, m, d, n - 1)
  }

  /** The steps of graph `g`, as a relation. */
  ghost function StepsOf(o: Oracle, g: Graph): (Config, Config) -> bool {
    (c, d) => Steps(o, g, c, d)
  }

  // ---- construction primitives ----

  /** A new node at the end of the current block; it gets the number `g.temps`. */
  function Emit(g: Graph, i: Instr): Graph
    requires g.cur < |g.blocks|
  {
    var b := g.blocks[g.cur];
    Graph(g.blocks[g.cur := b.(instrs := b.instrs + [i])], g.cur, g.temps + 1)
  }

  function SetCond(g: Graph, c: Cond): Graph
    requires g.cur < |g.blocks|
  {
    g.(blocks := g.blocks[g.cur := g.blocks[g.cur].(cond := Some(c))])
  }

  /** add_immBlock_pred. */
  function AddPred(g: Graph, t: BlockId, e: Edge): Graph
    requires t < |g.blocks|
  {
    g.(blocks := g.blocks[t := g.blocks[t].(preds := g.blocks[t].preds + [e])])
  }

  function NewBlock(g: Graph, preds: seq<Edge>): Graph {
    g.(blocks := g.blocks + [BasicBlock(preds, [], None)])
  }

  function SetCur(g: Graph, b: BlockId): Graph { g.(cur := b) }

  // ---- conditions ----

  datatype Lowered = Lowered(graph: Graph, temp: Temp)

  datatype LoweredAll = LoweredAll(graph: Graph, temps: seq<Temp>)

  /** A projection of the condition to each target. */
  function Project(g: Graph, t: BlockId, f: BlockId): Graph
    requires t < |g.blocks| && f < |g.blocks|
  {
    AddPred(AddPred(g, t, Edge(g.cur, ProjTrue)), f, Edge(g.cur, ProjFalse))
  }

  /** booleanToControlFlow: true is "not 0". */
  function TestBoolean(g: Graph, v: Temp, t: BlockId, f: BlockId): Graph
    requires g.cur < |g.blocks| && t < |g.blocks| && f < |g.blocks|
  {
    Project(TestValue(g, v), t, f)
  }

  /** controlFlowToBoolean: a new block joining two edges. */
  function JoinBoolean(g: Graph, falseEdge: Edge, trueEdge: Edge): (r: Lowered)
    ensures r.graph.cur < |r.graph.blocks| && |g.blocks| <= |r.graph.blocks|
  {
    var g1 := SetCur(NewBlock(g, [falseEdge, trueEdge]), |g.blocks|);
    var g2 := Emit(g1, Constant(g1.temps, 0));
    var g3 := Emit(g2, Constant(g2.temps, 1));
    Lowered(Emit(g3, Phi(g3.temps, [g1.temps, g2.temps])), g3.temps)
  }

  // ---- negation ----

  /** What is left of an expression without the negations around it. */
  function Core(e: Expr): (r: Expr)
    ensures !r.Not? && (e.Not? ==> r < e) && (!e.Not? ==> r == e)
  {
    if e.Not? then Core(e.e) else e
  }

  /** An odd number of negations. */
  predicate Negated(e: Expr) { e.Not? && !Negated(e.e) }

  /** Lowered as a condition it contributes one edge for true and one for false. */
  predicate SingleEdges(e: Expr) { !Core(e).AndThen? && !Core(e).OrElse? }

  /** The edges for both outcomes of a condition into one block, that for true first unless `flip`. */
  function AddBoth(g: Graph, t: BlockId, trueEdge: Edge, falseEdge: Edge, flip: bool): (h: Graph)
    requires t < |g.blocks|
    ensures h.cur == g.cur && |h.blocks| == |g.blocks|
  {
    AddPred(AddPred(g, t, if flip then falseEdge else trueEdge), t, if flip then trueEdge else falseEdge)
  }

  /** The condition that tests a boolean value. */
  function TestValue(g: Graph, v: Temp): Graph
    requires g.cur < |g.blocks|
  {
    SetCond(Emit(g, Constant(g.temps, 0)), Cond(NotEqual, v, g.temps))
  }

  /** A condition both of whose outcomes lead to block `t`. */
  function LowerSame(g: Graph, e: Expr, t: BlockId, flip: bool): (h: Graph)
    requires !e.Not? && !e.AndThen? && !e.OrElse? && g.cur < |g.blocks| && t < |g.blocks|
    ensures h.cur < |h.blocks| && |g.blocks| <= |h.blocks|
    decreases e, 3
  {
    if e.BoolLit? then
      AddBoth(g, t, if e.b then Edge(g.cur, Jmp) else Bad, if e.b then Bad else Edge(g.cur, Jmp), flip)
    else
      var c := if e.Rel? then LowerRelation(g, e) else var r := LowerValue(g, e); TestValue(r.graph, r.temp);
      AddBoth(c, t, Edge(c.cur, ProjTrue), Edge(c.cur, ProjFalse), flip)
  }

  /** The value of a negation, in the block its operand has been lowered to: 1 if it was entered through the first edge. */
  function NotPhi(g: Graph): (r: Lowered)
    requires g.cur < |g.blocks|
    ensures r.graph.cur < |r.graph.blocks| && |r.graph.blocks| == |g.blocks|
  {
    var g2 := Emit(g, Constant(g.temps, 1));
    var g3 := Emit(g2, Constant(g2.temps, 0));
    Lowered(Emit(g3, Phi(g3.temps, [g.temps, g2.temps])), g3.temps)
  }

  /** The operand of a negation whose value is needed, both outcomes leading to the new block `n`. */
  function LowerNegation(g: Graph, e: Expr, n: BlockId): (h: Graph)
    requires e.Not? && g.cur < |g.blocks| && n < |g.blocks|
    ensures h.cur < |h.blocks| && |g.blocks| <= |h.blocks|
    decreases e, 1
  {
    if SingleEdges(e) then LowerSame(g, Core(e), n, Negated(e)) else LowerBranch(g, e.e, n, n)
  }

  // ---- expressions ----

  /** An expression whose value is needed. */
  function LowerValue(g: Graph, e: Expr): (r: Lowered)
    requires g.cur < |g.blocks|
    ensures r.graph.cur < |r.graph.blocks| && |g.blocks| <= |r.graph.blocks|
    decreases e, 2
  {
    match e
    case IntLit(n) => Lowered(Emit(g, Constant(g.temps, n)), g.temps)
    case BoolLit(b) => Lowered(Emit(g, Constant(g.temps, Bit(b))), g.temps)
    case VarRef(x) => Lowered(Emit(g, ReadVar(g.temps, x)), g.temps)
    case Assign(x, e1) => var r := LowerValue(g, e1); Lowered(Emit(r.graph, WriteVar(x, r.temp)), r.temp)
    case Prim(op, args) =>
      var r := LowerValues(g, args);
      Lowered(Emit(r.graph, Perform(r.graph.temps, op, r.temps)), r.graph.temps)
    case Rel(_, _, _) =>
      var c := LowerRelation(g, e);
      JoinBoolean(c, Edge(c.cur, ProjFalse), Edge(c.cur, ProjTrue))
    case AndThen(_, _) => LowerJunctionValue(g, e)
    case OrElse(_, _) => LowerJunctionValue(g, e)
    case Not(_) => NotPhi(SetCur(LowerNegation(NewBlock(g, []), e, |g.blocks|), |g.blocks|))
  }

  function LowerValues(g: Graph, es: seq<Expr>): (r: LoweredAll)
    requires g.cur < |g.blocks|
    ensures r.graph.cur < |r.graph.blocks| && |g.blocks| <= |r.graph.blocks|
    decreases es, 0
  {
    if es == [] then LoweredAll(g, [])
    else
      var a := LowerValue(g, es[0]);
      var r := LowerValues(a.graph, es[1..]);
      LoweredAll(r.graph, [a.temp] + r.temps)
  }

  /** A comparison, as the condition of the block it ends in. */
  function LowerRelation(g: Graph, e: Expr): (h: Graph)
    requires e.Rel? && g.cur < |g.blocks|
    ensures h.cur < |h.blocks| && |g.blocks| <= |h.blocks|
    decreases e, 0
  {
    var a := LowerValue(g, e.left);
    var b := LowerValue(a.graph, e.right);
    SetCond(b.graph, Cond(e.rel, a.temp, b.temp))
  }

  /** Both operands of && or ||, the right one in block `right`. */
  function LowerJunction(g: Graph, e: Expr, right: BlockId, t: BlockId, f: BlockId): (h: Graph)
    requires e.AndThen? || e.OrElse?
    requires g.cur < |g.blocks| && t < |g.blocks| && f < |g.blocks| && right < |g.blocks|
    ensures h.cur < |h.blocks| && |g.blocks| <= |h.blocks|
    decreases e, 0
  {
    var h := LowerBranch(g, e.left, if e.AndThen? then right else t, if e.AndThen? then f else right);
    LowerBranch(SetCur(h, right), e.right, t, f)
  }

  function LowerJunctionValue(g: Graph, e: Expr): (r: Lowered)
    requires (e.AndThen? || e.OrElse?) && g.cur < |g.blocks|
    ensures r.graph.cur < |r.graph.blocks| && |g.blocks| <= |r.graph.blocks|
    decreases e, 1
  {
    var n := |g.blocks|;
    var h := LowerJunction(NewBlock(NewBlock(NewBlock(g, []), []), []), e, n, n + 1, n + 2);
    JoinBoolean(h, Edge(n + 2, Jmp), Edge(n + 1, Jmp))
  }

  /** A condition: control goes to `t` if it holds and to `f` otherwise. If these are one block, a negation exchanges the
      two edges it finds there. */
  function LowerBranch(g: Graph, e: Expr, t: BlockId, f: BlockId): (h: Graph)
    requires g.cur < |g.blocks| && t < |g.blocks| && f < |g.blocks|
    ensures h.cur < |h.blocks| && |g.blocks| <= |h.blocks|
    decreases e, 3
  {
    if e.BoolLit? then
      if e.b then AddPred(AddPred(g, t, Edge(g.cur, Jmp)), f, Bad) else AddPred(AddPred(g, t, Bad), f, Edge(g.cur, Jmp))
    else if e.AndThen? || e.OrElse? then LowerJunction(NewBlock(g, []), e, |g.blocks|, t, f)
    else if e.Not? then
      if t == f && g.blocks[t].preds == [] && SingleEdges(e) then LowerSame(g, Core(e), t, Negated(e)) else LowerBranch(g, e.e, f, t)
    else if e.Rel? then Project(LowerRelation(g, e), t, f)
    else var r := LowerValue(g, e); TestBoolean(r.graph, r.temp, t, f)
  }

  /** Where the value of a negation is needed, its operand contributes one edge for each outcome. */
  predicate ValueInScope(e: Expr)
    decreases e, 0
  {
    match e
    case Assign(_, e1) => ValueInScope(e1)
    case Prim(_, args) => forall i :: 0 <= i < |args| ==> ValueInScope(args[i])
    case Rel(_, l, r) => ValueInScope(l) && ValueInScope(r)
    case AndThen(l, r) => BranchInScope(l) && BranchInScope(r)
    case OrElse(l, r) => BranchInScope(l) && BranchInScope(r)
    case Not(e1) => SingleEdges(e1) && BranchInScope(e1)
    case _ => true
  }

  predicate BranchInScope(e: Expr)
    decreases e, 1
  {
    if e.Not? then BranchInScope(e.e) else ValueInScope(e)
  }

  // ---- statements ----

  datatype Behaviour = MayContinue | Returns

  function CombineCfb(a: Behaviour, b: Behaviour): Behaviour { if a == b then a else MayContinue }

  /** The control-flow behaviour computed by the semantic pass (semantic_visitor.cpp). */
  function Cfb(st: Stmt): Behaviour {
    match st
    case Block(sts) => CfbAll(sts)
    case If(_, a, b) => CombineCfb(CfbOption(a), CfbOption(b))
    case Return(_) => Returns
    case _ => MayContinue
  }

  function CfbOption(st: Option<Stmt>): Behaviour {
    if st.None? then MayContinue else Cfb(st.value)
  }

  function CfbAll(sts: seq<Stmt>): Behaviour {
    if sts == [] then MayContinue else if Cfb(sts[0]) == Returns then Returns else CfbAll(sts[1..])
  }

  function LowerStmt(g: Graph, st: Stmt): (h: Graph)
    requires g.cur < |g.blocks|
    ensures h.cur < |h.blocks| && |g.blocks| <= |h.blocks|
    decreases st, 1
  {
    match st
    case ExprStmt(e) => if e.VarRef? then g else LowerValue(g, e).graph     // a variable is never loaded
    case VarDecl(_, None) => g
    case VarDecl(x, Some(e)) => var r := LowerValue(g, e); Emit(r.graph, WriteVar(x, r.temp))
    case Block(sts) => LowerAll(g, sts)
    case If(_, _, _) => LowerIf(g, st)
    case While(_, _) => LowerWhile(g, st)
    case Return(None) => LeaveWith(g, None)
    case Return(Some(e)) => var r := LowerValue(g, e); LeaveWith(r.graph, Some(r.temp))
  }

  /** new_Return, which is a predecessor of the end block. */
  function LeaveWith(g: Graph, result: Option<Temp>): (h: Graph)
    requires g.cur < |g.blocks|
    ensures h.cur == g.cur && |h.blocks| == |g.blocks|
  {
    AddPred(Emit(g, Leave(result)), 0, Edge(g.cur, Ret))
  }

  function LowerAll(g: Graph, sts: seq<Stmt>): (h: Graph)
    requires g.cur < |g.blocks|
    ensures h.cur < |h.blocks| && |g.blocks| <= |h.blocks|
    decreases sts, 0
  {
    if sts == [] then g else LowerAll(LowerStmt(g, sts[0]), sts[1..])
  }

  /** One branch of an if: its statement in block `b`, then on to `after` unless it returns. */
  function LowerArm(g: Graph, st: Option<Stmt>, b: BlockId, after: BlockId): (h: Graph)
    requires g.cur < |g.blocks| && b < |g.blocks| && after < |g.blocks|
    ensures h.cur < |h.blocks| && |g.blocks| <= |h.blocks|
    decreases st, 0
  {
    if st.None? then g
    else
      var h := LowerStmt(SetCur(g, b), st.value);
      if Cfb(st.value) == MayContinue then AddPred(h, after, Edge(h.cur, Jmp)) else h
  }

  function ThenBlock(g: Graph, st: Stmt): BlockId
    requires st.If?
  {
    if st.thenStmt.Some? then |g.blocks| + 1 else |g.blocks|
  }

  function ElseBlock(g: Graph, st: Stmt): BlockId
    requires st.If?
  {
    if st.elseStmt.None? then |g.blocks| else if st.thenStmt.Some? then |g.blocks| + 2 else |g.blocks| + 1
  }

  /** The block after the if, and one for each branch there is. */
  function IfBlocks(g: Graph, st: Stmt): (h: Graph)
    requires st.If?
    ensures h.cur == g.cur && |g.blocks| < |h.blocks| && ThenBlock(g, st) < |h.blocks| && ElseBlock(g, st) < |h.blocks|
  {
    var g1 := NewBlock(g, []);
    var g2 := if st.thenStmt.Some? then NewBlock(g1, []) else g1;
    if st.elseStmt.Some? then NewBlock(g2, []) else g2
  }

  function LowerIf(g: Graph, st: Stmt): (h: Graph)
    requires st.If? && g.cur < |g.blocks|
    ensures h.cur < |h.blocks| && |g.blocks| <= |h.blocks|
    decreases st, 0
  {
    var after := |g.blocks|;
    var g1 := LowerBranch(IfBlocks(g, st), st.cond, ThenBlock(g, st), ElseBlock(g, st));
    var g2 := LowerArm(g1, st.thenStmt, ThenBlock(g, st), after);
    SetCur(LowerArm(g2, st.elseStmt, ElseBlock(g, st), after), after)
  }

  /** The jump into the pre-header `|g.blocks|`. */
  function WhileEntry(g: Graph): Graph { SetCur(NewBlock(g, [Edge(g.cur, Jmp)]), |g.blocks|) }

  /** The jump on to the header, which is the current block from here. */
  function WhileHeader(g: Graph): Graph {
    SetCur(NewBlock(WhileEntry(g), [Edge(|g.blocks|, Jmp)]), |g.blocks| + 1)
  }

  /** The condition in the header, then the loop block as current block. */
  function WhileTest(g: Graph, c: Expr): (h: Graph)
    ensures h.cur < |h.blocks| && |g.blocks| + 4 <= |h.blocks|
  {
    SetCur(LowerBranch(NewBlock(NewBlock(WhileHeader(g), []), []), c, |g.blocks| + 2, |g.blocks| + 3), |g.blocks| + 2)
  }

  function LowerWhile(g: Graph, st: Stmt): (h: Graph)
    requires st.While? && g.cur < |g.blocks|
    ensures h.cur < |h.blocks| && |g.blocks| <= |h.blocks|
    decreases st, 0
  {
    var g1 := WhileTest(g, st.cond);
    var g2 := if st.body.None? then g1 else LowerStmt(g1, st.body.value);
    SetCur(if CfbOption(st.body) == MayContinue then AddPred(g2, |g.blocks|, Edge(g2.cur, Jmp)) else g2, |g.blocks| + 3)
  }

  predicate StmtInScope(st: Stmt)
    decreases st, 1
  {
    match st
    case ExprStmt(e) => ValueInScope(e)
    case VarDecl(_, init) => init.Some? ==> ValueInScope(init.value)
    case Block(sts) => AllInScope(sts)
    case If(c, a, b) => BranchInScope(c) && OptionInScope(a) && OptionInScope(b)
    case While(c, body) => BranchInScope(c) && OptionInScope(body)
    case Return(r) => r.Some? ==> ValueInScope(r.value)
  }

  predicate OptionInScope(st: Option<Stmt>)
    decreases st, 0
  {
    st.Some? ==> StmtInScope(st.value)
  }

  predicate AllInScope(sts: seq<Stmt>)
    decreases sts, 0
  {
    forall i :: 0 <= i < |sts| ==> StmtInScope(sts[i])
  }

  /** What the semantic pass leaves behind: nothing follows a statement that returns. */
  predicate Processed(st: Stmt)
    decreases st, 1
  {
    match st
    case Block(sts) => ProcessedAll(sts)
    case If(_, a, b) => ProcessedOption(a) && ProcessedOption(b)
    case While(_, body) => ProcessedOption(body)
    case _ => true
  }

  predicate ProcessedOption(st: Option<Stmt>)
    decreases st, 0
  {
    st.Some? ==> Processed(st.value)
  }

  predicate ProcessedAll(sts: seq<Stmt>)
    decreases sts, 0
  {
    forall i :: 0 <= i < |sts| ==> Processed(sts[i]) && (Cfb(sts[i]) == Returns ==> i == |sts| - 1)
  }

  /** A method body; a body that can complete returns `onEnd`: nothing, or 0 from main. Block 0 is the end block,
      block 1 the start block. */
  function LowerMethod(body: seq<Stmt>, onEnd: Option<int>): Graph {
    var g := LowerAll(Graph([BasicBlock([], [], None), BasicBlock([], [], None)], 1, 0), body);
    if CfbAll(body) == Returns then g
    else if onEnd.None? then LeaveWith(g, None)
    else LeaveWith(Emit(g, Constant(g.temps, onEnd.value)), Some(g.temps))
  }
}
