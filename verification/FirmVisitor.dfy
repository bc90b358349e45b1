/** The visitor that performs the lowering (firm_visitor.cpp): it appends to the graph in place and hands values and
    branch targets around on two stacks. */
module FirmVisitorClass {
  import opened Wrappers
  import opened Lowering
  import opened LoweringEdges
  import opened LoweringMethod

  /** What an expression leaves on the node stack: a node, a variable that is loaded when it is popped, or nothing
      because control flow has been decided. */
  datatype Pushed = RValue(temp: Temp) | VarValue(x: Var) | Nothing

  datatype BoolReq = NonBool | Targets(trueTarget: BlockId, falseTarget: BlockId)

  class FirmVisitor {
    const inMain: bool                 // the current method is the main method
    var blocks: seq<BasicBlock>
    var curBlock: BlockId
    var nodes: Temp
    var nodeStack: seq<Pushed>
    var reqBoolInfo: seq<BoolReq>

    ghost function Built(): Graph
      reads this
    {
      Graph(blocks, curBlock, nodes)
    }

    /** There is a request on the stack, and its targets exist. */
    ghost predicate Valid()
      reads this
    {
      && curBlock < |blocks| && |reqBoolInfo| > 0
      && forall i :: 0 <= i < |reqBoolInfo| && reqBoolInfo[i].Targets? ==>
           reqBoolInfo[i].trueTarget < |blocks| && reqBoolInfo[i].falseTarget < |blocks|
    }

    constructor (inMain: bool)
      ensures this.inMain == inMain && Valid() && Built() == Graph([BasicBlock([], [], None), BasicBlock([], [], None)], 1, 0)
      ensures nodeStack == [] && reqBoolInfo == [NonBool]
    {
      this.inMain := inMain;
      blocks, curBlock, nodes := [BasicBlock([], [], None), BasicBlock([], [], None)], 1, 0;
      nodeStack, reqBoolInfo := [], [NonBool];
    }

    // ---- libfirm ----

    method NewNode(i: Instr)
      requires curBlock < |blocks|
      modifies this`blocks, this`nodes
      ensures Built() == Emit(old(Built()), i)
    {
      blocks := blocks[curBlock := blocks[curBlock].(instrs := blocks[curBlock].instrs + [i])];
      nodes := nodes + 1;
    }

    method NewCond(c: Cond)
      requires curBlock < |blocks|
      modifies this`blocks
      ensures Built() == SetCond(old(Built()), c)
    {
      blocks := blocks[curBlock := blocks[curBlock].(cond := Some(c))];
    }

    method AddBlockPred(t: BlockId, e: Edge)
      requires t < |blocks|
      modifies this`blocks
      ensures Built() == AddPred(old(Built()), t, e)
    {
      blocks := blocks[t := blocks[t].(preds := blocks[t].preds + [e])];
    }

    method NewImmBlock() returns (b: BlockId)
      modifies this`blocks
      ensures Built() == NewBlock(old(Built()), []) && b == |old(blocks)|
    {
      b := |blocks|;
      blocks := blocks + [BasicBlock([], [], None)];
    }

    method NewJoinedBlock(e: Edge) returns (b: BlockId)
      modifies this`blocks
      ensures Built() == NewBlock(old(Built()), [e]) && b == |old(blocks)|
    {
      b := NewImmBlock();
      AddBlockPred(b, e);
      assert [] + [e] == [e];
      assert blocks == old(blocks) + [BasicBlock([e], [], None)];
    }

    // ---- stacks ----

    method PopLoaded() returns (t: Temp)
      requires Valid() && |nodeStack| > 0 && nodeStack[|nodeStack|-1] != Nothing
      modifies this`blocks, this`nodes, this`nodeStack
      ensures nodeStack == old(nodeStack[..|nodeStack|-1])
      ensures match old(nodeStack[|nodeStack|-1])
        case RValue(v) => Built() == old(Built()) && t == v
        case VarValue(x) => Built() == Emit(old(Built()), ReadVar(old(nodes), x)) && t == old(nodes)
        case Nothing => true
    {
      var v := nodeStack[|nodeStack|-1];
      nodeStack := nodeStack[..|nodeStack|-1];
      if v.VarValue? {
        t := nodes;
        NewNode(ReadVar(nodes, v.x));
      } else {
        t := v.temp;
      }
    }

    /** Evaluates an operand under a request of its own and loads its value. */
    method VisitOperand(e: Expr) returns (t: Temp)
      requires Valid()
      modifies this
      ensures Valid() && reqBoolInfo == old(reqBoolInfo) && nodeStack == old(nodeStack)
      ensures Lowered(Built(), t) == LowerValue(old(Built()), e)
      decreases e, 5
    {
      ghost var reqs, stack := reqBoolInfo, nodeStack;
      reqBoolInfo := reqBoolInfo + [NonBool];
      VisitExpr(e);
      assert nodeStack[..|nodeStack|-1] == stack;
      t := PopLoaded();
      reqBoolInfo := reqBoolInfo[..|reqBoolInfo|-1];
      assert reqBoolInfo == reqs;
    }

    /** Evaluates a condition under the given targets. */
    method VisitCondition(e: Expr, t: BlockId, f: BlockId)
      requires Valid() && t < |blocks| && f < |blocks|
      modifies this
      ensures Valid() && reqBoolInfo == old(reqBoolInfo) && nodeStack == old(nodeStack)
      ensures Built() == LowerBranch(old(Built()), e, t, f)
      decreases e, 5
    {
      ghost var reqs, stack := reqBoolInfo, nodeStack;
      reqBoolInfo := reqBoolInfo + [Targets(t, f)];
      VisitExpr(e);
      nodeStack := nodeStack[..|nodeStack|-1];
      reqBoolInfo := reqBoolInfo[..|reqBoolInfo|-1];
      assert reqBoolInfo == reqs && nodeStack == stack;
    }

    // ---- expressions ----

    /** What visiting `e` under the topmost request must do. */
    twostate predicate Visited(e: Expr)
      reads this
    {
      && old(Valid()) && Valid() && reqBoolInfo == old(reqBoolInfo)
      && |nodeStack| == |old(nodeStack)| + 1 && nodeStack[..|nodeStack|-1] == old(nodeStack)
      && var v := nodeStack[|nodeStack|-1];
         match old(reqBoolInfo[|reqBoolInfo|-1])
         case NonBool =>
           if e.VarRef? then v == VarValue(e.x) && Built() == old(Built())
           else v.RValue? && Lowered(Built(), v.temp) == LowerValue(old(Built()), e)
         case Targets(t, f) => v == Nothing && Built() == LowerBranch(old(Built()), e, t, f)
    }

    method VisitExpr(e: Expr)
      requires Valid()
      modifies this
      ensures Visited(e)
      decreases e, 4
    {
      match e {
        case IntLit(n) => VisitIntLiteral(e);
        case BoolLit(b) => VisitBoolLiteral(e);
        case VarRef(x) => VisitVarRef(e);
        case Assign(x, e1) => VisitAssignment(e);
        case Prim(op, args) => VisitPrimitive(e);
        case Rel(rel, l, r) => VisitRelation(e);
        case AndThen(l, r) => VisitJunction(e);
        case OrElse(l, r) => VisitJunction(e);
        case Not(e1) => VisitNot(e);
      }
    }

    /** Hands over a computed value: as control flow if that is what is requested. */
    method Deliver(t: Temp)
      requires Valid()
      modifies this`blocks, this`nodes, this`nodeStack
      ensures Valid()
      ensures match old(reqBoolInfo[|reqBoolInfo|-1])
        case NonBool => Built() == old(Built()) && nodeStack == old(nodeStack) + [RValue(t)]
        case Targets(a, b) => Built() == TestBoolean(old(Built()), t, a, b) && nodeStack == old(nodeStack) + [Nothing]
    {
      var req := reqBoolInfo[|reqBoolInfo|-1];
      if req.Targets? {
        BooleanToControlFlow(t, req.trueTarget, req.falseTarget);
        nodeStack := nodeStack + [Nothing];
      } else {
        nodeStack := nodeStack + [RValue(t)];
      }
    }

    method BooleanToControlFlow(t: Temp, trueBlock: BlockId, falseBlock: BlockId)
      requires curBlock < |blocks| && trueBlock < |blocks| && falseBlock < |blocks|
      modifies this`blocks, this`nodes
      ensures Built() == TestBoolean(old(Built()), t, trueBlock, falseBlock)
    {
      var zero := nodes;
      NewNode(Constant(zero, 0));
      NewCond(Cond(NotEqual, t, zero));
      AddBlockPred(trueBlock, Edge(curBlock, ProjTrue));
      AddBlockPred(falseBlock, Edge(curBlock, ProjFalse));
    }

    method ControlFlowToBoolean(falseEdge: Edge, trueEdge: Edge) returns (t: Temp)
      modifies this`blocks, this`nodes, this`curBlock
      ensures Lowered(Built(), t) == JoinBoolean(old(Built()), falseEdge, trueEdge)
    {
      blocks := blocks + [BasicBlock([falseEdge, trueEdge], [], None)];
      curBlock := |blocks| - 1;
      var falseNode := nodes;
      NewNode(Constant(falseNode, 0));
      var trueNode := nodes;
      NewNode(Constant(trueNode, 1));
      t := nodes;
      NewNode(Phi(t, [falseNode, trueNode]));
    }

    method VisitIntLiteral(e: Expr)
      requires Valid() && e.IntLit?
      modifies this
      ensures Visited(e)
    {
      var t := nodes;
      NewNode(Constant(t, e.n));
      Deliver(t);
    }

    method VisitBoolLiteral(e: Expr)
      requires Valid() && e.BoolLit?
      modifies this
      ensures Visited(e)
    {
      var req := reqBoolInfo[|reqBoolInfo|-1];
      if req.Targets? {
        if e.b {
          AddBlockPred(req.trueTarget, Edge(curBlock, Jmp));
          AddBlockPred(req.falseTarget, Bad);
        } else {
          AddBlockPred(req.trueTarget, Bad);
          AddBlockPred(req.falseTarget, Edge(curBlock, Jmp));
        }
        nodeStack := nodeStack + [Nothing];
      } else {
        nodeStack := nodeStack + [RValue(nodes)];
        NewNode(Constant(nodes, if e.b then 1 else 0));
      }
    }

    method VisitVarRef(e: Expr)
      requires Valid() && e.VarRef?
      modifies this
      ensures Visited(e)
    {
      nodeStack := nodeStack + [VarValue(e.x)];
      if reqBoolInfo[|reqBoolInfo|-1].Targets? {
        ghost var stack := old(nodeStack);
        assert nodeStack[..|nodeStack|-1] == stack;
        var t := PopLoaded();
        Deliver(t);
      }
    }

    method VisitAssignment(e: Expr)
      requires Valid() && e.Assign?
      modifies this
      ensures Visited(e)
      decreases e, 3
    {
      var t := VisitOperand(e.e);
      NewNode(WriteVar(e.x, t));
      Deliver(t);
    }

    method VisitPrimitive(e: Expr)
      requires Valid() && e.Prim?
      modifies this
      ensures Visited(e)
      decreases e, 3
    {
      var ts := VisitOperands(e.args);
      var t := nodes;
      NewNode(Perform(t, e.op, ts));
      Deliver(t);
    }

    method VisitOperands(es: seq<Expr>) returns (ts: seq<Temp>)
      requires Valid()
      modifies this
      ensures Valid() && reqBoolInfo == old(reqBoolInfo) && nodeStack == old(nodeStack)
      ensures LoweredAll(Built(), ts) == LowerValues(old(Built()), es)
      decreases es, 0
    {
      ts := [];
      var i := 0;
      while i < |es|
        invariant i <= |es| && Valid() && reqBoolInfo == old(reqBoolInfo) && nodeStack == old(nodeStack)
        invariant var r := LowerValues(Built(), es[i..]); LowerValues(old(Built()), es) == LoweredAll(r.graph, ts + r.temps)
      {
        assert es[i..][1..] == es[i+1..];
        var t := VisitOperand(es[i]);
        ts := ts + [t];
        i := i + 1;
      }
    }

    method VisitRelation(e: Expr)
      requires Valid() && e.Rel?
      modifies this
      ensures Visited(e)
      decreases e, 3
    {
      var req := reqBoolInfo[|reqBoolInfo|-1];
      var left := VisitOperand(e.left);
      var right := VisitOperand(e.right);
      NewCond(Cond(e.rel, left, right));
      assert Built() == LowerRelation(old(Built()), e);
      if req.Targets? {
        AddBlockPred(req.trueTarget, Edge(curBlock, ProjTrue));
        AddBlockPred(req.falseTarget, Edge(curBlock, ProjFalse));
        nodeStack := nodeStack + [Nothing];
      } else {
        var t := ControlFlowToBoolean(Edge(curBlock, ProjFalse), Edge(curBlock, ProjTrue));
        nodeStack := nodeStack + [RValue(t)];
      }
    }

    method VisitJunctionOperands(e: Expr, rightBlock: BlockId, trueTarget: BlockId, falseTarget: BlockId)
      requires Valid() && (e.AndThen? || e.OrElse?)
      requires rightBlock < |blocks| && trueTarget < |blocks| && falseTarget < |blocks|
      modifies this
      ensures Valid() && reqBoolInfo == old(reqBoolInfo) && nodeStack == old(nodeStack)
      ensures Built() == LowerJunction(old(Built()), e, rightBlock, trueTarget, falseTarget)
      decreases e, 2, 0
    {
      if e.AndThen? {
        VisitCondition(e.left, rightBlock, falseTarget);
      } else {
        VisitCondition(e.left, trueTarget, rightBlock);
      }
      curBlock := rightBlock;
      VisitCondition(e.right, trueTarget, falseTarget);
    }

    /** The short-circuit operators where a value is needed. */
    method VisitJunctionValue(e: Expr) returns (t: Temp)
      requires Valid() && (e.AndThen? || e.OrElse?)
      modifies this
      ensures Valid() && reqBoolInfo == old(reqBoolInfo) && nodeStack == old(nodeStack)
      ensures Lowered(Built(), t) == LowerJunctionValue(old(Built()), e)
      decreases e, 2, 1
    {
      var rightBlock := NewImmBlock();
      var trueTarget := NewImmBlock();
      var falseTarget := NewImmBlock();
      VisitJunctionOperands(e, rightBlock, trueTarget, falseTarget);
      t := ControlFlowToBoolean(Edge(falseTarget, Jmp), Edge(trueTarget, Jmp));
    }

    method VisitJunction(e: Expr)
      requires Valid() && (e.AndThen? || e.OrElse?)
      modifies this
      ensures Visited(e)
      decreases e, 3
    {
      var req := reqBoolInfo[|reqBoolInfo|-1];
      if req.Targets? {
        var rightBlock := NewImmBlock();
        VisitJunctionOperands(e, rightBlock, req.trueTarget, req.falseTarget);
        nodeStack := nodeStack + [Nothing];
      } else {
        var t := VisitJunctionValue(e);
        nodeStack := nodeStack + [RValue(t)];
      }
    }

    /** Exchanges the predecessors of a block that has two. */
    method SwapPreds(t: BlockId)
      requires t < |blocks|
      modifies this`blocks
      ensures Built() == SwapTwo(old(Built()), t)
    {
      var ps := blocks[t].preds;
      if |ps| == 2 {
        blocks := blocks[t := blocks[t].(preds := [ps[1], ps[0]])];
      }
    }

    /** The operand of a negation, with exchanged targets. */
    method VisitNegated(e: Expr, trueTarget: BlockId, falseTarget: BlockId)
      requires Valid() && e.Not? && trueTarget < |blocks| && falseTarget < |blocks|
      modifies this
      ensures Valid() && reqBoolInfo == old(reqBoolInfo) && nodeStack == old(nodeStack)
      ensures Built() == LowerBranch(old(Built()), e, trueTarget, falseTarget)
      decreases e, 2, 0
    {
      VisitCondition(e.e, falseTarget, trueTarget);
      if trueTarget == falseTarget {
        NegationSwaps(old(Built()), e, trueTarget);
        SwapPreds(trueTarget);
      }
    }

    /** The value of a negation, in a block that both outcomes lead to. */
    method VisitNegationValue(e: Expr) returns (t: Temp)
      requires Valid() && e.Not?
      modifies this
      ensures Valid() && reqBoolInfo == old(reqBoolInfo) && nodeStack == old(nodeStack)
      ensures Lowered(Built(), t) == LowerValue(old(Built()), e)
      decreases e, 2, 1
    {
      var target := NewImmBlock();
      ValueNegationSwaps(Built(), e, target);
      VisitNegated(e, target, target);
      curBlock := target;
      var trueNode := nodes;
      NewNode(Constant(trueNode, 1));
      var falseNode := nodes;
      NewNode(Constant(falseNode, 0));
      t := nodes;
      NewNode(Phi(t, [trueNode, falseNode]));
    }

    method VisitNot(e: Expr)
      requires Valid() && e.Not?
      modifies this
      ensures Visited(e)
      decreases e, 3
    {
      var req := reqBoolInfo[|reqBoolInfo|-1];
      if req.Targets? {
        VisitNegated(e, req.trueTarget, req.falseTarget);
        nodeStack := nodeStack + [Nothing];
      } else {
        var t := VisitNegationValue(e);
        nodeStack := nodeStack + [RValue(t)];
      }
    }

    // ---- statements ----

    ghost predicate Ready()
      reads this
    {
      Valid() && reqBoolInfo == [NonBool] && nodeStack == []
    }

    method VisitStmt(st: Stmt)
      requires Ready()
      modifies this
      ensures Ready() && Built() == LowerStmt(old(Built()), Resolve(inMain, st))
      decreases st, 2
    {
      match st {
        case ExprStmt(e) =>
          VisitExpr(e);
          nodeStack := nodeStack[..|nodeStack|-1];
        case VarDecl(x, init) =>
          if init.Some? {
            var t := VisitOperand(init.value);
            NewNode(WriteVar(x, t));
          }
        case Block(sts) => VisitBlock(sts);
        case If(c, a, b) => VisitIf(st);
        case While(c, body) => VisitWhile(st);
        case Return(value) => VisitReturn(value);
      }
    }

    method VisitBlock(sts: seq<Stmt>)
      requires Ready()
      modifies this
      ensures Ready() && Built() == LowerAll(old(Built()), ResolveAll(inMain, sts))
      decreases sts, 0
    {
      var i := 0;
      while i < |sts|
        invariant i <= |sts| && Ready()
        invariant LowerAll(Built(), ResolveAll(inMain, sts[i..])) == LowerAll(old(Built()), ResolveAll(inMain, sts))
      {
        assert sts[i..][1..] == sts[i+1..];
        assert ResolveAll(inMain, sts[i..])[1..] == ResolveAll(inMain, sts[i+1..]);
        VisitStmt(sts[i]);
        i := i + 1;
      }
    }

    method NewReturn(result: Option<Temp>)
      requires Ready()
      modifies this
      ensures Ready() && Built() == LeaveWith(old(Built()), result)
    {
      NewNode(Leave(result));
      AddBlockPred(0, Edge(curBlock, Ret));
    }

    method VisitReturn(value: Option<Expr>)
      requires Ready()
      modifies this
      ensures Ready() && Built() == LowerStmt(old(Built()), Resolve(inMain, Return(value)))
      decreases value, 1
    {
      if value.Some? {
        var t := VisitOperand(value.value);
        NewReturn(Some(t));
      } else if inMain {
        var t := nodes;
        NewNode(Constant(t, 0));
        NewReturn(Some(t));
      } else {
        NewReturn(None);
      }
    }

    method VisitArm(st: Option<Stmt>, b: BlockId, after: BlockId)
      requires Ready() && b < |blocks| && after < |blocks|
      modifies this
      ensures Ready() && Built() == LowerArm(old(Built()), ResolveOption(inMain, st), b, after)
      decreases st, 0
    {
      if st.Some? {
        curBlock := b;
        VisitStmt(st.value);
        if Cfb(st.value) == MayContinue {
          AddBlockPred(after, Edge(curBlock, Jmp));
        }
      }
    }

    method VisitIf(st: Stmt)
      requires Ready() && st.If?
      modifies this
      ensures Ready() && Built() == LowerStmt(old(Built()), Resolve(inMain, st))
      decreases st, 1
    {
      var afterBlock := NewImmBlock();
      var thenBlock, elseBlock := afterBlock, afterBlock;
      if st.thenStmt.Some? {
        thenBlock := NewImmBlock();
      }
      if st.elseStmt.Some? {
        elseBlock := NewImmBlock();
      }
      assert Built() == IfBlocks(old(Built()), st) && thenBlock == ThenBlock(old(Built()), st) && elseBlock == ElseBlock(old(Built()), st);
      VisitCondition(st.cond, thenBlock, elseBlock);
      VisitArm(st.thenStmt, thenBlock, afterBlock);
      VisitArm(st.elseStmt, elseBlock, afterBlock);
      curBlock := afterBlock;
    }

    /** Pre-header and header, which becomes the current block. */
    method VisitLoopHeader() returns (preHeader: BlockId)
      requires Ready()
      modifies this`blocks, this`curBlock
      ensures Ready() && Built() == WhileHeader(old(Built())) && preHeader == |old(blocks)|
    {
      preHeader := NewJoinedBlock(Edge(curBlock, Jmp));
      curBlock := preHeader;
      var header := NewJoinedBlock(Edge(curBlock, Jmp));
      curBlock := header;
    }

    /** The blocks and the condition of a loop, up to the loop block. */
    method VisitLoopTest(cond: Expr) returns (preHeader: BlockId, afterBlock: BlockId)
      requires Ready()
      modifies this
      ensures Ready() && Built() == WhileTest(old(Built()), cond)
      ensures preHeader == |old(blocks)| && afterBlock == |old(blocks)| + 3
      decreases cond, 6
    {
      preHeader := VisitLoopHeader();
      var loopBlock := NewImmBlock();
      afterBlock := NewImmBlock();
      VisitCondition(cond, loopBlock, afterBlock);
      curBlock := loopBlock;
    }

    method VisitWhile(st: Stmt)
      requires Ready() && st.While?
      modifies this
      ensures Ready() && Built() == LowerStmt(old(Built()), Resolve(inMain, st))
      decreases st, 1
    {
      var preHeader, afterBlock := VisitLoopTest(st.cond);
      if st.body.Some? {
        VisitStmt(st.body.value);
      }
      if st.body.None? || Cfb(st.body.value) == MayContinue {
        AddBlockPred(preHeader, Edge(curBlock, Jmp));
      }
      curBlock := afterBlock;
    }

    /** visitMainMethod and visitRegularMethod: the body, and a return if it can complete, of 0 in the main method. */
    method VisitMethod(body: seq<Stmt>)
      requires Ready() && Built() == Graph([BasicBlock([], [], None), BasicBlock([], [], None)], 1, 0)
      modifies this
      ensures Built() == LowerMethod(ResolveAll(inMain, body), OnEnd(inMain))
    {
      VisitBlock(body);
      if CfbAll(body) == MayContinue {
        if inMain {
          var t := nodes;
          NewNode(Constant(t, 0));
          NewReturn(Some(t));
        } else {
          NewReturn(None);
        }
      }
    }
  }
}
