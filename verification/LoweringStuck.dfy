/** A negation whose value lowering gets wrong (visitUnaryExpression in firm_visitor.cpp): !(x && y). */
module LoweringStuck {
  import opened Wrappers
  import opened Lowering
  import opened LoweringCorrect

  /** A method before its body, and the negation. */
  function EmptyMethod(): Graph { Graph([BasicBlock([], [], None), BasicBlock([], [], None)], 1, 0) }

  function NegatedAnd(): Expr { Not(AndThen(VarRef(0), VarRef(1))) }

  /** Block 2 holds the phi, block 3 tests the right operand. */
  function NegatedAndGraph(): Graph {
    Graph([BasicBlock([], [], None), BasicBlock([], [ReadVar(0, 0), Constant(1, 0)], Some(Cond(NotEqual, 0, 1))),
           BasicBlock([Edge(1, ProjFalse), Edge(3, ProjTrue), Edge(3, ProjFalse)], [Constant(4, 1), Constant(5, 0), Phi(6, [4, 5])], None),
           BasicBlock([Edge(1, ProjTrue)], [ReadVar(2, 1), Constant(3, 0)], Some(Cond(NotEqual, 2, 3)))], 2, 7)
  }

  /** After the left operand has been lowered. */
  function NegatedAndLeft(): Graph {
    Graph([BasicBlock([], [], None), BasicBlock([], [ReadVar(0, 0), Constant(1, 0)], Some(Cond(NotEqual, 0, 1))),
           BasicBlock([Edge(1, ProjFalse)], [], None), BasicBlock([Edge(1, ProjTrue)], [], None)], 1, 2)
  }

  /** After both. */
  function NegatedAndBoth(): Graph {
    Graph([BasicBlock([], [], None), BasicBlock([], [ReadVar(0, 0), Constant(1, 0)], Some(Cond(NotEqual, 0, 1))),
           BasicBlock([Edge(1, ProjFalse), Edge(3, ProjTrue), Edge(3, ProjFalse)], [], None),
           BasicBlock([Edge(1, ProjTrue)], [ReadVar(2, 1), Constant(3, 0)], Some(Cond(NotEqual, 2, 3)))], 3, 4)
  }

  lemma LeftLowered()
    ensures LowerBranch(NewBlock(NewBlock(EmptyMethod(), []), []), VarRef(0), 3, 2) == NegatedAndLeft()
  {
    var g, w := NewBlock(NewBlock(EmptyMethod(), []), []), NegatedAndLeft();
    assert LowerValue(g, VarRef(0)) == Lowered(Emit(g, ReadVar(0, 0)), 0);
    var h := TestValue(Emit(g, ReadVar(0, 0)), 0);
    assert h.blocks[1].instrs == [] + [ReadVar(0, 0)] + [Constant(1, 0)] == w.blocks[1].instrs;
    var k := Project(h, 3, 2);
    assert k.blocks[3].preds == [] + [Edge(1, ProjTrue)] && k.blocks[2].preds == [] + [Edge(1, ProjFalse)];
    assert k.blocks[0] == w.blocks[0] && k.blocks[1] == w.blocks[1] && k.blocks[2] == w.blocks[2] && k.blocks[3] == w.blocks[3];
  }

  lemma RightLowered()
    ensures LowerBranch(SetCur(NegatedAndLeft(), 3), VarRef(1), 2, 2) == NegatedAndBoth()
  {
    var g, w := SetCur(NegatedAndLeft(), 3), NegatedAndBoth();
    assert LowerValue(g, VarRef(1)) == Lowered(Emit(g, ReadVar(2, 1)), 2);
    var h := TestValue(Emit(g, ReadVar(2, 1)), 2);
    assert h.blocks[3].instrs == [] + [ReadVar(2, 1)] + [Constant(3, 0)] == w.blocks[3].instrs;
    var k := Project(h, 2, 2);
    assert k.blocks[2].preds == [Edge(1, ProjFalse)] + [Edge(3, ProjTrue)] + [Edge(3, ProjFalse)] == w.blocks[2].preds;
    assert k.blocks[0] == w.blocks[0] && k.blocks[1] == w.blocks[1] && k.blocks[2] == w.blocks[2] && k.blocks[3] == w.blocks[3];
  }

  lemma PhiAdded()
    ensures NotPhi(SetCur(NegatedAndBoth(), 2)) == Lowered(NegatedAndGraph(), 6)
  {
    var r, w := NotPhi(SetCur(NegatedAndBoth(), 2)), NegatedAndGraph();
    assert r.graph.blocks[2].instrs == [] + [Constant(4, 1)] + [Constant(5, 0)] + [Phi(6, [4, 5])] == w.blocks[2].instrs;
    assert r.graph.blocks == w.blocks;
  }

  lemma NegatedAndLowered()
    ensures LowerValue(EmptyMethod(), NegatedAnd()) == Lowered(NegatedAndGraph(), 6)
  {
    var g, e := NewBlock(EmptyMethod(), []), AndThen(VarRef(0), VarRef(1));
    LeftLowered();
    RightLowered();
    assert LowerJunction(NewBlock(g, []), e, 3, 2, 2) == NegatedAndBoth();
    assert LowerNegation(g, NegatedAnd(), 2) == LowerBranch(g, e, 2, 2) == NegatedAndBoth();
    PhiAdded();
  }

  /** Left operand set: on to the block of the right one. */
  lemma LeftRuns(o: Oracle, s: Store) returns (temps: map<Temp, int>, k: nat)
    requires Read(s, 0) != 0
    ensures Reaches(StepsOf(o, NegatedAndGraph()), Running(1, 0, 0, map[], s), Running(3, 0, 0, temps, s), k) && k == 3
  {
    var g, none: map<Temp, int> := NegatedAndGraph(), map[];
    var t := none[0 := Read(s, 0)];
    temps, k := t[1 := 0], 3;
    assert HasEdge(g, 3, 0, Edge(1, ProjTrue));
    ThreeSteps(StepsOf(o, g), Running(1, 0, 0, none, s), Running(1, 1, 0, t, s), Running(1, 2, 0, temps, s), Running(3, 0, 0, temps, s));
  }

  /** Right operand not set: over the third edge to the block of the phi. */
  lemma RightRuns(o: Oracle, s: Store, temps: map<Temp, int>, k: nat) returns (temps': map<Temp, int>)
    requires Read(s, 1) == 0 && k == 3
    ensures Reaches(StepsOf(o, NegatedAndGraph()), Running(3, 0, 0, temps, s), Running(2, 0, 2, temps', s), k)
  {
    var g := NegatedAndGraph();
    var t := temps[2 := Read(s, 1)];
    temps' := t[3 := 0];
    assert HasEdge(g, 2, 2, Edge(3, ProjFalse));
    ThreeSteps(StepsOf(o, g), Running(3, 0, 0, temps, s), Running(3, 1, 0, t, s), Running(3, 2, 0, temps', s), Running(2, 0, 2, temps', s));
  }

  lemma ThreeSteps(p: Step, a: Config, b: Config, c: Config, d: Config)
    requires p(a, b) && p(b, c) && p(c, d)
    ensures Reaches(p, a, d, 3)
  {
    assert Reaches(p, d, d, 0) && Reaches(p, c, d, 1) && Reaches(p, b, d, 2);
  }

  lemma PhiReached(o: Oracle, s: Store, temps: map<Temp, int>) returns (temps': map<Temp, int>, m: nat)
    ensures Reaches(StepsOf(o, NegatedAndGraph()), Running(2, 0, 2, temps, s), Running(2, 2, 2, temps', s), m)
  {
    var p := StepsOf(o, NegatedAndGraph());
    var t := temps[4 := 1];
    temps', m := t[5 := 0], 2;
    var a, b, c := Running(2, 0, 2, temps, s), Running(2, 1, 2, t, s), Running(2, 2, 2, temps', s);
    assert p(a, b) && p(b, c) && Reaches(p, c, c, 0) && Reaches(p, b, c, 1);
  }

  lemma Joined(p: Step, a: Config, b: Config, c: Config, d: Config, k: nat, m: nat)
    requires Reaches(p, a, b, k) && Reaches(p, b, c, k) && Reaches(p, c, d, m)
    ensures Reaches(p, a, d, k + k + m)
  {
    Concat(p, a, b, c, k, k);
    Concat(p, a, c, d, k + k, m);
  }

  /** The phi has two operands and was entered over the third edge. */
  lemma PhiStuck(o: Oracle, s: Store, temps: map<Temp, int>, d: Config)
    ensures !Steps(o, NegatedAndGraph(), Running(2, 2, 2, temps, s), d)
  {
  }

  lemma GetsStuck(o: Oracle, s: Store) returns (temps: map<Temp, int>, n: nat)
    requires Read(s, 0) != 0 && Read(s, 1) == 0
    ensures Reaches(StepsOf(o, NegatedAndGraph()), Running(1, 0, 0, map[], s), Running(2, 2, 2, temps, s), n)
  {
    var t, k := LeftRuns(o, s);
    var u := RightRuns(o, s, t, k);
    var m;
    temps, m := PhiReached(o, s, u);
    n := k + k + m;
    Joined(StepsOf(o, NegatedAndGraph()), Running(1, 0, 0, map[], s), Running(3, 0, 0, t, s), Running(2, 0, 2, u, s),
      Running(2, 2, 2, temps, s), k, m);
  }

  lemma NegationIsOne(o: Oracle, s: Store)
    requires Read(s, 0) != 0 && Read(s, 1) == 0
    ensures Eval(o, NegatedAnd(), s) == Evaluated(1, s)
  {
  }

  /** Where x is set and y is not, the negation is 1; the phi is entered over a third edge, for which it has no operand,
      and the graph is stuck. */
  lemma NegatedAndStuck(o: Oracle, s: Store) returns (temps: map<Temp, int>, n: nat, g: Graph)
    requires Read(s, 0) != 0 && Read(s, 1) == 0
    ensures Eval(o, NegatedAnd(), s) == Evaluated(1, s) && g == LowerValue(EmptyMethod(), NegatedAnd()).graph
    ensures Reaches(StepsOf(o, g), Running(1, 0, 0, map[], s), Running(2, 2, 2, temps, s), n)
    ensures forall d: Config :: !Steps(o, g, Running(2, 2, 2, temps, s), d)
  {
    g := NegatedAndGraph();
    temps, n := GetsStuck(o, s);
    forall d: Config ensures !Steps(o, g, Running(2, 2, 2, temps, s), d) { PhiStuck(o, s, temps, d); }
    NegationIsOne(o, s);
    NegatedAndLowered();
  }
}
