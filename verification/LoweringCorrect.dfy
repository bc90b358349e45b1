/** Lowered expressions compute what the source expression computes, with the same events in the same order. */
module LoweringCorrect {
  import opened Wrappers
  import opened Lowering
  import opened LoweringEdges
  import opened LoweringShape

  /** `g` is an early stage of the finished graph `w`: blocks that already have an exit are final. */
  ghost predicate Within(g: Graph, w: Graph) {
    && |g.blocks| <= |w.blocks|
    && (forall b: BlockId :: b < |g.blocks| ==> BlockGrows(g.blocks[b], w.blocks[b]))
    && (forall b: BlockId :: b < |g.blocks| && !Open(g, b) ==> BlockKept(g.blocks[b], w.blocks[b]))
  }

  lemma WithinBack(g: Graph, h: Graph, w: Graph)
    requires Grows(g, h) && Within(h, w) && Open(g, g.cur)
    ensures Within(g, w)
  {
    forall b: BlockId | b < |g.blocks| && !Open(g, b) ensures BlockKept(g.blocks[b], w.blocks[b]) {
      assert BlockKept(g.blocks[b], h.blocks[b]);
      if Open(h, b) {
        var t: BlockId, i: nat, k :| HasEdge(g, t, i, Edge(b, k));
        EdgesKept(g, h, t, i, Edge(b, k));
      }
    }
  }

  lemma WithinEdge(g: Graph, w: Graph, t: BlockId, i: nat, e: Edge)
    requires Within(g, w) && HasEdge(g, t, i, e)
    ensures HasEdge(w, t, i, e)
    ensures e.Edge? && e.source < |g.blocks| ==> BlockKept(g.blocks[e.source], w.blocks[e.source])
  {
    assert BlockGrows(g.blocks[t], w.blocks[t]);
  }

  lemma WithinSetCur(g: Graph, w: Graph, b: BlockId)
    ensures Within(SetCur(g, b), w) == Within(g, w)
  {
    forall c: BlockId ensures Open(SetCur(g, b), c) == Open(g, c) { SameOpen(g, b, c); }
  }

  lemma SameOpen(g: Graph, b: BlockId, c: BlockId)
    ensures Open(SetCur(g, b), c) == Open(g, c)
  {
    forall t: BlockId, i: nat, e ensures HasEdge(SetCur(g, b), t, i, e) == HasEdge(g, t, i, e) {}
  }

  /** At the end of the current block as it is so far. */
  function At(g: Graph, entry: nat, temps: map<Temp, int>, s: Store): Config
    requires g.cur < |g.blocks|
  {
    Running(g.cur, |g.blocks[g.cur].instrs|, entry, temps, s)
  }

  /** Older temporaries keep their values. */
  ghost predicate Agree(temps: map<Temp, int>, temps': map<Temp, int>, n: Temp) {
    forall t: Temp :: t < n && t in temps ==> t in temps' && temps'[t] == temps[t]
  }

  // ---- sequences of steps ----

  type Step = (Config, Config) -> bool

  /** `p` has all steps of graph `w`. */
  ghost predicate Includes(p: Step, o: Oracle, w: Graph) {
    forall c, d {:trigger Steps(o, w, c, d)} :: Steps(o, w, c, d) ==> p(c, d)
  }

  lemma {:induction false} Concat(p: Step, c: Config, d: Config, e: Config, n: nat, m: nat)
    requires Reaches(p, c, d, n) && Reaches(p, d, e, m)
    ensures Reaches(p, c, e, n + m)
    decreases n
  {
    if n > 0 {
      var x :| p(c, x) && Reaches(p, x, d, n - 1);
      Concat(p, x, d, e, n - 1, m);
    }
  }

  lemma One(p: Step, c: Config, d: Config)
    requires p(c, d)
    ensures Reaches(p, c, d, 1)
  {
    assert Reaches(p, d, d, 0);
  }

  lemma EmitRuns(p: Step, o: Oracle, g: Graph, i: Instr, w: Graph, entry: nat, temps: map<Temp, int>, s: Store, d: Config)
    requires Includes(p, o, w)
    requires g.cur < |g.blocks| && Within(Emit(g, i), w) && InstrSteps(o, i, At(g, entry, temps, s), d)
    ensures Reaches(p, At(g, entry, temps, s), d, 1)
  {
    var b := g.cur;
    assert BlockGrows(Emit(g, i).blocks[b], w.blocks[b]);
    assert w.blocks[b].instrs[|g.blocks[b].instrs|] == i;
    assert Steps(o, w, At(g, entry, temps, s), d);
    One(p, At(g, entry, temps, s), d);
  }

  /** Leaving a finished block. */
  lemma ExitRuns(p: Step, o: Oracle, h: Graph, b: BlockId, k: EdgeKind, t: BlockId, i: nat, w: Graph, entry: nat, temps: map<Temp, int>, s: Store)
    requires Includes(p, o, w)
    requires Within(h, w) && b < |h.blocks| && HasEdge(h, t, i, Edge(b, k)) && ExitsBy(h.blocks[b], temps, k)
    ensures Reaches(p, Running(b, |h.blocks[b].instrs|, entry, temps, s), Running(t, 0, i, temps, s), 1)
  {
    WithinEdge(h, w, t, i, Edge(b, k));
    assert Steps(o, w, Running(b, |h.blocks[b].instrs|, entry, temps, s), Running(t, 0, i, temps, s));
    One(p, Running(b, |h.blocks[b].instrs|, entry, temps, s), Running(t, 0, i, temps, s));
  }

  // ---- expressions ----

  /** The join block of controlFlowToBoolean while it is still empty. */
  function JoinBlock(g: Graph, fe: Edge, te: Edge): Graph { SetCur(NewBlock(g, [fe, te]), |g.blocks|) }

  lemma JoinWithin(g: Graph, fe: Edge, te: Edge, w: Graph)
    requires Ok(JoinBlock(g, fe, te)) && Open(JoinBlock(g, fe, te), |g.blocks|) && Within(JoinBoolean(g, fe, te).graph, w)
    ensures var g1 := JoinBlock(g, fe, te);
      var g2 := Emit(g1, Constant(g1.temps, 0));
      Within(g1, w) && Within(g2, w) && Within(Emit(g2, Constant(g2.temps, 1)), w)
  {
    var g1 := JoinBlock(g, fe, te);
    var g2 := Emit(g1, Constant(g1.temps, 0));
    var g3 := Emit(g2, Constant(g2.temps, 1));
    EmitShape(g1, Constant(g1.temps, 0));
    EmitShape(g2, Constant(g2.temps, 1));
    EmitShape(g3, Phi(g3.temps, [g1.temps, g2.temps]));
    WithinBack(g3, JoinBoolean(g, fe, te).graph, w);
    WithinBack(g2, g3, w);
    WithinBack(g1, g2, w);
  }

  /** The join block turns the way it was entered into 0 or 1. */
  lemma JoinRuns(p: Step, o: Oracle, g: Graph, fe: Edge, te: Edge, w: Graph, entry: nat, temps: map<Temp, int>, s: Store)
    returns (temps': map<Temp, int>)
    requires Includes(p, o, w)
    requires entry < 2 && Within(JoinBoolean(g, fe, te).graph, w)
    requires Ok(JoinBlock(g, fe, te)) && Open(JoinBlock(g, fe, te), |g.blocks|)
    ensures var r := JoinBoolean(g, fe, te);
      && Reaches(p, Running(|g.blocks|, 0, entry, temps, s), At(r.graph, entry, temps', s), 3)
      && r.temp in temps' && temps'[r.temp] == entry && Agree(temps, temps', g.temps)
  {
    JoinWithin(g, fe, te, w);
    var g1 := JoinBlock(g, fe, te);
    var i1 := Constant(g1.temps, 0);
    var g2 := Emit(g1, i1);
    var i2 := Constant(g2.temps, 1);
    var g3 := Emit(g2, i2);
    var i3 := Phi(g3.temps, [g1.temps, g2.temps]);
    var t1 := temps[g1.temps := 0];
    var t2 := t1[g2.temps := 1];
    temps' := t2[g3.temps := entry];
    EmitRuns(p, o, g1, i1, w, entry, temps, s, At(g2, entry, t1, s));
    EmitRuns(p, o, g2, i2, w, entry, t1, s, At(g3, entry, t2, s));
    EmitRuns(p, o, g3, i3, w, entry, t2, s, At(Emit(g3, i3), entry, temps', s));
    Concat(p, At(g1, entry, temps, s), At(g2, entry, t1, s), At(g3, entry, t2, s), 1, 1);
    Concat(p, At(g1, entry, temps, s), At(g3, entry, t2, s), At(Emit(g3, i3), entry, temps', s), 2, 1);
  }

  lemma {:induction false} ValueRuns(p: Step, o: Oracle, g: Graph, e: Expr, w: Graph, entry: nat, temps: map<Temp, int>, s: Store)
    returns (entry': nat, temps': map<Temp, int>, n: nat)
    requires Includes(p, o, w)
    requires Ok(g) && Open(g, g.cur) && ValueInScope(e) && Within(LowerValue(g, e).graph, w)
    ensures var r, v := LowerValue(g, e), Eval(o, e, s);
      && Reaches(p, At(g, entry, temps, s), At(r.graph, entry', temps', v.store), n)
      && r.temp in temps' && temps'[r.temp] == v.value && Agree(temps, temps', g.temps)
    decreases e, 3
  {
    if e.IntLit? {
      entry', temps', n := entry, temps[g.temps := e.n], 1;
      EmitRuns(p, o, g, Constant(g.temps, e.n), w, entry, temps, s, At(LowerValue(g, e).graph, entry, temps', s));
    } else if e.BoolLit? {
      entry', temps', n := entry, temps[g.temps := Bit(e.b)], 1;
      EmitRuns(p, o, g, Constant(g.temps, Bit(e.b)), w, entry, temps, s, At(LowerValue(g, e).graph, entry, temps', s));
    } else if e.VarRef? {
      entry', temps', n := entry, temps[g.temps := Read(s, e.x)], 1;
      EmitRuns(p, o, g, ReadVar(g.temps, e.x), w, entry, temps, s, At(LowerValue(g, e).graph, entry, temps', s));
    } else if e.Assign? {
      entry', temps', n := AssignRuns(p, o, g, e, w, entry, temps, s);
    } else if e.Prim? {
      entry', temps', n := PrimRuns(p, o, g, e, w, entry, temps, s);
    } else if e.Rel? {
      entry', temps', n := RelationValueRuns(p, o, g, e, w, entry, temps, s);
    } else if e.Not? {
      entry', temps', n := NegationValueRuns(p, o, g, e, w, entry, temps, s);
    } else {
      entry', temps', n := JunctionValueRuns(p, o, g, e, w, entry, temps, s);
    }
  }

  lemma {:induction false} AssignRuns(p: Step, o: Oracle, g: Graph, e: Expr, w: Graph, entry: nat, temps: map<Temp, int>, s: Store)
    returns (entry': nat, temps': map<Temp, int>, n: nat)
    requires Includes(p, o, w)
    requires Ok(g) && Open(g, g.cur) && ValueInScope(e) && Within(LowerValue(g, e).graph, w) && e.Assign?
    ensures var r, v := LowerValue(g, e), Eval(o, e, s);
      && Reaches(p, At(g, entry, temps, s), At(r.graph, entry', temps', v.store), n)
      && r.temp in temps' && temps'[r.temp] == v.value && Agree(temps, temps', g.temps)
    decreases e, 2
  {
    var r, v := LowerValue(g, e.e), Eval(o, e.e, s);
    var i := WriteVar(e.x, r.temp);
    ValueShape(g, e.e);
    EmitShape(r.graph, i);
    WithinBack(r.graph, Emit(r.graph, i), w);
    entry', temps', n := ValueRuns(p, o, g, e.e, w, entry, temps, s);
    var d := At(Emit(r.graph, i), entry', temps', Write(v.store, e.x, v.value));
    EmitRuns(p, o, r.graph, i, w, entry', temps', v.store, d);
    Concat(p, At(g, entry, temps, s), At(r.graph, entry', temps', v.store), d, n, 1);
    n := n + 1;
  }

  lemma {:induction false} PrimRuns(p: Step, o: Oracle, g: Graph, e: Expr, w: Graph, entry: nat, temps: map<Temp, int>, s: Store)
    returns (entry': nat, temps': map<Temp, int>, n: nat)
    requires Includes(p, o, w)
    requires Ok(g) && Open(g, g.cur) && ValueInScope(e) && Within(LowerValue(g, e).graph, w) && e.Prim?
    ensures var r, v := LowerValue(g, e), Eval(o, e, s);
      && Reaches(p, At(g, entry, temps, s), At(r.graph, entry', temps', v.store), n)
      && r.temp in temps' && temps'[r.temp] == v.value && Agree(temps, temps', g.temps)
    decreases e, 2
  {
    var r, v := LowerValues(g, e.args), EvalAll(o, e.args, s);
    var i := Perform(r.graph.temps, e.op, r.temps);
    ValuesShape(g, e.args);
    EmitShape(r.graph, i);
    WithinBack(r.graph, Emit(r.graph, i), w);
    entry', temps', n := ValuesRun(p, o, g, e.args, w, entry, temps, s);
    var q := Happen(o, Event(e.op, v.values), v.store);
    var d := At(Emit(r.graph, i), entry', temps'[r.graph.temps := q.value], q.store);
    assert Values(temps', r.temps) == v.values;
    EmitRuns(p, o, r.graph, i, w, entry', temps', v.store, d);
    Concat(p, At(g, entry, temps, s), At(r.graph, entry', temps', v.store), d, n, 1);
    temps', n := temps'[r.graph.temps := q.value], n + 1;
  }

  lemma {:induction false} ValuesRun(p: Step, o: Oracle, g: Graph, es: seq<Expr>, w: Graph, entry: nat, temps: map<Temp, int>, s: Store)
    returns (entry': nat, temps': map<Temp, int>, n: nat)
    requires Includes(p, o, w)
    requires Ok(g) && Open(g, g.cur) && Within(LowerValues(g, es).graph, w)
    requires forall i :: 0 <= i < |es| ==> ValueInScope(es[i])
    ensures var r, v := LowerValues(g, es), EvalAll(o, es, s);
      && Reaches(p, At(g, entry, temps, s), At(r.graph, entry', temps', v.store), n)
      && Carry(temps', r.temps, v.values) && Agree(temps, temps', g.temps)
    decreases es, 1
  {
    if es == [] {
      entry', temps', n := entry, temps, 0;
    } else {
      ValuesFirst(o, g, es, s);
      entry', temps', n := RestRun(p, o, g, es, w, entry, temps, s);
    }
  }

  lemma ValuesFirst(o: Oracle, g: Graph, es: seq<Expr>, s: Store)
    requires g.cur < |g.blocks| && es != []
    ensures var a, v := LowerValue(g, es[0]), Eval(o, es[0], s);
      var r, u := LowerValues(a.graph, es[1..]), EvalAll(o, es[1..], v.store);
      LowerValues(g, es) == LoweredAll(r.graph, [a.temp] + r.temps) && EvalAll(o, es, s) == EvaluatedAll([v.value] + u.values, u.store)
  {
  }

  /** The first value and then the others. */
  lemma {:induction false} RestRun(p: Step, o: Oracle, g: Graph, es: seq<Expr>, w: Graph, entry: nat, temps: map<Temp, int>, s: Store)
    returns (entry': nat, temps': map<Temp, int>, n: nat)
    requires Includes(p, o, w)
    requires Ok(g) && Open(g, g.cur) && es != [] && Within(LowerValues(g, es).graph, w)
    requires forall i :: 0 <= i < |es| ==> ValueInScope(es[i])
    ensures var a, v := LowerValue(g, es[0]), Eval(o, es[0], s);
      var r, u := LowerValues(a.graph, es[1..]), EvalAll(o, es[1..], v.store);
      && Reaches(p, At(g, entry, temps, s), At(r.graph, entry', temps', u.store), n)
      && Carry(temps', [a.temp] + r.temps, [v.value] + u.values) && Agree(temps, temps', g.temps)
    decreases es, 0
  {
    var a, v := LowerValue(g, es[0]), Eval(o, es[0], s);
    ValuesParts(g, es, w);
    var e1, t1, n1 := ValueRuns(p, o, g, es[0], w, entry, temps, s);
    var n2;
    entry', temps', n2 := ValuesRun(p, o, a.graph, es[1..], w, e1, t1, v.store);
    var r, u := LowerValues(a.graph, es[1..]), EvalAll(o, es[1..], v.store);
    CarryFirst(temps', a.temp, r.temps, v.value, u.values);
    n := Both(p, At(g, entry, temps, s), At(a.graph, e1, t1, v.store), At(r.graph, entry', temps', u.store), n1, n2,
              temps, t1, temps', g.temps, a.graph.temps);
  }

  lemma Both(p: Step, c: Config, d: Config, e: Config, n1: nat, n2: nat,
             temps: map<Temp, int>, t1: map<Temp, int>, t2: map<Temp, int>, m1: Temp, m2: Temp)
    returns (n: nat)
    requires Reaches(p, c, d, n1) && Reaches(p, d, e, n2) && Agree(temps, t1, m1) && Agree(t1, t2, m2) && m1 <= m2
    ensures Reaches(p, c, e, n) && Agree(temps, t2, m1)
  {
    Concat(p, c, d, e, n1, n2);
    n := n1 + n2;
  }

  /** The temporaries have these values. */
  ghost predicate Carry(temps: map<Temp, int>, ts: seq<Temp>, values: seq<int>) {
    |ts| == |values| && forall i :: 0 <= i < |ts| ==> ts[i] in temps && temps[ts[i]] == values[i]
  }

  lemma CarryFirst(temps: map<Temp, int>, t: Temp, ts: seq<Temp>, value: int, values: seq<int>)
    requires t in temps && temps[t] == value && Carry(temps, ts, values)
    ensures Carry(temps, [t] + ts, [value] + values)
  {
  }

  lemma ValuesParts(g: Graph, es: seq<Expr>, w: Graph)
    requires Ok(g) && Open(g, g.cur) && es != [] && Within(LowerValues(g, es).graph, w)
    ensures var a := LowerValue(g, es[0]);
      && Ok(a.graph) && Open(a.graph, a.graph.cur) && Within(a.graph, w) && g.temps <= a.graph.temps && a.temp < a.graph.temps
      && Within(LowerValues(a.graph, es[1..]).graph, w) && |LowerValues(a.graph, es[1..]).temps| == |es| - 1
  {
    var a := LowerValue(g, es[0]);
    ValueShape(g, es[0]);
    ValuesShape(a.graph, es[1..]);
    WithinBack(a.graph, LowerValues(a.graph, es[1..]).graph, w);
  }

  /** Both operands of a comparison, just before the condition is set. */
  lemma {:induction false} OperandsRun(p: Step, o: Oracle, g: Graph, e: Expr, w: Graph, entry: nat, temps: map<Temp, int>, s: Store)
    returns (entry': nat, temps': map<Temp, int>, n: nat)
    requires Includes(p, o, w)
    requires Ok(g) && Open(g, g.cur) && e.Rel? && ValueInScope(e)
    requires Within(LowerValue(LowerValue(g, e.left).graph, e.right).graph, w)
    ensures var a := LowerValue(g, e.left);
      var b := LowerValue(a.graph, e.right);
      && Reaches(p, At(g, entry, temps, s), At(b.graph, entry', temps', Eval(o, e, s).store), n)
      && a.temp in temps' && b.temp in temps' && Agree(temps, temps', g.temps)
      && (Holds(e.rel, temps'[a.temp], temps'[b.temp]) <==> Eval(o, e, s).value != 0)
    decreases e, 0
  {
    var a, v := LowerValue(g, e.left), Eval(o, e.left, s);
    var b := LowerValue(a.graph, e.right);
    ValueShape(g, e.left);
    ValueShape(a.graph, e.right);
    WithinBack(a.graph, b.graph, w);
    var e1, t1, n1 := ValueRuns(p, o, g, e.left, w, entry, temps, s);
    var n2;
    entry', temps', n2 := ValueRuns(p, o, a.graph, e.right, w, e1, t1, v.store);
    Concat(p, At(g, entry, temps, s), At(a.graph, e1, t1, v.store), At(b.graph, entry', temps', Eval(o, e, s).store), n1, n2);
    n := n1 + n2;
  }

  /** From the end of a block that leads to the join block to the value computed there. */
  lemma JoinEnter(p: Step, o: Oracle, g: Graph, fe: Edge, te: Edge, w: Graph, b: BlockId, k: EdgeKind, bit: nat,
                  entry: nat, temps: map<Temp, int>, s: Store)
    returns (temps': map<Temp, int>)
    requires Includes(p, o, w)
    requires Ok(JoinBlock(g, fe, te)) && Open(JoinBlock(g, fe, te), |g.blocks|) && Within(JoinBoolean(g, fe, te).graph, w)
    requires b < |g.blocks| && ExitsBy(g.blocks[b], temps, k) && bit < 2 && Edge(b, k) == if bit == 0 then fe else te
    ensures var r := JoinBoolean(g, fe, te);
      && Reaches(p, Running(b, |g.blocks[b].instrs|, entry, temps, s), At(r.graph, bit, temps', s), 4)
      && r.temp in temps' && temps'[r.temp] == bit && Agree(temps, temps', g.temps)
  {
    JoinWithin(g, fe, te, w);
    var m := JoinBlock(g, fe, te);
    assert HasEdge(m, |g.blocks|, bit, Edge(b, k));
    ExitRuns(p, o, m, b, k, |g.blocks|, bit, w, entry, temps, s);
    temps' := JoinRuns(p, o, g, fe, te, w, bit, temps, s);
    Concat(p, Running(b, |g.blocks[b].instrs|, entry, temps, s), Running(|g.blocks|, 0, bit, temps, s),
           At(JoinBoolean(g, fe, te).graph, bit, temps', s), 1, 3);
  }

  lemma RelationParts(g: Graph, e: Expr, w: Graph)
    requires Ok(g) && Open(g, g.cur) && e.Rel? && Within(LowerValue(g, e).graph, w)
    ensures var b := LowerValue(LowerValue(g, e.left).graph, e.right).graph;
      var c := LowerRelation(g, e);
      var fe, te := Edge(c.cur, ProjFalse), Edge(c.cur, ProjTrue);
      && LowerValue(g, e) == JoinBoolean(c, fe, te) && Ok(JoinBlock(c, fe, te)) && Open(JoinBlock(c, fe, te), |c.blocks|)
      && Within(b, w) && c.cur == b.cur && c.blocks[c.cur].instrs == b.blocks[b.cur].instrs && g.temps <= c.temps
  {
    var a := LowerValue(g, e.left);
    var b := LowerValue(a.graph, e.right);
    var c := LowerRelation(g, e);
    var fe, te := Edge(c.cur, ProjFalse), Edge(c.cur, ProjTrue);
    OperandsShape(g, e);
    SetCondShape(b.graph, Cond(e.rel, a.temp, b.temp));
    JoinBlockShape(b.graph, c, fe, te);
    assert LowerValue(g, e) == JoinBoolean(c, fe, te);
    JoinWithin(c, fe, te, w);
    WithinBack(b.graph, JoinBlock(c, fe, te), w);
  }

  lemma {:induction false} RelationValueRuns(p: Step, o: Oracle, g: Graph, e: Expr, w: Graph, entry: nat, temps: map<Temp, int>, s: Store)
    returns (entry': nat, temps': map<Temp, int>, n: nat)
    requires Includes(p, o, w)
    requires Ok(g) && Open(g, g.cur) && ValueInScope(e) && Within(LowerValue(g, e).graph, w) && e.Rel?
    ensures var r, v := LowerValue(g, e), Eval(o, e, s);
      && Reaches(p, At(g, entry, temps, s), At(r.graph, entry', temps', v.store), n)
      && r.temp in temps' && temps'[r.temp] == v.value && Agree(temps, temps', g.temps)
    decreases e, 2
  {
    RelationParts(g, e, w);
    var v, c := Eval(o, e, s), LowerRelation(g, e);
    var b := LowerValue(LowerValue(g, e.left).graph, e.right).graph;
    var e1, t1, n1 := OperandsRun(p, o, g, e, w, entry, temps, s);
    entry' := v.value;
    temps' := JoinEnter(p, o, c, Edge(c.cur, ProjFalse), Edge(c.cur, ProjTrue), w, c.cur,
                        if entry' == 0 then ProjFalse else ProjTrue, entry', e1, t1, v.store);
    Concat(p, At(g, entry, temps, s), At(b, e1, t1, v.store), At(LowerValue(g, e).graph, entry', temps', v.store), n1, 4);
    n := n1 + 4;
  }

  // ---- negation ----

  /** Negations exchange true and false, and do nothing else. */
  lemma {:induction false} NegationMeans(o: Oracle, e: Expr, s: Store)
    ensures var v, u := Eval(o, e, s), Eval(o, Core(e), s);
      v.store == u.store && (v.value != 0 <==> (u.value != 0) != Negated(e)) && (e.Not? ==> v.value == Bit(v.value != 0))
    decreases e
  {
    if e.Not? { NegationMeans(o, e.e, s); }
  }

  lemma {:induction false} CoreInScope(e: Expr)
    requires BranchInScope(e) && SingleEdges(e)
    ensures ValueInScope(Core(e))
    decreases e
  {
    if e.Not? { CoreInScope(e.e); }
  }

  /** The operands of the test whose outcomes lead to one block. */
  lemma {:induction false} ConditionRuns(p: Step, o: Oracle, g: Graph, e: Expr, w: Graph, entry: nat, temps: map<Temp, int>, s: Store)
    returns (entry': nat, temps': map<Temp, int>, n: nat)
    requires Includes(p, o, w) && Ok(g) && Open(g, g.cur) && ValueInScope(e)
    requires !e.Not? && !e.AndThen? && !e.OrElse? && !e.BoolLit? && Within(Condition(g, e).0, w)
    ensures var v := Eval(o, e, s);
      var (b, c) := Condition(g, e);
      && Reaches(p, At(g, entry, temps, s), At(b, entry', temps', v.store), n) && Agree(temps, temps', g.temps)
      && c.left in temps' && c.right in temps' && (Holds(c.rel, temps'[c.left], temps'[c.right]) <==> v.value != 0)
    decreases e, 4, 0
  {
    if e.Rel? {
      entry', temps', n := OperandsRun(p, o, g, e, w, entry, temps, s);
    } else {
      var r, v := LowerValue(g, e), Eval(o, e, s);
      var i := Constant(r.graph.temps, 0);
      ValueShape(g, e);
      EmitShape(r.graph, i);
      WithinBack(r.graph, Emit(r.graph, i), w);
      entry', temps', n := ValueRuns(p, o, g, e, w, entry, temps, s);
      var d := At(Emit(r.graph, i), entry', temps'[r.graph.temps := 0], v.store);
      EmitRuns(p, o, r.graph, i, w, entry', temps', v.store, d);
      Concat(p, At(g, entry, temps, s), At(r.graph, entry', temps', v.store), d, n, 1);
      temps', n := temps'[r.graph.temps := 0], n + 1;
    }
  }

  lemma ConditionPreds(g: Graph, e: Expr, t: BlockId)
    requires g.cur < |g.blocks| && t < |g.blocks| && !e.Not? && !e.AndThen? && !e.OrElse? && !e.BoolLit?
    ensures PredsSame(g, Condition(g, e).0, t)
  {
    if e.Rel? {
      ValuePreds(g, e.left, t);
      ValuePreds(LowerValue(g, e.left).graph, e.right, t);
    } else {
      ValuePreds(g, e, t);
    }
  }

  /** A condition both of whose outcomes lead to one new block: the edge it is entered through tells the outcome. */
  lemma {:induction false} SameRuns(p: Step, o: Oracle, g: Graph, e: Expr, t: BlockId, flip: bool, w: Graph,
                                    entry: nat, temps: map<Temp, int>, s: Store)
    returns (entry': nat, temps': map<Temp, int>, n: nat)
    requires Includes(p, o, w) && Ok(g) && Open(g, g.cur) && !e.Not? && !e.AndThen? && !e.OrElse? && ValueInScope(e)
    requires t < |g.blocks| && g.blocks[t].preds == [] && Within(LowerSame(g, e, t, flip), w)
    ensures var v := Eval(o, e, s);
      && Reaches(p, At(g, entry, temps, s), Running(t, 0, entry', temps', v.store), n) && Agree(temps, temps', g.temps)
      && entry' == if (v.value != 0) == flip then 1 else 0
    decreases e, 4, 1
  {
    if e.BoolLit? {
      SameLiteral(g, e.b, t, flip);
      entry', temps', n := if e.b == flip then 1 else 0, temps, 1;
      ExitRuns(p, o, LowerSame(g, e, t, flip), g.cur, Jmp, t, entry', w, entry, temps, s);
    } else {
      entry', temps', n := TestedRuns(p, o, g, e, t, flip, w, entry, temps, s);
    }
  }

  lemma {:induction false} TestedRuns(p: Step, o: Oracle, g: Graph, e: Expr, t: BlockId, flip: bool, w: Graph,
                                      entry: nat, temps: map<Temp, int>, s: Store)
    returns (entry': nat, temps': map<Temp, int>, n: nat)
    requires Includes(p, o, w) && Ok(g) && Open(g, g.cur) && !e.Not? && !e.AndThen? && !e.OrElse? && !e.BoolLit? && ValueInScope(e)
    requires t < |g.blocks| && g.blocks[t].preds == [] && Within(LowerSame(g, e, t, flip), w)
    ensures var v := Eval(o, e, s);
      && Reaches(p, At(g, entry, temps, s), Running(t, 0, entry', temps', v.store), n) && Agree(temps, temps', g.temps)
      && entry' == if (v.value != 0) == flip then 1 else 0
    decreases e, 4, 1, 0
  {
    var v := Eval(o, e, s);
    SameWithin(g, e, t, flip, w);
    var e1;
    e1, temps', n := ConditionRuns(p, o, g, e, w, entry, temps, s);
    entry' := SameExits(p, o, g, e, t, flip, w, e1, temps', v.store, v.value != 0);
    Concat(p, At(g, entry, temps, s), At(Condition(g, e).0, e1, temps', v.store), Running(t, 0, entry', temps', v.store), n, 1);
    n := n + 1;
  }

  lemma SameWithin(g: Graph, e: Expr, t: BlockId, flip: bool, w: Graph)
    requires Ok(g) && Open(g, g.cur) && !e.Not? && !e.AndThen? && !e.OrElse? && !e.BoolLit?
    requires t < |g.blocks| && g.blocks[t].preds == [] && Within(LowerSame(g, e, t, flip), w)
    ensures Within(Condition(g, e).0, w) && Condition(g, e).0.cur < |Condition(g, e).0.blocks|
  {
    SameParts(g, e, t, flip, w);
  }

  lemma SameParts(g: Graph, e: Expr, t: BlockId, flip: bool, w: Graph)
    requires Ok(g) && Open(g, g.cur) && !e.Not? && !e.AndThen? && !e.OrElse? && !e.BoolLit?
    requires t < |g.blocks| && g.blocks[t].preds == [] && Within(LowerSame(g, e, t, flip), w)
    ensures var (b, c) := Condition(g, e);
      var h := LowerSame(g, e, t, flip);
      && Within(b, w) && b.cur < |b.blocks| && b.cur < |h.blocks| && t < |h.blocks|
      && h.blocks[b.cur].cond == Some(c) && h.blocks[b.cur].instrs == b.blocks[b.cur].instrs
      && h.blocks[t].preds == BothEdges(Edge(b.cur, ProjTrue), Edge(b.cur, ProjFalse), flip)
  {
    var (b, c) := Condition(g, e);
    ConditionShape(g, e);
    ConditionPreds(g, e, t);
    SameIsBoth(g, e, t, flip);
    BothShape(b, c, t, flip);
    WithinBack(b, LowerSame(g, e, t, flip), w);
  }

  lemma SameExits(p: Step, o: Oracle, g: Graph, e: Expr, t: BlockId, flip: bool, w: Graph,
                  entry: nat, temps: map<Temp, int>, s: Store, holds: bool)
    returns (entry': nat)
    requires Includes(p, o, w) && Ok(g) && Open(g, g.cur) && !e.Not? && !e.AndThen? && !e.OrElse? && !e.BoolLit?
    requires t < |g.blocks| && g.blocks[t].preds == [] && Within(LowerSame(g, e, t, flip), w)
    requires var (b, c) := Condition(g, e);
      b.cur < |b.blocks| && c.left in temps && c.right in temps && (Holds(c.rel, temps[c.left], temps[c.right]) <==> holds)
    ensures Reaches(p, At(Condition(g, e).0, entry, temps, s), Running(t, 0, entry', temps, s), 1)
    ensures entry' == if holds == flip then 1 else 0
  {
    SameParts(g, e, t, flip, w);
    var h, b := LowerSame(g, e, t, flip), Condition(g, e).0.cur;
    entry' := if holds == flip then 1 else 0;
    assert HasEdge(h, t, entry', Edge(b, if holds then ProjTrue else ProjFalse));
    ExitRuns(p, o, h, b, if holds then ProjTrue else ProjFalse, t, entry', w, entry, temps, s);
  }

  lemma SameLiteral(g: Graph, b: bool, t: BlockId, flip: bool)
    requires Ok(g) && Open(g, g.cur) && t < |g.blocks| && g.blocks[t].preds == []
    ensures var h := LowerSame(g, BoolLit(b), t, flip);
      && g.cur < |h.blocks| && h.blocks[g.cur].cond == None && h.blocks[g.cur].instrs == g.blocks[g.cur].instrs
      && HasEdge(h, t, if b == flip then 1 else 0, Edge(g.cur, Jmp))
  {
    AddBothShape(g, t, if b then Edge(g.cur, Jmp) else Bad, if b then Bad else Edge(g.cur, Jmp), flip);
  }

  lemma NotPhiWithin(g: Graph, w: Graph)
    requires Ok(g) && Open(g, g.cur) && Within(NotPhi(g).graph, w)
    ensures var g2 := Emit(g, Constant(g.temps, 1));
      Within(g, w) && Within(g2, w) && Within(Emit(g2, Constant(g2.temps, 0)), w)
  {
    var g2 := Emit(g, Constant(g.temps, 1));
    var g3 := Emit(g2, Constant(g2.temps, 0));
    EmitShape(g, Constant(g.temps, 1));
    EmitShape(g2, Constant(g2.temps, 0));
    EmitShape(g3, Phi(g3.temps, [g.temps, g2.temps]));
    WithinBack(g3, NotPhi(g).graph, w);
    WithinBack(g2, g3, w);
    WithinBack(g, g2, w);
  }

  /** The block of a negation turns the way it was entered into 1 or 0. */
  lemma NotPhiRuns(p: Step, o: Oracle, g: Graph, w: Graph, entry: nat, temps: map<Temp, int>, s: Store)
    returns (temps': map<Temp, int>)
    requires Includes(p, o, w) && entry < 2 && Ok(g) && Open(g, g.cur) && Within(NotPhi(g).graph, w)
    ensures var r := NotPhi(g);
      && Reaches(p, At(g, entry, temps, s), At(r.graph, entry, temps', s), 3)
      && r.temp in temps' && temps'[r.temp] == 1 - entry && Agree(temps, temps', g.temps)
  {
    NotPhiWithin(g, w);
    var i1 := Constant(g.temps, 1);
    var g2 := Emit(g, i1);
    var i2 := Constant(g2.temps, 0);
    var g3 := Emit(g2, i2);
    var i3 := Phi(g3.temps, [g.temps, g2.temps]);
    var t1 := temps[g.temps := 1];
    var t2 := t1[g2.temps := 0];
    temps' := t2[g3.temps := 1 - entry];
    EmitRuns(p, o, g, i1, w, entry, temps, s, At(g2, entry, t1, s));
    EmitRuns(p, o, g2, i2, w, entry, t1, s, At(g3, entry, t2, s));
    EmitRuns(p, o, g3, i3, w, entry, t2, s, At(Emit(g3, i3), entry, temps', s));
    Concat(p, At(g, entry, temps, s), At(g2, entry, t1, s), At(g3, entry, t2, s), 1, 1);
    Concat(p, At(g, entry, temps, s), At(g3, entry, t2, s), At(Emit(g3, i3), entry, temps', s), 2, 1);
  }

  lemma NegationParts(g: Graph, e: Expr, w: Graph)
    requires Ok(g) && Open(g, g.cur) && SingleEdges(e) && Within(LowerValue(g, e).graph, w) && e.Not?
    ensures var b, g1 := |g.blocks|, NewBlock(g, []);
      var h := SetCur(LowerNegation(g1, e, b), b);
      && LowerValue(g, e) == NotPhi(h) && Ok(h) && Open(h, b) && h.blocks[b].instrs == [] && g.temps <= h.temps
      && Ok(g1) && Open(g1, g1.cur) && At(g1, 0, map[], Store(map[], [])) == At(g, 0, map[], Store(map[], []))
      && Within(LowerSame(g1, Core(e), b, Negated(e)), w)
  {
    var b, g1 := |g.blocks|, NewBlock(g, []);
    var h := SetCur(LowerNegation(g1, e, b), b);
    NegationBlock(g, e);
    NotPhiWithin(h, w);
    WithinSetCur(LowerNegation(g1, e, b), w, b);
  }

  /** The value of a negation, through any number of further negations. */
  lemma {:induction false} NegationValueRuns(p: Step, o: Oracle, g: Graph, e: Expr, w: Graph, entry: nat, temps: map<Temp, int>, s: Store)
    returns (entry': nat, temps': map<Temp, int>, n: nat)
    requires Includes(p, o, w)
    requires Ok(g) && Open(g, g.cur) && ValueInScope(e) && Within(LowerValue(g, e).graph, w) && e.Not?
    ensures var r, v := LowerValue(g, e), Eval(o, e, s);
      && Reaches(p, At(g, entry, temps, s), At(r.graph, entry', temps', v.store), n)
      && r.temp in temps' && temps'[r.temp] == v.value && Agree(temps, temps', g.temps)
    decreases e, 2
  {
    var b, g1 := |g.blocks|, NewBlock(g, []);
    var h := SetCur(LowerNegation(g1, e, b), b);
    NegationParts(g, e, w);
    CoreInScope(e.e);
    NegationMeans(o, e, s);
    var v := Eval(o, e, s);
    var n1;
    entry', temps', n1 := SameRuns(p, o, g1, Core(e), b, Negated(e), w, entry, temps, s);
    var t1 := temps';
    temps' := NotPhiRuns(p, o, h, w, entry', t1, v.store);
    Concat(p, At(g, entry, temps, s), At(h, entry', t1, v.store), At(LowerValue(g, e).graph, entry', temps', v.store), n1, 3);
    n := n1 + 3;
  }

  // ---- conditions ----

  /** Control reaches `t` if the condition holds and `f` otherwise. */
  lemma {:induction false} BranchRuns(p: Step, o: Oracle, g: Graph, e: Expr, t: BlockId, f: BlockId, w: Graph,
                                      entry: nat, temps: map<Temp, int>, s: Store)
    returns (entry': nat, temps': map<Temp, int>, n: nat)
    requires Includes(p, o, w)
    requires Ok(g) && Open(g, g.cur) && t < |g.blocks| && f < |g.blocks| && BranchInScope(e) && Within(LowerBranch(g, e, t, f), w)
    ensures var v := Eval(o, e, s);
      Reaches(p, At(g, entry, temps, s), Running(if v.value != 0 then t else f, 0, entry', temps', v.store), n)
    ensures Agree(temps, temps', g.temps)
    decreases e, 5
  {
    if e.BoolLit? {
      LiteralShape(g, e.b, t, f);
      var h, u := LowerBranch(g, e, t, f), if e.b then t else f;
      var i: nat :| HasEdge(h, u, i, Edge(g.cur, Jmp));
      ExitRuns(p, o, h, g.cur, Jmp, u, i, w, entry, temps, s);
      entry', temps', n := i, temps, 1;
    } else if e.Not? {
      if t == f && g.blocks[t].preds == [] && SingleEdges(e) {
        NegationMeans(o, e, s);
        CoreInScope(e);
        entry', temps', n := SameRuns(p, o, g, Core(e), t, Negated(e), w, entry, temps, s);
      } else {
        entry', temps', n := BranchRuns(p, o, g, e.e, f, t, w, entry, temps, s);
      }
    } else if e.Rel? {
      entry', temps', n := RelationBranchRuns(p, o, g, e, t, f, w, entry, temps, s);
    } else if e.AndThen? || e.OrElse? {
      NewBlockShape(g, []);
      var g1 := NewBlock(g, []);
      entry', temps', n := JunctionRuns(p, o, g1, e, |g.blocks|, t, f, w, entry, temps, s);
    } else {
      entry', temps', n := TestRuns(p, o, g, e, t, f, w, entry, temps, s);
    }
  }

  lemma {:induction false} RelationBranchRuns(p: Step, o: Oracle, g: Graph, e: Expr, t: BlockId, f: BlockId, w: Graph,
                                              entry: nat, temps: map<Temp, int>, s: Store)
    returns (entry': nat, temps': map<Temp, int>, n: nat)
    requires Includes(p, o, w)
    requires Ok(g) && Open(g, g.cur) && t < |g.blocks| && f < |g.blocks|
    requires e.Rel? && BranchInScope(e) && Within(LowerBranch(g, e, t, f), w)
    ensures var v := Eval(o, e, s);
      Reaches(p, At(g, entry, temps, s), Running(if v.value != 0 then t else f, 0, entry', temps', v.store), n)
    ensures Agree(temps, temps', g.temps)
    decreases e, 2
  {
    var a, v := LowerValue(g, e.left), Eval(o, e, s);
    var b := LowerValue(a.graph, e.right);
    var c := Cond(e.rel, a.temp, b.temp);
    OperandsShape(g, e);
    ProjectShape(b.graph, c, t, f);
    var h := Project(SetCond(b.graph, c), t, f);
    assert h == LowerBranch(g, e, t, f);
    WithinBack(b.graph, h, w);
    var e1, t1, n1 := OperandsRun(p, o, g, e, w, entry, temps, s);
    var u, k := if v.value != 0 then t else f, if v.value != 0 then ProjTrue else ProjFalse;
    var i: nat :| HasEdge(h, u, i, Edge(b.graph.cur, k));
    ExitRuns(p, o, h, b.graph.cur, k, u, i, w, e1, t1, v.store);
    Concat(p, At(g, entry, temps, s), At(b.graph, e1, t1, v.store), Running(u, 0, i, t1, v.store), n1, 1);
    entry', temps', n := i, t1, n1 + 1;
  }

  /** Testing a value that has been computed. */
  lemma TestExits(p: Step, o: Oracle, g: Graph, v: Temp, t: BlockId, f: BlockId, w: Graph, entry: nat, temps: map<Temp, int>, s: Store)
    returns (entry': nat)
    requires Includes(p, o, w)
    requires Ok(g) && Open(g, g.cur) && t < |g.blocks| && f < |g.blocks| && Within(TestBoolean(g, v, t, f), w)
    requires v in temps && v < g.temps
    ensures Reaches(p, At(g, entry, temps, s), Running(if temps[v] != 0 then t else f, 0, entry', temps[g.temps := 0], s), 2)
  {
    var i, c := Constant(g.temps, 0), Cond(NotEqual, v, g.temps);
    var g1, t1 := Emit(g, i), temps[g.temps := 0];
    EmitShape(g, i);
    ProjectShape(g1, c, t, f);
    var h := Project(SetCond(g1, c), t, f);
    WithinBack(g1, h, w);
    EmitRuns(p, o, g, i, w, entry, temps, s, At(g1, entry, t1, s));
    var u, k := if temps[v] != 0 then t else f, if temps[v] != 0 then ProjTrue else ProjFalse;
    entry' :| HasEdge(h, u, entry', Edge(g1.cur, k));
    ExitRuns(p, o, h, g1.cur, k, u, entry', w, entry, t1, s);
    Concat(p, At(g, entry, temps, s), At(g1, entry, t1, s), Running(u, 0, entry', t1, s), 1, 1);
  }

  lemma {:induction false} TestRuns(p: Step, o: Oracle, g: Graph, e: Expr, t: BlockId, f: BlockId, w: Graph,
                                    entry: nat, temps: map<Temp, int>, s: Store)
    returns (entry': nat, temps': map<Temp, int>, n: nat)
    requires Includes(p, o, w)
    requires Ok(g) && Open(g, g.cur) && t < |g.blocks| && f < |g.blocks| && ValueInScope(e)
    requires var r := LowerValue(g, e); Within(TestBoolean(r.graph, r.temp, t, f), w)
    ensures var v := Eval(o, e, s);
      Reaches(p, At(g, entry, temps, s), Running(if v.value != 0 then t else f, 0, entry', temps', v.store), n)
    ensures Agree(temps, temps', g.temps)
    decreases e, 4, 1
  {
    var r, v := LowerValue(g, e), Eval(o, e, s);
    ValueShape(g, e);
    TestWithin(r.graph, r.temp, t, f, w);
    var e1, t1, n1 := ValueRuns(p, o, g, e, w, entry, temps, s);
    entry' := TestExits(p, o, r.graph, r.temp, t, f, w, e1, t1, v.store);
    temps', n := t1[r.graph.temps := 0], n1 + 2;
    var u := if v.value != 0 then t else f;
    Concat(p, At(g, entry, temps, s), At(r.graph, e1, t1, v.store), Running(u, 0, entry', temps', v.store), n1, 2);
  }

  lemma TestWithin(g: Graph, v: Temp, t: BlockId, f: BlockId, w: Graph)
    requires Ok(g) && Open(g, g.cur) && t < |g.blocks| && f < |g.blocks| && Within(TestBoolean(g, v, t, f), w)
    ensures Within(g, w)
  {
    TestShape(g, v, t, f);
    WithinBack(g, TestBoolean(g, v, t, f), w);
  }

  /** Short circuit: the block of the right operand is entered only if the left one does not decide. */
  lemma {:induction false} JunctionRuns(p: Step, o: Oracle, g: Graph, e: Expr, right: BlockId, t: BlockId, f: BlockId, w: Graph,
                                        entry: nat, temps: map<Temp, int>, s: Store)
    returns (entry': nat, temps': map<Temp, int>, n: nat)
    requires Includes(p, o, w)
    requires Ok(g) && Open(g, g.cur) && (e.AndThen? || e.OrElse?) && ValueInScope(e)
    requires Open(g, right) && right != g.cur && g.blocks[right].instrs == [] && t < |g.blocks| && f < |g.blocks|
    requires Within(LowerJunction(g, e, right, t, f), w)
    ensures var v := Eval(o, e, s);
      Reaches(p, At(g, entry, temps, s), Running(if v.value != 0 then t else f, 0, entry', temps', v.store), n)
    ensures Agree(temps, temps', g.temps)
    decreases e, 1, 0
  {
    var t1, f1 := if e.AndThen? then right else t, if e.AndThen? then f else right;
    var h := LowerBranch(g, e.left, t1, f1);
    var g1 := SetCur(h, right);
    JunctionShape(g, e, right, t, f);
    WithinBack(g1, LowerBranch(g1, e.right, t, f), w);
    WithinSetCur(h, w, right);
    assert BlockKept(g.blocks[right], g1.blocks[right]);
    var a := Eval(o, e.left, s);
    entry', temps', n := BranchRuns(p, o, g, e.left, t1, f1, w, entry, temps, s);
    if (a.value != 0) == e.AndThen? {
      var b := Eval(o, e.right, a.store);
      var e2, t2, n2 := BranchRuns(p, o, g1, e.right, t, f, w, entry', temps', a.store);
      assert g.temps <= g1.temps;
      Concat(p, At(g, entry, temps, s), At(g1, entry', temps', a.store),
             Running(if b.value != 0 then t else f, 0, e2, t2, b.store), n, n2);
      entry', temps', n := e2, t2, n + n2;
    }
  }

  lemma JoinKeepsWithin(g: Graph, fe: Edge, te: Edge, w: Graph)
    requires Within(JoinBlock(g, fe, te), w)
    ensures Within(g, w)
  {
    var m := JoinBlock(g, fe, te);
    forall b: BlockId | b < |g.blocks| ensures BlockGrows(g.blocks[b], w.blocks[b]) && (Open(g, b) || BlockKept(g.blocks[b], w.blocks[b])) {
      assert m.blocks[b] == g.blocks[b];
      if !Open(g, b) && Open(m, b) {
        var t: BlockId, i: nat, k :| HasEdge(g, t, i, Edge(b, k));
        assert HasEdge(m, t, i, Edge(b, k));
      }
    }
  }

  lemma TargetsEmpty(g: Graph, e: Expr, right: BlockId, t: BlockId, f: BlockId, b: BlockId)
    requires Ok(g) && Open(g, g.cur) && (e.AndThen? || e.OrElse?) && Open(g, right) && right != g.cur
    requires t < |g.blocks| && f < |g.blocks| && b < |g.blocks| && b != g.cur && b != right
    ensures BlockKept(g.blocks[b], LowerJunction(g, e, right, t, f).blocks[b])
  {
    JunctionShape(g, e, right, t, f);
  }

  /** The graph of a short-circuit value before its join block. */
  function JunctionGraph(g: Graph, e: Expr): Graph
    requires g.cur < |g.blocks| && (e.AndThen? || e.OrElse?)
  {
    LowerJunction(NewBlock(NewBlock(NewBlock(g, []), []), []), e, |g.blocks|, |g.blocks| + 1, |g.blocks| + 2)
  }

  lemma JunctionParts(g: Graph, e: Expr, w: Graph)
    requires Ok(g) && Open(g, g.cur) && (e.AndThen? || e.OrElse?) && Within(LowerValue(g, e).graph, w)
    ensures var k, h := |g.blocks|, JunctionGraph(g, e);
      var fe, te := Edge(k + 2, Jmp), Edge(k + 1, Jmp);
      && LowerValue(g, e) == JoinBoolean(h, fe, te) && Ok(JoinBlock(h, fe, te)) && Open(JoinBlock(h, fe, te), |h.blocks|)
      && Within(h, w) && g.temps <= h.temps && k + 2 < |h.blocks|
      && h.blocks[k+1].instrs == [] && h.blocks[k+1].cond == None && h.blocks[k+2].instrs == [] && h.blocks[k+2].cond == None
  {
    var k, h := |g.blocks|, JunctionGraph(g, e);
    var g3 := NewBlock(NewBlock(NewBlock(g, []), []), []);
    ThreeBlocks(g);
    JunctionWhole(g, g3, e, k, k + 1, k + 2);
    JunctionTargets(g3, e, k, k + 1, k + 2);
    JoinBlockShape(g, h, Edge(k + 2, Jmp), Edge(k + 1, Jmp));
    assert LowerValue(g, e) == JoinBoolean(h, Edge(k + 2, Jmp), Edge(k + 1, Jmp));
    JoinWithin(h, Edge(k + 2, Jmp), Edge(k + 1, Jmp), w);
    JoinKeepsWithin(h, Edge(k + 2, Jmp), Edge(k + 1, Jmp), w);
    TargetsEmpty(g3, e, k, k + 1, k + 2, k + 1);
    TargetsEmpty(g3, e, k, k + 1, k + 2, k + 2);
  }

  lemma {:induction false} JunctionValueRuns(p: Step, o: Oracle, g: Graph, e: Expr, w: Graph, entry: nat, temps: map<Temp, int>, s: Store)
    returns (entry': nat, temps': map<Temp, int>, n: nat)
    requires Includes(p, o, w)
    requires Ok(g) && Open(g, g.cur) && ValueInScope(e) && Within(LowerValue(g, e).graph, w) && (e.AndThen? || e.OrElse?)
    ensures var r, v := LowerValue(g, e), Eval(o, e, s);
      && Reaches(p, At(g, entry, temps, s), At(r.graph, entry', temps', v.store), n)
      && r.temp in temps' && temps'[r.temp] == v.value && Agree(temps, temps', g.temps)
    decreases e, 2
  {
    var k, v, h := |g.blocks|, Eval(o, e, s), JunctionGraph(g, e);
    JunctionParts(g, e, w);
    var e1, t1, n1 := JunctionTargetRuns(p, o, g, e, w, entry, temps, s);
    entry' := v.value;
    var b := if entry' == 0 then k + 2 else k + 1;
    temps' := JoinEnter(p, o, h, Edge(k + 2, Jmp), Edge(k + 1, Jmp), w, b, Jmp, entry', e1, t1, v.store);
    Concat(p, At(g, entry, temps, s), Running(b, 0, e1, t1, v.store), At(LowerValue(g, e).graph, entry', temps', v.store), n1, 4);
    n := n1 + 4;
  }

  /** Up to one of the two blocks that are joined. */
  lemma {:induction false} JunctionTargetRuns(p: Step, o: Oracle, g: Graph, e: Expr, w: Graph, entry: nat, temps: map<Temp, int>, s: Store)
    returns (entry': nat, temps': map<Temp, int>, n: nat)
    requires Includes(p, o, w)
    requires Ok(g) && Open(g, g.cur) && (e.AndThen? || e.OrElse?) && ValueInScope(e) && Within(JunctionGraph(g, e), w)
    ensures var k, v := |g.blocks|, Eval(o, e, s);
      Reaches(p, At(g, entry, temps, s), Running(if v.value != 0 then k + 1 else k + 2, 0, entry', temps', v.store), n)
    ensures Agree(temps, temps', g.temps)
    decreases e, 1, 1
  {
    var k := |g.blocks|;
    var g3 := NewBlock(NewBlock(NewBlock(g, []), []), []);
    ThreeBlocks(g);
    entry', temps', n := JunctionRuns(p, o, g3, e, k, k + 1, k + 2, w, entry, temps, s);
  }
}
