/** Lowered statements and whole methods do what the source does, for terminating and non-terminating runs alike. */
module LoweringStmts {
  import opened Wrappers
  import opened Lowering
  import opened LoweringShape
  import opened LoweringCorrect
  import opened DefiniteReturn

  // ---- shape ----

  ghost predicate Settled(g: Graph, h: Graph, c: Behaviour) {
    Continues(g, h) && (c == MayContinue ==> Open(h, h.cur))
  }

  lemma {:induction false} StmtShape(g: Graph, st: Stmt)
    requires Ok(g) && Open(g, g.cur) && Processed(st)
    ensures Settled(g, LowerStmt(g, st), Cfb(st))
    decreases st, 2
  {
    if st.ExprStmt? {
      ValueShape(g, st.e);
    } else if st.VarDecl? {
      if st.init.Some? {
        var r := LowerValue(g, st.init.value);
        ValueShape(g, st.init.value);
        EmitShape(r.graph, WriteVar(st.x, r.temp));
        ContinuesTrans(g, r.graph, Emit(r.graph, WriteVar(st.x, r.temp)));
      }
    } else if st.Block? {
      AllShape(g, st.stmts);
    } else if st.If? {
      IfShape(g, st);
    } else if st.While? {
      WhileShape(g, st);
    } else if st.value.None? {
      LeaveShape(g, None);
    } else {
      var r := LowerValue(g, st.value.value);
      ValueShape(g, st.value.value);
      LeaveShape(r.graph, Some(r.temp));
      ContinuesTrans(g, r.graph, LeaveWith(r.graph, Some(r.temp)));
    }
  }

  lemma LeaveShape(g: Graph, result: Option<Temp>)
    requires Ok(g) && Open(g, g.cur)
    ensures Continues(g, LeaveWith(g, result))
  {
    EmitShape(g, Leave(result));
    var g1 := Emit(g, Leave(result));
    AddPredShape(g1, 0, Edge(g.cur, Ret));
    ContinuesTrans(g, g1, LeaveWith(g, result));
  }

  lemma {:induction false} AllShape(g: Graph, sts: seq<Stmt>)
    requires Ok(g) && Open(g, g.cur) && ProcessedAll(sts)
    ensures Settled(g, LowerAll(g, sts), CfbAll(sts))
    decreases sts, 0
  {
    if sts != [] {
      var h := LowerStmt(g, sts[0]);
      StmtShape(g, sts[0]);
      if |sts| == 1 {
        assert sts[1..] == [];
      } else {
        AllShape(h, sts[1..]);
        ContinuesTrans(g, h, LowerAll(h, sts[1..]));
      }
    }
  }

  /** A branch leaves the pending blocks alone. */
  lemma {:induction false} ArmShape(g: Graph, st: Option<Stmt>, b: BlockId, after: BlockId)
    requires Ok(g) && after < |g.blocks| && b < |g.blocks| && (st.Some? ==> Open(g, b) && b != after) && ProcessedOption(st)
    ensures var h := LowerArm(g, st, b, after);
      && Ok(h) && Grows(SetCur(g, b), h)
      && forall c: BlockId :: Open(g, c) && c != b ==> Open(h, c)
    decreases st, 0
  {
    if st.Some? {
      SetCurShape(g, b);
      var g1 := SetCur(g, b);
      var h := LowerStmt(g1, st.value);
      StmtShape(g1, st.value);
      if Cfb(st.value) == MayContinue {
        JmpShape(h, after);
        GrowsTrans(g1, h, AddPred(h, after, Edge(h.cur, Jmp)));
      }
      forall c: BlockId | Open(g, c) && c != b ensures Open(LowerArm(g, st, b, after), c) {
        SameOpen(g, b, c);
        OpenKept(g1, LowerArm(g, st, b, after), c);
      }
    }
  }

  lemma PendingBlock(g0: Graph, g: Graph)
    requires Ok(g) && Continues(g0, g) && Open(g, g.cur)
    ensures var h := NewBlock(g, []); Continues(g0, h) && Open(h, h.cur) && Open(h, |g.blocks|) && h.cur == g.cur
    ensures forall b: BlockId :: Open(g, b) ==> Open(NewBlock(g, []), b)
  {
    NewBlockShape(g, []);
    ContinuesTrans(g0, g, NewBlock(g, []));
  }

  lemma ContinuesSelf(g: Graph)
    requires Ok(g)
    ensures Continues(g, g)
  {
  }

  lemma IfBlocksShape(g: Graph, st: Stmt)
    requires Ok(g) && Open(g, g.cur) && st.If?
    ensures var h := IfBlocks(g, st);
      Continues(g, h) && Open(h, h.cur) && Open(h, |g.blocks|) && Open(h, ThenBlock(g, st)) && Open(h, ElseBlock(g, st))
    ensures var h := IfBlocks(g, st);
      forall b: BlockId :: |g.blocks| <= b < |h.blocks| ==> h.blocks[b] == BasicBlock([], [], None)
  {
    ContinuesSelf(g);
    PendingBlock(g, g);
    var g1 := NewBlock(g, []);
    var g2 := if st.thenStmt.Some? then NewBlock(g1, []) else g1;
    if st.thenStmt.Some? { PendingBlock(g, g1); }
    if st.elseStmt.Some? { PendingBlock(g, g2); }
  }

  lemma {:induction false} IfTestShape(g: Graph, st: Stmt)
    requires Ok(g) && Open(g, g.cur) && st.If?
    ensures var b := IfBlocks(g, st);
      var h := LowerBranch(b, st.cond, ThenBlock(g, st), ElseBlock(g, st));
      && Ok(b) && Open(b, b.cur) && Ok(h) && Grows(g, h) && Grows(b, h)
      && Open(h, |g.blocks|) && Open(h, ThenBlock(g, st)) && Open(h, ElseBlock(g, st))
  {
    var b := IfBlocks(g, st);
    IfBlocksShape(g, st);
    BranchShape(b, st.cond, ThenBlock(g, st), ElseBlock(g, st));
    var h := LowerBranch(b, st.cond, ThenBlock(g, st), ElseBlock(g, st));
    GrowsTrans(g, b, h);
    OpenKept(b, h, |g.blocks|);
    OpenKept(b, h, ThenBlock(g, st));
    OpenKept(b, h, ElseBlock(g, st));
  }

  /** The graph between the two branches. */
  function IfMiddle(g: Graph, st: Stmt): (h: Graph)
    requires st.If? && g.cur < |g.blocks|
    ensures h.cur < |h.blocks| && |g.blocks| + 1 <= |h.blocks| && ElseBlock(g, st) < |h.blocks|
  {
    LowerArm(LowerBranch(IfBlocks(g, st), st.cond, ThenBlock(g, st), ElseBlock(g, st)), st.thenStmt, ThenBlock(g, st), |g.blocks|)
  }

  lemma {:induction false} IfMiddleShape(g: Graph, st: Stmt)
    requires Ok(g) && Open(g, g.cur) && st.If? && ProcessedOption(st.thenStmt)
    ensures var h := LowerBranch(IfBlocks(g, st), st.cond, ThenBlock(g, st), ElseBlock(g, st));
      var m := IfMiddle(g, st);
      && Ok(m) && Grows(g, m) && Grows(SetCur(h, ThenBlock(g, st)), m)
      && Open(m, |g.blocks|) && (st.elseStmt.Some? ==> Open(m, ElseBlock(g, st)))
    decreases st, 0
  {
    IfTestShape(g, st);
    var h := LowerBranch(IfBlocks(g, st), st.cond, ThenBlock(g, st), ElseBlock(g, st));
    ArmShape(h, st.thenStmt, ThenBlock(g, st), |g.blocks|);
    if st.thenStmt.Some? { GrowsTrans(g, SetCur(h, ThenBlock(g, st)), IfMiddle(g, st)); }
  }

  lemma {:induction false} IfShape(g: Graph, st: Stmt)
    requires Ok(g) && Open(g, g.cur) && st.If? && Processed(st)
    ensures Continues(g, LowerStmt(g, st)) && Open(LowerStmt(g, st), |g.blocks|)
    decreases st, 1
  {
    IfMiddleShape(g, st);
    var m := IfMiddle(g, st);
    ArmShape(m, st.elseStmt, ElseBlock(g, st), |g.blocks|);
    var x := LowerArm(m, st.elseStmt, ElseBlock(g, st), |g.blocks|);
    if st.elseStmt.Some? { GrowsTrans(g, SetCur(m, ElseBlock(g, st)), x); }
    SetCurShape(x, |g.blocks|);
    assert LowerStmt(g, st) == SetCur(x, |g.blocks|);
  }

  lemma WhileEntryShape(g: Graph)
    requires Ok(g) && Open(g, g.cur)
    ensures var h := WhileEntry(g); Continues(g, h) && Open(h, h.cur) && HasEdge(h, |g.blocks|, 0, Edge(g.cur, Jmp))
  {
    NewBlockShape(g, [Edge(g.cur, Jmp)]);
    SetCurShape(NewBlock(g, [Edge(g.cur, Jmp)]), |g.blocks|);
  }

  lemma WhileHeaderShape(g: Graph)
    requires Ok(g) && Open(g, g.cur)
    ensures var h := WhileHeader(g); var b := NewBlock(NewBlock(h, []), []); var n := |g.blocks|;
      && Ok(h) && Open(h, n + 1) && Continues(g, b) && Grows(WhileEntry(g), h) && Grows(h, b) && b.cur == n + 1
      && HasEdge(h, n + 1, 0, Edge(n, Jmp)) && Open(b, n + 1) && Open(b, n + 2) && Open(b, n + 3)
      && b.blocks[n+1].instrs == [] && b.blocks[n+2] == b.blocks[n+3] == BasicBlock([], [], None)
  {
    WhileEntryShape(g);
    WhileEntryShape(WhileEntry(g));
    var h := WhileHeader(g);
    ContinuesTrans(g, WhileEntry(g), h);
    NewBlockShape(h, []);
    NewBlockShape(NewBlock(h, []), []);
    GrowsTrans(h, NewBlock(h, []), NewBlock(NewBlock(h, []), []));
    ContinuesTrans(g, h, NewBlock(NewBlock(h, []), []));
  }

  /** A condition under two pending targets, then the first of them as current block. */
  lemma BranchThenEnter(g: Graph, b: Graph, c: Expr, t: BlockId, f: BlockId)
    requires Ok(b) && Open(b, b.cur) && Continues(g, b) && Open(b, t) && Open(b, f) && t != b.cur && f != b.cur
    ensures var h := SetCur(LowerBranch(b, c, t, f), t);
      && Ok(h) && Grows(g, h) && Grows(b, h) && Open(h, t) && Open(h, f)
      && h.blocks[t].instrs == b.blocks[t].instrs && h.blocks[f].instrs == b.blocks[f].instrs
  {
    BranchShape(b, c, t, f);
    var h := LowerBranch(b, c, t, f);
    GrowsTrans(g, b, h);
    StillPending(b, h, t);
    StillPending(b, h, f);
    SetCurShape(h, t);
  }

  lemma WhileTestShape(g: Graph, c: Expr)
    requires Ok(g) && Open(g, g.cur)
    ensures var h := WhileTest(g, c); var b := NewBlock(NewBlock(WhileHeader(g), []), []); var n := |g.blocks|;
      && Ok(h) && Grows(g, h) && h.cur == n + 2 && Open(h, n + 2) && Open(h, n + 3)
      && h.blocks[n+2].instrs == [] && h.blocks[n+3].instrs == [] && Grows(b, h)
  {
    WhileHeaderShape(g);
    BranchThenEnter(g, NewBlock(NewBlock(WhileHeader(g), []), []), c, |g.blocks| + 2, |g.blocks| + 3);
  }

  lemma StillPending(g: Graph, h: Graph, b: BlockId)
    requires Grows(g, h) && Open(g, b) && b != g.cur
    ensures Open(h, b) && h.blocks[b].instrs == g.blocks[b].instrs
  {
    OpenKept(g, h, b);
    assert BlockKept(g.blocks[b], h.blocks[b]);
  }

  function WhileBody(g: Graph, st: Stmt): (h: Graph)
    requires st.While?
    ensures h.cur < |h.blocks| && |g.blocks| + 4 <= |h.blocks|
  {
    var g1 := WhileTest(g, st.cond);
    if st.body.None? then g1 else LowerStmt(g1, st.body.value)
  }

  lemma {:induction false} WhileBodyShape(g: Graph, st: Stmt)
    requires Ok(g) && Open(g, g.cur) && st.While? && ProcessedOption(st.body)
    ensures var h := WhileBody(g, st);
      && Settled(WhileTest(g, st.cond), h, CfbOption(st.body)) && Grows(g, h)
      && Open(h, |g.blocks| + 3) && h.cur != |g.blocks| + 3 && h.cur >= |g.blocks| && h.blocks[|g.blocks| + 3].instrs == []
    decreases st, 0
  {
    WhileTestShape(g, st.cond);
    var t, h := WhileTest(g, st.cond), WhileBody(g, st);
    if st.body.Some? { StmtShape(t, st.body.value); }
    GrowsTrans(g, t, h);
    OpenKept(t, h, |g.blocks| + 3);
    assert BlockKept(t.blocks[|g.blocks| + 3], h.blocks[|g.blocks| + 3]);
  }

  /** The loop with its back edge, if the body may continue. */
  function WhileClosed(g: Graph, st: Stmt): (h: Graph)
    requires st.While?
    ensures h.cur < |h.blocks| && |g.blocks| + 4 <= |h.blocks|
  {
    var b := WhileBody(g, st);
    if CfbOption(st.body) == MayContinue then AddPred(b, |g.blocks|, Edge(b.cur, Jmp)) else b
  }

  lemma WhileIsClosed(g: Graph, st: Stmt)
    requires st.While? && g.cur < |g.blocks|
    ensures LowerStmt(g, st) == SetCur(WhileClosed(g, st), |g.blocks| + 3)
  {
  }

  lemma {:induction false} WhileShape(g: Graph, st: Stmt)
    requires Ok(g) && Open(g, g.cur) && st.While? && ProcessedOption(st.body)
    ensures var h := LowerStmt(g, st); Continues(g, h) && Open(h, h.cur) && h.blocks[h.cur].instrs == []
    decreases st, 1
  {
    var n, b := |g.blocks|, WhileBody(g, st);
    WhileBodyShape(g, st);
    WhileIsClosed(g, st);
    if CfbOption(st.body) == MayContinue {
      BackEdgeShape(g, b, n, n + 3);
    } else {
      SetCurShape(b, n + 3);
    }
  }

  lemma BackEdgeShape(g: Graph, b: Graph, n: BlockId, after: BlockId)
    requires Ok(b) && Open(b, b.cur) && Grows(g, b) && Onward(g, b) && n < |b.blocks| && Open(b, after) && after != b.cur
    ensures var x := AddPred(b, n, Edge(b.cur, Jmp));
      && Ok(SetCur(x, after)) && Grows(g, x) && Grows(b, x) && Open(SetCur(x, after), after)
      && x.blocks[after].instrs == b.blocks[after].instrs && HasEdge(x, n, |b.blocks[n].preds|, Edge(b.cur, Jmp))
  {
    JmpShape(b, n);
    var x := AddPred(b, n, Edge(b.cur, Jmp));
    GrowsTrans(g, b, x);
    StillPending(b, x, after);
    SetCurShape(x, after);
  }

  // ---- runs ----

  /** How a run stands after `n` steps in `c`: at the given place, halted, or still going. */
  ghost predicate Ends(b: BlockId, pc: nat, q: Outcome, c: Config, n: nat, fuel: nat) {
    match q
    case Normal(s) => c.Running? && c.block == b && c.pc == pc && c.store == s
    case Returned(r, trace) => c == Halted(r, trace)
    case Timeout => n >= fuel
  }

  ghost predicate EndsAt(h: Graph, q: Outcome, c: Config, n: nat, fuel: nat)
    requires h.cur < |h.blocks|
  {
    Ends(h.cur, |h.blocks[h.cur].instrs|, q, c, n, fuel)
  }

  lemma LeaveRuns(p: Step, o: Oracle, w: Graph, b: BlockId, k: EdgeKind, t: BlockId, i: nat, entry: nat, temps: map<Temp, int>, s: Store)
    requires Includes(p, o, w) && b < |w.blocks| && ExitsBy(w.blocks[b], temps, k) && HasEdge(w, t, i, Edge(b, k))
    ensures Reaches(p, Running(b, |w.blocks[b].instrs|, entry, temps, s), Running(t, 0, i, temps, s), 1)
  {
    var c, d := Running(b, |w.blocks[b].instrs|, entry, temps, s), Running(t, 0, i, temps, s);
    assert Steps(o, w, c, d);
    One(p, c, d);
  }

  lemma {:induction false} StmtRuns(p: Step, o: Oracle, g: Graph, st: Stmt, w: Graph, entry: nat, temps: map<Temp, int>, s: Store, fuel: nat)
    returns (c: Config, n: nat)
    requires Includes(p, o, w)
    requires Ok(g) && Open(g, g.cur) && Processed(st) && StmtInScope(st) && Within(LowerStmt(g, st), w)
    ensures Reaches(p, At(g, entry, temps, s), c, n) && EndsAt(LowerStmt(g, st), Exec(o, st, s, fuel), c, n, fuel)
    decreases fuel, st, 3
  {
    if st.ExprStmt? && st.e.VarRef? {
      c, n := At(g, entry, temps, s), 0;
    } else if st.ExprStmt? {
      var e1, t1, n1 := ValueRuns(p, o, g, st.e, w, entry, temps, s);
      c, n := At(LowerStmt(g, st), e1, t1, Eval(o, st.e, s).store), n1;
    } else if st.VarDecl? {
      c, n := DeclRuns(p, o, g, st, w, entry, temps, s);
    } else if st.Block? {
      c, n := AllRuns(p, o, g, st.stmts, w, entry, temps, s, fuel);
    } else if st.If? {
      c, n := IfRuns(p, o, g, st, w, entry, temps, s, fuel);
    } else if st.While? {
      c, n := WhileRuns(p, o, g, st, w, entry, temps, s, fuel);
    } else {
      c, n := ReturnRuns(p, o, g, st, w, entry, temps, s);
    }
  }

  lemma DeclRuns(p: Step, o: Oracle, g: Graph, st: Stmt, w: Graph, entry: nat, temps: map<Temp, int>, s: Store)
    returns (c: Config, n: nat)
    requires Includes(p, o, w)
    requires Ok(g) && Open(g, g.cur) && st.VarDecl? && StmtInScope(st) && Within(LowerStmt(g, st), w)
    ensures Reaches(p, At(g, entry, temps, s), c, n) && EndsAt(LowerStmt(g, st), Exec(o, st, s, 0), c, n, 0)
  {
    if st.init.None? {
      c, n := At(g, entry, temps, s), 0;
    } else {
      var e := st.init.value;
      var r, v := LowerValue(g, e), Eval(o, e, s);
      var i := WriteVar(st.x, r.temp);
      ValueShape(g, e);
      EmitShape(r.graph, i);
      WithinBack(r.graph, Emit(r.graph, i), w);
      var e1, t1, n1 := ValueRuns(p, o, g, e, w, entry, temps, s);
      c, n := At(Emit(r.graph, i), e1, t1, Write(v.store, st.x, v.value)), n1 + 1;
      EmitRuns(p, o, r.graph, i, w, e1, t1, v.store, c);
      Concat(p, At(g, entry, temps, s), At(r.graph, e1, t1, v.store), c, n1, 1);
    }
  }

  lemma LeaveWithRuns(p: Step, o: Oracle, g: Graph, result: Option<Temp>, w: Graph, entry: nat, temps: map<Temp, int>, s: Store)
    requires Includes(p, o, w) && Ok(g) && Open(g, g.cur) && Within(LeaveWith(g, result), w)
    requires result.Some? ==> result.value in temps
    ensures Reaches(p, At(g, entry, temps, s),
              Halted(if result.None? then None else Some(temps[result.value]), s.trace), 1)
  {
    var i := Leave(result);
    EmitShape(g, i);
    AddPredShape(Emit(g, i), 0, Edge(g.cur, Ret));
    WithinBack(Emit(g, i), LeaveWith(g, result), w);
    EmitRuns(p, o, g, i, w, entry, temps, s, Halted(if result.None? then None else Some(temps[result.value]), s.trace));
  }

  lemma ReturnRuns(p: Step, o: Oracle, g: Graph, st: Stmt, w: Graph, entry: nat, temps: map<Temp, int>, s: Store)
    returns (c: Config, n: nat)
    requires Includes(p, o, w)
    requires Ok(g) && Open(g, g.cur) && st.Return? && StmtInScope(st) && Within(LowerStmt(g, st), w)
    ensures Reaches(p, At(g, entry, temps, s), c, n) && EndsAt(LowerStmt(g, st), Exec(o, st, s, 0), c, n, 0)
  {
    if st.value.None? {
      c, n := Halted(None, s.trace), 1;
      LeaveWithRuns(p, o, g, None, w, entry, temps, s);
    } else {
      var e := st.value.value;
      var r, v := LowerValue(g, e), Eval(o, e, s);
      ValueShape(g, e);
      LeaveShape(r.graph, Some(r.temp));
      WithinBack(r.graph, LeaveWith(r.graph, Some(r.temp)), w);
      var e1, t1, n1 := ValueRuns(p, o, g, e, w, entry, temps, s);
      LeaveWithRuns(p, o, r.graph, Some(r.temp), w, e1, t1, v.store);
      c, n := Halted(Some(v.value), v.store.trace), n1 + 1;
      Concat(p, At(g, entry, temps, s), At(r.graph, e1, t1, v.store), c, n1, 1);
    }
  }

  lemma {:induction false} AllRuns(p: Step, o: Oracle, g: Graph, sts: seq<Stmt>, w: Graph, entry: nat, temps: map<Temp, int>, s: Store, fuel: nat)
    returns (c: Config, n: nat)
    requires Includes(p, o, w)
    requires Ok(g) && Open(g, g.cur) && ProcessedAll(sts) && AllInScope(sts) && Within(LowerAll(g, sts), w)
    ensures Reaches(p, At(g, entry, temps, s), c, n) && EndsAt(LowerAll(g, sts), ExecAll(o, sts, s, fuel), c, n, fuel)
    decreases fuel, sts, 0
  {
    if sts == [] {
      c, n := At(g, entry, temps, s), 0;
    } else {
      var h, q := LowerStmt(g, sts[0]), Exec(o, sts[0], s, fuel);
      StmtShape(g, sts[0]);
      if Cfb(sts[0]) == Returns {
        assert sts[1..] == [] && LowerAll(h, []) == h;
        ReturnsNeverCompletes(o, sts[0], s, fuel);
        c, n := StmtRuns(p, o, g, sts[0], w, entry, temps, s, fuel);
      } else {
        AllShape(h, sts[1..]);
        WithinBack(h, LowerAll(h, sts[1..]), w);
        c, n := StmtRuns(p, o, g, sts[0], w, entry, temps, s, fuel);
        if q.Normal? {
          var c1 := c;
          var n2;
          c, n2 := AllRuns(p, o, h, sts[1..], w, c1.entry, c1.temps, q.store, fuel);
          Concat(p, At(g, entry, temps, s), c1, c, n, n2);
          n := n + n2;
        }
      }
    }
  }

  /** A branch of an if, from its block to the block after the if. */
  lemma {:induction false} ArmRuns(p: Step, o: Oracle, g: Graph, st: Option<Stmt>, b: BlockId, after: BlockId, w: Graph,
                                   entry: nat, temps: map<Temp, int>, s: Store, fuel: nat)
    returns (c: Config, n: nat)
    requires Includes(p, o, w)
    requires Ok(g) && after < |g.blocks| && b < |g.blocks| && ProcessedOption(st) && OptionInScope(st)
    requires if st.None? then b == after else Open(g, b) && b != after && g.blocks[b].instrs == []
    requires Within(LowerArm(g, st, b, after), w)
    ensures Reaches(p, Running(b, 0, entry, temps, s), c, n) && Ends(after, 0, ExecOption(o, st, s, fuel), c, n, fuel)
    decreases fuel, st, 0
  {
    if st.None? {
      c, n := Running(b, 0, entry, temps, s), 0;
    } else {
      SetCurShape(g, b);
      var g1 := SetCur(g, b);
      var h, q := LowerStmt(g1, st.value), Exec(o, st.value, s, fuel);
      StmtShape(g1, st.value);
      if Cfb(st.value) == Returns {
        ReturnsNeverCompletes(o, st.value, s, fuel);
        c, n := StmtRuns(p, o, g1, st.value, w, entry, temps, s, fuel);
      } else {
        var x := AddPred(h, after, Edge(h.cur, Jmp));
        JmpShape(h, after);
        WithinBack(h, x, w);
        c, n := StmtRuns(p, o, g1, st.value, w, entry, temps, s, fuel);
        if q.Normal? {
          WithinEdge(x, w, after, |h.blocks[after].preds|, Edge(h.cur, Jmp));
          LeaveRuns(p, o, w, h.cur, Jmp, after, |h.blocks[after].preds|, c.entry, c.temps, q.store);
          var d := Running(after, 0, |h.blocks[after].preds|, c.temps, q.store);
          Concat(p, Running(b, 0, entry, temps, s), c, d, n, 1);
          c, n := d, n + 1;
        }
      }
    }
  }

  /** The blocks an if needs, while they wait. */
  lemma {:induction false} IfPending(g: Graph, st: Stmt)
    requires Ok(g) && Open(g, g.cur) && st.If? && ProcessedOption(st.thenStmt)
    ensures var t := LowerBranch(IfBlocks(g, st), st.cond, ThenBlock(g, st), ElseBlock(g, st));
      var m := IfMiddle(g, st);
      && t.blocks[ThenBlock(g, st)].instrs == [] && m.blocks[|g.blocks|].instrs == []
      && (st.elseStmt.Some? ==> m.blocks[ElseBlock(g, st)].instrs == [])
  {
    var b, m := IfBlocks(g, st), IfMiddle(g, st);
    var t := LowerBranch(b, st.cond, ThenBlock(g, st), ElseBlock(g, st));
    IfBlocksShape(g, st);
    IfTestShape(g, st);
    IfMiddleShape(g, st);
    StillPending(b, t, ThenBlock(g, st));
    StillPending(b, t, ElseBlock(g, st));
    StillPending(b, t, |g.blocks|);
    if st.thenStmt.Some? {
      SetCurShape(t, ThenBlock(g, st));
      StillPending(SetCur(t, ThenBlock(g, st)), m, |g.blocks|);
      if st.elseStmt.Some? { StillPending(SetCur(t, ThenBlock(g, st)), m, ElseBlock(g, st)); }
    }
  }

  lemma {:induction false} IfParts(g: Graph, st: Stmt, w: Graph)
    requires Ok(g) && Open(g, g.cur) && st.If? && Processed(st) && Within(LowerStmt(g, st), w)
    ensures var m := IfMiddle(g, st);
      && Within(LowerBranch(IfBlocks(g, st), st.cond, ThenBlock(g, st), ElseBlock(g, st)), w) && Within(m, w)
      && Within(LowerArm(m, st.elseStmt, ElseBlock(g, st), |g.blocks|), w)
  {
    var t := LowerBranch(IfBlocks(g, st), st.cond, ThenBlock(g, st), ElseBlock(g, st));
    var m := IfMiddle(g, st);
    var x := LowerArm(m, st.elseStmt, ElseBlock(g, st), |g.blocks|);
    IfMiddleShape(g, st);
    IfTestShape(g, st);
    assert LowerStmt(g, st) == SetCur(x, |g.blocks|);
    WithinSetCur(x, w, |g.blocks|);
    if st.elseStmt.Some? { ArmWithin(m, st.elseStmt, ElseBlock(g, st), |g.blocks|, w); }
    if st.thenStmt.Some? { ArmWithin(t, st.thenStmt, ThenBlock(g, st), |g.blocks|, w); }
  }

  lemma ArmWithin(g: Graph, st: Option<Stmt>, b: BlockId, after: BlockId, w: Graph)
    requires Ok(g) && after < |g.blocks| && st.Some? && Open(g, b) && b != after && ProcessedOption(st)
    requires Within(LowerArm(g, st, b, after), w)
    ensures Within(g, w)
  {
    ArmShape(g, st, b, after);
    SetCurShape(g, b);
    WithinBack(SetCur(g, b), LowerArm(g, st, b, after), w);
    WithinSetCur(g, w, b);
  }

  lemma {:induction false} IfCondRuns(p: Step, o: Oracle, g: Graph, st: Stmt, w: Graph, entry: nat, temps: map<Temp, int>, s: Store)
    returns (entry': nat, temps': map<Temp, int>, n: nat)
    requires Includes(p, o, w)
    requires Ok(g) && Open(g, g.cur) && st.If? && Processed(st) && StmtInScope(st) && Within(LowerStmt(g, st), w)
    ensures var r := Eval(o, st.cond, s);
      Reaches(p, At(g, entry, temps, s), Running(if r.value != 0 then ThenBlock(g, st) else ElseBlock(g, st), 0, entry', temps', r.store), n)
  {
    IfParts(g, st, w);
    IfTestShape(g, st);
    IfBlocksKeep(g, st);
    entry', temps', n := BranchRuns(p, o, IfBlocks(g, st), st.cond, ThenBlock(g, st), ElseBlock(g, st), w, entry, temps, s);
  }

  lemma {:induction false} IfThenRuns(p: Step, o: Oracle, g: Graph, st: Stmt, w: Graph, entry: nat, temps: map<Temp, int>, s: Store, fuel: nat)
    returns (c: Config, n: nat)
    requires Includes(p, o, w)
    requires Ok(g) && Open(g, g.cur) && st.If? && Processed(st) && StmtInScope(st) && Within(LowerStmt(g, st), w)
    ensures Reaches(p, Running(ThenBlock(g, st), 0, entry, temps, s), c, n)
    ensures Ends(|g.blocks|, 0, ExecOption(o, st.thenStmt, s, fuel), c, n, fuel)
    decreases fuel, st, 1
  {
    IfParts(g, st, w);
    IfPending(g, st);
    IfTestShape(g, st);
    var t := LowerBranch(IfBlocks(g, st), st.cond, ThenBlock(g, st), ElseBlock(g, st));
    c, n := ArmRuns(p, o, t, st.thenStmt, ThenBlock(g, st), |g.blocks|, w, entry, temps, s, fuel);
  }

  lemma {:induction false} IfElseRuns(p: Step, o: Oracle, g: Graph, st: Stmt, w: Graph, entry: nat, temps: map<Temp, int>, s: Store, fuel: nat)
    returns (c: Config, n: nat)
    requires Includes(p, o, w)
    requires Ok(g) && Open(g, g.cur) && st.If? && Processed(st) && StmtInScope(st) && Within(LowerStmt(g, st), w)
    ensures Reaches(p, Running(ElseBlock(g, st), 0, entry, temps, s), c, n)
    ensures Ends(|g.blocks|, 0, ExecOption(o, st.elseStmt, s, fuel), c, n, fuel)
    decreases fuel, st, 1
  {
    IfParts(g, st, w);
    IfPending(g, st);
    IfMiddleShape(g, st);
    c, n := ArmRuns(p, o, IfMiddle(g, st), st.elseStmt, ElseBlock(g, st), |g.blocks|, w, entry, temps, s, fuel);
  }

  lemma {:induction false} IfRuns(p: Step, o: Oracle, g: Graph, st: Stmt, w: Graph, entry: nat, temps: map<Temp, int>, s: Store, fuel: nat)
    returns (c: Config, n: nat)
    requires Includes(p, o, w)
    requires Ok(g) && Open(g, g.cur) && st.If? && Processed(st) && StmtInScope(st) && Within(LowerStmt(g, st), w)
    ensures Reaches(p, At(g, entry, temps, s), c, n) && EndsAt(LowerStmt(g, st), Exec(o, st, s, fuel), c, n, fuel)
    decreases fuel, st, 2
  {
    var r := Eval(o, st.cond, s);
    IfEnd(g, st);
    var e1, t1, n1 := IfCondRuns(p, o, g, st, w, entry, temps, s);
    var n2;
    if r.value != 0 {
      c, n2 := IfThenRuns(p, o, g, st, w, e1, t1, r.store, fuel);
      Concat(p, At(g, entry, temps, s), Running(ThenBlock(g, st), 0, e1, t1, r.store), c, n1, n2);
    } else {
      c, n2 := IfElseRuns(p, o, g, st, w, e1, t1, r.store, fuel);
      Concat(p, At(g, entry, temps, s), Running(ElseBlock(g, st), 0, e1, t1, r.store), c, n1, n2);
    }
    n := n1 + n2;
  }

  lemma IfBlocksKeep(g: Graph, st: Stmt)
    requires st.If? && g.cur < |g.blocks|
    ensures IfBlocks(g, st).blocks[g.cur] == g.blocks[g.cur]
  {
  }

  /** The block after an if is still empty when the if is done. */
  lemma IfEnd(g: Graph, st: Stmt)
    requires Ok(g) && Open(g, g.cur) && st.If? && Processed(st)
    ensures var h := LowerStmt(g, st); h.cur == |g.blocks| && h.blocks[|g.blocks|].instrs == []
  {
    var m := IfMiddle(g, st);
    var x := LowerArm(m, st.elseStmt, ElseBlock(g, st), |g.blocks|);
    IfMiddleShape(g, st);
    IfPending(g, st);
    assert LowerStmt(g, st) == SetCur(x, |g.blocks|);
    if st.elseStmt.Some? {
      ArmShape(m, st.elseStmt, ElseBlock(g, st), |g.blocks|);
      SetCurShape(m, ElseBlock(g, st));
      StillPending(SetCur(m, ElseBlock(g, st)), x, |g.blocks|);
    }
  }

  // ---- loops ----

  /** The edges of a loop in the finished graph. */
  lemma {:induction false} WhileParts(g: Graph, st: Stmt, w: Graph)
    requires Ok(g) && Open(g, g.cur) && st.While? && ProcessedOption(st.body) && Within(LowerStmt(g, st), w)
    ensures var b := WhileBody(g, st); var n := |g.blocks|;
      && Within(WhileTest(g, st.cond), w) && Within(b, w) && Open(b, n + 3) && b.blocks[n+3].instrs == []
      && (CfbOption(st.body) == MayContinue ==>
            BlockKept(b.blocks[b.cur], w.blocks[b.cur]) && Open(b, b.cur) && HasEdge(w, n, |b.blocks[n].preds|, Edge(b.cur, Jmp)))
  {
    var n, b, t := |g.blocks|, WhileBody(g, st), WhileTest(g, st.cond);
    WhileBodyShape(g, st);
    WhileTestShape(g, st.cond);
    WhileIsClosed(g, st);
    if CfbOption(st.body) == MayContinue {
      var x := AddPred(b, n, Edge(b.cur, Jmp));
      BackEdgeShape(g, b, n, n + 3);
      WithinSetCur(x, w, n + 3);
      WithinEdge(x, w, n, |b.blocks[n].preds|, Edge(b.cur, Jmp));
      JmpShape(b, n);
      WithinBack(b, x, w);
    } else {
      WithinSetCur(b, w, n + 3);
    }
    WithinBack(t, b, w);
  }

  lemma BranchWithin(b: Graph, c: Expr, t: BlockId, f: BlockId, w: Graph)
    requires Ok(b) && Open(b, b.cur) && t < |b.blocks| && f < |b.blocks| && Within(SetCur(LowerBranch(b, c, t, f), t), w)
    ensures Within(LowerBranch(b, c, t, f), w) && Within(b, w)
  {
    WithinSetCur(LowerBranch(b, c, t, f), w, t);
    BranchShape(b, c, t, f);
    WithinBack(b, LowerBranch(b, c, t, f), w);
  }

  lemma WhileHeadWithin(g: Graph, c: Expr, w: Graph)
    requires Ok(g) && Open(g, g.cur) && Within(WhileTest(g, c), w)
    ensures var h := NewBlock(NewBlock(WhileHeader(g), []), []);
      Within(LowerBranch(h, c, |g.blocks| + 2, |g.blocks| + 3), w) && Within(WhileHeader(g), w)
  {
    WhileHeaderShape(g);
    BranchWithin(NewBlock(NewBlock(WhileHeader(g), []), []), c, |g.blocks| + 2, |g.blocks| + 3, w);
    WithinBack(WhileHeader(g), NewBlock(NewBlock(WhileHeader(g), []), []), w);
  }

  lemma WhileHeadParts(g: Graph, c: Expr, w: Graph)
    requires Ok(g) && Open(g, g.cur) && Within(WhileTest(g, c), w)
    ensures var h := NewBlock(NewBlock(WhileHeader(g), []), []); var n := |g.blocks|;
      && Within(LowerBranch(h, c, n + 2, n + 3), w) && BlockKept(g.blocks[g.cur], w.blocks[g.cur])
      && HasEdge(w, n, 0, Edge(g.cur, Jmp)) && HasEdge(w, n + 1, 0, Edge(n, Jmp)) && w.blocks[n].instrs == [] && w.blocks[n].cond == None
  {
    var n := |g.blocks|;
    WhileHeadWithin(g, c, w);
    WhileHeaderShape(g);
    WithinEdge(WhileHeader(g), w, n + 1, 0, Edge(n, Jmp));
    WhileEntryShape(g);
    WithinBack(WhileEntry(g), WhileHeader(g), w);
    WithinEdge(WhileEntry(g), w, n, 0, Edge(g.cur, Jmp));
  }

  lemma {:induction false} WhileRuns(p: Step, o: Oracle, g: Graph, st: Stmt, w: Graph, entry: nat, temps: map<Temp, int>, s: Store, fuel: nat)
    returns (c: Config, n: nat)
    requires Includes(p, o, w)
    requires Ok(g) && Open(g, g.cur) && st.While? && Processed(st) && StmtInScope(st) && Within(LowerStmt(g, st), w)
    ensures Reaches(p, At(g, entry, temps, s), c, n) && EndsAt(LowerStmt(g, st), Exec(o, st, s, fuel), c, n, fuel)
    decreases fuel, st, 2
  {
    WhileParts(g, st, w);
    WhileHeadParts(g, st.cond, w);
    LeaveRuns(p, o, w, g.cur, Jmp, |g.blocks|, 0, entry, temps, s);
    var n1;
    c, n1 := LoopRuns(p, o, g, st, w, 0, temps, s, fuel);
    Concat(p, At(g, entry, temps, s), Running(|g.blocks|, 0, 0, temps, s), c, 1, n1);
    n := n1 + 1;
    WhileEnd(g, st);
  }

  lemma WhileEnd(g: Graph, st: Stmt)
    requires Ok(g) && Open(g, g.cur) && st.While? && ProcessedOption(st.body)
    ensures LowerStmt(g, st).cur == |g.blocks| + 3 && LowerStmt(g, st).blocks[|g.blocks| + 3].instrs == []
  {
    WhileShape(g, st);
  }

  /** From the pre-header: one round of the condition and, if it holds, the body and another round. */
  lemma {:induction false} LoopRuns(p: Step, o: Oracle, g: Graph, st: Stmt, w: Graph, entry: nat, temps: map<Temp, int>, s: Store, fuel: nat)
    returns (c: Config, n: nat)
    requires Includes(p, o, w)
    requires Ok(g) && Open(g, g.cur) && st.While? && Processed(st) && StmtInScope(st) && Within(LowerStmt(g, st), w)
    ensures Reaches(p, Running(|g.blocks|, 0, entry, temps, s), c, n) && Ends(|g.blocks| + 3, 0, Exec(o, st, s, fuel), c, n, fuel)
    decreases fuel, st, 1
  {
    var k, r := |g.blocks|, Eval(o, st.cond, s);
    var start := Running(k, 0, entry, temps, s);
    if fuel == 0 {
      c, n := start, 0;
    } else {
      var e1, t1, n1 := HeaderRuns(p, o, g, st, w, entry, temps, s);
      if r.value == 0 {
        c, n := Running(k + 3, 0, e1, t1, r.store), n1;
      } else {
        var q := ExecOption(o, st.body, r.store, fuel);
        var inner := Running(k + 2, 0, e1, t1, r.store);
        var d, n2 := BodyRuns(p, o, g, st, w, e1, t1, r.store, fuel);
        Concat(p, start, inner, d, n1, n2);
        c, n := d, n1 + n2;
        if q.Normal? {
          var n3;
          c, n3 := LoopRuns(p, o, g, st, w, d.entry, d.temps, q.store, fuel - 1);
          Concat(p, start, d, c, n, n3);
          n := n + n3;
        }
      }
    }
  }

  lemma HeaderRuns(p: Step, o: Oracle, g: Graph, st: Stmt, w: Graph, entry: nat, temps: map<Temp, int>, s: Store)
    returns (entry': nat, temps': map<Temp, int>, n: nat)
    requires Includes(p, o, w)
    requires Ok(g) && Open(g, g.cur) && st.While? && Processed(st) && StmtInScope(st) && Within(LowerStmt(g, st), w)
    ensures var r := Eval(o, st.cond, s);
      && n > 0 && Reaches(p, Running(|g.blocks|, 0, entry, temps, s),
           Running(if r.value != 0 then |g.blocks| + 2 else |g.blocks| + 3, 0, entry', temps', r.store), n)
  {
    var k, r := |g.blocks|, Eval(o, st.cond, s);
    var h := NewBlock(NewBlock(WhileHeader(g), []), []);
    WhileParts(g, st, w);
    WhileHeadParts(g, st.cond, w);
    WhileHeaderShape(g);
    LeaveRuns(p, o, w, k, Jmp, k + 1, 0, entry, temps, s);
    var n1;
    entry', temps', n1 := BranchRuns(p, o, h, st.cond, k + 2, k + 3, w, 0, temps, s);
    Concat(p, Running(k, 0, entry, temps, s), Running(k + 1, 0, 0, temps, s),
           Running(if r.value != 0 then k + 2 else k + 3, 0, entry', temps', r.store), 1, n1);
    n := n1 + 1;
  }

  /** The body, and back to the pre-header if it completes. */
  lemma {:induction false} BodyRuns(p: Step, o: Oracle, g: Graph, st: Stmt, w: Graph, entry: nat, temps: map<Temp, int>, s: Store, fuel: nat)
    returns (c: Config, n: nat)
    requires Includes(p, o, w)
    requires Ok(g) && Open(g, g.cur) && st.While? && Processed(st) && StmtInScope(st) && Within(LowerStmt(g, st), w)
    ensures Reaches(p, Running(|g.blocks| + 2, 0, entry, temps, s), c, n)
    ensures Ends(|g.blocks|, 0, ExecOption(o, st.body, s, fuel), c, n, fuel)
    decreases fuel, st, 0
  {
    var t, b, k := WhileTest(g, st.cond), WhileBody(g, st), |g.blocks|;
    WhileTestShape(g, st.cond);
    WhileParts(g, st, w);
    if st.body.None? {
      c, n := Running(k + 2, 0, entry, temps, s), 0;
    } else {
      c, n := StmtRuns(p, o, t, st.body.value, w, entry, temps, s, fuel);
      if Cfb(st.body.value) == Returns { ReturnsNeverCompletes(o, st.body.value, s, fuel); }
    }
    var q := ExecOption(o, st.body, s, fuel);
    if q.Normal? {
      var i := |b.blocks[k].preds|;
      LeaveRuns(p, o, w, b.cur, Jmp, k, i, c.entry, c.temps, q.store);
      Concat(p, Running(k + 2, 0, entry, temps, s), c, Running(k, 0, i, c.temps, q.store), n, 1);
      c, n := Running(k, 0, i, c.temps, q.store), n + 1;
    }
  }

  // ---- methods ----

  ghost function InitialGraph(): Graph { Graph([BasicBlock([], [], None), BasicBlock([], [], None)], 1, 0) }

  lemma InitialShape()
    ensures Ok(InitialGraph()) && Open(InitialGraph(), 1)
  {
    forall t: BlockId, i: nat, e ensures !HasEdge(InitialGraph(), t, i, e) {}
  }

  lemma {:induction false} MethodShape(body: seq<Stmt>, onEnd: Option<int>)
    requires ProcessedAll(body)
    ensures Ok(LowerMethod(body, onEnd))
  {
    InitialShape();
    AllShape(InitialGraph(), body);
    var g := LowerAll(InitialGraph(), body);
    if CfbAll(body) == MayContinue {
      if onEnd.None? {
        LeaveShape(g, None);
      } else {
        EmitShape(g, Constant(g.temps, onEnd.value));
        LeaveShape(Emit(g, Constant(g.temps, onEnd.value)), Some(g.temps));
      }
    }
  }

  /** What a method yields: a body that completes returns `onEnd`. */
  function ExecMethod(o: Oracle, body: seq<Stmt>, onEnd: Option<int>, s: Store, fuel: nat): Outcome {
    var q := ExecAll(o, body, s, fuel);
    if q.Normal? then Returned(onEnd, q.store.trace) else q
  }

  ghost predicate Halts(p: Step, c: Config, result: Option<int>, trace: seq<Event>) {
    exists n: nat :: Reaches(p, c, Halted(result, trace), n)
  }

  function Start(s: Store): Config { Running(1, 0, 0, map[], s) }

  /** Every source run is matched: the same result and events, or as many steps as iterations were allowed. */
  lemma {:induction false} MethodRuns(p: Step, o: Oracle, body: seq<Stmt>, onEnd: Option<int>, s: Store, fuel: nat)
    returns (c: Config, n: nat)
    requires ProcessedAll(body) && AllInScope(body) && Includes(p, o, LowerMethod(body, onEnd))
    ensures Reaches(p, Start(s), c, n)
    ensures var q := ExecMethod(o, body, onEnd, s, fuel); if q.Returned? then c == Halted(q.result, q.trace) else n >= fuel
  {
    var g, w, q := LowerAll(InitialGraph(), body), LowerMethod(body, onEnd), ExecAll(o, body, s, fuel);
    InitialShape();
    AllShape(InitialGraph(), body);
    if CfbAll(body) == Returns {
      AllNeverCompletes(o, body, s, fuel);
      c, n := AllRuns(p, o, InitialGraph(), body, w, 0, map[], s, fuel);
    } else {
      EpilogueWithin(g, onEnd, w);
      c, n := AllRuns(p, o, InitialGraph(), body, w, 0, map[], s, fuel);
      if q.Normal? {
        var d, n1 := EpilogueRuns(p, o, g, onEnd, w, c.entry, c.temps, q.store);
        Concat(p, Start(s), c, d, n, n1);
        c, n := d, n + n1;
      }
    }
  }

  function Epilogue(g: Graph, onEnd: Option<int>): Graph
    requires g.cur < |g.blocks|
  {
    if onEnd.None? then LeaveWith(g, None) else LeaveWith(Emit(g, Constant(g.temps, onEnd.value)), Some(g.temps))
  }

  lemma WithinSelf(g: Graph)
    ensures Within(g, g)
  {
  }

  lemma EpilogueWithin(g: Graph, onEnd: Option<int>, w: Graph)
    requires Ok(g) && Open(g, g.cur) && w == Epilogue(g, onEnd)
    ensures Within(g, w)
  {
    WithinSelf(w);
    if onEnd.None? {
      LeaveShape(g, None);
      WithinBack(g, w, w);
    } else {
      var g1 := Emit(g, Constant(g.temps, onEnd.value));
      EmitShape(g, Constant(g.temps, onEnd.value));
      LeaveShape(g1, Some(g.temps));
      WithinBack(g1, w, w);
      WithinBack(g, g1, w);
    }
  }

  lemma EpilogueRuns(p: Step, o: Oracle, g: Graph, onEnd: Option<int>, w: Graph, entry: nat, temps: map<Temp, int>, s: Store)
    returns (d: Config, n: nat)
    requires Includes(p, o, w) && Ok(g) && Open(g, g.cur) && w == Epilogue(g, onEnd)
    ensures d == Halted(onEnd, s.trace) && Reaches(p, At(g, entry, temps, s), d, n)
  {
    d := Halted(onEnd, s.trace);
    WithinSelf(w);
    if onEnd.None? {
      LeaveWithRuns(p, o, g, None, w, entry, temps, s);
      n := 1;
    } else {
      var i := Constant(g.temps, onEnd.value);
      var g1 := Emit(g, i);
      EmitShape(g, i);
      LeaveShape(g1, Some(g.temps));
      WithinBack(g1, w, w);
      var t1 := temps[g.temps := onEnd.value];
      EmitRuns(p, o, g, i, w, entry, temps, s, At(g1, entry, t1, s));
      LeaveWithRuns(p, o, g1, Some(g.temps), w, entry, t1, s);
      Concat(p, At(g, entry, temps, s), At(g1, entry, t1, s), d, 1, 1);
      n := 2;
    }
  }

  // ---- both directions ----

  lemma StepDeterministic(o: Oracle, g: Graph, c: Config, d: Config, e: Config)
    requires EdgesUnique(g) && Steps(o, g, c, d) && Steps(o, g, c, e)
    ensures d == e
  {
    var b := g.blocks[c.block];
    if c.pc >= |b.instrs| {
      var k :| ExitsBy(b, c.temps, k) && HasEdge(g, d.block, d.entry, Edge(c.block, k));
      var l :| ExitsBy(b, c.temps, l) && HasEdge(g, e.block, e.entry, Edge(c.block, l));
      assert k == l;
    }
  }

  lemma HaltedStays(o: Oracle, g: Graph, c: Config, e: Config, m: nat)
    requires c.Halted? && Reaches(StepsOf(o, g), c, e, m)
    ensures m == 0 && e == c
  {
    assert forall y :: !StepsOf(o, g)(c, y);
  }

  /** A run that halts is the only one. */
  lemma {:induction false} HaltsOnce(o: Oracle, g: Graph, c: Config, d: Config, n: nat, e: Config, m: nat)
    requires EdgesUnique(g) && d.Halted?
    requires Reaches(StepsOf(o, g), c, d, n) && Reaches(StepsOf(o, g), c, e, m)
    ensures m <= n && (e.Halted? ==> e == d)
    decreases n
  {
    var p := StepsOf(o, g);
    if n == 0 {
      HaltedStays(o, g, c, e, m);
    } else {
      var x :| p(c, x) && Reaches(p, x, d, n - 1);
      assert Steps(o, g, c, x);
      if m > 0 {
        var y :| p(c, y) && Reaches(p, y, e, m - 1);
        StepDeterministic(o, g, c, x, y);
        HaltsOnce(o, g, x, d, n - 1, e, m - 1);
      }
    }
  }

  /** Main result: the emitted graph halts with a result and a sequence of events if and only if the source method
      returns that result after those events. */
  lemma {:induction false} LoweringPreservesMeaning(o: Oracle, body: seq<Stmt>, onEnd: Option<int>, s: Store, result: Option<int>, trace: seq<Event>)
    requires ProcessedAll(body) && AllInScope(body)
    ensures Halts(StepsOf(o, LowerMethod(body, onEnd)), Start(s), result, trace) <==>
      exists fuel: nat :: ExecMethod(o, body, onEnd, s, fuel) == Returned(result, trace)
  {
    var w := LowerMethod(body, onEnd);
    var p := StepsOf(o, w);
    if fuel: nat :| ExecMethod(o, body, onEnd, s, fuel) == Returned(result, trace) {
      var c, n := MethodRuns(p, o, body, onEnd, s, fuel);
    }
    if Halts(p, Start(s), result, trace) {
      var n: nat :| Reaches(p, Start(s), Halted(result, trace), n);
      MethodShape(body, onEnd);
      var c, m := MethodRuns(p, o, body, onEnd, s, n + 1);
      HaltsOnce(o, w, Start(s), Halted(result, trace), n, c, m);
      assert ExecMethod(o, body, onEnd, s, n + 1) == Returned(result, trace);
    }
  }
}
