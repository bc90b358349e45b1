/** Whole methods from the source to the graph: the semantic pass drops dead statements (semantic_visitor.cpp), the main
    method returns 0 (visitReturnStatement and visitMainMethod in firm_visitor.cpp), and the rest is lowered. */
module LoweringMethod {
  import opened Wrappers
  import opened Lowering
  import opened LoweringStmts
  import opened DefiniteReturn

  /** In the main method a return without a value returns 0. */
  function Resolve(main: bool, st: Stmt): (r: Stmt)
    ensures Cfb(r) == Cfb(st)
    decreases st, 1
  {
    match st
    case Block(sts) => Block(ResolveAll(main, sts))
    case If(c, a, b) => If(c, ResolveOption(main, a), ResolveOption(main, b))
    case While(c, body) => While(c, ResolveOption(main, body))
    case Return(None) => if main then Return(Some(IntLit(0))) else st
    case _ => st
  }

  function ResolveOption(main: bool, st: Option<Stmt>): (r: Option<Stmt>)
    ensures CfbOption(r) == CfbOption(st) && r.Some? == st.Some?
    decreases st, 0
  {
    if st.None? then None else Some(Resolve(main, st.value))
  }

  function ResolveAll(main: bool, sts: seq<Stmt>): (r: seq<Stmt>)
    ensures |r| == |sts| && CfbAll(r) == CfbAll(sts) && forall i :: 0 <= i < |r| ==> r[i] == Resolve(main, sts[i])
    decreases sts, 0
  {
    if sts == [] then [] else [Resolve(main, sts[0])] + ResolveAll(main, sts[1..])
  }

  /** What a method returns when its body completes. */
  function OnEnd(main: bool): Option<int> { if main then Some(0) else None }

  /** The exit code of the main method is 0 if nothing else is returned. */
  function Finished(main: bool, q: Outcome): Outcome {
    if q.Returned? && q.result.None? then Returned(OnEnd(main), q.trace) else q
  }

  lemma {:induction false} ResolvedRuns(o: Oracle, main: bool, st: Stmt, s: Store, fuel: nat)
    ensures Exec(o, Resolve(main, st), s, fuel) == Finished(main, Exec(o, st, s, fuel))
    decreases fuel, st, 1
  {
    match st
    case Block(sts) => ResolvedAllRuns(o, main, sts, s, fuel);
    case If(c, a, b) =>
      var r := Eval(o, c, s);
      ResolvedOptionRuns(o, main, if r.value != 0 then a else b, r.store, fuel);
    case While(c, body) =>
      if fuel > 0 {
        var r := Eval(o, c, s);
        ResolvedOptionRuns(o, main, body, r.store, fuel);
        var q := ExecOption(o, body, r.store, fuel);
        if q.Normal? { ResolvedRuns(o, main, st, q.store, fuel - 1); }
      }
    case _ =>
  }

  lemma {:induction false} ResolvedOptionRuns(o: Oracle, main: bool, st: Option<Stmt>, s: Store, fuel: nat)
    ensures ExecOption(o, ResolveOption(main, st), s, fuel) == Finished(main, ExecOption(o, st, s, fuel))
    decreases fuel, st, 0
  {
    if st.Some? { ResolvedRuns(o, main, st.value, s, fuel); }
  }

  lemma {:induction false} ResolvedAllRuns(o: Oracle, main: bool, sts: seq<Stmt>, s: Store, fuel: nat)
    ensures ExecAll(o, ResolveAll(main, sts), s, fuel) == Finished(main, ExecAll(o, sts, s, fuel))
    decreases fuel, sts, 0
  {
    if sts != [] {
      ResolvedRuns(o, main, sts[0], s, fuel);
      assert ResolveAll(main, sts)[1..] == ResolveAll(main, sts[1..]);
      var q := Exec(o, sts[0], s, fuel);
      if q.Normal? { ResolvedAllRuns(o, main, sts[1..], q.store, fuel); }
    }
  }

  lemma {:induction false} ResolvedShape(main: bool, st: Stmt)
    requires Processed(st) && StmtInScope(st)
    ensures Processed(Resolve(main, st)) && StmtInScope(Resolve(main, st))
    decreases st, 1
  {
    match st
    case Block(sts) => ResolvedAllShape(main, sts);
    case If(c, a, b) =>
      if a.Some? { ResolvedShape(main, a.value); }
      if b.Some? { ResolvedShape(main, b.value); }
    case While(c, body) => if body.Some? { ResolvedShape(main, body.value); }
    case _ =>
  }

  lemma {:induction false} ResolvedAllShape(main: bool, sts: seq<Stmt>)
    requires ProcessedAll(sts) && AllInScope(sts)
    ensures ProcessedAll(ResolveAll(main, sts)) && AllInScope(ResolveAll(main, sts))
    decreases sts, 0
  {
    forall i | 0 <= i < |sts| ensures Processed(Resolve(main, sts[i])) && StmtInScope(Resolve(main, sts[i])) {
      ResolvedShape(main, sts[i]);
    }
  }

  /** The semantic pass adds nothing. */
  lemma {:induction false} ProcessInScope(st: Stmt)
    requires StmtInScope(st)
    ensures StmtInScope(Process(st))
    decreases st, 1
  {
    match st
    case Block(sts) => ProcessAllInScope(sts);
    case If(c, a, b) =>
      if a.Some? { ProcessInScope(a.value); }
      if b.Some? { ProcessInScope(b.value); }
    case While(c, body) => if body.Some? { ProcessInScope(body.value); }
    case _ =>
  }

  lemma {:induction false} ProcessAllInScope(sts: seq<Stmt>)
    requires AllInScope(sts)
    ensures AllInScope(ProcessAll(sts))
    decreases sts, 0
  {
    if sts != [] {
      ProcessInScope(sts[0]);
      ProcessAllInScope(sts[1..]);
    }
  }

  /** The graph of a method after the semantic pass. */
  function GraphOf(main: bool, body: seq<Stmt>): Graph { LowerMethod(ResolveAll(main, ProcessAll(body)), OnEnd(main)) }

  /** What the method does as written. */
  function ExecSource(o: Oracle, main: bool, body: seq<Stmt>, s: Store, fuel: nat): Outcome {
    var q := ExecAll(o, body, s, fuel);
    if q.Normal? then Returned(OnEnd(main), q.store.trace) else Finished(main, q)
  }

  lemma GraphRunsSource(o: Oracle, main: bool, body: seq<Stmt>, s: Store, fuel: nat)
    ensures ExecMethod(o, ResolveAll(main, ProcessAll(body)), OnEnd(main), s, fuel) == ExecSource(o, main, body, s, fuel)
  {
    ProcessAllKeepsMeaning(o, body, s, fuel);
    ResolvedAllRuns(o, main, ProcessAll(body), s, fuel);
  }

  /** Main result: the graph of a method halts with a result after a sequence of events if and only if the method, as
      written, returns that result after those events. */
  lemma MethodPreservesMeaning(o: Oracle, main: bool, body: seq<Stmt>, s: Store, result: Option<int>, trace: seq<Event>)
    requires AllInScope(body)
    ensures Halts(StepsOf(o, GraphOf(main, body)), Start(s), result, trace) <==>
      exists fuel: nat :: ExecSource(o, main, body, s, fuel) == Returned(result, trace)
  {
    var after := ResolveAll(main, ProcessAll(body));
    ProcessAllShape(body);
    ProcessAllInScope(body);
    ResolvedAllShape(main, ProcessAll(body));
    LoweringPreservesMeaning(o, after, OnEnd(main), s, result, trace);
    forall fuel: nat ensures ExecMethod(o, after, OnEnd(main), s, fuel) == ExecSource(o, main, body, s, fuel) {
      GraphRunsSource(o, main, body, s, fuel);
    }
  }
}
