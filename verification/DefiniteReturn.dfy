/** The semantic pass on control flow (semantic_visitor.cpp): which statements return on every path, and dropping what
    follows them. */
module DefiniteReturn {
  import opened Wrappers
  import opened Lowering

  /** A statement marked as returning never completes normally. */
  lemma {:induction false} ReturnsNeverCompletes(o: Oracle, st: Stmt, s: Store, fuel: nat)
    requires Cfb(st) == Returns
    ensures !Exec(o, st, s, fuel).Normal?
    decreases st, 1
  {
    if st.Block? {
      AllNeverCompletes(o, st.stmts, s, fuel);
    } else if st.If? {
      var r := Eval(o, st.cond, s);
      ReturnsNeverCompletes(o, st.thenStmt.value, r.store, fuel);
      ReturnsNeverCompletes(o, st.elseStmt.value, r.store, fuel);
    }
  }

  lemma {:induction false} AllNeverCompletes(o: Oracle, sts: seq<Stmt>, s: Store, fuel: nat)
    requires CfbAll(sts) == Returns
    ensures !ExecAll(o, sts, s, fuel).Normal?
    decreases sts, 0
  {
    if Cfb(sts[0]) == Returns {
      ReturnsNeverCompletes(o, sts[0], s, fuel);
    } else {
      var q := Exec(o, sts[0], s, fuel);
      if q.Normal? { AllNeverCompletes(o, sts[1..], q.store, fuel); }
    }
  }

  // ---- paths, with conditions left open ----

  /** Where a path leads that decides every condition on its way: behind the statement, with decisions left over, out of the
      method, or nowhere because the decisions ran out. */
  datatype Way = Behind(path: seq<bool>) | Out | Undecided

  function Walk(st: Stmt, path: seq<bool>): (r: Way)
    ensures r.Behind? ==> |r.path| <= |path|
    decreases |path|, st, 1
  {
    match st
    case Block(sts) => WalkAll(sts, path)
    case If(_, a, b) => if path == [] then Undecided else WalkOption(if path[0] then a else b, path[1..])
    case While(_, body) =>
      if path == [] then Undecided
      else if !path[0] then Behind(path[1..])
      else
        var r := WalkOption(body, path[1..]);
        if r.Behind? then Walk(st, r.path) else r
    case Return(_) => Out
    case _ => Behind(path)
  }

  function WalkOption(st: Option<Stmt>, path: seq<bool>): (r: Way)
    ensures r.Behind? ==> |r.path| <= |path|
    decreases |path|, st, 0
  {
    if st.None? then Behind(path) else Walk(st.value, path)
  }

  function WalkAll(sts: seq<Stmt>, path: seq<bool>): (r: Way)
    ensures r.Behind? ==> |r.path| <= |path|
    decreases |path|, sts, 0
  {
    if sts == [] then Behind(path)
    else
      var r := Walk(sts[0], path);
      if r.Behind? then WalkAll(sts[1..], r.path) else r
  }

  lemma {:induction false} NoWayBehind(st: Stmt, path: seq<bool>)
    requires Cfb(st) == Returns
    ensures !Walk(st, path).Behind?
    decreases |path|, st, 1
  {
    if st.Block? {
      NoWayBehindAll(st.stmts, path);
    } else if st.If? && path != [] {
      NoWayBehind((if path[0] then st.thenStmt else st.elseStmt).value, path[1..]);
    }
  }

  lemma {:induction false} NoWayBehindAll(sts: seq<Stmt>, path: seq<bool>)
    requires CfbAll(sts) == Returns
    ensures !WalkAll(sts, path).Behind?
    decreases |path|, sts, 0
  {
    if Cfb(sts[0]) == Returns {
      NoWayBehind(sts[0], path);
    } else {
      var r := Walk(sts[0], path);
      if r.Behind? { NoWayBehindAll(sts[1..], r.path); }
    }
  }

  lemma {:induction false} WayBehind(st: Stmt, left: seq<bool>) returns (path: seq<bool>)
    requires Cfb(st) == MayContinue
    ensures Walk(st, path) == Behind(left)
    decreases st, 1
  {
    match st
    case Block(sts) => path := WayBehindAll(sts, left);
    case If(_, a, b) =>
      var first := CfbOption(a) == MayContinue;
      path := WayBehindOption(if first then a else b, left);
      assert ([first] + path)[1..] == path;
      path := [first] + path;
    case While(_, _) =>
      path := [false] + left;
      assert path[1..] == left;
    case _ => path := left;
  }

  lemma {:induction false} WayBehindOption(st: Option<Stmt>, left: seq<bool>) returns (path: seq<bool>)
    requires CfbOption(st) == MayContinue
    ensures WalkOption(st, path) == Behind(left)
    decreases st, 0
  {
    if st.None? { path := left; } else { path := WayBehind(st.value, left); }
  }

  lemma {:induction false} WayBehindAll(sts: seq<Stmt>, left: seq<bool>) returns (path: seq<bool>)
    requires CfbAll(sts) == MayContinue
    ensures WalkAll(sts, path) == Behind(left)
    decreases sts, 0
  {
    if sts == [] {
      path := left;
    } else {
      var rest := WayBehindAll(sts[1..], left);
      path := WayBehind(sts[0], rest);
    }
  }

  /** Main result: a statement is marked as returning exactly when no path through it, whatever its conditions decide, comes
      out behind it. */
  lemma ReturnsExactly(st: Stmt)
    ensures Cfb(st) == Returns <==> forall path :: !Walk(st, path).Behind?
  {
    if Cfb(st) == Returns {
      forall path ensures !Walk(st, path).Behind? { NoWayBehind(st, path); }
    } else {
      var path := WayBehind(st, []);
    }
  }

  // ---- dropping dead statements ----

  /** The semantic pass on a block: everything after the first statement that returns is dropped. */
  function Process(st: Stmt): Stmt
    decreases st, 1
  {
    match st
    case Block(sts) => Block(ProcessAll(sts))
    case If(c, a, b) => If(c, ProcessOption(a), ProcessOption(b))
    case While(c, body) => While(c, ProcessOption(body))
    case _ => st
  }

  function ProcessOption(st: Option<Stmt>): Option<Stmt>
    decreases st, 0
  {
    if st.None? then None else Some(Process(st.value))
  }

  function ProcessAll(sts: seq<Stmt>): seq<Stmt>
    decreases sts, 0
  {
    if sts == [] then []
    else if Cfb(sts[0]) == Returns then [Process(sts[0])]
    else [Process(sts[0])] + ProcessAll(sts[1..])
  }

  /** Processing keeps the behaviour it computed and removes all dead statements. */
  lemma {:induction false} ProcessShape(st: Stmt)
    ensures Cfb(Process(st)) == Cfb(st) && Processed(Process(st))
    decreases st, 1
  {
    if st.Block? {
      ProcessAllShape(st.stmts);
    } else if st.If? {
      if st.thenStmt.Some? { ProcessShape(st.thenStmt.value); }
      if st.elseStmt.Some? { ProcessShape(st.elseStmt.value); }
    } else if st.While? {
      if st.body.Some? { ProcessShape(st.body.value); }
    }
  }

  lemma {:induction false} ProcessAllShape(sts: seq<Stmt>)
    ensures CfbAll(ProcessAll(sts)) == CfbAll(sts) && ProcessedAll(ProcessAll(sts))
    decreases sts, 0
  {
    if sts != [] {
      ProcessShape(sts[0]);
      var r := ProcessAll(sts);
      if Cfb(sts[0]) != Returns {
        ProcessAllShape(sts[1..]);
        assert r[1..] == ProcessAll(sts[1..]);
        forall i | 0 <= i < |r| ensures Processed(r[i]) && (Cfb(r[i]) == Returns ==> i == |r| - 1) {
          if i > 0 { assert r[i] == ProcessAll(sts[1..])[i-1]; }
        }
      }
    }
  }

  /** Dropping dead statements changes no run, whatever it ends in and however long it takes. */
  lemma {:induction false} ProcessKeepsMeaning(o: Oracle, st: Stmt, s: Store, fuel: nat)
    ensures Exec(o, Process(st), s, fuel) == Exec(o, st, s, fuel)
    decreases fuel, st, 1
  {
    if st.Block? {
      ProcessAllKeepsMeaning(o, st.stmts, s, fuel);
    } else if st.If? {
      var r := Eval(o, st.cond, s);
      if st.thenStmt.Some? { ProcessKeepsMeaning(o, st.thenStmt.value, r.store, fuel); }
      if st.elseStmt.Some? { ProcessKeepsMeaning(o, st.elseStmt.value, r.store, fuel); }
    } else if st.While? && fuel > 0 {
      var r := Eval(o, st.cond, s);
      if st.body.Some? { ProcessKeepsMeaning(o, st.body.value, r.store, fuel); }
      var q := ExecOption(o, st.body, r.store, fuel);
      if q.Normal? { ProcessKeepsMeaning(o, st, q.store, fuel - 1); }
    }
  }

  lemma {:induction false} ProcessAllKeepsMeaning(o: Oracle, sts: seq<Stmt>, s: Store, fuel: nat)
    ensures ExecAll(o, ProcessAll(sts), s, fuel) == ExecAll(o, sts, s, fuel)
    decreases fuel, sts, 0
  {
    if sts != [] {
      ProcessKeepsMeaning(o, sts[0], s, fuel);
      var q := Exec(o, sts[0], s, fuel);
      if Cfb(sts[0]) == Returns {
        ReturnsNeverCompletes(o, sts[0], s, fuel);
      } else {
        assert ProcessAll(sts)[1..] == ProcessAll(sts[1..]);
        if q.Normal? { ProcessAllKeepsMeaning(o, sts[1..], q.store, fuel); }
      }
    }
  }
}
