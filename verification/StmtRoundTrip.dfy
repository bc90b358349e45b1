/** Printing a statement and parsing the tokens gives its normal form, and printing that prints the same tokens. */
module StmtRoundTrip {
  import opened Wrappers
  import opened Syntax
  import opened Grammar
  import opened ExprParser
  import opened ParserComplete
  import opened StmtParser
  import opened Printer
  import opened Reprint
  import opened ReprintGrowth
  import opened RoundTrip

  /** The shape the C++ types and the parser enforce: null statements and declarations only where they may stand. */
  ghost predicate Shaped(s: Stmt) {
    match s
    case Empty => true
    case Block(ss) => forall i :: 0 <= i < |ss| ==> Shaped(ss[i]) && ss[i] != Empty
    case ExprStmt(e) => Representable(e)
    case If(c, t, e) => Representable(c) && Shaped(t) && Shaped(e) && !t.VarDecl? && !e.VarDecl?
    case While(c, b) => Representable(c) && Shaped(b) && !b.VarDecl?
    case Return(Some(e)) => Representable(e)
    case VarDecl(_, _, Some(e)) => Representable(e)
    case _ => true
  }

  // ---- what is read back ----

  /** The expression the parser finds in what was printed for `e`. */
  function ReadBack(e: Expr, flag: bool): Expr { Strip(Reread(e, flag)) }

  /** The statement the parser finds in what was printed for `s`: branches become blocks, an else without effect is
      dropped, a block of nothing becomes the empty block, and expressions are what is read back of them. */
  function Normal(s: Stmt, flag: bool): Stmt
    decreases s, 1
  {
    match s
    case Block(ss) => if Lonely(s) then Block([]) else Block(NormalAll(ss, flag))
    case ExprStmt(e) => ExprStmt(ReadBack(e, flag))
    case If(c, t, e) =>
      If(ReadBack(c, flag), NormalBranch(t, FlagAfter(c)), NormalElse(e, StmtFlag(t, FlagAfter(c))))
    case While(c, b) => While(ReadBack(c, flag), NormalBranch(b, FlagAfter(c)))
    case Return(Some(e)) => Return(Some(ReadBack(e, flag)))
    case VarDecl(t, n, Some(e)) => VarDecl(t, n, Some(ReadBack(e, flag)))
    case _ => s
  }

  function NormalAll(ss: seq<Stmt>, flag: bool): (r: seq<Stmt>)
    ensures |r| == |ss|
    decreases ss, 0
  {
    if ss == [] then [] else [Normal(ss[0], flag)] + NormalAll(ss[1..], StmtFlag(ss[0], flag))
  }

  function NormalBranch(s: Stmt, flag: bool): Stmt
    decreases s, 2
  {
    if s == Empty then Block([]) else if s.Block? then Normal(s, flag) else Block([Normal(s, flag)])
  }

  function NormalElse(s: Stmt, flag: bool): Stmt
    decreases s, 3
  {
    if s == Empty || Lonely(s) then Empty else NormalBranch(s, flag)
  }

  /** Every expression is stable under the flag its statement is printed under. */
  predicate StableStmt(s: Stmt, flag: bool) {
    match s
    case Block(ss) => StableStmts(ss, flag)
    case ExprStmt(e) => Stable(e, flag)
    case If(c, t, e) =>
      Stable(c, flag) && StableStmt(t, FlagAfter(c)) && StableStmt(e, StmtFlag(t, FlagAfter(c)))
    case While(c, b) => Stable(c, flag) && StableStmt(b, FlagAfter(c))
    case Return(Some(e)) => Stable(e, flag)
    case VarDecl(_, _, Some(e)) => Stable(e, flag)
    case _ => true
  }

  predicate StableStmts(ss: seq<Stmt>, flag: bool) {
    ss == [] || (StableStmt(ss[0], flag) && StableStmts(ss[1..], StmtFlag(ss[0], flag)))
  }

  // ---- tokens a statement starts with ----

  /** An expression is never taken for a declaration. */
  lemma {:induction false} NotDeclaration(c: Cst, rest: seq<Token>)
    requires Spelled(c) && !Cur(rest).Identifier? && !(Cur(rest) == LBracket && Ahead(rest, 1) == RBracket)
    ensures !StartsDeclaration(Yield(c) + rest)
    decreases c
  {
    if c.CBinary? {
      Splice(Yield(c.left), [BinOpToken(c.op)] + Yield(c.right), rest);
      NotDeclaration(c.left, ([BinOpToken(c.op)] + Yield(c.right)) + rest);
    } else if c.CCall? {
      var tail := [Dot, Identifier(c.name), LParen] + (YieldAll(c.args) + [RParen]);
      Splice(Yield(c.target), tail, rest);
      NotDeclaration(c.target, tail + rest);
    } else if c.CField? {
      Splice(Yield(c.base), [Dot, Identifier(c.field)], rest);
      NotDeclaration(c.base, [Dot, Identifier(c.field)] + rest);
    } else if c.CIndex? {
      var tail := [LBracket] + (Yield(c.index) + [RBracket]);
      YieldStarts(c.index);
      Splice(Yield(c.arr), tail, rest);
      assert (tail + rest)[1] == Yield(c.index)[0];
      NotDeclaration(c.arr, tail + rest);
    } else {
      YieldStarts(c);
    }
  }

  lemma {:induction false} StmtStarts(s: Stmt, flag: bool, rest: seq<Token>)
    requires Shaped(s) && s != Empty
    ensures var ts := PrintStmt(s, flag) + rest;
      ts != [] && StartsBlockStmt(ts[0]) && (StartsDeclaration(ts) <==> s.VarDecl?)
  {
    match s
    case ExprStmt(e) =>
      var c := Concrete(e, flag);
      ConcreteSpells(e, flag);
      YieldStarts(c);
      NotDeclaration(c, [Semicolon] + rest);
      Splice(Yield(c), [Semicolon], rest);
    case VarDecl(t, n, i) =>
      DeclStarts(s, flag, rest);
    case _ =>
  }

  lemma DeclStarts(s: Stmt, flag: bool, rest: seq<Token>)
    requires s.VarDecl?
    ensures var ts := PrintStmt(s, flag) + rest; ts != [] && StartsBlockStmt(ts[0]) && StartsDeclaration(ts)
  {
    var (t, ts) := (s.ty, PrintStmt(s, flag) + rest);
    if t.dimension == 0 {
      assert ts[1] == Identifier(s.name);
    } else {
      assert Brackets(t.dimension) == [LBracket, RBracket] + Brackets(t.dimension - 1);
      assert TypeTokens(t)[1] == LBracket && TypeTokens(t)[2] == RBracket;
      assert ts[1] == LBracket && ts[2] == RBracket;
    }
  }

  // ---- parsing the printed pieces ----

  lemma {:induction false} ParsesExpr(e: Expr, flag: bool, rest: seq<Token>)
    requires Representable(e) && Stops(rest) && Prec(Cur(rest)) < 0
    ensures ParseExpr(Tokens(e, flag) + rest) == Parsed(ReadBack(e, flag), rest)
  {
    PrintedIsReread(e, flag, rest);
  }

  /** An expression and the token that closes it. */
  lemma {:induction false} ParsesClosed(e: Expr, flag: bool, close: Token, rest: seq<Token>)
    requires Representable(e) && (close == Semicolon || close == RParen)
    ensures Expect(ParseExpr(Tokens(e, flag) + ([close] + rest)), close) == Parsed(ReadBack(e, flag), rest)
  {
    ParsesExpr(e, flag, [close] + rest);
    assert ([close] + rest)[1..] == rest;
  }

  lemma {:induction false} ParsesStmt(s: Stmt, flag: bool, rest: seq<Token>)
    requires Shaped(s) && s != Empty && Cur(rest) != KwElse
    ensures ParseBlockStmt(PrintStmt(s, flag) + rest) == Parsed(Normal(s, flag), rest)
    ensures !s.VarDecl? ==> ParseStmt(PrintStmt(s, flag) + rest) == Parsed(Normal(s, flag), rest)
    decreases s, 3
  {
    StmtStarts(s, flag, rest);
    match s
    case Block(_) => ParsesBlock(s, flag, rest);
    case ExprStmt(_) => ParsesExprStmt(s, flag, rest);
    case If(_, _, _) => ParsesIf(s, flag, rest);
    case While(_, _) => ParsesWhile(s, flag, rest);
    case Return(_) => ParsesReturn(s, flag, rest);
    case VarDecl(_, _, _) => ParsesDecl(s, flag, rest);
  }

  lemma {:induction false} ParsesExprStmt(s: Stmt, flag: bool, rest: seq<Token>)
    requires s.ExprStmt? && Shaped(s)
    ensures ParseStmt(PrintStmt(s, flag) + rest) == Parsed(Normal(s, flag), rest)
    decreases s, 0
  {
    Splice(Tokens(s.e, flag), [Semicolon], rest);
    ParsesClosed(s.e, flag, Semicolon, rest);
    ConcreteSpells(s.e, flag);
    YieldStarts(Concrete(s.e, flag));
  }

  lemma {:induction false} ParsesReturn(s: Stmt, flag: bool, rest: seq<Token>)
    requires s.Return? && Shaped(s)
    ensures ParseStmt(PrintStmt(s, flag) + rest) == Parsed(Normal(s, flag), rest)
    decreases s, 0
  {
    var ts := PrintStmt(s, flag) + rest;
    if s.result.Some? {
      var e := s.result.value;
      Splice([KwReturn], Tokens(e, flag) + [Semicolon], rest);
      Splice(Tokens(e, flag), [Semicolon], rest);
      ParsesClosed(e, flag, Semicolon, rest);
      ConcreteSpells(e, flag);
      YieldStarts(Concrete(e, flag));
      assert ts[1..] == Tokens(e, flag) + ([Semicolon] + rest);
      assert ts[1] == Tokens(e, flag)[0];
    } else {
      assert ts[2..] == rest;
    }
  }

  lemma {:induction false} ParsesType(t: Type, rest: seq<Token>)
    requires Cur(rest) != LBracket
    ensures ParseType(TypeTokens(t) + rest) == Parsed(t, rest)
  {
    Splice([BasicTypeToken(t.basic)], Brackets(t.dimension), rest);
    assert (TypeTokens(t) + rest)[1..] == Brackets(t.dimension) + rest;
    ParsesDimensions(t.basic, 0, t.dimension, rest);
  }

  lemma {:induction false} ParsesDimensions(basic: BasicType, d: nat, n: nat, rest: seq<Token>)
    requires Cur(rest) != LBracket
    ensures TypeDimensions(basic, d, Brackets(n) + rest) == Parsed(Type(basic, d + n), rest)
    decreases n
  {
    if n > 0 {
      ParsesDimensions(basic, d + 1, n - 1, rest);
      assert (Brackets(n) + rest)[2..] == Brackets(n - 1) + rest;
    } else {
      assert Brackets(n) + rest == rest;
    }
  }

  lemma {:induction false} ParsesDecl(s: Stmt, flag: bool, rest: seq<Token>)
    requires s.VarDecl? && Shaped(s)
    ensures ParseVarDecl(PrintStmt(s, flag) + rest) == Parsed(Normal(s, flag), rest)
    decreases s, 0
  {
    if s.init.Some? {
      var e := s.init.value;
      var inner := Tokens(e, flag) + ([Semicolon] + rest);
      var tail := [Identifier(s.name), Eq] + inner;
      Splice(TypeTokens(s.ty), [Identifier(s.name), Eq] + (Tokens(e, flag) + [Semicolon]), rest);
      Splice([Identifier(s.name), Eq], Tokens(e, flag) + [Semicolon], rest);
      Splice(Tokens(e, flag), [Semicolon], rest);
      ParsesType(s.ty, tail);
      ParsesClosed(e, flag, Semicolon, rest);
      assert tail[2..] == inner;
    } else {
      var tail := [Identifier(s.name), Semicolon] + rest;
      Splice(TypeTokens(s.ty), [Identifier(s.name), Semicolon], rest);
      ParsesType(s.ty, tail);
      assert tail[2..] == rest;
    }
  }

  lemma {:induction false} ParsesBlock(s: Stmt, flag: bool, rest: seq<Token>)
    requires s.Block? && Shaped(s)
    ensures ParseBlock(PrintStmt(s, flag) + rest) == Parsed(Normal(s, flag), rest)
    decreases s, 2
  {
    var ts := PrintStmt(s, flag) + rest;
    if Lonely(s) {
      assert ts[1..] == [RBrace] + rest;
      assert ([RBrace] + rest)[1..] == rest;
    } else {
      var tail := [RBrace] + rest;
      Splice([LBrace], PrintAll(s.stmts, flag) + [RBrace], rest);
      Splice(PrintAll(s.stmts, flag), [RBrace], rest);
      assert ts[1..] == PrintAll(s.stmts, flag) + tail;
      ParsesItems([], s.stmts, flag, rest);
      assert [] + NormalAll(s.stmts, flag) == NormalAll(s.stmts, flag);
    }
  }

  lemma {:induction false} ParsesItems(done: seq<Stmt>, ss: seq<Stmt>, flag: bool, rest: seq<Token>)
    requires forall i :: 0 <= i < |ss| ==> Shaped(ss[i]) && ss[i] != Empty
    ensures BlockItems(done, PrintAll(ss, flag) + ([RBrace] + rest)) == Parsed(Block(done + NormalAll(ss, flag)), rest)
    decreases ss, 4
  {
    if ss == [] {
      NoItems(done, flag, rest);
    } else {
      var f1, item := StmtFlag(ss[0], flag), Normal(ss[0], flag);
      var next := PrintAll(ss[1..], f1) + ([RBrace] + rest);
      Splice(PrintStmt(ss[0], flag), PrintAll(ss[1..], f1), [RBrace] + rest);
      NextNotElse(ss[1..], f1, rest);
      ParsesStmt(ss[0], flag, next);
      StmtStarts(ss[0], flag, next);
      NormalNotEmpty(ss[0], flag);
      ItemStep(done, PrintStmt(ss[0], flag) + next, item, next);
      ParsesItems(done + [item], ss[1..], f1, rest);
      Splice(done, [item], NormalAll(ss[1..], f1));
    }
  }

  lemma NoItems(done: seq<Stmt>, flag: bool, rest: seq<Token>)
    ensures BlockItems(done, PrintAll([], flag) + ([RBrace] + rest)) == Parsed(Block(done + NormalAll([], flag)), rest)
  {
    var tail := [RBrace] + rest;
    assert PrintAll([], flag) + tail == tail && tail[1..] == rest && done + NormalAll([], flag) == done;
  }

  /** One round of the block loop. */
  lemma ItemStep(done: seq<Stmt>, ts: seq<Token>, s: Stmt, next: seq<Token>)
    requires StartsBlockStmt(Cur(ts)) && ParseBlockStmt(ts) == Parsed(s, next) && s != Empty
    ensures BlockItems(done, ts) == BlockItems(done + [s], next)
  {
  }

  lemma NormalNotEmpty(s: Stmt, flag: bool)
    requires s != Empty
    ensures Normal(s, flag) != Empty
  {
  }

  lemma NextNotElse(ss: seq<Stmt>, flag: bool, rest: seq<Token>)
    requires forall i :: 0 <= i < |ss| ==> Shaped(ss[i]) && ss[i] != Empty
    ensures Cur(PrintAll(ss, flag) + ([RBrace] + rest)) != KwElse
  {
    if ss != [] {
      StmtStarts(ss[0], flag, PrintAll(ss[1..], StmtFlag(ss[0], flag)) + ([RBrace] + rest));
      Splice(PrintStmt(ss[0], flag), PrintAll(ss[1..], StmtFlag(ss[0], flag)), [RBrace] + rest);
    }
  }

  lemma {:induction false} ParsesBranch(s: Stmt, flag: bool, rest: seq<Token>)
    requires Shaped(s) && !s.VarDecl?
    ensures ParseStmt(PrintBranch(s, flag) + rest) == Parsed(NormalBranch(s, flag), rest)
    decreases s, 5
  {
    if s == Empty {
      EmptyBlock(rest);
    } else if s.Block? {
      ParsesBlock(s, flag, rest);
    } else {
      ParsesBraced(s, flag, rest);
    }
  }

  lemma EmptyBlock(rest: seq<Token>)
    ensures ParseStmt([LBrace, RBrace] + rest) == Parsed(Block([]), rest)
  {
    var ts := [LBrace, RBrace] + rest;
    assert ts[1..] == [RBrace] + rest && ([RBrace] + rest)[1..] == rest;
    assert BlockItems([], ts[1..]) == Parsed(Block([]), rest);
    assert ParseBlock(ts) == Parsed(Block([]), rest);
  }

  lemma {:induction false} ParsesBraced(s: Stmt, flag: bool, rest: seq<Token>)
    requires Shaped(s) && s != Empty
    ensures ParseStmt([LBrace] + (PrintStmt(s, flag) + [RBrace]) + rest) == Parsed(Block([Normal(s, flag)]), rest)
    decreases s, 4
  {
    var tail := [RBrace] + rest;
    var ts := [LBrace] + (PrintStmt(s, flag) + [RBrace]) + rest;
    Splice([LBrace], PrintStmt(s, flag) + [RBrace], rest);
    Splice(PrintStmt(s, flag), [RBrace], rest);
    assert ts[1..] == PrintStmt(s, flag) + tail;
    ParsesStmt(s, flag, tail);
    StmtStarts(s, flag, tail);
    NormalNotEmpty(s, flag);
    OneItem(ts, Normal(s, flag), rest);
  }

  lemma OneItem(ts: seq<Token>, s: Stmt, rest: seq<Token>)
    requires Cur(ts) == LBrace && StartsBlockStmt(Cur(ts[1..])) && s != Empty
    requires ParseBlockStmt(ts[1..]) == Parsed(s, [RBrace] + rest)
    ensures ParseStmt(ts) == Parsed(Block([s]), rest)
  {
    var none: seq<Stmt> := [];
    assert none + [s] == [s];
    assert ([RBrace] + rest)[1..] == rest;
    assert BlockItems(none + [s], [RBrace] + rest) == Parsed(Block([s]), rest);
    assert BlockItems(none, ts[1..]) == BlockItems(none + [s], [RBrace] + rest);
    assert ParseBlock(ts) == Parsed(Block([s]), rest);
  }

  /** The condition of an if or while, and what follows its parenthesis. */
  lemma {:induction false} ParsesCondition(kw: Token, c: Expr, flag: bool, inner: seq<Token>, rest: seq<Token>)
    requires Representable(c)
    ensures var ts := [kw, LParen] + (Tokens(c, flag) + ([RParen] + inner)) + rest;
      Cur(ts) == kw && ParseCondition(ts[1..]) == Parsed(ReadBack(c, flag), inner + rest)
  {
    var ts := [kw, LParen] + (Tokens(c, flag) + ([RParen] + inner)) + rest;
    Splice([kw, LParen], Tokens(c, flag) + ([RParen] + inner), rest);
    Splice(Tokens(c, flag), [RParen] + inner, rest);
    Splice([RParen], inner, rest);
    ParsesClosed(c, flag, RParen, inner + rest);
    assert ts[1..][1..] == Tokens(c, flag) + ([RParen] + (inner + rest));
  }

  lemma {:induction false} ParsesWhile(s: Stmt, flag: bool, rest: seq<Token>)
    requires s.While? && Shaped(s)
    ensures ParseStmt(PrintStmt(s, flag) + rest) == Parsed(Normal(s, flag), rest)
    decreases s, 2
  {
    ParsesCondition(KwWhile, s.cond, flag, PrintBranch(s.body, FlagAfter(s.cond)), rest);
    ParsesBranch(s.body, FlagAfter(s.cond), rest);
    WhileStep(PrintStmt(s, flag) + rest, ReadBack(s.cond, flag), PrintBranch(s.body, FlagAfter(s.cond)) + rest,
      NormalBranch(s.body, FlagAfter(s.cond)), rest);
  }

  lemma WhileStep(ts: seq<Token>, c: Expr, mid: seq<Token>, body: Stmt, rest: seq<Token>)
    requires Cur(ts) == KwWhile && ParseCondition(ts[1..]) == Parsed(c, mid) && ParseStmt(mid) == Parsed(body, rest)
    ensures ParseStmt(ts) == Parsed(While(c, body), rest)
  {
  }

  lemma IfStep(ts: seq<Token>, c: Expr, mid: seq<Token>, thn: Stmt, after: seq<Token>, els: Stmt, rest: seq<Token>)
    requires Cur(ts) == KwIf && ParseCondition(ts[1..]) == Parsed(c, mid) && ParseStmt(mid) == Parsed(thn, after)
    requires if els == Empty then after == rest && Cur(rest) != KwElse
             else Cur(after) == KwElse && ParseStmt(after[1..]) == Parsed(els, rest)
    ensures ParseStmt(ts) == Parsed(If(c, thn, els), rest)
  {
    assert ParseIf(ts) == Parsed(If(c, thn, els), rest);
  }

  lemma {:induction false} ParsesIf(s: Stmt, flag: bool, rest: seq<Token>)
    requires s.If? && Shaped(s) && Cur(rest) != KwElse
    ensures ParseStmt(PrintStmt(s, flag) + rest) == Parsed(Normal(s, flag), rest)
    decreases s, 2
  {
    var f1 := FlagAfter(s.cond);
    var f2 := StmtFlag(s.thn, f1);
    var (t, e) := (PrintBranch(s.thn, f1), PrintElse(s.els, f2));
    ParsesCondition(KwIf, s.cond, flag, t + e, rest);
    Splice(t, e, rest);
    ParsesBranch(s.thn, f1, e + rest);
    ParsesElse(s.els, f2, rest);
    IfStep(PrintStmt(s, flag) + rest, ReadBack(s.cond, flag), t + (e + rest), NormalBranch(s.thn, f1), e + rest,
      NormalElse(s.els, f2), rest);
  }

  lemma {:induction false} ParsesElse(s: Stmt, flag: bool, rest: seq<Token>)
    requires Shaped(s) && !s.VarDecl? && Cur(rest) != KwElse
    ensures var ts := PrintElse(s, flag) + rest;
      if NormalElse(s, flag) == Empty then ts == rest
      else Cur(ts) == KwElse && ParseStmt(ts[1..]) == Parsed(NormalElse(s, flag), rest)
    decreases s, 5
  {
    if s == Empty || Lonely(s) {
      assert [] + rest == rest;
    } else if s.Block? {
      ParsesElseBlock(s, flag, rest);
    } else {
      ElseForms(s, flag);
      ParsesBraced(s, flag, rest);
      ElseTokens(PrintStmt(s, flag) + [RBrace], rest);
    }
  }

  /** A branch that is no block becomes one. */
  lemma ElseForms(s: Stmt, flag: bool)
    requires s != Empty && !s.Block?
    ensures !Lonely(s) && !Normal(s, flag).Block?
    ensures NormalElse(s, flag) == Block([Normal(s, flag)])
  {
  }

  lemma ElseTokens(inner: seq<Token>, rest: seq<Token>)
    ensures var ts := ([KwElse, LBrace] + inner) + rest; Cur(ts) == KwElse && ts[1..] == [LBrace] + inner + rest
  {
    var ts := ([KwElse, LBrace] + inner) + rest;
    assert ts[1..] == [LBrace] + inner + rest;
  }

  lemma {:induction false} ParsesElseBlock(s: Stmt, flag: bool, rest: seq<Token>)
    requires s.Block? && !Lonely(s) && Shaped(s)
    ensures var ts := PrintElse(s, flag) + rest;
      NormalElse(s, flag) != Empty && Cur(ts) == KwElse && ParseStmt(ts[1..]) == Parsed(NormalElse(s, flag), rest)
    decreases s, 3
  {
    var ts := PrintElse(s, flag) + rest;
    assert NormalElse(s, flag) == Normal(s, flag) && Normal(s, flag) != Empty;
    ParsesBlock(s, flag, rest);
    ElseTail(PrintStmt(s, flag), rest);
    StatementIsBlock(ts[1..]);
  }

  lemma ElseTail(inner: seq<Token>, rest: seq<Token>)
    ensures var ts := ([KwElse] + inner) + rest; Cur(ts) == KwElse && ts[1..] == inner + rest
  {
  }

  lemma StatementIsBlock(ts: seq<Token>)
    requires Cur(ts) == LBrace
    ensures ParseStmt(ts) == ParseBlock(ts)
  {
  }

  // ---- the theorems ----

  /** Parsing what was printed for any statement yields its normal form and consumes exactly the printed tokens. */
  lemma PrintThenParse(s: Stmt, flag: bool, rest: seq<Token>)
    requires Shaped(s) && s != Empty && Cur(rest) != KwElse
    ensures ParseBlockStmt(PrintStmt(s, flag) + rest) == Parsed(Normal(s, flag), rest)
  {
    ParsesStmt(s, flag, rest);
  }

  // ---- printing it again ----

  /** What is printed the second time is not shorter, and is what was printed the first time exactly under the condition. */
  ghost predicate Again(second: seq<Token>, first: seq<Token>, same: bool) {
    |second| >= |first| && (second == first <==> same)
  }

  lemma AgainJoined(a: seq<Token>, b: seq<Token>, p: bool, c: seq<Token>, d: seq<Token>, q: bool)
    requires Again(a, b, p) && Again(c, d, q)
    ensures Again(a + c, b + d, p && q)
  {
    if a + c == b + d {
      assert |a| == |b| && (a + c)[..|a|] == a && (b + d)[..|a|] == b;
      assert (a + c)[|a|..] == c && (b + d)[|a|..] == d;
    }
  }

  /** Between tokens that stay. */
  lemma AgainInside(before: seq<Token>, a: seq<Token>, b: seq<Token>, p: bool, after: seq<Token>)
    requires Again(a, b, p)
    ensures Again(before + (a + after), before + (b + after), p) && Again(before + a, before + b, p)
  {
    AgainJoined(a, b, p, after, after, true);
    AgainJoined(before, before, true, a + after, b + after, p);
    AgainJoined(before, before, true, a, b, p);
  }

  /** Reading an expression back and printing it. */
  lemma ExprAgain(e: Expr, flag: bool)
    requires Representable(e)
    ensures Again(Tokens(ReadBack(e, flag), flag), Tokens(e, flag), Stable(e, flag)) && FlagAfter(ReadBack(e, flag)) == FlagAfter(e)
  {
    ReprintExact(e, flag);
    ReprintNeverShorter(e, flag);
    RereadFlag(e, flag);
  }

  lemma {:induction false} LonelyStable(s: Stmt, flag: bool)
    requires Lonely(s)
    ensures StableStmt(s, flag)
    decreases s
  {
    LonelyAllStable(s.stmts, flag);
  }

  lemma {:induction false} LonelyAllStable(ss: seq<Stmt>, flag: bool)
    requires AllLonely(ss)
    ensures StableStmts(ss, flag)
    decreases ss
  {
    if ss != [] {
      if ss[0] != Empty { LonelyStable(ss[0], flag); }
      LonelyAllStable(ss[1..], StmtFlag(ss[0], flag));
    }
  }

  lemma {:induction false} StmtAgain(s: Stmt, flag: bool)
    requires Shaped(s)
    ensures Again(PrintStmt(Normal(s, flag), flag), PrintStmt(s, flag), StableStmt(s, flag))
    ensures StmtFlag(Normal(s, flag), flag) == StmtFlag(s, flag) && (Lonely(Normal(s, flag)) <==> Lonely(s))
    decreases s, 4
  {
    match s
    case Block(ss) =>
      if Lonely(s) {
        LonelyFlag(s, flag);
        LonelyStable(s, flag);
      } else {
        AllAgain(ss, flag);
        AgainInside([LBrace], PrintAll(NormalAll(ss, flag), flag), PrintAll(ss, flag), StableStmts(ss, flag), [RBrace]);
      }
    case ExprStmt(e) =>
      ExprAgain(e, flag);
      AgainJoined(Tokens(ReadBack(e, flag), flag), Tokens(e, flag), Stable(e, flag), [Semicolon], [Semicolon], true);
    case If(_, _, _) => IfAgain(s, flag);
    case While(_, _) => WhileAgain(s, flag);
    case Return(Some(e)) =>
      ExprAgain(e, flag);
      AgainInside([KwReturn], Tokens(ReadBack(e, flag), flag), Tokens(e, flag), Stable(e, flag), [Semicolon]);
    case VarDecl(_, _, Some(_)) => DeclAgain(s, flag);
    case _ =>
  }

  lemma {:induction false} DeclAgain(s: Stmt, flag: bool)
    requires Shaped(s) && s.VarDecl? && s.init.Some?
    ensures Again(PrintStmt(Normal(s, flag), flag), PrintStmt(s, flag), StableStmt(s, flag))
    ensures StmtFlag(Normal(s, flag), flag) == StmtFlag(s, flag)
    decreases s, 3
  {
    var e := s.init.value;
    var (second, first) := (Tokens(ReadBack(e, flag), flag), Tokens(e, flag));
    ExprAgain(e, flag);
    AgainInside([Identifier(s.name), Eq], second, first, Stable(e, flag), [Semicolon]);
    AgainInside(TypeTokens(s.ty), [Identifier(s.name), Eq] + (second + [Semicolon]), [Identifier(s.name), Eq] + (first + [Semicolon]),
      Stable(e, flag), []);
  }

  lemma {:induction false} WhileAgain(s: Stmt, flag: bool)
    requires Shaped(s) && s.While?
    ensures Again(PrintStmt(Normal(s, flag), flag), PrintStmt(s, flag), StableStmt(s, flag))
    ensures StmtFlag(Normal(s, flag), flag) == StmtFlag(s, flag)
    decreases s, 3
  {
    var (c, b, f) := (s.cond, s.body, FlagAfter(s.cond));
    ExprAgain(c, flag);
    BranchAgain(b, f);
    var (second, first) := (PrintBranch(NormalBranch(b, f), f), PrintBranch(b, f));
    AgainInside([RParen], second, first, StableStmt(b, f), []);
    AgainJoined(Tokens(ReadBack(c, flag), flag), Tokens(c, flag), Stable(c, flag), [RParen] + second, [RParen] + first, StableStmt(b, f));
    AgainInside([KwWhile, LParen], Tokens(ReadBack(c, flag), flag) + ([RParen] + second), Tokens(c, flag) + ([RParen] + first),
      StableStmt(s, flag), []);
  }

  lemma {:induction false} IfAgain(s: Stmt, flag: bool)
    requires Shaped(s) && s.If?
    ensures Again(PrintStmt(Normal(s, flag), flag), PrintStmt(s, flag), StableStmt(s, flag))
    ensures StmtFlag(Normal(s, flag), flag) == StmtFlag(s, flag)
    decreases s, 3
  {
    var (c, t, e) := (s.cond, s.thn, s.els);
    var f := FlagAfter(c);
    var g := StmtFlag(t, f);
    ExprAgain(c, flag);
    BranchAgain(t, f);
    ElseAgain(e, g);
    var second := PrintBranch(NormalBranch(t, f), f) + PrintElse(NormalElse(e, g), g);
    var first, p := PrintBranch(t, f) + PrintElse(e, g), StableStmt(t, f) && StableStmt(e, g);
    AgainJoined(PrintBranch(NormalBranch(t, f), f), PrintBranch(t, f), StableStmt(t, f),
      PrintElse(NormalElse(e, g), g), PrintElse(e, g), StableStmt(e, g));
    AgainInside([RParen], second, first, p, []);
    AgainJoined(Tokens(ReadBack(c, flag), flag), Tokens(c, flag), Stable(c, flag), [RParen] + second, [RParen] + first, p);
    AgainInside([KwIf, LParen], Tokens(ReadBack(c, flag), flag) + ([RParen] + second), Tokens(c, flag) + ([RParen] + first),
      StableStmt(s, flag), []);
  }

  lemma {:induction false} AllAgain(ss: seq<Stmt>, flag: bool)
    requires forall i :: 0 <= i < |ss| ==> Shaped(ss[i]) && ss[i] != Empty
    ensures Again(PrintAll(NormalAll(ss, flag), flag), PrintAll(ss, flag), StableStmts(ss, flag))
    ensures StmtFlagAll(NormalAll(ss, flag), flag) == StmtFlagAll(ss, flag) && (AllLonely(NormalAll(ss, flag)) <==> AllLonely(ss))
    decreases ss, 0
  {
    if ss != [] {
      var f := StmtFlag(ss[0], flag);
      StmtAgain(ss[0], flag);
      NormalNotEmpty(ss[0], flag);
      AllAgain(ss[1..], f);
      assert NormalAll(ss, flag)[1..] == NormalAll(ss[1..], f);
      AgainJoined(PrintStmt(Normal(ss[0], flag), flag), PrintStmt(ss[0], flag), StableStmt(ss[0], flag),
        PrintAll(NormalAll(ss[1..], f), f), PrintAll(ss[1..], f), StableStmts(ss[1..], f));
    }
  }

  lemma {:induction false} BranchAgain(s: Stmt, flag: bool)
    requires Shaped(s)
    ensures Again(PrintBranch(NormalBranch(s, flag), flag), PrintBranch(s, flag), StableStmt(s, flag))
    ensures StmtFlag(NormalBranch(s, flag), flag) == StmtFlag(s, flag)
    decreases s, 5
  {
    StmtAgain(s, flag);
    if s != Empty && !s.Block? {
      NormalNotEmpty(s, flag);
      SingletonBlock(Normal(s, flag), flag);
      AgainInside([LBrace], PrintStmt(Normal(s, flag), flag), PrintStmt(s, flag), StableStmt(s, flag), [RBrace]);
    }
  }

  lemma SingletonBlock(s: Stmt, flag: bool)
    requires s != Empty && !s.Block?
    ensures PrintStmt(Block([s]), flag) == [LBrace] + (PrintStmt(s, flag) + [RBrace])
    ensures StmtFlag(Block([s]), flag) == StmtFlag(s, flag) && !Lonely(Block([s]))
  {
    assert [s][1..] == [];
    assert PrintAll([s], flag) == PrintStmt(s, flag) + PrintAll([], StmtFlag(s, flag));
    assert StmtFlagAll([s], flag) == StmtFlagAll([], StmtFlag(s, flag));
    assert PrintAll([s], flag) == PrintStmt(s, flag);
    assert !AllLonely([s]);
  }

  lemma {:induction false} ElseAgain(s: Stmt, flag: bool)
    requires Shaped(s)
    ensures Again(PrintElse(NormalElse(s, flag), flag), PrintElse(s, flag), StableStmt(s, flag))
    ensures StmtFlag(NormalElse(s, flag), flag) == StmtFlag(s, flag)
    decreases s, 6
  {
    if s == Empty {
    } else if Lonely(s) {
      LonelyFlag(s, flag);
      LonelyStable(s, flag);
    } else {
      StmtAgain(s, flag);
      if s.Block? {
        AgainInside([KwElse], PrintStmt(Normal(s, flag), flag), PrintStmt(s, flag), StableStmt(s, flag), []);
      } else {
        SingleElse(s, flag);
      }
    }
  }

  lemma SingleElse(s: Stmt, flag: bool)
    requires s != Empty && !s.Block? && StmtFlag(Normal(s, flag), flag) == StmtFlag(s, flag)
    requires Again(PrintStmt(Normal(s, flag), flag), PrintStmt(s, flag), StableStmt(s, flag))
    ensures Again(PrintElse(NormalElse(s, flag), flag), PrintElse(s, flag), StableStmt(s, flag))
    ensures StmtFlag(NormalElse(s, flag), flag) == StmtFlag(s, flag)
  {
    ElseForms(s, flag);
    NormalNotEmpty(s, flag);
    SingletonBlock(Normal(s, flag), flag);
    assert [KwElse, LBrace] == [KwElse] + [LBrace];
    Splice([KwElse], [LBrace], PrintStmt(Normal(s, flag), flag) + [RBrace]);
    AgainInside([KwElse, LBrace], PrintStmt(Normal(s, flag), flag), PrintStmt(s, flag), StableStmt(s, flag), [RBrace]);
  }

  /** Main result: printing a statement, parsing the tokens and printing what was parsed gives the same tokens if and only
      if every expression in it is stable under the flag it is printed under. */
  lemma PrintIdempotent(s: Stmt, flag: bool)
    requires Shaped(s)
    ensures PrintStmt(Normal(s, flag), flag) == PrintStmt(s, flag) <==> StableStmt(s, flag)
    ensures |PrintStmt(Normal(s, flag), flag)| >= |PrintStmt(s, flag)| && StmtFlag(Normal(s, flag), flag) == StmtFlag(s, flag)
  {
    StmtAgain(s, flag);
  }
}
