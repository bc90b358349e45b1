/** The statement grammar of the language, production by production, as derivations from tokens to abstract trees. Nothing
    here refers to the parser. */
module StmtGrammar {
  import opened Wrappers
  import opened Syntax
  import opened ExprGrammar

  /** `ts` is a phrase for the statement `s`; with `closed`, one in which no `if` is left for which an `else` behind the
      phrase could be meant. */
  ghost predicate Statement(s: Stmt, ts: seq<Token>, closed: bool)
    decreases |ts|, 1
  {
    match s
    case Empty => ts == [Semicolon]
    case Block(ss) => |ts| >= 2 && ts[0] == LBrace && ts[|ts|-1] == RBrace && Items(ss, ts[1..|ts|-1])
    case ExprStmt(e) => Ended(e, ts)
    case If(_, _, _) => exists k: nat, m: nat :: Branches(s, ts, closed, k, m)
    case While(_, _) => exists k: nat :: Loop(s, ts, closed, k)
    case Return(None) => ts == [KwReturn, Semicolon]
    case Return(Some(e)) => ts != [] && ts[0] == KwReturn && Ended(e, ts[1..])
    case VarDecl(_, _, _) => false
  }

  /** An expression and its semicolon. */
  ghost predicate Ended(e: Expr, ts: seq<Token>) {
    ts != [] && ts[|ts|-1] == Semicolon && Derived(AssignmentExpr, e, ts[..|ts|-1])
  }

  /** A keyword and a condition whose closing parenthesis is at position `k`. */
  ghost predicate Guarded(keyword: Token, c: Expr, ts: seq<Token>, k: nat) {
    && 2 <= k < |ts| && ts[0] == keyword && ts[1] == LParen && ts[k] == RParen
    && Derived(AssignmentExpr, c, ts[2..k])
  }

  /** With the `else` at position `m`, which then belongs to no `if` inside the first branch; or without one, when `m` is
      the end. */
  ghost predicate Branches(s: Stmt, ts: seq<Token>, closed: bool, k: nat, m: nat)
    decreases |ts|, 0
  {
    && s.If? && Guarded(KwIf, s.cond, ts, k) && k < m <= |ts| && Statement(s.thn, ts[k+1..m], m < |ts|)
    && if m < |ts| then ts[m] == KwElse && Statement(s.els, ts[m+1..], closed) else !closed && s.els == Empty
  }

  ghost predicate Loop(s: Stmt, ts: seq<Token>, closed: bool, k: nat)
    decreases |ts|, 0
  {
    s.While? && Guarded(KwWhile, s.cond, ts, k) && Statement(s.body, ts[k+1..], closed)
  }

  /** What may stand in a block: a declaration or a statement. */
  ghost predicate BlockStatement(s: Stmt, ts: seq<Token>, closed: bool)
    decreases |ts|, 2
  {
    Declaration(s, ts) || Statement(s, ts, closed)
  }

  /** The contents of a block; a lone semicolon leaves nothing in the tree. */
  ghost predicate Items(ss: seq<Stmt>, ts: seq<Token>)
    decreases |ts|, 4
  {
    (ss == [] && ts == []) || (ts != [] && ts[0] == Semicolon && Items(ss, ts[1..])) || exists k: nat :: ItemAt(ss, ts, k)
  }

  /** With the first statement ending before position `k`. */
  ghost predicate ItemAt(ss: seq<Stmt>, ts: seq<Token>, k: nat)
    decreases |ts|, 3
  {
    0 < k <= |ts| && ss != [] && ss[0] != Empty && BlockStatement(ss[0], ts[..k], false) && Items(ss[1..], ts[k..])
  }

  /** A type, a name, perhaps an initializer, and a semicolon. */
  ghost predicate Declaration(s: Stmt, ts: seq<Token>) {
    && s.VarDecl?
    && var k := 1 + 2 * s.ty.dimension;
       && k + 1 < |ts| && NamesType(ts[0], s.ty.basic) && Pairs(ts[1..k]) && ts[k] == Identifier(s.name)
       && match s.init
          case None => ts[k+1..] == [Semicolon]
          case Some(e) => ts[k+1] == Eq && Ended(e, ts[k+2..])
  }
}
