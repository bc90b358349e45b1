/** The statement parser of parser.cpp:217-483 as functions on the remaining tokens. */
module StmtParser {
  import opened Wrappers
  import opened Syntax
  import opened Grammar
  import opened ExprParser

  /** parseExpr: the abstract tree. */
  function ParseExpr(ts: seq<Token>): (r: Parse<Expr>)
    ensures r.Parsed? ==> |r.rest| < |ts|
  {
    var p := ParsePrec(ts, 0);
    if p.Parsed? then Parsed(Strip(p.tree), p.rest) else ParseError
  }

  function Expect<T>(r: Parse<T>, t: Token): (r': Parse<T>)
    ensures r'.Parsed? ==> r.Parsed? && |r'.rest| < |r.rest|
    requires t != Eof
  {
    if r.Parsed? && Cur(r.rest) == t then Parsed(r.tree, r.rest[1..]) else ParseError
  }

  function ParseType(ts: seq<Token>): (r: Parse<Type>)
    ensures r.Parsed? ==> |r.rest| < |ts|
  {
    var basic := BasicTypeFor(Cur(ts));
    if basic.None? then ParseError else TypeDimensions(basic.value, 0, ts[1..])
  }

  /** The `[]` loop of parseType. */
  function TypeDimensions(basic: BasicType, d: nat, ts: seq<Token>): (r: Parse<Type>)
    ensures r.Parsed? ==> |r.rest| <= |ts|
    decreases |ts|
  {
    if Cur(ts) != LBracket then Parsed(Type(basic, d), ts)
    else if Ahead(ts, 1) == RBracket then TypeDimensions(basic, d + 1, ts[2..])
    else ParseError
  }

  predicate StartsBlockStmt(t: Token) {
    StartsExpr(t) || t == KwBoolean || t == KwIf || t == KwInt || t == LBrace || t == KwReturn || t == Semicolon
    || t == KwVoid || t == KwWhile
  }

  predicate StartsDeclaration(ts: seq<Token>) {
    match Cur(ts)
    case KwBoolean => true
    case KwInt => true
    case KwVoid => true
    case Identifier(_) => Ahead(ts, 1).Identifier? || (Ahead(ts, 1) == LBracket && Ahead(ts, 2) == RBracket)
    case _ => false
  }

  function ParseBlockStmt(ts: seq<Token>): (r: Parse<Stmt>)
    ensures r.Parsed? ==> |r.rest| < |ts|
    decreases |ts|, 3
  {
    if StartsDeclaration(ts) then ParseVarDecl(ts) else ParseStmt(ts)
  }

  function ParseVarDecl(ts: seq<Token>): (r: Parse<Stmt>)
    ensures r.Parsed? ==> |r.rest| < |ts|
  {
    var ty := ParseType(ts);
    if ty.ParseError? then ParseError else DeclaratorTail(ty.tree, ty.rest)
  }

  /** The name, the optional initializer and the semicolon of a declaration. */
  function DeclaratorTail(ty: Type, ts: seq<Token>): (r: Parse<Stmt>)
    ensures r.Parsed? ==> |r.rest| < |ts|
  {
    if !Cur(ts).Identifier? then ParseError
    else if Ahead(ts, 1) == Eq then
      var e := Expect(ParseExpr(ts[2..]), Semicolon);
      if e.Parsed? then Parsed(VarDecl(ty, ts[0].name, Some(e.tree)), e.rest) else ParseError
    else if Ahead(ts, 1) == Semicolon then Parsed(VarDecl(ty, ts[0].name, None), ts[2..])
    else ParseError
  }

  function ParseStmt(ts: seq<Token>): (r: Parse<Stmt>)
    ensures r.Parsed? ==> |r.rest| < |ts|
    decreases |ts|, 2
  {
    if Cur(ts) == LBrace then ParseBlock(ts)
    else if Cur(ts) == Semicolon then Parsed(Empty, ts[1..])
    else if Cur(ts) == KwIf then ParseIf(ts)
    else if Cur(ts) == KwReturn then ParseReturn(ts)
    else if Cur(ts) == KwWhile then ParseWhile(ts)
    else if StartsExpr(Cur(ts)) then
      var e := Expect(ParseExpr(ts), Semicolon);
      if e.Parsed? then Parsed(ExprStmt(e.tree), e.rest) else ParseError
    else ParseError
  }

  function ParseBlock(ts: seq<Token>): (r: Parse<Stmt>)
    ensures r.Parsed? ==> |r.rest| < |ts|
    decreases |ts|, 1
  {
    if Cur(ts) == LBrace then BlockItems([], ts[1..]) else ParseError
  }

  /** The statement loop of parseBlock; empty statements are dropped. */
  function BlockItems(done: seq<Stmt>, ts: seq<Token>): (r: Parse<Stmt>)
    ensures r.Parsed? ==> |r.rest| < |ts|
    decreases |ts|, 4
  {
    if Cur(ts) == RBrace then Parsed(Block(done), ts[1..])
    else if StartsBlockStmt(Cur(ts)) then
      var s := ParseBlockStmt(ts);
      if s.ParseError? then ParseError
      else BlockItems(if s.tree == Empty then done else done + [s.tree], s.rest)
    else ParseError
  }

  /** The parenthesised condition of if and while. */
  function ParseCondition(ts: seq<Token>): (r: Parse<Expr>)
    ensures r.Parsed? ==> |r.rest| < |ts|
  {
    if Cur(ts) == LParen then Expect(ParseExpr(ts[1..]), RParen) else ParseError
  }

  function ParseIf(ts: seq<Token>): (r: Parse<Stmt>)
    requires Cur(ts) == KwIf
    ensures r.Parsed? ==> |r.rest| < |ts|
    decreases |ts|, 1
  {
    var c := ParseCondition(ts[1..]);
    if c.ParseError? then ParseError
    else
      var thn := ParseStmt(c.rest);
      if thn.ParseError? then ParseError
      else
        var els := ParseElse(thn.rest);
        if els.ParseError? then ParseError else Parsed(If(c.tree, thn.tree, els.tree), els.rest)
  }

  function ParseElse(ts: seq<Token>): (r: Parse<Stmt>)
    ensures r.Parsed? ==> |r.rest| <= |ts|
    decreases |ts|, 5
  {
    if Cur(ts) == KwElse then ParseStmt(ts[1..]) else Parsed(Empty, ts)
  }

  function ParseWhile(ts: seq<Token>): (r: Parse<Stmt>)
    requires Cur(ts) == KwWhile
    ensures r.Parsed? ==> |r.rest| < |ts|
    decreases |ts|, 1
  {
    var c := ParseCondition(ts[1..]);
    if c.ParseError? then ParseError
    else
      var body := ParseStmt(c.rest);
      if body.ParseError? then ParseError else Parsed(While(c.tree, body.tree), body.rest)
  }

  function ParseReturn(ts: seq<Token>): (r: Parse<Stmt>)
    requires Cur(ts) == KwReturn
    ensures r.Parsed? ==> |r.rest| < |ts|
  {
    if Ahead(ts, 1) == Semicolon then Parsed(Return(None), ts[2..])
    else
      var e := Expect(ParseExpr(ts[1..]), Semicolon);
      if e.Parsed? then Parsed(Return(Some(e.tree)), e.rest) else ParseError
  }
}
