/** The expression parser of parser.cpp:485-752 as functions from the remaining tokens to a concrete tree. */
module ExprParser {
  import opened Wrappers
  import opened Syntax
  import opened Grammar

  datatype Parse<+T> = Parsed(tree: T, rest: seq<Token>) | ParseError

  function Cur(ts: seq<Token>): Token { if ts == [] then Eof else ts[0] }

  function Ahead(ts: seq<Token>, k: nat): Token { if |ts| <= k then Eof else ts[k] }

  /** What the lexer delivers: integer literals are digit strings. */
  ghost predicate Lexed(ts: seq<Token>) {
    forall i :: 0 <= i < |ts| && ts[i].IntLiteral? ==> IsDigits(ts[i].str)
  }

  function ParsePrec(ts: seq<Token>, minPrec: int): (r: Parse<Cst>)
    requires minPrec >= 0
    ensures r.Parsed? ==> |r.rest| < |ts|
    decreases |ts|, 5
  {
    var u := ParseUnary(ts);
    if u.ParseError? then ParseError else Climb(u.tree, u.rest, minPrec)
  }

  /** The loop of precedenceParse. */
  function Climb(lhs: Cst, ts: seq<Token>, minPrec: int): (r: Parse<Cst>)
    requires minPrec >= 0
    ensures r.Parsed? ==> |r.rest| <= |ts|
    decreases |ts|, 6
  {
    var prec := Prec(Cur(ts));
    if prec < minPrec then Parsed(lhs, ts)
    else
      var rhs := ParsePrec(ts[1..], if ts[0] == Eq then prec else prec + 1);
      if rhs.ParseError? then ParseError
      else Climb(CBinary(BinOpForToken(ts[0]), lhs, rhs.tree), rhs.rest, minPrec)
  }

  /** Prefix operators; a minus directly before an integer literal becomes part of the literal. */
  function ParseUnary(ts: seq<Token>): (r: Parse<Cst>)
    ensures r.Parsed? ==> |r.rest| < |ts|
    decreases |ts|, 4
  {
    match Cur(ts)
    case Bang => Prefixed(Not, ParseUnary(ts[1..]))
    case MinusSign =>
      if Ahead(ts, 1).IntLiteral? then ParsePostfix([IntLiteral("-" + ts[1].str)] + ts[2..])
      else Prefixed(Neg, ParseUnary(ts[1..]))
    case _ => ParsePostfix(ts)
  }

  function Prefixed(op: UnOp, r: Parse<Cst>): Parse<Cst> {
    if r.Parsed? then Parsed(CUnary(op, r.tree), r.rest) else r
  }

  function ParsePostfix(ts: seq<Token>): (r: Parse<Cst>)
    ensures r.Parsed? ==> |r.rest| < |ts|
    decreases |ts|, 3
  {
    var p := ParsePrimary(ts);
    if p.ParseError? then ParseError else Postfix(p.tree, p.rest)
  }

  /** The loop of parsePostfixExpr. */
  function Postfix(lhs: Cst, ts: seq<Token>): (r: Parse<Cst>)
    ensures r.Parsed? ==> |r.rest| <= |ts|
    decreases |ts|, 6
  {
    match Cur(ts)
    case Dot =>
      var m := MemberAccess(lhs, ts);
      if m.ParseError? then ParseError else Postfix(m.tree, m.rest)
    case LBracket =>
      var m := ArrayAccess(lhs, ts);
      if m.ParseError? then ParseError else Postfix(m.tree, m.rest)
    case _ => Parsed(lhs, ts)
  }

  function MemberAccess(lhs: Cst, ts: seq<Token>): (r: Parse<Cst>)
    requires Cur(ts) == Dot
    ensures r.Parsed? ==> |r.rest| < |ts|
    decreases |ts|, 5
  {
    if !Ahead(ts, 1).Identifier? then ParseError
    else if Ahead(ts, 2) == LParen then
      var args := ParseArguments(ts[3..]);
      if args.Parsed? && Cur(args.rest) == RParen
      then Parsed(CCall(lhs, ts[1].name, args.tree), args.rest[1..]) else ParseError
    else Parsed(CField(lhs, ts[1].name), ts[2..])
  }

  function ArrayAccess(lhs: Cst, ts: seq<Token>): (r: Parse<Cst>)
    requires Cur(ts) == LBracket
    ensures r.Parsed? ==> |r.rest| < |ts|
    decreases |ts|, 5
  {
    var i := ParsePrec(ts[1..], 0);
    if i.Parsed? && Cur(i.rest) == RBracket then Parsed(CIndex(lhs, i.tree), i.rest[1..]) else ParseError
  }

  function ParsePrimary(ts: seq<Token>): (r: Parse<Cst>)
    ensures r.Parsed? ==> |r.rest| < |ts|
    decreases |ts|, 2
  {
    match Cur(ts)
    case LParen =>
      var e := ParsePrec(ts[1..], 0);
      if e.Parsed? && Cur(e.rest) == RParen then Parsed(CParen(e.tree), e.rest[1..]) else ParseError
    case KwFalse => Parsed(CBool(false), ts[1..])
    case KwTrue => Parsed(CBool(true), ts[1..])
    case KwNull => Parsed(CNull, ts[1..])
    case KwThis => Parsed(CThis, ts[1..])
    case IntLiteral(s) =>
      if IsNumeral(s) && INT_MIN <= NumeralValue(s) <= INT_MAX then Parsed(CInt(s), ts[1..]) else ParseError
    case Identifier(n) =>
      if Ahead(ts, 1) == LParen then
        var args := ParseArguments(ts[2..]);
        if args.Parsed? && Cur(args.rest) == RParen
        then Parsed(COwnCall(n, args.tree), args.rest[1..]) else ParseError
      else Parsed(CVar(n), ts[1..])
    case KwNew => ParseNew(ts)
    case _ => ParseError
  }

  predicate StartsExpr(t: Token) {
    match t
    case Bang => true case KwFalse => true case Identifier(_) => true case IntLiteral(_) => true
    case KwNew => true case KwNull => true case KwTrue => true case LParen => true
    case MinusSign => true case KwThis => true
    case _ => false
  }

  function ParseArguments(ts: seq<Token>): (r: Parse<seq<Cst>>)
    ensures r.Parsed? ==> |r.rest| <= |ts|
    decreases |ts|, 6
  {
    if StartsExpr(Cur(ts)) then
      var a := ParsePrec(ts, 0);
      if a.ParseError? then ParseError else MoreArguments([a.tree], a.rest)
    else if Cur(ts) == RParen then Parsed([], ts)
    else ParseError
  }

  /** The comma loop of parseArguments. */
  function MoreArguments(args: seq<Cst>, ts: seq<Token>): (r: Parse<seq<Cst>>)
    ensures r.Parsed? ==> |r.rest| <= |ts|
    decreases |ts|, 6
  {
    if Cur(ts) != Comma then Parsed(args, ts)
    else
      var a := ParsePrec(ts[1..], 0);
      if a.ParseError? then ParseError else MoreArguments(args + [a.tree], a.rest)
  }

  function BasicTypeFor(t: Token): Option<BasicType> {
    match t
    case KwBoolean => Some(BooleanType)
    case KwInt => Some(IntType)
    case KwVoid => Some(VoidType)
    case Identifier(n) => Some(ClassType(n))
    case _ => None
  }

  function ParseNew(ts: seq<Token>): (r: Parse<Cst>)
    requires Cur(ts) == KwNew
    ensures r.Parsed? ==> |r.rest| < |ts|
    decreases |ts|, 1
  {
    match Ahead(ts, 2)
    case LParen =>
      if Ahead(ts, 1).Identifier? && Ahead(ts, 3) == RParen
      then Parsed(CNewObject(ts[1].name), ts[4..]) else ParseError
    case LBracket =>
      var elem := BasicTypeFor(ts[1]);
      if elem.None? then ParseError
      else
        var size := ParsePrec(ts[3..], 0);
        if size.Parsed? && Cur(size.rest) == RBracket then
          var (d, rest) := Dimensions(1, size.rest[1..]);
          Parsed(CNewArray(elem.value, d, size.tree), rest)
        else ParseError
    case _ => ParseError
  }

  /** The `[]` loop of parseNewExpr. */
  function Dimensions(d: nat, ts: seq<Token>): (r: (nat, seq<Token>))
    ensures |r.1| <= |ts| && r.0 >= d
    decreases |ts|
  {
    if Cur(ts) == LBracket && Ahead(ts, 1) == RBracket then Dimensions(d + 1, ts[2..]) else (d, ts)
  }
}
