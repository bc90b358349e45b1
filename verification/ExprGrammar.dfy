/** The expression grammar of the language, production by production, as derivations from tokens to abstract trees. Nothing
    here refers to the parser or to its precedence table. */
module ExprGrammar {
  import opened Wrappers
  import opened Syntax

  datatype Rule =
    | AssignmentExpr | OrExpr | AndExpr | EqualityExpr | RelationalExpr | AdditiveExpr | MultiplicativeExpr
    | UnaryExpr | PostfixExpr | PrimaryExpr

  /** The next tighter rule. */
  function Below(r: Rule): Rule {
    match r
    case AssignmentExpr => OrExpr
    case OrExpr => AndExpr
    case AndExpr => EqualityExpr
    case EqualityExpr => RelationalExpr
    case RelationalExpr => AdditiveExpr
    case AdditiveExpr => MultiplicativeExpr
    case MultiplicativeExpr => UnaryExpr
    case UnaryExpr => PostfixExpr
    case _ => PrimaryExpr
  }

  function Height(r: Rule): nat {
    match r
    case AssignmentExpr => 9
    case OrExpr => 8
    case AndExpr => 7
    case EqualityExpr => 6
    case RelationalExpr => 5
    case AdditiveExpr => 4
    case MultiplicativeExpr => 3
    case UnaryExpr => 2
    case PostfixExpr => 1
    case PrimaryExpr => 0
  }

  /** The operators of a binary rule. */
  function Operator(r: Rule, t: Token): Option<BinOp> {
    if r.AssignmentExpr? && t == Eq then Some(Assign)
    else if r.OrExpr? && t == VBarVBar then Some(Or)
    else if r.AndExpr? && t == AmpAmp then Some(And)
    else if r.EqualityExpr? && t == EqEq then Some(Equals)
    else if r.EqualityExpr? && t == BangEq then Some(NotEquals)
    else if r.RelationalExpr? && t == Lt then Some(Less)
    else if r.RelationalExpr? && t == LtEq then Some(LessEquals)
    else if r.RelationalExpr? && t == Gt then Some(Greater)
    else if r.RelationalExpr? && t == GtEq then Some(GreaterEquals)
    else if r.AdditiveExpr? && t == PlusSign then Some(Plus)
    else if r.AdditiveExpr? && t == MinusSign then Some(Minus)
    else if r.MultiplicativeExpr? && t == Star then Some(Mul)
    else if r.MultiplicativeExpr? && t == Slash then Some(Div)
    else if r.MultiplicativeExpr? && t == Percent then Some(Mod)
    else None
  }

  /** Assignments associate to the right, all other operators to the left. */
  function LeftOperand(r: Rule): Rule { if r.AssignmentExpr? then OrExpr else r }

  function RightOperand(r: Rule): Rule { if r.AssignmentExpr? then AssignmentExpr else Below(r) }

  /** `ts` is a phrase of rule `r` and means `e`. */
  ghost predicate Derived(r: Rule, e: Expr, ts: seq<Token>)
    decreases |ts|, Height(r), 2
  {
    if r.PrimaryExpr? then Primary(e, ts) else Derived(Below(r), e, ts) || OwnProduction(r, e, ts)
  }

  ghost predicate OwnProduction(r: Rule, e: Expr, ts: seq<Token>)
    requires !r.PrimaryExpr?
    decreases |ts|, Height(r), 0
  {
    if r.UnaryExpr? then Prefix(e, ts)
    else if r.PostfixExpr? then exists k: nat :: PostfixAt(e, ts, k)
    else exists k: nat :: BinaryAt(r, e, ts, k)
  }

  /** With the operator at position `k`. */
  ghost predicate BinaryAt(r: Rule, e: Expr, ts: seq<Token>, k: nat)
    decreases |ts|, 0
  {
    && k < |ts| && e.Binary? && Operator(r, ts[k]) == Some(e.op)
    && Derived(LeftOperand(r), e.left, ts[..k]) && Derived(RightOperand(r), e.right, ts[k+1..])
  }

  /** A minus before a literal belongs to the literal. */
  ghost predicate Prefix(e: Expr, ts: seq<Token>)
    decreases |ts|, 0
  {
    && |ts| > 1 && e.Unary?
    && ((ts[0] == Bang && e.uop == Not) || (ts[0] == MinusSign && e.uop == Neg && !ts[1].IntLiteral?))
    && Derived(UnaryExpr, e.operand, ts[1..])
  }

  /** The last postfix begins at position `k`. */
  ghost predicate PostfixAt(e: Expr, ts: seq<Token>, k: nat)
    decreases |ts|, 0
  {
    k < |ts| &&
    match e
    case Field(o, n) => Derived(PostfixExpr, o, ts[..k]) && ts[k..] == [Dot, Identifier(n)]
    case Index(a, i) =>
      && Derived(PostfixExpr, a, ts[..k]) && k + 1 < |ts| && ts[k] == LBracket && ts[|ts|-1] == RBracket
      && Derived(AssignmentExpr, i, ts[k+1..|ts|-1])
    case Call(t, n, args) =>
      && Derived(PostfixExpr, t, ts[..k]) && k + 3 < |ts| && ts[k] == Dot && ts[k+1] == Identifier(n) && ts[k+2] == LParen
      && ts[|ts|-1] == RParen && Arguments(args, ts[k+3..|ts|-1])
    case _ => false
  }

  ghost predicate Arguments(es: seq<Expr>, ts: seq<Token>)
    decreases |ts|, 12
  {
    if |es| == 0 then ts == []
    else if |es| == 1 then Derived(AssignmentExpr, es[0], ts)
    else exists k: nat :: ArgumentAt(es, ts, k)
  }

  /** With the first comma at position `k`. */
  ghost predicate ArgumentAt(es: seq<Expr>, ts: seq<Token>, k: nat)
    decreases |ts|, 11
  {
    k < |ts| && |es| > 1 && ts[k] == Comma && Derived(AssignmentExpr, es[0], ts[..k]) && Arguments(es[1..], ts[k+1..])
  }

  ghost predicate Primary(e: Expr, ts: seq<Token>)
    decreases |ts|, 0, 1
  {
    || (|ts| > 1 && ts[0] == LParen && ts[|ts|-1] == RParen && Derived(AssignmentExpr, e, ts[1..|ts|-1]))
    || match e
       case BoolLit(b) => ts == [if b then KwTrue else KwFalse]
       case NullLit => ts == [KwNull]
       case ThisLit => ts == [KwThis]
       case IntLit(v) => Literal(v, ts)
       case VarRef(n) => ts == [Identifier(n)]
       case NewObject(n) => ts == [KwNew, Identifier(n), LParen, RParen]
       case NewArray(t, d, s) => d >= 1 && 2 * d + 2 <= |ts| && ArrayCreated(t, s, ts, |ts| - 2 * d + 1)
       case Call(t, n, args) =>
         && t == ThisLit && |ts| > 2 && ts[0] == Identifier(n) && ts[1] == LParen && ts[|ts|-1] == RParen
         && Arguments(args, ts[2..|ts|-1])
       case _ => false
  }

  /** A literal fits 32 bits with its sign. */
  ghost predicate Literal(v: int, ts: seq<Token>) {
    && INT_MIN <= v <= INT_MAX
    && ((|ts| == 1 && ts[0].IntLiteral? && IsDigits(ts[0].str) && v == DigitsValue(ts[0].str))
        || (|ts| == 2 && ts[0] == MinusSign && ts[1].IntLiteral? && IsDigits(ts[1].str) && v == 0 - DigitsValue(ts[1].str)))
  }

  /** The size ends at position `k`, with its bracket; then there are pairs of brackets only. */
  ghost predicate ArrayCreated(t: BasicType, size: Expr, ts: seq<Token>, k: nat)
    decreases |ts|, 0, 0
  {
    && 3 <= k < |ts| && ts[0] == KwNew && NamesType(ts[1], t) && ts[2] == LBracket && ts[k] == RBracket
    && Derived(AssignmentExpr, size, ts[3..k]) && Pairs(ts[k+1..])
  }

  predicate NamesType(token: Token, t: BasicType) {
    match t
    case BooleanType => token == KwBoolean
    case IntType => token == KwInt
    case VoidType => token == KwVoid
    case ClassType(n) => token == Identifier(n)
  }

  predicate Pairs(ts: seq<Token>) {
    |ts| % 2 == 0 && forall i :: 0 <= i < |ts| ==> ts[i] == if i % 2 == 0 then LBracket else RBracket
  }

  /** `next` makes a longer phrase of rule `r` out of `ts`: an operator of the rule or a tighter one, a postfix, or an
      argument list behind a name. */
  ghost predicate Continued(r: Rule, ts: seq<Token>, next: Token) {
    || next == Dot || next == LBracket || (next == LParen && ts != [] && ts[|ts|-1].Identifier?)
    || exists q: Rule :: Height(q) <= Height(r) && Operator(q, next).Some?
  }
}
