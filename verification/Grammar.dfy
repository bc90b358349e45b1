/** Concrete syntax trees of expressions and the stratified grammar they obey. */
module Grammar {
  import opened Syntax

  /** An expression tree that also remembers its parentheses, the spelling of its literals,
      and whether a call was written with or without its receiver. */
  datatype Cst =
    | CBool(b: bool)
    | CNull
    | CThis
    | CInt(numeral: string)
    | CVar(name: string)
    | CNewObject(cls: string)
    | CNewArray(elem: BasicType, dimension: nat, size: Cst)
    | CUnary(uop: UnOp, operand: Cst)
    | CBinary(op: BinOp, left: Cst, right: Cst)
    | CCall(target: Cst, name: string, args: seq<Cst>)
    | COwnCall(name: string, args: seq<Cst>)
    | CField(base: Cst, field: string)
    | CIndex(arr: Cst, index: Cst)
    | CParen(inner: Cst)

  /** The abstract tree: parentheses forgotten, `f(x)` read as `this.f(x)`. */
  function Strip(c: Cst): Expr {
    match c
    case CBool(b) => BoolLit(b)
    case CNull => NullLit
    case CThis => ThisLit
    case CInt(s) => IntLit(if IsNumeral(s) then NumeralValue(s) else 0)
    case CVar(n) => VarRef(n)
    case CNewObject(n) => NewObject(n)
    case CNewArray(t, d, s) => NewArray(t, d, Strip(s))
    case CUnary(op, x) => Unary(op, Strip(x))
    case CBinary(op, l, r) => Binary(op, Strip(l), Strip(r))
    case CCall(t, n, args) => Call(Strip(t), n, StripAll(args))
    case COwnCall(n, args) => Call(ThisLit, n, StripAll(args))
    case CField(o, n) => Field(Strip(o), n)
    case CIndex(a, i) => Index(Strip(a), Strip(i))
    case CParen(x) => Strip(x)
  }

  function StripAll(cs: seq<Cst>): (es: seq<Expr>)
    ensures |es| == |cs|
  {
    if cs == [] then [] else [Strip(cs[0])] + StripAll(cs[1..])
  }

  /** Every literal is a numeral that fits 32 bits, every new array has a dimension. */
  predicate Spelled(c: Cst) {
    match c
    case CInt(s) => IsNumeral(s) && INT_MIN <= NumeralValue(s) <= INT_MAX
    case CNewArray(_, d, s) => d >= 1 && Spelled(s)
    case CUnary(_, x) => Spelled(x)
    case CBinary(_, l, r) => Spelled(l) && Spelled(r)
    case CCall(t, _, args) => Spelled(t) && AllSpelled(args)
    case COwnCall(_, args) => AllSpelled(args)
    case CField(o, _) => Spelled(o)
    case CIndex(a, i) => Spelled(a) && Spelled(i)
    case CParen(x) => Spelled(x)
    case _ => true
  }

  predicate AllSpelled(cs: seq<Cst>)
  {
    cs == [] || (Spelled(cs[0]) && AllSpelled(cs[1..]))
  }

  // ---- token yield ----

  function IntYield(s: string): seq<Token> {
    if IsNegative(s) then [MinusSign, IntLiteral(s[1..])] else [IntLiteral(s)]
  }

  function Brackets(n: nat): (r: seq<Token>)
    ensures |r| == 2 * n
  {
    if n == 0 then [] else [LBracket, RBracket] + Brackets(n - 1)
  }

  /** The tokens of a concrete tree; a negative literal is two tokens. */
  function Yield(c: Cst): (ts: seq<Token>)
    ensures |ts| > 0
  {
    match c
    case CBool(b) => [if b then KwTrue else KwFalse]
    case CNull => [KwNull]
    case CThis => [KwThis]
    case CInt(s) => IntYield(s)
    case CVar(n) => [Identifier(n)]
    case CNewObject(n) => [KwNew, Identifier(n), LParen, RParen]
    case CNewArray(t, d, s) =>
      [KwNew, BasicTypeToken(t), LBracket] + (Yield(s) + ([RBracket] + Brackets(if d == 0 then 0 else d - 1)))
    case CUnary(op, x) => [UnOpToken(op)] + Yield(x)
    case CBinary(op, l, r) => Yield(l) + ([BinOpToken(op)] + Yield(r))
    case CCall(t, n, args) => Yield(t) + ([Dot, Identifier(n), LParen] + (YieldAll(args) + [RParen]))
    case COwnCall(n, args) => [Identifier(n), LParen] + (YieldAll(args) + [RParen])
    case CField(o, n) => Yield(o) + [Dot, Identifier(n)]
    case CIndex(a, i) => Yield(a) + ([LBracket] + (Yield(i) + [RBracket]))
    case CParen(x) => [LParen] + (Yield(x) + [RParen])
  }

  function YieldAll(cs: seq<Cst>): (ts: seq<Token>)
    ensures cs != [] ==> |ts| > 0
  {
    if cs == [] then [] else Yield(cs[0]) + YieldMore(cs[1..])
  }

  /** The arguments after the first, each behind its comma. */
  function YieldMore(cs: seq<Cst>): seq<Token> {
    if cs == [] then [] else [Comma] + (Yield(cs[0]) + YieldMore(cs[1..]))
  }

  // ---- stratification ----

  /** The production of an operator: assignment, or, and, equality, relational, additive, multiplicative. */
  function OpLevel(op: BinOp): int {
    match op
    case Assign => 1
    case Or => 2
    case And => 3
    case Equals => 4 case NotEquals => 4
    case Less => 5 case LessEquals => 5 case Greater => 5 case GreaterEquals => 5
    case Plus => 6 case Minus => 6
    case Mul => 7 case Div => 7 case Mod => 7
  }

  /** Binding strength of the root: its production, 8 for prefix operators, 9 for primaries and postfixes. */
  function Level(c: Cst): int {
    match c
    case CBinary(op, _, _) => OpLevel(op)
    case CUnary(_, _) => 8
    case _ => 9
  }

  /** The stratified grammar: an unparenthesised left operand binds at least as tightly as its operator
      (more tightly for `=`), a right operand more tightly (equally for `=`), operands of prefix operators
      are prefix or postfix expressions, bases of postfixes are postfix expressions, and a minus is not
      a prefix operator when an integer literal follows it. */
  predicate Stratified(c: Cst) {
    match c
    case CNewArray(_, _, s) => Stratified(s)
    case CUnary(op, x) => Stratified(x) && Level(x) >= 8 && (op == Neg ==> !Yield(x)[0].IntLiteral?)
    case CBinary(op, l, r) =>
      && Stratified(l) && Stratified(r)
      && Level(l) >= (if op == Assign then 2 else OpLevel(op))
      && Level(r) >= (if op == Assign then 1 else OpLevel(op) + 1)
    case CCall(t, _, args) => Stratified(t) && Level(t) == 9 && AllStratified(args)
    case COwnCall(_, args) => AllStratified(args)
    case CField(o, _) => Stratified(o) && Level(o) == 9
    case CIndex(a, i) => Stratified(a) && Level(a) == 9 && Stratified(i)
    case CParen(x) => Stratified(x)
    case _ => true
  }

  predicate AllStratified(cs: seq<Cst>) {
    cs == [] || (Stratified(cs[0]) && AllStratified(cs[1..]))
  }

  // ---- what Strip does to each constructor, as single steps for the parser's methods ----

  lemma StripUnary(op: UnOp, x: Cst)
    ensures Strip(CUnary(op, x)) == Unary(op, Strip(x))
  {
  }

  lemma StripBinary(op: BinOp, l: Cst, r: Cst)
    ensures Strip(CBinary(op, l, r)) == Binary(op, Strip(l), Strip(r))
  {
  }

  lemma StripCalls(t: Cst, n: string, args: seq<Cst>)
    ensures Strip(CCall(t, n, args)) == Call(Strip(t), n, StripAll(args))
    ensures Strip(COwnCall(n, args)) == Call(ThisLit, n, StripAll(args))
  {
  }

  lemma StripAccess(a: Cst, i: Cst, n: string)
    ensures Strip(CIndex(a, i)) == Index(Strip(a), Strip(i)) && Strip(CField(a, n)) == Field(Strip(a), n)
  {
  }

  lemma StripNewArray(t: BasicType, d: nat, s: Cst)
    ensures Strip(CNewArray(t, d, s)) == NewArray(t, d, Strip(s))
  {
  }

  lemma StripParen(x: Cst)
    ensures Strip(CParen(x)) == Strip(x)
  {
  }
}
