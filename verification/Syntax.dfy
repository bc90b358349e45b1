/** Tokens and the abstract syntax tree shared by the parser and the pretty printer. */
module Syntax {
  import opened Wrappers

  /** Token types the expression and statement parsers look at (lexer.hpp:113-190).
      `Other` stands for every token type no rule of these parsers mentions. */
  datatype Token =
    | Eof
    | Identifier(name: string)
    | IntLiteral(str: string)
    | KwBoolean | KwElse | KwFalse | KwIf | KwInt | KwNew | KwNull | KwReturn | KwThis | KwTrue | KwVoid | KwWhile
    | AmpAmp | Bang | BangEq | Comma | Dot | Eq | EqEq | Gt | GtEq | LBrace | LBracket | LParen | Lt | LtEq
    | MinusSign | Percent | PlusSign | RBrace | RBracket | RParen | Semicolon | Slash | Star | VBarVBar
    | Other(code: nat)

  datatype BinOp =
    | Assign | Or | And | Equals | NotEquals | Less | LessEquals | Greater | GreaterEquals
    | Plus | Minus | Mul | Div | Mod

  datatype UnOp = Not | Neg

  datatype BasicType = BooleanType | IntType | VoidType | ClassType(name: string)

  datatype Type = Type(basic: BasicType, dimension: nat)

  datatype Expr =
    | BoolLit(b: bool)
    | NullLit
    | ThisLit
    | IntLit(value: int)
    | VarRef(name: string)
    | NewObject(cls: string)
    | NewArray(elem: BasicType, dimension: nat, size: Expr)
    | Unary(uop: UnOp, operand: Expr)
    | Binary(op: BinOp, left: Expr, right: Expr)
    | Call(target: Expr, name: string, args: seq<Expr>)
    | Field(base: Expr, field: string)
    | Index(arr: Expr, index: Expr)

  /** `Empty` is the null pointer the parser returns for a lone semicolon. */
  datatype Stmt =
    | Empty
    | Block(stmts: seq<Stmt>)
    | ExprStmt(e: Expr)
    | If(cond: Expr, thn: Stmt, els: Stmt)
    | While(cond: Expr, body: Stmt)
    | Return(result: Option<Expr>)
    | VarDecl(ty: Type, name: string, init: Option<Expr>)

  const INT_MIN := -0x8000_0000
  const INT_MAX := 0x7fff_ffff

  /** What the C++ types of the tree enforce: 32-bit literals, at least one array dimension. */
  ghost predicate Representable(e: Expr) {
    match e
    case IntLit(v) => INT_MIN <= v <= INT_MAX
    case NewArray(_, d, s) => d >= 1 && Representable(s)
    case Unary(_, x) => Representable(x)
    case Binary(_, l, r) => Representable(l) && Representable(r)
    case Call(t, _, args) => Representable(t) && forall i :: 0 <= i < |args| ==> Representable(args[i])
    case Field(o, _) => Representable(o)
    case Index(a, i) => Representable(a) && Representable(i)
    case _ => true
  }

  function BinOpToken(op: BinOp): Token {
    match op
    case Assign => Eq case Or => VBarVBar case And => AmpAmp
    case Equals => EqEq case NotEquals => BangEq
    case Less => Lt case LessEquals => LtEq case Greater => Gt case GreaterEquals => GtEq
    case Plus => PlusSign case Minus => MinusSign
    case Mul => Star case Div => Slash case Mod => Percent
  }

  function UnOpToken(op: UnOp): Token { if op == Neg then MinusSign else Bang }

  function BasicTypeToken(t: BasicType): Token {
    match t
    case BooleanType => KwBoolean case IntType => KwInt case VoidType => KwVoid
    case ClassType(n) => Identifier(n)
  }

  /** getOpPrec of parser.cpp:487. */
  function Prec(t: Token): int {
    match t
    case Eq => 1
    case VBarVBar => 2
    case AmpAmp => 3
    case EqEq => 4 case BangEq => 4
    case Lt => 5 case LtEq => 5 case Gt => 5 case GtEq => 5
    case PlusSign => 6 case MinusSign => 6
    case Star => 7 case Slash => 7 case Percent => 7
    case _ => -1
  }

  /** BinaryExpression::getOpForToken of ast.hpp:1096, on the tokens that have a precedence. */
  function BinOpForToken(t: Token): (op: BinOp)
    requires Prec(t) >= 0
    ensures BinOpToken(op) == t
  {
    match t
    case Eq => Assign case VBarVBar => Or case AmpAmp => And
    case EqEq => Equals case BangEq => NotEquals
    case Lt => Less case LtEq => LessEquals case Gt => Greater case GtEq => GreaterEquals
    case PlusSign => Plus case MinusSign => Minus
    case Star => Mul case Slash => Div case Percent => Mod
  }

  // ---- decimal numerals ----

  predicate IsDigits(s: string) {
    |s| > 0 && forall i :: 0 <= i < |s| ==> '0' <= s[i] <= '9'
  }

  function DigitsValue(s: string): nat
    requires forall i :: 0 <= i < |s| ==> '0' <= s[i] <= '9'
  {
    if s == "" then 0 else 10 * DigitsValue(s[..|s|-1]) + (s[|s|-1] - '0') as nat
  }

  function Decimal(n: nat): (s: string)
    ensures IsDigits(s)
  {
    var digit := ['0' + (n % 10) as char];
    if n < 10 then digit else Decimal(n / 10) + digit
  }

  /** to_string followed by stoi is the identity. */
  lemma {:induction false} DecimalValue(n: nat)
    ensures DigitsValue(Decimal(n)) == n
  {
    var s := Decimal(n);
    if n >= 10 {
      DecimalValue(n / 10);
      assert s[..|s|-1] == Decimal(n / 10);
    } else {
      assert s[..|s|-1] == "";
    }
    assert s[|s|-1] == '0' + (n % 10) as char;
  }

  /** The text of an integer literal as the parser sees it: digits, perhaps after a minus it glued on. */
  predicate IsNumeral(s: string) {
    IsDigits(s) || (|s| > 0 && s[0] == '-' && IsDigits(s[1..]))
  }

  predicate IsNegative(s: string) { |s| > 0 && s[0] == '-' }

  function NumeralValue(s: string): int
    requires IsNumeral(s)
  {
    if IsNegative(s) then -(DigitsValue(s[1..]) as int) else DigitsValue(s)
  }

  /** The text an integer is printed as. */
  function Numeral(v: int): string { if v < 0 then "-" + Decimal(-v) else Decimal(v) }
}
