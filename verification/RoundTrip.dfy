/** When parsing undoes printing: exactly on the expressions the printer parenthesises well enough. */
module RoundTrip {
  import opened Syntax
  import opened Grammar
  import opened ExprParser
  import opened ParserSound
  import opened ParserComplete
  import opened Printer
  import opened Unambiguous

  predicate BindsLoosely(e: Expr) { e.Unary? || e.Binary? }

  predicate IsAssignment(e: Expr) { e.Binary? && e.op == Assign }

  /** What a caller can check before printing with requireParenthesis == flag: no member, call or index
      directly on a unary or binary expression unless the flag still parenthesises it, and no assignment
      directly left of an assignment. */
  predicate Faithful(e: Expr, flag: bool)
    decreases e
  {
    match e
    case NewArray(_, _, s) => Faithful(s, false)
    case Unary(_, x) => Faithful(x, true)
    case Binary(op, l, r) =>
      && (op == Assign ==> !IsAssignment(l))
      && Faithful(l, op != Assign)
      && Faithful(r, op != Assign || FlagAfter(l))
    case Call(t, _, args) =>
      (BindsLoosely(t) ==> flag) && Faithful(t, flag) && AllFaithful(args, FlagAfter(t))
    case Field(o, _) => (BindsLoosely(o) ==> flag) && Faithful(o, flag)
    case Index(a, i) => (BindsLoosely(a) ==> flag) && Faithful(a, flag) && Faithful(i, FlagAfter(a))
    case _ => true
  }

  predicate AllFaithful(es: seq<Expr>, flag: bool)
    decreases es
  {
    es == [] || (Faithful(es[0], flag) && AllFaithful(es[1..], FlagAfter(es[0])))
  }

  /** The same condition without the flag, sufficient for either value of it. */
  predicate InDomain(e: Expr) {
    match e
    case NewArray(_, _, s) => InDomain(s)
    case Unary(_, x) => InDomain(x)
    case Binary(op, l, r) => (op == Assign ==> !IsAssignment(l)) && InDomain(l) && InDomain(r)
    case Call(t, _, args) => !BindsLoosely(t) && InDomain(t) && forall i :: 0 <= i < |args| ==> InDomain(args[i])
    case Field(o, _) => !BindsLoosely(o) && InDomain(o)
    case Index(a, i) => !BindsLoosely(a) && InDomain(a) && InDomain(i)
    case _ => true
  }

  lemma {:induction false} DomainFaithful(e: Expr, flag: bool)
    requires InDomain(e)
    ensures Faithful(e, flag)
    decreases e
  {
    match e
    case NewArray(_, _, s) => DomainFaithful(s, false);
    case Unary(_, x) => DomainFaithful(x, true);
    case Binary(op, l, r) =>
      DomainFaithful(l, op != Assign);
      DomainFaithful(r, op != Assign || FlagAfter(l));
    case Call(t, _, args) =>
      DomainFaithful(t, flag);
      DomainAllFaithful(args, FlagAfter(t));
    case Field(o, _) => DomainFaithful(o, flag);
    case Index(a, i) =>
      DomainFaithful(a, flag);
      DomainFaithful(i, FlagAfter(a));
    case _ =>
  }

  lemma {:induction false} DomainAllFaithful(es: seq<Expr>, flag: bool)
    requires forall i :: 0 <= i < |es| ==> InDomain(es[i])
    ensures AllFaithful(es, flag)
    decreases es
  {
    if es != [] {
      DomainFaithful(es[0], flag);
      DomainAllFaithful(es[1..], FlagAfter(es[0]));
    }
  }

  // ---- the printed tree spells the expression ----

  /** A concrete tree for `e` that the printer can have written. */
  predicate Writes(c: Cst, e: Expr) { Spelled(c) && Strip(c) == e && Plain(c) }

  lemma WrappedWrites(c: Cst, e: Expr, flag: bool)
    requires Writes(c, e)
    ensures Writes(Wrapped(c, flag), e)
  {
  }

  lemma LiteralWritten(v: int)
    requires Representable(IntLit(v))
    ensures Writes(CInt(Numeral(v)), IntLit(v))
  {
    DecimalValue(if v < 0 then -v else v);
    assert ("-" + Decimal(if v < 0 then -v else v))[1..] == Decimal(if v < 0 then -v else v);
    assert !IsNegative(Decimal(if v < 0 then 0 else v));
  }

  lemma {:induction false} ConcreteSpells(e: Expr, flag: bool)
    requires Representable(e)
    ensures Writes(Concrete(e, flag), e)
    decreases e, 1
  {
    if e.IntLit? {
      LiteralWritten(e.value);
      WrappedWrites(CInt(Numeral(e.value)), e, flag);
    } else if e.NewArray? {
      ConcreteSpells(e.size, false);
    } else if e.Unary? {
      ConcreteSpells(e.operand, true);
      WrappedWrites(CUnary(e.uop, Concrete(e.operand, true)), e, flag);
    } else if e.Binary? {
      BinarySpells(e, flag);
    } else if e.Call? || e.Field? || e.Index? {
      AccessSpells(e, flag);
    }
  }

  lemma {:induction false} BinarySpells(e: Expr, flag: bool)
    requires Representable(e) && e.Binary?
    ensures Writes(Concrete(e, flag), e)
    decreases e, 0
  {
    var strict := e.op != Assign;
    var rflag := strict || FlagAfter(e.left);
    ConcreteSpells(e.left, strict);
    ConcreteSpells(e.right, rflag);
    WrappedWrites(CBinary(e.op, Concrete(e.left, strict), Concrete(e.right, rflag)), e, flag);
  }

  lemma {:induction false} AccessSpells(e: Expr, flag: bool)
    requires Representable(e) && (e.Call? || e.Field? || e.Index?)
    ensures Writes(Concrete(e, flag), e)
    decreases e, 0
  {
    if e.Call? {
      ConcreteSpells(e.target, flag);
      ConcreteAllSpells(e.args, FlagAfter(e.target));
    } else if e.Field? {
      ConcreteSpells(e.base, flag);
    } else {
      ConcreteSpells(e.arr, flag);
      ConcreteSpells(e.index, FlagAfter(e.arr));
    }
  }

  lemma {:induction false} ConcreteAllSpells(es: seq<Expr>, flag: bool)
    requires forall i :: 0 <= i < |es| ==> Representable(es[i])
    ensures var cs := ConcreteAll(es, flag); AllSpelled(cs) && StripAll(cs) == es && AllPlain(cs)
    decreases es
  {
    if es != [] {
      ConcreteSpells(es[0], flag);
      ConcreteAllSpells(es[1..], FlagAfter(es[0]));
      assert ConcreteAll(es, flag)[1..] == ConcreteAll(es[1..], FlagAfter(es[0]));
    }
  }

  /** Under the flag no literal comes first: it would be parenthesised. */
  lemma {:induction false} FlaggedStart(e: Expr)
    ensures !Yield(Concrete(e, true))[0].IntLiteral?
  {
    match e
    case Call(t, _, _) => FlaggedStart(t);
    case Field(o, _) => FlaggedStart(o);
    case Index(a, _) => FlaggedStart(a);
    case _ =>
  }

  lemma ConcreteLevel(e: Expr, flag: bool)
    ensures Level(Concrete(e, flag)) ==
      if flag || !BindsLoosely(e) then 9 else if e.Unary? then 8 else OpLevel(e.op)
  {
  }

  lemma {:induction false} FaithfulIsStratified(e: Expr, flag: bool)
    ensures Stratified(Concrete(e, flag)) <==> Faithful(e, flag)
    decreases e, 1
  {
    match e
    case NewArray(_, _, s) => FaithfulIsStratified(s, false);
    case Unary(_, _) => UnaryIsStratified(e, flag);
    case Binary(_, _, _) => BinaryIsStratified(e, flag);
    case Call(_, _, _) => CallIsStratified(e, flag);
    case Field(o, _) =>
      FaithfulIsStratified(o, flag);
      ConcreteLevel(o, flag);
    case Index(a, i) =>
      FaithfulIsStratified(a, flag);
      ConcreteLevel(a, flag);
      FaithfulIsStratified(i, FlagAfter(a));
    case _ =>
  }

  lemma {:induction false} UnaryIsStratified(e: Expr, flag: bool)
    requires e.Unary?
    ensures Stratified(Concrete(e, flag)) <==> Faithful(e, flag)
    decreases e, 0
  {
    FaithfulIsStratified(e.operand, true);
    FlaggedStart(e.operand);
    ConcreteLevel(e.operand, true);
    var c := CUnary(e.uop, Concrete(e.operand, true));
    assert Stratified(Wrapped(c, flag)) <==> Stratified(c);
  }

  lemma {:induction false} CallIsStratified(e: Expr, flag: bool)
    requires e.Call?
    ensures Stratified(Concrete(e, flag)) <==> Faithful(e, flag)
    decreases e, 0
  {
    FaithfulIsStratified(e.target, flag);
    ConcreteLevel(e.target, flag);
    AllFaithfulIsStratified(e.args, FlagAfter(e.target));
  }

  lemma StratifiedBinary(op: BinOp, l: Cst, r: Cst, flag: bool)
    ensures Stratified(Wrapped(CBinary(op, l, r), flag)) <==>
      && Stratified(l) && Stratified(r)
      && Level(l) >= (if op == Assign then 2 else OpLevel(op))
      && Level(r) >= RightLevel(op)
  {
    assert Stratified(Wrapped(CBinary(op, l, r), flag)) <==> Stratified(CBinary(op, l, r));
  }

  /** Only an assignment without parentheses is too loose to be assigned to. */
  lemma AssignableLevel(e: Expr)
    ensures Level(Concrete(e, false)) >= 2 <==> !IsAssignment(e)
    ensures forall flag :: Level(Concrete(e, flag)) >= 1
  {
    if e.Binary? { OperatorToken(e.op); }
    forall flag ensures Level(Concrete(e, flag)) >= 1 { ConcreteLevel(e, flag); }
    ConcreteLevel(e, false);
  }

  lemma {:induction false} BinaryIsStratified(e: Expr, flag: bool)
    requires e.Binary?
    ensures Stratified(Concrete(e, flag)) <==> Faithful(e, flag)
    decreases e, 0
  {
    var strict := e.op != Assign;
    var rflag := strict || FlagAfter(e.left);
    FaithfulIsStratified(e.left, strict);
    FaithfulIsStratified(e.right, rflag);
    StratifiedBinary(e.op, Concrete(e.left, strict), Concrete(e.right, rflag), flag);
    OperatorToken(e.op);
    AssignableLevel(e.left);
    AssignableLevel(e.right);
    if strict {
      ConcreteLevel(e.left, true);
      ConcreteLevel(e.right, true);
    }
  }

  lemma {:induction false} AllFaithfulIsStratified(es: seq<Expr>, flag: bool)
    ensures AllStratified(ConcreteAll(es, flag)) <==> AllFaithful(es, flag)
    decreases es
  {
    if es != [] {
      FaithfulIsStratified(es[0], flag);
      AllFaithfulIsStratified(es[1..], FlagAfter(es[0]));
      assert ConcreteAll(es, flag)[1..] == ConcreteAll(es[1..], FlagAfter(es[0]));
    }
  }

  // ---- the theorem ----

  /** parseExpr on `ts` returns `e` and leaves `rest`. */
  predicate ParsesTo(ts: seq<Token>, e: Expr, rest: seq<Token>) {
    var r := ParsePrec(ts, 0);
    r.Parsed? && Strip(r.tree) == e && r.rest == rest
  }

  lemma JoinLexed(a: seq<Token>, b: seq<Token>, c: seq<Token>)
    requires Lexed(a) && Lexed(b) && Lexed(c)
    ensures Lexed(a + (b + c))
  {
  }

  lemma Join2Lexed(a: seq<Token>, b: seq<Token>)
    requires Lexed(a) && Lexed(b)
    ensures Lexed(a + b)
  {
  }

  lemma {:induction false} YieldLexed(c: Cst)
    requires Spelled(c)
    ensures Lexed(Yield(c))
    decreases c, 1
  {
    if c.CNewArray? {
      YieldLexed(c.size);
      BracketsLexed(c.dimension - 1);
      JoinLexed(Yield(c.size), [RBracket], Brackets(c.dimension - 1));
      Join2Lexed([KwNew, BasicTypeToken(c.elem), LBracket], Yield(c.size) + ([RBracket] + Brackets(c.dimension - 1)));
    } else if c.CUnary? {
      YieldLexed(c.operand);
      Join2Lexed([UnOpToken(c.uop)], Yield(c.operand));
    } else if c.CBinary? {
      YieldLexed(c.left);
      YieldLexed(c.right);
      JoinLexed(Yield(c.left), [BinOpToken(c.op)], Yield(c.right));
    } else if c.CParen? {
      YieldLexed(c.inner);
      JoinLexed([LParen], Yield(c.inner), [RParen]);
    } else if Level(c) == 9 && (c.CCall? || c.COwnCall? || c.CField? || c.CIndex?) {
      PostfixLexed(c);
    }
  }

  lemma {:induction false} PostfixLexed(c: Cst)
    requires Spelled(c) && (c.CCall? || c.COwnCall? || c.CField? || c.CIndex?)
    ensures Lexed(Yield(c))
    decreases c, 0
  {
    match c
    case CCall(t, n, args) =>
      YieldLexed(t);
      YieldAllLexed(args);
      JoinLexed([Dot, Identifier(n), LParen], YieldAll(args), [RParen]);
      Join2Lexed(Yield(t), [Dot, Identifier(n), LParen] + (YieldAll(args) + [RParen]));
    case COwnCall(n, args) =>
      YieldAllLexed(args);
      JoinLexed([Identifier(n), LParen], YieldAll(args), [RParen]);
    case CField(o, n) =>
      YieldLexed(o);
      Join2Lexed(Yield(o), [Dot, Identifier(n)]);
    case CIndex(a, i) =>
      YieldLexed(a);
      YieldLexed(i);
      JoinLexed([LBracket], Yield(i), [RBracket]);
      Join2Lexed(Yield(a), [LBracket] + (Yield(i) + [RBracket]));
  }

  lemma {:induction false} YieldAllLexed(cs: seq<Cst>)
    requires AllSpelled(cs)
    ensures Lexed(YieldAll(cs)) && Lexed(YieldMore(cs))
    decreases cs
  {
    if cs != [] {
      YieldLexed(cs[0]);
      YieldAllLexed(cs[1..]);
      JoinLexed([Comma], Yield(cs[0]), YieldMore(cs[1..]));
      Join2Lexed(Yield(cs[0]), YieldMore(cs[1..]));
    }
  }

  lemma {:induction false} BracketsLexed(n: nat)
    ensures Lexed(Brackets(n))
  {
    if n > 0 {
      BracketsLexed(n - 1);
    }
  }

  /** Parsing what was printed gives back the expression, and stops right after it, if and only if the
      expression is faithful to the flag it was printed under. */
  lemma {:induction false} RoundTripExact(e: Expr, flag: bool, rest: seq<Token>)
    requires Representable(e) && Lexed(rest) && Stops(rest) && Prec(Cur(rest)) < 0
    ensures ParsesTo(Yield(Concrete(e, flag)) + rest, e, rest) <==> Faithful(e, flag)
  {
    var c := Concrete(e, flag);
    ConcreteSpells(e, flag);
    FaithfulIsStratified(e, flag);
    if Faithful(e, flag) {
      ClosedComplete(c, rest);
    }
    if ParsesTo(Yield(c) + rest, e, rest) {
      YieldLexed(c);
      PrecSound(Yield(c) + rest, 0);
      var c' := ParsePrec(Yield(c) + rest, 0).tree;
      assert Yield(c') == (Yield(c') + rest)[..|Yield(c')|] == Yield(c);
      TokensDetermineTree(c', c);
    }
  }

  /** On the flag-free domain the round trip holds from either starting value of requireParenthesis. */
  lemma RoundTrip(e: Expr, flag: bool, rest: seq<Token>)
    requires Representable(e) && InDomain(e) && Lexed(rest) && Stops(rest) && Prec(Cur(rest)) < 0
    ensures ParsesTo(Yield(Concrete(e, flag)) + rest, e, rest)
  {
    DomainFaithful(e, flag);
    RoundTripExact(e, flag, rest);
  }

  /** A negated base loses its parentheses: `(!a).f` prints as `!a.f`, which parses as `!(a.f)`. */
  lemma NegatedBaseBreaks(a: string, f: string)
    ensures !ParsesTo(Yield(Concrete(Field(Unary(Not, VarRef(a)), f), false)) + [Semicolon],
                      Field(Unary(Not, VarRef(a)), f), [Semicolon])
  {
    RoundTripExact(Field(Unary(Not, VarRef(a)), f), false, [Semicolon]);
  }

  /** An assignment on the left of an assignment changes association. */
  lemma LeftAssignmentBreaks(a: string, b: string, c: string)
    ensures var e := Binary(Assign, Binary(Assign, VarRef(a), VarRef(b)), VarRef(c));
      forall flag :: !ParsesTo(Yield(Concrete(e, flag)) + [Semicolon], e, [Semicolon])
  {
    var e := Binary(Assign, Binary(Assign, VarRef(a), VarRef(b)), VarRef(c));
    forall flag ensures !ParsesTo(Yield(Concrete(e, flag)) + [Semicolon], e, [Semicolon]) {
      RoundTripExact(e, flag, [Semicolon]);
    }
  }
}
