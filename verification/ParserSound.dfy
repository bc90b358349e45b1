/** Whatever the expression parser accepts is a derivation of the stratified grammar over exactly the tokens
    it consumed. */
module ParserSound {
  import opened Wrappers
  import opened Syntax
  import opened Grammar
  import opened ExprParser

  /** The token list before a minus was glued onto the literal at its head. */
  function Unglued(ts: seq<Token>): seq<Token> {
    if Cur(ts).IntLiteral? && IsNegative(ts[0].str) then [MinusSign, IntLiteral(ts[0].str[1..])] + ts[1..] else ts
  }

  /** `c` is a tree of the grammar, it spells the consumed tokens, and the rest is untouched lexer output. */
  ghost predicate Derives(ts: seq<Token>, c: Cst, rest: seq<Token>) {
    Spelled(c) && Stratified(c) && ts == Yield(c) + rest && Lexed(rest)
  }

  /** The next token cannot be an operator that should have gone into the right operand of `c`. */
  predicate Tight(c: Cst, ts: seq<Token>) {
    Prec(Cur(ts)) <= Level(c) && (Level(c) == 1 ==> Prec(Cur(ts)) < 1)
  }

  lemma {:induction false} PrecSound(ts: seq<Token>, p: int)
    requires Lexed(ts) && 0 <= p <= 8 && ParsePrec(ts, p).Parsed?
    ensures var r := ParsePrec(ts, p);
      Derives(ts, r.tree, r.rest) && Level(r.tree) >= p && Prec(Cur(r.rest)) < p
    decreases |ts|, 5
  {
    UnarySound(ts);
    var u := ParseUnary(ts);
    ClimbSound(u.tree, u.rest, p);
  }

  lemma {:induction false} ClimbSound(lhs: Cst, ts: seq<Token>, p: int)
    requires Lexed(ts) && 0 <= p <= 8 && Climb(lhs, ts, p).Parsed?
    requires Spelled(lhs) && Stratified(lhs) && Level(lhs) >= p && Tight(lhs, ts)
    ensures var r := Climb(lhs, ts, p);
      Derives(Yield(lhs) + ts, r.tree, r.rest) && Level(r.tree) >= p && Prec(Cur(r.rest)) < p
    decreases |ts|, 6
  {
    var prec := Prec(Cur(ts));
    if prec >= p {
      var q := if ts[0] == Eq then prec else prec + 1;
      PrecSound(ts[1..], q);
      var rhs := ParsePrec(ts[1..], q);
      BinaryFits(lhs, ts, rhs.tree, rhs.rest, q);
      BinaryYield(lhs, ts, rhs.tree, rhs.rest);
      ClimbSound(CBinary(BinOpForToken(ts[0]), lhs, rhs.tree), rhs.rest, p);
    }
  }

  /** The level of an operator and the parser's precedence of its token agree. */
  lemma LevelOfToken(t: Token)
    requires Prec(t) >= 0
    ensures OpLevel(BinOpForToken(t)) == Prec(t) && 1 <= Prec(t) <= 7 && (BinOpForToken(t) == Assign <==> t == Eq) && (t == Eq <==> Prec(t) == 1)
  {
  }

  /** The operator found, its left operand and the right operand parsed make a tree of the grammar. */
  lemma BinaryFits(lhs: Cst, ts: seq<Token>, rhs: Cst, rest: seq<Token>, q: int)
    requires Prec(Cur(ts)) >= 0 && q == (if ts[0] == Eq then Prec(Cur(ts)) else Prec(Cur(ts)) + 1)
    requires Spelled(lhs) && Stratified(lhs) && Tight(lhs, ts) && Spelled(rhs) && Stratified(rhs) && Level(rhs) >= q && Prec(Cur(rest)) < q
    ensures var c := CBinary(BinOpForToken(ts[0]), lhs, rhs);
      Spelled(c) && Stratified(c) && Level(c) == Prec(Cur(ts)) && Tight(c, rest)
  {
    LevelOfToken(ts[0]);
  }

  lemma BinaryYield(lhs: Cst, ts: seq<Token>, rhs: Cst, rest: seq<Token>)
    requires Prec(Cur(ts)) >= 0 && ts[1..] == Yield(rhs) + rest
    ensures Yield(lhs) + ts == Yield(CBinary(BinOpForToken(ts[0]), lhs, rhs)) + rest
  {
    var t := [ts[0]];
    assert ts == t + ts[1..];
    Splice(Yield(lhs), t + Yield(rhs), rest);
    Splice(t, Yield(rhs), rest);
  }

  lemma IndexYield(lhs: Cst, ts: seq<Token>, i: Cst, irest: seq<Token>)
    requires Cur(ts) == LBracket && ts[1..] == Yield(i) + irest && Cur(irest) == RBracket
    ensures Yield(lhs) + ts == Yield(CIndex(lhs, i)) + irest[1..]
  {
    var tail := [RBracket] + irest[1..];
    assert irest == tail;
    assert ts == [LBracket] + ts[1..];
    Splice(Yield(lhs), [LBracket] + (Yield(i) + [RBracket]), irest[1..]);
    Splice([LBracket], Yield(i) + [RBracket], irest[1..]);
    Splice(Yield(i), [RBracket], irest[1..]);
  }

  /** A prefix of tokens, an argument list and the closing parenthesis. */
  lemma ArgsYield(head: seq<Token>, ts: seq<Token>, args: seq<Cst>, arest: seq<Token>)
    requires |ts| >= |head| && ts[..|head|] == head && ts[|head|..] == YieldAll(args) + arest && Cur(arest) == RParen
    ensures ts == (head + (YieldAll(args) + [RParen])) + arest[1..]
  {
    assert arest == [RParen] + arest[1..];
    assert ts == head + ts[|head|..];
    Splice(head, YieldAll(args) + [RParen], arest[1..]);
    Splice(YieldAll(args), [RParen], arest[1..]);
  }

  lemma ParenYield(ts: seq<Token>, e: Cst, erest: seq<Token>)
    requires Cur(ts) == LParen && ts[1..] == Yield(e) + erest && Cur(erest) == RParen
    ensures ts == Yield(CParen(e)) + erest[1..]
  {
    assert erest == [RParen] + erest[1..];
    assert ts == [LParen] + ts[1..];
    Splice([LParen], Yield(e) + [RParen], erest[1..]);
    Splice(Yield(e), [RParen], erest[1..]);
  }

  lemma NewArrayYield(ts: seq<Token>, elem: BasicType, d: nat, size: Cst, srest: seq<Token>, rest: seq<Token>)
    requires |ts| >= 3 && ts[0] == KwNew && ts[1] == BasicTypeToken(elem) && ts[2] == LBracket && d >= 1
    requires ts[3..] == Yield(size) + srest && Cur(srest) == RBracket && srest[1..] == Brackets(d - 1) + rest
    ensures ts == Yield(CNewArray(elem, d, size)) + rest
  {
    var head := [KwNew, BasicTypeToken(elem), LBracket];
    assert ts == head + ts[3..];
    assert srest == [RBracket] + srest[1..];
    Splice(head, Yield(size) + ([RBracket] + Brackets(d - 1)), rest);
    Splice(Yield(size), [RBracket] + Brackets(d - 1), rest);
    Splice([RBracket], Brackets(d - 1), rest);
  }

  lemma {:induction false} UnarySound(ts: seq<Token>)
    requires Lexed(ts) && ParseUnary(ts).Parsed?
    ensures var r := ParseUnary(ts);
      Derives(ts, r.tree, r.rest) && Level(r.tree) >= 8
    decreases |ts|, 4
  {
    if Cur(ts) == Bang {
      PrefixSound(ts, Not);
    } else if Cur(ts) == MinusSign && !Ahead(ts, 1).IntLiteral? {
      PrefixSound(ts, Neg);
    } else if Cur(ts) == MinusSign {
      var glued := [IntLiteral("-" + ts[1].str)] + ts[2..];
      assert glued[1..] == ts[2..];
      PostfixExprSound(glued);
      assert glued[0].str[1..] == ts[1].str;
      assert ts == [MinusSign, ts[1]] + ts[2..];
    } else {
      PostfixExprSound(ts);
    }
  }

  lemma PrefixYield(ts: seq<Token>, op: UnOp, x: Cst, rest: seq<Token>)
    requires ts != [] && ts[0] == UnOpToken(op) && ts[1..] == Yield(x) + rest
    ensures ts == Yield(CUnary(op, x)) + rest && |ts| > 1 && ts[1] == Yield(x)[0]
  {
    assert ts == [ts[0]] + ts[1..] && ts[1] == ts[1..][0];
    Splice([ts[0]], Yield(x), rest);
  }

  lemma PrefixStratified(op: UnOp, x: Cst)
    requires Spelled(x) && Stratified(x) && Level(x) >= 8 && (op == Neg ==> !Yield(x)[0].IntLiteral?)
    ensures Spelled(CUnary(op, x)) && Stratified(CUnary(op, x))
  {
  }

  lemma {:induction false} PrefixSound(ts: seq<Token>, op: UnOp)
    requires Lexed(ts) && Cur(ts) == UnOpToken(op) && ParseUnary(ts[1..]).Parsed?
    requires op == Neg ==> !Ahead(ts, 1).IntLiteral?
    ensures var r := Prefixed(op, ParseUnary(ts[1..]));
      Derives(ts, r.tree, r.rest)
    decreases |ts|, 3
  {
    UnarySound(ts[1..]);
    var r := ParseUnary(ts[1..]);
    PrefixYield(ts, op, r.tree, r.rest);
    PrefixStratified(op, r.tree);
  }

  lemma {:induction false} PostfixExprSound(ts: seq<Token>)
    requires ts != [] && Lexed(ts[1..]) && ParsePostfix(ts).Parsed?
    requires ts[0].IntLiteral? ==> IsNumeral(ts[0].str)
    ensures var r := ParsePostfix(ts);
      Derives(Unglued(ts), r.tree, r.rest) && Level(r.tree) == 9
    decreases |ts|, 3
  {
    PrimarySound(ts);
    var p := ParsePrimary(ts);
    PostfixSound(p.tree, p.rest);
  }

  lemma {:induction false} PostfixSound(lhs: Cst, ts: seq<Token>)
    requires Lexed(ts) && Spelled(lhs) && Stratified(lhs) && Level(lhs) == 9 && Postfix(lhs, ts).Parsed?
    ensures var r := Postfix(lhs, ts);
      Derives(Yield(lhs) + ts, r.tree, r.rest) && Level(r.tree) == 9
    decreases |ts|, 6
  {
    if Cur(ts) == Dot {
      MemberSound(lhs, ts);
      var m := MemberAccess(lhs, ts);
      PostfixSound(m.tree, m.rest);
    } else if Cur(ts) == LBracket {
      PrecSound(ts[1..], 0);
      var i := ParsePrec(ts[1..], 0);
      IndexYield(lhs, ts, i.tree, i.rest);
      PostfixSound(CIndex(lhs, i.tree), i.rest[1..]);
    }
  }

  lemma {:induction false} MemberSound(lhs: Cst, ts: seq<Token>)
    requires Lexed(ts) && Spelled(lhs) && Stratified(lhs) && Level(lhs) == 9 && Cur(ts) == Dot && MemberAccess(lhs, ts).Parsed?
    ensures var r := MemberAccess(lhs, ts);
      Derives(Yield(lhs) + ts, r.tree, r.rest) && Level(r.tree) == 9
    decreases |ts|, 5
  {
    var n := ts[1].name;
    if Ahead(ts, 2) == LParen {
      ArgumentsSound(ts[3..]);
      var args := ParseArguments(ts[3..]);
      CallDerives(lhs, ts, n, args.tree, args.rest);
    } else {
      FieldDerives(lhs, ts, n);
    }
  }

  lemma CallDerives(lhs: Cst, ts: seq<Token>, n: string, args: seq<Cst>, arest: seq<Token>)
    requires Spelled(lhs) && Stratified(lhs) && Level(lhs) == 9 && AllSpelled(args) && AllStratified(args)
    requires |ts| >= 3 && ts[..3] == [Dot, Identifier(n), LParen] && ts[3..] == YieldAll(args) + arest
    requires Cur(arest) == RParen && Lexed(arest)
    ensures Derives(Yield(lhs) + ts, CCall(lhs, n, args), arest[1..])
  {
    var head := [Dot, Identifier(n), LParen];
    ArgsYield(head, ts, args, arest);
    Splice(Yield(lhs), head + (YieldAll(args) + [RParen]), arest[1..]);
  }

  lemma FieldDerives(lhs: Cst, ts: seq<Token>, n: string)
    requires Spelled(lhs) && Stratified(lhs) && Level(lhs) == 9 && Lexed(ts) && |ts| >= 2 && ts[..2] == [Dot, Identifier(n)]
    ensures Derives(Yield(lhs) + ts, CField(lhs, n), ts[2..])
  {
    var head := [Dot, Identifier(n)];
    assert ts == head + ts[2..] && Yield(CField(lhs, n)) == Yield(lhs) + head;
    Splice(Yield(lhs), head, ts[2..]);
  }

  lemma {:induction false} PrimarySound(ts: seq<Token>)
    requires ts != [] && Lexed(ts[1..]) && ParsePrimary(ts).Parsed?
    requires ts[0].IntLiteral? ==> IsNumeral(ts[0].str)
    ensures var r := ParsePrimary(ts);
      Derives(Unglued(ts), r.tree, r.rest) && Level(r.tree) == 9
    decreases |ts|, 2
  {
    if ts[0] == LParen {
      PrecSound(ts[1..], 0);
      var e := ParsePrec(ts[1..], 0);
      ParenYield(ts, e.tree, e.rest);
    } else if ts[0].Identifier? && Ahead(ts, 1) == LParen {
      OwnCallSound(ts);
    } else if ts[0] == KwNew {
      NewSound(ts);
    } else {
      AtomSound(ts);
    }
  }

  /** Literals and variables. */
  function AtomOf(t: Token): Cst {
    if t.IntLiteral? then CInt(t.str)
    else if t.Identifier? then CVar(t.name)
    else if t == KwTrue || t == KwFalse then CBool(t == KwTrue)
    else if t == KwNull then CNull
    else CThis
  }

  predicate IsAtom(t: Token) { t.IntLiteral? || t.Identifier? || t == KwTrue || t == KwFalse || t == KwNull || t == KwThis }

  lemma AtomParsed(ts: seq<Token>)
    requires ts != [] && ParsePrimary(ts).Parsed? && ts[0] != LParen && ts[0] != KwNew && !(ts[0].Identifier? && Ahead(ts, 1) == LParen)
    ensures IsAtom(ts[0]) && ParsePrimary(ts) == Parsed(AtomOf(ts[0]), ts[1..])
    ensures ts[0].IntLiteral? ==> IsNumeral(ts[0].str) && INT_MIN <= NumeralValue(ts[0].str) <= INT_MAX
  {
  }

  lemma AtomYield(t: Token)
    requires IsAtom(t)
    ensures var c := AtomOf(t); Yield(c) == (if t.IntLiteral? then IntYield(t.str) else [t]) && Stratified(c) && Level(c) == 9
    ensures !t.IntLiteral? ==> Spelled(AtomOf(t))
  {
  }

  lemma AtomSound(ts: seq<Token>)
    requires ts != [] && Lexed(ts[1..]) && ParsePrimary(ts).Parsed? && (ts[0].IntLiteral? ==> IsNumeral(ts[0].str))
    requires ts[0] != LParen && ts[0] != KwNew && !(ts[0].Identifier? && Ahead(ts, 1) == LParen)
    ensures var r := ParsePrimary(ts);
      Derives(Unglued(ts), r.tree, r.rest) && Level(r.tree) == 9
  {
    AtomParsed(ts);
    AtomYield(ts[0]);
    UngluedHead(ts);
  }

  lemma UngluedHead(ts: seq<Token>)
    requires ts != []
    ensures Unglued(ts) == (if ts[0].IntLiteral? then IntYield(ts[0].str) else [ts[0]]) + ts[1..]
  {
    assert ts == [ts[0]] + ts[1..];
  }

  lemma {:induction false} OwnCallSound(ts: seq<Token>)
    requires ts != [] && Lexed(ts[1..]) && ts[0].Identifier? && Ahead(ts, 1) == LParen && ParsePrimary(ts).Parsed?
    ensures var r := ParsePrimary(ts);
      Derives(ts, r.tree, r.rest) && Level(r.tree) == 9
    decreases |ts|, 1
  {
    assert ts[2..] == ts[1..][1..];
    ArgumentsSound(ts[2..]);
    var args := ParseArguments(ts[2..]);
    ArgsYield([ts[0], LParen], ts, args.tree, args.rest);
  }

  lemma {:induction false} NewSound(ts: seq<Token>)
    requires ts != [] && Lexed(ts[1..]) && Cur(ts) == KwNew && ParseNew(ts).Parsed?
    ensures var r := ParseNew(ts);
      Derives(ts, r.tree, r.rest) && Level(r.tree) == 9
    decreases |ts|, 1
  {
    if Ahead(ts, 2) == LParen {
      assert ts == [KwNew, ts[1], LParen, RParen] + ts[4..];
      assert ts[4..] == ts[1..][3..];
    } else {
      NewArraySound(ts);
    }
  }

  /** What parsing a new array went through. */
  lemma NewArrayParts(ts: seq<Token>)
    requires ts != [] && Cur(ts) == KwNew && ParseNew(ts).Parsed? && Ahead(ts, 2) != LParen
    ensures |ts| >= 3 && ts[2] == LBracket && BasicTypeFor(ts[1]).Some?
    ensures var size := ParsePrec(ts[3..], 0);
      && size.Parsed? && Cur(size.rest) == RBracket
      && var (d, rest) := Dimensions(1, size.rest[1..]);
         ParseNew(ts) == Parsed(CNewArray(BasicTypeFor(ts[1]).value, d, size.tree), rest)
  {
  }

  lemma BasicTypeBack(t: Token)
    requires BasicTypeFor(t).Some?
    ensures BasicTypeToken(BasicTypeFor(t).value) == t
  {
  }

  lemma {:induction false} NewArraySound(ts: seq<Token>)
    requires ts != [] && Lexed(ts[1..]) && Cur(ts) == KwNew && ParseNew(ts).Parsed? && Ahead(ts, 2) != LParen
    ensures var r := ParseNew(ts);
      Derives(ts, r.tree, r.rest) && Level(r.tree) == 9
    decreases |ts|, 0
  {
    NewArrayParts(ts);
    BasicTypeBack(ts[1]);
    assert ts[3..] == ts[1..][2..];
    PrecSound(ts[3..], 0);
    var size := ParsePrec(ts[3..], 0);
    DimensionsSound(1, size.rest[1..]);
    var (d, rest) := Dimensions(1, size.rest[1..]);
    NewArrayDerives(ts, BasicTypeFor(ts[1]).value, d, size.tree, size.rest, rest);
  }

  lemma NewArrayDerives(ts: seq<Token>, elem: BasicType, d: nat, size: Cst, srest: seq<Token>, rest: seq<Token>)
    requires |ts| >= 3 && ts[0] == KwNew && ts[1] == BasicTypeToken(elem) && ts[2] == LBracket && d >= 1
    requires Derives(ts[3..], size, srest) && Cur(srest) == RBracket && srest[1..] == Brackets(d - 1) + rest && Lexed(rest)
    ensures Derives(ts, CNewArray(elem, d, size), rest)
  {
    NewArrayYield(ts, elem, d, size, srest, rest);
  }

  lemma {:induction false} DimensionsSound(d: nat, ts: seq<Token>)
    requires Lexed(ts)
    ensures var (n, rest) := Dimensions(d, ts); ts == Brackets(n - d) + rest && Lexed(rest)
    decreases |ts|
  {
    if Cur(ts) == LBracket && Ahead(ts, 1) == RBracket {
      DimensionsSound(d + 1, ts[2..]);
      var (n, rest) := Dimensions(d + 1, ts[2..]);
      OneDimension(ts, n - (d + 1), rest);
    }
  }

  lemma OneDimension(ts: seq<Token>, k: nat, rest: seq<Token>)
    requires |ts| >= 2 && ts[0] == LBracket && ts[1] == RBracket && ts[2..] == Brackets(k) + rest
    ensures ts == Brackets(k + 1) + rest
  {
    assert ts == [LBracket, RBracket] + ts[2..];
    Splice([LBracket, RBracket], Brackets(k), rest);
  }

  lemma {:induction false} ArgumentsSound(ts: seq<Token>)
    requires Lexed(ts) && ParseArguments(ts).Parsed?
    ensures var r := ParseArguments(ts);
      AllSpelled(r.tree) && AllStratified(r.tree) && ts == YieldAll(r.tree) + r.rest && Lexed(r.rest)
    decreases |ts|, 6
  {
    if StartsExpr(Cur(ts)) {
      PrecSound(ts, 0);
      var a := ParsePrec(ts, 0);
      OneArgument(a.tree);
      MoreSound([a.tree], a.rest);
    } else {
      NoArguments(ts);
    }
  }

  lemma OneArgument(c: Cst)
    requires Spelled(c) && Stratified(c)
    ensures AllSpelled([c]) && AllStratified([c]) && YieldAll([c]) == Yield(c)
  {
    assert [c][1..] == [] && YieldMore([]) == [];
  }

  lemma NoArguments(ts: seq<Token>)
    requires ParseArguments(ts).Parsed? && !StartsExpr(Cur(ts))
    ensures ParseArguments(ts) == Parsed([], ts) && YieldAll([]) + ts == ts
  {
  }

  lemma {:induction false} MoreSound(args: seq<Cst>, ts: seq<Token>)
    requires Lexed(ts) && args != [] && AllSpelled(args) && AllStratified(args) && MoreArguments(args, ts).Parsed?
    ensures var r := MoreArguments(args, ts);
      AllSpelled(r.tree) && AllStratified(r.tree) && YieldAll(args) + ts == YieldAll(r.tree) + r.rest && Lexed(r.rest)
    decreases |ts|, 6
  {
    if Cur(ts) == Comma {
      PrecSound(ts[1..], 0);
      var a := ParsePrec(ts[1..], 0);
      AppendArgument(args, a.tree);
      MoreSound(args + [a.tree], a.rest);
      assert ts == [Comma] + ts[1..];
      Splice([Comma], Yield(a.tree), a.rest);
      Splice(YieldAll(args), [Comma] + Yield(a.tree), a.rest);
    }
  }

  lemma {:induction false} AppendArgument(args: seq<Cst>, c: Cst)
    requires args != [] && AllSpelled(args) && AllStratified(args) && Spelled(c) && Stratified(c)
    ensures AllSpelled(args + [c]) && AllStratified(args + [c])
    ensures YieldAll(args + [c]) == YieldAll(args) + ([Comma] + Yield(c))
  {
    AppendMore(args[1..], c);
    assert (args + [c])[1..] == args[1..] + [c];
    Splice(Yield(args[0]), YieldMore(args[1..]), [Comma] + Yield(c));
  }

  lemma {:induction false} AppendMore(args: seq<Cst>, c: Cst)
    requires AllSpelled(args) && AllStratified(args) && Spelled(c) && Stratified(c)
    ensures AllSpelled(args + [c]) && AllStratified(args + [c])
    ensures YieldMore(args + [c]) == YieldMore(args) + ([Comma] + Yield(c))
  {
    if args == [] {
      assert args + [c] == [c];
      assert YieldMore([c]) == [Comma] + (Yield(c) + YieldMore([]));
    } else {
      AppendMore(args[1..], c);
      assert (args + [c])[1..] == args[1..] + [c];
      Splice(Yield(args[0]), YieldMore(args[1..]), [Comma] + Yield(c));
      Splice([Comma], Yield(args[0]) + YieldMore(args[1..]), [Comma] + Yield(c));
    }
  }
}
