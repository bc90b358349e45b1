/** The expression parser reads exactly the phrases of the expression grammar. */
module GrammarMatches {
  import opened Wrappers
  import opened Syntax
  import opened Grammar
  import opened ExprParser
  import opened ParserSound
  import opened ParserComplete
  import opened ExprGrammar

  /** The rule whose operators bind at least as tightly as `p`; 8 stands for prefix and 9 for postfix expressions. */
  function RuleOf(p: int): Rule {
    if p <= 1 then AssignmentExpr
    else if p == 2 then OrExpr
    else if p == 3 then AndExpr
    else if p == 4 then EqualityExpr
    else if p == 5 then RelationalExpr
    else if p == 6 then AdditiveExpr
    else if p == 7 then MultiplicativeExpr
    else if p == 8 then UnaryExpr
    else PostfixExpr
  }

  function LevelOf(r: Rule): int {
    if r.PrimaryExpr? then 9 else 10 - Height(r)
  }

  lemma RuleLevels(p: int, r: Rule)
    ensures 1 <= p <= 9 ==> LevelOf(RuleOf(p)) == p && Height(RuleOf(p)) == 10 - p
    ensures 1 <= LevelOf(r) <= 9 && (LevelOf(r) >= p >= 1 ==> Height(r) <= Height(RuleOf(p)))
    ensures LevelOf(Below(r)) >= LevelOf(r)
  {
  }

  // ---- single steps of the grammar ----

  lemma {:induction false} Rise(q: Rule, r: Rule, e: Expr, ts: seq<Token>)
    requires Derived(q, e, ts) && Height(q) <= Height(r)
    ensures Derived(r, e, ts)
    decreases Height(r)
  {
    if q != r {
      Rise(q, Below(r), e, ts);
    }
  }

  lemma ByPrimary(e: Expr, ts: seq<Token>)
    requires Primary(e, ts)
    ensures Derived(PostfixExpr, e, ts)
  {
    assert Derived(PrimaryExpr, e, ts);
  }

  lemma ByPostfix(e: Expr, ts: seq<Token>, k: nat)
    requires PostfixAt(e, ts, k)
    ensures Derived(PostfixExpr, e, ts)
  {
    assert OwnProduction(PostfixExpr, e, ts);
  }

  lemma ByPrefix(e: Expr, ts: seq<Token>)
    requires Prefix(e, ts)
    ensures Derived(UnaryExpr, e, ts)
  {
    assert OwnProduction(UnaryExpr, e, ts);
  }

  lemma ByBinary(r: Rule, e: Expr, ts: seq<Token>, k: nat)
    requires Height(r) >= 3 && BinaryAt(r, e, ts, k)
    ensures Derived(r, e, ts)
  {
    assert OwnProduction(r, e, ts);
  }

  lemma ByArgument(es: seq<Expr>, ts: seq<Token>, k: nat)
    requires ArgumentAt(es, ts, k)
    ensures Arguments(es, ts)
  {
  }

  lemma Operators(op: BinOp)
    ensures Operator(RuleOf(OpLevel(op)), BinOpToken(op)) == Some(op) && Height(RuleOf(OpLevel(op))) >= 3
    ensures 1 <= OpLevel(op) <= 7 && (op == Assign <==> OpLevel(op) == 1) && (op == Assign <==> RuleOf(OpLevel(op)).AssignmentExpr?)
    ensures OpLevel(op) > 1 ==> Below(RuleOf(OpLevel(op))) == RuleOf(OpLevel(op) + 1)
  {
  }

  lemma OperatorLevel(r: Rule, t: Token)
    requires Operator(r, t).Some?
    ensures var op := Operator(r, t).value; BinOpToken(op) == t && OpLevel(op) == LevelOf(r)
  {
    match t
    case Lt => case LtEq => case Gt => case GtEq =>
    case Star => case Slash => case Percent =>
    case _ =>
  }

  // ---- every tree of the stratified grammar is a derivation ----

  /** The phrase a tree spells, by the rule of its root. */
  ghost predicate Phrase(c: Cst) { Derived(RuleOf(Level(c)), Strip(c), Yield(c)) }

  lemma LevelBounds(c: Cst)
    ensures 1 <= Level(c) <= 9
  {
  }

  lemma PhraseAt(c: Cst, p: int)
    requires Phrase(c) && Level(c) >= p >= 1
    ensures Derived(RuleOf(p), Strip(c), Yield(c))
  {
    LevelBounds(c);
    RuleLevels(Level(c), RuleOf(p));
    RuleLevels(p, RuleOf(Level(c)));
    Rise(RuleOf(Level(c)), RuleOf(p), Strip(c), Yield(c));
  }

  lemma {:induction false} TreePhrase(c: Cst)
    requires Spelled(c) && Stratified(c)
    ensures Phrase(c)
    decreases c, 1
  {
    match c
    case CBinary(_, _, _) => BinaryPhrase(c);
    case CUnary(_, x) => TreePhrase(x); UnaryPhrase(c);
    case CField(o, _) => TreePhrase(o); FieldPhrase(c);
    case CIndex(a, i) => TreePhrase(a); TreePhrase(i); IndexPhrase(c);
    case CCall(t, _, args) => TreePhrase(t); ArgumentsPhrase(args); CallPhrase(c);
    case COwnCall(_, args) => ArgumentsPhrase(args); OwnCallPhrase(c);
    case CParen(x) => TreePhrase(x); ParenPhrase(c);
    case CNewArray(_, _, s) => TreePhrase(s); NewArrayPhrase(c);
    case _ => AtomPhrase(c);
  }

  lemma {:induction false} BinaryPhrase(c: Cst)
    requires c.CBinary? && Spelled(c) && Stratified(c)
    ensures Phrase(c)
    decreases c, 0
  {
    var (op, l, r) := (c.op, c.left, c.right);
    BinaryOperands(c);
    Operators(op);
    TreePhrase(l);
    TreePhrase(r);
    PhraseAt(l, if op == Assign then 2 else OpLevel(op));
    PhraseAt(r, RightLevel(op));
    BinarySplits(l, op, r);
    StripBinary(op, l, r);
    assert BinaryAt(RuleOf(OpLevel(op)), Strip(c), Yield(c), |Yield(l)|);
    ByBinary(RuleOf(OpLevel(op)), Strip(c), Yield(c), |Yield(l)|);
  }

  lemma BinarySplits(l: Cst, op: BinOp, r: Cst)
    ensures var ts := Yield(CBinary(op, l, r)); var k := |Yield(l)|;
      k < |ts| && ts[k] == BinOpToken(op) && ts[..k] == Yield(l) && ts[k+1..] == Yield(r)
  {
  }

  lemma UnaryPhrase(c: Cst)
    requires c.CUnary? && Stratified(c) && Phrase(c.operand)
    ensures Phrase(c)
  {
    PhraseAt(c.operand, 8);
    UnaryDerived(c.uop, Strip(c.operand), Yield(c.operand));
    StripUnary(c.uop, c.operand);
  }

  lemma UnaryDerived(op: UnOp, e: Expr, ts: seq<Token>)
    requires ts != [] && Derived(UnaryExpr, e, ts) && (op == Neg ==> !ts[0].IntLiteral?)
    ensures Derived(UnaryExpr, Unary(op, e), [UnOpToken(op)] + ts)
  {
    var all := [UnOpToken(op)] + ts;
    assert all[1..] == ts;
    ByPrefix(Unary(op, e), all);
  }

  lemma FieldDerived(o: Expr, n: string, ts: seq<Token>)
    requires Derived(PostfixExpr, o, ts)
    ensures Derived(PostfixExpr, Field(o, n), ts + [Dot, Identifier(n)])
  {
    var all := ts + [Dot, Identifier(n)];
    assert all[..|ts|] == ts && all[|ts|..] == [Dot, Identifier(n)];
    ByPostfix(Field(o, n), all, |ts|);
  }

  lemma FieldPhrase(c: Cst)
    requires c.CField? && Stratified(c) && Phrase(c.base)
    ensures Phrase(c)
  {
    PhraseAt(c.base, 9);
    FieldDerived(Strip(c.base), c.field, Yield(c.base));
    StripAccess(c.base, c.base, c.field);
  }

  lemma IndexDerived(a: Expr, i: Expr, ts: seq<Token>, us: seq<Token>)
    requires Derived(PostfixExpr, a, ts) && Derived(AssignmentExpr, i, us)
    ensures Derived(PostfixExpr, Index(a, i), ts + ([LBracket] + (us + [RBracket])))
  {
    var (all, k) := (ts + ([LBracket] + (us + [RBracket])), |ts|);
    assert all[..k] == ts && all[k+1..|all|-1] == us;
    ByPostfix(Index(a, i), all, k);
  }

  lemma IndexPhrase(c: Cst)
    requires c.CIndex? && Stratified(c) && Phrase(c.arr) && Phrase(c.index)
    ensures Phrase(c)
  {
    LevelBounds(c.index);
    PhraseAt(c.arr, 9);
    PhraseAt(c.index, 1);
    IndexDerived(Strip(c.arr), Strip(c.index), Yield(c.arr), Yield(c.index));
    StripAccess(c.arr, c.index, "");
  }

  lemma CallDerived(t: Expr, n: string, es: seq<Expr>, ts: seq<Token>, us: seq<Token>)
    requires Derived(PostfixExpr, t, ts) && Arguments(es, us)
    ensures Derived(PostfixExpr, Call(t, n, es), ts + ([Dot, Identifier(n), LParen] + (us + [RParen])))
  {
    var (all, k) := (ts + ([Dot, Identifier(n), LParen] + (us + [RParen])), |ts|);
    assert all[..k] == ts && all[k+3..|all|-1] == us;
    ByPostfix(Call(t, n, es), all, k);
  }

  lemma CallPhrase(c: Cst)
    requires c.CCall? && Stratified(c) && Phrase(c.target) && Arguments(StripAll(c.args), YieldAll(c.args))
    ensures Phrase(c)
  {
    PhraseAt(c.target, 9);
    CallDerived(Strip(c.target), c.name, StripAll(c.args), Yield(c.target), YieldAll(c.args));
    StripCalls(c.target, c.name, c.args);
  }

  lemma OwnCallPhrase(c: Cst)
    requires c.COwnCall? && Arguments(StripAll(c.args), YieldAll(c.args))
    ensures Phrase(c)
  {
    OwnCallPrimary(c.name, StripAll(c.args), YieldAll(c.args));
    StripCalls(c, c.name, c.args);
    var (e, ts) := (Call(ThisLit, c.name, StripAll(c.args)), [Identifier(c.name), LParen] + (YieldAll(c.args) + [RParen]));
    ByPrimary(e, ts);
    PostfixPhrase(c, e, ts);
  }

  lemma OwnCallPrimary(n: string, es: seq<Expr>, inner: seq<Token>)
    requires Arguments(es, inner)
    ensures Primary(Call(ThisLit, n, es), [Identifier(n), LParen] + (inner + [RParen]))
  {
    var ts := [Identifier(n), LParen] + (inner + [RParen]);
    assert ts[2..|ts|-1] == inner;
  }

  lemma ParenDerived(e: Expr, ts: seq<Token>)
    requires Derived(AssignmentExpr, e, ts)
    ensures Derived(PostfixExpr, e, [LParen] + (ts + [RParen]))
  {
    var all := [LParen] + (ts + [RParen]);
    assert all[1..|all|-1] == ts;
    ByPrimary(e, all);
  }

  lemma ParenPhrase(c: Cst)
    requires c.CParen? && Phrase(c.inner)
    ensures Phrase(c)
  {
    var inner := c.inner;
    LevelBounds(inner);
    PhraseAt(inner, 1);
    ParenDerived(Strip(inner), Yield(inner));
    StripParen(inner);
    PostfixPhrase(c, Strip(inner), [LParen] + (Yield(inner) + [RParen]));
  }

  lemma PostfixPhrase(c: Cst, e: Expr, ts: seq<Token>)
    requires Level(c) == 9 && Strip(c) == e && Yield(c) == ts && Derived(PostfixExpr, e, ts)
    ensures Phrase(c)
  {
  }

  lemma {:induction false} BracketPairs(n: nat)
    ensures Pairs(Brackets(n))
  {
    if n > 0 {
      BracketPairs(n - 1);
      assert Brackets(n)[2..] == Brackets(n - 1);
      forall i | 0 <= i < 2 * n ensures Brackets(n)[i] == if i % 2 == 0 then LBracket else RBracket {
        if i >= 2 { assert Brackets(n)[i] == Brackets(n - 1)[i - 2]; }
      }
    }
  }

  lemma NewArrayDerived(t: BasicType, d: nat, size: Expr, us: seq<Token>)
    requires d >= 1 && Derived(AssignmentExpr, size, us)
    ensures Derived(PostfixExpr, NewArray(t, d, size), [KwNew, BasicTypeToken(t), LBracket] + (us + ([RBracket] + Brackets(d - 1))))
  {
    var ts := [KwNew, BasicTypeToken(t), LBracket] + (us + ([RBracket] + Brackets(d - 1)));
    var k := |ts| - 2 * d + 1;
    BracketPairs(d - 1);
    assert k == 3 + |us| && ts[k] == RBracket && ts[3..k] == us && ts[k+1..] == Brackets(d - 1);
    assert ArrayCreated(t, size, ts, k);
    ByPrimary(NewArray(t, d, size), ts);
  }

  lemma NewArrayPhrase(c: Cst)
    requires c.CNewArray? && Spelled(c) && Phrase(c.size)
    ensures Phrase(c)
  {
    LevelBounds(c.size);
    PhraseAt(c.size, 1);
    NewArrayDerived(c.elem, c.dimension, Strip(c.size), Yield(c.size));
    StripNewArray(c.elem, c.dimension, c.size);
  }

  lemma NumeralLiteral(s: string)
    requires IsNumeral(s) && INT_MIN <= NumeralValue(s) <= INT_MAX
    ensures Literal(NumeralValue(s), IntYield(s))
  {
  }

  lemma AtomPhrase(c: Cst)
    requires Spelled(c) && (c.CBool? || c.CNull? || c.CThis? || c.CInt? || c.CVar? || c.CNewObject?)
    ensures Phrase(c)
  {
    if c.CInt? { NumeralLiteral(c.numeral); }
    ByPrimary(Strip(c), Yield(c));
  }

  lemma {:induction false} ArgumentsPhrase(args: seq<Cst>)
    requires AllSpelled(args) && AllStratified(args)
    ensures Arguments(StripAll(args), YieldAll(args))
    decreases args, 0
  {
    if args != [] {
      TreePhrase(args[0]);
      LevelBounds(args[0]);
      PhraseAt(args[0], 1);
      ArgumentsPhrase(args[1..]);
      FirstArgument(args);
    }
  }

  lemma CommaBefore(args: seq<Cst>)
    requires args != []
    ensures YieldMore(args) == [Comma] + YieldAll(args)
  {
  }

  lemma FirstArgument(args: seq<Cst>)
    requires args != [] && Derived(AssignmentExpr, Strip(args[0]), Yield(args[0]))
    requires Arguments(StripAll(args[1..]), YieldAll(args[1..]))
    ensures Arguments(StripAll(args), YieldAll(args))
  {
    var es := StripAll(args);
    assert es[0] == Strip(args[0]) && es[1..] == StripAll(args[1..]);
    if |args| == 1 {
      assert YieldAll(args) == Yield(args[0]);
    } else {
      CommaBefore(args[1..]);
      BehindComma(es, Yield(args[0]), YieldAll(args[1..]));
    }
  }

  lemma BehindComma(es: seq<Expr>, first: seq<Token>, more: seq<Token>)
    requires |es| > 1 && Derived(AssignmentExpr, es[0], first) && Arguments(es[1..], more)
    ensures Arguments(es, first + ([Comma] + more))
  {
    var ts := first + ([Comma] + more);
    assert ts[..|first|] == first && ts[|first|+1..] == more;
    ByArgument(es, ts, |first|);
  }

  // ---- every derivation is a tree of the stratified grammar ----

  /** `c` is the tree of a phrase. */
  ghost predicate TreeOf(c: Cst, r: Rule, e: Expr, ts: seq<Token>) {
    Spelled(c) && Stratified(c) && Level(c) >= LevelOf(r) && Strip(c) == e && Yield(c) == ts
  }

  ghost predicate TreesOf(cs: seq<Cst>, es: seq<Expr>, ts: seq<Token>) {
    AllSpelled(cs) && AllStratified(cs) && StripAll(cs) == es && YieldAll(cs) == ts
  }

  lemma {:induction false} PhraseTree(r: Rule, e: Expr, ts: seq<Token>) returns (c: Cst)
    requires Derived(r, e, ts)
    ensures TreeOf(c, r, e, ts)
    decreases |ts|, Height(r), 2
  {
    if r.PrimaryExpr? {
      c := PrimaryTree(e, ts);
    } else if Derived(Below(r), e, ts) {
      c := PhraseTree(Below(r), e, ts);
      RuleLevels(1, r);
    } else {
      c := OwnTree(r, e, ts);
    }
  }

  lemma {:induction false} OwnTree(r: Rule, e: Expr, ts: seq<Token>) returns (c: Cst)
    requires !r.PrimaryExpr? && OwnProduction(r, e, ts)
    ensures TreeOf(c, r, e, ts)
    decreases |ts|, Height(r), 0
  {
    if r.UnaryExpr? {
      c := PrefixTree(e, ts);
    } else if r.PostfixExpr? {
      var k: nat :| PostfixAt(e, ts, k);
      c := PostfixTree(e, ts, k);
    } else {
      var k: nat :| BinaryAt(r, e, ts, k);
      c := BinaryTree(r, e, ts, k);
    }
  }

  lemma {:induction false} BinaryTree(r: Rule, e: Expr, ts: seq<Token>, k: nat) returns (c: Cst)
    requires BinaryAt(r, e, ts, k)
    ensures TreeOf(c, r, e, ts)
    decreases |ts|, 0
  {
    var left := PhraseTree(LeftOperand(r), e.left, ts[..k]);
    var right := PhraseTree(RightOperand(r), e.right, ts[k+1..]);
    c := CBinary(e.op, left, right);
    OperatorLevel(r, ts[k]);
    assert ts == ts[..k] + ([ts[k]] + ts[k+1..]);
    StripBinary(e.op, left, right);
    OperandLevels(r, e.op);
    BinaryStratified(e.op, left, right);
  }

  lemma OperandLevels(r: Rule, op: BinOp)
    requires OpLevel(op) == LevelOf(r)
    ensures LevelOf(LeftOperand(r)) >= (if op == Assign then 2 else OpLevel(op))
    ensures LevelOf(RightOperand(r)) >= (if op == Assign then 1 else OpLevel(op) + 1)
  {
  }

  lemma BinaryStratified(op: BinOp, left: Cst, right: Cst)
    requires Spelled(left) && Stratified(left) && Spelled(right) && Stratified(right)
    requires Level(left) >= (if op == Assign then 2 else OpLevel(op)) && Level(right) >= (if op == Assign then 1 else OpLevel(op) + 1)
    ensures Spelled(CBinary(op, left, right)) && Stratified(CBinary(op, left, right))
  {
  }

  lemma {:induction false} PrefixTree(e: Expr, ts: seq<Token>) returns (c: Cst)
    requires Prefix(e, ts)
    ensures TreeOf(c, UnaryExpr, e, ts)
    decreases |ts|, 0
  {
    var x := PhraseTree(UnaryExpr, e.operand, ts[1..]);
    c := CUnary(e.uop, x);
    assert ts == [ts[0]] + ts[1..];
    UnaryTreeOf(e.uop, e.operand, x, ts[1..]);
  }

  lemma UnaryTreeOf(op: UnOp, e: Expr, x: Cst, ts: seq<Token>)
    requires ts != [] && TreeOf(x, UnaryExpr, e, ts) && (op == Neg ==> !ts[0].IntLiteral?)
    ensures TreeOf(CUnary(op, x), UnaryExpr, Unary(op, e), [UnOpToken(op)] + ts)
  {
    StripUnary(op, x);
  }

  lemma {:induction false} PostfixTree(e: Expr, ts: seq<Token>, k: nat) returns (c: Cst)
    requires PostfixAt(e, ts, k)
    ensures TreeOf(c, PostfixExpr, e, ts)
    decreases |ts|, 0, 1
  {
    if e.Field? {
      var base := PhraseTree(PostfixExpr, e.base, ts[..k]);
      c := CField(base, e.field);
      assert ts == ts[..k] + ts[k..];
      StripAccess(base, base, e.field);
    } else if e.Index? {
      c := IndexTree(e, ts, k);
    } else {
      c := CallTree(e, ts, k);
    }
  }

  lemma {:induction false} IndexTree(e: Expr, ts: seq<Token>, k: nat) returns (c: Cst)
    requires PostfixAt(e, ts, k) && e.Index?
    ensures TreeOf(c, PostfixExpr, e, ts)
    decreases |ts|, 0, 0
  {
    var arr := PhraseTree(PostfixExpr, e.arr, ts[..k]);
    var index := PhraseTree(AssignmentExpr, e.index, ts[k+1..|ts|-1]);
    c := CIndex(arr, index);
    IndexTokens(ts, k);
    IndexTreeOf(arr, index, e.arr, e.index, ts[..k], ts[k+1..|ts|-1]);
  }

  lemma IndexTokens(ts: seq<Token>, k: nat)
    requires k + 1 < |ts| && ts[k] == LBracket && ts[|ts|-1] == RBracket
    ensures ts == ts[..k] + ([LBracket] + (ts[k+1..|ts|-1] + [RBracket]))
  {
  }

  lemma IndexTreeOf(arr: Cst, index: Cst, a: Expr, i: Expr, before: seq<Token>, inner: seq<Token>)
    requires TreeOf(arr, PostfixExpr, a, before) && TreeOf(index, AssignmentExpr, i, inner)
    ensures TreeOf(CIndex(arr, index), PostfixExpr, Index(a, i), before + ([LBracket] + (inner + [RBracket])))
  {
    StripAccess(arr, index, "");
  }

  lemma {:induction false} CallTree(e: Expr, ts: seq<Token>, k: nat) returns (c: Cst)
    requires PostfixAt(e, ts, k) && e.Call?
    ensures TreeOf(c, PostfixExpr, e, ts)
    decreases |ts|, 0, 0
  {
    var target := PhraseTree(PostfixExpr, e.target, ts[..k]);
    var args := ArgumentTrees(e.args, ts[k+3..|ts|-1]);
    c := CCall(target, e.name, args);
    CallTokens(ts, k, e.name);
    CallTreeOf(target, e.name, args, ts[..k], ts[k+3..|ts|-1]);
  }

  lemma CallTokens(ts: seq<Token>, k: nat, n: string)
    requires k + 3 < |ts| && ts[k] == Dot && ts[k+1] == Identifier(n) && ts[k+2] == LParen && ts[|ts|-1] == RParen
    ensures ts == ts[..k] + ([Dot, Identifier(n), LParen] + (ts[k+3..|ts|-1] + [RParen]))
  {
  }

  lemma CallTreeOf(target: Cst, n: string, args: seq<Cst>, before: seq<Token>, inner: seq<Token>)
    requires TreeOf(target, PostfixExpr, Strip(target), before) && TreesOf(args, StripAll(args), inner)
    ensures TreeOf(CCall(target, n, args), PostfixExpr, Call(Strip(target), n, StripAll(args)),
                   before + ([Dot, Identifier(n), LParen] + (inner + [RParen])))
  {
    StripCalls(target, n, args);
  }

  lemma {:induction false} ArgumentTrees(es: seq<Expr>, ts: seq<Token>) returns (cs: seq<Cst>)
    requires Arguments(es, ts)
    ensures TreesOf(cs, es, ts)
    decreases |ts|, 12
  {
    if es == [] {
      cs := [];
    } else if |es| == 1 {
      var c := PhraseTree(AssignmentExpr, es[0], ts);
      cs := [c];
      OneArgument(c);
      assert StripAll([c]) == [Strip(c)] + StripAll([]);
    } else {
      var k: nat :| ArgumentAt(es, ts, k);
      var first := PhraseTree(AssignmentExpr, es[0], ts[..k]);
      var more := ArgumentTrees(es[1..], ts[k+1..]);
      cs := [first] + more;
      JoinTrees(first, more, es, ts, k);
    }
  }

  lemma JoinTrees(first: Cst, more: seq<Cst>, es: seq<Expr>, ts: seq<Token>, k: nat)
    requires |es| > 1 && k < |ts| && ts[k] == Comma
    requires TreeOf(first, AssignmentExpr, es[0], ts[..k]) && TreesOf(more, es[1..], ts[k+1..])
    ensures TreesOf([first] + more, es, ts)
  {
    var cs := [first] + more;
    assert cs[1..] == more && more != [];
    CommaBefore(more);
    assert ts == ts[..k] + ([Comma] + ts[k+1..]);
  }

  ghost predicate Parenthesised(e: Expr, ts: seq<Token>) {
    |ts| > 1 && ts[0] == LParen && ts[|ts|-1] == RParen && Derived(AssignmentExpr, e, ts[1..|ts|-1])
  }

  lemma {:induction false} PrimaryTree(e: Expr, ts: seq<Token>) returns (c: Cst)
    requires Primary(e, ts)
    ensures TreeOf(c, PrimaryExpr, e, ts)
    decreases |ts|, 0, 1
  {
    if Parenthesised(e, ts) {
      var inner := PhraseTree(AssignmentExpr, e, ts[1..|ts|-1]);
      c := CParen(inner);
      assert ts == [LParen] + (ts[1..|ts|-1] + [RParen]);
    } else if e.NewArray? {
      c := NewArrayTree(e, ts);
    } else if e.Call? {
      c := OwnCallTree(e, ts);
    } else {
      c := AtomTree(e, ts);
    }
  }

  lemma {:induction false} OwnCallTree(e: Expr, ts: seq<Token>) returns (c: Cst)
    requires e.Call? && Primary(e, ts) && !Parenthesised(e, ts)
    ensures TreeOf(c, PrimaryExpr, e, ts)
    decreases |ts|, 0, 0
  {
    var args := ArgumentTrees(e.args, ts[2..|ts|-1]);
    c := COwnCall(e.name, args);
    assert ts == [Identifier(e.name), LParen] + (ts[2..|ts|-1] + [RParen]);
    StripCalls(c, e.name, args);
  }

  lemma {:induction false} NewArrayTree(e: Expr, ts: seq<Token>) returns (c: Cst)
    requires e.NewArray? && Primary(e, ts) && !Parenthesised(e, ts)
    ensures TreeOf(c, PrimaryExpr, e, ts)
    decreases |ts|, 0, 0
  {
    var k := |ts| - 2 * e.dimension + 1;
    OfNewArray(e, ts, k);
    var size := PhraseTree(AssignmentExpr, e.size, ts[3..k]);
    c := CNewArray(e.elem, e.dimension, size);
    NewArrayTreeOf(e.elem, e.dimension, e.size, size, ts, k);
  }

  lemma OfNewArray(e: Expr, ts: seq<Token>, k: int)
    requires e.NewArray? && Primary(e, ts) && !Parenthesised(e, ts) && k == |ts| - 2 * e.dimension + 1
    ensures e.dimension >= 1 && 3 <= k <= |ts| && Derived(AssignmentExpr, e.size, ts[3..k])
    ensures ts == [KwNew, BasicTypeToken(e.elem), LBracket] + (ts[3..k] + ([RBracket] + Brackets(e.dimension - 1)))
  {
    assert ArrayCreated(e.elem, e.size, ts, k);
    CreatedTokens(e.elem, e.size, ts, k, e.dimension - 1);
  }

  lemma NewArrayTreeOf(t: BasicType, d: nat, e: Expr, size: Cst, ts: seq<Token>, k: nat)
    requires d >= 1 && 3 <= k <= |ts| && TreeOf(size, AssignmentExpr, e, ts[3..k])
    requires ts == [KwNew, BasicTypeToken(t), LBracket] + (ts[3..k] + ([RBracket] + Brackets(d - 1)))
    ensures TreeOf(CNewArray(t, d, size), PrimaryExpr, NewArray(t, d, e), ts)
  {
    StripNewArray(t, d, size);
  }

  lemma CreatedTokens(t: BasicType, size: Expr, ts: seq<Token>, k: nat, more: nat)
    requires ArrayCreated(t, size, ts, k) && k + 1 + 2 * more == |ts|
    ensures ts == [KwNew, BasicTypeToken(t), LBracket] + (ts[3..k] + ([RBracket] + Brackets(more)))
  {
    PairsAreBrackets(ts[k+1..], more);
    assert ts == [KwNew, ts[1], LBracket] + (ts[3..k] + ([RBracket] + ts[k+1..]));
  }

  lemma {:induction false} PairsAreBrackets(ts: seq<Token>, n: nat)
    requires Pairs(ts) && |ts| == 2 * n
    ensures ts == Brackets(n)
    decreases n
  {
    if n > 0 {
      assert Pairs(ts[2..]);
      PairsAreBrackets(ts[2..], n - 1);
      assert ts == [LBracket, RBracket] + ts[2..];
    }
  }

  lemma AtomTree(e: Expr, ts: seq<Token>) returns (c: Cst)
    requires Primary(e, ts) && !Parenthesised(e, ts) && !e.NewArray? && !e.Call?
    ensures TreeOf(c, PrimaryExpr, e, ts)
  {
    match e
    case BoolLit(b) => c := CBool(b);
    case NullLit => c := CNull;
    case ThisLit => c := CThis;
    case VarRef(n) => c := CVar(n);
    case NewObject(n) => c := CNewObject(n);
    case IntLit(v) =>
      var s := LiteralText(v, ts);
      c := CInt(s);
  }

  lemma LiteralText(v: int, ts: seq<Token>) returns (s: string)
    requires Literal(v, ts)
    ensures IsNumeral(s) && NumeralValue(s) == v && INT_MIN <= v <= INT_MAX && IntYield(s) == ts
  {
    if |ts| == 1 {
      s := ts[0].str;
      assert ts == [ts[0]];
    } else {
      s := "-" + ts[1].str;
      assert s[1..] == ts[1].str && ts == [MinusSign, ts[1]];
    }
  }

  // ---- where a phrase ends ----

  lemma {:induction false} LastBracket(n: nat)
    requires n > 0
    ensures Brackets(n)[2*n-1] == RBracket
  {
    if n > 1 { LastBracket(n - 1); }
  }

  lemma {:induction false} LastToken(c: Cst)
    ensures EndsInName(c) <==> Yield(c)[|Yield(c)|-1].Identifier?
    decreases c
  {
    match c
    case CUnary(op, x) =>
      LastToken(x);
      LastOf([UnOpToken(op)], Yield(x));
    case CBinary(op, l, r) =>
      LastToken(r);
      LastOf(Yield(l), [BinOpToken(op)] + Yield(r));
      LastOf([BinOpToken(op)], Yield(r));
    case CNewArray(_, _, _) => CreatedLast(c);
    case CCall(_, _, _) => ClosedLast(c);
    case COwnCall(_, _) => ClosedLast(c);
    case CIndex(_, _) => ClosedLast(c);
    case CParen(_) => ClosedLast(c);
    case _ => NameLast(c);
  }

  lemma LastOf(a: seq<Token>, b: seq<Token>)
    requires b != []
    ensures (a + b)[|a + b| - 1] == b[|b|-1]
  {
  }

  lemma CreatedLast(c: Cst)
    requires c.CNewArray?
    ensures !Yield(c)[|Yield(c)|-1].Identifier?
  {
    if c.dimension > 1 { LastBracket(c.dimension - 1); }
  }

  lemma NameLast(c: Cst)
    requires c.CBool? || c.CNull? || c.CThis? || c.CInt? || c.CVar? || c.CNewObject? || c.CField?
    ensures Yield(c)[|Yield(c)|-1].Identifier? <==> c.CVar? || c.CField?
  {
  }

  lemma ClosedLast(c: Cst)
    requires c.CCall? || c.COwnCall? || c.CIndex? || c.CParen?
    ensures !Yield(c)[|Yield(c)|-1].Identifier?
  {
  }

  /** The parser's table gives an operator the level of its rule. */
  lemma OperatorsOf(p: int, t: Token)
    requires 0 <= p <= 8
    ensures Prec(t) >= p <==> exists q: Rule :: Height(q) <= Height(RuleOf(p)) && Operator(q, t).Some?
  {
    RuleLevels(p, RuleOf(p));
    forall q: Rule | Height(q) <= Height(RuleOf(p)) && Operator(q, t).Some? ensures Prec(t) >= p {
      OperatorLevel(q, t);
      OperatorToken(Operator(q, t).value);
    }
    if Prec(t) >= p {
      var op := BinOpForToken(t);
      OperatorToken(op);
      Operators(op);
      RuleLevels(OpLevel(op), RuleOf(OpLevel(op)));
      assert Operator(RuleOf(OpLevel(op)), t).Some?;
    }
  }

  lemma NotContinued(c: Cst, next: Token, p: int)
    requires 0 <= p <= 8
    ensures !Continued(RuleOf(p), Yield(c), next) <==>
      Prec(next) < p && next != Dot && next != LBracket && (next == LParen ==> !EndsInName(c))
  {
    OperatorsOf(p, next);
    LastToken(c);
  }

  // ---- the theorems ----

  /** What the parser returns from `ts`: it starts with a phrase of the rule that means `e`, `rest` is behind it, and the
      phrase goes on no further. */
  ghost predicate Reads(r: Rule, e: Expr, ts: seq<Token>, rest: seq<Token>) {
    exists phrase :: ts == phrase + rest && Derived(r, e, phrase) && !Continued(r, phrase, Cur(rest))
  }

  lemma ReadsTree(ts: seq<Token>, p: int, e: Expr, rest: seq<Token>, phrase: seq<Token>) returns (c: Cst)
    requires Lexed(ts) && 0 <= p <= 8
    requires ts == phrase + rest && Derived(RuleOf(p), e, phrase) && !Continued(RuleOf(p), phrase, Cur(rest))
    ensures ParsePrec(ts, p) == Parsed(c, rest) && Strip(c) == e
  {
    c := PhraseTree(RuleOf(p), e, phrase);
    NotContinued(c, Cur(rest), p);
    RuleLevels(p, RuleOf(p));
    SuffixLexed(phrase, rest);
    LevelBounds(c);
    assert Derives(ts, c, rest);
    ClimbingIsTheGrammar(ts, p, c, rest);
  }

  lemma SuffixLexed(phrase: seq<Token>, rest: seq<Token>)
    requires Lexed(phrase + rest)
    ensures Lexed(rest)
  {
    forall i | 0 <= i < |rest| && rest[i].IntLiteral? ensures IsDigits(rest[i].str) {
      assert (phrase + rest)[|phrase| + i] == rest[i];
    }
  }

  /** Main result: on every lexer output the precedence parser returns an expression and the tokens behind it exactly when
      the grammar derives that expression from the tokens before them and nothing that follows makes the phrase longer. */
  lemma ParserIsTheGrammar(ts: seq<Token>, p: int, e: Expr, rest: seq<Token>)
    requires Lexed(ts) && 0 <= p <= 8
    ensures (var r := ParsePrec(ts, p); r.Parsed? && Strip(r.tree) == e && r.rest == rest) <==> Reads(RuleOf(p), e, ts, rest)
  {
    var r := ParsePrec(ts, p);
    if r.Parsed? && Strip(r.tree) == e && r.rest == rest {
      var c := r.tree;
      ClimbingIsTheGrammar(ts, p, c, rest);
      TreePhrase(c);
      LevelBounds(c);
      RuleLevels(p, RuleOf(Level(c)));
      RuleLevels(Level(c), RuleOf(p));
      PhraseAt(c, if p == 0 then 1 else p);
      NotContinued(c, Cur(rest), p);
    }
    if Reads(RuleOf(p), e, ts, rest) {
      var phrase :| ts == phrase + rest && Derived(RuleOf(p), e, phrase) && !Continued(RuleOf(p), phrase, Cur(rest));
      var c := ReadsTree(ts, p, e, rest, phrase);
    }
  }
}
