/** A token sequence and an abstract tree determine the parentheses: two concrete trees that agree on both
    are equal. */
module Unambiguous {
  import opened Wrappers
  import opened Syntax
  import opened Grammar

  // ---- plain trees: calls with receiver, no minus zero ----

  predicate Plain(c: Cst) {
    match c
    case CInt(s) => IsNumeral(s) && (IsNegative(s) ==> NumeralValue(s) < 0)
    case CNewArray(_, d, s) => Plain(s)
    case CUnary(_, x) => Plain(x)
    case CBinary(_, l, r) => Plain(l) && Plain(r)
    case CCall(t, _, args) => Plain(t) && AllPlain(args)
    case COwnCall(_, args) => false
    case CField(o, _) => Plain(o)
    case CIndex(a, i) => Plain(a) && Plain(i)
    case CParen(x) => Plain(x)
    case _ => true
  }

  predicate AllPlain(cs: seq<Cst>) {
    cs == [] || (Plain(cs[0]) && AllPlain(cs[1..]))
  }

  // ---- measuring tokens ----

  predicate IsParen(t: Token) { t == LParen || t == RParen }

  ghost predicate Additive(f: seq<Token> -> int) {
    forall a, b :: f(a + b) == f(a) + f(b)
  }

  /** An additive measure under which a pair of parentheses cancels and the digits of a literal do not matter. */
  ghost predicate Measure(f: seq<Token> -> int) {
    && Additive(f)
    && f([LParen]) + f([RParen]) == 0
    && forall s, t :: f([IntLiteral(s)]) == f([IntLiteral(t)])
  }

  /** The plain spelling of `e` without any parentheses. */
  function Bare(e: Expr): Cst {
    match e
    case BoolLit(b) => CBool(b)
    case NullLit => CNull
    case ThisLit => CThis
    case IntLit(v) => CInt(Numeral(v))
    case VarRef(n) => CVar(n)
    case NewObject(n) => CNewObject(n)
    case NewArray(t, d, s) => CNewArray(t, d, Bare(s))
    case Unary(op, x) => CUnary(op, Bare(x))
    case Binary(op, l, r) => CBinary(op, Bare(l), Bare(r))
    case Call(t, n, args) => CCall(Bare(t), n, BareAll(args))
    case Field(o, n) => CField(Bare(o), n)
    case Index(a, i) => CIndex(Bare(a), Bare(i))
  }

  function BareAll(es: seq<Expr>): seq<Cst> {
    if es == [] then [] else [Bare(es[0])] + BareAll(es[1..])
  }

  function Weight(f: seq<Token> -> int, e: Expr): int { f(Yield(Bare(e))) }

  /** What a tree measures beyond the bare spelling of its meaning: only a receiverless call and a numeral
      with a sign too many differ from it. */
  function Slack(f: seq<Token> -> int, c: Cst): int {
    match c
    case CInt(s) => f(IntYield(s)) - f(Yield(Bare(Strip(c))))
    case CNewArray(_, _, s) => Slack(f, s)
    case CUnary(_, x) => Slack(f, x)
    case CBinary(_, l, r) => Slack(f, l) + Slack(f, r)
    case CCall(t, _, args) => Slack(f, t) + SlackAll(f, args)
    case COwnCall(n, args) =>
      SlackAll(f, args) + f([Identifier(n), LParen]) - f([KwThis]) - f([Dot, Identifier(n), LParen])
    case CField(o, _) => Slack(f, o)
    case CIndex(a, i) => Slack(f, a) + Slack(f, i)
    case CParen(x) => Slack(f, x)
    case _ => 0
  }

  function SlackAll(f: seq<Token> -> int, cs: seq<Cst>): int {
    if cs == [] then 0 else Slack(f, cs[0]) + SlackAll(f, cs[1..])
  }

  lemma {:induction false} PlainNoSlack(f: seq<Token> -> int, c: Cst)
    requires Measure(f) && Plain(c)
    ensures Slack(f, c) == 0
    decreases c
  {
    if c.CInt? {
      PlainNumeral(f, c);
    } else if c.CNewArray? {
      PlainNoSlack(f, c.size);
    } else if c.CUnary? {
      PlainNoSlack(f, c.operand);
    } else if c.CBinary? {
      PlainNoSlack(f, c.left);
      PlainNoSlack(f, c.right);
    } else if c.CCall? {
      PlainNoSlack(f, c.target);
      AllPlainNoSlack(f, c.args);
    } else if c.CField? {
      PlainNoSlack(f, c.base);
    } else if c.CIndex? {
      PlainNoSlack(f, c.arr);
      PlainNoSlack(f, c.index);
    } else if c.CParen? {
      PlainNoSlack(f, c.inner);
    }
  }

  lemma PlainNumeral(f: seq<Token> -> int, c: Cst)
    requires Measure(f) && Plain(c) && c.CInt?
    ensures Slack(f, c) == 0
  {
    var bare := Numeral(NumeralValue(c.numeral));
    NumeralMeasure(f, c.numeral);
    NumeralMeasure(f, bare);
    assert IsNegative(bare) <==> NumeralValue(c.numeral) < 0;
  }

  lemma {:induction false} AllPlainNoSlack(f: seq<Token> -> int, cs: seq<Cst>)
    requires Measure(f) && AllPlain(cs)
    ensures SlackAll(f, cs) == 0
    decreases cs
  {
    if cs != [] {
      PlainNoSlack(f, cs[0]);
      AllPlainNoSlack(f, cs[1..]);
    }
  }

  ghost predicate CountsReceivers(f: seq<Token> -> int) {
    Measure(f) && forall t :: f([t]) == if t == KwThis then 1 else 0
  }

  ghost predicate CountsMinuses(f: seq<Token> -> int) {
    Measure(f) && forall t :: f([t]) == if t == MinusSign then 1 else 0
  }

  /** Every token but a parenthesis counts. */
  ghost predicate CountsWords(f: seq<Token> -> int) {
    Measure(f) && (forall t :: !IsParen(t) ==> f([t]) > 0) && forall ts :: f(ts) >= 0
  }

  ghost predicate CountsNesting(f: seq<Token> -> int) {
    Measure(f) && forall t :: f([t]) == if t == LParen then 1 else if t == RParen then -1 else 0
  }

  lemma NumeralMeasure(f: seq<Token> -> int, s: string)
    requires Measure(f)
    ensures f(IntYield(s)) == f([IntLiteral("")]) + (if IsNegative(s) then f([MinusSign]) else 0)
  {
    if IsNegative(s) {
      assert IntYield(s) == [MinusSign] + [IntLiteral(s[1..])];
    }
  }

  lemma NoSlackNumeral(r: seq<Token> -> int, m: seq<Token> -> int, c: Cst)
    requires CountsReceivers(r) && CountsMinuses(m) && Spelled(c) && c.CInt?
    ensures Slack(r, c) == 0 && Slack(m, c) >= 0 && (Slack(m, c) == 0 ==> Plain(c))
  {
    var bare := Numeral(NumeralValue(c.numeral));
    NumeralMeasure(r, c.numeral);
    NumeralMeasure(m, c.numeral);
    NumeralMeasure(r, bare);
    NumeralMeasure(m, bare);
    assert IsNegative(bare) <==> NumeralValue(c.numeral) < 0;
  }

  lemma OwnCallSlack(r: seq<Token> -> int, m: seq<Token> -> int, n: string)
    requires CountsReceivers(r) && CountsMinuses(m)
    ensures r([Identifier(n), LParen]) - r([KwThis]) - r([Dot, Identifier(n), LParen]) == -1
    ensures m([Identifier(n), LParen]) - m([KwThis]) - m([Dot, Identifier(n), LParen]) == 0
  {
    assert [Identifier(n), LParen] == [Identifier(n)] + [LParen];
    assert [Dot, Identifier(n), LParen] == [Dot] + ([Identifier(n)] + [LParen]);
  }

  /** No missing `this` and no extra minus: then the tree is plain. */
  lemma {:induction false} NoSlackPlain(r: seq<Token> -> int, m: seq<Token> -> int, c: Cst)
    requires CountsReceivers(r) && CountsMinuses(m) && Spelled(c)
    ensures Slack(r, c) <= 0 && Slack(m, c) >= 0
    ensures Slack(r, c) == 0 && Slack(m, c) == 0 ==> Plain(c)
    decreases c
  {
    if c.CInt? {
      NoSlackNumeral(r, m, c);
    } else if c.CNewArray? {
      NoSlackPlain(r, m, c.size);
    } else if c.CUnary? {
      NoSlackPlain(r, m, c.operand);
    } else if c.CBinary? {
      NoSlackPlain(r, m, c.left);
      NoSlackPlain(r, m, c.right);
    } else if c.CCall? {
      NoSlackPlain(r, m, c.target);
      NoSlackAllPlain(r, m, c.args);
    } else if c.COwnCall? {
      OwnCallSlack(r, m, c.name);
      NoSlackAllPlain(r, m, c.args);
    } else if c.CField? {
      NoSlackPlain(r, m, c.base);
    } else if c.CIndex? {
      NoSlackPlain(r, m, c.arr);
      NoSlackPlain(r, m, c.index);
    } else if c.CParen? {
      NoSlackPlain(r, m, c.inner);
    }
  }

  lemma {:induction false} NoSlackAllPlain(r: seq<Token> -> int, m: seq<Token> -> int, cs: seq<Cst>)
    requires CountsReceivers(r) && CountsMinuses(m) && AllSpelled(cs)
    ensures SlackAll(r, cs) <= 0 && SlackAll(m, cs) >= 0
    ensures SlackAll(r, cs) == 0 && SlackAll(m, cs) == 0 ==> AllPlain(cs)
    decreases cs
  {
    if cs != [] {
      NoSlackPlain(r, m, cs[0]);
      NoSlackAllPlain(r, m, cs[1..]);
    }
  }

  /** The tokens of a tree measure what its meaning weighs, up to the slack; parentheses cancel out. */
  lemma {:induction false} Measured(f: seq<Token> -> int, c: Cst)
    requires Measure(f) && Spelled(c)
    ensures f(Yield(c)) == Weight(f, Strip(c)) + Slack(f, c)
    decreases c, 1
  {
    if c.CNewArray? {
      MeasuredNewArray(f, c);
    } else if c.CUnary? {
      Measured(f, c.operand);
    } else if c.CBinary? {
      MeasuredBinary(f, c);
    } else if c.CCall? {
      MeasuredCall(f, c);
    } else if c.COwnCall? {
      MeasuredOwnCall(f, c);
    } else if c.CField? {
      Measured(f, c.base);
    } else if c.CIndex? {
      MeasuredIndex(f, c);
    } else if c.CParen? {
      Measured(f, c.inner);
    }
  }

  lemma {:induction false} MeasuredNewArray(f: seq<Token> -> int, c: Cst)
    requires Measure(f) && Spelled(c) && c.CNewArray?
    ensures f(Yield(c)) == Weight(f, Strip(c)) + Slack(f, c)
    decreases c, 0
  {
    Measured(f, c.size);
    NewArrayMeasure(f, c.elem, c.dimension, c.size);
    NewArrayMeasure(f, c.elem, c.dimension, Bare(Strip(c.size)));
    NewArrayWeight(f, c);
  }

  lemma NewArrayWeight(f: seq<Token> -> int, c: Cst)
    requires c.CNewArray?
    ensures Weight(f, Strip(c)) == f(Yield(CNewArray(c.elem, c.dimension, Bare(Strip(c.size))))) && Slack(f, c) == Slack(f, c.size)
  {
    StripNewArray(c.elem, c.dimension, c.size);
    BareNewArray(c.elem, c.dimension, Strip(c.size));
  }

  lemma BareNewArray(t: BasicType, d: nat, e: Expr)
    ensures Bare(NewArray(t, d, e)) == CNewArray(t, d, Bare(e))
  {
  }

  lemma NewArrayMeasure(f: seq<Token> -> int, elem: BasicType, d: nat, size: Cst)
    requires Measure(f)
    ensures f(Yield(CNewArray(elem, d, size))) ==
      f([KwNew, BasicTypeToken(elem), LBracket]) + f(Yield(size)) + f([RBracket] + Brackets(if d == 0 then 0 else d - 1))
  {
    Parts(f, [KwNew, BasicTypeToken(elem), LBracket], Yield(size), [RBracket] + Brackets(if d == 0 then 0 else d - 1));
  }

  lemma {:induction false} MeasuredBinary(f: seq<Token> -> int, c: Cst)
    requires Measure(f) && Spelled(c) && c.CBinary?
    ensures f(Yield(c)) == Weight(f, Strip(c)) + Slack(f, c)
    decreases c, 0
  {
    Measured(f, c.left);
    Measured(f, c.right);
  }

  lemma {:induction false} MeasuredCall(f: seq<Token> -> int, c: Cst)
    requires Measure(f) && Spelled(c) && c.CCall?
    ensures f(Yield(c)) == Weight(f, Strip(c)) + Slack(f, c)
    decreases c, 0
  {
    var t, bare := Bare(Strip(c.target)), BareAll(StripAll(c.args));
    Measured(f, c.target);
    MeasuredAll(f, c.args);
    CallMeasure(f, c.target, c.name, c.args);
    CallMeasure(f, t, c.name, bare);
    CallWeight(f, c);
  }

  lemma BareCall(e: Expr, n: string, es: seq<Expr>)
    ensures Bare(Call(e, n, es)) == CCall(Bare(e), n, BareAll(es))
  {
  }

  lemma CallWeight(f: seq<Token> -> int, c: Cst)
    requires c.CCall?
    ensures Weight(f, Strip(c)) == f(Yield(CCall(Bare(Strip(c.target)), c.name, BareAll(StripAll(c.args)))))
    ensures Slack(f, c) == Slack(f, c.target) + SlackAll(f, c.args)
  {
    StripCalls(c.target, c.name, c.args);
    BareCall(Strip(c.target), c.name, StripAll(c.args));
  }

  lemma CallMeasure(f: seq<Token> -> int, t: Cst, n: string, args: seq<Cst>)
    requires Measure(f)
    ensures f(Yield(CCall(t, n, args))) == f(Yield(t)) + f([Dot, Identifier(n), LParen]) + f(YieldAll(args)) + f([RParen])
  {
    var head := [Dot, Identifier(n), LParen];
    Parts(f, head, YieldAll(args), [RParen]);
    assert f(Yield(t) + (head + (YieldAll(args) + [RParen]))) == f(Yield(t)) + f(head + (YieldAll(args) + [RParen]));
  }

  lemma {:induction false} MeasuredOwnCall(f: seq<Token> -> int, c: Cst)
    requires Measure(f) && Spelled(c) && c.COwnCall?
    ensures f(Yield(c)) == Weight(f, Strip(c)) + Slack(f, c)
    decreases c, 0
  {
    var bare := BareAll(StripAll(c.args));
    MeasuredAll(f, c.args);
    Parts(f, [Identifier(c.name), LParen], YieldAll(c.args), [RParen]);
    CallMeasure(f, CThis, c.name, bare);
    assert Yield(CThis) == [KwThis];
    assert Bare(Strip(c)) == CCall(CThis, c.name, bare);
  }

  lemma Parts(f: seq<Token> -> int, a: seq<Token>, b: seq<Token>, c: seq<Token>)
    requires Additive(f)
    ensures f(a + (b + c)) == f(a) + f(b) + f(c)
  {
  }

  lemma {:induction false} MeasuredIndex(f: seq<Token> -> int, c: Cst)
    requires Measure(f) && Spelled(c) && c.CIndex?
    ensures f(Yield(c)) == Weight(f, Strip(c)) + Slack(f, c)
    decreases c, 0
  {
    Measured(f, c.arr);
    Measured(f, c.index);
    var (a, b) := (Yield(c.index), Yield(Bare(Strip(c.index))));
  }

  lemma {:induction false} MeasuredAll(f: seq<Token> -> int, cs: seq<Cst>)
    requires Measure(f) && AllSpelled(cs)
    ensures f(YieldAll(cs)) == f(YieldAll(BareAll(StripAll(cs)))) + SlackAll(f, cs)
    decreases cs
  {
    if cs != [] {
      var bare := BareAll(StripAll(cs));
      Measured(f, cs[0]);
      MeasuredMore(f, cs[1..]);
      assert bare[1..] == BareAll(StripAll(cs[1..])) by { assert StripAll(cs)[1..] == StripAll(cs[1..]); }
    }
  }

  lemma {:induction false} MeasuredMore(f: seq<Token> -> int, cs: seq<Cst>)
    requires Measure(f) && AllSpelled(cs)
    ensures f(YieldMore(cs)) == f(YieldMore(BareAll(StripAll(cs)))) + SlackAll(f, cs)
    decreases cs
  {
    if cs != [] {
      var bare := BareAll(StripAll(cs));
      Measured(f, cs[0]);
      MeasuredMore(f, cs[1..]);
      assert bare[1..] == BareAll(StripAll(cs[1..])) by { assert StripAll(cs)[1..] == StripAll(cs[1..]); }
    }
  }

  /** The words before the root are those its meaning prescribes. */
  lemma {:induction false} PlainWords(w: seq<Token> -> int, n: seq<Token> -> int, c: Cst)
    requires Measure(w) && CountsNesting(n) && Spelled(c) && Plain(c)
    ensures w(Yield(c)) == Weight(w, Strip(c)) && n(Yield(c)) == 0
  {
    Measured(w, c);
    PlainNoSlack(w, c);
    Balanced(n, c);
  }

  lemma {:induction false} Balanced(f: seq<Token> -> int, c: Cst)
    requires CountsNesting(f)
    ensures f(Yield(c)) == 0
    decreases c, 2
  {
    if c.CNewArray? {
      NewArrayBalanced(f, c);
    } else if c.CUnary? {
      Balanced(f, c.operand);
    } else if c.CBinary? {
      Balanced(f, c.left);
      Balanced(f, c.right);
      Parts(f, Yield(c.left), [BinOpToken(c.op)], Yield(c.right));
    } else if c.CCall? || c.COwnCall? || c.CIndex? || c.CField? {
      PostfixBalanced(f, c);
    } else if c.CParen? {
      Balanced(f, c.inner);
      Parts(f, [LParen], Yield(c.inner), [RParen]);
    } else {
      LeafBalanced(f, c);
    }
  }

  lemma LeafBalanced(f: seq<Token> -> int, c: Cst)
    requires CountsNesting(f) && (c.CBool? || c.CNull? || c.CThis? || c.CVar? || c.CInt? || c.CNewObject?)
    ensures f(Yield(c)) == 0
  {
    if c.CNewObject? {
      Four(f, KwNew, Identifier(c.cls), LParen, RParen);
    } else if c.CInt? {
      NumeralMeasure(f, c.numeral);
    }
  }

  lemma Four(f: seq<Token> -> int, a: Token, b: Token, c: Token, d: Token)
    requires Additive(f)
    ensures f([a, b, c, d]) == f([a]) + f([b]) + f([c]) + f([d])
    ensures f([a, b, c]) == f([a]) + f([b]) + f([c])
    ensures f([a, b]) == f([a]) + f([b])
  {
    assert [a, b] == [a] + [b];
    assert [a, b, c] == [a, b] + [c];
    assert [a, b, c, d] == [a, b, c] + [d];
  }

  lemma {:induction false} NewArrayBalanced(f: seq<Token> -> int, c: Cst)
    requires CountsNesting(f) && c.CNewArray?
    ensures f(Yield(c)) == 0
    decreases c, 0
  {
    var k := if c.dimension == 0 then 0 else c.dimension - 1;
    Balanced(f, c.size);
    BracketsBalanced(f, k);
    Four(f, KwNew, BasicTypeToken(c.elem), LBracket, LBracket);
    Parts(f, [KwNew, BasicTypeToken(c.elem), LBracket], Yield(c.size), [RBracket] + Brackets(k));
  }

  lemma {:induction false} PostfixBalanced(f: seq<Token> -> int, c: Cst)
    requires CountsNesting(f) && (c.CCall? || c.COwnCall? || c.CIndex? || c.CField?)
    ensures f(Yield(c)) == 0
    decreases c, 1
  {
    if c.CCall? || c.COwnCall? {
      CallBalanced(f, c);
    } else if c.CField? {
      Balanced(f, c.base);
      Four(f, Dot, Identifier(c.field), Dot, Dot);
    } else {
      Balanced(f, c.arr);
      Balanced(f, c.index);
      Parts(f, Yield(c.arr), [LBracket], Yield(c.index) + [RBracket]);
    }
  }

  lemma {:induction false} CallBalanced(f: seq<Token> -> int, c: Cst)
    requires CountsNesting(f) && (c.CCall? || c.COwnCall?)
    ensures f(Yield(c)) == 0
    decreases c, 0
  {
    if c.CCall? {
      Balanced(f, c.target);
      AllBalanced(f, c.args);
      Four(f, Dot, Identifier(c.name), LParen, Dot);
      CallMeasure(f, c.target, c.name, c.args);
    } else {
      AllBalanced(f, c.args);
      Four(f, Identifier(c.name), LParen, Dot, Dot);
      Parts(f, [Identifier(c.name), LParen], YieldAll(c.args), [RParen]);
    }
  }

  lemma EmptyMeasure(f: seq<Token> -> int)
    requires Additive(f)
    ensures f([]) == 0
  {
    var none: seq<Token> := [];
    assert none + none == none;
  }

  lemma {:induction false} AllBalanced(f: seq<Token> -> int, cs: seq<Cst>)
    requires CountsNesting(f)
    ensures f(YieldAll(cs)) == 0 && f(YieldMore(cs)) == 0
    decreases cs
  {
    EmptyMeasure(f);
    if cs != [] {
      Balanced(f, cs[0]);
      AllBalanced(f, cs[1..]);
    }
  }

  lemma {:induction false} BracketsBalanced(f: seq<Token> -> int, n: nat)
    requires CountsNesting(f)
    ensures f(Brackets(n)) == 0
  {
    EmptyMeasure(f);
    if n > 0 {
      BracketsBalanced(f, n - 1);
      Four(f, LBracket, RBracket, Dot, Dot);
    }
  }

  // ---- splitting at the root ----

  function Rep(t: Token, k: nat): seq<Token> { if k == 0 then [] else [t] + Rep(t, k - 1) }

  function Depth(c: Cst): nat { if c.CParen? then 1 + Depth(c.inner) else 0 }

  function Core(c: Cst): Cst { if c.CParen? then Core(c.inner) else c }

  lemma {:induction false} RepSnoc(t: Token, k: nat)
    ensures Rep(t, k + 1) == Rep(t, k) + [t]
    ensures |Rep(t, k)| == k
  {
    if k > 0 {
      RepSnoc(t, k - 1);
    }
  }

  lemma {:induction false} RepMeasure(w: seq<Token> -> int, n: seq<Token> -> int, k: nat)
    requires CountsWords(w) && CountsNesting(n)
    ensures w(Rep(LParen, k)) == 0 && n(Rep(LParen, k)) == k
  {
    EmptyMeasure(w);
    EmptyMeasure(n);
    if k > 0 {
      RepMeasure(w, n, k - 1);
    }
  }

  lemma {:induction false} Peel(c: Cst)
    ensures !Core(c).CParen? && Strip(Core(c)) == Strip(c)
    ensures (Plain(c) ==> Plain(Core(c))) && (Spelled(c) ==> Spelled(Core(c)))
    ensures Core(c) == c || Core(c) < c
    ensures Yield(c) == Rep(LParen, Depth(c)) + (Yield(Core(c)) + Rep(RParen, Depth(c)))
  {
    if c.CParen? {
      var x := c.inner;
      Peel(x);
      var (l, y, r) := (Rep(LParen, Depth(x)), Yield(Core(x)), Rep(RParen, Depth(x)));
      RepSnoc(RParen, Depth(x));
      Splice(l, y + r, [RParen]);
      Splice(y, r, [RParen]);
      Splice([LParen], l, y + Rep(RParen, Depth(c)));
    } else {
      assert Yield(c) + [] == Yield(c);
    }
  }

  lemma {:induction false} SameCore(c: Cst, d: Cst)
    requires Core(c) == Core(d) && Depth(c) == Depth(d)
    ensures c == d
  {
    if c.CParen? {
      SameCore(c.inner, d.inner);
    }
  }

  /** The tokens before the root's own first token, that token, and the tokens after it. */
  function Before(c: Cst): seq<Token> {
    match c
    case CBinary(_, l, _) => Yield(l)
    case CCall(t, _, _) => Yield(t)
    case CField(o, _) => Yield(o)
    case CIndex(a, _) => Yield(a)
    case _ => []
  }

  function After(c: Cst): seq<Token> {
    match c
    case CBinary(_, _, r) => Yield(r)
    case CUnary(_, x) => Yield(x)
    case CCall(_, n, args) => [Identifier(n), LParen] + (YieldAll(args) + [RParen])
    case CField(_, n) => [Identifier(n)]
    case CIndex(_, i) => Yield(i) + [RBracket]
    case _ => Yield(c)[1..]
  }

  function Pivot(c: Cst): Token {
    match c
    case CBinary(op, _, _) => BinOpToken(op)
    case CCall(_, _, _) => Dot
    case CField(_, _) => Dot
    case CIndex(_, _) => LBracket
    case _ => Yield(c)[0]
  }

  function WordsBefore(w: seq<Token> -> int, e: Expr): int {
    match e
    case Binary(_, l, _) => Weight(w, l)
    case Call(t, _, _) => Weight(w, t)
    case Field(o, _) => Weight(w, o)
    case Index(a, _) => Weight(w, a)
    case _ => w([])
  }

  lemma SplitYield(c: Cst)
    requires !c.CParen? && Plain(c)
    ensures Yield(c) == Before(c) + ([Pivot(c)] + After(c)) && !IsParen(Pivot(c))
  {
    if c.CBinary? {
      SplitBinary(c);
    } else if c.CCall? || c.CField? || c.CIndex? {
      SplitAccess(c);
    } else if c.CUnary? {
      SplitUnary(c);
    } else {
      SplitFirst(c);
    }
  }

  lemma SplitBinary(c: Cst)
    requires c.CBinary?
    ensures Yield(c) == Before(c) + ([Pivot(c)] + After(c)) && !IsParen(Pivot(c))
  {
    assert !IsParen(BinOpToken(c.op));
  }

  lemma SplitUnary(c: Cst)
    requires c.CUnary?
    ensures Yield(c) == Before(c) + ([Pivot(c)] + After(c)) && !IsParen(Pivot(c))
  {
    FirstRest(Yield(c));
    assert Yield(c) == [UnOpToken(c.uop)] + Yield(c.operand);
    assert Yield(c)[1..] == Yield(c.operand);
  }

  lemma SplitAccess(c: Cst)
    requires c.CCall? || c.CField? || c.CIndex?
    ensures Yield(c) == Before(c) + ([Pivot(c)] + After(c)) && !IsParen(Pivot(c))
  {
    if c.CCall? {
      assert [Dot, Identifier(c.name), LParen] == [Dot] + [Identifier(c.name), LParen];
      Splice([Dot], [Identifier(c.name), LParen], YieldAll(c.args) + [RParen]);
    } else if c.CField? {
      assert [Dot, Identifier(c.field)] == [Dot] + [Identifier(c.field)];
    }
  }

  lemma SplitFirst(c: Cst)
    requires c.CBool? || c.CNull? || c.CThis? || c.CInt? || c.CVar? || c.CNewObject? || c.CNewArray?
    ensures Yield(c) == Before(c) + ([Pivot(c)] + After(c)) && !IsParen(Pivot(c))
  {
    assert !IsParen(Yield(c)[0]);
    FirstRest(Yield(c));
  }

  lemma FirstRest(ts: seq<Token>)
    requires ts != []
    ensures ts == [] + ([ts[0]] + ts[1..])
  {
  }

  /** The subtree in front of the root's own first token. */
  function Front(c: Cst): Option<Cst> {
    match c
    case CBinary(_, l, _) => Some(l)
    case CCall(t, _, _) => Some(t)
    case CField(o, _) => Some(o)
    case CIndex(a, _) => Some(a)
    case _ => None
  }

  lemma FrontBefore(w: seq<Token> -> int, c: Cst)
    requires Spelled(c) && Plain(c) && !c.CParen?
    ensures Front(c).None? ==> Before(c) == [] && WordsBefore(w, Strip(c)) == w([])
    ensures Front(c).Some? ==>
      var x := Front(c).value; Before(c) == Yield(x) && WordsBefore(w, Strip(c)) == Weight(w, Strip(x)) && Spelled(x) && Plain(x)
  {
  }

  lemma SplitMeasure(w: seq<Token> -> int, n: seq<Token> -> int, c: Cst)
    requires CountsWords(w) && CountsNesting(n) && Spelled(c) && Plain(c) && !c.CParen?
    ensures w(Before(c)) == WordsBefore(w, Strip(c)) && n(Before(c)) == 0
  {
    FrontBefore(w, c);
    if Front(c).Some? {
      PlainWords(w, n, Front(c).value);
    } else {
      EmptyMeasure(n);
    }
  }

  /** A word is found by counting the words before it. */
  lemma {:induction false} PivotUnique(w: seq<Token> -> int, a: seq<Token>, s: Token, b: seq<Token>, a': seq<Token>, s': Token, b': seq<Token>)
    requires CountsWords(w) && a + ([s] + b) == a' + ([s'] + b') && w(a) == w(a') && !IsParen(s) && !IsParen(s')
    ensures a == a' && s == s' && b == b'
  {
    var all := a + ([s] + b);
    if |a| < |a'| {
      PivotInside(w, a, s, b, a', all);
    } else if |a'| < |a| {
      assert all == a' + ([s'] + b');
      PivotInside(w, a', s', b', a, all);
    }
    assert a == all[..|a|] && a' == all[..|a'|];
    assert s == all[|a|] && s' == all[|a'|];
    assert b == all[|a|+1..] && b' == all[|a'|+1..];
  }

  lemma PivotInside(w: seq<Token> -> int, a: seq<Token>, s: Token, b: seq<Token>, a': seq<Token>, all: seq<Token>)
    requires CountsWords(w) && all == a + ([s] + b) && |a| < |a'| <= |all| && all[..|a'|] == a' && !IsParen(s)
    ensures w(a) < w(a')
  {
    var c := all[|a|+1..|a'|];
    assert a' == a + ([s] + c);
    assert w(a + ([s] + c)) == w(a) + w([s]) + w(c);
  }

  lemma {:induction false} SameOutside(w: seq<Token> -> int, n: seq<Token> -> int, c: Cst, d: Cst)
    requires CountsWords(w) && CountsNesting(n) && Spelled(c) && Spelled(d) && Plain(c) && Plain(d) && Strip(c) == Strip(d) && Yield(c) == Yield(d)
    ensures Depth(c) == Depth(d) && Before(Core(c)) == Before(Core(d)) && After(Core(c)) == After(Core(d))
    ensures Pivot(Core(c)) == Pivot(Core(d))
  {
    RootSplit(w, n, c);
    RootSplit(w, n, d);
    var (k, c') := (Depth(c), Core(c));
    var (m, d') := (Depth(d), Core(d));
    PivotUnique(w, Rep(LParen, k) + Before(c'), Pivot(c'), After(c') + Rep(RParen, k),
                Rep(LParen, m) + Before(d'), Pivot(d'), After(d') + Rep(RParen, m));
    CancelLeft(Rep(LParen, k), Before(c'), Before(d'));
    CancelRight(After(c'), After(d'), Rep(RParen, k));
  }

  lemma CancelLeft(p: seq<Token>, a: seq<Token>, b: seq<Token>)
    requires p + a == p + b
    ensures a == b
  {
    assert a == (p + a)[|p|..] && b == (p + b)[|p|..];
  }

  lemma CancelRight(a: seq<Token>, b: seq<Token>, s: seq<Token>)
    requires a + s == b + s
    ensures a == b
  {
    assert |a + s| == |b + s|;
    assert a == (a + s)[..|a|] && b == (b + s)[..|b|];
  }

  lemma {:induction false} RootSplit(w: seq<Token> -> int, n: seq<Token> -> int, c: Cst)
    requires CountsWords(w) && CountsNesting(n) && Spelled(c) && Plain(c)
    ensures var (k, r) := (Depth(c), Core(c));
      && Yield(c) == (Rep(LParen, k) + Before(r)) + ([Pivot(r)] + (After(r) + Rep(RParen, k)))
      && !IsParen(Pivot(r))
      && w(Rep(LParen, k) + Before(r)) == WordsBefore(w, Strip(c))
      && n(Rep(LParen, k) + Before(r)) == k
  {
    RootYield(c);
    Peel(c);
    RootMeasure(w, n, Depth(c), Core(c));
  }

  lemma RootMeasure(w: seq<Token> -> int, n: seq<Token> -> int, k: nat, r: Cst)
    requires CountsWords(w) && CountsNesting(n) && Spelled(r) && Plain(r) && !r.CParen?
    ensures w(Rep(LParen, k) + Before(r)) == WordsBefore(w, Strip(r)) && n(Rep(LParen, k) + Before(r)) == k
  {
    SplitMeasure(w, n, r);
    RepMeasure(w, n, k);
    TwoParts(w, Rep(LParen, k), Before(r));
    TwoParts(n, Rep(LParen, k), Before(r));
  }

  lemma RootYield(c: Cst)
    requires Plain(c)
    ensures var (k, r) := (Depth(c), Core(c));
      && Yield(c) == (Rep(LParen, k) + Before(r)) + ([Pivot(r)] + (After(r) + Rep(RParen, k)))
      && !IsParen(Pivot(r))
  {
    var (k, r) := (Depth(c), Core(c));
    Peel(c);
    SplitYield(r);
    RootTokens(Rep(LParen, k), Before(r), Pivot(r), After(r), Rep(RParen, k));
  }

  lemma RootTokens(l: seq<Token>, b: seq<Token>, p: Token, a: seq<Token>, r: seq<Token>)
    ensures l + ((b + ([p] + a)) + r) == (l + b) + ([p] + (a + r))
  {
    Splice(b, [p] + a, r);
    Splice([p], a, r);
    Splice(l, b, [p] + (a + r));
  }

  lemma TwoParts(f: seq<Token> -> int, a: seq<Token>, b: seq<Token>)
    requires Additive(f)
    ensures f(a + b) == f(a) + f(b)
  {
  }

  // ---- the theorem ----

  lemma {:induction false} PlainUnambiguous(w: seq<Token> -> int, n: seq<Token> -> int, c: Cst, d: Cst)
    requires CountsWords(w) && CountsNesting(n) && Spelled(c) && Spelled(d) && Plain(c) && Plain(d) && Strip(c) == Strip(d) && Yield(c) == Yield(d)
    ensures c == d
    decreases c, 2
  {
    SameOutside(w, n, c, d);
    Peel(c);
    Peel(d);
    CoreUnambiguous(w, n, Core(c), Core(d));
    SameCore(c, d);
  }

  lemma {:induction false} CoreUnambiguous(w: seq<Token> -> int, n: seq<Token> -> int, c: Cst, d: Cst)
    requires CountsWords(w) && CountsNesting(n) && Spelled(c) && Spelled(d) && Plain(c) && Plain(d) && Strip(c) == Strip(d) && !c.CParen? && !d.CParen?
    requires Before(c) == Before(d) && Pivot(c) == Pivot(d) && After(c) == After(d)
    ensures c == d
    decreases c, 1
  {
    if c.CInt? {
      NumeralUnambiguous(c.numeral, d.numeral);
    } else if c.CNewArray? {
      NewArrayUnambiguous(w, n, c, d);
    } else if c.CUnary? {
      PlainUnambiguous(w, n, c.operand, d.operand);
    } else if c.CBinary? {
      PlainUnambiguous(w, n, c.left, d.left);
      PlainUnambiguous(w, n, c.right, d.right);
    } else if c.CCall? {
      CallUnambiguous(w, n, c, d);
    } else if c.CField? {
      PlainUnambiguous(w, n, c.base, d.base);
    } else if c.CIndex? {
      IndexUnambiguous(w, n, c, d);
    }
  }

  lemma {:induction false} IndexUnambiguous(w: seq<Token> -> int, n: seq<Token> -> int, c: Cst, d: Cst)
    requires CountsWords(w) && CountsNesting(n) && Spelled(c) && Spelled(d) && Plain(c) && Plain(d)
    requires c.CIndex? && d.CIndex? && Strip(c) == Strip(d) && Before(c) == Before(d) && After(c) == After(d)
    ensures c == d
    decreases c, 0
  {
    PlainUnambiguous(w, n, c.arr, d.arr);
    CancelRight(Yield(c.index), Yield(d.index), [RBracket]);
    PlainUnambiguous(w, n, c.index, d.index);
  }

  lemma {:induction false} CallUnambiguous(w: seq<Token> -> int, n: seq<Token> -> int, c: Cst, d: Cst)
    requires CountsWords(w) && CountsNesting(n) && Spelled(c) && Spelled(d) && Plain(c) && Plain(d)
    requires c.CCall? && d.CCall? && Strip(c) == Strip(d) && Before(c) == Before(d) && After(c) == After(d)
    ensures c == d
    decreases c, 0
  {
    PlainUnambiguous(w, n, c.target, d.target);
    CancelLeft([Identifier(c.name), LParen], YieldAll(c.args) + [RParen], YieldAll(d.args) + [RParen]);
    CancelRight(YieldAll(c.args), YieldAll(d.args), [RParen]);
    AllUnambiguous(w, n, c.args, d.args);
  }

  lemma NumeralUnambiguous(s: string, s': string)
    requires IsNumeral(s) && IsNumeral(s') && IntYield(s)[0] == IntYield(s')[0] && IntYield(s)[1..] == IntYield(s')[1..]
    ensures s == s'
  {
    assert IntYield(s) == [IntYield(s)[0]] + IntYield(s)[1..];
    assert IntYield(s') == [IntYield(s')[0]] + IntYield(s')[1..];
    if IsNegative(s) {
      assert IntYield(s)[1] == IntYield(s')[1];
      assert s == "-" + s[1..] && s' == "-" + s'[1..];
    }
  }

  lemma {:induction false} NewArrayUnambiguous(w: seq<Token> -> int, n: seq<Token> -> int, c: Cst, d: Cst)
    requires CountsWords(w) && CountsNesting(n) && c.CNewArray? && d.CNewArray? && Spelled(c) && Spelled(d) && Plain(c) && Plain(d) && Strip(c) == Strip(d) && Yield(c)[1..] == Yield(d)[1..]
    ensures c == d
    decreases c, 0
  {
    PlainWords(w, n, c.size);
    PlainWords(w, n, d.size);
    SameSize(w, c, d);
    PlainUnambiguous(w, n, c.size, d.size);
  }

  lemma SameTails(c: Cst, d: Cst, head: seq<Token>, dims: seq<Token>)
    requires c.CNewArray? && d.CNewArray? && c.elem == d.elem && c.dimension == d.dimension && Yield(c)[1..] == Yield(d)[1..]
    requires head == [BasicTypeToken(c.elem), LBracket] && dims == Brackets(if c.dimension == 0 then 0 else c.dimension - 1)
    ensures head + (Yield(c.size) + ([RBracket] + dims)) == head + (Yield(d.size) + ([RBracket] + dims))
  {
    NewArrayAfter(c, head, Yield(c.size) + ([RBracket] + dims));
    NewArrayAfter(d, head, Yield(d.size) + ([RBracket] + dims));
  }

  lemma SameSize(w: seq<Token> -> int, c: Cst, d: Cst)
    requires CountsWords(w) && c.CNewArray? && d.CNewArray? && c.elem == d.elem && c.dimension == d.dimension
    requires Yield(c)[1..] == Yield(d)[1..] && w(Yield(c.size)) == w(Yield(d.size))
    ensures Yield(c.size) == Yield(d.size)
  {
    var dims := Brackets(if c.dimension == 0 then 0 else c.dimension - 1);
    var head := [BasicTypeToken(c.elem), LBracket];
    SameTails(c, d, head, dims);
    SameBetween(w, head, Yield(c.size), Yield(d.size), dims);
  }

  lemma SameBetween(w: seq<Token> -> int, head: seq<Token>, x: seq<Token>, y: seq<Token>, dims: seq<Token>)
    requires CountsWords(w) && w(x) == w(y) && head + (x + ([RBracket] + dims)) == head + (y + ([RBracket] + dims))
    ensures x == y
  {
    CancelLeft(head, x + ([RBracket] + dims), y + ([RBracket] + dims));
    PivotUnique(w, x, RBracket, dims, y, RBracket, dims);
  }

  lemma NewArrayAfter(c: Cst, head: seq<Token>, a: seq<Token>)
    requires c.CNewArray? && head == [BasicTypeToken(c.elem), LBracket]
    requires a == Yield(c.size) + ([RBracket] + Brackets(if c.dimension == 0 then 0 else c.dimension - 1))
    ensures Yield(c)[1..] == head + a
  {
    assert [KwNew, BasicTypeToken(c.elem), LBracket] == [KwNew] + head;
    Splice([KwNew], head, a);
    assert ([KwNew] + (head + a))[1..] == head + a;
  }

  lemma StripTail(cs: seq<Cst>)
    requires cs != []
    ensures StripAll(cs)[0] == Strip(cs[0]) && StripAll(cs)[1..] == StripAll(cs[1..])
  {
  }

  lemma {:induction false} AllUnambiguous(w: seq<Token> -> int, n: seq<Token> -> int, cs: seq<Cst>, ds: seq<Cst>)
    requires CountsWords(w) && CountsNesting(n)
    requires AllSpelled(cs) && AllSpelled(ds) && AllPlain(cs) && AllPlain(ds)
    requires StripAll(cs) == StripAll(ds) && YieldAll(cs) == YieldAll(ds)
    ensures cs == ds
    decreases cs, 1
  {
    if cs != [] {
      FirstUnambiguous(w, n, cs, ds);
    }
  }

  lemma {:induction false} MoreUnambiguous(w: seq<Token> -> int, n: seq<Token> -> int, cs: seq<Cst>, ds: seq<Cst>)
    requires CountsWords(w) && CountsNesting(n)
    requires AllSpelled(cs) && AllSpelled(ds) && AllPlain(cs) && AllPlain(ds)
    requires StripAll(cs) == StripAll(ds) && YieldMore(cs) == YieldMore(ds)
    ensures cs == ds
    decreases cs, 1
  {
    if cs != [] {
      CancelLeft([Comma], YieldAll(cs), YieldAll(ds));
      FirstUnambiguous(w, n, cs, ds);
    }
  }

  lemma {:induction false} FirstUnambiguous(w: seq<Token> -> int, n: seq<Token> -> int, cs: seq<Cst>, ds: seq<Cst>)
    requires CountsWords(w) && CountsNesting(n) && cs != [] && ds != []
    requires AllSpelled(cs) && AllSpelled(ds) && AllPlain(cs) && AllPlain(ds)
    requires StripAll(cs) == StripAll(ds) && Yield(cs[0]) + YieldMore(cs[1..]) == Yield(ds[0]) + YieldMore(ds[1..])
    ensures cs == ds
    decreases cs, 0
  {
    StripTail(cs);
    StripTail(ds);
    PlainWords(w, n, cs[0]);
    PlainWords(w, n, ds[0]);
    SameFirst(w, cs, ds);
    PlainUnambiguous(w, n, cs[0], ds[0]);
    MoreUnambiguous(w, n, cs[1..], ds[1..]);
    assert cs == [cs[0]] + cs[1..] && ds == [ds[0]] + ds[1..];
  }

  lemma SameFirst(w: seq<Token> -> int, cs: seq<Cst>, ds: seq<Cst>)
    requires CountsWords(w) && cs != [] && |cs| == |ds|
    requires Yield(cs[0]) + YieldMore(cs[1..]) == Yield(ds[0]) + YieldMore(ds[1..])
    requires w(Yield(cs[0])) == w(Yield(ds[0]))
    ensures Yield(cs[0]) == Yield(ds[0]) && YieldMore(cs[1..]) == YieldMore(ds[1..])
  {
    var (y, y') := (Yield(cs[0]), Yield(ds[0]));
    if |cs| == 1 {
      assert y + [] == y && y' + [] == y';
    } else {
      PivotUnique(w, y, Comma, YieldAll(cs[1..]), y', Comma, YieldAll(ds[1..]));
    }
  }

  // ---- the measures ----

  datatype Counting = Words | Nesting | ThisTokens | MinusTokens

  function Value(k: Counting, t: Token): int {
    match k
    case Words => if IsParen(t) then 0 else 1
    case Nesting => if t == LParen then 1 else if t == RParen then -1 else 0
    case ThisTokens => if t == KwThis then 1 else 0
    case MinusTokens => if t == MinusSign then 1 else 0
  }

  function Sum(k: Counting, ts: seq<Token>): int {
    if ts == [] then 0 else Value(k, ts[0]) + Sum(k, ts[1..])
  }

  lemma {:induction false} SumAppend(k: Counting, a: seq<Token>, b: seq<Token>)
    ensures Sum(k, a + b) == Sum(k, a) + Sum(k, b) && Sum(Words, a) >= 0
    decreases a
  {
    if a == [] {
      assert a + b == b;
    } else {
      SumAppend(k, a[1..], b);
      assert (a + b)[1..] == a[1..] + b;
    }
  }

  ghost function Total(k: Counting): seq<Token> -> int { ts => Sum(k, ts) }

  lemma TotalAdds(k: Counting, a: seq<Token>, b: seq<Token>)
    ensures Total(k)(a + b) == Total(k)(a) + Total(k)(b) && Total(Words)(a) >= 0
  {
    SumAppend(k, a, b);
  }

  lemma TotalOne(k: Counting, t: Token)
    ensures Total(k)([t]) == Value(k, t)
  {
    assert [t][1..] == [];
    assert Sum(k, [t]) == Value(k, t) + Sum(k, []);
  }

  lemma TotalAdditive(k: Counting)
    ensures Additive(Total(k))
  {
    forall a, b ensures Total(k)(a + b) == Total(k)(a) + Total(k)(b) { TotalAdds(k, a, b); }
  }

  lemma TotalSingles(k: Counting)
    ensures forall t :: Total(k)([t]) == Value(k, t)
  {
    forall t ensures Total(k)([t]) == Value(k, t) { TotalOne(k, t); }
  }

  lemma WordsCounted()
    ensures forall ts :: Total(Words)(ts) >= 0
  {
    forall ts ensures Total(Words)(ts) >= 0 { TotalAdds(Words, ts, []); }
  }

  lemma SumMeasures(k: Counting) returns (f: seq<Token> -> int)
    ensures Measure(f)
    ensures forall t :: f([t]) == Value(k, t)
    ensures k == Words ==> forall ts :: f(ts) >= 0
  {
    f := Total(k);
    TotalAdditive(k);
    TotalSingles(k);
    WordsCounted();
    assert Value(k, LParen) + Value(k, RParen) == 0;
    assert forall s, t :: Value(k, IntLiteral(s)) == Value(k, IntLiteral(t));
  }

  /** A spelled tree with the tokens and the meaning of a plain one is that tree. */
  lemma {:induction false} TokensDetermineTree(c: Cst, plain: Cst)
    requires Spelled(c) && Spelled(plain) && Plain(plain) && Strip(c) == Strip(plain) && Yield(c) == Yield(plain)
    ensures c == plain
  {
    var w := SumMeasures(Words);
    var n := SumMeasures(Nesting);
    var r := SumMeasures(ThisTokens);
    var m := SumMeasures(MinusTokens);
    Measured(r, c);
    Measured(m, c);
    Measured(r, plain);
    Measured(m, plain);
    PlainNoSlack(r, plain);
    PlainNoSlack(m, plain);
    NoSlackPlain(r, m, c);
    PlainUnambiguous(w, n, c, plain);
  }
}
