/** Every tree of the stratified grammar is the one the expression parser returns for its tokens. */
module ParserComplete {
  import opened Wrappers
  import opened Syntax
  import opened Grammar
  import opened ExprParser
  import opened ParserSound

  /** The last token of the tree is an identifier, which a parenthesis would turn into a call. */
  predicate EndsInName(c: Cst) {
    match c
    case CVar(_) => true
    case CField(_, _) => true
    case CUnary(_, x) => EndsInName(x)
    case CBinary(_, _, r) => EndsInName(r)
    case _ => false
  }

  /** No postfix can continue the tree before these tokens. */
  predicate StopsAfter(c: Cst, ts: seq<Token>) {
    Cur(ts) != Dot && Cur(ts) != LBracket && (Cur(ts) == LParen ==> !EndsInName(c))
  }

  /** No postfix can continue any tree before these tokens. */
  predicate Stops(ts: seq<Token>) {
    Cur(ts) != Dot && Cur(ts) != LBracket && Cur(ts) != LParen
  }

  /** A primary that ends here is not mistaken for a call or given another array dimension. */
  predicate EndsPrimary(c: Cst, ts: seq<Token>) {
    (Cur(ts) == LParen ==> !EndsInName(c)) && !NextDimension(ts)
  }

  predicate NextDimension(ts: seq<Token>) { Cur(ts) == LBracket && Ahead(ts, 1) == RBracket }

  lemma {:induction false} YieldStarts(c: Cst)
    requires Spelled(c)
    ensures StartsExpr(Yield(c)[0])
  {
    match c
    case CBinary(_, l, _) => YieldStarts(l);
    case CCall(t, _, _) => YieldStarts(t);
    case CField(o, _) => YieldStarts(o);
    case CIndex(a, _) => YieldStarts(a);
    case _ =>
  }

  /** The yield of a postfix expression once the parser has glued a leading minus onto its literal. */
  function GluedYield(c: Cst): seq<Token> {
    match c
    case CInt(s) => [IntLiteral(s)]
    case CCall(t, n, args) => GluedYield(t) + ([Dot, Identifier(n), LParen] + (YieldAll(args) + [RParen]))
    case CField(o, n) => GluedYield(o) + [Dot, Identifier(n)]
    case CIndex(a, i) => GluedYield(a) + ([LBracket] + (Yield(i) + [RBracket]))
    case _ => Yield(c)
  }

  /** The literal a postfix expression starts with, if that literal is negative. */
  function LeadingNegative(c: Cst): Option<string> {
    match c
    case CInt(s) => if IsNegative(s) then Some(s) else None
    case CCall(t, _, _) => LeadingNegative(t)
    case CField(o, _) => LeadingNegative(o)
    case CIndex(a, _) => LeadingNegative(a)
    case _ => None
  }

  lemma {:induction false} GluedLead(c: Cst)
    requires Spelled(c) && Stratified(c) && Level(c) == 9
    ensures GluedYield(c) != []
    ensures LeadingNegative(c).None? ==>
      GluedYield(c) == Yield(c) && Yield(c)[0] != MinusSign && Yield(c)[0] != Bang
    ensures LeadingNegative(c).Some? ==>
      var s := LeadingNegative(c).value;
      IsNumeral(s) && IsNegative(s) && GluedYield(c)[0] == IntLiteral(s)
      && Yield(c) == [MinusSign, IntLiteral(s[1..])] + GluedYield(c)[1..]
  {
    match c
    case CCall(t, n, args) =>
      GluedLead(t);
      GluedExtend(t, [Dot, Identifier(n), LParen] + (YieldAll(args) + [RParen]));
    case CField(o, n) =>
      GluedLead(o);
      GluedExtend(o, [Dot, Identifier(n)]);
    case CIndex(a, i) =>
      GluedLead(a);
      GluedExtend(a, [LBracket] + (Yield(i) + [RBracket]));
    case _ =>
  }

  lemma GluedExtend(c: Cst, more: seq<Token>)
    requires GluedYield(c) != []
    ensures (GluedYield(c) + more)[0] == GluedYield(c)[0]
    ensures (GluedYield(c) + more)[1..] == GluedYield(c)[1..] + more
    ensures forall m, i :: ([m, i] + GluedYield(c)[1..]) + more == [m, i] + (GluedYield(c)[1..] + more)
  {
    forall m, i ensures ([m, i] + GluedYield(c)[1..]) + more == [m, i] + (GluedYield(c)[1..] + more) {
      Splice([m, i], GluedYield(c)[1..], more);
    }
  }

  /** Started on a tree of the grammar, the parser arrives at its climbing loop with exactly that tree. */
  lemma {:induction false} PrecComplete(c: Cst, rest: seq<Token>, p: int)
    requires Spelled(c) && Stratified(c) && 0 <= p <= Level(c) && StopsAfter(c, rest) && Tight(c, rest)
    ensures ParsePrec(Yield(c) + rest, p) == Climb(c, rest, p)
    decreases c, 5
  {
    if c.CBinary? {
      BinaryComplete(c, rest, p);
    } else {
      UnaryComplete(c, rest);
    }
  }

  lemma OperatorToken(op: BinOp)
    ensures var t := BinOpToken(op); Prec(t) == OpLevel(op) && Stops([t]) && BinOpForToken(t) == op && (t == Eq <==> op == Assign)
    ensures 1 <= OpLevel(op) <= 7 && (op == Assign <==> OpLevel(op) == 1)
  {
  }

  /** How tightly the right operand of an operator has to bind. */
  function RightLevel(op: BinOp): int { if op == Assign then 1 else OpLevel(op) + 1 }

  lemma BinaryOperands(c: Cst)
    requires c.CBinary? && Spelled(c) && Stratified(c)
    ensures Spelled(c.left) && Spelled(c.right) && Stratified(c.left) && Stratified(c.right)
    ensures Level(c) == OpLevel(c.op) && Level(c.right) >= RightLevel(c.op)
    ensures Level(c.left) >= if c.op == Assign then 2 else OpLevel(c.op)
  {
  }

  /** One round of the loop. */
  lemma ClimbStep(l: Cst, op: BinOp, ts: seq<Token>, r: Cst, rest: seq<Token>, p: int)
    requires 0 <= p <= OpLevel(op) && ParsePrec(ts, RightLevel(op)) == Parsed(r, rest)
    ensures Climb(l, [BinOpToken(op)] + ts, p) == Climb(CBinary(op, l, r), rest, p)
  {
    OperatorToken(op);
    assert ([BinOpToken(op)] + ts)[1..] == ts;
  }

  lemma ClimbEnds(c: Cst, ts: seq<Token>, p: int)
    requires 0 <= p && Prec(Cur(ts)) < p
    ensures Climb(c, ts, p) == Parsed(c, ts)
  {
  }

  lemma BinaryTokens(c: Cst, rest: seq<Token>)
    requires c.CBinary?
    ensures Yield(c) + rest == Yield(c.left) + ([BinOpToken(c.op)] + (Yield(c.right) + rest))
  {
    var op := BinOpToken(c.op);
    Splice(Yield(c.left), [op] + Yield(c.right), rest);
    Splice([op], Yield(c.right), rest);
  }

  lemma {:induction false} BinaryComplete(c: Cst, rest: seq<Token>, p: int)
    requires c.CBinary? && Spelled(c) && Stratified(c) && 0 <= p <= Level(c) && StopsAfter(c, rest) && Tight(c, rest)
    ensures ParsePrec(Yield(c) + rest, p) == Climb(c, rest, p)
    decreases c, 4
  {
    var op := c.op;
    var ts := Yield(c.right) + rest;
    OperatorToken(op);
    BinaryOperands(c);
    BinaryTokens(c, rest);
    PrecComplete(c.left, [BinOpToken(op)] + ts, p);
    PrecComplete(c.right, rest, RightLevel(op));
    ClimbEnds(c.right, rest, RightLevel(op));
    ClimbStep(c.left, op, ts, c.right, rest, p);
  }

  lemma {:induction false} UnaryComplete(c: Cst, rest: seq<Token>)
    requires Spelled(c) && Stratified(c) && Level(c) >= 8 && StopsAfter(c, rest)
    ensures ParseUnary(Yield(c) + rest) == Parsed(c, rest)
    decreases c, 4
  {
    if c.CUnary? {
      UnaryComplete(c.operand, rest);
      Splice([UnOpToken(c.uop)], Yield(c.operand), rest);
      var ts := Yield(c) + rest;
      assert ts[1..] == Yield(c.operand) + rest;
      assert Ahead(ts, 1) == Yield(c.operand)[0];
    } else {
      GluedLead(c);
      PostfixComplete(c, rest);
      GluedUnary(c, rest);
    }
  }

  /** A minus and the literal behind it are read as one literal. */
  lemma GluedLiteral(s: string, more: seq<Token>)
    ensures ParseUnary([MinusSign, IntLiteral(s)] + more) == ParsePostfix([IntLiteral("-" + s)] + more)
  {
    var ts := [MinusSign, IntLiteral(s)] + more;
    assert ts[2..] == more;
  }

  lemma GluedUnary(c: Cst, rest: seq<Token>)
    requires Spelled(c) && Stratified(c) && Level(c) == 9
    ensures ParseUnary(Yield(c) + rest) == ParsePostfix(GluedYield(c) + rest)
  {
    GluedLead(c);
    if LeadingNegative(c).Some? {
      GluedNegative(c, LeadingNegative(c).value, rest);
    } else {
      PlainUnary(Yield(c), rest);
    }
  }

  lemma PlainUnary(ts: seq<Token>, rest: seq<Token>)
    requires ts != [] && ts[0] != MinusSign && ts[0] != Bang
    ensures ParseUnary(ts + rest) == ParsePostfix(ts + rest)
  {
  }

  lemma GluedNegative(c: Cst, s: string, rest: seq<Token>)
    requires IsNegative(s) && GluedYield(c) != [] && GluedYield(c)[0] == IntLiteral(s)
    requires Yield(c) == [MinusSign, IntLiteral(s[1..])] + GluedYield(c)[1..]
    ensures ParseUnary(Yield(c) + rest) == ParsePostfix(GluedYield(c) + rest)
  {
    var more := GluedYield(c)[1..];
    GluedLiteral(s[1..], more + rest);
    assert s == "-" + s[1..];
    Splice([MinusSign, IntLiteral(s[1..])], more, rest);
    assert GluedYield(c) == [IntLiteral(s)] + more;
    Splice([IntLiteral(s)], more, rest);
  }

  lemma {:induction false} PostfixComplete(c: Cst, rest: seq<Token>)
    requires Spelled(c) && Stratified(c) && Level(c) == 9 && EndsPrimary(c, rest)
    ensures ParsePostfix(GluedYield(c) + rest) == Postfix(c, rest)
    decreases c, 3
  {
    match c
    case CCall(_, _, _) => CallComplete(c, rest);
    case CField(o, n) =>
      var mid := [Dot, Identifier(n)] + rest;
      Splice(GluedYield(o), [Dot, Identifier(n)], rest);
      PostfixComplete(o, mid);
      assert mid[2..] == rest;
    case CIndex(_, _) => IndexComplete(c, rest);
    case _ => PrimaryComplete(c, rest);
  }

  lemma {:induction false} CallComplete(c: Cst, rest: seq<Token>)
    requires c.CCall? && Spelled(c) && Stratified(c) && EndsPrimary(c, rest)
    ensures ParsePostfix(GluedYield(c) + rest) == Postfix(c, rest)
    decreases c, 2
  {
    var (t, n, args) := (c.target, c.name, c.args);
    var head := [Dot, Identifier(n), LParen];
    var tail := [RParen] + rest;
    Splice(GluedYield(t), head + (YieldAll(args) + [RParen]), rest);
    Splice(head, YieldAll(args) + [RParen], rest);
    Splice(YieldAll(args), [RParen], rest);
    var mid := head + (YieldAll(args) + tail);
    PostfixComplete(t, mid);
    ArgumentsComplete(args, tail);
    assert mid[3..] == YieldAll(args) + tail;
    assert tail[1..] == rest;
    assert MemberAccess(t, mid) == Parsed(c, rest);
  }

  lemma {:induction false} IndexComplete(c: Cst, rest: seq<Token>)
    requires c.CIndex? && Spelled(c) && Stratified(c) && EndsPrimary(c, rest)
    ensures ParsePostfix(GluedYield(c) + rest) == Postfix(c, rest)
    decreases c, 2
  {
    var (a, i) := (c.arr, c.index);
    var tail := [RBracket] + rest;
    var mid := [LBracket] + (Yield(i) + tail);
    Splice(GluedYield(a), [LBracket] + (Yield(i) + [RBracket]), rest);
    Splice([LBracket], Yield(i) + [RBracket], rest);
    Splice(Yield(i), [RBracket], rest);
    YieldStarts(i);
    PostfixComplete(a, mid);
    ClosedComplete(i, tail);
    assert mid[1..] == Yield(i) + tail;
    assert tail[1..] == rest;
    IndexStep(a, mid, i, tail);
  }

  lemma IndexStep(a: Cst, ts: seq<Token>, i: Cst, tail: seq<Token>)
    requires Cur(ts) == LBracket && ParsePrec(ts[1..], 0) == Parsed(i, tail) && Cur(tail) == RBracket
    ensures Postfix(a, ts) == Postfix(CIndex(a, i), tail[1..])
  {
    assert ArrayAccess(a, ts) == Parsed(CIndex(a, i), tail[1..]);
  }

  /** An expression before a token that is neither an operator nor a postfix. */
  lemma {:induction false} ClosedComplete(c: Cst, rest: seq<Token>)
    requires Spelled(c) && Stratified(c) && StopsAfter(c, rest) && Prec(Cur(rest)) < 0
    ensures ParsePrec(Yield(c) + rest, 0) == Parsed(c, rest)
    decreases c, 6
  {
    PrecComplete(c, rest, 0);
    ClimbEnds(c, rest, 0);
  }

  lemma {:induction false} PrimaryComplete(c: Cst, rest: seq<Token>)
    requires Spelled(c) && Stratified(c) && Level(c) == 9 && EndsPrimary(c, rest)
    requires !c.CCall? && !c.CField? && !c.CIndex?
    ensures ParsePrimary(GluedYield(c) + rest) == Parsed(c, rest)
    decreases c, 2
  {
    if c.COwnCall? {
      OwnCallComplete(c, rest);
    } else if c.CParen? {
      ParenComplete(c.inner, rest);
    } else if c.CNewArray? {
      NewArrayComplete(c, rest);
    } else if c.CNewObject? {
      NewObjectComplete(c.cls, rest);
    } else {
      OneTokenComplete(c, rest);
    }
  }

  lemma NewObjectComplete(n: string, rest: seq<Token>)
    ensures ParsePrimary(Yield(CNewObject(n)) + rest) == Parsed(CNewObject(n), rest)
  {
    var ts := Yield(CNewObject(n)) + rest;
    assert ts[4..] == rest;
    assert ParseNew(ts) == Parsed(CNewObject(n), rest);
  }

  /** Literals and names. */
  lemma OneTokenComplete(c: Cst, rest: seq<Token>)
    requires Spelled(c) && (c.CVar? ==> Cur(rest) != LParen)
    requires c.CBool? || c.CNull? || c.CThis? || c.CInt? || c.CVar?
    ensures ParsePrimary(GluedYield(c) + rest) == Parsed(c, rest)
  {
    var ts := GluedYield(c) + rest;
    assert ts[1..] == rest;
    assert Ahead(ts, 1) == Cur(rest);
  }

  lemma {:induction false} OwnCallComplete(c: Cst, rest: seq<Token>)
    requires c.COwnCall? && Spelled(c) && Stratified(c)
    ensures ParsePrimary(Yield(c) + rest) == Parsed(c, rest)
    decreases c, 1
  {
    var (n, args) := (c.name, c.args);
    var tail := [RParen] + rest;
    Splice([Identifier(n), LParen], YieldAll(args) + [RParen], rest);
    Splice(YieldAll(args), [RParen], rest);
    ArgumentsComplete(args, tail);
    assert (Yield(c) + rest)[2..] == YieldAll(args) + tail;
    assert tail[1..] == rest;
  }

  lemma {:induction false} ParenComplete(x: Cst, rest: seq<Token>)
    requires Spelled(x) && Stratified(x)
    ensures ParsePrimary(Yield(CParen(x)) + rest) == Parsed(CParen(x), rest)
    decreases x, 7
  {
    ParenTokens(x, rest);
    ClosedComplete(x, [RParen] + rest);
    ParenStep(Yield(x) + ([RParen] + rest), x, rest);
  }

  lemma ParenTokens(x: Cst, rest: seq<Token>)
    ensures Yield(CParen(x)) + rest == [LParen] + (Yield(x) + ([RParen] + rest))
  {
    Splice([LParen], Yield(x) + [RParen], rest);
    Splice(Yield(x), [RParen], rest);
  }

  lemma ParenStep(ts: seq<Token>, x: Cst, rest: seq<Token>)
    requires ParsePrec(ts, 0) == Parsed(x, [RParen] + rest)
    ensures ParsePrimary([LParen] + ts) == Parsed(CParen(x), rest)
  {
    assert ([LParen] + ts)[1..] == ts && ([RParen] + rest)[1..] == rest;
  }

  lemma {:induction false} NewArrayComplete(c: Cst, rest: seq<Token>)
    requires Spelled(c) && Stratified(c) && c.CNewArray? && EndsPrimary(c, rest)
    ensures ParsePrimary(Yield(c) + rest) == Parsed(c, rest)
    decreases c, 1
  {
    var size, more := c.size, c.dimension - 1;
    NewArrayOperand(c);
    var tail := [RBracket] + (Brackets(more) + rest);
    ClosedComplete(size, tail);
    assert tail[1..] == Brackets(more) + rest;
    DimensionsComplete(1, more, rest);
    NewArrayTokens(c, rest, tail);
    NewArrayStep(Yield(c) + rest, c, tail, rest);
  }

  lemma NewArrayOperand(c: Cst)
    requires Spelled(c) && Stratified(c) && c.CNewArray?
    ensures Spelled(c.size) && Stratified(c.size) && c.dimension >= 1
  {
  }

  lemma NewArrayStep(ts: seq<Token>, c: Cst, tail: seq<Token>, rest: seq<Token>)
    requires c.CNewArray? && |ts| >= 3 && ts[0] == KwNew && ts[2] == LBracket && BasicTypeFor(ts[1]) == Some(c.elem)
    requires ParsePrec(ts[3..], 0) == Parsed(c.size, tail) && Cur(tail) == RBracket
    requires Dimensions(1, tail[1..]) == (c.dimension, rest)
    ensures ParsePrimary(ts) == Parsed(c, rest)
  {
    NewArrayResult(ts, c.elem, c.size, tail, c.dimension, rest);
    PrimaryNew(ts);
  }

  lemma NewArrayResult(ts: seq<Token>, elem: BasicType, size: Cst, tail: seq<Token>, d: nat, rest: seq<Token>)
    requires |ts| >= 3 && ts[0] == KwNew && ts[2] == LBracket && BasicTypeFor(ts[1]) == Some(elem)
    requires ParsePrec(ts[3..], 0) == Parsed(size, tail) && Cur(tail) == RBracket && Dimensions(1, tail[1..]) == (d, rest)
    ensures ParseNew(ts) == Parsed(CNewArray(elem, d, size), rest)
  {
  }

  lemma PrimaryNew(ts: seq<Token>)
    requires Cur(ts) == KwNew
    ensures ParsePrimary(ts) == ParseNew(ts)
  {
  }

  lemma NewArrayTokens(c: Cst, rest: seq<Token>, tail: seq<Token>)
    requires c.CNewArray? && c.dimension >= 1 && tail == [RBracket] + (Brackets(c.dimension - 1) + rest)
    ensures var ts := Yield(c) + rest;
      |ts| >= 3 && ts[0] == KwNew && ts[2] == LBracket && BasicTypeFor(ts[1]) == Some(c.elem)
      && ts[3..] == Yield(c.size) + tail
  {
    var (t, d, s) := (c.elem, c.dimension, c.size);
    var head := [KwNew, BasicTypeToken(t), LBracket];
    Splice(head, Yield(s) + ([RBracket] + Brackets(d - 1)), rest);
    Splice(Yield(s), [RBracket] + Brackets(d - 1), rest);
    Splice([RBracket], Brackets(d - 1), rest);
  }

  lemma {:induction false} DimensionsComplete(d: nat, n: nat, rest: seq<Token>)
    requires !NextDimension(rest)
    ensures Dimensions(d, Brackets(n) + rest) == (d + n, rest)
    decreases n
  {
    if n > 0 {
      DimensionsComplete(d + 1, n - 1, rest);
      assert (Brackets(n) + rest)[2..] == Brackets(n - 1) + rest;
    } else {
      assert Brackets(n) + rest == rest;
    }
  }

  lemma {:induction false} ArgumentsComplete(args: seq<Cst>, rest: seq<Token>)
    requires AllSpelled(args) && AllStratified(args) && Cur(rest) == RParen
    ensures ParseArguments(YieldAll(args) + rest) == Parsed(args, rest)
    decreases args
  {
    if args == [] {
      assert YieldAll(args) + rest == rest;
    } else {
      var mid := YieldMore(args[1..]) + rest;
      Splice(Yield(args[0]), YieldMore(args[1..]), rest);
      YieldStarts(args[0]);
      ClosedComplete(args[0], mid);
      MoreComplete([args[0]], args[1..], rest);
      assert [args[0]] + args[1..] == args;
    }
  }

  lemma {:induction false} MoreComplete(done: seq<Cst>, args: seq<Cst>, rest: seq<Token>)
    requires AllSpelled(args) && AllStratified(args) && Cur(rest) == RParen
    ensures MoreArguments(done, YieldMore(args) + rest) == Parsed(done + args, rest)
    decreases args
  {
    if args == [] {
      assert YieldMore(args) + rest == rest;
      assert done + args == done;
    } else {
      var mid := YieldMore(args[1..]) + rest;
      Splice([Comma], Yield(args[0]) + YieldMore(args[1..]), rest);
      Splice(Yield(args[0]), YieldMore(args[1..]), rest);
      ClosedComplete(args[0], mid);
      MoreComplete(done + [args[0]], args[1..], rest);
      assert (done + [args[0]]) + args[1..] == done + args;
      assert (YieldMore(args) + rest)[1..] == Yield(args[0]) + mid;
    }
  }

  // ---- what the parser returns is never extended ----

  lemma {:induction false} PrecEnds(ts: seq<Token>, p: int)
    requires p >= 0 && ParsePrec(ts, p).Parsed?
    ensures var r := ParsePrec(ts, p); StopsAfter(r.tree, r.rest) && Prec(Cur(r.rest)) < p
    decreases |ts|, 5
  {
    UnaryEnds(ts);
    var u := ParseUnary(ts);
    ClimbStops(u.tree, u.rest, p);
  }

  lemma {:induction false} ClimbStops(l: Cst, ts: seq<Token>, p: int)
    requires p >= 0 && StopsAfter(l, ts) && Climb(l, ts, p).Parsed?
    ensures var r := Climb(l, ts, p); StopsAfter(r.tree, r.rest) && Prec(Cur(r.rest)) < p
    decreases |ts|, 6
  {
    var prec := Prec(Cur(ts));
    if prec >= p {
      var q := if ts[0] == Eq then prec else prec + 1;
      PrecEnds(ts[1..], q);
      var rhs := ParsePrec(ts[1..], q);
      ClimbStops(CBinary(BinOpForToken(ts[0]), l, rhs.tree), rhs.rest, p);
    }
  }

  lemma {:induction false} UnaryEnds(ts: seq<Token>)
    requires ParseUnary(ts).Parsed?
    ensures var r := ParseUnary(ts); StopsAfter(r.tree, r.rest)
    decreases |ts|, 4
  {
    if Cur(ts) == Bang {
      UnaryEnds(ts[1..]);
    } else if Cur(ts) == MinusSign {
      if Ahead(ts, 1).IntLiteral? {
        PostfixEnds([IntLiteral("-" + ts[1].str)] + ts[2..]);
      } else {
        UnaryEnds(ts[1..]);
      }
    } else {
      PostfixEnds(ts);
    }
  }

  lemma PostfixEnds(ts: seq<Token>)
    requires ParsePostfix(ts).Parsed?
    ensures var r := ParsePostfix(ts); StopsAfter(r.tree, r.rest)
  {
    PrimaryEnds(ts);
    var q := ParsePrimary(ts);
    PostfixStops(q.tree, q.rest);
  }

  lemma {:induction false} PostfixStops(l: Cst, ts: seq<Token>)
    requires (Cur(ts) == LParen ==> !EndsInName(l)) && Postfix(l, ts).Parsed?
    ensures var r := Postfix(l, ts); StopsAfter(r.tree, r.rest)
    decreases |ts|
  {
    if Cur(ts) == Dot {
      var m := MemberAccess(l, ts);
      if Ahead(ts, 2) != LParen { assert Cur(ts[2..]) == Ahead(ts, 2); }
      PostfixStops(m.tree, m.rest);
    } else if Cur(ts) == LBracket {
      var m := ArrayAccess(l, ts);
      PostfixStops(m.tree, m.rest);
    }
  }

  lemma PrimaryEnds(ts: seq<Token>)
    requires ParsePrimary(ts).Parsed?
    ensures var r := ParsePrimary(ts); Cur(r.rest) == LParen ==> !EndsInName(r.tree)
  {
    if Cur(ts).Identifier? && Ahead(ts, 1) != LParen { assert Cur(ts[1..]) == Ahead(ts, 1); }
    if Cur(ts) == KwNew { NewNoName(ts); }
  }

  lemma NewNoName(ts: seq<Token>)
    requires Cur(ts) == KwNew && ParseNew(ts).Parsed?
    ensures !EndsInName(ParseNew(ts).tree)
  {
  }

  /** Main result: precedence climbing returns a tree exactly when the input starts with a derivation of the stratified
      grammar that neither an operator nor a postfix nor a parenthesis extends; then it returns that very tree. */
  lemma {:induction false} ClimbingIsTheGrammar(ts: seq<Token>, p: int, c: Cst, rest: seq<Token>)
    requires Lexed(ts) && 0 <= p <= 8
    ensures ParsePrec(ts, p) == Parsed(c, rest) <==>
      Derives(ts, c, rest) && Level(c) >= p && Prec(Cur(rest)) < p && StopsAfter(c, rest)
  {
    if ParsePrec(ts, p) == Parsed(c, rest) {
      PrecSound(ts, p);
      PrecEnds(ts, p);
    }
    if Derives(ts, c, rest) && Level(c) >= p && Prec(Cur(rest)) < p && StopsAfter(c, rest) {
      PrecComplete(c, rest, p);
    }
  }
}
