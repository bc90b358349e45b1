/** Printing what was read back never takes fewer tokens than were printed before. */
module ReprintGrowth {
  import opened Syntax
  import opened Grammar
  import opened Printer
  import opened Reprint

  /** How many more tokens are printed for the expression of the tree than the tree has. */
  function Growth(c: Cst, flag: bool): int { |Tokens(Strip(c), flag)| - |Yield(c)| }

  function GrowthAll(cs: seq<Cst>, flag: bool): int { |YieldAll(ConcreteAll(StripAll(cs), flag))| - |YieldAll(cs)| }

  function SuffixGrowth(s: Suffix, flag: bool): int {
    match s
    case Member(_) => 0
    case Invoke(_, args) => GrowthAll(args, flag)
    case At(i) => Growth(i, flag)
  }

  /** A pair of parentheses. */
  function Pair(flag: bool): int { if flag then 2 else 0 }

  lemma WrappedLength(c: Cst, flag: bool)
    ensures |Yield(Wrapped(c, flag))| == |Yield(c)| + Pair(flag)
  {
  }

  lemma UnaryLength(op: UnOp, x: Cst)
    ensures |Yield(CUnary(op, x))| == 1 + |Yield(x)|
  {
  }

  lemma BinaryLength(op: BinOp, l: Cst, r: Cst)
    ensures |Yield(CBinary(op, l, r))| == |Yield(l)| + 1 + |Yield(r)|
  {
  }

  lemma UnaryGrowth(op: UnOp, x: Cst, flag: bool)
    ensures Growth(CUnary(op, x), flag) == Growth(x, true) + Pair(flag)
  {
    StripUnary(op, x);
    var d := CUnary(op, Concrete(Strip(x), true));
    assert Concrete(Unary(op, Strip(x)), flag) == Wrapped(d, flag);
    WrappedLength(d, flag);
    UnaryLength(op, Concrete(Strip(x), true));
    UnaryLength(op, x);
  }

  lemma BinaryGrowth(op: BinOp, l: Cst, r: Cst, flag: bool)
    ensures Growth(CBinary(op, l, r), flag) ==
      Growth(l, op != Assign) + Growth(r, op != Assign || FlagAfter(Strip(l))) + Pair(flag)
  {
    StripBinary(op, l, r);
    var l', r' := Concrete(Strip(l), op != Assign), Concrete(Strip(r), op != Assign || FlagAfter(Strip(l)));
    assert Concrete(Binary(op, Strip(l), Strip(r)), flag) == Wrapped(CBinary(op, l', r'), flag);
    WrappedLength(CBinary(op, l', r'), flag);
    BinaryLength(op, l', r');
    BinaryLength(op, l, r);
  }

  lemma InvokeGrowth(c: Cst, n: string, args: seq<Cst>, flag: bool)
    ensures Growth(CCall(c, n, args), flag) == Growth(c, flag) + GrowthAll(args, FlagAfter(Strip(c)))
  {
    StripCalls(c, n, args);
    var c', args' := Concrete(Strip(c), flag), ConcreteAll(StripAll(args), FlagAfter(Strip(c)));
    assert Concrete(Call(Strip(c), n, StripAll(args)), flag) == CCall(c', n, args');
    PutYield(c', Invoke(n, args'));
    PutYield(c, Invoke(n, args));
  }

  lemma AtGrowth(c: Cst, i: Cst, flag: bool)
    ensures Growth(CIndex(c, i), flag) == Growth(c, flag) + Growth(i, FlagAfter(Strip(c)))
  {
    StripAccess(c, i, "");
    var c', i' := Concrete(Strip(c), flag), Concrete(Strip(i), FlagAfter(Strip(c)));
    assert Concrete(Index(Strip(c), Strip(i)), flag) == CIndex(c', i');
    PutYield(c', At(i'));
    PutYield(c, At(i));
  }

  lemma MemberGrowth(c: Cst, n: string, flag: bool)
    ensures Growth(CField(c, n), flag) == Growth(c, flag)
  {
    StripAccess(c, c, n);
    PutYield(Concrete(Strip(c), flag), Member(n));
    PutYield(c, Member(n));
  }

  lemma PutGrowth(c: Cst, s: Suffix, flag: bool)
    ensures Growth(Put(c, s), flag) == Growth(c, flag) + SuffixGrowth(s, FlagAfter(Strip(c)))
  {
    match s
    case Member(n) => MemberGrowth(c, n, flag);
    case Invoke(n, args) => InvokeGrowth(c, n, args, flag);
    case At(i) => AtGrowth(c, i, flag);
  }

  lemma {:induction false} AttachedGrowth(c: Cst, s: Suffix, flag: bool)
    ensures Growth(Attached(c, s), flag) == Growth(c, flag) + SuffixGrowth(s, FlagAfter(Strip(c)))
    decreases c
  {
    if c.CUnary? {
      var (op, x) := (c.uop, c.operand);
      AttachedGrowth(x, s, true);
      UnaryGrowth(op, x, flag);
      UnaryGrowth(op, Attached(x, s), flag);
      StripUnary(op, x);
    } else if c.CBinary? {
      var (op, l, r) := (c.op, c.left, c.right);
      AttachedGrowth(r, s, op != Assign || FlagAfter(Strip(l)));
      BinaryGrowth(op, l, r, flag);
      BinaryGrowth(op, l, Attached(r, s), flag);
      StripBinary(op, l, r);
    } else {
      PutGrowth(c, s, flag);
    }
  }

  /** The flag costs one pair of parentheses at most. */
  lemma {:induction false} FlagCosts(e: Expr)
    ensures |Tokens(e, true)| <= |Tokens(e, false)| + 2
    decreases e
  {
    match e
    case Call(t, n, args) => FlagCosts(t);
    case Field(o, n) => FlagCosts(o);
    case Index(a, i) => FlagCosts(a);
    case _ =>
  }

  lemma {:induction false} ChainedGrowth(x: Cst, r: Cst)
    ensures Growth(Chained(x, r), false) >= Growth(x, false) + Growth(r, FlagAfter(Strip(x)))
    decreases x
  {
    if x.CBinary? && x.op == Assign {
      var (a, b) := (x.left, x.right);
      ChainedGrowth(b, r);
      BinaryGrowth(Assign, a, b, false);
      BinaryGrowth(Assign, a, Chained(b, r), false);
      FlagCosts(Strip(b));
      ChainedCosts(b, r);
      StripBinary(Assign, a, b);
    } else {
      BinaryGrowth(Assign, x, r, false);
    }
  }

  lemma ChainedCosts(x: Cst, r: Cst)
    ensures Growth(Chained(x, r), true) == Growth(Chained(x, r), false) + 2
  {
    var c := Chained(x, r);
    BinaryGrowth(Assign, c.left, c.right, true);
    BinaryGrowth(Assign, c.left, c.right, false);
  }

  lemma WrappedGrowth(c: Cst, flag: bool)
    requires c.CUnary? || c.CBinary?
    ensures Growth(Wrapped(c, flag), flag) == Growth(c, false)
  {
    WrappedStrip(c, flag);
  }

  lemma {:induction false} RereadGrows(e: Expr, flag: bool)
    ensures Growth(Reread(e, flag), flag) >= 0
    decreases e, 1
  {
    match e
    case NewArray(t, d, s) =>
      RereadGrows(s, false);
      StripNewArray(t, d, Reread(s, false));
    case Unary(op, x) =>
      RereadGrows(x, true);
      UnaryGrowth(op, Reread(x, true), false);
      WrappedGrowth(CUnary(op, Reread(x, true)), flag);
    case Binary(_, _, _) => BinaryGrows(e, flag);
    case Call(_, _, _) => CallGrows(e, flag);
    case Field(o, n) =>
      RereadGrows(o, flag);
      AttachedGrowth(Reread(o, flag), Member(n), flag);
    case Index(_, _) => IndexGrows(e, flag);
    case IntLit(v) => LiteralFlag(v);
    case _ =>
  }

  lemma {:induction false} CallGrows(e: Expr, flag: bool)
    requires e.Call?
    ensures Growth(Reread(e, flag), flag) >= 0
    decreases e, 0
  {
    var (t, args) := (e.target, e.args);
    RereadGrows(t, flag);
    RereadFlag(t, flag);
    RereadAllGrows(args, FlagAfter(t));
    AttachedGrowth(Reread(t, flag), Invoke(e.name, RereadAll(args, FlagAfter(t))), flag);
  }

  lemma {:induction false} IndexGrows(e: Expr, flag: bool)
    requires e.Index?
    ensures Growth(Reread(e, flag), flag) >= 0
    decreases e, 0
  {
    var (a, i) := (e.arr, e.index);
    RereadGrows(a, flag);
    RereadFlag(a, flag);
    RereadGrows(i, FlagAfter(a));
    AttachedGrowth(Reread(a, flag), At(Reread(i, FlagAfter(a))), flag);
  }

  lemma {:induction false} BinaryGrows(e: Expr, flag: bool)
    requires e.Binary?
    ensures Growth(Reread(e, flag), flag) >= 0
    decreases e, 0
  {
    var strict, rflag := e.op != Assign, e.op != Assign || FlagAfter(e.left);
    var l, r := Reread(e.left, strict), Reread(e.right, rflag);
    RereadGrows(e.left, strict);
    RereadFlag(e.left, strict);
    RereadGrows(e.right, rflag);
    if strict {
      BinaryGrowth(e.op, l, r, false);
      WrappedGrowth(CBinary(e.op, l, r), flag);
    } else {
      ChainedGrowth(l, r);
      WrappedGrowth(Chained(l, r), flag);
    }
  }

  lemma {:induction false} RereadAllGrows(es: seq<Expr>, flag: bool)
    ensures GrowthAll(RereadAll(es, flag), flag) >= 0
    ensures |YieldMore(ConcreteAll(StripAll(RereadAll(es, flag)), flag))| >= |YieldMore(RereadAll(es, flag))|
    decreases es
  {
    if es != [] {
      var rest := RereadAll(es[1..], FlagAfter(es[0]));
      RereadGrows(es[0], flag);
      RereadFlag(es[0], flag);
      RereadAllGrows(es[1..], FlagAfter(es[0]));
      assert RereadAll(es, flag)[1..] == rest && StripAll(RereadAll(es, flag))[1..] == StripAll(rest);
      assert ConcreteAll(StripAll(RereadAll(es, flag)), flag)[1..] == ConcreteAll(StripAll(rest), FlagAfter(es[0]));
    }
  }

  /** Main result: the second printing is never shorter than the first. */
  lemma ReprintNeverShorter(e: Expr, flag: bool)
    ensures |Tokens(Strip(Reread(e, flag)), flag)| >= |Tokens(e, flag)|
  {
    RereadGrows(e, flag);
    RereadYield(e, flag);
  }
}
