/** What parsing a printed expression returns, whatever the expression, and when printing that prints the same tokens
    again. */
module Reprint {
  import opened Wrappers
  import opened Syntax
  import opened Grammar
  import opened ExprParser
  import opened ParserComplete
  import opened Printer
  import opened RoundTrip

  // ---- a postfix behind a printed operand ----

  datatype Suffix = Member(name: string) | Invoke(name: string, args: seq<Cst>) | At(index: Cst)

  function SuffixYield(s: Suffix): seq<Token> {
    match s
    case Member(n) => [Dot, Identifier(n)]
    case Invoke(n, args) => [Dot, Identifier(n), LParen] + (YieldAll(args) + [RParen])
    case At(i) => [LBracket] + (Yield(i) + [RBracket])
  }

  function Put(c: Cst, s: Suffix): Cst {
    match s
    case Member(n) => CField(c, n)
    case Invoke(n, args) => CCall(c, n, args)
    case At(i) => CIndex(c, i)
  }

  /** Without parentheses the postfix binds to the last operand. */
  function Attached(c: Cst, s: Suffix): Cst {
    match c
    case CUnary(op, x) => CUnary(op, Attached(x, s))
    case CBinary(op, l, r) => CBinary(op, l, Attached(r, s))
    case _ => Put(c, s)
  }

  lemma {:induction false} AttachedYield(c: Cst, s: Suffix)
    ensures Yield(Attached(c, s)) == Yield(c) + SuffixYield(s)
    decreases c
  {
    if c.CUnary? {
      AttachedYield(c.operand, s);
      Splice([UnOpToken(c.uop)], Yield(c.operand), SuffixYield(s));
    } else if c.CBinary? {
      AttachedYield(c.right, s);
      BinaryTokens(c, SuffixYield(s));
    } else {
      PutYield(c, s);
    }
  }

  lemma PutYield(c: Cst, s: Suffix)
    ensures Yield(Put(c, s)) == Yield(c) + SuffixYield(s)
  {
  }

  predicate SuffixFits(s: Suffix) {
    match s
    case Member(_) => true
    case Invoke(_, args) => AllSpelled(args) && AllStratified(args)
    case At(i) => Spelled(i) && Stratified(i)
  }

  lemma {:induction false} AttachedFits(c: Cst, s: Suffix)
    requires Spelled(c) && Stratified(c) && SuffixFits(s)
    ensures Spelled(Attached(c, s)) && Stratified(Attached(c, s)) && Level(Attached(c, s)) == Level(c)
    decreases c
  {
    match c
    case CUnary(op, x) =>
      AttachedFits(x, s);
      AttachedYield(x, s);
    case CBinary(op, l, r) => AttachedFits(r, s);
    case _ =>
  }

  // ---- an assignment behind a printed left side ----

  /** Without parentheses assignments associate to the right. */
  function Chained(x: Cst, r: Cst): Cst {
    if x.CBinary? && x.op == Assign then CBinary(Assign, x.left, Chained(x.right, r)) else CBinary(Assign, x, r)
  }

  lemma {:induction false} ChainedYield(x: Cst, r: Cst)
    ensures Yield(Chained(x, r)) == Yield(x) + ([BinOpToken(Assign)] + Yield(r))
    decreases x
  {
    if x.CBinary? && x.op == Assign {
      ChainedYield(x.right, r);
      Splice(Yield(x.left), [BinOpToken(Assign)] + Yield(x.right), [BinOpToken(Assign)] + Yield(r));
      Splice([BinOpToken(Assign)], Yield(x.right), [BinOpToken(Assign)] + Yield(r));
    }
  }

  lemma {:induction false} ChainedFits(x: Cst, r: Cst)
    requires Spelled(x) && Stratified(x) && Spelled(r) && Stratified(r)
    ensures Spelled(Chained(x, r)) && Stratified(Chained(x, r)) && Level(Chained(x, r)) == 1
    decreases x
  {
    OperatorToken(Assign);
    LevelBounds(x);
    LevelBounds(r);
    if x.CBinary? && x.op == Assign { ChainedFits(x.right, r); }
  }

  lemma LevelBounds(c: Cst)
    ensures 1 <= Level(c) <= 9 && (Level(c) == 1 <==> c.CBinary? && c.op == Assign)
  {
    if c.CBinary? { OperatorToken(c.op); }
  }

  // ---- the tree that is read back ----

  /** The tree the parser finds in what was printed for `e`. */
  function Reread(e: Expr, flag: bool): Cst
    decreases e
  {
    match e
    case NewArray(t, d, s) => CNewArray(t, d, Reread(s, false))
    case Unary(op, x) => Wrapped(CUnary(op, Reread(x, true)), flag)
    case Binary(op, l, r) =>
      if op == Assign then Wrapped(Chained(Reread(l, false), Reread(r, FlagAfter(l))), flag)
      else Wrapped(CBinary(op, Reread(l, true), Reread(r, true)), flag)
    case Call(t, n, args) => Attached(Reread(t, flag), Invoke(n, RereadAll(args, FlagAfter(t))))
    case Field(o, n) => Attached(Reread(o, flag), Member(n))
    case Index(a, i) => Attached(Reread(a, flag), At(Reread(i, FlagAfter(a))))
    case _ => Concrete(e, flag)
  }

  function RereadAll(es: seq<Expr>, flag: bool): (cs: seq<Cst>)
    ensures |cs| == |es|
    decreases es
  {
    if es == [] then [] else [Reread(es[0], flag)] + RereadAll(es[1..], FlagAfter(es[0]))
  }

  /** It has the tokens that were printed. */
  lemma {:induction false} RereadYield(e: Expr, flag: bool)
    ensures Yield(Reread(e, flag)) == Yield(Concrete(e, flag))
    decreases e, 1
  {
    if e.NewArray? {
      RereadYield(e.size, false);
    } else if e.Unary? {
      RereadYield(e.operand, true);
      WrappedYield(CUnary(e.uop, Reread(e.operand, true)), CUnary(e.uop, Concrete(e.operand, true)), flag);
    } else if e.Binary? {
      BinaryYield(e, flag);
    } else if e.Call? {
      CallYield(e, flag);
    } else if e.Field? {
      FieldYield(e, flag);
    } else if e.Index? {
      IndexYield(e, flag);
    }
  }

  lemma {:induction false} FieldYield(e: Expr, flag: bool)
    requires e.Field?
    ensures Yield(Reread(e, flag)) == Yield(Concrete(e, flag))
    decreases e, 0
  {
    RereadYield(e.base, flag);
    AttachedYield(Reread(e.base, flag), Member(e.field));
  }

  lemma {:induction false} BinaryYield(e: Expr, flag: bool)
    requires e.Binary?
    ensures Yield(Reread(e, flag)) == Yield(Concrete(e, flag))
    decreases e, 0
  {
    var strict, rflag := e.op != Assign, e.op != Assign || FlagAfter(e.left);
    var l, r := Reread(e.left, strict), Reread(e.right, rflag);
    RereadYield(e.left, strict);
    RereadYield(e.right, rflag);
    if !strict { ChainedYield(l, r); }
    WrappedYield(if strict then CBinary(e.op, l, r) else Chained(l, r),
      CBinary(e.op, Concrete(e.left, strict), Concrete(e.right, rflag)), flag);
  }

  lemma WrappedYield(c: Cst, d: Cst, flag: bool)
    requires Yield(c) == Yield(d)
    ensures Yield(Wrapped(c, flag)) == Yield(Wrapped(d, flag))
  {
  }

  lemma {:induction false} CallYield(e: Expr, flag: bool)
    requires e.Call?
    ensures Yield(Reread(e, flag)) == Yield(Concrete(e, flag))
    decreases e, 0
  {
    RereadYield(e.target, flag);
    RereadAllYield(e.args, FlagAfter(e.target));
    AttachedYield(Reread(e.target, flag), Invoke(e.name, RereadAll(e.args, FlagAfter(e.target))));
  }

  lemma {:induction false} IndexYield(e: Expr, flag: bool)
    requires e.Index?
    ensures Yield(Reread(e, flag)) == Yield(Concrete(e, flag))
    decreases e, 0
  {
    RereadYield(e.arr, flag);
    RereadYield(e.index, FlagAfter(e.arr));
    AttachedYield(Reread(e.arr, flag), At(Reread(e.index, FlagAfter(e.arr))));
  }

  lemma {:induction false} RereadAllYield(es: seq<Expr>, flag: bool)
    ensures YieldAll(RereadAll(es, flag)) == YieldAll(ConcreteAll(es, flag))
    ensures YieldMore(RereadAll(es, flag)) == YieldMore(ConcreteAll(es, flag))
    decreases es
  {
    if es != [] {
      RereadYield(es[0], flag);
      RereadAllYield(es[1..], FlagAfter(es[0]));
      assert RereadAll(es, flag)[1..] == RereadAll(es[1..], FlagAfter(es[0]));
      assert ConcreteAll(es, flag)[1..] == ConcreteAll(es[1..], FlagAfter(es[0]));
    }
  }

  ghost predicate TreeFits(c: Cst, flag: bool) { Spelled(c) && Stratified(c) && (flag ==> Level(c) == 9) }

  /** It is a tree of the grammar. */
  lemma {:induction false} RereadFits(e: Expr, flag: bool)
    requires Representable(e)
    ensures TreeFits(Reread(e, flag), flag)
    decreases e, 1
  {
    if e.NewArray? {
      RereadFits(e.size, false);
    } else if e.Unary? {
      UnaryFits(e, flag);
    } else if e.Binary? {
      BinaryFits(e, flag);
    } else if e.Call? {
      CallFits(e, flag);
    } else if e.Field? {
      RereadFits(e.base, flag);
      AttachedFits(Reread(e.base, flag), Member(e.field));
    } else if e.Index? {
      IndexFits(e, flag);
    } else {
      ConcreteSpells(e, flag);
    }
  }

  lemma {:induction false} UnaryFits(e: Expr, flag: bool)
    requires Representable(e) && e.Unary?
    ensures TreeFits(Reread(e, flag), flag)
    decreases e, 0
  {
    RereadFits(e.operand, true);
    RereadYield(e.operand, true);
    FlaggedStart(e.operand);
  }

  lemma {:induction false} BinaryFits(e: Expr, flag: bool)
    requires Representable(e) && e.Binary?
    ensures TreeFits(Reread(e, flag), flag)
    decreases e, 0
  {
    OperatorToken(e.op);
    if e.op == Assign {
      RereadFits(e.left, false);
      RereadFits(e.right, FlagAfter(e.left));
      ChainedFits(Reread(e.left, false), Reread(e.right, FlagAfter(e.left)));
    } else {
      RereadFits(e.left, true);
      RereadFits(e.right, true);
    }
  }

  lemma {:induction false} CallFits(e: Expr, flag: bool)
    requires Representable(e) && e.Call?
    ensures TreeFits(Reread(e, flag), flag)
    decreases e, 0
  {
    RereadFits(e.target, flag);
    RereadAllFits(e.args, FlagAfter(e.target));
    AttachedFits(Reread(e.target, flag), Invoke(e.name, RereadAll(e.args, FlagAfter(e.target))));
  }

  lemma {:induction false} IndexFits(e: Expr, flag: bool)
    requires Representable(e) && e.Index?
    ensures TreeFits(Reread(e, flag), flag)
    decreases e, 0
  {
    RereadFits(e.arr, flag);
    RereadFits(e.index, FlagAfter(e.arr));
    AttachedFits(Reread(e.arr, flag), At(Reread(e.index, FlagAfter(e.arr))));
  }

  lemma {:induction false} RereadAllFits(es: seq<Expr>, flag: bool)
    requires forall i :: 0 <= i < |es| ==> Representable(es[i])
    ensures AllSpelled(RereadAll(es, flag)) && AllStratified(RereadAll(es, flag))
    decreases es
  {
    if es != [] {
      RereadFits(es[0], flag);
      RereadAllFits(es[1..], FlagAfter(es[0]));
      assert RereadAll(es, flag)[1..] == RereadAll(es[1..], FlagAfter(es[0]));
    }
  }

  /** Main result: parsing what was printed for any expression returns the tree Reread says, and stops right after it. */
  lemma PrintedIsReread(e: Expr, flag: bool, rest: seq<Token>)
    requires Representable(e) && Stops(rest) && Prec(Cur(rest)) < 0
    ensures ParsePrec(Tokens(e, flag) + rest, 0) == Parsed(Reread(e, flag), rest)
  {
    RereadYield(e, flag);
    RereadFits(e, flag);
    ClosedComplete(Reread(e, flag), rest);
  }

  // ---- printing it again ----

  /** Printing the expression of the tree writes exactly this tree. */
  predicate Unchanged(c: Cst, flag: bool) { Concrete(Strip(c), flag) == c }

  predicate SuffixUnchanged(s: Suffix, flag: bool) {
    match s
    case Member(_) => true
    case Invoke(_, args) => ConcreteAll(StripAll(args), flag) == args
    case At(i) => Unchanged(i, flag)
  }

  function SuffixFlag(s: Suffix, flag: bool): bool {
    match s
    case Member(_) => flag
    case Invoke(_, args) => FlagAfterAll(StripAll(args), flag)
    case At(i) => FlagAfter(Strip(i))
  }

  lemma {:induction false} AttachedUnchanged(c: Cst, s: Suffix, flag: bool)
    ensures Unchanged(Attached(c, s), flag) <==> Unchanged(c, flag) && SuffixUnchanged(s, FlagAfter(Strip(c)))
    ensures FlagAfter(Strip(Attached(c, s))) == SuffixFlag(s, FlagAfter(Strip(c)))
    decreases c
  {
    if c.CUnary? {
      var (op, x) := (c.uop, c.operand);
      AttachedUnchanged(x, s, true);
      UnaryUnchanged(op, x, flag);
      UnaryUnchanged(op, Attached(x, s), flag);
    } else if c.CBinary? {
      var (op, l, r) := (c.op, c.left, c.right);
      AttachedUnchanged(r, s, op != Assign || FlagAfter(Strip(l)));
      OperandsUnchanged(op, l, r, flag);
      OperandsUnchanged(op, l, Attached(r, s), flag);
    } else {
      PutUnchanged(c, s, flag);
    }
  }

  lemma UnaryUnchanged(op: UnOp, x: Cst, flag: bool)
    ensures Unchanged(CUnary(op, x), flag) <==> !flag && Unchanged(x, true)
    ensures FlagAfter(Strip(CUnary(op, x))) == FlagAfter(Strip(x))
  {
    StripUnary(op, x);
  }

  lemma OperandsUnchanged(op: BinOp, l: Cst, r: Cst, flag: bool)
    ensures Unchanged(CBinary(op, l, r), flag) <==>
      !flag && Unchanged(l, op != Assign) && Unchanged(r, op != Assign || FlagAfter(Strip(l)))
    ensures FlagAfter(Strip(CBinary(op, l, r))) == FlagAfter(Strip(r))
  {
    StripBinary(op, l, r);
  }

  lemma PutUnchanged(c: Cst, s: Suffix, flag: bool)
    ensures Unchanged(Put(c, s), flag) <==> Unchanged(c, flag) && SuffixUnchanged(s, FlagAfter(Strip(c)))
    ensures FlagAfter(Strip(Put(c, s))) == SuffixFlag(s, FlagAfter(Strip(c)))
  {
    match s
    case Member(n) => StripAccess(c, c, n);
    case Invoke(n, args) => InvokeUnchanged(c, n, args, flag);
    case At(i) => StripAccess(c, i, "");
  }

  lemma InvokeUnchanged(c: Cst, n: string, args: seq<Cst>, flag: bool)
    ensures Unchanged(CCall(c, n, args), flag) <==> Unchanged(c, flag) && ConcreteAll(StripAll(args), FlagAfter(Strip(c))) == args
    ensures FlagAfter(Strip(CCall(c, n, args))) == FlagAfterAll(StripAll(args), FlagAfter(Strip(c)))
  {
    StripCalls(c, n, args);
  }

  /** Something to the left of an assignment sign that is not in parentheses ends in a negative literal, which leaves
      the flag set for what follows. */
  predicate Tilted(c: Cst) {
    c.CBinary? && c.op == Assign && (FlagAfter(Strip(c.left)) || Tilted(c.right))
  }

  /** An assignment without parentheses is never printed where the flag is set. */
  lemma AssignmentUnchanged(a: Cst, b: Cst, flag: bool)
    ensures Unchanged(CBinary(Assign, a, b), flag) <==> !flag && Unchanged(a, false) && Unchanged(b, FlagAfter(Strip(a)))
  {
    OperandsUnchanged(Assign, a, b, flag);
  }

  lemma {:induction false} ChainedUnchanged(x: Cst, r: Cst)
    ensures Unchanged(Chained(x, r), false) <==> Unchanged(x, false) && Unchanged(r, FlagAfter(Strip(x))) && !Tilted(x)
    ensures FlagAfter(Strip(Chained(x, r))) == FlagAfter(Strip(r))
    ensures Tilted(Chained(x, r)) <==> Tilted(x) || FlagAfter(Strip(x)) || Tilted(r)
    decreases x
  {
    if x.CBinary? && x.op == Assign {
      var (a, b) := (x.left, x.right);
      ChainedUnchanged(b, r);
      AssignmentUnchanged(a, Chained(b, r), false);
      AssignmentUnchanged(a, b, false);
      ChainedIsAssignment(b, r);
      StripBinary(Assign, a, b);
      StripBinary(Assign, a, Chained(b, r));
    } else {
      AssignmentUnchanged(x, r, false);
    }
  }

  lemma ChainedIsAssignment(x: Cst, r: Cst)
    ensures !Unchanged(Chained(x, r), true)
  {
    var c := Chained(x, r);
    AssignmentUnchanged(c.left, c.right, true);
  }

  lemma {:induction false} AttachedTilted(c: Cst, s: Suffix)
    ensures Tilted(Attached(c, s)) <==> Tilted(c)
    decreases c
  {
    if c.CBinary? { AttachedTilted(c.right, s); }
  }

  lemma WrappedUnchanged(c: Cst, flag: bool)
    requires c.CUnary? || c.CBinary?
    ensures Unchanged(Wrapped(c, flag), flag) <==> Unchanged(c, false)
  {
  }

  lemma {:induction false} RereadFlag(e: Expr, flag: bool)
    ensures FlagAfter(Strip(Reread(e, flag))) == FlagAfter(e)
    decreases e, 1
  {
    match e
    case NewArray(_, _, s) => RereadFlag(s, false);
    case Unary(_, x) => RereadFlag(x, true);
    case Binary(_, _, _) => BinaryFlag(e, flag);
    case Call(t, n, args) =>
      RereadFlag(t, flag);
      RereadAllFlag(args, FlagAfter(t));
      AttachedUnchanged(Reread(t, flag), Invoke(n, RereadAll(args, FlagAfter(t))), flag);
    case Field(o, n) =>
      RereadFlag(o, flag);
      AttachedUnchanged(Reread(o, flag), Member(n), flag);
    case Index(a, i) =>
      RereadFlag(i, FlagAfter(a));
      AttachedUnchanged(Reread(a, flag), At(Reread(i, FlagAfter(a))), flag);
    case IntLit(v) => LiteralFlag(v);
    case _ =>
  }

  lemma {:induction false} BinaryFlag(e: Expr, flag: bool)
    requires e.Binary?
    ensures FlagAfter(Strip(Reread(e, flag))) == FlagAfter(e)
    decreases e, 0
  {
    if e.op == Assign {
      var l, r := Reread(e.left, false), Reread(e.right, FlagAfter(e.left));
      RereadFlag(e.right, FlagAfter(e.left));
      ChainedUnchanged(l, r);
      WrappedStrip(Chained(l, r), flag);
    } else {
      var l, r := Reread(e.left, true), Reread(e.right, true);
      RereadFlag(e.right, true);
      StripBinary(e.op, l, r);
      WrappedStrip(CBinary(e.op, l, r), flag);
    }
  }

  lemma WrappedStrip(c: Cst, flag: bool)
    ensures Strip(Wrapped(c, flag)) == Strip(c)
  {
  }

  lemma LiteralFlag(v: int)
    ensures Strip(CInt(Numeral(v))) == IntLit(v)
  {
    DecimalValue(if v < 0 then -v else v);
    assert ("-" + Decimal(if v < 0 then -v else v))[1..] == Decimal(if v < 0 then -v else v);
    assert !IsNegative(Decimal(if v < 0 then 0 else v));
  }

  lemma {:induction false} RereadAllFlag(es: seq<Expr>, flag: bool)
    ensures FlagAfterAll(StripAll(RereadAll(es, flag)), flag) == FlagAfterAll(es, flag)
    decreases es
  {
    if es != [] {
      RereadFlag(es[0], flag);
      RereadAllFlag(es[1..], FlagAfter(es[0]));
      assert RereadAll(es, flag)[1..] == RereadAll(es[1..], FlagAfter(es[0]));
    }
  }

  /** The printed form ends in, or is, an assignment to the left of whose sign a negative literal comes last. */
  predicate Tilts(e: Expr) {
    match e
    case Binary(op, l, r) => op == Assign && (FlagAfter(l) || Tilts(l) || Tilts(r))
    case Call(t, _, _) => Tilts(t)
    case Field(o, _) => Tilts(o)
    case Index(a, _) => Tilts(a)
    case _ => false
  }

  lemma {:induction false} RereadTilts(e: Expr)
    ensures Tilted(Reread(e, false)) <==> Tilts(e)
    decreases e
  {
    match e
    case Binary(op, l, r) =>
      if op == Assign {
        RereadTilts(l);
        RereadFlag(l, false);
        ChainedUnchanged(Reread(l, false), Reread(r, FlagAfter(l)));
        if !FlagAfter(l) { RereadTilts(r); }
      }
    case Call(t, n, args) =>
      RereadTilts(t);
      AttachedTilted(Reread(t, false), Invoke(n, RereadAll(args, FlagAfter(t))));
    case Field(o, n) =>
      RereadTilts(o);
      AttachedTilted(Reread(o, false), Member(n));
    case Index(a, i) =>
      RereadTilts(a);
      AttachedTilted(Reread(a, false), At(Reread(i, FlagAfter(a))));
    case _ =>
  }

  /** No assignment has such a form on its left. */
  predicate Stable(e: Expr, flag: bool)
    decreases e
  {
    match e
    case NewArray(_, _, s) => Stable(s, false)
    case Unary(_, x) => Stable(x, true)
    case Binary(op, l, r) =>
      && (op == Assign ==> !Tilts(l))
      && Stable(l, op != Assign) && Stable(r, op != Assign || FlagAfter(l))
    case Call(t, _, args) => Stable(t, flag) && AllStable(args, FlagAfter(t))
    case Field(o, _) => Stable(o, flag)
    case Index(a, i) => Stable(a, flag) && Stable(i, FlagAfter(a))
    case _ => true
  }

  predicate AllStable(es: seq<Expr>, flag: bool)
    decreases es
  {
    es == [] || (Stable(es[0], flag) && AllStable(es[1..], FlagAfter(es[0])))
  }

  lemma {:induction false} RereadUnchanged(e: Expr, flag: bool)
    ensures Unchanged(Reread(e, flag), flag) <==> Stable(e, flag)
    decreases e, 1
  {
    match e
    case NewArray(_, _, s) => RereadUnchanged(s, false);
    case Unary(op, x) =>
      RereadUnchanged(x, true);
      WrappedUnchanged(CUnary(op, Reread(x, true)), flag);
    case Binary(_, _, _) => BinaryUnchanged(e, flag);
    case Call(_, _, _) => CallUnchanged(e, flag);
    case Field(o, n) =>
      RereadUnchanged(o, flag);
      AttachedUnchanged(Reread(o, flag), Member(n), flag);
    case Index(_, _) => IndexUnchanged(e, flag);
    case IntLit(v) => LiteralFlag(v);
    case _ =>
  }

  lemma {:induction false} CallUnchanged(e: Expr, flag: bool)
    requires e.Call?
    ensures Unchanged(Reread(e, flag), flag) <==> Stable(e, flag)
    decreases e, 0
  {
    var (t, args) := (e.target, e.args);
    RereadUnchanged(t, flag);
    RereadAllUnchanged(args, FlagAfter(t));
    RereadFlag(t, flag);
    AttachedUnchanged(Reread(t, flag), Invoke(e.name, RereadAll(args, FlagAfter(t))), flag);
  }

  lemma {:induction false} IndexUnchanged(e: Expr, flag: bool)
    requires e.Index?
    ensures Unchanged(Reread(e, flag), flag) <==> Stable(e, flag)
    decreases e, 0
  {
    var (a, i) := (e.arr, e.index);
    RereadUnchanged(a, flag);
    RereadUnchanged(i, FlagAfter(a));
    RereadFlag(a, flag);
    AttachedUnchanged(Reread(a, flag), At(Reread(i, FlagAfter(a))), flag);
  }

  lemma {:induction false} BinaryUnchanged(e: Expr, flag: bool)
    requires e.Binary?
    ensures Unchanged(Reread(e, flag), flag) <==> Stable(e, flag)
    decreases e, 0
  {
    var l, r := e.left, e.right;
    RereadFlag(l, e.op != Assign);
    RereadUnchanged(l, e.op != Assign);
    RereadUnchanged(r, e.op != Assign || FlagAfter(l));
    if e.op == Assign {
      RereadTilts(l);
      ChainedUnchanged(Reread(l, false), Reread(r, FlagAfter(l)));
      WrappedUnchanged(Chained(Reread(l, false), Reread(r, FlagAfter(l))), flag);
    } else {
      WrappedUnchanged(CBinary(e.op, Reread(l, true), Reread(r, true)), flag);
    }
  }

  lemma {:induction false} RereadAllUnchanged(es: seq<Expr>, flag: bool)
    ensures ConcreteAll(StripAll(RereadAll(es, flag)), flag) == RereadAll(es, flag) <==> AllStable(es, flag)
    decreases es
  {
    if es != [] {
      RereadUnchanged(es[0], flag);
      RereadAllUnchanged(es[1..], FlagAfter(es[0]));
      RereadFlag(es[0], flag);
      assert RereadAll(es, flag)[1..] == RereadAll(es[1..], FlagAfter(es[0]));
      assert StripAll(RereadAll(es, flag))[1..] == StripAll(RereadAll(es[1..], FlagAfter(es[0])));
    }
  }

  lemma {:induction false} SpelledIsRepresentable(c: Cst)
    requires Spelled(c)
    ensures Representable(Strip(c))
    decreases c
  {
    match c
    case CNewArray(_, _, s) => SpelledIsRepresentable(s);
    case CUnary(_, x) => SpelledIsRepresentable(x);
    case CBinary(_, l, r) =>
      SpelledIsRepresentable(l);
      SpelledIsRepresentable(r);
    case CCall(t, _, args) =>
      SpelledIsRepresentable(t);
      AllSpelledRepresentable(args);
    case COwnCall(_, args) => AllSpelledRepresentable(args);
    case CField(o, _) => SpelledIsRepresentable(o);
    case CIndex(a, i) =>
      SpelledIsRepresentable(a);
      SpelledIsRepresentable(i);
    case CParen(x) => SpelledIsRepresentable(x);
    case _ =>
  }

  lemma {:induction false} AllSpelledRepresentable(cs: seq<Cst>)
    requires AllSpelled(cs)
    ensures forall i :: 0 <= i < |StripAll(cs)| ==> Representable(StripAll(cs)[i])
    decreases cs
  {
    if cs != [] {
      SpelledIsRepresentable(cs[0]);
      AllSpelledRepresentable(cs[1..]);
    }
  }

  /** A function from tokens to the tree of the grammar that has them. */
  lemma Reader() returns (read: seq<Token> -> Cst)
    ensures forall c :: Spelled(c) && Stratified(c) ==> read(Yield(c)) == c
  {
    read := ts => var r := ParsePrec(ts + [Semicolon], 0); if r.Parsed? then r.tree else CNull;
    forall c | Spelled(c) && Stratified(c) ensures read(Yield(c)) == c { ClosedComplete(c, [Semicolon]); }
  }

  /** The grammar is unambiguous. */
  lemma SameTokensSameTree(c: Cst, d: Cst)
    requires Spelled(c) && Stratified(c) && Spelled(d) && Stratified(d) && Yield(c) == Yield(d)
    ensures c == d
  {
    var read := Reader();
    assert read(Yield(c)) == c && read(Yield(d)) == d;
  }

  /** A tree with the tokens that are printed for its expression shows that the expression is faithful. */
  lemma PrintedTreeFaithful(c: Cst, flag: bool)
    requires Spelled(c) && Stratified(c) && Tokens(Strip(c), flag) == Yield(c)
    ensures Representable(Strip(c)) && Faithful(Strip(c), flag)
  {
    TreeParses(c);
    SpelledIsRepresentable(c);
    FaithfulIfParsed(Strip(c), flag);
  }

  lemma TreeParses(c: Cst)
    requires Spelled(c) && Stratified(c)
    ensures ParsesTo(Yield(c) + [Semicolon], Strip(c), [Semicolon])
  {
    ClosedComplete(c, [Semicolon]);
  }

  lemma FaithfulIfParsed(e: Expr, flag: bool)
    requires Representable(e) && ParsesTo(Tokens(e, flag) + [Semicolon], e, [Semicolon])
    ensures Faithful(e, flag)
  {
    RoundTripExact(e, flag, [Semicolon]);
  }

  /** What the parser read back is printed as it was read only if printing it writes the very tree. */
  lemma TokensDecide(c: Cst, flag: bool)
    requires Spelled(c) && Stratified(c)
    ensures Tokens(Strip(c), flag) == Yield(c) <==> Unchanged(c, flag)
  {
    if Tokens(Strip(c), flag) == Yield(c) {
      PrintedTreeFaithful(c, flag);
      FaithfulIsStratified(Strip(c), flag);
      ConcreteSpells(Strip(c), flag);
      SameTokensSameTree(c, Concrete(Strip(c), flag));
    }
  }

  /** Main result: printing an expression, parsing the tokens and printing what was parsed gives the same tokens if and
      only if no assignment has on its left what prints as an assignment with a negative literal last before its sign. */
  lemma ReprintExact(e: Expr, flag: bool)
    requires Representable(e)
    ensures Tokens(Strip(Reread(e, flag)), flag) == Tokens(e, flag) <==> Stable(e, flag)
  {
    RereadYield(e, flag);
    RereadFits(e, flag);
    RereadUnchanged(e, flag);
    TokensDecide(Reread(e, flag), flag);
  }

  /** `(a[-1] = b) = c` is printed without parentheses; read back, it is printed as `a[-1] = (b = c)`. */
  lemma ReprintDiffers(a: string, b: string, c: string)
    ensures var e := Binary(Assign, Binary(Assign, Index(VarRef(a), IntLit(-1)), VarRef(b)), VarRef(c));
      Representable(e) && Tokens(Strip(Reread(e, false)), false) != Tokens(e, false)
  {
    var e := Binary(Assign, Binary(Assign, Index(VarRef(a), IntLit(-1)), VarRef(b)), VarRef(c));
    var x := Index(VarRef(a), IntLit(-1));
    assert Representable(VarRef(a)) && Representable(IntLit(-1));
    assert Representable(x) && FlagAfter(x);
    assert Representable(e.left) && Tilts(e.left);
    ReprintExact(e, false);
  }
}
