/** The pretty printer of pprinter.hpp:142-363 at token level: the parentheses of every expression depend on one
    mutable flag that leaks from node to node and from statement to statement. */
module Printer {
  import opened Wrappers
  import opened Syntax
  import opened Grammar

  /** The concrete tree that is printed for `e` when requireParenthesis is `flag` on entry. */
  function Concrete(e: Expr, flag: bool): Cst
    decreases e
  {
    match e
    case BoolLit(b) => CBool(b)
    case NullLit => CNull
    case ThisLit => CThis
    case IntLit(v) => Wrapped(CInt(Numeral(v)), flag)
    case VarRef(n) => CVar(n)
    case NewObject(n) => CNewObject(n)
    case NewArray(t, d, s) => CNewArray(t, d, Concrete(s, false))
    case Unary(op, x) => Wrapped(CUnary(op, Concrete(x, true)), flag)
    case Binary(op, l, r) =>
      var strict := op != Assign;
      Wrapped(CBinary(op, Concrete(l, strict), Concrete(r, strict || FlagAfter(l))), flag)
    case Call(t, n, args) => CCall(Concrete(t, flag), n, ConcreteAll(args, FlagAfter(t)))
    case Field(o, n) => CField(Concrete(o, flag), n)
    case Index(a, i) => CIndex(Concrete(a, flag), Concrete(i, FlagAfter(a)))
  }

  function ConcreteAll(es: seq<Expr>, flag: bool): (cs: seq<Cst>)
    ensures |cs| == |es|
    decreases es
  {
    if es == [] then [] else [Concrete(es[0], flag)] + ConcreteAll(es[1..], FlagAfter(es[0]))
  }

  function Wrapped(c: Cst, flag: bool): Cst { if flag then CParen(c) else c }

  /** The flag a visit leaves behind: set exactly when the last literal it visited is a negative number. */
  function FlagAfter(e: Expr): bool {
    match e
    case IntLit(v) => v < 0
    case NewArray(_, _, s) => FlagAfter(s)
    case Unary(_, x) => FlagAfter(x)
    case Binary(_, _, r) => FlagAfter(r)
    case Call(t, _, args) => FlagAfterAll(args, FlagAfter(t))
    case Field(o, _) => FlagAfter(o)
    case Index(_, i) => FlagAfter(i)
    case _ => false
  }

  function FlagAfterAll(es: seq<Expr>, flag: bool): bool {
    if es == [] then flag else FlagAfterAll(es[1..], FlagAfter(es[0]))
  }

  // ---- statements ----

  function Tokens(e: Expr, flag: bool): seq<Token> { Yield(Concrete(e, flag)) }

  /** containsNothingExceptOneSingleLonelyEmptyExpression, as parseBlock computes it. */
  predicate Lonely(s: Stmt) {
    s.Block? && AllLonely(s.stmts)
  }

  predicate AllLonely(ss: seq<Stmt>) {
    ss == [] || ((ss[0] == Empty || Lonely(ss[0])) && AllLonely(ss[1..]))
  }

  /** The tokens printed for a statement when requireParenthesis is `flag` on entry. */
  function PrintStmt(s: Stmt, flag: bool): seq<Token>
    decreases s, 1
  {
    match s
    case Empty => []
    case Block(ss) => if Lonely(s) then [LBrace, RBrace] else [LBrace] + (PrintAll(ss, flag) + [RBrace])
    case ExprStmt(e) => Tokens(e, flag) + [Semicolon]
    case If(c, t, e) =>
      [KwIf, LParen] + (Tokens(c, flag) + ([RParen] + (PrintBranch(t, FlagAfter(c)) + PrintElse(e, StmtFlag(t, FlagAfter(c))))))
    case While(c, b) => [KwWhile, LParen] + (Tokens(c, flag) + ([RParen] + PrintBranch(b, FlagAfter(c))))
    case Return(None) => [KwReturn, Semicolon]
    case Return(Some(e)) => [KwReturn] + (Tokens(e, flag) + [Semicolon])
    case VarDecl(t, n, None) => TypeTokens(t) + [Identifier(n), Semicolon]
    case VarDecl(t, n, Some(e)) => TypeTokens(t) + ([Identifier(n), Eq] + (Tokens(e, flag) + [Semicolon]))
  }

  function PrintAll(ss: seq<Stmt>, flag: bool): seq<Token>
    decreases ss, 0
  {
    if ss == [] then [] else PrintStmt(ss[0], flag) + PrintAll(ss[1..], StmtFlag(ss[0], flag))
  }

  function PrintBranch(s: Stmt, flag: bool): seq<Token>
    decreases s, 2
  {
    if s == Empty then [LBrace, RBrace]
    else if s.Block? then PrintStmt(s, flag)
    else [LBrace] + (PrintStmt(s, flag) + [RBrace])
  }

  function PrintElse(s: Stmt, flag: bool): seq<Token>
    decreases s, 2
  {
    if s == Empty || Lonely(s) then []
    else if s.Block? then [KwElse] + PrintStmt(s, flag)
    else [KwElse, LBrace] + (PrintStmt(s, flag) + [RBrace])
  }

  function TypeTokens(t: Type): seq<Token> { [BasicTypeToken(t.basic)] + Brackets(t.dimension) }

  /** The flag after printing a statement. */
  function StmtFlag(s: Stmt, flag: bool): bool {
    match s
    case Block(ss) => StmtFlagAll(ss, flag)
    case ExprStmt(e) => FlagAfter(e)
    case If(c, t, e) => StmtFlag(e, StmtFlag(t, FlagAfter(c)))
    case While(c, b) => StmtFlag(b, FlagAfter(c))
    case Return(Some(e)) => FlagAfter(e)
    case VarDecl(_, _, Some(e)) => FlagAfter(e)
    case _ => flag
  }

  function StmtFlagAll(ss: seq<Stmt>, flag: bool): bool {
    if ss == [] then flag else StmtFlagAll(ss[1..], StmtFlag(ss[0], flag))
  }

  /** Statements whose printing is skipped do not touch the flag. */
  lemma {:induction false} LonelyFlag(s: Stmt, flag: bool)
    requires Lonely(s)
    ensures StmtFlag(s, flag) == flag
    decreases s
  {
    LonelyAllFlag(s.stmts, flag);
  }

  lemma {:induction false} LonelyAllFlag(ss: seq<Stmt>, flag: bool)
    requires AllLonely(ss)
    ensures StmtFlagAll(ss, flag) == flag
    decreases ss
  {
    if ss != [] {
      if ss[0] != Empty {
        LonelyFlag(ss[0], flag);
      }
      LonelyAllFlag(ss[1..], flag);
    }
  }

  /** The statements from `i` on: that one, then the others. */
  lemma PrintFrom(ss: seq<Stmt>, i: nat, flag: bool)
    requires i < |ss|
    ensures PrintAll(ss[i..], flag) == PrintStmt(ss[i], flag) + PrintAll(ss[i+1..], StmtFlag(ss[i], flag))
    ensures StmtFlagAll(ss[i..], flag) == StmtFlagAll(ss[i+1..], StmtFlag(ss[i], flag))
  {
    assert ss[i..][1..] == ss[i+1..];
  }

  class PrettyPrinter {
    var stream: seq<Token>
    var requireParenthesis: bool

    constructor (flag: bool)
      ensures stream == [] && requireParenthesis == flag
    {
      stream, requireParenthesis := [], flag;
    }

    method Put(ts: seq<Token>)
      modifies this`stream
      ensures stream == old(stream) + ts
    {
      stream := stream + ts;
    }

    /** accept() on an expression: dispatches to the visitor of its class. */
    method Visit(e: Expr)
      modifies this
      ensures stream == old(stream) + Yield(Concrete(e, old(requireParenthesis)))
      ensures requireParenthesis == FlagAfter(e)
      decreases e, 3
    {
      if e.NewArray? {
        VisitNewArray(e);
      } else if e.Call? {
        VisitCall(e);
      } else if e.Field? {
        VisitField(e);
      } else if e.Index? {
        VisitIndex(e);
      } else if e.IntLit? || e.Unary? || e.Binary? {
        MaybePlaceParenthesis(e);
      } else {
        VisitAtom(e);
      }
    }

    method VisitAtom(e: Expr)
      requires e.BoolLit? || e.NullLit? || e.ThisLit? || e.VarRef? || e.NewObject?
      modifies this
      ensures stream == old(stream) + Yield(Concrete(e, old(requireParenthesis)))
      ensures requireParenthesis == FlagAfter(e)
    {
      requireParenthesis := false;
      match e {
        case BoolLit(b) => Put([if b then KwTrue else KwFalse]);
        case NullLit => Put([KwNull]);
        case ThisLit => Put([KwThis]);
        case VarRef(n) => Put([Identifier(n)]);
        case NewObject(n) => Put([KwNew, Identifier(n), LParen, RParen]);
      }
    }

    method MaybePlaceParenthesis(e: Expr)
      requires e.IntLit? || e.Unary? || e.Binary?
      modifies this
      ensures stream == old(stream) + Yield(Concrete(e, old(requireParenthesis)))
      ensures requireParenthesis == FlagAfter(e)
      decreases e, 2
    {
      if requireParenthesis {
        ghost var inner := Yield(Concrete(e, false));
        requireParenthesis := false;
        Put([LParen]);
        VisitHelper(e);
        Put([RParen]);
        Splice(old(stream), [LParen], inner);
        Splice(old(stream), [LParen] + inner, [RParen]);
        Splice([LParen], inner, [RParen]);
        assert Concrete(e, true) == CParen(Concrete(e, false));
      } else {
        VisitHelper(e);
      }
    }

    /** visitIntLiteralHelper, visitUnaryExpressionHelper and visitBinaryExpressionHelper. */
    method VisitHelper(e: Expr)
      requires (e.IntLit? || e.Unary? || e.Binary?) && !requireParenthesis
      modifies this
      ensures stream == old(stream) + Yield(Concrete(e, false))
      ensures requireParenthesis == FlagAfter(e)
      decreases e, 1
    {
      match e {
        case IntLit(v) =>
          requireParenthesis := v < 0;
          Put(IntYield(Numeral(v)));
        case Unary(op, x) =>
          Put([UnOpToken(op)]);
          requireParenthesis := true;
          Visit(x);
          Splice(old(stream), [UnOpToken(op)], Yield(Concrete(x, true)));
        case Binary(op, l, r) =>
          if op != Assign {
            requireParenthesis := true;
          }
          Visit(l);
          Put([BinOpToken(op)]);
          if op != Assign {
            requireParenthesis := true;
          }
          ghost var right := Yield(Concrete(r, requireParenthesis));
          ghost var left := Yield(Concrete(l, op != Assign));
          Visit(r);
          Splice(old(stream), left, [BinOpToken(op)]);
          Splice(old(stream), left + [BinOpToken(op)], right);
          Splice(left, [BinOpToken(op)], right);
      }
    }

    method VisitField(e: Expr)
      requires e.Field?
      modifies this
      ensures stream == old(stream) + Yield(Concrete(e, old(requireParenthesis)))
      ensures requireParenthesis == FlagAfter(e)
      decreases e, 1
    {
      ghost var flag := requireParenthesis;
      Visit(e.base);
      Put([Dot, Identifier(e.field)]);
      Splice(old(stream), Yield(Concrete(e.base, flag)), [Dot, Identifier(e.field)]);
    }

    method VisitIndex(e: Expr)
      requires e.Index?
      modifies this
      ensures stream == old(stream) + Yield(Concrete(e, old(requireParenthesis)))
      ensures requireParenthesis == FlagAfter(e)
      decreases e, 1
    {
      ghost var a := Yield(Concrete(e.arr, requireParenthesis));
      ghost var i := Yield(Concrete(e.index, FlagAfter(e.arr)));
      Visit(e.arr);
      Put([LBracket]);
      Visit(e.index);
      Put([RBracket]);
      Splice(old(stream) + a, [LBracket], i);
      Splice(old(stream) + a, [LBracket] + i, [RBracket]);
      Splice([LBracket], i, [RBracket]);
      Splice(old(stream), a, [LBracket] + (i + [RBracket]));
    }

    method VisitNewArray(e: Expr)
      requires e.NewArray?
      modifies this
      ensures stream == old(stream) + Yield(Concrete(e, old(requireParenthesis)))
      ensures requireParenthesis == FlagAfter(e)
      decreases e, 1
    {
      ghost var head := [KwNew, BasicTypeToken(e.elem), LBracket];
      ghost var size := Yield(Concrete(e.size, false));
      ghost var dims := if e.dimension == 0 then 0 else e.dimension - 1;
      requireParenthesis := false;
      Put([KwNew, BasicTypeToken(e.elem), LBracket]);
      Visit(e.size);
      Put([RBracket]);
      ghost var before := stream;
      var i := 1;
      while i < e.dimension
        invariant 1 <= i && (i <= e.dimension || i == 1)
        invariant requireParenthesis == FlagAfter(e)
        invariant stream == before + Brackets(i - 1)
      {
        BracketsSnoc(i - 1);
        Splice(before, Brackets(i - 1), [LBracket, RBracket]);
        Put([LBracket, RBracket]);
        i := i + 1;
      }
      Splice(old(stream), head, size);
      Splice(old(stream), head + size, [RBracket]);
      Splice(old(stream), (head + size) + [RBracket], Brackets(dims));
      Splice(head + size, [RBracket], Brackets(dims));
      Splice(head, size, [RBracket] + Brackets(dims));
    }

    method VisitCall(e: Expr)
      requires e.Call?
      modifies this
      ensures stream == old(stream) + Yield(Concrete(e, old(requireParenthesis)))
      ensures requireParenthesis == FlagAfter(e)
      decreases e, 1
    {
      ghost var target := Yield(Concrete(e.target, requireParenthesis));
      ghost var head := [Dot, Identifier(e.name), LParen];
      ghost var args := YieldAll(ConcreteAll(e.args, FlagAfter(e.target)));
      Visit(e.target);
      Put([Dot, Identifier(e.name), LParen]);
      VisitArguments(e);
      Put([RParen]);
      Splice(old(stream) + target, head, args);
      Splice(old(stream) + target, head + args, [RParen]);
      Splice(head, args, [RParen]);
      Splice(old(stream), target, head + (args + [RParen]));
    }

    method VisitArguments(e: Expr)
      requires e.Call?
      modifies this
      ensures stream == old(stream) + YieldAll(ConcreteAll(e.args, old(requireParenthesis)))
      ensures requireParenthesis == FlagAfterAll(e.args, old(requireParenthesis))
      decreases e, 0
    {
      var args := e.args;
      if |args| >= 1 {
        ghost var flag := requireParenthesis;
        Visit(args[0]);
        ghost var tail := ConcreteAll(args[1..], requireParenthesis);
        assert ConcreteAll(args, flag)[1..] == tail;
        Splice(old(stream), Yield(Concrete(args[0], flag)), YieldMore(tail));
        var i := 1;
        while i < |args|
          invariant 1 <= i <= |args|
          invariant FlagAfterAll(args, flag) == FlagAfterAll(args[i..], requireParenthesis)
          invariant old(stream) + YieldAll(ConcreteAll(args, flag))
                    == stream + YieldMore(ConcreteAll(args[i..], requireParenthesis))
        {
          ghost var was := stream;
          ghost var c := Concrete(args[i], requireParenthesis);
          ghost var more := ConcreteAll(args[i+1..], FlagAfter(args[i]));
          assert args[i..][1..] == args[i+1..];
          assert ConcreteAll(args[i..], requireParenthesis)[1..] == more;
          Put([Comma]);
          Visit(args[i]);
          Splice(was, [Comma], Yield(c) + YieldMore(more));
          Splice(was + [Comma], Yield(c), YieldMore(more));
          i := i + 1;
        }
      }
    }

    // ---- statements ----

    method VisitStatement(s: Stmt)
      modifies this
      ensures stream == old(stream) + PrintStmt(s, old(requireParenthesis))
      ensures requireParenthesis == StmtFlag(s, old(requireParenthesis))
      decreases s, 2
    {
      if s.Block? {
        VisitBlock(s);
      } else if s.If? {
        VisitIf(s);
      } else if s.While? {
        VisitWhile(s);
      } else if s.VarDecl? {
        VisitVariableDeclaration(s);
      } else {
        VisitSimpleStatement(s);
      }
    }

    method VisitSimpleStatement(s: Stmt)
      requires s.Empty? || s.ExprStmt? || s.Return?
      modifies this
      ensures stream == old(stream) + PrintStmt(s, old(requireParenthesis))
      ensures requireParenthesis == StmtFlag(s, old(requireParenthesis))
    {
      ghost var flag := requireParenthesis;
      if s.ExprStmt? {
        Visit(s.e);
        Put([Semicolon]);
        Splice(old(stream), Tokens(s.e, flag), [Semicolon]);
      } else if s.Return? && s.result.Some? {
        var e := s.result.value;
        Put([KwReturn]);
        Visit(e);
        Put([Semicolon]);
        Splice(old(stream) + [KwReturn], Tokens(e, flag), [Semicolon]);
        Splice(old(stream), [KwReturn], Tokens(e, flag) + [Semicolon]);
      } else if s.Return? {
        Put([KwReturn, Semicolon]);
      }
    }

    method VisitVariableDeclaration(s: Stmt)
      requires s.VarDecl?
      modifies this
      ensures stream == old(stream) + PrintStmt(s, old(requireParenthesis))
      ensures requireParenthesis == StmtFlag(s, old(requireParenthesis))
    {
      ghost var flag := requireParenthesis;
      ghost var ty := TypeTokens(s.ty);
      VisitType(s.ty);
      if s.init.Some? {
        var e := s.init.value;
        Put([Identifier(s.name), Eq]);
        Visit(e);
        Put([Semicolon]);
        Splice(old(stream) + ty + [Identifier(s.name), Eq], Tokens(e, flag), [Semicolon]);
        Splice(old(stream) + ty, [Identifier(s.name), Eq], Tokens(e, flag) + [Semicolon]);
        Splice(old(stream), ty, [Identifier(s.name), Eq] + (Tokens(e, flag) + [Semicolon]));
      } else {
        Put([Identifier(s.name), Semicolon]);
        Splice(old(stream), ty, [Identifier(s.name), Semicolon]);
      }
    }

    method VisitType(t: Type)
      modifies this`stream
      ensures stream == old(stream) + TypeTokens(t)
    {
      Put([BasicTypeToken(t.basic)]);
      ghost var before := stream;
      var i := 0;
      while i < t.dimension
        invariant 0 <= i <= t.dimension && stream == before + Brackets(i)
      {
        BracketsSnoc(i);
        Splice(before, Brackets(i), [LBracket, RBracket]);
        Put([LBracket, RBracket]);
        i := i + 1;
      }
      Splice(old(stream), [BasicTypeToken(t.basic)], Brackets(t.dimension));
    }

    method VisitBlock(s: Stmt)
      requires s.Block?
      modifies this
      ensures stream == old(stream) + PrintStmt(s, old(requireParenthesis))
      ensures requireParenthesis == StmtFlag(s, old(requireParenthesis))
      decreases s, 1
    {
      ghost var flag := requireParenthesis;
      Put([LBrace]);
      if Lonely(s) {
        LonelyFlag(s, flag);
        Put([RBrace]);
        Splice(old(stream), [LBrace], [RBrace]);
      } else {
        VisitStatements(s);
        Put([RBrace]);
        ghost var inner := PrintAll(s.stmts, flag);
        Splice(old(stream) + [LBrace], inner, [RBrace]);
        Splice(old(stream), [LBrace], inner + [RBrace]);
      }
    }

    /** The statement loop of visitBlock. */
    method VisitStatements(s: Stmt)
      requires s.Block?
      modifies this
      ensures stream == old(stream) + PrintAll(s.stmts, old(requireParenthesis))
      ensures requireParenthesis == StmtFlagAll(s.stmts, old(requireParenthesis))
      decreases s, 0
    {
      ghost var (before, flag) := (stream, requireParenthesis);
      ghost var inner := PrintAll(s.stmts, flag);
      var i := 0;
      assert s.stmts[0..] == s.stmts;
      while i < |s.stmts|
        invariant 0 <= i <= |s.stmts|
        invariant StmtFlagAll(s.stmts, flag) == StmtFlagAll(s.stmts[i..], requireParenthesis)
        invariant before + inner == stream + PrintAll(s.stmts[i..], requireParenthesis)
      {
        ghost var (was, f) := (stream, requireParenthesis);
        ghost var x := s.stmts[i];
        PrintFrom(s.stmts, i, f);
        if s.stmts[i] != Empty {
          VisitStatement(s.stmts[i]);
        }
        Splice(was, PrintStmt(x, f), PrintAll(s.stmts[i+1..], StmtFlag(x, f)));
        i := i + 1;
      }
    }

    method VisitIf(s: Stmt)
      requires s.If?
      modifies this
      ensures stream == old(stream) + PrintStmt(s, old(requireParenthesis))
      ensures requireParenthesis == StmtFlag(s, old(requireParenthesis))
      decreases s, 1
    {
      ghost var was := stream;
      ghost var c := Tokens(s.cond, requireParenthesis);
      Put([KwIf, LParen]);
      Visit(s.cond);
      Put([RParen]);
      ghost var t := PrintBranch(s.thn, requireParenthesis);
      PrintStatementAsBlock(s.thn);
      ghost var e := PrintElse(s.els, requireParenthesis);
      PrintElseStatementAsBlock(s.els);
      Splice(((was + [KwIf, LParen]) + c) + [RParen], t, e);
      Splice((was + [KwIf, LParen]) + c, [RParen], t + e);
      Splice(was + [KwIf, LParen], c, [RParen] + (t + e));
      Splice(was, [KwIf, LParen], c + ([RParen] + (t + e)));
    }

    method VisitWhile(s: Stmt)
      requires s.While?
      modifies this
      ensures stream == old(stream) + PrintStmt(s, old(requireParenthesis))
      ensures requireParenthesis == StmtFlag(s, old(requireParenthesis))
      decreases s, 1
    {
      ghost var was := stream;
      ghost var c := Tokens(s.cond, requireParenthesis);
      Put([KwWhile, LParen]);
      Visit(s.cond);
      Put([RParen]);
      ghost var b := PrintBranch(s.body, requireParenthesis);
      PrintStatementAsBlock(s.body);
      Splice((was + [KwWhile, LParen]) + c, [RParen], b);
      Splice(was + [KwWhile, LParen], c, [RParen] + b);
      Splice(was, [KwWhile, LParen], c + ([RParen] + b));
    }

    method PrintStatementAsBlock(s: Stmt)
      modifies this
      ensures stream == old(stream) + PrintBranch(s, old(requireParenthesis))
      ensures requireParenthesis == StmtFlag(s, old(requireParenthesis))
      decreases s, 3
    {
      if s == Empty {
        Put([LBrace, RBrace]);
      } else if s.Block? {
        VisitStatement(s);
      } else {
        ghost var inner := PrintStmt(s, requireParenthesis);
        Put([LBrace]);
        VisitStatement(s);
        Put([RBrace]);
        Splice(old(stream) + [LBrace], inner, [RBrace]);
        Splice(old(stream), [LBrace], inner + [RBrace]);
      }
    }

    method PrintElseStatementAsBlock(s: Stmt)
      modifies this
      ensures stream == old(stream) + PrintElse(s, old(requireParenthesis))
      ensures requireParenthesis == StmtFlag(s, old(requireParenthesis))
      decreases s, 3
    {
      ghost var inner := PrintStmt(s, requireParenthesis);
      if s == Empty {
      } else if s.Block? {
        if !Lonely(s) {
          Put([KwElse]);
          VisitStatement(s);
          Splice(old(stream), [KwElse], inner);
        } else {
          LonelyFlag(s, requireParenthesis);
        }
      } else {
        Put([KwElse, LBrace]);
        VisitStatement(s);
        Put([RBrace]);
        Splice(old(stream) + [KwElse, LBrace], inner, [RBrace]);
        Splice(old(stream), [KwElse, LBrace], inner + [RBrace]);
      }
    }
  }

  lemma {:induction false} BracketsSnoc(n: nat)
    ensures Brackets(n + 1) == Brackets(n) + [LBracket, RBracket]
  {
    if n > 0 {
      BracketsSnoc(n - 1);
    }
  }
}
