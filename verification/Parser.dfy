/** The recursive-descent parser of parser.cpp, consuming tokens through a mutable current token. */
module ParserClass {
  import opened Wrappers
  import opened Syntax
  import opened Grammar
  import opened ExprParser
  import opened StmtParser

  /** What a parse method delivers: the tree, or nothing when the source throws a ParseError. */
  function Outcome<T>(r: Parse<T>): Option<T> {
    if r.Parsed? then Some(r.tree) else None
  }

  class Parser {
    var curTok: Token
    /** Tokens the lexer has yet to deliver; after them it delivers Eof forever. */
    var pending: seq<Token>

    ghost predicate Valid()
      reads this
    {
      (curTok == Eof ==> pending == []) && Eof !in pending
    }

    /** The tokens from the current one on, without the endless Eof. */
    ghost function Remaining(): (ts: seq<Token>)
      reads this
      ensures Cur(ts) == curTok
    {
      if curTok == Eof then [] else [curTok] + pending
    }

    constructor (input: seq<Token>)
      requires Eof !in input
      ensures Valid() && Remaining() == input
    {
      curTok := if input == [] then Eof else input[0];
      pending := if input == [] then [] else input[1..];
    }

    method ReadNextToken()
      requires Valid() && curTok != Eof
      modifies this
      ensures Valid() && Remaining() == old(Remaining())[1..]
    {
      if pending == [] {
        curTok := Eof;
      } else {
        curTok := pending[0];
        pending := pending[1..];
      }
    }

    method LookAhead(k: nat) returns (t: Token)
      requires Valid() && k > 0
      ensures t == Ahead(Remaining(), k)
    {
      t := if k <= |pending| then pending[k-1] else Eof;
    }

    method ParseExpression() returns (e: Option<Expr>)
      requires Valid()
      modifies this
      ensures Valid() && e == Outcome(ParseExpr(old(Remaining())))
      ensures e.Some? ==> Remaining() == ParseExpr(old(Remaining())).rest
      decreases |Remaining()|, 7
    {
      ghost var c;
      e, c := PrecedenceParse(0);
    }

    /** Builds `result` step by step; `c` is the concrete tree behind it. */
    method PrecedenceParse(minPrec: int) returns (result: Option<Expr>, ghost c: Cst)
      requires Valid() && minPrec >= 0
      modifies this
      ensures Valid()
      ensures var r := ParsePrec(old(Remaining()), minPrec);
        result.Some? == r.Parsed? && (r.Parsed? ==> r == Parsed(c, Remaining()) && result == Some(Strip(c)))
      decreases |Remaining()|, 5
    {
      result, c := ParseUnaryExpr();
      if result.None? {
        return;
      }
      ghost var start := old(Remaining());
      assert ParsePrec(start, minPrec) == Climb(c, Remaining(), minPrec);
      while Prec(curTok) >= minPrec
        invariant Valid() && result == Some(Strip(c)) && |Remaining()| < |start|
        invariant ParsePrec(start, minPrec) == Climb(c, Remaining(), minPrec)
        decreases |Remaining()|
      {
        result, c := ParseOperation(result.value, c, minPrec);
        if result.None? {
          return;
        }
      }
    }

    /** One operator and its right operand. */
    method ParseOperation(lhs: Expr, ghost c: Cst, minPrec: int) returns (result: Option<Expr>, ghost d: Cst)
      requires Valid() && 0 <= minPrec <= Prec(curTok) && lhs == Strip(c)
      modifies this
      ensures Valid() && (result.Some? ==> |Remaining()| < |old(Remaining())|)
      ensures result.Some? ==> result == Some(Strip(d)) && Climb(c, old(Remaining()), minPrec) == Climb(d, Remaining(), minPrec)
      ensures result.None? ==> Climb(c, old(Remaining()), minPrec) == ParseError
      decreases |Remaining()|, 4
    {
      var opPrec := Prec(curTok);
      var opTok := curTok;
      ClimbRound(c, Remaining(), minPrec);
      ReadNextToken();
      if opTok != Eq {
        opPrec := opPrec + 1;
      }
      var rhs;
      rhs, d := PrecedenceParse(opPrec);
      if rhs.None? {
        return None, c;
      }
      var operation := BinOpForToken(opTok);
      StripBinary(operation, c, d);
      d := CBinary(operation, c, d);
      result := Some(Binary(operation, lhs, rhs.value));
    }

    /** Operators are collected in a deque; a minus before a literal is taken back and glued to its text. */
    method CollectPrefixes() returns (unaries: seq<UnOp>)
      requires Valid()
      modifies this
      ensures Valid() && |Remaining()| <= |old(Remaining())|
      ensures ParseUnary(old(Remaining())) == PrefixedBy(unaries, ParsePostfix(Remaining()))
    {
      ghost var start := Remaining();
      unaries := [];
      while curTok == Bang || curTok == MinusSign
        invariant Valid()
        invariant |unaries| + |Remaining()| == |start|
        invariant unaries == [] ==> Remaining() == start
        invariant unaries != [] ==> ParseUnary(start) == LastPending(unaries, Remaining())
        decreases |Remaining()|
      {
        ghost var us := unaries;
        ghost var ts := Remaining();
        unaries := unaries + [if curTok == Bang then Not else Neg];
        ReadNextToken();
        assert ts == [UnOpToken(unaries[|us|])] + Remaining();
        assert unaries[..|unaries|-1] == us;
        if us != [] {
          PrefixStep(us, ts);
        }
      }
      if curTok.IntLiteral? && unaries != [] && unaries[|unaries|-1] == Neg {
        GlueStep(Remaining());
        unaries := unaries[..|unaries|-1];
        curTok := IntLiteral("-" + curTok.str);
      } else if unaries != [] {
        PrefixStep(unaries, Remaining());
      }
    }

    method ParseUnaryExpr() returns (result: Option<Expr>, ghost c: Cst)
      requires Valid()
      modifies this
      ensures Valid()
      ensures var r := ParseUnary(old(Remaining()));
        result.Some? == r.Parsed? && (r.Parsed? ==> r == Parsed(c, Remaining()) && result == Some(Strip(c)))
      decreases |Remaining()|, 4
    {
      ghost var start := Remaining();
      var unaries := CollectPrefixes();
      result, c := ParsePostfixExpr();
      if result.None? {
        PrefixedByError(unaries);
        return;
      }
      ghost var rest := Remaining();
      while unaries != []
        invariant Valid() && Remaining() == rest && result == Some(Strip(c))
        invariant ParseUnary(start) == PrefixedBy(unaries, Parsed(c, rest))
        decreases |unaries|
      {
        var op := unaries[|unaries|-1];
        StripUnary(op, c);
        assert Prefixed(op, Parsed(c, rest)) == Parsed(CUnary(op, c), rest);
        result := Some(Unary(op, result.value));
        c := CUnary(op, c);
        unaries := unaries[..|unaries|-1];
      }
    }

    method ParsePostfixExpr() returns (lhs: Option<Expr>, ghost c: Cst)
      requires Valid()
      modifies this
      ensures Valid()
      ensures var r := ParsePostfix(old(Remaining()));
        lhs.Some? == r.Parsed? && (r.Parsed? ==> r == Parsed(c, Remaining()) && lhs == Some(Strip(c)))
      decreases |Remaining()|, 3
    {
      lhs, c := ParsePrimaryExpr();
      if lhs.None? {
        return;
      }
      ghost var start := old(Remaining());
      while curTok == Dot || curTok == LBracket
        invariant Valid() && lhs == Some(Strip(c)) && |Remaining()| < |start|
        invariant ParsePostfix(start) == Postfix(c, Remaining())
        decreases |Remaining()|
      {
        PostfixRound(c, Remaining());
        if curTok == Dot {
          lhs, c := ParseMemberAccess(lhs.value, c);
        } else {
          lhs, c := ParseArrayAccess(lhs.value, c);
        }
        if lhs.None? {
          return;
        }
      }
    }

    method ParseMemberAccess(lhs: Expr, ghost c: Cst) returns (r: Option<Expr>, ghost d: Cst)
      requires Valid() && curTok == Dot && lhs == Strip(c)
      modifies this
      ensures Valid()
      ensures var m := MemberAccess(c, old(Remaining()));
        r.Some? == m.Parsed? && (m.Parsed? ==> m == Parsed(d, Remaining()) && r == Some(Strip(d)))
      decreases |Remaining()|, 2
    {
      d := c;
      ghost var ts := Remaining();
      ReadNextToken();
      if !curTok.Identifier? {
        return None, c;
      }
      var ident := curTok.name;
      ReadNextToken();
      assert Remaining() == ts[2..];
      if curTok == LParen {
        ReadNextToken();
        assert Remaining() == ts[3..];
        ghost var cs;
        var args;
        args, cs := ParseCallArguments();
        if args.None? {
          return None, c;
        }
        StripCalls(c, ident, cs);
        r, d := Some(Call(lhs, ident, args.value)), CCall(c, ident, cs);
      } else {
        StripAccess(c, c, ident);
        r, d := Some(Field(lhs, ident)), CField(c, ident);
      }
    }

    /** The arguments of a call and its closing parenthesis. */
    method ParseCallArguments() returns (args: Option<seq<Expr>>, ghost cs: seq<Cst>)
      requires Valid()
      modifies this
      ensures Valid()
      ensures var r := ParseArguments(old(Remaining()));
        && args.Some? == (r.Parsed? && Cur(r.rest) == RParen)
        && (args.Some? ==> r.tree == cs && r.rest[1..] == Remaining() && args == Some(StripAll(cs)))
      decreases |Remaining()|, 7
    {
      args, cs := ParseArgumentList();
      if args.None? || curTok != RParen {
        return None, cs;
      }
      ReadNextToken();
    }

    method ParseArrayAccess(lhs: Expr, ghost c: Cst) returns (r: Option<Expr>, ghost d: Cst)
      requires Valid() && curTok == LBracket && lhs == Strip(c)
      modifies this
      ensures Valid()
      ensures var m := ArrayAccess(c, old(Remaining()));
        r.Some? == m.Parsed? && (m.Parsed? ==> m == Parsed(d, Remaining()) && r == Some(Strip(d)))
      decreases |Remaining()|, 2
    {
      ReadNextToken();
      ghost var i;
      var index;
      index, i := PrecedenceParse(0);
      if index.None? || curTok != RBracket {
        return None, c;
      }
      ReadNextToken();
      StripAccess(c, i, "");
      r, d := Some(Index(lhs, index.value)), CIndex(c, i);
    }

    method ParsePrimaryExpr() returns (r: Option<Expr>, ghost c: Cst)
      requires Valid()
      modifies this
      ensures Valid()
      ensures var p := ParsePrimary(old(Remaining()));
        r.Some? == p.Parsed? && (p.Parsed? ==> p == Parsed(c, Remaining()) && r == Some(Strip(c)))
      decreases |Remaining()|, 2
    {
      c := CNull;
      r := None;
      if curTok == LParen {
        r, c := ParseParenExpr();
      } else if curTok == KwFalse || curTok == KwTrue || curTok == KwNull || curTok == KwThis || curTok.IntLiteral? {
        r, c := ParseLiteral();
      } else if curTok.Identifier? {
        r, c := ParseVarRefOrCall();
      } else if curTok == KwNew {
        r, c := ParseNewExpr();
      }
    }

    method ParseParenExpr() returns (r: Option<Expr>, ghost c: Cst)
      requires Valid() && curTok == LParen
      modifies this
      ensures Valid()
      ensures var p := ParsePrimary(old(Remaining()));
        r.Some? == p.Parsed? && (p.Parsed? ==> p == Parsed(c, Remaining()) && r == Some(Strip(c)))
      decreases |Remaining()|, 1
    {
      PrimaryParen(Remaining());
      ReadNextToken();
      r, c := PrecedenceParse(0);
      if r.None? || curTok != RParen {
        return None, c;
      }
      ReadNextToken();
      StripParen(c);
      c := CParen(c);
    }

    method ParseLiteral() returns (r: Option<Expr>, ghost c: Cst)
      requires Valid()
      requires curTok == KwFalse || curTok == KwTrue || curTok == KwNull || curTok == KwThis || curTok.IntLiteral?
      modifies this
      ensures Valid()
      ensures var p := ParsePrimary(old(Remaining()));
        r.Some? == p.Parsed? && (p.Parsed? ==> p == Parsed(c, Remaining()) && r == Some(Strip(c)))
    {
      if curTok == KwFalse {
        r, c := Some(BoolLit(false)), CBool(false);
      } else if curTok == KwTrue {
        r, c := Some(BoolLit(true)), CBool(true);
      } else if curTok == KwNull {
        r, c := Some(NullLit), CNull;
      } else if curTok == KwThis {
        r, c := Some(ThisLit), CThis;
      } else {
        var s := curTok.str;
        if !IsNumeral(s) || !(INT_MIN <= NumeralValue(s) <= INT_MAX) {
          return None, CNull;
        }
        r, c := Some(IntLit(NumeralValue(s))), CInt(s);
      }
      ReadNextToken();
    }

    method ParseVarRefOrCall() returns (r: Option<Expr>, ghost c: Cst)
      requires Valid() && curTok.Identifier?
      modifies this
      ensures Valid()
      ensures var p := ParsePrimary(old(Remaining()));
        r.Some? == p.Parsed? && (p.Parsed? ==> p == Parsed(c, Remaining()) && r == Some(Strip(c)))
      decreases |Remaining()|, 1
    {
      ghost var ts := Remaining();
      var ident := curTok.name;
      ReadNextToken();
      if curTok == LParen {
        ReadNextToken();
        assert Remaining() == ts[2..];
        ghost var cs;
        var args;
        args, cs := ParseCallArguments();
        if args.None? {
          return None, CNull;
        }
        StripCalls(CThis, ident, cs);
        r, c := Some(Call(ThisLit, ident, args.value)), COwnCall(ident, cs);
      } else {
        r, c := Some(VarRef(ident)), CVar(ident);
      }
    }

    method ParseNewExpr() returns (r: Option<Expr>, ghost c: Cst)
      requires Valid() && curTok == KwNew
      modifies this
      ensures Valid()
      ensures var p := ParseNew(old(Remaining()));
        r.Some? == p.Parsed? && (p.Parsed? ==> p == Parsed(c, Remaining()) && r == Some(Strip(c)))
      decreases |Remaining()|, 1
    {
      c := CNull;
      ghost var ts := Remaining();
      ReadNextToken();
      var next := LookAhead(1);
      assert next == Ahead(ts, 2);
      if next == LParen {
        r, c := ParseNewObjectTail(ts);
      } else if next == LBracket {
        var elementType := BasicTypeFor(curTok);
        if elementType.None? {
          return None, c;
        }
        ReadNextToken();
        ReadNextToken();
        assert Remaining() == ts[3..];
        r, c := ParseNewArrayTail(elementType.value, ts);
      } else {
        return None, c;
      }
    }

    /** The class name and the empty parentheses of `new C()`. */
    method ParseNewObjectTail(ghost ts: seq<Token>) returns (r: Option<Expr>, ghost c: Cst)
      requires Valid() && |ts| >= 3 && ts[0] == KwNew && ts[2] == LParen && Remaining() == ts[1..]
      modifies this
      ensures Valid()
      ensures var p := ParseNew(ts);
        r.Some? == p.Parsed? && (p.Parsed? ==> p == Parsed(c, Remaining()) && r == Some(Strip(c)))
    {
      NewObjectForm(ts);
      if !curTok.Identifier? {
        return None, CNull;
      }
      var ident := curTok.name;
      ReadNextToken();
      ReadNextToken();
      assert Remaining() == ts[3..];
      if curTok != RParen {
        return None, CNull;
      }
      ReadNextToken();
      assert Remaining() == ts[4..];
      return Some(NewObject(ident)), CNewObject(ident);
    }

    /** The size, its bracket and the further dimensions of `new T[`. */
    method ParseNewArrayTail(elementType: BasicType, ghost ts: seq<Token>) returns (r: Option<Expr>, ghost c: Cst)
      requires Valid() && |ts| >= 3 && ts[3..] == Remaining()
      requires ts[0] == KwNew && BasicTypeFor(ts[1]) == Some(elementType) && ts[2] == LBracket
      modifies this
      ensures Valid()
      ensures var p := ParseNew(ts);
        r.Some? == p.Parsed? && (p.Parsed? ==> p == Parsed(c, Remaining()) && r == Some(Strip(c)))
      decreases |Remaining()|, 8
    {
      ghost var s;
      var size;
      NewArrayForm(ts, elementType);
      size, s := PrecedenceParse(0);
      if size.None? || curTok != RBracket {
        return None, CNull;
      }
      ReadNextToken();
      var dimension := CountDimensions();
      StripNewArray(elementType, dimension, s);
      return Some(NewArray(elementType, dimension, size.value)), CNewArray(elementType, dimension, s);
    }

    method CountDimensions() returns (dimension: nat)
      requires Valid()
      modifies this
      ensures Valid() && Dimensions(1, old(Remaining())) == (dimension, Remaining())
    {
      dimension := 1;
      var next := LookAhead(1);
      while curTok == LBracket && next == RBracket
        invariant Valid() && next == Ahead(Remaining(), 1)
        invariant Dimensions(1, old(Remaining())) == Dimensions(dimension, Remaining())
        decreases |Remaining()|
      {
        ghost var before := Remaining();
        dimension := dimension + 1;
        ReadNextToken();
        ReadNextToken();
        assert Remaining() == before[2..];
        next := LookAhead(1);
      }
    }

    method ParseArgumentList() returns (args: Option<seq<Expr>>, ghost cs: seq<Cst>)
      requires Valid()
      modifies this
      ensures Valid()
      ensures var r := ParseArguments(old(Remaining()));
        args.Some? == r.Parsed? && (r.Parsed? ==> r == Parsed(cs, Remaining()) && args == Some(StripAll(cs)))
      decreases |Remaining()|, 6
    {
      cs := [];
      if StartsExpr(curTok) {
        ghost var start := Remaining();
        ghost var c;
        var arg;
        arg, c := PrecedenceParse(0);
        if arg.None? {
          return None, cs;
        }
        cs := [c];
        var arguments := [arg.value];
        assert StripAll([c]) == [Strip(c)] + StripAll([]);
        while curTok == Comma
          invariant Valid() && arguments == StripAll(cs) && |Remaining()| < |start|
          invariant ParseArguments(start) == MoreArguments(cs, Remaining())
          decreases |Remaining()|
        {
          ReadNextToken();
          arg, c := PrecedenceParse(0);
          if arg.None? {
            return None, cs;
          }
          StripSnoc(cs, c);
          cs := cs + [c];
          arguments := arguments + [arg.value];
        }
        return Some(arguments), cs;
      } else if curTok == RParen {
        return Some([]), cs;
      } else {
        return None, cs;
      }
    }

    // ---- statements ----

    method ParseTypeName() returns (r: Option<Type>)
      requires Valid()
      modifies this
      ensures Valid() && r == Outcome(ParseType(old(Remaining())))
      ensures r.Some? ==> Remaining() == ParseType(old(Remaining())).rest
    {
      var basicType := BasicTypeFor(curTok);
      if basicType.None? {
        return None;
      }
      ReadNextToken();
      ghost var start := Remaining();
      var numDimensions := 0;
      while curTok == LBracket
        invariant Valid() && numDimensions >= 0
        invariant TypeDimensions(basicType.value, 0, start) == TypeDimensions(basicType.value, numDimensions, Remaining())
        decreases |Remaining()|
      {
        ghost var before := Remaining();
        ReadNextToken();
        if curTok != RBracket {
          return None;
        }
        ReadNextToken();
        assert Remaining() == before[2..];
        numDimensions := numDimensions + 1;
      }
      r := Some(Type(basicType.value, numDimensions));
    }

    method ParseBlockStatement() returns (r: Option<Stmt>)
      requires Valid()
      modifies this
      ensures Valid() && r == Outcome(ParseBlockStmt(old(Remaining())))
      ensures r.Some? ==> Remaining() == ParseBlockStmt(old(Remaining())).rest
      decreases |Remaining()|, 3
    {
      var next := LookAhead(1);
      var afterNext := LookAhead(2);
      if curTok == KwBoolean || curTok == KwInt || curTok == KwVoid
         || (curTok.Identifier? && (next.Identifier? || (next == LBracket && afterNext == RBracket))) {
        r := ParseLocalVarDeclStmt();
      } else {
        r := ParseStatement();
      }
    }

    method ParseLocalVarDeclStmt() returns (r: Option<Stmt>)
      requires Valid()
      modifies this
      ensures Valid() && r == Outcome(ParseVarDecl(old(Remaining())))
      ensures r.Some? ==> Remaining() == ParseVarDecl(old(Remaining())).rest
    {
      var ty := ParseTypeName();
      if ty.None? {
        return None;
      }
      r := ParseDeclaratorTail(ty.value);
    }

    method ParseDeclaratorTail(ty: Type) returns (r: Option<Stmt>)
      requires Valid()
      modifies this
      ensures Valid() && r == Outcome(DeclaratorTail(ty, old(Remaining())))
      ensures r.Some? ==> Remaining() == DeclaratorTail(ty, old(Remaining())).rest
    {
      if !curTok.Identifier? {
        return None;
      }
      ghost var ts := Remaining();
      var ident := curTok.name;
      ReadNextToken();
      if curTok == Eq {
        ReadNextToken();
        assert Remaining() == ts[2..];
        var initializer := ParseExpression();
        if initializer.None? || curTok != Semicolon {
          return None;
        }
        ReadNextToken();
        return Some(VarDecl(ty, ident, initializer));
      } else if curTok == Semicolon {
        ReadNextToken();
        assert Remaining() == ts[2..];
        return Some(VarDecl(ty, ident, None));
      } else {
        return None;
      }
    }

    method ParseStatement() returns (r: Option<Stmt>)
      requires Valid()
      modifies this
      ensures Valid() && r == Outcome(ParseStmt(old(Remaining())))
      ensures r.Some? ==> Remaining() == ParseStmt(old(Remaining())).rest
      decreases |Remaining()|, 2
    {
      if curTok == LBrace {
        r := ParseBraces();
      } else if curTok == Semicolon {
        ReadNextToken();
        r := Some(Empty);
      } else if curTok == KwIf {
        r := ParseIfStmt();
      } else if curTok == KwReturn {
        r := ParseReturnStmt();
      } else if curTok == KwWhile {
        r := ParseWhileStmt();
      } else if StartsExpr(curTok) {
        var e := ParseExpression();
        if e.None? || curTok != Semicolon {
          return None;
        }
        ReadNextToken();
        r := Some(ExprStmt(e.value));
      } else {
        r := None;
      }
    }

    method ParseBraces() returns (r: Option<Stmt>)
      requires Valid()
      modifies this
      ensures Valid() && r == Outcome(ParseBlock(old(Remaining())))
      ensures r.Some? ==> Remaining() == ParseBlock(old(Remaining())).rest
      decreases |Remaining()|, 1
    {
      if curTok != LBrace {
        return None;
      }
      ghost var size := |Remaining()|;
      ReadNextToken();
      ghost var start := Remaining();
      var statements := [];
      while curTok != RBrace
        invariant Valid() && |Remaining()| < size
        invariant BlockItems([], start) == BlockItems(statements, Remaining())
        decreases |Remaining()|
      {
        if !StartsBlockStmt(curTok) {
          return None;
        }
        var stmt := ParseBlockStatement();
        if stmt.None? {
          return None;
        }
        if stmt.value != Empty {
          statements := statements + [stmt.value];
        }
      }
      ReadNextToken();
      r := Some(Block(statements));
    }

    method ParseParenthesised() returns (r: Option<Expr>)
      requires Valid()
      modifies this
      ensures Valid() && r == Outcome(ParseCondition(old(Remaining())))
      ensures r.Some? ==> Remaining() == ParseCondition(old(Remaining())).rest
    {
      if curTok != LParen {
        return None;
      }
      ReadNextToken();
      r := ParseExpression();
      if r.None? || curTok != RParen {
        return None;
      }
      ReadNextToken();
    }

    method ParseIfStmt() returns (r: Option<Stmt>)
      requires Valid() && curTok == KwIf
      modifies this
      ensures Valid() && r == Outcome(ParseIf(old(Remaining())))
      ensures r.Some? ==> Remaining() == ParseIf(old(Remaining())).rest
      decreases |Remaining()|, 1
    {
      ReadNextToken();
      var condition := ParseParenthesised();
      if condition.None? {
        return None;
      }
      var thenStmt := ParseStatement();
      if thenStmt.None? {
        return None;
      }
      var elseStmt := ParseElseBranch();
      if elseStmt.None? {
        return None;
      }
      r := Some(If(condition.value, thenStmt.value, elseStmt.value));
    }

    /** The else branch, empty if there is none. */
    method ParseElseBranch() returns (e: Option<Stmt>)
      requires Valid()
      modifies this
      ensures Valid() && e == Outcome(ParseElse(old(Remaining())))
      ensures e.Some? ==> Remaining() == ParseElse(old(Remaining())).rest
      decreases |Remaining()|, 9
    {
      e := Some(Empty);
      if curTok == KwElse {
        ReadNextToken();
        e := ParseStatement();
      }
    }

    method ParseWhileStmt() returns (r: Option<Stmt>)
      requires Valid() && curTok == KwWhile
      modifies this
      ensures Valid() && r == Outcome(ParseWhile(old(Remaining())))
      ensures r.Some? ==> Remaining() == ParseWhile(old(Remaining())).rest
      decreases |Remaining()|, 1
    {
      ReadNextToken();
      var condition := ParseParenthesised();
      if condition.None? {
        return None;
      }
      var stmt := ParseStatement();
      if stmt.None? {
        return None;
      }
      r := Some(While(condition.value, stmt.value));
    }

    method ParseReturnStmt() returns (r: Option<Stmt>)
      requires Valid() && curTok == KwReturn
      modifies this
      ensures Valid() && r == Outcome(ParseReturn(old(Remaining())))
      ensures r.Some? ==> Remaining() == ParseReturn(old(Remaining())).rest
    {
      ghost var ts := Remaining();
      ReadNextToken();
      if curTok == Semicolon {
        ReadNextToken();
        assert Remaining() == ts[2..];
        return Some(Return(None));
      }
      var expr := ParseExpression();
      if expr.None? || curTok != Semicolon {
        return None;
      }
      ReadNextToken();
      r := Some(Return(expr));
    }
  }

  // ---- single rounds of the loops ----

  lemma ClimbRound(c: Cst, ts: seq<Token>, minPrec: int)
    requires 0 <= minPrec <= Prec(Cur(ts))
    ensures ts != [] &&
      var rhs := ParsePrec(ts[1..], if ts[0] == Eq then Prec(ts[0]) else Prec(ts[0]) + 1);
      Climb(c, ts, minPrec) ==
        if rhs.ParseError? then ParseError else Climb(CBinary(BinOpForToken(ts[0]), c, rhs.tree), rhs.rest, minPrec)
  {
  }

  lemma PostfixRound(c: Cst, ts: seq<Token>)
    requires Cur(ts) == Dot || Cur(ts) == LBracket
    ensures var m := if Cur(ts) == Dot then MemberAccess(c, ts) else ArrayAccess(c, ts);
      Postfix(c, ts) == if m.ParseError? then ParseError else Postfix(m.tree, m.rest)
  {
  }

  lemma NewObjectForm(ts: seq<Token>)
    requires |ts| >= 3 && ts[0] == KwNew && ts[2] == LParen
    ensures ParseNew(ts) ==
      if ts[1].Identifier? && Ahead(ts, 3) == RParen then Parsed(CNewObject(ts[1].name), ts[4..]) else ParseError
  {
  }

  lemma NewArrayForm(ts: seq<Token>, elem: BasicType)
    requires |ts| >= 3 && ts[0] == KwNew && BasicTypeFor(ts[1]) == Some(elem) && ts[2] == LBracket
    ensures var size := ParsePrec(ts[3..], 0);
      ParseNew(ts) ==
        if size.Parsed? && Cur(size.rest) == RBracket then
          var (d, rest) := Dimensions(1, size.rest[1..]); Parsed(CNewArray(elem, d, size.tree), rest)
        else ParseError
  {
  }

  lemma PrimaryParen(ts: seq<Token>)
    requires Cur(ts) == LParen
    ensures ts != [] &&
      var e := ParsePrec(ts[1..], 0);
      ParsePrimary(ts) == if e.Parsed? && Cur(e.rest) == RParen then Parsed(CParen(e.tree), e.rest[1..]) else ParseError
  {
  }

  /** Wraps collected prefix operators around a result, the innermost last. */
  ghost function PrefixedBy(us: seq<UnOp>, r: Parse<Cst>): Parse<Cst> {
    if us == [] then r else PrefixedBy(us[..|us|-1], Prefixed(us[|us|-1], r))
  }

  lemma {:induction false} PrefixedByError(us: seq<UnOp>)
    ensures PrefixedBy(us, ParseError) == ParseError
  {
    if us != [] {
      PrefixedByError(us[..|us|-1]);
    }
  }

  /** What is still to be parsed when the last collected operator may turn out to be the sign of a literal. */
  ghost function LastPending(us: seq<UnOp>, ts: seq<Token>): Parse<Cst>
    requires us != []
  {
    PrefixedBy(us[..|us|-1], ParseUnary([UnOpToken(us[|us|-1])] + ts))
  }

  /** The last collected operator really is a prefix operator unless it is a minus before a literal. */
  lemma PrefixStep(us: seq<UnOp>, ts: seq<Token>)
    requires us != [] && !(us[|us|-1] == Neg && Cur(ts).IntLiteral?)
    ensures LastPending(us, ts) == PrefixedBy(us, ParseUnary(ts))
  {
    assert ([UnOpToken(us[|us|-1])] + ts)[1..] == ts;
  }

  lemma GlueStep(ts: seq<Token>)
    requires Cur(ts).IntLiteral?
    ensures ParseUnary([MinusSign] + ts) == ParsePostfix([IntLiteral("-" + ts[0].str)] + ts[1..])
  {
    assert ([MinusSign] + ts)[2..] == ts[1..];
  }

  lemma {:induction false} StripSnoc(cs: seq<Cst>, c: Cst)
    ensures StripAll(cs + [c]) == StripAll(cs) + [Strip(c)]
  {
    if cs == [] {
      assert cs + [c] == [c];
      assert StripAll([c]) == [Strip(c)] + StripAll([]);
    } else {
      StripSnoc(cs[1..], c);
      assert (cs + [c])[1..] == cs[1..] + [c];
    }
  }
}
