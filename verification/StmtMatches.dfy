/** The statement parser reads exactly the phrases of the statement grammar. */
module StmtMatches {
  import opened Wrappers
  import opened Syntax
  import opened Grammar
  import opened ExprParser
  import opened ParserComplete
  import opened StmtParser
  import opened ExprGrammar
  import opened StmtGrammar
  import GrammarMatches
  import StmtRoundTrip

  // ---- expressions and their closing tokens ----

  lemma LexedTail(pre: seq<Token>, rest: seq<Token>)
    requires Lexed(pre + rest)
    ensures Lexed(rest)
  {
    GrammarMatches.SuffixLexed(pre, rest);
  }

  /** An expression read up to its closing token. */
  lemma ClosedSound(ts: seq<Token>, close: Token) returns (phrase: seq<Token>)
    requires Lexed(ts) && close != Eof && Expect(ParseExpr(ts), close).Parsed?
    ensures var r := Expect(ParseExpr(ts), close);
      ts == phrase + ([close] + r.rest) && Derived(AssignmentExpr, r.tree, phrase) && Lexed(r.rest)
  {
    var r := ParsePrec(ts, 0);
    GrammarMatches.ParserIsTheGrammar(ts, 0, Strip(r.tree), r.rest);
    phrase :| ts == phrase + r.rest && Derived(AssignmentExpr, Strip(r.tree), phrase);
    assert r.rest == [close] + r.rest[1..];
    LexedTail(phrase, r.rest);
    LexedTail([close], r.rest[1..]);
  }

  lemma ClosedComplete(e: Expr, phrase: seq<Token>, close: Token, rest: seq<Token>)
    requires Derived(AssignmentExpr, e, phrase) && (close == Semicolon || close == RParen)
    requires Lexed(phrase + ([close] + rest))
    ensures Expect(ParseExpr(phrase + ([close] + rest)), close) == Parsed(e, rest)
  {
    var ts := phrase + ([close] + rest);
    NothingFollows(phrase, close);
    assert GrammarMatches.Reads(AssignmentExpr, e, ts, [close] + rest);
    GrammarMatches.ParserIsTheGrammar(ts, 0, e, [close] + rest);
    assert ([close] + rest)[1..] == rest;
  }

  lemma NothingFollows(phrase: seq<Token>, close: Token)
    requires close == Semicolon || close == RParen
    ensures !Continued(AssignmentExpr, phrase, close)
  {
  }

  // ---- whatever is accepted is a phrase ----

  /** `ts` starts with a phrase for `s`, and `rest` is untouched behind it. */
  ghost predicate Accepts(s: Stmt, ts: seq<Token>, phrase: seq<Token>, rest: seq<Token>) {
    ts == phrase + rest && Lexed(rest) && Statement(s, phrase, Cur(rest) == KwElse)
  }

  lemma {:induction false} Weaken(s: Stmt, ts: seq<Token>)
    requires Statement(s, ts, true)
    ensures Statement(s, ts, false)
    decreases |ts|
  {
    if s.If? {
      var k: nat, m: nat :| Branches(s, ts, true, k, m);
      Weaken(s.els, ts[m+1..]);
      assert Branches(s, ts, false, k, m);
    } else if s.While? {
      var k: nat :| Loop(s, ts, true, k);
      Weaken(s.body, ts[k+1..]);
      assert Loop(s, ts, false, k);
    }
  }

  lemma {:induction false} StatementSound(ts: seq<Token>) returns (phrase: seq<Token>)
    requires Lexed(ts) && ParseStmt(ts).Parsed?
    ensures var r := ParseStmt(ts); Accepts(r.tree, ts, phrase, r.rest)
    decreases |ts|, 2
  {
    if Cur(ts) == LBrace {
      phrase := BlockSound(ts);
    } else if Cur(ts) == Semicolon {
      phrase := [Semicolon];
      assert ts == phrase + ts[1..];
      LexedTail(phrase, ts[1..]);
    } else if Cur(ts) == KwIf {
      phrase := IfSound(ts);
    } else if Cur(ts) == KwReturn {
      phrase := ReturnSound(ts);
    } else if Cur(ts) == KwWhile {
      phrase := WhileSound(ts);
    } else {
      var e := ClosedSound(ts, Semicolon);
      phrase := e + [Semicolon];
      EndedPhrase(Expect(ParseExpr(ts), Semicolon).tree, e);
      Splice(e, [Semicolon], Expect(ParseExpr(ts), Semicolon).rest);
    }
  }

  lemma EndedPhrase(e: Expr, phrase: seq<Token>)
    requires Derived(AssignmentExpr, e, phrase)
    ensures Ended(e, phrase + [Semicolon])
  {
    assert (phrase + [Semicolon])[..|phrase|] == phrase;
  }

  lemma ReturnSound(ts: seq<Token>) returns (phrase: seq<Token>)
    requires Lexed(ts) && Cur(ts) == KwReturn && ParseReturn(ts).Parsed?
    ensures var r := ParseReturn(ts); Accepts(r.tree, ts, phrase, r.rest)
  {
    if Ahead(ts, 1) == Semicolon {
      phrase := [KwReturn, Semicolon];
      assert ts == phrase + ts[2..];
      LexedTail(phrase, ts[2..]);
    } else {
      assert ts == [KwReturn] + ts[1..];
      LexedTail([KwReturn], ts[1..]);
      var e := ClosedSound(ts[1..], Semicolon);
      var r := Expect(ParseExpr(ts[1..]), Semicolon);
      phrase := [KwReturn] + (e + [Semicolon]);
      ReturnPhrase(r.tree, e, Cur(r.rest) == KwElse);
      Splice([KwReturn], e + [Semicolon], r.rest);
      Splice(e, [Semicolon], r.rest);
    }
  }

  lemma ReturnPhrase(e: Expr, phrase: seq<Token>, closed: bool)
    requires Derived(AssignmentExpr, e, phrase)
    ensures Statement(Return(Some(e)), [KwReturn] + (phrase + [Semicolon]), closed)
  {
    EndedPhrase(e, phrase);
    assert ([KwReturn] + (phrase + [Semicolon]))[1..] == phrase + [Semicolon];
  }

  /** A keyword and the condition behind it. */
  lemma ConditionSound(ts: seq<Token>) returns (head: seq<Token>)
    requires Lexed(ts) && ts != [] && ParseCondition(ts[1..]).Parsed?
    ensures var r := ParseCondition(ts[1..]);
      && ts == head + r.rest && Lexed(r.rest) && |head| >= 3
      && forall tail: seq<Token> :: Guarded(ts[0], r.tree, head + tail, |head| - 1)
  {
    var r := ParseCondition(ts[1..]);
    assert ts == [ts[0], LParen] + ts[2..] && ts[1..][1..] == ts[2..];
    LexedTail([ts[0], LParen], ts[2..]);
    var e := ClosedSound(ts[2..], RParen);
    head := [ts[0], LParen] + (e + [RParen]);
    Splice([ts[0], LParen], e + [RParen], r.rest);
    Splice(e, [RParen], r.rest);
    forall tail: seq<Token> ensures Guarded(ts[0], r.tree, head + tail, |head| - 1) {
      assert (head + tail)[2..|head|-1] == e;
    }
  }

  lemma {:induction false} WhileSound(ts: seq<Token>) returns (phrase: seq<Token>)
    requires Lexed(ts) && Cur(ts) == KwWhile && ParseWhile(ts).Parsed?
    ensures var r := ParseWhile(ts); Accepts(r.tree, ts, phrase, r.rest)
    decreases |ts|, 1
  {
    var head := ConditionSound(ts);
    var c := ParseCondition(ts[1..]);
    var body := StatementSound(c.rest);
    var b := ParseStmt(c.rest);
    phrase := head + body;
    Splice(head, body, b.rest);
    assert phrase[|head|..] == body;
    assert Loop(While(c.tree, b.tree), phrase, Cur(b.rest) == KwElse, |head| - 1);
  }

  lemma {:induction false} IfSound(ts: seq<Token>) returns (phrase: seq<Token>)
    requires Lexed(ts) && Cur(ts) == KwIf && ParseIf(ts).Parsed?
    ensures var r := ParseIf(ts); Accepts(r.tree, ts, phrase, r.rest)
    decreases |ts|, 1
  {
    var head := ConditionSound(ts);
    var c := ParseCondition(ts[1..]);
    var first := StatementSound(c.rest);
    var t := ParseStmt(c.rest);
    if Cur(t.rest) == KwElse {
      LexedTail([KwElse], t.rest[1..]);
      assert t.rest == [KwElse] + t.rest[1..];
      var second := StatementSound(t.rest[1..]);
      var e := ParseStmt(t.rest[1..]);
      phrase := head + (first + ([KwElse] + second));
      LongIfPhrase(c.tree, t.tree, e.tree, head, first, second, Cur(e.rest) == KwElse);
      Splice(head, first + ([KwElse] + second), e.rest);
      Splice(first, [KwElse] + second, e.rest);
      Splice([KwElse], second, e.rest);
    } else {
      phrase := head + first;
      Splice(head, first, t.rest);
      assert phrase[|head|..|phrase|] == first;
      assert Branches(If(c.tree, t.tree, Empty), phrase, false, |head| - 1, |phrase|);
    }
  }

  lemma LongIfPhrase(c: Expr, t: Stmt, e: Stmt, head: seq<Token>, first: seq<Token>, second: seq<Token>, closed: bool)
    requires |head| >= 3 && forall tail: seq<Token> :: Guarded(KwIf, c, head + tail, |head| - 1)
    requires Statement(t, first, true) && Statement(e, second, closed)
    ensures Statement(If(c, t, e), head + (first + ([KwElse] + second)), closed)
  {
    var ts := head + (first + ([KwElse] + second));
    var k, m := |head| - 1, |head| + |first|;
    assert ts[k+1..m] == first && ts[m+1..] == second;
    assert Branches(If(c, t, e), ts, closed, k, m);
  }

  lemma {:induction false} BlockSound(ts: seq<Token>) returns (phrase: seq<Token>)
    requires Lexed(ts) && Cur(ts) == LBrace && ParseBlock(ts).Parsed?
    ensures var r := ParseBlock(ts); Accepts(r.tree, ts, phrase, r.rest)
    decreases |ts|, 1
  {
    assert ts == [LBrace] + ts[1..];
    LexedTail([LBrace], ts[1..]);
    var inner, ss := ItemsSound([], ts[1..]);
    var r := BlockItems([], ts[1..]);
    phrase := [LBrace] + (inner + [RBrace]);
    assert [] + ss == ss && phrase[1..|phrase|-1] == inner;
    Splice([LBrace], inner + [RBrace], r.rest);
    Splice(inner, [RBrace], r.rest);
  }

  lemma {:induction false} DimensionsSound(basic: BasicType, d: nat, ts: seq<Token>) returns (pairs: seq<Token>)
    requires Lexed(ts) && TypeDimensions(basic, d, ts).Parsed?
    ensures var r := TypeDimensions(basic, d, ts);
      ts == pairs + r.rest && Lexed(r.rest) && Pairs(pairs) && r.tree.basic == basic && |pairs| == 2 * (r.tree.dimension - d)
    decreases |ts|
  {
    if Cur(ts) != LBracket {
      pairs := [];
    } else {
      assert ts == [LBracket, RBracket] + ts[2..];
      LexedTail([LBracket, RBracket], ts[2..]);
      var more := DimensionsSound(basic, d + 1, ts[2..]);
      pairs := [LBracket, RBracket] + more;
      Splice([LBracket, RBracket], more, TypeDimensions(basic, d, ts).rest);
    }
  }

  /** A type is named by its first token. */
  lemma TypeSound(ts: seq<Token>) returns (phrase: seq<Token>)
    requires Lexed(ts) && ParseType(ts).Parsed?
    ensures var r := ParseType(ts);
      && ts == phrase + r.rest && Lexed(r.rest) && |phrase| == 1 + 2 * r.tree.dimension
      && NamesType(phrase[0], r.tree.basic) && Pairs(phrase[1..])
  {
    var basic := BasicTypeFor(Cur(ts)).value;
    assert ts == [ts[0]] + ts[1..];
    LexedTail([ts[0]], ts[1..]);
    var pairs := DimensionsSound(basic, 0, ts[1..]);
    phrase := [ts[0]] + pairs;
    Splice([ts[0]], pairs, ParseType(ts).rest);
    assert phrase[1..] == pairs;
  }

  lemma DeclarationSound(ts: seq<Token>) returns (phrase: seq<Token>)
    requires Lexed(ts) && ParseVarDecl(ts).Parsed?
    ensures var r := ParseVarDecl(ts);
      ts == phrase + r.rest && Lexed(r.rest) && Declaration(r.tree, phrase)
  {
    var t := TypeSound(ts);
    var ty := ParseType(ts);
    var tail := DeclaratorSound(ty.tree, ty.rest);
    var r := DeclaratorTail(ty.tree, ty.rest);
    phrase := t + tail;
    Splice(t, tail, r.rest);
    DeclarationPhrase(r.tree, t, tail);
  }

  /** What stands behind the type of a declaration. */
  ghost predicate Declarator(s: Stmt, ts: seq<Token>) {
    && s.VarDecl? && |ts| >= 2 && ts[0] == Identifier(s.name)
    && match s.init
       case None => ts[1..] == [Semicolon]
       case Some(e) => ts[1] == Eq && Ended(e, ts[2..])
  }

  lemma DeclarationPhrase(s: Stmt, t: seq<Token>, tail: seq<Token>)
    requires Declarator(s, tail) && |t| == 1 + 2 * s.ty.dimension && NamesType(t[0], s.ty.basic) && Pairs(t[1..])
    ensures Declaration(s, t + tail)
  {
    var ts := t + tail;
    assert ts[1..|t|] == t[1..] && ts[|t|+1..] == tail[1..] && ts[|t|+2..] == tail[2..];
  }

  lemma DeclaratorSound(ty: Type, ts: seq<Token>) returns (tail: seq<Token>)
    requires Lexed(ts) && DeclaratorTail(ty, ts).Parsed?
    ensures var r := DeclaratorTail(ty, ts);
      ts == tail + r.rest && Lexed(r.rest) && r.tree.VarDecl? && r.tree.ty == ty && Declarator(r.tree, tail)
  {
    var r := DeclaratorTail(ty, ts);
    if Ahead(ts, 1) == Eq {
      var head := [ts[0], Eq];
      assert ts == head + ts[2..];
      LexedTail(head, ts[2..]);
      var e := ClosedSound(ts[2..], Semicolon);
      EndedPhrase(r.tree.init.value, e);
      tail := head + (e + [Semicolon]);
      assert tail[2..] == e + [Semicolon];
      Splice(head, e + [Semicolon], r.rest);
      Splice(e, [Semicolon], r.rest);
    } else {
      tail := [ts[0], Semicolon];
      assert ts == tail + ts[2..];
      LexedTail(tail, ts[2..]);
    }
  }

  lemma {:induction false} BlockStatementSound(ts: seq<Token>) returns (phrase: seq<Token>)
    requires Lexed(ts) && ParseBlockStmt(ts).Parsed?
    ensures var r := ParseBlockStmt(ts);
      ts == phrase + r.rest && Lexed(r.rest) && BlockStatement(r.tree, phrase, Cur(r.rest) == KwElse)
    decreases |ts|, 3
  {
    if StartsDeclaration(ts) {
      phrase := DeclarationSound(ts);
    } else {
      phrase := StatementSound(ts);
    }
  }

  lemma {:induction false} ItemsSound(done: seq<Stmt>, ts: seq<Token>) returns (inner: seq<Token>, ss: seq<Stmt>)
    requires Lexed(ts) && BlockItems(done, ts).Parsed?
    ensures var r := BlockItems(done, ts);
      r.tree == Block(done + ss) && ts == inner + ([RBrace] + r.rest) && Lexed(r.rest) && Items(ss, inner)
    decreases |ts|, 4
  {
    if Cur(ts) == RBrace {
      inner, ss := [], [];
      assert ts == [RBrace] + ts[1..];
      LexedTail([RBrace], ts[1..]);
      assert done + [] == done;
    } else {
      var first := BlockStatementSound(ts);
      var s := ParseBlockStmt(ts);
      if s.tree == Empty {
        var more, ss' := ItemsSound(done, s.rest);
        inner, ss := first + more, ss';
        LoneSemicolon(first, more, ss, Cur(s.rest) == KwElse);
        Splice(first, more, [RBrace] + BlockItems(done, ts).rest);
      } else {
        var more, ss' := ItemsSound(done + [s.tree], s.rest);
        inner, ss := first + more, [s.tree] + ss';
        NextItem(s.tree, first, more, ss', Cur(s.rest) == KwElse);
        Splice(first, more, [RBrace] + BlockItems(done, ts).rest);
        Splice(done, [s.tree], ss');
      }
    }
  }

  lemma LoneSemicolon(first: seq<Token>, more: seq<Token>, ss: seq<Stmt>, closed: bool)
    requires BlockStatement(Empty, first, closed) && Items(ss, more)
    ensures Items(ss, first + more)
  {
    assert (first + more)[1..] == more;
  }

  lemma NextItem(s: Stmt, first: seq<Token>, more: seq<Token>, ss: seq<Stmt>, closed: bool)
    requires s != Empty && first != [] && BlockStatement(s, first, closed) && Items(ss, more)
    ensures Items([s] + ss, first + more)
  {
    if closed && Statement(s, first, closed) { Weaken(s, first); }
    var ts := first + more;
    assert ts[..|first|] == first && ts[|first|..] == more && ([s] + ss)[1..] == ss;
    assert ItemAt([s] + ss, ts, |first|);
  }

  // ---- how phrases start ----

  lemma PhraseStarts(e: Expr, ts: seq<Token>)
    requires Derived(AssignmentExpr, e, ts)
    ensures ts != [] && StartsExpr(ts[0])
  {
    var c := GrammarMatches.PhraseTree(AssignmentExpr, e, ts);
    YieldStarts(c);
  }

  lemma EndedStarts(e: Expr, phrase: seq<Token>, rest: seq<Token>)
    requires Ended(e, phrase)
    ensures phrase != [] && StartsExpr(phrase[0]) && !StartsDeclaration(phrase + rest)
  {
    var inner := phrase[..|phrase|-1];
    var c := GrammarMatches.PhraseTree(AssignmentExpr, e, inner);
    YieldStarts(c);
    StmtRoundTrip.NotDeclaration(c, [Semicolon] + rest);
    assert phrase == inner + [Semicolon];
    Splice(inner, [Semicolon], rest);
  }

  /** A statement starts like one, and never like a declaration. */
  lemma StatementStarts(s: Stmt, phrase: seq<Token>, closed: bool, rest: seq<Token>)
    requires Statement(s, phrase, closed)
    ensures phrase != [] && StartsBlockStmt(phrase[0]) && !StartsDeclaration(phrase + rest)
  {
    if s.ExprStmt? {
      EndedStarts(s.e, phrase, rest);
    } else {
      KeywordStarts(s, phrase, closed);
      assert Cur(phrase + rest) == phrase[0];
    }
  }

  lemma KeywordStarts(s: Stmt, phrase: seq<Token>, closed: bool)
    requires Statement(s, phrase, closed) && !s.ExprStmt?
    ensures phrase != []
    ensures var t := phrase[0]; t == LBrace || t == Semicolon || t == KwIf || t == KwReturn || t == KwWhile
  {
    if s.If? {
      var k: nat, m: nat :| Branches(s, phrase, closed, k, m);
    } else if s.While? {
      var k: nat :| Loop(s, phrase, closed, k);
    }
  }

  lemma DeclarationStarts(s: Stmt, phrase: seq<Token>, rest: seq<Token>)
    requires Declaration(s, phrase)
    ensures phrase != [] && StartsBlockStmt(phrase[0]) && StartsDeclaration(phrase + rest)
  {
    var (d, ts) := (s.ty.dimension, phrase + rest);
    if d == 0 {
      assert Ahead(ts, 1) == Identifier(s.name);
    } else {
      assert phrase[1..1 + 2 * d][0] == LBracket && phrase[1..1 + 2 * d][1] == RBracket;
      assert Ahead(ts, 1) == LBracket && Ahead(ts, 2) == RBracket;
    }
  }

  lemma ItemsStart(ss: seq<Stmt>, ts: seq<Token>)
    requires Items(ss, ts) && ts != []
    ensures StartsBlockStmt(ts[0])
  {
    if ts[0] != Semicolon {
      var k: nat :| ItemAt(ss, ts, k);
      assert BlockStatement(ss[0], ts[..k], false);
      if Declaration(ss[0], ts[..k]) {
        DeclarationStarts(ss[0], ts[..k], []);
      } else {
        StatementStarts(ss[0], ts[..k], false, []);
      }
    }
  }

  // ---- every phrase is accepted ----

  lemma {:induction false} StatementComplete(s: Stmt, phrase: seq<Token>, rest: seq<Token>)
    requires Lexed(phrase + rest) && Statement(s, phrase, Cur(rest) == KwElse)
    ensures ParseStmt(phrase + rest) == Parsed(s, rest)
    decreases |phrase|, 2
  {
    match s
    case Empty => assert (phrase + rest)[1..] == rest;
    case Block(_) => BlockComplete(s, phrase, rest);
    case ExprStmt(_) => ExprStmtComplete(s, phrase, rest);
    case If(_, _, _) => IfComplete(s, phrase, rest);
    case While(_, _) => WhileComplete(s, phrase, rest);
    case Return(_) => ReturnComplete(s, phrase, rest);
  }

  lemma EndedComplete(e: Expr, ts: seq<Token>, rest: seq<Token>)
    requires Lexed(ts + rest) && Ended(e, ts)
    ensures Expect(ParseExpr(ts + rest), Semicolon) == Parsed(e, rest) && ts != [] && StartsExpr(ts[0])
  {
    var inner := ts[..|ts|-1];
    assert ts == inner + [Semicolon];
    Splice(inner, [Semicolon], rest);
    ClosedComplete(e, inner, Semicolon, rest);
    PhraseStarts(e, inner);
  }

  lemma ExprStmtComplete(s: Stmt, phrase: seq<Token>, rest: seq<Token>)
    requires Lexed(phrase + rest) && s.ExprStmt? && Ended(s.e, phrase)
    ensures ParseStmt(phrase + rest) == Parsed(s, rest)
  {
    EndedComplete(s.e, phrase, rest);
  }

  lemma ReturnComplete(s: Stmt, phrase: seq<Token>, rest: seq<Token>)
    requires Lexed(phrase + rest) && s.Return? && Statement(s, phrase, false)
    ensures ParseStmt(phrase + rest) == Parsed(s, rest)
  {
    var ts := phrase + rest;
    if s.result.None? {
      assert ts[2..] == rest;
    } else {
      var inner := phrase[1..];
      assert ts == [KwReturn] + (inner + rest);
      LexedTail([KwReturn], inner + rest);
      EndedComplete(s.result.value, inner, rest);
      assert ts[1..] == inner + rest && Ahead(ts, 1) == inner[0];
    }
  }

  /** The condition of a guarded statement and what stands behind it. */
  lemma ConditionComplete(keyword: Token, c: Expr, phrase: seq<Token>, k: nat, rest: seq<Token>)
    requires Lexed(phrase + rest) && Guarded(keyword, c, phrase, k)
    ensures var ts := phrase + rest; ts[0] == keyword
    ensures ParseCondition((phrase + rest)[1..]) == Parsed(c, phrase[k+1..] + rest) && Lexed(phrase[k+1..] + rest)
  {
    var (inner, tail) := (phrase[2..k], phrase[k+1..] + rest);
    var ts := inner + ([RParen] + tail);
    assert phrase + rest == [keyword, LParen] + ts;
    LexedTail([keyword, LParen], ts);
    ClosedComplete(c, inner, RParen, tail);
    LexedTail(inner, [RParen] + tail);
    LexedTail([RParen], tail);
    assert (phrase + rest)[1..] == [LParen] + ts && ([LParen] + ts)[1..] == ts;
  }

  lemma {:induction false} WhileComplete(s: Stmt, phrase: seq<Token>, rest: seq<Token>)
    requires Lexed(phrase + rest) && s.While? && Statement(s, phrase, Cur(rest) == KwElse)
    ensures ParseStmt(phrase + rest) == Parsed(s, rest)
    decreases |phrase|, 1
  {
    var k: nat :| Loop(s, phrase, Cur(rest) == KwElse, k);
    ConditionComplete(KwWhile, s.cond, phrase, k, rest);
    StatementComplete(s.body, phrase[k+1..], rest);
    StmtRoundTrip.WhileStep(phrase + rest, s.cond, phrase[k+1..] + rest, s.body, rest);
  }

  lemma {:induction false} IfComplete(s: Stmt, phrase: seq<Token>, rest: seq<Token>)
    requires Lexed(phrase + rest) && s.If? && Statement(s, phrase, Cur(rest) == KwElse)
    ensures ParseStmt(phrase + rest) == Parsed(s, rest)
    decreases |phrase|, 1
  {
    var k: nat, m: nat :| Branches(s, phrase, Cur(rest) == KwElse, k, m);
    ConditionComplete(KwIf, s.cond, phrase, k, rest);
    if m == |phrase| {
      assert phrase[k+1..m] == phrase[k+1..];
      StatementComplete(s.thn, phrase[k+1..], rest);
      ShortIfStep(phrase + rest, s.cond, phrase[k+1..] + rest, s.thn, rest);
    } else {
      LongIfComplete(s, phrase, rest, k, m);
    }
  }

  lemma {:induction false} LongIfComplete(s: Stmt, phrase: seq<Token>, rest: seq<Token>, k: nat, m: nat)
    requires Lexed(phrase + rest) && m < |phrase| && Branches(s, phrase, Cur(rest) == KwElse, k, m)
    ensures ParseStmt(phrase + rest) == Parsed(s, rest)
    decreases |phrase|, 0
  {
    ConditionComplete(KwIf, s.cond, phrase, k, rest);
    var (first, second) := (phrase[k+1..m], phrase[m+1..]);
    var after := [KwElse] + (second + rest);
    assert phrase[k+1..] + rest == first + after;
    LexedTail(first, after);
    LexedTail([KwElse], second + rest);
    StatementComplete(s.thn, first, after);
    StatementComplete(s.els, second, rest);
    assert after[1..] == second + rest;
    LongIfStep(phrase + rest, s.cond, phrase[k+1..] + rest, s.thn, after, s.els, rest);
  }

  lemma ShortIfStep(ts: seq<Token>, c: Expr, mid: seq<Token>, thn: Stmt, rest: seq<Token>)
    requires Cur(ts) == KwIf && ParseCondition(ts[1..]) == Parsed(c, mid) && ParseStmt(mid) == Parsed(thn, rest)
    requires Cur(rest) != KwElse
    ensures ParseStmt(ts) == Parsed(If(c, thn, Empty), rest)
  {
    assert ParseIf(ts) == Parsed(If(c, thn, Empty), rest);
  }

  lemma LongIfStep(ts: seq<Token>, c: Expr, mid: seq<Token>, thn: Stmt, after: seq<Token>, els: Stmt, rest: seq<Token>)
    requires Cur(ts) == KwIf && ParseCondition(ts[1..]) == Parsed(c, mid) && ParseStmt(mid) == Parsed(thn, after)
    requires Cur(after) == KwElse && ParseStmt(after[1..]) == Parsed(els, rest)
    ensures ParseStmt(ts) == Parsed(If(c, thn, els), rest)
  {
    assert ParseIf(ts) == Parsed(If(c, thn, els), rest);
  }

  lemma {:induction false} BlockComplete(s: Stmt, phrase: seq<Token>, rest: seq<Token>)
    requires Lexed(phrase + rest) && s.Block? && Statement(s, phrase, false)
    ensures ParseStmt(phrase + rest) == Parsed(s, rest)
    decreases |phrase|, 1
  {
    var inner := phrase[1..|phrase|-1];
    var tail := inner + ([RBrace] + rest);
    assert phrase + rest == [LBrace] + tail;
    LexedTail([LBrace], tail);
    ItemsComplete([], s.stmts, inner, rest);
    assert (phrase + rest)[1..] == tail && [] + s.stmts == s.stmts;
    StmtRoundTrip.StatementIsBlock(phrase + rest);
  }

  lemma {:induction false} BlockStatementComplete(s: Stmt, phrase: seq<Token>, rest: seq<Token>)
    requires Lexed(phrase + rest) && BlockStatement(s, phrase, Cur(rest) == KwElse)
    ensures ParseBlockStmt(phrase + rest) == Parsed(s, rest) && phrase != [] && StartsBlockStmt(phrase[0])
    decreases |phrase|, 3
  {
    if Declaration(s, phrase) {
      DeclarationStarts(s, phrase, rest);
      DeclarationComplete(s, phrase, rest);
    } else {
      StatementStarts(s, phrase, Cur(rest) == KwElse, rest);
      StatementComplete(s, phrase, rest);
    }
  }

  lemma {:induction false} ItemsComplete(done: seq<Stmt>, ss: seq<Stmt>, inner: seq<Token>, rest: seq<Token>)
    requires Lexed(inner + ([RBrace] + rest)) && Items(ss, inner)
    ensures BlockItems(done, inner + ([RBrace] + rest)) == Parsed(Block(done + ss), rest)
    decreases |inner|, 5
  {
    var tail := [RBrace] + rest;
    if ss == [] && inner == [] {
      assert inner + tail == tail && tail[1..] == rest && done + [] == done;
    } else if inner != [] && inner[0] == Semicolon && Items(ss, inner[1..]) {
      var more := inner[1..] + tail;
      assert inner + tail == [Semicolon] + more;
      LexedTail([Semicolon], more);
      ItemsComplete(done, ss, inner[1..], rest);
      SemicolonStep(done, more);
    } else {
      var k: nat :| ItemAt(ss, inner, k);
      ItemComplete(done, ss, inner, rest, k);
    }
  }

  lemma {:induction false} ItemComplete(done: seq<Stmt>, ss: seq<Stmt>, inner: seq<Token>, rest: seq<Token>, k: nat)
    requires Lexed(inner + ([RBrace] + rest)) && ItemAt(ss, inner, k)
    ensures BlockItems(done, inner + ([RBrace] + rest)) == Parsed(Block(done + ss), rest)
    decreases |inner|, 4
  {
    var (first, more) := (inner[..k], inner[k..] + ([RBrace] + rest));
    SplitTokens(inner, k, [RBrace] + rest);
    LexedTail(first, more);
    BehindItem(ss[1..], inner[k..], rest);
    BlockStatementComplete(ss[0], first, more);
    ItemsComplete(done + [ss[0]], ss[1..], inner[k..], rest);
    ItemStep(done, first + more, ss[0], more);
    JoinItems(done, ss);
  }

  lemma SplitTokens(inner: seq<Token>, k: nat, tail: seq<Token>)
    requires k <= |inner|
    ensures inner + tail == inner[..k] + (inner[k..] + tail)
  {
  }

  lemma JoinItems(done: seq<Stmt>, ss: seq<Stmt>)
    requires ss != []
    ensures (done + [ss[0]]) + ss[1..] == done + ss
  {
  }

  /** No `else` follows an item of a block. */
  lemma BehindItem(ss: seq<Stmt>, more: seq<Token>, rest: seq<Token>)
    requires Items(ss, more)
    ensures Cur(more + ([RBrace] + rest)) != KwElse
  {
    if more != [] { ItemsStart(ss, more); }
  }

  lemma SemicolonStep(done: seq<Stmt>, more: seq<Token>)
    ensures BlockItems(done, [Semicolon] + more) == BlockItems(done, more)
  {
    var ts := [Semicolon] + more;
    assert ts[1..] == more;
    assert ParseBlockStmt(ts) == Parsed(Empty, more);
  }

  lemma ItemStep(done: seq<Stmt>, ts: seq<Token>, s: Stmt, more: seq<Token>)
    requires StartsBlockStmt(Cur(ts)) && ParseBlockStmt(ts) == Parsed(s, more) && s != Empty
    ensures BlockItems(done, ts) == BlockItems(done + [s], more)
  {
  }

  // ---- declarations ----

  lemma {:induction false} DimensionsComplete(basic: BasicType, d: nat, pairs: seq<Token>, rest: seq<Token>)
    requires Pairs(pairs) && Cur(rest) != LBracket
    ensures TypeDimensions(basic, d, pairs + rest) == Parsed(Type(basic, d + |pairs| / 2), rest)
    decreases |pairs|
  {
    if pairs == [] {
      assert pairs + rest == rest;
    } else {
      assert (pairs + rest)[2..] == pairs[2..] + rest;
      DimensionsComplete(basic, d + 1, pairs[2..], rest);
    }
  }

  lemma TypeComplete(ty: Type, t: seq<Token>, rest: seq<Token>)
    requires |t| == 1 + 2 * ty.dimension && NamesType(t[0], ty.basic) && Pairs(t[1..]) && Cur(rest) != LBracket
    ensures ParseType(t + rest) == Parsed(ty, rest)
  {
    assert (t + rest)[1..] == t[1..] + rest;
    DimensionsComplete(ty.basic, 0, t[1..], rest);
  }

  lemma DeclaratorComplete(s: Stmt, tail: seq<Token>, rest: seq<Token>)
    requires Lexed(tail + rest) && Declarator(s, tail)
    ensures DeclaratorTail(s.ty, tail + rest) == Parsed(s, rest)
  {
    var ts := tail + rest;
    if s.init.None? {
      assert tail[1] == tail[1..][0] && ts[2..] == rest;
    } else {
      var inner := tail[2..];
      assert ts == [Identifier(s.name), Eq] + (inner + rest);
      LexedTail([Identifier(s.name), Eq], inner + rest);
      EndedComplete(s.init.value, inner, rest);
      assert ts[2..] == inner + rest;
    }
  }

  lemma DeclarationComplete(s: Stmt, phrase: seq<Token>, rest: seq<Token>)
    requires Lexed(phrase + rest) && Declaration(s, phrase)
    ensures ParseVarDecl(phrase + rest) == Parsed(s, rest)
  {
    var k := 1 + 2 * s.ty.dimension;
    var (t, tail) := (phrase[..k], phrase[k..]);
    assert phrase + rest == t + (tail + rest);
    LexedTail(t, tail + rest);
    assert t[1..] == phrase[1..k] && tail[1..] == phrase[k+1..] && tail[2..] == phrase[k+2..];
    TypeComplete(s.ty, t, tail + rest);
    DeclaratorComplete(s, tail, rest);
  }

  // ---- the theorems ----

  /** Main result: on every lexer output the statement parser returns a statement and the tokens behind it exactly when the
      grammar derives that statement from the tokens before them, with no `if` left open before an `else`. */
  lemma StatementParserIsTheGrammar(ts: seq<Token>, s: Stmt, rest: seq<Token>)
    requires Lexed(ts)
    ensures ParseStmt(ts) == Parsed(s, rest) <==>
      exists phrase :: ts == phrase + rest && Statement(s, phrase, Cur(rest) == KwElse)
    ensures ParseBlockStmt(ts) == Parsed(s, rest) <==>
      exists phrase :: ts == phrase + rest && BlockStatement(s, phrase, Cur(rest) == KwElse)
  {
    if ParseStmt(ts) == Parsed(s, rest) {
      var phrase := StatementSound(ts);
    }
    if phrase :| ts == phrase + rest && Statement(s, phrase, Cur(rest) == KwElse) {
      StatementComplete(s, phrase, rest);
    }
    if ParseBlockStmt(ts) == Parsed(s, rest) {
      var phrase := BlockStatementSound(ts);
    }
    if phrase :| ts == phrase + rest && BlockStatement(s, phrase, Cur(rest) == KwElse) {
      BlockStatementComplete(s, phrase, rest);
    }
  }
}
