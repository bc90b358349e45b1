/** Reading tokens one after the other finds exactly what the lexical grammar asks for: the longest token at each place, with
    only white space and comments in between. */
module LexingExact {
  import opened Lexing

  // ---- the characters and operators, listed ----

  const LOWER := "abcdefghijklmnopqrstuvwxyz"
  const UPPER := "ABCDEFGHIJKLMNOPQRSTUVWXYZ"
  const DIGITS := "0123456789"
  const SINGLES := "*%+-<>=!&|^/()[]{}?,.:;~"
  const LONGER: set<string> := {
    "*=", "%=", "++", "+=", "--", "-=", "<=", "<<", "<<=", ">=", ">>", ">>=", ">>>", ">>>=",
    "==", "!=", "&&", "&=", "||", "|=", "^=", "/="}

  predicate Among(c: char, s: string) { exists i :: 0 <= i < |s| && s[i] == c }

  lemma LowerAre(c: char)
    ensures 'a' <= c <= 'z' <==> Among(c, LOWER)
  {
    if 'a' <= c <= 'z' { assert LOWER[(c - 'a') as int] == c; }
  }

  lemma UpperAre(c: char)
    ensures 'A' <= c <= 'Z' <==> Among(c, UPPER)
  {
    if 'A' <= c <= 'Z' { assert UPPER[(c - 'A') as int] == c; }
  }

  lemma DigitsAre(c: char)
    ensures IsDigit(c) <==> Among(c, DIGITS)
  {
    if IsDigit(c) { assert DIGITS[(c - '0') as int] == c; }
  }

  /** Letters with the underscore, digits and white space. */
  lemma CharactersAreListed(c: char)
    ensures IsAlpha(c) <==> Among(c, LOWER) || Among(c, UPPER) || c == '_'
    ensures IsDigit(c) <==> Among(c, DIGITS)
    ensures IsSpace(c) <==> c in " \t\r\n"
  {
    LowerAre(c);
    UpperAre(c);
    DigitsAre(c);
  }

  lemma LongerForms(w: string)
    requires w in LONGER
    ensures if |w| == 2 then Op2(w[0], w[1]) else if |w| == 3 then Op3(w[0], w[1], w[2]) else |w| == 4 && Op4(w[0], w[1], w[2], w[3])
  {
  }

  lemma LongerAre(w: string)
    requires (|w| == 2 && Op2(w[0], w[1])) || (|w| == 3 && Op3(w[0], w[1], w[2])) || (|w| == 4 && Op4(w[0], w[1], w[2], w[3]))
    ensures w in LONGER
  {
    if |w| == 2 {
      assert w == [w[0], w[1]];
    } else if |w| == 3 {
      assert w == [w[0], w[1], w[2]];
    } else {
      assert w == [w[0], w[1], w[2], w[3]];
    }
  }

  /** The operators and separators. */
  lemma OperatorsAreListed(w: string)
    ensures IsOperator(w) <==> (|w| == 1 && w[0] in SINGLES) || w in LONGER
  {
    if w in LONGER { LongerForms(w); }
    if |w| != 1 && IsOperator(w) { LongerAre(w); }
  }

  // ---- the lexical grammar ----

  /** Identifiers and keywords. */
  predicate IsWord(w: string) { w != "" && IsAlpha(w[0]) && forall i :: 0 <= i < |w| ==> IsAlnum(w[i]) }

  /** 0, or digits that do not start with it. */
  predicate IsNumber(w: string) { w == "0" || (w != "" && w[0] != '0' && forall i :: 0 <= i < |w| ==> IsDigit(w[i])) }

  /** The kind of a token says what its text is. */
  predicate HasKind(kw: Reserved, token: Token) {
    match token.kind
    case Keyword => IsWord(token.text) && token.text in kw
    case Identifier => IsWord(token.text) && token.text !in kw
    case IntLiteral => IsNumber(token.text)
    case Operator => IsOperator(token.text)
    case Eof => false
  }

  /** The operator `w` stands at the start of `text`. */
  ghost predicate Opens(w: string, text: string) { IsOperator(w) && w <= text }

  /** Nothing in the text behind a token makes it longer, and a slash does not open a comment. */
  ghost predicate IsLongest(token: Token, after: string) {
    match token.kind
    case Keyword => after == "" || !IsAlnum(after[0])
    case Identifier => after == "" || !IsAlnum(after[0])
    case IntLiteral => token.text == "0" || after == "" || !IsDigit(after[0])
    case Operator =>
      && (forall w :: Opens(w, token.text + after) ==> |w| <= |token.text|)
      && !(token.text == "/" && after != "" && after[0] == '*')
    case Eof => true
  }

  /** A gap from position `i` on, and the place of the token behind it. */
  ghost predicate Placed(t: string, i: nat, x: Lexeme) {
    && IsGap(x.gap) && (forall j :: 0 <= j < |x.gap| ==> x.gap[j] as int < 128)
    && var k := i + |x.gap|;
       k <= |t| && t[i..k] == x.gap && x.token.line == LineOf(t, k) && x.token.col == ColumnOf(t, k)
  }

  function After(i: nat, x: Lexeme): nat { i + |x.gap| + |x.token.text| }

  /** The text at `k` starts with the token, and with no longer one. */
  ghost predicate Stands(kw: Reserved, t: string, k: nat, token: Token) {
    && k + |token.text| <= |t| && t[k..k + |token.text|] == token.text
    && HasKind(kw, token) && IsLongest(token, t[k + |token.text|..])
  }

  /** A gap from position `i` on and the longest token behind it. */
  ghost predicate Next(kw: Reserved, t: string, i: nat, x: Lexeme) {
    && Placed(t, i, x)
    && Stands(kw, t, i + |x.gap|, x.token)
  }

  /** A gap up to the end of the input. */
  ghost predicate Ends(t: string, i: nat, x: Lexeme) {
    Placed(t, i, x) && i + |x.gap| == |t| && x.token.kind == Eof && x.token.text == "EOF"
  }

  /** `ls` is the reading of the input from position `i` on. */
  ghost predicate Tokens(kw: Reserved, t: string, i: nat, ls: seq<Lexeme>)
    decreases |ls|
  {
    && ls != []
    && if |ls| == 1 then Ends(t, i, ls[0]) else Next(kw, t, i, ls[0]) && Tokens(kw, t, After(i, ls[0]), ls[1..])
  }

  // ---- words, numbers and operators ----

  lemma OperatorHead(w: string)
    requires IsOperator(w)
    ensures w != "" && !IsAlnum(w[0]) && !IsSpace(w[0])
  {
    assert Op1(w[0]);
  }

  lemma WordEndIs(t: string, k: nat, e: nat)
    requires k <= e <= |t| && (forall j :: k <= j < e ==> IsAlnum(t[j])) && (e < |t| ==> !IsAlnum(t[e]))
    ensures WordEnd(t, k) == e
  {
    WordEnds(t, k);
  }

  lemma NumberEndIs(t: string, k: nat, e: nat)
    requires k <= e <= |t| && (forall j :: k <= j < e ==> IsDigit(t[j])) && (e < |t| ==> !IsDigit(t[e]))
    ensures NumberEnd(t, k) == e
  {
    NumberEnds(t, k);
  }

  // ---- the token at a position ----

  lemma WordAt(kw: Reserved, t: string, k: nat)
    requires k < |t| && IsAlpha(t[k])
    ensures var r := TokenAt(kw, t, k); r.Got? && k < r.next <= |t| && HasKind(kw, r.token) && IsLongest(r.token, t[r.next..])
  {
    WordEnds(t, k);
    var e := WordEnd(t, k);
    assert IsAlnum(t[k]);
  }

  lemma NumberAt(kw: Reserved, t: string, k: nat)
    requires k < |t| && IsDigit(t[k])
    ensures var r := TokenAt(kw, t, k); r.Got? && k < r.next <= |t| && HasKind(kw, r.token) && IsLongest(r.token, t[r.next..])
  {
    NumberEnds(t, k);
    var e := if t[k] == '0' then k + 1 else NumberEnd(t, k);
    if t[k] == '0' { assert t[k..e] == "0"; }
  }

  lemma OperatorAt(kw: Reserved, t: string, k: nat)
    requires k < |t| && !IsAlnum(t[k]) && TokenAt(kw, t, k).Got? && !(At(t, k, '/') && At(t, k + 1, '*'))
    ensures var r := TokenAt(kw, t, k); k < r.next <= |t| && HasKind(kw, r.token) && IsLongest(r.token, t[r.next..])
  {
    OperatorsAreLongest(t, k, "");
    var e := k + OpLength(t, k);
    LengthIsLongest(t, k, e);
    if t[k..e] == "/" { assert t[k..e][0] == t[k]; }
  }

  lemma LengthIsLongest(t: string, k: nat, e: nat)
    requires k <= e <= |t| && e == k + OpLength(t, k)
    ensures forall w :: Opens(w, t[k..e] + t[e..]) ==> |w| <= e - k
  {
    assert t[k..e] + t[e..] == t[k..];
    forall w | Opens(w, t[k..e] + t[e..]) ensures |w| <= e - k { OperatorsAreLongest(t, k, w); }
  }

  /** Where neither white space nor a comment starts. */
  lemma NoGap(t: string, k: nat)
    requires k <= |t|
    ensures Skip(t, k) == Found(k) <==> k == |t| || (!IsSpace(t[k]) && !(At(t, k, '/') && At(t, k + 1, '*')))
  {
    if k < |t| && IsSpace(t[k]) && Skip(t, k + 1).Found? { SkipsGap(t, k + 1); }
    if At(t, k, '/') && At(t, k + 1, '*') {
      CommentEndsFirst(t, k + 2);
      var e := CommentEnd(t, k + 2);
      if e.Found? && Skip(t, e.pos).Found? { SkipsGap(t, e.pos); }
    }
  }

  lemma TokenIsLongest(kw: Reserved, t: string, k: nat)
    requires k < |t| && Skip(t, k) == Found(k) && TokenAt(kw, t, k).Got?
    ensures var r := TokenAt(kw, t, k); k < r.next <= |t| && HasKind(kw, r.token) && IsLongest(r.token, t[r.next..])
  {
    NoGap(t, k);
    if IsAlpha(t[k]) {
      WordAt(kw, t, k);
    } else if IsDigit(t[k]) {
      NumberAt(kw, t, k);
    } else {
      OperatorAt(kw, t, k);
    }
  }

  lemma LongestIsRead(kw: Reserved, t: string, k: nat, token: Token, e: nat)
    requires Stands(kw, t, k, token) && e == k + |token.text|
    ensures k < e <= |t| && Skip(t, k) == Found(k)
    ensures TokenAt(kw, t, k) == Make(t, token.kind, k, e)
  {
    if token.kind == IntLiteral {
      NumberIsRead(kw, t, k, e);
    } else if token.kind == Operator {
      OperatorIsRead(kw, t, k, e);
    } else {
      WordIsRead(kw, t, k, e);
    }
  }

  lemma WordIsRead(kw: Reserved, t: string, k: nat, e: nat)
    requires k <= e <= |t| && IsWord(t[k..e]) && (e < |t| ==> !IsAlnum(t[e]))
    ensures k < e && Skip(t, k) == Found(k)
    ensures TokenAt(kw, t, k) == Make(t, if t[k..e] in kw then Keyword else Identifier, k, e)
  {
    var w := t[k..e];
    forall j | k <= j < e ensures IsAlnum(t[j]) { assert w[j-k] == t[j]; }
    WordEndIs(t, k, e);
    assert w[0] == t[k];
    NoGap(t, k);
  }

  lemma NumberIsRead(kw: Reserved, t: string, k: nat, e: nat)
    requires k <= e <= |t| && IsNumber(t[k..e]) && (t[k..e] == "0" || e == |t| || !IsDigit(t[e]))
    ensures k < e && Skip(t, k) == Found(k)
    ensures TokenAt(kw, t, k) == Make(t, IntLiteral, k, e)
  {
    var w := t[k..e];
    assert w[0] == t[k];
    NoGap(t, k);
    if t[k] != '0' {
      forall j | k <= j < e ensures IsDigit(t[j]) { assert w[j-k] == t[j]; }
      NumberEndIs(t, k, e);
    }
  }

  lemma OperatorIsRead(kw: Reserved, t: string, k: nat, e: nat)
    requires k <= e <= |t| && IsOperator(t[k..e])
    requires forall w :: Opens(w, t[k..e] + t[e..]) ==> |w| <= e - k
    requires !(t[k..e] == "/" && e < |t| && t[e] == '*')
    ensures k < e && Skip(t, k) == Found(k)
    ensures TokenAt(kw, t, k) == Make(t, Operator, k, e)
  {
    OperatorStart(t, k, e);
    LongestLength(t, k, e);
    if At(t, k, '/') && At(t, k + 1, '*') { SlashAlone(t, k, e); }
    NoGap(t, k);
  }

  lemma OperatorStart(t: string, k: nat, e: nat)
    requires k <= e <= |t| && IsOperator(t[k..e])
    ensures k < e && !IsAlnum(t[k]) && !IsSpace(t[k])
  {
    OperatorHead(t[k..e]);
    assert t[k..e][0] == t[k];
  }

  lemma LongestLength(t: string, k: nat, e: nat)
    requires k < e <= |t| && IsOperator(t[k..e])
    requires forall w :: Opens(w, t[k..e] + t[e..]) ==> |w| <= e - k
    ensures OpLength(t, k) == e - k
  {
    assert t[k..] == t[k..e] + t[e..];
    OperatorsAreLongest(t, k, t[k..e]);
    assert Opens(t[k..k+OpLength(t, k)], t[k..e] + t[e..]);
  }

  /** No operator but the slash itself starts like a comment. */
  lemma SlashAlone(t: string, k: nat, e: nat)
    requires k <= e <= |t| && IsOperator(t[k..e]) && At(t, k, '/') && At(t, k + 1, '*')
    ensures t[k..e] == "/" && e < |t| && t[e] == '*'
  {
    var w := t[k..e];
    assert forall j :: 0 <= j < |w| ==> w[j] == t[k+j];
  }

  // ---- the theorems ----

  lemma ClearGap(t: string, i: nat, k: nat)
    requires i <= k <= |t|
    ensures Clear(t, i, k) <==> IsGap(t[i..k]) && forall j :: 0 <= j < |t[i..k]| ==> t[i..k][j] as int < 128
  {
    var gap := t[i..k];
    if forall j :: 0 <= j < |gap| ==> gap[j] as int < 128 {
      forall j | i <= j < k ensures t[j] as int < 128 { assert gap[j-i] == t[j]; }
    }
  }

  lemma NextIsRead(kw: Reserved, t: string, i: nat, x: Lexeme)
    requires Next(kw, t, i, x)
    ensures Skip(t, i) == Found(i + |x.gap|) && x.token.text != "" && Scan(kw, t, i) == Got(x.token, After(i, x))
  {
    GapSkipped(kw, t, i, x);
    NextTaken(kw, t, i, x);
    NextScanned(kw, t, i, x);
  }

  lemma NextTaken(kw: Reserved, t: string, i: nat, x: Lexeme)
    requires Stands(kw, t, i + |x.gap|, x.token)
    ensures After(i, x) <= |t| && x.token.text != "" && Skip(t, i + |x.gap|) == Found(i + |x.gap|)
    ensures TokenAt(kw, t, i + |x.gap|) == Make(t, x.token.kind, i + |x.gap|, After(i, x))
  {
    var (k, e) := (i + |x.gap|, After(i, x));
    LongestIsRead(kw, t, k, x.token, e);
  }

  lemma GapSkipped(kw: Reserved, t: string, i: nat, x: Lexeme)
    requires Next(kw, t, i, x)
    ensures i + |x.gap| <= |t| && Skip(t, i) == Skip(t, i + |x.gap|)
  {
    PlacedSkips(t, i, x);
  }

  lemma NextScanned(kw: Reserved, t: string, i: nat, x: Lexeme)
    requires Next(kw, t, i, x) && Skip(t, i) == Found(i + |x.gap|)
    requires TokenAt(kw, t, i + |x.gap|) == Make(t, x.token.kind, i + |x.gap|, After(i, x))
    ensures Scan(kw, t, i) == Got(x.token, After(i, x))
  {
    TokenScanned(kw, t, i, i + |x.gap|, x.token);
  }

  lemma PlacedSkips(t: string, i: nat, x: Lexeme)
    requires Placed(t, i, x)
    ensures i + |x.gap| <= |t| && Skip(t, i) == Skip(t, i + |x.gap|)
  {
    ClearGap(t, i, i + |x.gap|);
    SkipsClear(t, i, i + |x.gap|);
  }

  lemma TokenScanned(kw: Reserved, t: string, i: nat, k: nat, token: Token)
    requires i <= k && k + |token.text| <= |t| && Skip(t, i) == Found(k) && t[k..k + |token.text|] == token.text
    requires token.line == LineOf(t, k) && token.col == ColumnOf(t, k)
    requires TokenAt(kw, t, k) == Make(t, token.kind, k, k + |token.text|)
    ensures Scan(kw, t, i) == Got(token, k + |token.text|)
  {
  }

  lemma EndIsRead(kw: Reserved, t: string, i: nat, x: Lexeme)
    requires Ends(t, i, x)
    ensures Skip(t, i) == Found(|t|) && Scan(kw, t, i) == Got(x.token, |t|)
  {
    PlacedSkips(t, i, x);
  }

  lemma ReadIsNext(kw: Reserved, t: string, i: nat)
    requires i <= |t| && Scan(kw, t, i).Got?
    ensures var r := Scan(kw, t, i); var k := Skip(t, i).pos;
      && i <= k <= r.next <= |t|
      && var x := Lexeme(t[i..k], r.token);
         if r.token.kind == Eof then Ends(t, i, x) else Next(kw, t, i, x) && r.next == After(i, x)
  {
    var k := SkipBreaks(t, i);
    SkipsClear(t, i, k);
    ReadIsPlaced(kw, t, i, k);
    if k < |t| { ReadStands(kw, t, k); }
  }

  lemma ReadStands(kw: Reserved, t: string, k: nat)
    requires k < |t| && Skip(t, k) == Found(k) && TokenAt(kw, t, k).Got?
    ensures var r := TokenAt(kw, t, k);
      r.token.kind != Eof && r.next == k + |r.token.text| <= |t| && Stands(kw, t, k, r.token)
  {
    TextIsInput(kw, t, k);
    TokenIsLongest(kw, t, k);
  }

  lemma ReadIsPlaced(kw: Reserved, t: string, i: nat, k: nat)
    requires Clear(t, i, k) && TokenAt(kw, t, k).Got?
    ensures Placed(t, i, Lexeme(t[i..k], TokenAt(kw, t, k).token))
  {
    ClearGap(t, i, k);
  }

  lemma {:induction false} LexedIsTokens(kw: Reserved, t: string, i: nat)
    requires i <= |t| && LexAll(kw, t, i).Lexed?
    ensures Tokens(kw, t, i, LexAll(kw, t, i).lexemes)
    decreases |t| - i
  {
    LexStep(kw, t, i);
    ReadIsNext(kw, t, i);
    var r := Scan(kw, t, i);
    if r.token.kind != Eof {
      ScanFacts(kw, t, i);
      LexedIsTokens(kw, t, r.next);
      JoinTokens(kw, t, i, Lexeme(t[i..Skip(t, i).pos], r.token), LexAll(kw, t, r.next).lexemes);
    }
  }

  lemma JoinTokens(kw: Reserved, t: string, i: nat, x: Lexeme, rest: seq<Lexeme>)
    requires Next(kw, t, i, x) && Tokens(kw, t, After(i, x), rest)
    ensures Tokens(kw, t, i, [x] + rest)
  {
    assert ([x] + rest)[1..] == rest;
  }

  lemma {:induction false} TokensAreLexed(kw: Reserved, t: string, i: nat, ls: seq<Lexeme>)
    requires i <= |t| && Tokens(kw, t, i, ls)
    ensures LexAll(kw, t, i) == Lexed(ls)
    decreases |ls|
  {
    var x := ls[0];
    if |ls| == 1 {
      EndIsRead(kw, t, i, x);
      EndStep(kw, t, i, x);
      assert ls == [x];
    } else {
      NextIsRead(kw, t, i, x);
      TokensAreLexed(kw, t, After(i, x), ls[1..]);
      NextStep(kw, t, i, x, ls[1..]);
      assert ls == [x] + ls[1..];
    }
  }

  lemma EndStep(kw: Reserved, t: string, i: nat, x: Lexeme)
    requires Ends(t, i, x) && Skip(t, i) == Found(|t|) && Scan(kw, t, i) == Got(x.token, |t|)
    ensures LexAll(kw, t, i) == Lexed([x])
  {
  }

  lemma NextStep(kw: Reserved, t: string, i: nat, x: Lexeme, rest: seq<Lexeme>)
    requires Placed(t, i, x) && After(i, x) <= |t| && Skip(t, i) == Found(i + |x.gap|) && Scan(kw, t, i) == Got(x.token, After(i, x))
    requires x.token.text != "" && x.token.kind != Eof && LexAll(kw, t, After(i, x)) == Lexed(rest)
    ensures LexAll(kw, t, i) == Lexed([x] + rest)
  {
  }

  /** Main result: the lexer's reading of an input is the one and only reading the lexical grammar allows, and it fails
      exactly when there is none. */
  lemma LexingIsTheGrammar(kw: Reserved, t: string, ls: seq<Lexeme>)
    ensures LexAll(kw, t, 0) == Lexed(ls) <==> Tokens(kw, t, 0, ls)
  {
    if LexAll(kw, t, 0) == Lexed(ls) { LexedIsTokens(kw, t, 0); }
    if Tokens(kw, t, 0, ls) { TokensAreLexed(kw, t, 0, ls); }
  }

  lemma {:induction false} TokenInside(kw: Reserved, t: string, i: nat, ls: seq<Lexeme>, j: nat)
    requires Tokens(kw, t, i, ls) && j < |ls| - 1
    ensures HasKind(kw, ls[j].token)
    decreases j
  {
    if j > 0 { TokenInside(kw, t, After(i, ls[0]), ls[1..], j - 1); }
  }

  /** Words, numbers and operators start with different characters. */
  lemma ClassesApart(w: string)
    ensures !(IsWord(w) && IsNumber(w)) && !(IsWord(w) && IsOperator(w)) && !(IsNumber(w) && IsOperator(w))
  {
    if IsOperator(w) { OperatorHead(w); }
  }

  /** The kind of every token is decided by its text alone. */
  lemma KindsAreExact(kw: Reserved, t: string, j: nat)
    requires LexAll(kw, t, 0).Lexed? && j < |LexAll(kw, t, 0).lexemes| && LexAll(kw, t, 0).lexemes[j].token.kind != Eof
    ensures var token := LexAll(kw, t, 0).lexemes[j].token;
      && (token.kind == Keyword <==> IsWord(token.text) && token.text in kw)
      && (token.kind == Identifier <==> IsWord(token.text) && token.text !in kw)
      && (token.kind == IntLiteral <==> IsNumber(token.text))
      && (token.kind == Operator <==> IsOperator(token.text))
  {
    var ls := LexAll(kw, t, 0).lexemes;
    LexingIsTheGrammar(kw, t, ls);
    LexingSkipsGaps(kw, t, 0, j);
    TokenInside(kw, t, 0, ls, j);
    ClassesApart(ls[j].token.text);
  }
}
