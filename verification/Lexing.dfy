/** What the lexer (lexer.cpp, lexer.hpp) is to find in an input: positions of lines, tokens, white space and comments,
    each as a function of the whole text. */
module Lexing {
  // ---- lines, section 3.4 of the Java Language Specification ----

  /** Position `j` is the last character of a line terminator: LF, CR, or CR LF taken together. */
  predicate EndsLine(t: string, j: nat) {
    j < |t| && (t[j] == '\n' || (t[j] == '\r' && !(j + 1 < |t| && t[j+1] == '\n')))
  }

  /** One plus the number of line terminators before position `p`. */
  function LineOf(t: string, p: nat): nat {
    if p == 0 then 1 else LineOf(t, p - 1) + if EndsLine(t, p - 1) then 1 else 0
  }

  /** Columns count from 1; a tab is two columns wide. */
  function ColumnOf(t: string, p: nat): nat {
    if p == 0 || EndsLine(t, p - 1) then 1
    else ColumnOf(t, p - 1) + if p <= |t| && t[p-1] == '\t' then 2 else 1
  }

  /** The positions up to `p` at which lines start. */
  function LineStarts(t: string, p: nat): seq<nat> {
    if p == 0 then [0] else LineStarts(t, p - 1) + if EndsLine(t, p - 1) then [p] else []
  }

  /** The k-th recorded offset is the first position of line k + 1. */
  lemma {:induction false} LineStartsAreFirst(t: string, p: nat, k: nat)
    ensures |LineStarts(t, p)| == LineOf(t, p)
    ensures k < LineOf(t, p) ==>
      var q := LineStarts(t, p)[k]; q <= p && LineOf(t, q) == k + 1 && (forall r: nat :: r < q ==> LineOf(t, r) < k + 1)
    decreases p
  {
    if p > 0 {
      LineStartsAreFirst(t, p - 1, k);
      if k == LineOf(t, p) - 1 && EndsLine(t, p - 1) {
        forall r: nat | r < p ensures LineOf(t, r) < k + 1 { LineMonotone(t, r, p - 1); }
      }
    }
  }

  lemma {:induction false} LineMonotone(t: string, p: nat, q: nat)
    requires p <= q
    ensures LineOf(t, p) <= LineOf(t, q)
    decreases q
  {
    if p < q { LineMonotone(t, p, q - 1); }
  }

  // ---- white space and comments ----

  predicate IsSpace(c: char) { c == ' ' || c == '\r' || c == '\n' || c == '\t' }

  predicate IsAlpha(c: char) { ('a' <= c <= 'z') || ('A' <= c <= 'Z') || c == '_' }

  predicate IsDigit(c: char) { '0' <= c <= '9' }

  predicate IsAlnum(c: char) { IsAlpha(c) || IsDigit(c) }

  predicate At(t: string, i: nat, c: char) { i < |t| && t[i] == c }

  datatype Place = Found(pos: nat) | Broken(at: nat)

  /** The position after the comment whose text starts at `k`; only ASCII is allowed inside. */
  function CommentEnd(t: string, k: nat): Place
    decreases |t| - k
  {
    if k >= |t| then Broken(k)
    else if t[k] as int >= 128 then Broken(k)
    else if t[k] == '*' && At(t, k + 1, '/') then Found(k + 2)
    else CommentEnd(t, k + 1)
  }

  /** A comment ends at the first star-slash after its opener. */
  lemma {:induction false} CommentEndsFirst(t: string, k: nat)
    ensures var r := CommentEnd(t, k);
      r.Found? ==> k + 2 <= r.pos <= |t| && t[r.pos-2] == '*' && t[r.pos-1] == '/'
                   && forall j :: k <= j < r.pos - 2 ==> !(t[j] == '*' && t[j+1] == '/')
    ensures var r := CommentEnd(t, k);
      r.Broken? ==> r.at >= k && (forall j :: k <= j < r.at ==> !(At(t, j, '*') && At(t, j + 1, '/'))) &&
                    (r.at >= |t| || t[r.at] as int >= 128)
    decreases |t| - k
  {
    if k < |t| && t[k] as int < 128 && !(t[k] == '*' && At(t, k + 1, '/')) {
      CommentEndsFirst(t, k + 1);
    }
  }

  /** The next position that is neither in white space nor in a comment. */
  function Skip(t: string, i: nat): Place
    decreases |t| - i
  {
    if i >= |t| then Found(i)
    else if IsSpace(t[i]) then Skip(t, i + 1)
    else if t[i] == '/' && At(t, i + 1, '*') then
      CommentEndsFirst(t, i + 2);
      var e := CommentEnd(t, i + 2);
      if e.Found? then Skip(t, e.pos) else e
    else Found(i)
  }

  /** White space and whole comments, in any number. */
  predicate IsGap(w: string)
    decreases |w|
  {
    w == "" || (IsSpace(w[0]) && IsGap(w[1..]))
    || exists n :: 4 <= n <= |w| && IsComment(w[..n]) && IsGap(w[n..])
  }

  predicate IsComment(w: string) {
    && |w| >= 4 && w[0] == '/' && w[1] == '*' && w[|w|-2] == '*' && w[|w|-1] == '/'
    && forall j :: 2 <= j < |w| - 2 ==> !(w[j] == '*' && w[j+1] == '/')
  }

  /** What is skipped is white space and comments. */
  lemma {:induction false} SkipsGap(t: string, i: nat)
    requires i <= |t| && Skip(t, i).Found?
    ensures i <= Skip(t, i).pos <= |t| && IsGap(t[i..Skip(t, i).pos])
    decreases |t| - i
  {
    if i < |t| {
      var p := Skip(t, i).pos;
      if IsSpace(t[i]) {
        SkipsGap(t, i + 1);
        assert t[i..p][1..] == t[i+1..p];
      } else if t[i] == '/' && At(t, i + 1, '*') {
        CommentEndsFirst(t, i + 2);
        var e := CommentEnd(t, i + 2).pos;
        SkipsGap(t, e);
        CommentGap(t, i, e, p);
      }
    }
  }

  lemma CommentGap(t: string, i: nat, e: nat, p: nat)
    requires i + 4 <= e <= p <= |t| && t[i] == '/' && t[i+1] == '*' && t[e-2] == '*' && t[e-1] == '/'
    requires forall j :: i + 2 <= j < e - 2 ==> !(t[j] == '*' && t[j+1] == '/')
    requires IsGap(t[e..p])
    ensures IsGap(t[i..p])
  {
    var w, n := t[i..p], e - i;
    assert w[..n] == t[i..e] && w[n..] == t[e..p];
    forall j | 2 <= j < |w[..n]| - 2 ensures !(w[..n][j] == '*' && w[..n][j+1] == '/') {
      assert w[..n][j] == t[i+j] && w[..n][j+1] == t[i+j+1];
    }
    assert IsComment(w[..n]);
  }

  // ---- tokens ----

  datatype Kind = Identifier | Keyword | IntLiteral | Operator | Eof

  datatype Token = Token(kind: Kind, line: nat, col: nat, text: string)

  /** The words that are not identifiers. */
  type Reserved = set<string>

  /** A token and where the next one is looked for, or the position of an error. */
  datatype Scanned = Got(token: Token, next: nat) | Error(at: nat)

  predicate Op1(a: char) { a in "*%+-<>=!&|^/()[]{}?,.:;~" }

  predicate Op2(a: char, b: char) { (b == '=' && a in "*%+-<>=!&|^/") || (a == b && a in "+-<>&|") }

  predicate Op3(a: char, b: char, c: char) { a == b && ((c == '=' && a in "<>") || (a == '>' && c == '>')) }

  predicate Op4(a: char, b: char, c: char, d: char) { a == '>' && b == '>' && c == '>' && d == '=' }

  /** The operators and separators. */
  predicate IsOperator(w: string) {
    || (|w| == 1 && Op1(w[0])) || (|w| == 2 && Op2(w[0], w[1]))
    || (|w| == 3 && Op3(w[0], w[1], w[2])) || (|w| == 4 && Op4(w[0], w[1], w[2], w[3]))
  }

  /** The length of the operator at position `i`, 0 if there is none. */
  function OpLength(t: string, i: nat): nat {
    if i + 3 < |t| && Op4(t[i], t[i+1], t[i+2], t[i+3]) then 4
    else if i + 2 < |t| && Op3(t[i], t[i+1], t[i+2]) then 3
    else if i + 1 < |t| && Op2(t[i], t[i+1]) then 2
    else if i < |t| && Op1(t[i]) then 1
    else 0
  }

  /** It is the longest operator that the input continues with (section 3.2 of the Java Language Specification). */
  lemma OperatorsAreLongest(t: string, i: nat, w: string)
    requires i <= |t|
    ensures var n := OpLength(t, i); i + n <= |t| && (n > 0 ==> IsOperator(t[i..i+n]))
    ensures IsOperator(w) && w <= t[i..] ==> |w| <= OpLength(t, i)
  {
    var rest := t[i..];
    assert |rest| == |t| - i && forall k :: 0 <= k < |rest| ==> rest[k] == t[i+k];
    var found := t[i..i+OpLength(t, i)];
    assert forall k :: 0 <= k < |found| ==> found[k] == rest[k];
  }

  /** The end of a run of letters, digits and underscores. */
  function WordEnd(t: string, i: nat): nat
    decreases |t| - i
  {
    if i < |t| && IsAlnum(t[i]) then WordEnd(t, i + 1) else i
  }

  function NumberEnd(t: string, i: nat): nat
    decreases |t| - i
  {
    if i < |t| && IsDigit(t[i]) then NumberEnd(t, i + 1) else i
  }

  lemma {:induction false} WordEnds(t: string, i: nat)
    requires i <= |t|
    ensures var e := WordEnd(t, i); i <= e <= |t| && (forall j :: i <= j < e ==> IsAlnum(t[j])) && (e < |t| ==> !IsAlnum(t[e]))
    decreases |t| - i
  {
    if i < |t| && IsAlnum(t[i]) { WordEnds(t, i + 1); }
  }

  lemma {:induction false} NumberEnds(t: string, i: nat)
    requires i <= |t|
    ensures var e := NumberEnd(t, i); i <= e <= |t| && (forall j :: i <= j < e ==> IsDigit(t[j])) && (e < |t| ==> !IsDigit(t[e]))
    decreases |t| - i
  {
    if i < |t| && IsDigit(t[i]) { NumberEnds(t, i + 1); }
  }

  function Make(t: string, kind: Kind, k: nat, e: nat): Scanned
    requires k <= e <= |t|
  {
    Got(Token(kind, LineOf(t, k), ColumnOf(t, k), t[k..e]), e)
  }

  /** The token that starts at `k`, where neither white space nor a comment starts. */
  function TokenAt(kw: Reserved, t: string, k: nat): Scanned
    requires k <= |t|
  {
    if k == |t| then Got(Token(Eof, LineOf(t, k), ColumnOf(t, k), "EOF"), k)
    else if IsAlpha(t[k]) then
      WordEnds(t, k);
      Make(t, if t[k..WordEnd(t, k)] in kw then Keyword else Identifier, k, WordEnd(t, k))
    else if t[k] == '0' then Make(t, IntLiteral, k, k + 1)
    else if IsDigit(t[k]) then
      NumberEnds(t, k);
      Make(t, IntLiteral, k, NumberEnd(t, k))
    else
      OperatorsAreLongest(t, k, "");
      if OpLength(t, k) > 0 then Make(t, Operator, k, k + OpLength(t, k)) else Error(k)
  }

  /** readNextToken with position `i` as the next character. */
  function Scan(kw: Reserved, t: string, i: nat): Scanned
    requires i <= |t|
  {
    var p := Skip(t, i);
    if p.Broken? then Error(p.at)
    else
      SkipsGap(t, i);
      TokenAt(kw, t, p.pos)
  }

  /** Every token but the end of file consumes something. */
  lemma ScanAdvances(kw: Reserved, t: string, i: nat)
    requires i <= |t|
    ensures var r := Scan(kw, t, i); r.Got? ==> i <= r.next <= |t| && (r.token.kind != Eof ==> i < r.next) && (r.token.kind == Eof ==> r.next == |t|)
  {
    if Skip(t, i).Found? {
      SkipsGap(t, i);
      var k := Skip(t, i).pos;
      if k < |t| {
        WordEnds(t, k);
        NumberEnds(t, k);
        OperatorsAreLongest(t, k, "");
      }
    }
  }

  /** A token together with what was skipped before it. */
  datatype Lexeme = Lexeme(gap: string, token: Token)

  datatype Lexed = Lexed(lexemes: seq<Lexeme>) | Failed(at: nat)

  /** All tokens up to the end of file. */
  function LexAll(kw: Reserved, t: string, i: nat): Lexed
    requires i <= |t|
    decreases |t| - i
  {
    ScanAdvances(kw, t, i);
    var r := Scan(kw, t, i);
    if r.Error? then Failed(r.at)
    else
      SkipsGap(t, i);
      var lexeme := Lexeme(t[i..Skip(t, i).pos], r.token);
      if r.token.kind == Eof then Lexed([lexeme])
      else
        var rest := LexAll(kw, t, r.next);
        if rest.Failed? then rest else Lexed([lexeme] + rest.lexemes)
  }

  /** Gaps and token texts in order; the end of file has no text of its own. */
  function Spelling(ls: seq<Lexeme>): string {
    if ls == [] then ""
    else ls[0].gap + (if ls[0].token.kind == Eof then "" else ls[0].token.text) + Spelling(ls[1..])
  }

  lemma ScanFacts(kw: Reserved, t: string, i: nat)
    requires i <= |t| && Scan(kw, t, i).Got?
    ensures var r := Scan(kw, t, i); var k := Skip(t, i).pos;
      && Skip(t, i).Found? && i <= k <= r.next <= |t| && IsGap(t[i..k]) && (r.token.kind == Eof ==> k == |t|)
      && (r.token.kind != Eof ==> k < r.next && r.token.text == t[k..r.next])
  {
    ScanAdvances(kw, t, i);
    SkipsGap(t, i);
    TextIsInput(kw, t, Skip(t, i).pos);
  }

  lemma LexStep(kw: Reserved, t: string, i: nat)
    requires i <= |t| && LexAll(kw, t, i).Lexed?
    ensures var r := Scan(kw, t, i); var k := Skip(t, i).pos;
      && r.Got? && Skip(t, i).Found? && i <= k <= r.next <= |t|
      && (r.token.kind != Eof ==> LexAll(kw, t, r.next).Lexed?)
      && LexAll(kw, t, i).lexemes == [Lexeme(t[i..k], r.token)] + if r.token.kind == Eof then [] else LexAll(kw, t, r.next).lexemes
  {
    if Scan(kw, t, i).Got? { ScanFacts(kw, t, i); }
  }

  lemma SpellingStep(x: Lexeme, rest: seq<Lexeme>)
    ensures Spelling([x] + rest) == x.gap + (if x.token.kind == Eof then "" else x.token.text) + Spelling(rest)
  {
    assert ([x] + rest)[1..] == rest;
  }

  lemma SliceJoin(t: string, i: nat, k: nat, e: nat)
    requires i <= k <= e <= |t|
    ensures t[i..k] + t[k..e] + t[e..] == t[i..] && (k == |t| ==> t[i..k] + "" + "" == t[i..])
  {
  }

  /** Main result: what was skipped and the texts of the tokens, in order, are the input. */
  lemma {:induction false} LexingConservesInput(kw: Reserved, t: string, i: nat)
    requires i <= |t| && LexAll(kw, t, i).Lexed?
    ensures Spelling(LexAll(kw, t, i).lexemes) == t[i..]
    decreases |t| - i
  {
    LexStep(kw, t, i);
    ScanFacts(kw, t, i);
    var r, k := Scan(kw, t, i), Skip(t, i).pos;
    SliceJoin(t, i, k, r.next);
    if r.token.kind == Eof {
      assert LexAll(kw, t, i).lexemes == [Lexeme(t[i..k], r.token)] + [];
      SpellingStep(Lexeme(t[i..k], r.token), []);
    } else {
      LexingConservesInput(kw, t, r.next);
      SpellingStep(Lexeme(t[i..k], r.token), LexAll(kw, t, r.next).lexemes);
    }
  }

  lemma HeadSkipsGap(kw: Reserved, t: string, i: nat)
    requires i <= |t| && LexAll(kw, t, i).Lexed?
    ensures var ls := LexAll(kw, t, i).lexemes; ls != [] && IsGap(ls[0].gap) && (ls[0].token.kind == Eof <==> |ls| == 1)
  {
    LexStep(kw, t, i);
    ScanFacts(kw, t, i);
    var r := Scan(kw, t, i);
    if r.token.kind != Eof { LexStep(kw, t, r.next); }
  }

  /** Only white space and comments are skipped, and the end of file is the last token and no other. */
  lemma {:induction false} LexingSkipsGaps(kw: Reserved, t: string, i: nat, j: nat)
    requires i <= |t| && LexAll(kw, t, i).Lexed? && j < |LexAll(kw, t, i).lexemes|
    ensures var ls := LexAll(kw, t, i).lexemes; IsGap(ls[j].gap) && (ls[j].token.kind == Eof <==> j == |ls| - 1)
    decreases |t| - i
  {
    HeadSkipsGap(kw, t, i);
    if j > 0 {
      LexStep(kw, t, i);
      LexingSkipsGaps(kw, t, Scan(kw, t, i).next, j - 1);
    }
  }

  lemma TextIsInput(kw: Reserved, t: string, k: nat)
    requires k <= |t| && TokenAt(kw, t, k).Got?
    ensures var r := TokenAt(kw, t, k); k <= r.next <= |t| && (r.token.kind != Eof ==> k < r.next && r.token.text == t[k..r.next])
    ensures TokenAt(kw, t, k).token.kind == Eof ==> k == |t|
  {
    if k < |t| {
      WordEnds(t, k);
      NumberEnds(t, k);
      OperatorsAreLongest(t, k, "");
    }
  }

  // ---- failures ----

  /** Neither white space nor a comment nor a token starts at `e`. */
  predicate StartsNothing(t: string, e: nat) {
    e < |t| && !IsSpace(t[e]) && !IsAlnum(t[e]) && !Op1(t[e])
  }

  /** The comment that starts at `k` is broken at `e`, before it is closed: by a character outside ASCII or by the end
      of the input. */
  predicate BreaksComment(t: string, k: nat, e: nat) {
    && At(t, k, '/') && At(t, k + 1, '*') && k + 2 <= e <= |t| && (e < |t| ==> t[e] as int >= 128)
    && IsAscii(t, k + 2, e) && forall j :: k + 2 <= j < e - 1 ==> !(t[j] == '*' && t[j+1] == '/')
  }

  predicate IsAscii(t: string, i: nat, k: nat)
    requires k <= |t|
  {
    forall j :: i <= j < k ==> t[j] as int < 128
  }

  predicate Blocked(t: string, k: nat, e: nat) { (k == e && StartsNothing(t, e)) || BreaksComment(t, k, e) }

  lemma {:induction false} CommentBreaks(t: string, k: nat, e: nat)
    requires k <= |t|
    ensures CommentEnd(t, k) == Broken(e) <==>
      && k <= e <= |t| && (e < |t| ==> t[e] as int >= 128) && IsAscii(t, k, e)
      && forall j :: k <= j < e - 1 ==> !(t[j] == '*' && t[j+1] == '/')
    decreases |t| - k
  {
    if k < |t| && t[k] as int < 128 && !(t[k] == '*' && At(t, k + 1, '/')) { CommentBreaks(t, k + 1, e); }
  }

  lemma BreaksIffBroken(t: string, k: nat, e: nat)
    requires At(t, k, '/') && At(t, k + 1, '*')
    ensures BreaksComment(t, k, e) <==> CommentEnd(t, k + 2) == Broken(e)
  {
    CommentBreaks(t, k + 2, e);
  }

  /** Nothing but white space and comments in ASCII lies from `i` to `k`. */
  predicate Clear(t: string, i: nat, k: nat) { i <= k <= |t| && IsAscii(t, i, k) && IsGap(t[i..k]) }

  lemma {:induction false} FirstEnd(t: string, k: nat, e: nat)
    requires k + 2 <= e <= |t| && IsAscii(t, k, e) && t[e-2] == '*' && t[e-1] == '/'
    requires forall j :: k <= j < e - 2 ==> !(t[j] == '*' && t[j+1] == '/')
    ensures CommentEnd(t, k) == Found(e)
    decreases e - k
  {
    if k + 2 < e { FirstEnd(t, k + 1, e); }
  }

  lemma WholeComment(t: string, i: nat, n: nat)
    requires i + n <= |t| && IsComment(t[i..i+n]) && IsAscii(t, i, i + n)
    ensures At(t, i, '/') && At(t, i + 1, '*') && CommentEnd(t, i + 2) == Found(i + n)
  {
    var w := t[i..i+n];
    forall j | i + 2 <= j < i + n - 2 ensures !(t[j] == '*' && t[j+1] == '/') {
      assert w[j-i] == t[j] && w[j-i+1] == t[j+1];
    }
    FirstEnd(t, i + 2, i + n);
  }

  lemma GapSplits(w: string)
    requires IsGap(w) && w != ""
    ensures IsSpace(w[0]) ==> IsGap(w[1..])
    ensures !IsSpace(w[0]) ==> exists n :: 4 <= n <= |w| && IsComment(w[..n]) && IsGap(w[n..])
  {
  }

  lemma SpaceSplits(t: string, i: nat, k: nat)
    requires Clear(t, i, k) && i < k && IsSpace(t[i])
    ensures Clear(t, i + 1, k)
  {
    GapSplits(t[i..k]);
    assert t[i..k][1..] == t[i+1..k];
  }

  lemma CommentSplits(t: string, i: nat, k: nat, n: nat)
    requires Clear(t, i, k) && 4 <= n <= k - i && IsComment(t[i..k][..n]) && IsGap(t[i..k][n..])
    ensures Clear(t, i + n, k) && At(t, i, '/') && At(t, i + 1, '*') && CommentEnd(t, i + 2) == Found(i + n)
  {
    assert t[i..k][..n] == t[i..i+n] && t[i..k][n..] == t[i+n..k];
    WholeComment(t, i, n);
  }

  /** A gap starts with a space or with a whole comment, and what follows that is a gap again. */
  lemma ClearSplits(t: string, i: nat, k: nat) returns (j: nat)
    requires Clear(t, i, k) && i < k
    ensures i < j <= k && Clear(t, j, k) && Skip(t, i) == Skip(t, j)
  {
    if IsSpace(t[i]) {
      j := i + 1;
      SpaceSplits(t, i, k);
    } else {
      GapSplits(t[i..k]);
      var n :| 4 <= n <= |t[i..k]| && IsComment(t[i..k][..n]) && IsGap(t[i..k][n..]);
      j := i + n;
      CommentSplits(t, i, k, n);
    }
  }

  lemma {:induction false} SkipsClear(t: string, i: nat, k: nat)
    requires Clear(t, i, k)
    ensures Skip(t, i) == Skip(t, k)
    decreases k - i
  {
    if i < k {
      var j := ClearSplits(t, i, k);
      SkipsClear(t, j, k);
    }
  }

  lemma {:induction false} SkipBreaks(t: string, i: nat) returns (k: nat)
    requires i <= |t|
    ensures Clear(t, i, k)
    ensures match Skip(t, i) case Found(pos) => k == pos case Broken(at) => BreaksComment(t, k, at)
    decreases |t| - i
  {
    if i < |t| && IsSpace(t[i]) {
      k := SkipBreaks(t, i + 1);
      assert t[i..k][1..] == t[i+1..k];
    } else if At(t, i, '/') && At(t, i + 1, '*') {
      CommentEndsFirst(t, i + 2);
      var e := CommentEnd(t, i + 2);
      if e.Found? {
        k := SkipBreaks(t, e.pos);
        AsciiComment(t, i, e.pos, k);
        CommentGap(t, i, e.pos, k);
      } else {
        k := i;
        BreaksIffBroken(t, i, e.at);
      }
    } else {
      k := i;
    }
  }

  lemma AsciiComment(t: string, i: nat, e: nat, k: nat)
    requires At(t, i, '/') && At(t, i + 1, '*') && CommentEnd(t, i + 2) == Found(e) && e <= k <= |t| && IsAscii(t, e, k)
    ensures i + 4 <= e && IsAscii(t, i, k)
  {
    CommentAscii(t, i + 2, e);
  }

  lemma {:induction false} CommentAscii(t: string, k: nat, e: nat)
    requires CommentEnd(t, k) == Found(e)
    ensures k + 2 <= e <= |t| && IsAscii(t, k, e)
    decreases |t| - k
  {
    if !(t[k] == '*' && At(t, k + 1, '/')) { CommentAscii(t, k + 1, e); }
  }

  lemma OperatorStarts(t: string, k: nat)
    requires k < |t|
    ensures OpLength(t, k) > 0 <==> Op1(t[k])
  {
    assert forall a, b {:trigger Op2(a, b)} :: Op2(a, b) ==> Op1(a);
    assert forall a, b, c {:trigger Op3(a, b, c)} :: Op3(a, b, c) ==> Op1(a);
  }

  lemma BlockedToken(kw: Reserved, t: string, k: nat, e: nat)
    requires k <= |t| && Skip(t, k) == Found(k)
    ensures TokenAt(kw, t, k) == Error(e) <==> k == e && StartsNothing(t, e)
    ensures !BreaksComment(t, k, e)
  {
    if k < |t| {
      OperatorStarts(t, k);
      if IsSpace(t[k]) { SkipsGap(t, k + 1); }
    }
    if BreaksComment(t, k, e) { BreaksIffBroken(t, k, e); }
  }

  lemma BlockedSkip(t: string, k: nat, e: nat)
    requires k <= |t| && Blocked(t, k, e)
    ensures if k == e then Skip(t, k) == Found(k) && StartsNothing(t, e) else Skip(t, k) == Broken(e)
  {
    if BreaksComment(t, k, e) { BreaksIffBroken(t, k, e); }
  }

  /** Reading a token fails at `e` exactly when, behind white space and comments, a comment is broken at `e` or a
      character at `e` starts nothing. */
  lemma ScanFailsExactly(kw: Reserved, t: string, i: nat, e: nat)
    requires i <= |t|
    ensures Scan(kw, t, i) == Error(e) <==> exists k :: Clear(t, i, k) && Blocked(t, k, e)
  {
    var p := SkipBreaks(t, i);
    SkipsClear(t, i, p);
    if Skip(t, i).Found? { BlockedToken(kw, t, p, e); }
    if k :| Clear(t, i, k) && Blocked(t, k, e) {
      SkipsClear(t, i, k);
      BlockedSkip(t, k, e);
      if k == e { BlockedToken(kw, t, k, e); }
    }
  }

  // ---- the token stream ----

  /** The k-th token from position `i` on, or the error met on the way to it. */
  function Stream(kw: Reserved, t: string, i: nat, k: nat): Scanned
    requires i <= |t|
    decreases k
  {
    ScanAdvances(kw, t, i);
    var r := Scan(kw, t, i);
    if k == 0 || r.Error? then r else Stream(kw, t, r.next, k - 1)
  }

  lemma {:induction false} StreamShift(kw: Reserved, t: string, i: nat, j: nat, k: nat)
    requires i <= |t| && Stream(kw, t, i, j).Got?
    ensures Stream(kw, t, i, j).next <= |t| && Stream(kw, t, i, j + 1 + k) == Stream(kw, t, Stream(kw, t, i, j).next, k)
    decreases j
  {
    ScanAdvances(kw, t, i);
    if j > 0 { StreamShift(kw, t, Scan(kw, t, i).next, j - 1, k); }
  }

  /** An error ends the stream. */
  lemma {:induction false} StreamStops(kw: Reserved, t: string, i: nat, j: nat, k: nat)
    requires i <= |t| && Stream(kw, t, i, j).Error? && j <= k
    ensures Stream(kw, t, i, k) == Stream(kw, t, i, j)
    decreases j
  {
    ScanAdvances(kw, t, i);
    if Scan(kw, t, i).Got? { StreamStops(kw, t, Scan(kw, t, i).next, j - 1, k - 1); }
  }

  ghost predicate IsStreamToken(kw: Reserved, t: string, i: nat, n: nat, token: Token)
    requires i <= |t|
  {
    Stream(kw, t, i, n).Got? && Stream(kw, t, i, n).token == token
  }

  /** `queue` holds tokens `n`, `n` + 1, ... of the stream. */
  ghost predicate Queued(kw: Reserved, t: string, i: nat, n: nat, queue: seq<Token>)
    requires i <= |t|
  {
    forall j :: 0 <= j < |queue| ==> IsStreamToken(kw, t, i, n + j, queue[j])
  }

  lemma QueueTail(kw: Reserved, t: string, i: nat, n: nat, queue: seq<Token>)
    requires i <= |t| && Queued(kw, t, i, n, queue) && queue != []
    ensures IsStreamToken(kw, t, i, n, queue[0]) && Queued(kw, t, i, n + 1, queue[1..])
  {
    assert IsStreamToken(kw, t, i, n + 0, queue[0]);
    forall j | 0 <= j < |queue[1..]| ensures IsStreamToken(kw, t, i, n + 1 + j, queue[1..][j]) {
      assert IsStreamToken(kw, t, i, n + (j + 1), queue[j+1]);
    }
  }

  lemma QueueAt(kw: Reserved, t: string, i: nat, n: nat, queue: seq<Token>, j: nat)
    requires i <= |t| && Queued(kw, t, i, n, queue) && j < |queue|
    ensures IsStreamToken(kw, t, i, n + j, queue[j])
  {
  }

  lemma QueueAppend(kw: Reserved, t: string, i: nat, n: nat, queue: seq<Token>, token: Token)
    requires i <= |t| && Queued(kw, t, i, n, queue) && IsStreamToken(kw, t, i, n + |queue|, token)
    ensures Queued(kw, t, i, n, queue + [token])
  {
  }

  /** The n-th token; the end of file repeats. */
  function Nth(ls: seq<Lexeme>, n: nat): Token
    requires ls != []
  {
    if n < |ls| then ls[n].token else ls[|ls|-1].token
  }

  lemma NthCons(x: Lexeme, rest: seq<Lexeme>, n: nat)
    ensures Nth([x] + rest, n) == if n == 0 || rest == [] then x.token else Nth(rest, n - 1)
  {
  }

  ghost predicate StreamAgrees(kw: Reserved, t: string, i: nat, n: nat)
    requires i <= |t|
  {
    match LexAll(kw, t, i)
    case Lexed(ls) => ls != [] && IsStreamToken(kw, t, i, n, Nth(ls, n))
    case Failed(at) => n >= |t| - i ==> Stream(kw, t, i, n) == Error(at)
  }

  lemma StreamAtEnd(kw: Reserved, t: string, n: nat)
    ensures StreamAgrees(kw, t, |t|, n)
    decreases n
  {
    if n > 0 { StreamAtEnd(kw, t, n - 1); }
  }

  /** The stream and the lexing of the whole input agree: the tokens are the same, the end of file repeats, and an error
      of the one is the error of the other. */
  lemma {:induction false} StreamIsLexing(kw: Reserved, t: string, i: nat, n: nat)
    requires i <= |t|
    ensures StreamAgrees(kw, t, i, n)
    decreases |t| - i
  {
    ScanAdvances(kw, t, i);
    var r := Scan(kw, t, i);
    if r.Got? {
      if r.token.kind == Eof {
        StreamAtEnd(kw, t, if n > 0 then n - 1 else 0);
      } else {
        StreamIsLexing(kw, t, r.next, if n > 0 then n - 1 else 0);
      }
      if LexAll(kw, t, i).Lexed? { StreamHead(kw, t, i, n); }
    }
  }

  lemma StreamHead(kw: Reserved, t: string, i: nat, n: nat)
    requires i <= |t| && LexAll(kw, t, i).Lexed? && Scan(kw, t, i).Got? && Scan(kw, t, i).next <= |t|
    requires StreamAgrees(kw, t, Scan(kw, t, i).next, if n > 0 then n - 1 else 0)
    ensures StreamAgrees(kw, t, i, n)
  {
    LexStep(kw, t, i);
    var r := Scan(kw, t, i);
    var x := Lexeme(t[i..Skip(t, i).pos], r.token);
    NthCons(x, if r.token.kind == Eof then [] else LexAll(kw, t, r.next).lexemes, n);
    if r.token.kind == Eof {
      ScanFacts(kw, t, i);
      assert Scan(kw, t, |t|).token == r.token;
    }
  }
}
