/** The lexer itself (lexer.cpp, lexer.hpp): a buffer with a sentinel, a state machine for line ends, one method for each
    family of operators, and a queue of tokens read ahead. */
module LexerClass {
  import opened Lexing

  const JavaKeywords: Reserved := {
    "boolean", "class", "else", "false", "if", "int", "new", "null", "public", "return", "static", "this", "true", "void",
    "while",
    "abstract", "assert", "break", "byte", "case", "catch", "char", "const", "continue", "default", "double", "do", "enum",
    "extends", "finally", "final", "float", "for", "goto", "implements", "import", "instanceof", "interface", "long",
    "native", "package", "private", "protected", "short", "strictfp", "super", "switch", "synchronized", "throws", "throw",
    "transient", "try", "volatile"}

  datatype LineState = Normal | Cr | Lf | CrLf

  /** (char)EOF: the last byte value, so only its position tells the sentinel from a byte of the input. */
  const Sentinel: char := 255 as char

  /** The character at position `p`, or the sentinel at the end. */
  function CharAt(t: string, p: nat): char { if p < |t| then t[p] else Sentinel }

  /** Where the state machine is after reading position `p`. */
  function StateAt(t: string, p: nat): LineState {
    var c := CharAt(t, p);
    if c == '\r' then Cr
    else if c == '\n' then if p > 0 && p <= |t| && t[p-1] == '\r' then CrLf else Lf
    else Normal
  }

  datatype Outcome = Tokenized(token: Token) | LexError(line: nat, col: nat)

  class Lexer {
    const input: string
    const identifierTokens: Reserved
    const buffer: array<char>
    const maxBufferSize: nat := 1024

    var streamOffset: nat                   // tellg
    var lastChar: char
    var nextCharPos: nat
    var curBufferSize: nat
    var streamIsEof: bool
    var bufferStartOffset: nat
    var lineState: LineState
    var tokenString: string
    var line: nat
    var column: nat
    var tokenLine: nat
    var tokenCol: nat
    var lineStartFileOffsets: seq<nat>
    var tokenLookahead: seq<Token>

    // ---- the reader ----

    /** The buffer shows the part of the input that starts at bufferStartOffset. */
    ghost predicate Buffered()
      reads this, buffer
    {
      && buffer.Length == maxBufferSize && curBufferSize <= maxBufferSize
      && streamOffset == bufferStartOffset + curBufferSize <= |input|
      && (forall k :: 0 <= k < curBufferSize ==> buffer[k] == input[bufferStartOffset + k])
      && nextCharPos <= curBufferSize + (if streamIsEof then 1 else 0)
      && (streamIsEof ==> streamOffset == |input| && curBufferSize < maxBufferSize && buffer[curBufferSize] == Sentinel)
    }

    /** How many characters have been handed out, the sentinel included. */
    ghost function Taken(): nat
      reads this
    {
      bufferStartOffset + nextCharPos
    }

    /** The position of lastChar. */
    ghost function Pos(): nat
      reads this
    {
      if Taken() > 0 then Taken() - 1 else 0
    }

    /** Position, character and line bookkeeping agree with the whole input. */
    ghost predicate Valid()
      reads this, buffer
    {
      && Buffered() && Taken() > 0
      && lastChar == CharAt(input, Pos()) && lineState == StateAt(input, Pos())
      && line == LineOf(input, Pos()) && column == ColumnOf(input, Pos()) && lineStartFileOffsets == LineStarts(input, Pos())
    }

    /** `lineState` is a static variable of nextChar; a lexer starts out right if the previous one left it at normal. */
    constructor (input: string)
      ensures Valid() && Pos() == 0 && InStream(0, 0) && tokenLookahead == [] && fresh(buffer) && this.input == input && identifierTokens == JavaKeywords
    {
      this.input, this.identifierTokens := input, JavaKeywords;
      buffer := new char[1024];
      streamOffset, bufferStartOffset, curBufferSize, nextCharPos, streamIsEof := 0, 0, 0, 0, false;
      lastChar, lineState, line, column, tokenLine, tokenCol := 0 as char, Normal, 1, 0, 0, 0;
      tokenString, tokenLookahead := "", [];
      lineStartFileOffsets := [0];
      new;
      ReadIntoBuffer();
      FirstChar();
    }

    /** input.read: at most a buffer full; the end of the stream shows only when it falls short. */
    method ReadIntoBuffer()
      requires Buffered() && !streamIsEof && nextCharPos == curBufferSize
      modifies buffer, this`bufferStartOffset, this`streamOffset, this`streamIsEof, this`curBufferSize, this`nextCharPos
      ensures Buffered() && Taken() == old(Taken()) && nextCharPos == 0
      ensures streamIsEof || curBufferSize > 0
    {
      bufferStartOffset := streamOffset;
      var available := |input| - streamOffset;
      var n := if available < maxBufferSize then available else maxBufferSize;
      var k := 0;
      while k < n
        invariant k <= n <= |input| - bufferStartOffset && n <= buffer.Length && buffer.Length == maxBufferSize
        invariant forall j :: 0 <= j < k ==> buffer[j] == input[bufferStartOffset + j]
        modifies buffer
      {
        buffer[k] := input[bufferStartOffset + k];
        k := k + 1;
      }
      streamOffset := bufferStartOffset + n;
      streamIsEof := available < maxBufferSize;
      curBufferSize := n;
      nextCharPos := 0;
      if streamIsEof {
        buffer[curBufferSize] := Sentinel;
      }
    }

    predicate IsEof()
      reads this
    {
      streamIsEof && nextCharPos == curBufferSize + 1
    }

    /** The end of file is recognised by position. */
    lemma EofMeansEnd()
      requires Buffered() && Taken() > 0
      ensures IsEof() <==> Pos() == |input|
      ensures Pos() <= |input|
    {
    }

    /** The next character of the input, or the sentinel once; nothing behind the sentinel is read. */
    method Fetch()
      requires Buffered() && Taken() <= |input|
      modifies this`bufferStartOffset, this`streamOffset, this`streamIsEof, this`curBufferSize, this`nextCharPos, this`lastChar, buffer
      ensures Buffered() && Taken() == old(Taken()) + 1 && lastChar == CharAt(input, old(Taken()))
    {
      if !streamIsEof && nextCharPos == curBufferSize {
        ReadIntoBuffer();
      }
      lastChar := buffer[nextCharPos];
      nextCharPos := nextCharPos + 1;
    }

    /** The state machine: a terminator is complete when the character after it is read. */
    method CountLines()
      requires Taken() > 0
      modifies this`lineState, this`line, this`column, this`lineStartFileOffsets
      ensures lineState == (
        if lastChar == '\r' then Cr
        else if lastChar == '\n' then if old(lineState) == Cr then CrLf else Lf
        else Normal)
      ensures var newline := old(lineState) == Lf || old(lineState) == CrLf || (old(lineState) == Cr && lastChar != '\n');
        && line == old(line) + (if newline then 1 else 0)
        && column == (if newline then 1 else old(column) + 1)
        && lineStartFileOffsets == old(lineStartFileOffsets) + if newline then [Taken() - 1] else []
    {
      var newline := false;
      match lineState {
        case Normal =>
          if lastChar == '\r' {
            lineState := Cr;
          } else if lastChar == '\n' {
            lineState := Lf;
          }
        case Cr =>
          if lastChar == '\r' {
            newline := true;
          } else if lastChar == '\n' {
            lineState := CrLf;
          } else {
            lineState := Normal;
            newline := true;
          }
        case Lf =>
          if lastChar == '\r' {
            lineState := Cr;
          } else if lastChar != '\n' {
            lineState := Normal;
          }
          newline := true;
        case CrLf =>
          if lastChar == '\r' {
            lineState := Cr;
          } else if lastChar == '\n' {
            lineState := Lf;
          } else {
            lineState := Normal;
          }
          newline := true;
      }
      if newline {
        column := 1;
        line := line + 1;
        lineStartFileOffsets := lineStartFileOffsets + [bufferStartOffset + nextCharPos - 1];
      } else {
        column := column + 1;
      }
    }

    method FirstChar()
      requires Buffered() && Taken() == 0 && lineState == Normal && line == 1 && column == 0 && lineStartFileOffsets == [0]
      modifies this, buffer
      ensures Valid() && Pos() == 0 && tokenLookahead == old(tokenLookahead)
    {
      Fetch();
      CountLines();
    }

    method NextChar()
      requires Valid() && Pos() < |input|
      modifies this, buffer
      ensures Valid() && Pos() == old(Pos()) + 1 && KeepsToken() && tokenString == old(tokenString)
    {
      if lastChar == '\t' {
        column := column + 1;
      }
      Fetch();
      CountLines();
      assert input[Pos()-1] == old(lastChar);
    }

    twostate predicate KeepsToken()
      reads this
    {
      tokenLine == old(tokenLine) && tokenCol == old(tokenCol) && tokenLookahead == old(tokenLookahead)
    }

    // ---- tokens ----

    /** A token that started at `k` has been read up to the current position. */
    ghost predicate Reading(k: nat)
      reads this, buffer
    {
      && Valid() && k <= Pos() <= |input| && tokenString == input[k..Pos()]
      && tokenLine == LineOf(input, k) && tokenCol == ColumnOf(input, k)
    }

    method InitToken()
      requires Valid()
      modifies this`tokenString, this`tokenLine, this`tokenCol
      ensures Reading(Pos())
    {
      EofMeansEnd();
      tokenString := "";
      tokenLine := line;
      tokenCol := column;
    }

    method AppendAndNext(ghost k: nat)
      requires Reading(k) && Pos() < |input|
      modifies this, buffer
      ensures Reading(k) && Pos() == old(Pos()) + 1 && tokenLookahead == old(tokenLookahead)
    {
      tokenString := tokenString + [lastChar];
      NextChar();
      assert input[k..Pos()] == input[k..Pos()-1] + [input[Pos()-1]];
    }

    /** The rest of a comment, after its opener. */
    method SkipComment() returns (ok: bool)
      requires Valid()
      modifies this, buffer
      ensures Valid() && tokenLookahead == old(tokenLookahead)
      ensures CommentEnd(input, old(Pos())) == if ok then Found(Pos()) else Broken(Pos())
    {
      EofMeansEnd();
      var eof := IsEof();
      while !eof
        invariant Valid() && tokenLookahead == old(tokenLookahead) && eof == IsEof() && Pos() <= |input|
        invariant CommentEnd(input, Pos()) == CommentEnd(input, old(Pos()))
        decreases |input| - Pos()
      {
        EofMeansEnd();
        if lastChar as int >= 128 {
          return false;
        }
        if lastChar == '*' {
          NextChar();
          EofMeansEnd();
          if lastChar == '/' {
            NextChar();
            return true;
          }
        } else {
          NextChar();
        }
        EofMeansEnd();
        eof := IsEof();
      }
      EofMeansEnd();
      return false;
    }

    /** A '/' at the current position: a comment is skipped, otherwise the next character is current. */
    method SkipSlash() returns (ok: bool, slash: bool)
      requires Valid() && At(input, Pos(), '/')
      modifies this, buffer
      ensures Valid() && old(Pos()) < Pos() <= |input| && tokenLookahead == old(tokenLookahead)
      ensures !ok ==> Skip(input, old(Pos())) == Broken(Pos())
      ensures ok && !slash ==> Skip(input, old(Pos())) == Skip(input, Pos())
      ensures ok && slash ==> Pos() == old(Pos()) + 1 && Skip(input, old(Pos())) == Found(old(Pos()))
      ensures ok && slash ==> tokenLine == LineOf(input, old(Pos())) && tokenCol == ColumnOf(input, old(Pos()))
    {
      InitToken();
      NextChar();
      EofMeansEnd();
      if lastChar == '*' {
        NextChar();
        EofMeansEnd();
        CommentEndsFirst(input, Pos());
        ok := SkipComment();
        EofMeansEnd();
        slash := false;
      } else {
        ok, slash := true, true;
      }
    }

    /** skipCommentsAndWhitespaces: `slash` if a '/' that opens no comment has been read, `ok` unless a comment is
        broken. */
    method SkipCommentsAndWhitespaces() returns (ok: bool, slash: bool)
      requires Valid()
      modifies this, buffer
      ensures Valid() && tokenLookahead == old(tokenLookahead)
      ensures !ok ==> Skip(input, old(Pos())) == Broken(Pos())
      ensures ok && !slash ==> Skip(input, old(Pos())) == Found(Pos()) && lastChar != '/'
      ensures ok && slash ==> Pos() > 0 && At(input, Pos() - 1, '/') && Skip(input, old(Pos())) == Found(Pos() - 1)
      ensures ok && slash ==> tokenLine == LineOf(input, Pos() - 1) && tokenCol == ColumnOf(input, Pos() - 1)
    {
      EofMeansEnd();
      while true
        invariant Valid() && tokenLookahead == old(tokenLookahead) && Pos() <= |input|
        invariant Skip(input, Pos()) == Skip(input, old(Pos()))
        decreases |input| - Pos()
      {
        if lastChar == '/' {
          ok, slash := SkipSlash();
          if !ok || slash {
            return;
          }
        } else if IsSpace(lastChar) {
          NextChar();
        } else {
          return true, false;
        }
      }
    }

    /** The operators that may be followed by '=' only. */
    method ReadWithEq(ghost k: nat)
      requires Reading(k) && Pos() == k < |input| && lastChar in "*%=!^"
      modifies this, buffer
      ensures Reading(k) && Pos() == k + OpLength(input, k) && tokenLookahead == old(tokenLookahead)
    {
      AppendAndNext(k);
      EofMeansEnd();
      if lastChar == '=' {
        AppendAndNext(k);
      }
    }

    /** '+', '-', '&' and '|': doubled, or with '='. */
    method ReadDoubled(c: char, ghost k: nat)
      requires Reading(k) && Pos() == k < |input| && c == lastChar && c in "+-&|"
      modifies this, buffer
      ensures Reading(k) && Pos() == k + OpLength(input, k) && tokenLookahead == old(tokenLookahead)
    {
      AppendAndNext(k);
      EofMeansEnd();
      if lastChar == '=' || lastChar == c {
        AppendAndNext(k);
      }
    }

    method ReadLT(ghost k: nat)
      requires Reading(k) && Pos() == k < |input| && lastChar == '<'
      modifies this, buffer
      ensures Reading(k) && Pos() == k + OpLength(input, k) && tokenLookahead == old(tokenLookahead)
    {
      AppendAndNext(k);
      EofMeansEnd();
      if lastChar == '=' {
        AppendAndNext(k);
      } else if lastChar == '<' {
        AppendAndNext(k);
        EofMeansEnd();
        if lastChar == '=' {
          AppendAndNext(k);
        }
      }
    }

    method ReadGT(ghost k: nat)
      requires Reading(k) && Pos() == k < |input| && lastChar == '>'
      modifies this, buffer
      ensures Reading(k) && Pos() == k + OpLength(input, k) && tokenLookahead == old(tokenLookahead)
    {
      AppendAndNext(k);
      EofMeansEnd();
      if lastChar == '=' {
        AppendAndNext(k);
      } else if lastChar == '>' {
        AppendAndNext(k);
        ReadShift(k);
      }
    }

    /** After '>>'. */
    method ReadShift(ghost k: nat)
      requires Reading(k) && Pos() == k + 2 <= |input| && input[k] == '>' && input[k+1] == '>'
      modifies this, buffer
      ensures Reading(k) && Pos() == k + OpLength(input, k) && tokenLookahead == old(tokenLookahead)
    {
      EofMeansEnd();
      if lastChar == '=' {
        AppendAndNext(k);
      } else if lastChar == '>' {
        AppendAndNext(k);
        EofMeansEnd();
        if lastChar == '=' {
          AppendAndNext(k);
        }
      }
    }

    /** readSlashFromSecondCharOn: the '/' has been read already. */
    method ReadSlashFromSecondCharOn(ghost k: nat)
      requires Valid() && Pos() == k + 1 && At(input, k, '/')
      requires tokenLine == LineOf(input, k) && tokenCol == ColumnOf(input, k)
      modifies this, buffer
      ensures Reading(k) && Pos() == k + OpLength(input, k) && tokenLookahead == old(tokenLookahead)
    {
      tokenString := "/";
      EofMeansEnd();
      assert input[k..k+1] == [input[k]];
      if lastChar == '=' {
        AppendAndNext(k);
      }
    }

    method ReadWord(ghost k: nat)
      requires Reading(k) && Pos() == k < |input| && IsAlpha(lastChar)
      modifies this, buffer
      ensures Reading(k) && Pos() == WordEnd(input, k) && tokenLookahead == old(tokenLookahead)
    {
      while IsAlnum(lastChar)
        invariant Reading(k) && WordEnd(input, Pos()) == WordEnd(input, k) && tokenLookahead == old(tokenLookahead)
        decreases |input| - Pos()
      {
        AppendAndNext(k);
      }
    }

    /** '0' or a number that does not start with it. */
    method ReadDecNumber(ghost k: nat)
      requires Reading(k) && Pos() == k < |input| && IsDigit(lastChar)
      modifies this, buffer
      ensures Reading(k) && Pos() == (if input[k] == '0' then k + 1 else NumberEnd(input, k)) && tokenLookahead == old(tokenLookahead)
    {
      if lastChar == '0' {
        AppendAndNext(k);
        return;
      }
      while IsDigit(lastChar)
        invariant Reading(k) && NumberEnd(input, Pos()) == NumberEnd(input, k) && tokenLookahead == old(tokenLookahead)
        decreases |input| - Pos()
      {
        AppendAndNext(k);
      }
    }

    method MakeToken(kind: Kind) returns (token: Token)
      ensures token == Token(kind, tokenLine, tokenCol, tokenString)
    {
      token := Token(kind, tokenLine, tokenCol, tokenString);
    }

    /** The result of reading one token must be that of scanning the whole input from `i`. */
    ghost predicate Delivered(r: Outcome, i: nat)
      reads this, buffer
    {
      && Valid() && i <= |input|
      && match Scan(identifierTokens, input, i)
         case Got(token, next) => r == Tokenized(token) && Pos() == next
         case Error(at) => r == LexError(LineOf(input, at), ColumnOf(input, at))
    }

    /** The operator at the current position, if there is one that does not start with '/'. */
    method ReadOperator(ghost k: nat) returns (found: bool)
      requires Reading(k) && Pos() == k < |input| && lastChar != '/'
      modifies this, buffer
      ensures tokenLookahead == old(tokenLookahead)
      ensures found ==> Reading(k) && Pos() == k + OpLength(input, k) && OpLength(input, k) > 0
      ensures !found ==> Valid() && Pos() == k && OpLength(input, k) == 0
    {
      var c := lastChar;
      found := true;
      if c in "*%=!^" {
        ReadWithEq(k);
      } else if c in "+-&|" {
        ReadDoubled(c, k);
      } else if c == '<' {
        ReadLT(k);
      } else if c == '>' {
        ReadGT(k);
      } else if c in "()[]{}?,.:;~" {
        AppendAndNext(k);
      } else {
        found := false;
      }
    }

    /** A token of its own kind at `k`, read up to the current position. */
    method FinishToken(kind: Kind, ghost k: nat) returns (r: Outcome)
      requires Reading(k)
      ensures r.Tokenized? && Make(input, kind, k, Pos()) == Got(r.token, Pos())
    {
      r := Tokenized(Token(kind, tokenLine, tokenCol, tokenString));
    }

    method ReadIdentifier(ghost k: nat) returns (r: Outcome)
      requires Reading(k) && Pos() == k < |input| && IsAlpha(lastChar)
      modifies this, buffer
      ensures Valid() && tokenLookahead == old(tokenLookahead)
      ensures r.Tokenized? && TokenAt(identifierTokens, input, k) == Got(r.token, Pos())
    {
      WordEnds(input, k);
      ReadWord(k);
      r := FinishToken(if tokenString in identifierTokens then Keyword else Identifier, k);
    }

    method ReadNumber(ghost k: nat) returns (r: Outcome)
      requires Reading(k) && Pos() == k < |input| && IsDigit(lastChar)
      modifies this, buffer
      ensures Valid() && tokenLookahead == old(tokenLookahead)
      ensures r.Tokenized? && TokenAt(identifierTokens, input, k) == Got(r.token, Pos())
    {
      NumberEnds(input, k);
      ReadDecNumber(k);
      r := FinishToken(IntLiteral, k);
    }

    method ReadSymbol(ghost k: nat) returns (r: Outcome)
      requires Reading(k) && Pos() == k < |input| && !IsAlnum(lastChar) && lastChar != '/'
      modifies this, buffer
      ensures Valid() && tokenLookahead == old(tokenLookahead)
      ensures match TokenAt(identifierTokens, input, k)
        case Got(token, next) => r == Tokenized(token) && Pos() == next
        case Error(at) => r == LexError(LineOf(input, at), ColumnOf(input, at))
    {
      OperatorsAreLongest(input, k, "");
      var found := ReadOperator(k);
      if found {
        r := FinishToken(Operator, k);
      } else {
        r := LexError(line, column);
      }
    }

    /** The token at the current position, where neither white space nor a comment nor '/' starts. */
    method ReadHere() returns (r: Outcome)
      requires Valid() && lastChar != '/'
      modifies this, buffer
      ensures Valid() && tokenLookahead == old(tokenLookahead)
      ensures old(Pos()) <= |input|
      ensures match TokenAt(identifierTokens, input, old(Pos()))
        case Got(token, next) => r == Tokenized(token) && Pos() == next
        case Error(at) => r == LexError(LineOf(input, at), ColumnOf(input, at))
    {
      InitToken();
      EofMeansEnd();
      if IsEof() {
        tokenString := "EOF";
        var token := MakeToken(Eof);
        r := Tokenized(token);
      } else if IsAlpha(lastChar) {
        r := ReadIdentifier(Pos());
      } else if IsDigit(lastChar) {
        r := ReadNumber(Pos());
      } else {
        r := ReadSymbol(Pos());
      }
    }

    method ReadSlash(ghost k: nat) returns (r: Outcome)
      requires Valid() && Pos() == k + 1 && At(input, k, '/')
      requires tokenLine == LineOf(input, k) && tokenCol == ColumnOf(input, k)
      modifies this, buffer
      ensures Valid() && tokenLookahead == old(tokenLookahead)
      ensures r.Tokenized? && TokenAt(identifierTokens, input, k) == Got(r.token, Pos())
    {
      OperatorsAreLongest(input, k, "");
      ReadSlashFromSecondCharOn(k);
      r := FinishToken(Operator, k);
    }

    method ReadNextToken() returns (r: Outcome)
      requires Valid()
      modifies this, buffer
      ensures Delivered(r, old(Pos())) && tokenLookahead == old(tokenLookahead)
    {
      EofMeansEnd();
      ghost var i := Pos();
      SkipsGapIfFound(i);
      var ok, slash := SkipCommentsAndWhitespaces();
      if !ok {
        r := LexError(line, column);
      } else if slash {
        r := ReadSlash(Pos() - 1);
      } else {
        r := ReadHere();
      }
    }

    lemma SkipsGapIfFound(i: nat)
      requires i <= |input|
      ensures Skip(input, i).Found? ==> i <= Skip(input, i).pos <= |input|
    {
      if Skip(input, i).Found? { SkipsGap(input, i); }
    }

    // ---- looking ahead ----

    /** The queue holds the tokens of the stream after the first `consumed` ones, and reading goes on behind them;
        `start` is where the stream began. */
    ghost predicate InStream(start: nat, consumed: nat)
      reads this, buffer
    {
      && Valid() && start <= |input|
      && Queued(identifierTokens, input, start, consumed, tokenLookahead) && Ahead(start, consumed + |tokenLookahead|)
    }

    /** The current position is where token `n` of the stream is looked for. */
    ghost predicate Ahead(start: nat, n: nat)
      reads this
      requires start <= |input|
    {
      if n == 0 then Pos() == start
      else Stream(identifierTokens, input, start, n - 1).Got? && Pos() == Stream(identifierTokens, input, start, n - 1).next
    }

    /** A token of the stream, or the error in front of it. */
    ghost predicate IsToken(r: Outcome, start: nat, n: nat)
      requires start <= |input|
    {
      match r
      case Tokenized(token) => IsStreamToken(identifierTokens, input, start, n, token)
      case LexError(line, col) =>
        var q := Stream(identifierTokens, input, start, n);
        q.Error? && line == LineOf(input, q.at) && col == ColumnOf(input, q.at)
    }

    /** Reading one token behind the queue. */
    method ReadAhead(ghost start: nat, ghost n: nat) returns (r: Outcome)
      requires Valid() && start <= |input| && Ahead(start, n)
      modifies this, buffer
      ensures Valid() && tokenLookahead == old(tokenLookahead) && IsToken(r, start, n)
      ensures r.Tokenized? ==> Ahead(start, n + 1)
    {
      if n > 0 { StreamShift(identifierTokens, input, start, n - 1, 0); }
      r := ReadNextToken();
    }

    method PopToken(ghost start: nat, ghost consumed: nat) returns (r: Outcome)
      requires InStream(start, consumed) && tokenLookahead != []
      modifies this`tokenLookahead
      ensures r.Tokenized? && IsToken(r, start, consumed) && InStream(start, consumed + 1)
    {
      QueueTail(identifierTokens, input, start, consumed, tokenLookahead);
      r := Tokenized(tokenLookahead[0]);
      tokenLookahead := tokenLookahead[1..];
    }

    /** nextToken: the next token of the stream, whatever has been looked at before. */
    method NextToken(ghost start: nat, ghost consumed: nat) returns (r: Outcome)
      requires InStream(start, consumed)
      modifies this, buffer
      ensures IsToken(r, start, consumed) && (r.Tokenized? ==> InStream(start, consumed + 1))
    {
      if tokenLookahead == [] {
        r := ReadAhead(start, consumed);
      } else {
        r := PopToken(start, consumed);
      }
    }

    /** One token more in the queue. */
    method Enqueue(ghost start: nat, ghost consumed: nat) returns (r: Outcome)
      requires InStream(start, consumed)
      modifies this, buffer
      ensures IsToken(r, start, consumed + old(|tokenLookahead|))
      ensures r.Tokenized? ==> InStream(start, consumed) && |tokenLookahead| == old(|tokenLookahead|) + 1
    {
      r := ReadAhead(start, consumed + |tokenLookahead|);
      if r.Tokenized? {
        QueueAppend(identifierTokens, input, start, consumed, tokenLookahead, r.token);
        tokenLookahead := tokenLookahead + [r.token];
      }
    }

    /** The same on the way to the token `last` places behind the queue's start: an error met earlier is the one found there. */
    method EnqueueFor(last: nat, ghost start: nat, ghost consumed: nat) returns (r: Outcome)
      requires InStream(start, consumed) && |tokenLookahead| <= last
      modifies this, buffer
      ensures r.Tokenized? ==> InStream(start, consumed) && |tokenLookahead| == old(|tokenLookahead|) + 1
      ensures r.LexError? ==> start <= |input| && IsToken(r, start, consumed + last)
    {
      ghost var n := consumed + |tokenLookahead|;
      r := Enqueue(start, consumed);
      if r.LexError? {
        StreamStops(identifierTokens, input, start, n, consumed + last);
      }
    }

    /** peekAhead: fills the queue with one token more than asked for. */
    method PeekAhead(numTokens: nat, ghost start: nat, ghost consumed: nat) returns (r: Outcome)
      requires InStream(start, consumed) && numTokens > |tokenLookahead|
      modifies this, buffer
      ensures r.Tokenized? ==> InStream(start, consumed) && |tokenLookahead| == numTokens + 1
      ensures r.LexError? ==> IsToken(r, start, consumed + numTokens)
    {
      r := EnqueueFor(numTokens, start, consumed);
      while r.Tokenized? && |tokenLookahead| <= numTokens
        invariant start <= |input|
        invariant r.Tokenized? ==> InStream(start, consumed) && |tokenLookahead| <= numTokens + 1
        invariant r.LexError? ==> IsToken(r, start, consumed + numTokens)
        decreases r.Tokenized?, numTokens + 1 - |tokenLookahead|
      {
        r := EnqueueFor(numTokens, start, consumed);
      }
    }

    /** lookAhead: the token `numTokens` ahead; nothing is consumed. To find it one token more is read, so an error
        behind it shows already here. */
    method LookAhead(numTokens: nat, ghost start: nat, ghost consumed: nat) returns (r: Outcome)
      requires InStream(start, consumed) && numTokens > 0
      modifies this, buffer
      ensures r.Tokenized? ==> InStream(start, consumed) && IsToken(r, start, consumed + numTokens - 1)
      ensures r.LexError? ==> IsToken(r, start, consumed + numTokens)
    {
      if numTokens > |tokenLookahead| {
        r := PeekAhead(numTokens, start, consumed);
        if r.LexError? {
          return;
        }
      }
      QueueAt(identifierTokens, input, start, consumed, tokenLookahead, numTokens - 1);
      r := Tokenized(tokenLookahead[numTokens-1]);
    }
  }
}
