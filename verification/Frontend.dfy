/** From the lexer's tokens to the parser's (Token::Type in lexer.hpp). */
module Frontend {
  import L = Lexing
  import X = LexingExact
  import opened Syntax
  import ExprParser
  import StmtParser
  import StmtGrammar
  import StmtMatches

  /** Keywords and operators by their texts; what the modelled parsers never ask for is `Other`. */
  function Symbol(text: string): Token {
    if text == "boolean" then KwBoolean else if text == "else" then KwElse else if text == "false" then KwFalse
    else if text == "if" then KwIf else if text == "int" then KwInt else if text == "new" then KwNew
    else if text == "null" then KwNull else if text == "return" then KwReturn else if text == "this" then KwThis
    else if text == "true" then KwTrue else if text == "void" then KwVoid else if text == "while" then KwWhile
    else Operator(text)
  }

  function Operator(text: string): Token {
    if text == "&&" then AmpAmp else if text == "!" then Bang else if text == "!=" then BangEq else if text == "," then Comma
    else if text == "." then Dot else if text == "=" then Eq else if text == "==" then EqEq else if text == ">" then Gt
    else if text == ">=" then GtEq else if text == "{" then LBrace else if text == "[" then LBracket
    else if text == "(" then LParen else if text == "<" then Lt else if text == "<=" then LtEq
    else if text == "-" then MinusSign else if text == "%" then Percent else if text == "+" then PlusSign
    else if text == "}" then RBrace else if text == "]" then RBracket else if text == ")" then RParen
    else if text == ";" then Semicolon else if text == "/" then Slash else if text == "*" then Star
    else if text == "||" then VBarVBar
    else Other(0)
  }

  function TokenOf(t: L.Token): Token {
    match t.kind
    case Identifier => Identifier(t.text)
    case IntLiteral => IntLiteral(t.text)
    case Keyword => Symbol(t.text)
    case Operator => Operator(t.text)
    case Eof => Eof
  }

  function TokensOf(ls: seq<L.Lexeme>): (ts: seq<Token>)
    ensures |ts| == |ls|
  {
    if ls == [] then [] else [TokenOf(ls[0].token)] + TokensOf(ls[1..])
  }

  lemma {:induction false} TokensOfAt(ls: seq<L.Lexeme>, i: nat)
    requires i < |ls|
    ensures TokensOf(ls)[i] == TokenOf(ls[i].token)
    decreases i
  {
    if i > 0 { TokensOfAt(ls[1..], i - 1); }
  }

  lemma SymbolsAreNoLiterals(text: string)
    ensures !Symbol(text).IntLiteral? && !Operator(text).IntLiteral?
  {
  }

  /** What the lexer delivers is what the parser relies on: the text of an integer literal consists of digits. */
  lemma DeliveredIsLexed(kw: L.Reserved, text: string)
    requires L.LexAll(kw, text, 0).Lexed?
    ensures ExprParser.Lexed(TokensOf(L.LexAll(kw, text, 0).lexemes))
  {
    var ls := L.LexAll(kw, text, 0).lexemes;
    var ts := TokensOf(ls);
    forall i | 0 <= i < |ts| && ts[i].IntLiteral? ensures IsDigits(ts[i].str) {
      TokensOfAt(ls, i);
      SymbolsAreNoLiterals(ls[i].token.text);
      X.KindsAreExact(kw, text, i);
      NumbersAreDigits(ls[i].token.text);
    }
  }

  lemma NumbersAreDigits(w: string)
    requires X.IsNumber(w)
    ensures IsDigits(w)
  {
  }

  /** Main result: the statement parser on the tokens of a text reads what the lexical grammar and the statement grammar
      together derive from that text. */
  lemma TextsAreRead(kw: L.Reserved, text: string, ls: seq<L.Lexeme>, s: Stmt, rest: seq<Token>)
    requires L.LexAll(kw, text, 0) == L.Lexed(ls)
    ensures X.Tokens(kw, text, 0, ls)
    ensures StmtParser.ParseBlockStmt(TokensOf(ls)) == ExprParser.Parsed(s, rest) <==>
      exists phrase :: TokensOf(ls) == phrase + rest && StmtGrammar.BlockStatement(s, phrase, ExprParser.Cur(rest) == KwElse)
  {
    X.LexingIsTheGrammar(kw, text, ls);
    DeliveredIsLexed(kw, text);
    StmtMatches.StatementParserIsTheGrammar(TokensOf(ls), s, rest);
  }
}
