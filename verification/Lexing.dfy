/** The lexer on values: longest runs of characters of one class, and the token they make. */
module Lexing {
  import opened Results
  import opened Syntax
  import opened Numerals

  const NUL := '\0'

  predicate IsSpace(c: char) {
    c == ' ' || '\t' <= c <= '\r'
  }

  predicate IsIdentifierChar(c: char) {
    'a' <= c <= 'z' || 'A' <= c <= 'Z' || IsDigit(c) || c == '_' || c == '-'
  }

  predicate IsSymbolChar(c: char) {
    c in {'+', '-', '*', '/', '(', ')', '=', ':', '<', '>', '{', '}', '!'}
  }

  predicate InsideString(c: char) {
    c != '"' && c != NUL
  }

  /** The length of the longest prefix of s all of whose characters satisfy p. */
  function Run(p: char -> bool, s: string): (n: nat)
    ensures n <= |s| && (forall k | 0 <= k < n :: p(s[k])) && (n < |s| ==> !p(s[n]))
    decreases s
  {
    if s == [] || !p(s[0]) then 0 else 1 + Run(p, s[1..])
  }

  function KeywordKind(word: string): Option<TokenKind> {
    if word == "set" then Some(TokenKind.Set)
    else if word == "show" then Some(TokenKind.Show)
    else if word == "func" then Some(TokenKind.Function)
    else if word == "end" then Some(TokenKind.End)
    else if word == "return" then Some(TokenKind.Return)
    else if word == "and" then Some(And)
    else if word == "or" then Some(Or)
    else if word == "if" then Some(TokenKind.If)
    else if word == "else" then Some(TokenKind.Else)
    else if word == "not" then Some(Not)
    else if word == "elseif" then Some(TokenKind.ElseIf)
    else if word == "loop" then Some(TokenKind.Loop)
    else if word == "break" then Some(TokenKind.Break)
    else if word == "in" then Some(In)
    else if word == "cycle" then Some(TokenKind.Cycle)
    else None
  }

  function SymbolKind(word: string): Option<TokenKind> {
    if word == "+" then Some(Plus)
    else if word == "-" then Some(Minus)
    else if word == "*" then Some(Asterisk)
    else if word == "/" then Some(ForwardSlash)
    else if word == "(" then Some(LParen)
    else if word == ")" then Some(RParen)
    else if word == "=" then Some(Assignment)
    else if word == ":" then Some(Colon)
    else if word == "<" then Some(LessThan)
    else if word == ">" then Some(GreaterThan)
    else if word == "<=" then Some(LessThanEquals)
    else if word == ">=" then Some(GreaterThanEquals)
    else if word == "==" then Some(Equals)
    else if word == "!=" then Some(NotEquals)
    else None
  }

  /** A token with the white space skipped before it, the characters it takes after that, and whether
      the lexer's token location moved to it. */
  datatype Lexeme = Lexeme(token: Token, space: nat, width: nat, located: bool)

  /** A string literal keeps its closing quote and loses its opening one. */
  function ScanString(t: string): (r: Result<(Token, nat)>)
    requires t != []
    ensures r.Ok? ==> 0 < r.value.1 <= |t|
  {
    var n := Run(InsideString, t[1..]);
    if n + 1 == |t| || t[n + 1] == NUL then Err(UnterminatedString)
    else Ok((Token(StringLiteral, t[1..n + 2]), n + 2))
  }

  function ScanSymbol(t: string): (r: Result<(Token, nat)>)
    requires t != [] && IsSymbolChar(t[0])
    ensures r.Ok? ==> 0 < r.value.1 <= |t|
  {
    if t[0] == '(' then Ok((Token(LParen, "("), 1))
    else if t[0] == ')' then Ok((Token(RParen, ")"), 1))
    else
      var n := Run(IsSymbolChar, t);
      var kind := SymbolKind(t[..n]);
      if kind.None? then Err(UnknownSymbol) else Ok((Token(kind.value, t[..n]), n))
  }

  function ScanNumber(t: string): (r: (Token, nat))
    requires t != [] && IsDigit(t[0])
    ensures 0 < r.1 <= |t|
  {
    var n := Run(IsDigit, t);
    if n + 1 < |t| && t[n] == '.' && IsDigit(t[n + 1]) then
      var m := n + 1 + Run(IsDigit, t[n + 1..]);
      (Token(TokenKind.FloatLiteral, t[..m]), m)
    else (Token(TokenKind.IntLiteral, t[..n]), n)
  }

  function ScanWord(t: string): (r: (Token, nat))
    requires t != [] && IsIdentifierChar(t[0])
    ensures 0 < r.1 <= |t|
  {
    var n := Run(IsIdentifierChar, t);
    var kind := KeywordKind(t[..n]);
    (Token(if kind.Some? then kind.value else Identifier, t[..n]), n)
  }

  /** The token at the start of t, which is not empty and does not start with white space.  Dashes
      start symbols, digits start numbers; an unknown character ends the input. */
  function Scan(t: string): (r: Result<(Token, nat)>)
    requires t != [] && t[0] != NUL
    ensures r.Ok? ==> 0 < r.value.1 <= |t|
  {
    if t[0] == '"' then ScanString(t)
    else if IsSymbolChar(t[0]) then ScanSymbol(t)
    else if IsDigit(t[0]) then Ok(ScanNumber(t))
    else if IsIdentifierChar(t[0]) then Ok(ScanWord(t))
    else Ok((Token(EndOfFile, ""), 1))
  }

  function NextLexeme(s: string): (r: Result<Lexeme>)
    ensures r.Ok? ==> r.value.space + r.value.width <= |s|
    ensures r.Ok? && r.value.token.kind != EndOfFile ==> r.value.width > 0
  {
    var w := Run(IsSpace, s);
    if w == |s| || s[w] == NUL then Ok(Lexeme(Token(EndOfFile, ""), w, 0, false))
    else
      var t :- Scan(s[w..]);
      Ok(Lexeme(t.0, w, t.1, true))
  }

  /** All lexemes of s; the last one, and only that, is EndOfFile. */
  function Lexemes(s: string): (r: Result<seq<Lexeme>>)
    decreases |s|
  {
    var l :- NextLexeme(s);
    if l.token.kind == EndOfFile then Ok([l])
    else
      var rest :- Lexemes(s[l.space + l.width..]);
      Ok([l] + rest)
  }

  function TokensOf(ls: seq<Lexeme>): (ts: seq<Token>)
    ensures |ts| == |ls|
  {
    seq(|ls|, i requires 0 <= i < |ls| => ls[i].token)
  }

  function Tokenise(s: string): Result<seq<Token>> {
    var ls :- Lexemes(s);
    Ok(TokensOf(ls))
  }

  // ----- locations -----

  datatype Location = Location(line: nat, column: nat)

  function Move(at: Location, c: char): Location {
    if c == '\n' then Location(at.line + 1, 1) else Location(at.line, at.column + 1)
  }

  /** Where the lexer is after reading a prefix.  Columns start at 0 on the first line, at 1 below. */
  function LocationAfter(prefix: string): Location
    decreases |prefix|
  {
    if prefix == [] then Location(1, 0)
    else Move(LocationAfter(prefix[..|prefix| - 1]), prefix[|prefix| - 1])
  }

  datatype Located = Located(token: Token, location: Location)

  /** Lexemes of s from position i with their locations: that of their first character, or the last
      known one for an end that is reached in white space. */
  function Locate(s: string, i: nat, ls: seq<Lexeme>, last: Location): seq<Located>
    decreases ls
  {
    if ls == [] then []
    else
      var l := ls[0];
      var start := if i + l.space <= |s| then i + l.space else |s|;
      var at := if l.located then LocationAfter(s[..start]) else last;
      [Located(l.token, at)] + Locate(s, start + l.width, ls[1..], at)
  }
}
