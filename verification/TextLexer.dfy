/** The lexer as it is written: an index and two locations that move over the text. */
module TextLexer {
  import opened Results
  import opened Syntax
  import opened Numerals
  import opened Lexing

  class Lexer {
    const data: string
    var index: nat
    var currentLocation: Location
    var tokenLocation: Location

    /** The current location is always that of the text already read. */
    ghost predicate Valid()
      reads this
    {
      index <= |data| && currentLocation == LocationAfter(data[..index])
    }

    constructor (data: string)
      ensures Valid() && this.data == data && index == 0 && tokenLocation == Location(1, 0)
    {
      this.data := data;
      index := 0;
      currentLocation, tokenLocation := Location(1, 0), Location(1, 0);
    }

    function Current(): char
      reads this
    {
      if index < |data| then data[index] else NUL
    }

    function Peek(): char
      reads this
    {
      if index + 1 < |data| then data[index + 1] else NUL
    }

    method Advance()
      requires Valid() && index < |data|
      modifies this`index, this`currentLocation
      ensures Valid() && index == old(index) + 1
    {
      if Current() == '\n' {
        currentLocation := Location(currentLocation.line + 1, 1);
      } else {
        currentLocation := Location(currentLocation.line, currentLocation.column + 1);
      }
      assert data[..index + 1][..index] == data[..index];
      index := index + 1;
    }

    /** Move over the longest run of characters of one class. */
    method SkipWhile(p: char -> bool)
      requires Valid() && !p(NUL)
      modifies this`index, this`currentLocation
      ensures Valid() && index == old(index) + Run(p, data[old(index)..])
    {
      ghost var start := index;
      while p(Current())
        invariant Valid() && start <= index
        invariant Run(p, data[start..]) == index - start + Run(p, data[index..])
        decreases |data| - index
      {
        assert data[index..][1..] == data[index + 1..];
        Advance();
      }
    }

    method ParseNumber() returns (t: Token)
      requires Valid() && IsDigit(Current())
      modifies this`index, this`currentLocation
      ensures Valid() && (t, index - old(index)) == ScanNumber(data[old(index)..])
    {
      hide Run, LocationAfter;
      var start := index;
      ghost var s := data[start..];
      SkipWhile(IsDigit);
      ghost var n := index - start;
      assert n < |s| ==> s[n] == data[index];
      assert n + 1 < |s| ==> s[n + 1] == data[index + 1];
      if Current() == '.' && IsDigit(Peek()) {
        Advance();
        assert s[n + 1..] == data[index..];
        SkipWhile(IsDigit);
        assert s[..index - start] == data[start..index];
        return Token(TokenKind.FloatLiteral, data[start..index]);
      }
      assert s[..n] == data[start..index];
      return Token(TokenKind.IntLiteral, data[start..index]);
    }

    method ParseStringLiteral() returns (r: Result<Token>)
      requires Valid() && Current() == '"'
      modifies this`index, this`currentLocation
      ensures match ScanString(data[old(index)..])
              case Ok((t, n)) => r == Ok(t) && Valid() && index == old(index) + n
              case Err(error) => r == Err(error)
    {
      ghost var s := data[index..];
      Advance();
      var start := index;
      assert s[1..] == data[start..];
      SkipWhile(InsideString);
      assert forall k | start <= k < |data| :: s[k - start + 1] == data[k];
      if Current() == NUL {
        return Err(UnterminatedString);
      }
      Advance();
      assert s[1..index - start + 1] == data[start..index];
      return Ok(Token(StringLiteral, data[start..index]));
    }

    method ParseIdentifier() returns (t: Token)
      requires Valid() && IsIdentifierChar(Current())
      modifies this`index, this`currentLocation
      ensures Valid() && (t, index - old(index)) == ScanWord(data[old(index)..])
    {
      var start := index;
      SkipWhile(IsIdentifierChar);
      var word := data[start..index];
      assert data[start..][..index - start] == word;
      var found := KeywordKind(word);
      return Token(if found.Some? then found.value else Identifier, word);
    }

    method ParseSymbol() returns (r: Result<Token>)
      requires Valid() && IsSymbolChar(Current())
      modifies this`index, this`currentLocation
      ensures match ScanSymbol(data[old(index)..])
              case Ok((t, n)) => r == Ok(t) && Valid() && index == old(index) + n
              case Err(error) => r == Err(error)
    {
      if Current() == '(' {
        Advance();
        return Ok(Token(LParen, "("));
      }
      if Current() == ')' {
        Advance();
        return Ok(Token(RParen, ")"));
      }
      var start := index;
      SkipWhile(IsSymbolChar);
      var word := data[start..index];
      assert data[start..][..index - start] == word;
      var found := SymbolKind(word);
      return if found.Some? then Ok(Token(found.value, word)) else Err(UnknownSymbol);
    }

    method NextToken() returns (r: Result<Located>)
      requires Valid()
      modifies this
      ensures match NextLexeme(data[old(index)..])
              case Ok(l) =>
                && Valid() && index == old(index) + l.space + l.width
                && r == Ok(Located(l.token, Place(data, old(index), l, old(tokenLocation))))
                && tokenLocation == r.value.location
              case Err(error) => r == Err(error)
    {
      hide ScanWord, ScanNumber, ScanSymbol, ScanString, LocationAfter, Run;
      ghost var s := data[index..];
      ghost var w := Run(IsSpace, s);
      assert s[w..] == data[index + w..];
      SkipWhile(IsSpace);
      if index >= |data| || Current() == NUL {
        return Ok(Located(Token(EndOfFile, ""), tokenLocation));
      }
      tokenLocation := currentLocation;
      if Current() == '"' {
        var t :- ParseStringLiteral();
        return Ok(Located(t, tokenLocation));
      }
      if IsSymbolChar(Current()) {
        var t :- ParseSymbol();
        return Ok(Located(t, tokenLocation));
      }
      if IsDigit(Current()) {
        var t := ParseNumber();
        return Ok(Located(t, tokenLocation));
      }
      if IsIdentifierChar(Current()) {
        var t := ParseIdentifier();
        return Ok(Located(t, tokenLocation));
      }
      currentLocation := tokenLocation;
      Advance();
      return Ok(Located(Token(EndOfFile, ""), tokenLocation));
    }

    /** From the start of the text: the tokens of its lexemes, each with its location. */
    method Tokenise() returns (r: Result<seq<Located>>)
      requires Valid()
      modifies this
      ensures match Lexemes(data[old(index)..])
              case Ok(ls) => r == Ok(Locate(data, old(index), ls, old(tokenLocation)))
              case Err(error) => r == Err(error)
    {
      hide NextLexeme, Lexemes, Locate, Tokens, LocationAfter;
      ghost var start, last := index, tokenLocation;
      var tokens: seq<Located> := [];
      ghost var before := index;
      ghost var at := tokenLocation;
      NothingYet(data, start, last);
      var first := NextToken();
      if first.Err? {
        FailsAt(data, start, last, tokens, before, at);
        return Err(first.error);
      }
      var token := first.value;
      while token.token.kind != EndOfFile
        invariant Valid() && tokenLocation == token.location
        invariant before <= |data| && FoundAt(data, before, at, token, index)
        invariant Tokens(data, start, last, tokens, before, at)
        decreases |data| - before
      {
        AddToken(data, start, last, tokens, before, at, token, index);
        tokens := tokens + [token];
        before, at := index, tokenLocation;
        var next := NextToken();
        if next.Err? {
          FailsAt(data, start, last, tokens, before, at);
          return Err(next.error);
        }
        token := next.value;
      }
      LastToken(data, start, last, tokens, before, at, token, index);
      tokens := tokens + [token];
      return Ok(tokens);
    }
  }

  /** Lexing from `start` is what was collected, followed by lexing from `here`. */
  ghost predicate Tokens(s: string, start: nat, last: Location, done: seq<Located>, here: nat, at: Location)
    requires start <= |s| && here <= |s|
  {
    var whole, rest := Lexemes(s[start..]), Lexemes(s[here..]);
    if rest.Err? then whole == rest
    else whole.Ok? && Locate(s, start, whole.value, last) == done + Locate(s, here, rest.value, at)
  }

  /** The lexeme at `here` is the token t and ends at `next`. */
  ghost predicate FoundAt(s: string, here: nat, at: Location, t: Located, next: nat)
    requires here <= |s|
  {
    NextLexeme(s[here..]).Ok?
    && var l := NextLexeme(s[here..]).value;
       t == Located(l.token, Place(s, here, l, at)) && next == here + l.space + l.width
  }

  lemma NothingYet(s: string, start: nat, last: Location)
    requires start <= |s|
    ensures Tokens(s, start, last, [], start, last)
  {
    var whole := Lexemes(s[start..]);
    assert whole.Ok? ==> [] + Locate(s, start, whole.value, last) == Locate(s, start, whole.value, last);
  }

  /** The location of the lexeme found at `here`. */
  function Place(s: string, here: nat, l: Lexeme, at: Location): Location
    requires here + l.space <= |s|
  {
    if l.located then LocationAfter(s[..here + l.space]) else at
  }

  lemma FailsAt(s: string, start: nat, last: Location, done: seq<Located>, here: nat, at: Location)
    requires start <= |s| && here <= |s| && Tokens(s, start, last, done, here, at)
    requires NextLexeme(s[here..]).Err?
    ensures Lexemes(s[start..]) == Err(NextLexeme(s[here..]).error)
  {
  }

  lemma AddToken(s: string, start: nat, last: Location, done: seq<Located>, here: nat, at: Location,
                 t: Located, next: nat)
    requires start <= |s| && here <= |s| && Tokens(s, start, last, done, here, at)
    requires FoundAt(s, here, at, t, next) && t.token.kind != EndOfFile
    ensures next <= |s| && Tokens(s, start, last, done + [t], next, t.location)
  {
    hide NextLexeme, LocationAfter;
    var l := NextLexeme(s[here..]).value;
    assert s[here..][l.space + l.width..] == s[next..];
    var rest := Lexemes(s[next..]);
    if rest.Ok? {
      assert Lexemes(s[here..]) == Ok([l] + rest.value);
      assert ([l] + rest.value)[1..] == rest.value;
      assert Locate(s, here, [l] + rest.value, at) == [t] + Locate(s, next, rest.value, t.location);
      assert done + ([t] + Locate(s, next, rest.value, t.location))
          == done + [t] + Locate(s, next, rest.value, t.location);
    }
  }

  lemma LastToken(s: string, start: nat, last: Location, done: seq<Located>, here: nat, at: Location,
                  t: Located, next: nat)
    requires start <= |s| && here <= |s| && Tokens(s, start, last, done, here, at)
    requires FoundAt(s, here, at, t, next) && t.token.kind == EndOfFile
    ensures Lexemes(s[start..]).Ok? && done + [t] == Locate(s, start, Lexemes(s[start..]).value, last)
  {
    hide NextLexeme, LocationAfter;
    var l := NextLexeme(s[here..]).value;
    assert Lexemes(s[here..]) == Ok([l]) && [l][1..] == [];
    assert Locate(s, here, [l], at) == [t];
  }
}
