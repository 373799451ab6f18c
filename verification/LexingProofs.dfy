/** Lexing undoes rendering, and the lexemes of a text partition it. */
module LexingProofs {
  import opened Results
  import opened Syntax
  import opened Numerals
  import opened Printing
  import opened Lexing

  // ----- rendering -----

  predicate AllSpace(s: string) {
    forall k | 0 <= k < |s| :: IsSpace(s[k])
  }

  predicate AllDigits(s: string) {
    s != [] && forall k | 0 <= k < |s| :: IsDigit(s[k])
  }

  predicate IsKeyword(k: TokenKind) {
    k in {TokenKind.Set, TokenKind.Show, TokenKind.Function, TokenKind.End, TokenKind.Return, And, Or,
          TokenKind.If, TokenKind.Else, Not, TokenKind.ElseIf, TokenKind.Loop, TokenKind.Break, In,
          TokenKind.Cycle}
  }

  predicate IsSymbol(k: TokenKind) {
    k in {Plus, Minus, Asterisk, ForwardSlash, LParen, RParen, Assignment, Colon, LessThan, GreaterThan,
          LessThanEquals, GreaterThanEquals, Equals, NotEquals}
  }

  /** A name the lexer reads as an identifier: it starts with a letter or underscore, goes on with
      letters, digits, underscores and dashes, and is no keyword. */
  predicate IsName(s: string) {
    && s != [] && !IsDigit(s[0]) && s[0] != '-'
    && (forall k | 0 <= k < |s| :: IsIdentifierChar(s[k]))
    && KeywordKind(s).None?
  }

  predicate IsFloatText(s: string) {
    exists n | 0 < n < |s| - 1 :: s[n] == '.' && AllDigits(s[..n]) && AllDigits(s[n + 1..])
  }

  /** Text that belongs to its kind.  String literals are not rendered. */
  predicate Writable(t: Token) {
    match t.kind
    case Identifier => IsName(t.text)
    case IntLiteral => AllDigits(t.text)
    case FloatLiteral => IsFloatText(t.text)
    case _ => (IsKeyword(t.kind) || IsSymbol(t.kind)) && t.text == Spelling(t.kind)
  }

  /** Tokens with white space before each and after the last. */
  function Render(ts: seq<Token>, gaps: seq<string>): string
    requires |gaps| == |ts| + 1
    decreases ts
  {
    gaps[0] + if ts == [] then "" else ts[0].text + Render(ts[1..], gaps[1..])
  }

  predicate Spaces(gaps: seq<string>) {
    forall i | 0 <= i < |gaps| :: AllSpace(gaps[i])
  }

  /** c next to a token does not make it longer. */
  predicate CanFollow(t: Token, c: char) {
    if t.kind == LParen || t.kind == RParen then true
    else if IsSymbol(t.kind) then !IsSymbolChar(c)
    else if t.kind == Identifier || IsKeyword(t.kind) then !IsIdentifierChar(c)
    else !IsDigit(c)
  }

  /** There is space wherever two tokens would run together; elsewhere there may be none. */
  predicate GapsOk(ts: seq<Token>, gaps: seq<string>)
    requires |gaps| == |ts| + 1
  {
    forall i | 0 < i < |ts| :: gaps[i] != "" || (ts[i].text != "" && CanFollow(ts[i - 1], ts[i].text[0]))
  }

  lemma {:induction false} RunStops(p: char -> bool, a: string, b: string)
    requires (forall k | 0 <= k < |a| :: p(a[k])) && (b == [] || !p(b[0]))
    ensures Run(p, a + b) == |a|
    decreases a
  {
    if a == [] {
      assert a + b == b;
    } else {
      assert (a + b)[1..] == a[1..] + b;
      RunStops(p, a[1..], b);
    }
  }

  /** Text before which t ends. */
  predicate Ends(t: Token, more: string) {
    more == [] || (CanFollow(t, more[0]) && more[0] != '.')
  }

  lemma KeywordSpelling(k: TokenKind)
    requires IsKeyword(k)
    ensures KeywordKind(Spelling(k)) == Some(k)
    ensures forall i | 0 <= i < |Spelling(k)| :: 'a' <= Spelling(k)[i] <= 'z'
    ensures Spelling(k) != ""
  {
  }

  lemma SymbolSpelling(k: TokenKind)
    requires IsSymbol(k)
    ensures SymbolKind(Spelling(k)) == Some(k)
    ensures forall i | 0 <= i < |Spelling(k)| :: IsSymbolChar(Spelling(k)[i])
    ensures Spelling(k) != ""
    ensures Spelling(k)[0] == '(' ==> k == LParen && Spelling(k) == "("
    ensures Spelling(k)[0] == ')' ==> k == RParen && Spelling(k) == ")"
  {
  }

  lemma ParenSpelling()
    ensures Spelling(LParen) == "(" && Spelling(RParen) == ")"
  {
  }

  /** A token with nothing next to it that could make it longer is scanned as itself. */
  lemma ScanToken(t: Token, more: string)
    requires Writable(t) && Ends(t, more)
    ensures t.text != [] && t.text[0] != NUL && !IsSpace(t.text[0])
    ensures Scan(t.text + more) == Ok((t, |t.text|))
  {
    hide ScanWord, ScanNumber, ScanSymbol, ScanString, Spelling, KeywordKind, SymbolKind, IsFloatText;
    if t.kind == Identifier {
      WordToken(t, more);
    } else if IsKeyword(t.kind) {
      KeywordSpelling(t.kind);
      WordToken(t, more);
    } else if t.kind == TokenKind.IntLiteral {
      IntToken(t, more);
    } else if t.kind == TokenKind.FloatLiteral {
      FloatToken(t, more);
    } else {
      SymbolSpelling(t.kind);
      ParenSpelling();
      SymbolToken(t, more);
    }
  }

  lemma WordToken(t: Token, more: string)
    requires t.text != [] && !IsDigit(t.text[0]) && t.text[0] != '-' && (more == [] || !IsIdentifierChar(more[0]))
    requires forall k | 0 <= k < |t.text| :: IsIdentifierChar(t.text[k])
    requires KeywordKind(t.text) == if t.kind == Identifier then None else Some(t.kind)
    ensures t.text[0] != NUL && !IsSpace(t.text[0]) && !IsSymbolChar(t.text[0]) && t.text[0] != '"'
    ensures ScanWord(t.text + more) == (t, |t.text|)
  {
    hide KeywordKind;
    RunStops(IsIdentifierChar, t.text, more);
    assert (t.text + more)[..|t.text|] == t.text;
  }

  lemma SymbolToken(t: Token, more: string)
    requires t.text != [] && SymbolKind(t.text) == Some(t.kind) && Ends(t, more) && IsSymbol(t.kind)
    requires forall k | 0 <= k < |t.text| :: IsSymbolChar(t.text[k])
    requires t.text[0] == '(' <==> t == Token(LParen, "(")
    requires t.text[0] == ')' <==> t == Token(RParen, ")")
    requires (t.kind == LParen ==> t.text == "(") && (t.kind == RParen ==> t.text == ")")
    ensures t.text[0] != NUL && !IsSpace(t.text[0]) && t.text[0] != '"'
    ensures ScanSymbol(t.text + more) == Ok((t, |t.text|))
  {
    hide SymbolKind;
    if t.kind != LParen && t.kind != RParen {
      RunStops(IsSymbolChar, t.text, more);
    }
    assert (t.text + more)[..|t.text|] == t.text;
  }

  lemma IntToken(t: Token, more: string)
    requires t.kind == TokenKind.IntLiteral && AllDigits(t.text)
    requires more == [] || (!IsDigit(more[0]) && more[0] != '.')
    ensures t.text[0] != NUL && !IsSpace(t.text[0]) && IsDigit(t.text[0])
    ensures ScanNumber(t.text + more) == (t, |t.text|)
  {
    RunStops(IsDigit, t.text, more);
    assert (t.text + more)[..|t.text|] == t.text;
  }

  lemma FloatToken(t: Token, more: string)
    requires t.kind == TokenKind.FloatLiteral && IsFloatText(t.text) && (more == [] || !IsDigit(more[0]))
    ensures t.text != [] && t.text[0] != NUL && !IsSpace(t.text[0]) && IsDigit(t.text[0])
    ensures ScanNumber(t.text + more) == (t, |t.text|)
  {
    hide ScanNumber, Spelling;
    var n :| 0 < n < |t.text| - 1 && t.text[n] == '.' && AllDigits(t.text[..n]) && AllDigits(t.text[n + 1..]);
    var whole, fraction := t.text[..n], t.text[n + 1..];
    assert t.text == whole + ("." + fraction);
    FloatRuns(whole, fraction, more);
    assert whole[0] == t.text[0];
  }

  lemma FloatRuns(whole: string, fraction: string, more: string)
    requires AllDigits(whole) && AllDigits(fraction) && (more == [] || !IsDigit(more[0]))
    ensures var text := whole + ("." + fraction);
            ScanNumber(text + more) == (Token(TokenKind.FloatLiteral, text), |text|)
  {
    hide Run;
    var text := whole + ("." + fraction);
    var s, n := text + more, |whole|;
    var tail := "." + (fraction + more);
    assert s == whole + tail && s[0] == whole[0] && s[n] == '.' && s[n + 1] == fraction[0];
    RunStops(IsDigit, whole, tail);
    assert Run(IsDigit, s) == n;
    assert s[n + 1..] == fraction + more;
    RunStops(IsDigit, fraction, more);
    assert s[..|text|] == text;
  }

  /** Lexer round trip: tokens rendered with white space are read back as they are if there is space wherever
      two of them would run together, and only then. */
  lemma {:induction false} LexerRoundTrip(ts: seq<Token>, gaps: seq<string>)
    requires |gaps| == |ts| + 1 && Spaces(gaps) && forall i | 0 <= i < |ts| :: Writable(ts[i])
    ensures Tokenise(Render(ts, gaps)) == Ok(ts + [Token(EndOfFile, "")]) <==> GapsOk(ts, gaps)
    decreases ts
  {
    hide Scan, Writable, Spelling, Run, NextLexeme, Tokenise, CanFollow;
    var s := Render(ts, gaps);
    if ts == [] {
      OnlySpace(gaps[0]);
      assert s == gaps[0] && ts + [Token(EndOfFile, "")] == [Token(EndOfFile, "")];
    } else {
      var t, more := ts[0], Render(ts[1..], gaps[1..]);
      var eof := [Token(EndOfFile, "")];
      assert ts + eof == [t] + (ts[1..] + eof);
      TailGaps(ts, gaps);
      LexerRoundTrip(ts[1..], gaps[1..]);
      RenderEnds(t, ts[1..], gaps[1..]);
      if Ends(t, more) {
        LexOne(gaps[0], t, more);
        TokeniseOne(s, Lexeme(t, |gaps[0]|, |t.text|, true), more);
        SameTail(t, Tokenise(more), ts[1..] + eof);
      } else if Tokenise(s) == Ok(ts + eof) {
        FirstToken(s, t);
        RunsOn(gaps[0], t, more);
      }
    }
  }

  lemma SameTail(t: Token, r: Result<seq<Token>>, ts: seq<Token>)
    ensures r.Ok? ==> ([t] + r.value == [t] + ts <==> r.value == ts)
  {
    if r.Ok? {
      assert ([t] + r.value)[1..] == r.value && ([t] + ts)[1..] == ts;
    }
  }

  /** The first token of a text is that of its first lexeme. */
  lemma FirstToken(s: string, t: Token)
    requires Tokenise(s).Ok? && Tokenise(s).value[0] == t
    ensures NextLexeme(s).Ok? && NextLexeme(s).value.token == t
  {
    hide NextLexeme;
  }

  /** A token before text that makes it longer is not read as it is. */
  lemma RunsOn(gap: string, t: Token, more: string)
    requires AllSpace(gap) && Writable(t) && more != [] && !CanFollow(t, more[0])
    ensures var l := NextLexeme(gap + (t.text + more)); l.Err? || l.value.token != t
  {
    hide Scan, Run, IsName, IsFloatText, Spelling;
    var s := gap + (t.text + more);
    TokenStart(t);
    WritableNotEnd(t);
    if NextLexeme(s).Ok? && NextLexeme(s).value.token == t {
      assert s[0..] == s;
      assert forall k | 0 <= k < |gap| :: s[k] == gap[k];
      assert s[|gap|] == t.text[0] && s[|gap| + |t.text|] == more[0];
      NextLexemeAt(s, 0);
    }
  }

  lemma TokenStart(t: Token)
    requires Writable(t)
    ensures t.text != [] && !IsSpace(t.text[0]) && t.text[0] != '.'
  {
    hide KeywordKind, SymbolKind, Spelling;
    if IsKeyword(t.kind) {
      KeywordSpelling(t.kind);
    } else if IsSymbol(t.kind) {
      SymbolSpelling(t.kind);
    }
  }

  lemma TokeniseOne(s: string, l: Lexeme, more: string)
    requires NextLexeme(s) == Ok(l) && l.token.kind != EndOfFile && s[l.space + l.width..] == more
    ensures Tokenise(s) == match Tokenise(more)
                           case Ok(ts) => Ok([l.token] + ts)
                           case Err(error) => Err(error)
  {
    hide NextLexeme;
    var rest := Lexemes(more);
    if rest.Ok? {
      assert Lexemes(s) == Ok([l] + rest.value);
      assert TokensOf([l] + rest.value) == [l.token] + TokensOf(rest.value);
    }
  }

  lemma TailGaps(ts: seq<Token>, gaps: seq<string>)
    requires |gaps| == |ts| + 1 && ts != [] && Spaces(gaps)
    ensures Spaces(gaps[1..])
    ensures GapsOk(ts, gaps) <==>
              GapsOk(ts[1..], gaps[1..])
              && (|ts| > 1 ==> gaps[1] != "" || (ts[1].text != "" && CanFollow(ts[0], ts[1].text[0])))
  {
    hide CanFollow;
    forall i | 0 < i < |ts[1..]|
      ensures ts[1..][i] == ts[i + 1] && ts[1..][i - 1] == ts[i] && gaps[1..][i] == gaps[i + 1]
    {
    }
    if GapsOk(ts[1..], gaps[1..]) {
      forall i | 1 < i < |ts|
        ensures gaps[i] != "" || (ts[i].text != "" && CanFollow(ts[i - 1], ts[i].text[0]))
      {
        assert ts[1..][i - 1] == ts[i] && ts[1..][i - 2] == ts[i - 1] && gaps[1..][i - 1] == gaps[i];
      }
    }
  }

  /** One token, the gap before it, and what is left. */
  lemma LexOne(gap: string, t: Token, more: string)
    requires AllSpace(gap) && Writable(t) && Ends(t, more)
    ensures var s := gap + (t.text + more);
            NextLexeme(s) == Ok(Lexeme(t, |gap|, |t.text|, true)) && s[|gap| + |t.text|..] == more
    ensures t.kind != EndOfFile
  {
    hide Scan, Run, Writable;
    var s := gap + (t.text + more);
    ScanToken(t, more);
    WritableNotEnd(t);
    RunStops(IsSpace, gap, t.text + more);
    assert s[|gap|..] == t.text + more;
  }

  lemma OnlySpace(gap: string)
    requires AllSpace(gap)
    ensures Tokenise(gap) == Ok([Token(EndOfFile, "")])
  {
    RunStops(IsSpace, gap, "");
    assert gap == gap + "";
    var l := Lexeme(Token(EndOfFile, ""), |gap|, 0, false);
    assert Lexemes(gap) == Ok([l]);
    assert TokensOf([l]) == [l.token];
  }

  lemma WritableNotEnd(t: Token)
    requires Writable(t)
    ensures t.kind != EndOfFile
  {
  }

  /** What follows a token lets it end, if there is space or the next token can follow. */
  lemma RenderEnds(t: Token, ts: seq<Token>, gaps: seq<string>)
    requires |gaps| == |ts| + 1 && Spaces(gaps) && forall i | 0 <= i < |ts| :: Writable(ts[i])
    ensures Ends(t, Render(ts, gaps))
       <==> (ts != [] ==> gaps[0] != "" || (ts[0].text != "" && CanFollow(t, ts[0].text[0])))
    ensures !Ends(t, Render(ts, gaps)) ==> !CanFollow(t, Render(ts, gaps)[0])
  {
    hide Writable;
    if gaps[0] != "" {
      assert Render(ts, gaps)[0] == gaps[0][0] && IsSpace(gaps[0][0]);
    } else if ts != [] {
      TokenStart(ts[0]);
      assert Render(ts, gaps)[0] == ts[0].text[0];
    }
  }

  // ----- partition -----

  /** The lexemes cover s from position i on: white space, then the token's own characters, which for
      a string token are all but its opening quote, and so on. */
  ghost predicate Partitions(s: string, i: nat, ls: seq<Lexeme>)
    decreases ls
  {
    ls == [] || (LexemeAt(s, i, ls[0]) && Partitions(s, i + ls[0].space + ls[0].width, ls[1..]))
  }

  /** The input ends: no character left, a NUL, or one that starts no token. */
  predicate Stops(s: string, i: nat) {
    i >= |s| || s[i] == NUL || !(s[i] == '"' || IsSymbolChar(s[i]) || IsIdentifierChar(s[i]))
  }

  /** The run could not go on: names and keywords, operators and numbers take all they can. */
  predicate Unextendable(t: Token, s: string, stop: nat) {
    stop < |s| ==>
      && (t.kind == Identifier || IsKeyword(t.kind) ==> !IsIdentifierChar(s[stop]))
      && (IsSymbol(t.kind) && t.kind != LParen && t.kind != RParen ==> !IsSymbolChar(s[stop]))
      && (t.kind == TokenKind.IntLiteral || t.kind == TokenKind.FloatLiteral ==> !IsDigit(s[stop]))
      && (t.kind == TokenKind.IntLiteral ==> !(s[stop] == '.' && stop + 1 < |s| && IsDigit(s[stop + 1])))
  }

  lemma KeywordsOnly(word: string)
    ensures KeywordKind(word).Some? ==> IsKeyword(KeywordKind(word).value)
  {
  }

  lemma SymbolsOnly(word: string)
    ensures SymbolKind(word).Some? ==> IsSymbol(SymbolKind(word).value)
  {
  }

  /** What a scanned token is made of. */
  ghost predicate Shaped(t: string, token: Token, n: nat)
    requires t != [] && n <= |t|
  {
    if token.kind == EndOfFile then token.text == "" && Stops(t, 0)
    else if token.kind == StringLiteral then n > 0 && t[0] == '"' && token.text == t[1..n]
    else token.text == t[..n] && Unextendable(token, t, n)
  }

  lemma ScanShape(t: string)
    requires t != [] && t[0] != NUL && !IsSpace(t[0]) && Scan(t).Ok?
    ensures Shaped(t, Scan(t).value.0, Scan(t).value.1)
  {
    hide ScanWord, ScanNumber, ScanSymbol, Shaped;
    if t[0] == '"' {
      assert Shaped(t, Scan(t).value.0, Scan(t).value.1) by { StringShape(t); }
    } else if IsSymbolChar(t[0]) {
      SymbolShape(t);
    } else if IsDigit(t[0]) {
      NumberShape(t);
    } else if IsIdentifierChar(t[0]) {
      WordShape(t);
    } else {
      UnknownShape(t);
    }
  }

  lemma UnknownShape(t: string)
    requires t != [] && Stops(t, 0)
    ensures Shaped(t, Token(EndOfFile, ""), 1)
  {
  }

  lemma StringShape(t: string)
    requires t != [] && t[0] == '"' && ScanString(t).Ok?
    ensures Shaped(t, ScanString(t).value.0, ScanString(t).value.1)
  {
  }

  lemma SymbolShape(t: string)
    requires t != [] && IsSymbolChar(t[0]) && ScanSymbol(t).Ok?
    ensures Shaped(t, ScanSymbol(t).value.0, ScanSymbol(t).value.1)
  {
    hide SymbolKind;
    SymbolsOnly(t[..Run(IsSymbolChar, t)]);
  }

  lemma NumberShape(t: string)
    requires t != [] && IsDigit(t[0])
    ensures Shaped(t, ScanNumber(t).0, ScanNumber(t).1)
  {
  }

  lemma WordShape(t: string)
    requires t != [] && IsIdentifierChar(t[0])
    ensures Shaped(t, ScanWord(t).0, ScanWord(t).1)
  {
    hide KeywordKind;
    KeywordsOnly(t[..Run(IsIdentifierChar, t)]);
  }

  /** One lexeme at position i: the white space before it and its own characters. */
  ghost predicate LexemeAt(s: string, i: nat, l: Lexeme) {
    var start, stop := i + l.space, i + l.space + l.width;
    && stop <= |s| && (forall k | i <= k < start :: IsSpace(s[k]))
    && (if l.token.kind == EndOfFile then l.token.text == "" && Stops(s, start)
        else if l.token.kind == StringLiteral then
          start < stop && s[start] == '"' && l.token.text == s[start + 1..stop]
        else l.token.text == s[start..stop] && Unextendable(l.token, s, stop))
  }

  lemma NextLexemeAt(s: string, i: nat)
    requires i <= |s| && NextLexeme(s[i..]).Ok?
    ensures LexemeAt(s, i, NextLexeme(s[i..]).value)
  {
    hide Scan, Run;
    var l := NextLexeme(s[i..]).value;
    var start, stop := i + l.space, i + l.space + l.width;
    assert forall k | i <= k < start :: s[k] == s[i..][k - i];
    assert s[i..][l.space..] == s[start..];
    if l.located {
      ScanShape(s[start..]);
      ShapedAt(s, start, l.token, l.width);
    }
  }

  lemma ShapedAt(s: string, start: nat, token: Token, n: nat)
    requires start < |s| && start + n <= |s| && Shaped(s[start..], token, n)
    ensures if token.kind == EndOfFile then token.text == "" && Stops(s, start)
            else if token.kind == StringLiteral then
              n > 0 && s[start] == '"' && token.text == s[start + 1..start + n]
            else token.text == s[start..start + n] && Unextendable(token, s, start + n)
  {
    var t := s[start..];
    assert t[0] == s[start] && (n < |t| ==> t[n] == s[start + n]) && (n + 1 < |t| ==> t[n + 1] == s[start + n + 1]);
    assert t[..n] == s[start..start + n];
    assert n > 0 ==> t[1..n] == s[start + 1..start + n];
  }

  /** For any accepted text the lexemes partition it up to where the lexer stopped. */
  lemma {:induction false} LexemesPartition(s: string, i: nat)
    requires i <= |s| && Lexemes(s[i..]).Ok?
    ensures Partitions(s, i, Lexemes(s[i..]).value)
    ensures EndsOnce(Lexemes(s[i..]).value)
    decreases |s| - i
  {
    hide NextLexeme, LexemeAt;
    var l := NextLexeme(s[i..]).value;
    var ls := Lexemes(s[i..]).value;
    var stop := i + l.space + l.width;
    NextLexemeAt(s, i);
    assert s[i..][l.space + l.width..] == s[stop..];
    if l.token.kind == EndOfFile {
      assert ls == [l] && ls[1..] == [];
    } else {
      LexemesPartition(s, stop);
      var rest := Lexemes(s[stop..]).value;
      assert ls == [l] + rest && ls[1..] == rest;
      OneMoreLexeme(l, rest);
    }
  }

  /** EndOfFile comes last and nowhere else. */
  ghost predicate EndsOnce(ls: seq<Lexeme>) {
    |ls| > 0 && forall k | 0 <= k < |ls| :: ls[k].token.kind == EndOfFile <==> k == |ls| - 1
  }

  lemma OneMoreLexeme(l: Lexeme, rest: seq<Lexeme>)
    requires EndsOnce(rest) && l.token.kind != EndOfFile
    ensures EndsOnce([l] + rest)
  {
  }

  // ----- locations in closed form -----

  function Newlines(s: string): nat {
    if s == [] then 0 else Newlines(s[..|s| - 1]) + if s[|s| - 1] == '\n' then 1 else 0
  }

  /** The number of characters after the last newline, or all of them. */
  function SinceNewline(s: string): nat {
    if s == [] || s[|s| - 1] == '\n' then 0 else 1 + SinceNewline(s[..|s| - 1])
  }

  lemma {:induction false} LocationClosedForm(prefix: string)
    ensures LocationAfter(prefix)
         == Location(1 + Newlines(prefix), SinceNewline(prefix) + if Newlines(prefix) > 0 then 1 else 0)
    decreases |prefix|
  {
    if prefix != [] {
      LocationClosedForm(prefix[..|prefix| - 1]);
    }
  }
}
