/** The lexer's words with its alphabets and spellings written out: for every text, exactly which token comes next,
    how much of the text it takes, and when there is none. */
module Lexicon {
  import opened Results
  import opened Syntax
  import opened Numerals
  import opened Printing
  import opened Lexing
  import opened LexingProofs

  // ----- alphabets -----

  predicate SpaceChar(c: char) {
    c in {' ', '\t', '\n', '\U{B}', '\U{C}', '\r'}
  }

  predicate DigitChar(c: char) {
    c in "0123456789"
  }

  predicate WordChar(c: char) {
    c in "abcdefghijklmnopqrstuvwxyz" || c in "ABCDEFGHIJKLMNOPQRSTUVWXYZ" || c in "0123456789" || c in "_-"
  }

  predicate SymbolChar(c: char) {
    c in "+-*/()=:<>{}!"
  }

  /** The classes of the lexer are those alphabets: six white space characters, ten digits, the letters, digits,
      underscore and dash of words, and the characters of symbols. */
  lemma CharacterClasses(c: char)
    ensures IsSpace(c) <==> SpaceChar(c)
    ensures IsDigit(c) <==> DigitChar(c)
    ensures IsIdentifierChar(c) <==> WordChar(c)
    ensures IsSymbolChar(c) <==> SymbolChar(c)
  {
    hide WordChar, SymbolChar;
    WordClass(c);
    SymbolClass(c);
  }

  lemma WordClass(c: char)
    ensures IsIdentifierChar(c) <==> WordChar(c)
  {
  }

  lemma SymbolClass(c: char)
    ensures IsSymbolChar(c) <==> SymbolChar(c)
  {
  }

  lemma Classes()
    ensures forall c :: IsSpace(c) <==> SpaceChar(c)
    ensures forall c :: IsDigit(c) <==> DigitChar(c)
    ensures forall c :: IsIdentifierChar(c) <==> WordChar(c)
    ensures forall c :: IsSymbolChar(c) <==> SymbolChar(c)
  {
    hide SpaceChar, DigitChar, WordChar, SymbolChar, IsSpace, IsDigit, IsIdentifierChar, IsSymbolChar;
    forall c: char
      ensures IsSpace(c) <==> SpaceChar(c)
      ensures IsDigit(c) <==> DigitChar(c)
      ensures IsIdentifierChar(c) <==> WordChar(c)
      ensures IsSymbolChar(c) <==> SymbolChar(c)
    {
      CharacterClasses(c);
    }
  }

  // ----- keywords and symbols -----

  /** The fifteen keywords and fourteen symbols. */
  lemma Tables()
    ensures KeywordKind("set") == Some(TokenKind.Set) && KeywordKind("show") == Some(TokenKind.Show)
    ensures KeywordKind("func") == Some(TokenKind.Function) && KeywordKind("end") == Some(TokenKind.End)
    ensures KeywordKind("return") == Some(TokenKind.Return) && KeywordKind("and") == Some(And)
    ensures KeywordKind("or") == Some(Or) && KeywordKind("if") == Some(TokenKind.If)
    ensures KeywordKind("else") == Some(TokenKind.Else) && KeywordKind("not") == Some(Not)
    ensures KeywordKind("elseif") == Some(TokenKind.ElseIf) && KeywordKind("loop") == Some(TokenKind.Loop)
    ensures KeywordKind("break") == Some(TokenKind.Break) && KeywordKind("in") == Some(In)
    ensures KeywordKind("cycle") == Some(TokenKind.Cycle)
    ensures SymbolKind("+") == Some(Plus) && SymbolKind("-") == Some(Minus) && SymbolKind("*") == Some(Asterisk)
    ensures SymbolKind("/") == Some(ForwardSlash) && SymbolKind("(") == Some(LParen) && SymbolKind(")") == Some(RParen)
    ensures SymbolKind("=") == Some(Assignment) && SymbolKind(":") == Some(Colon)
    ensures SymbolKind("<") == Some(LessThan) && SymbolKind(">") == Some(GreaterThan)
    ensures SymbolKind("<=") == Some(LessThanEquals) && SymbolKind(">=") == Some(GreaterThanEquals)
    ensures SymbolKind("==") == Some(Equals) && SymbolKind("!=") == Some(NotEquals)
  {
    hide KeywordKind, SymbolKind, Spelling;
    forall k | IsKeyword(k)
      ensures KeywordKind(Spelling(k)) == Some(k)
    {
      KeywordSpelling(k);
    }
    forall k | IsSymbol(k)
      ensures SymbolKind(Spelling(k)) == Some(k)
    {
      SymbolSpelling(k);
    }
    KeywordsSpelledOut();
    MoreKeywordsSpelledOut();
    SymbolsSpelledOut();
  }

  lemma KeywordsSpelledOut()
    ensures Spelling(TokenKind.Set) == "set" && Spelling(TokenKind.Show) == "show"
    ensures Spelling(TokenKind.Function) == "func" && Spelling(TokenKind.End) == "end"
    ensures Spelling(TokenKind.Return) == "return" && Spelling(And) == "and" && Spelling(Or) == "or"
    ensures Spelling(TokenKind.If) == "if"
  {
  }

  lemma MoreKeywordsSpelledOut()
    ensures Spelling(TokenKind.Else) == "else" && Spelling(Not) == "not"
    ensures Spelling(TokenKind.ElseIf) == "elseif" && Spelling(TokenKind.Loop) == "loop"
    ensures Spelling(TokenKind.Break) == "break" && Spelling(In) == "in" && Spelling(TokenKind.Cycle) == "cycle"
  {
  }

  lemma SymbolsSpelledOut()
    ensures Spelling(Plus) == "+" && Spelling(Minus) == "-" && Spelling(Asterisk) == "*"
    ensures Spelling(ForwardSlash) == "/"
    ensures Spelling(LParen) == "(" && Spelling(RParen) == ")" && Spelling(Assignment) == "=" && Spelling(Colon) == ":"
    ensures Spelling(LessThan) == "<" && Spelling(GreaterThan) == ">" && Spelling(LessThanEquals) == "<="
    ensures Spelling(GreaterThanEquals) == ">=" && Spelling(Equals) == "==" && Spelling(NotEquals) == "!="
  {
  }

  /** A word is the keyword it spells, and no other word is a keyword. */
  lemma KeywordIff(word: string, k: TokenKind)
    ensures KeywordKind(word) == Some(k) <==> IsKeyword(k) && word == Spelling(k)
  {
    hide KeywordKind, Spelling;
    KeywordSpelled(word);
    if IsKeyword(k) {
      KeywordSpelling(k);
    }
  }

  lemma KeywordSpelled(word: string)
    ensures KeywordKind(word).Some? ==> IsKeyword(KeywordKind(word).value) && word == Spelling(KeywordKind(word).value)
  {
    hide IsKeyword;
    KeywordsOnly(word);
    if KeywordKind(word).Some? {
      SpelledAs(word, KeywordKind(word).value);
    }
  }

  lemma SpelledAs(word: string, k: TokenKind)
    requires KeywordKind(word) == Some(k)
    ensures word == Spelling(k)
  {
    match k
    case Set =>
    case Show =>
    case Function =>
    case End =>
    case Return =>
    case _ =>
  }

  /** Of the runs of symbol characters, those that spell a symbol are that symbol. */
  lemma SymbolIff(word: string, k: TokenKind)
    ensures SymbolKind(word) == Some(k) <==> IsSymbol(k) && word == Spelling(k)
  {
    hide SymbolKind, Spelling;
    SymbolSpelled(word);
    if IsSymbol(k) {
      SymbolSpelling(k);
    }
  }

  lemma SymbolSpelled(word: string)
    ensures SymbolKind(word).Some? ==> IsSymbol(SymbolKind(word).value) && word == Spelling(SymbolKind(word).value)
  {
  }

  // ----- one token -----

  /** The first n characters of t, and no more, satisfy p. */
  ghost predicate Longest(p: char -> bool, t: string, n: nat) {
    n <= |t| && (forall k | 0 <= k < n :: p(t[k])) && (n < |t| ==> !p(t[n]))
  }

  ghost predicate Plain(word: string) {
    forall k :: IsKeyword(k) ==> word != Spelling(k)
  }

  /** t starts with the token, written in n characters.  t is not empty and starts with no white space. */
  ghost predicate Reads(t: string, token: Token, n: nat)
    requires t != []
  {
    if t[0] == '"' then
      && token.kind == StringLiteral && 2 <= n <= |t| && token.text == t[1..n] && t[n - 1] == '"'
      && forall k | 1 <= k < n - 1 :: t[k] != '"' && t[k] != NUL
    else if t[0] == '(' then token == Token(LParen, "(") && n == 1
    else if t[0] == ')' then token == Token(RParen, ")") && n == 1
    else if SymbolChar(t[0]) then
      Longest(SymbolChar, t, n) && token.text == t[..n] && IsSymbol(token.kind) && token.text == Spelling(token.kind)
    else if DigitChar(t[0]) then ReadsNumber(t, token, n)
    else if WordChar(t[0]) then
      && Longest(WordChar, t, n) && token.text == t[..n]
      && (if IsKeyword(token.kind) then token.text == Spelling(token.kind)
          else token.kind == Identifier && Plain(token.text))
    else token == Token(EndOfFile, "") && n == 1
  }

  ghost predicate ReadsNumber(t: string, token: Token, n: nat) {
    && n <= |t| && token.text == t[..n]
    && (if token.kind == TokenKind.IntLiteral then
          Longest(DigitChar, t, n) && !(n + 1 < |t| && t[n] == '.' && DigitChar(t[n + 1]))
        else
          && token.kind == TokenKind.FloatLiteral
          && exists m :: 0 < m < n - 1 && Longest(DigitChar, t, m) && t[m] == '.'
                         && Longest(DigitChar, t[m + 1..], n - (m + 1)))
  }

  /** There is no token at the start of t: a string without end, or a run of symbol characters that spells nothing. */
  ghost predicate Broken(t: string)
    requires t != []
  {
    if t[0] == '"' then
      forall j | 1 <= j < |t| && t[j] == '"' :: exists k :: 1 <= k < j && t[k] == NUL
    else
      && SymbolChar(t[0]) && t[0] != '(' && t[0] != ')'
      && forall n: nat, k | Longest(SymbolChar, t, n) && IsSymbol(k) :: t[..n] != Spelling(k)
  }

  lemma RunIsLongest(p: char -> bool, q: char -> bool, t: string, n: nat)
    requires forall c :: p(c) <==> q(c)
    ensures Run(p, t) == n <==> Longest(q, t, n)
  {
    var r := Run(p, t);
    assert Longest(q, t, r);
  }

  lemma StringReads(t: string, token: Token, n: nat)
    requires t != [] && t[0] == '"'
    ensures ScanString(t) == Ok((token, n)) <==> Reads(t, token, n)
    ensures ScanString(t).Err? ==> Broken(t) && ScanString(t).error == UnterminatedString
  {
    var inside := t[1..];
    var r := Run(InsideString, inside);
    assert forall k | 1 <= k < |t| :: t[k] == inside[k - 1];
    assert forall k | 1 <= k < r + 1 :: InsideString(t[k]);
    if r + 1 < |t| {
      assert !InsideString(t[r + 1]);
    }
    if ScanString(t).Err? {
      forall j | 1 <= j < |t| && t[j] == '"'
        ensures exists k :: 1 <= k < j && t[k] == NUL
      {
        assert j > r + 1 && t[r + 1] == NUL;
      }
    }
  }

  lemma SymbolReads(t: string, token: Token, n: nat)
    requires t != [] && SymbolChar(t[0])
    ensures ScanSymbol.requires(t)
    ensures ScanSymbol(t) == Ok((token, n)) <==> Reads(t, token, n)
    ensures ScanSymbol(t).Err? ==> Broken(t) && ScanSymbol(t).error == UnknownSymbol
  {
    hide SpaceChar, DigitChar, WordChar, SymbolChar, IsSymbolChar, SymbolKind, Spelling, Run, IsSymbol;
    Classes();
    NotQuote(t[0]);
    var r := Run(IsSymbolChar, t);
    RunIsLongest(IsSymbolChar, SymbolChar, t, r);
    RunIsLongest(IsSymbolChar, SymbolChar, t, n);
    SymbolIff(t[..r], token.kind);
    if ScanSymbol(t).Err? {
      forall m: nat, k | Longest(SymbolChar, t, m) && IsSymbol(k)
        ensures t[..m] != Spelling(k)
      {
        RunIsLongest(IsSymbolChar, SymbolChar, t, m);
        SymbolIff(t[..r], k);
      }
    } else if t[0] != '(' && t[0] != ')' {
      SymbolIff(t[..r], SymbolKind(t[..r]).value);
    }
  }

  lemma NotQuote(c: char)
    ensures SymbolChar(c) || DigitChar(c) || WordChar(c) ==> c != '"' && c != NUL && !SpaceChar(c)
    ensures DigitChar(c) ==> !SymbolChar(c)
    ensures c == '-' ==> SymbolChar(c)
    ensures c == '(' || c == ')' ==> SymbolChar(c)
    ensures c == '.' ==> !DigitChar(c)
    ensures c == '"' ==> !SpaceChar(c)
    ensures WordChar(c) && c != '-' ==> !SymbolChar(c) && !SpaceChar(c)
  {
    hide SpaceChar, DigitChar, WordChar, SymbolChar;
    CharacterClasses(c);
  }

  lemma NumberReads(t: string, token: Token, n: nat)
    requires t != [] && DigitChar(t[0])
    ensures ScanNumber.requires(t)
    ensures ScanNumber(t) == (token, n) <==> ReadsNumber(t, token, n)
  {
    hide SpaceChar, DigitChar, WordChar, SymbolChar, IsDigit, Run, ReadsNumber;
    Classes();
    var r := Run(IsDigit, t);
    RunIsLongest(IsDigit, DigitChar, t, r);
    if r + 1 < |t| && t[r] == '.' && IsDigit(t[r + 1]) {
      var f := Run(IsDigit, t[r + 1..]);
      RunIsLongest(IsDigit, DigitChar, t[r + 1..], f);
      FloatReads(t, token, n, r, f);
    } else {
      IntReads(t, token, n, r);
    }
  }

  lemma LongestOnce(p: char -> bool, t: string, m: nat, n: nat)
    requires Longest(p, t, m) && Longest(p, t, n)
    ensures m == n
  {
  }

  /** A float starts with a run of digits, a dot and a digit. */
  lemma FloatStart(t: string, token: Token, n: nat)
    requires ReadsNumber(t, token, n) && token.kind == TokenKind.FloatLiteral
    ensures exists m :: 0 < m < |t| - 1 && Longest(DigitChar, t, m) && t[m] == '.' && DigitChar(t[m + 1])
  {
    hide DigitChar;
    var m :| 0 < m < n - 1 && Longest(DigitChar, t, m) && t[m] == '.' && Longest(DigitChar, t[m + 1..], n - (m + 1));
    assert t[m + 1..][0] == t[m + 1];
  }

  lemma IntReads(t: string, token: Token, n: nat, r: nat)
    requires t != [] && DigitChar(t[0]) && Longest(DigitChar, t, r)
    requires !(r + 1 < |t| && t[r] == '.' && DigitChar(t[r + 1]))
    ensures ReadsNumber(t, token, n) <==> n == r && token == Token(TokenKind.IntLiteral, t[..r])
  {
    hide DigitChar;
    forall m: nat | Longest(DigitChar, t, m)
      ensures m == r
    {
      LongestOnce(DigitChar, t, r, m);
    }
    forall k: Token | ReadsNumber(t, k, n) && k.kind == TokenKind.FloatLiteral
      ensures exists m :: 0 < m < |t| - 1 && Longest(DigitChar, t, m) && t[m] == '.' && DigitChar(t[m + 1])
    {
      FloatStart(t, k, n);
    }
  }

  lemma FloatReads(t: string, token: Token, n: nat, r: nat, f: nat)
    requires t != [] && DigitChar(t[0]) && Longest(DigitChar, t, r)
    requires r + 1 < |t| && t[r] == '.' && DigitChar(t[r + 1]) && Longest(DigitChar, t[r + 1..], f)
    ensures r + 1 + f <= |t|
    ensures ReadsNumber(t, token, n) <==> n == r + 1 + f && token == Token(TokenKind.FloatLiteral, t[..r + 1 + f])
  {
    hide DigitChar;
    assert f > 0 by { assert t[r + 1..][0] == t[r + 1]; }
    if ReadsNumber(t, token, n) {
      if token.kind == TokenKind.IntLiteral {
        LongestOnce(DigitChar, t, r, n);
      } else {
        var m :| 0 < m < n - 1 && Longest(DigitChar, t, m) && t[m] == '.'
                 && Longest(DigitChar, t[m + 1..], n - (m + 1));
        LongestOnce(DigitChar, t, r, m);
        LongestOnce(DigitChar, t[r + 1..], f, n - (r + 1));
      }
    }
  }

  lemma WordReads(t: string, token: Token, n: nat)
    requires t != [] && WordChar(t[0]) && !DigitChar(t[0]) && !SymbolChar(t[0])
    ensures ScanWord.requires(t)
    ensures ScanWord(t) == (token, n) <==> Reads(t, token, n)
  {
    hide SpaceChar, DigitChar, WordChar, SymbolChar, IsIdentifierChar, KeywordKind, Spelling, Run, IsKeyword;
    Classes();
    NotQuote(t[0]);
    IdentifierNoKeyword();
    var r := Run(IsIdentifierChar, t);
    RunIsLongest(IsIdentifierChar, WordChar, t, r);
    RunIsLongest(IsIdentifierChar, WordChar, t, n);
    var kind := KeywordKind(t[..r]);
    KeywordIff(t[..r], token.kind);
    PlainIff(t[..r]);
    if kind.Some? {
      KeywordIff(t[..r], kind.value);
    }
  }

  lemma IdentifierNoKeyword()
    ensures !IsKeyword(Identifier)
  {
  }

  lemma PlainIff(word: string)
    ensures KeywordKind(word).None? <==> Plain(word)
  {
    hide KeywordKind, Spelling, IsKeyword;
    forall k
      ensures KeywordKind(word) == Some(k) <==> IsKeyword(k) && word == Spelling(k)
    {
      KeywordIff(word, k);
    }
    if KeywordKind(word).Some? {
      assert KeywordKind(word) == Some(KeywordKind(word).value);
    }
  }

  /** The token at the start of a text is t's if and only if the text reads so; there is none if and only if the
      text starts with an unterminated string or an unknown symbol. */
  lemma ScanIffReads(t: string, token: Token, n: nat)
    requires t != [] && t[0] != NUL && !SpaceChar(t[0])
    ensures Scan(t) == Ok((token, n)) <==> Reads(t, token, n)
    ensures Scan(t) == Err(UnterminatedString) <==> t[0] == '"' && Broken(t)
    ensures Scan(t) == Err(UnknownSymbol) <==> t[0] != '"' && Broken(t)
  {
    hide SpaceChar, DigitChar, WordChar, SymbolChar, IsIdentifierChar, IsDigit, IsSymbolChar, IsSpace, ScanString,
         ScanSymbol, ScanNumber, ScanWord, Reads, Spelling;
    Classes();
    NotQuote(t[0]);
    if t[0] == '"' {
      StringReads(t, token, n);
      if ScanString(t).Ok? {
        StringReads(t, ScanString(t).value.0, ScanString(t).value.1);
        NotBroken(t, ScanString(t).value.0, ScanString(t).value.1);
      }
    } else if SymbolChar(t[0]) {
      SymbolReads(t, token, n);
      if ScanSymbol(t).Ok? {
        SymbolReads(t, ScanSymbol(t).value.0, ScanSymbol(t).value.1);
        NotBroken(t, ScanSymbol(t).value.0, ScanSymbol(t).value.1);
      }
    } else if DigitChar(t[0]) {
      NumberReads(t, token, n);
      NumberFirst(t, token, n);
    } else if WordChar(t[0]) {
      WordReads(t, token, n);
    } else {
      NothingReads(t, token, n);
    }
  }

  lemma NumberFirst(t: string, token: Token, n: nat)
    requires t != [] && DigitChar(t[0])
    ensures Reads(t, token, n) <==> ReadsNumber(t, token, n)
  {
    hide DigitChar, SymbolChar, ReadsNumber;
    NotQuote(t[0]);
    NotQuote('(');
    NotQuote(')');
  }

  lemma NothingReads(t: string, token: Token, n: nat)
    requires t != [] && t[0] != '"' && !SymbolChar(t[0]) && !DigitChar(t[0]) && !WordChar(t[0])
    ensures Reads(t, token, n) <==> token == Token(EndOfFile, "") && n == 1
  {
    hide DigitChar, SymbolChar, WordChar, ReadsNumber;
    NotQuote('(');
    NotQuote(')');
  }

  /** A text does not both read and break. */
  lemma NotBroken(t: string, token: Token, n: nat)
    requires t != [] && Reads(t, token, n)
    ensures !Broken(t)
  {
    hide DigitChar, SymbolChar, WordChar, ReadsNumber, Spelling, IsSymbol, Plain;
    NotQuote(t[0]);
  }

  // ----- words -----

  /** Every word over the letters, digits, underscore and dash that starts with a letter or an underscore and
      spells no keyword is read as one identifier of exactly that text, before anything that is no word
      character; and a word that spells a keyword as that keyword. */
  lemma WordsScanned(word: string, more: string, k: TokenKind)
    requires word != [] && (forall i | 0 <= i < |word| :: WordChar(word[i])) && !DigitChar(word[0]) && word[0] != '-'
    requires more == [] || !WordChar(more[0])
    requires if IsKeyword(k) then word == Spelling(k) else k == Identifier && Plain(word)
    ensures word[0] != NUL && Scan(word + more) == Ok((Token(k, word), |word|))
  {
    hide DigitChar, SymbolChar, WordChar, Spelling, IsKeyword, Plain, Scan;
    var t := word + more;
    NotQuote('(');
    NotQuote(')');
    assert t[..|word|] == word && Longest(WordChar, t, |word|);
    NotQuote(t[0]);
    ScanIffReads(t, Token(k, word), |word|);
  }

  // ----- whole texts -----

  /** White space first, as much as there is; then a token, or the end: of the text, or at a NUL. */
  ghost predicate NextReads(s: string, l: Lexeme) {
    && Longest(SpaceChar, s, l.space)
    && (if l.space == |s| || s[l.space] == NUL then l == Lexeme(Token(EndOfFile, ""), l.space, 0, false)
        else l.located && Reads(s[l.space..], l.token, l.width))
  }

  /** The lexemes follow each other through the text up to the first EndOfFile. */
  ghost predicate Cuts(s: string, ls: seq<Lexeme>)
    decreases ls
  {
    && ls != [] && NextReads(s, ls[0]) && ls[0].space + ls[0].width <= |s|
    && (if ls[0].token.kind == EndOfFile then |ls| == 1 else Cuts(s[ls[0].space + ls[0].width..], ls[1..]))
  }

  lemma NextIffReads(s: string, l: Lexeme)
    ensures NextLexeme(s) == Ok(l) <==> NextReads(s, l)
  {
    hide SpaceChar, IsSpace, Scan, Reads, Run;
    Classes();
    var w := Run(IsSpace, s);
    RunIsLongest(IsSpace, SpaceChar, s, w);
    RunIsLongest(IsSpace, SpaceChar, s, l.space);
    if w < |s| && s[w] != NUL {
      assert s[w..][0] == s[w];
      ScanIffReads(s[w..], l.token, l.width);
    }
  }

  /** The lexer's answer on a text is the one way of cutting it into lexemes. */
  lemma {:induction false} LexemesIffCuts(s: string, ls: seq<Lexeme>)
    ensures Lexemes(s) == Ok(ls) <==> Cuts(s, ls)
    decreases |s|
  {
    hide NextLexeme, NextReads;
    if ls != [] {
      var l := ls[0];
      NextIffReads(s, l);
      assert |ls| == 1 ==> ls == [l];
      if NextLexeme(s) == Ok(l) && l.token.kind != EndOfFile {
        var more := s[l.space + l.width..];
        LexemesIffCuts(more, ls[1..]);
        assert |ls| > 1 ==> ls == [l] + ls[1..];
        assert Lexemes(more).Ok? ==> ([l] + Lexemes(more).value)[1..] == Lexemes(more).value;
      }
    }
  }

  // ----- locations -----

  /** Where the k-th lexeme's own characters start. */
  function StartOf(ls: seq<Lexeme>, k: nat): nat
    requires k < |ls|
    decreases k
  {
    ls[0].space + if k == 0 then 0 else ls[0].width + StartOf(ls[1..], k - 1)
  }

  lemma {:induction false} LocatedFrom(s: string, i: nat, ls: seq<Lexeme>, last: Location, k: nat)
    requires i <= |s| && Cuts(s[i..], ls) && k < |ls|
    ensures |Locate(s, i, ls, last)| == |ls| && i + StartOf(ls, k) <= |s|
    ensures var located := Locate(s, i, ls, last);
            && located[k].token == ls[k].token
            && located[k].location
               == (if ls[k].located then LocationAfter(s[..i + StartOf(ls, k)])
                   else if k == 0 then last else located[k - 1].location)
    decreases ls
  {
    hide NextReads, LocationAfter;
    var l := ls[0];
    var next := i + l.space + l.width;
    var at := if l.located then LocationAfter(s[..i + l.space]) else last;
    assert s[i..][l.space + l.width..] == s[next..];
    if |ls| > 1 {
      LocatedFrom(s, next, ls[1..], at, if k > 0 then k - 1 else 0);
    }
  }

  /** Every token is located at its first character, which is where the text before it leads; an end of the file
      that is reached in white space, or at a NUL, where the token before it is. */
  lemma TokensLocated(s: string, ls: seq<Lexeme>, k: nat)
    requires Lexemes(s) == Ok(ls) && k < |ls|
    ensures |Locate(s, 0, ls, Location(1, 0))| == |ls| && StartOf(ls, k) <= |s|
    ensures var located := Locate(s, 0, ls, Location(1, 0));
            && located[k].token == ls[k].token
            && located[k].location
               == (if ls[k].located then LocationAfter(s[..StartOf(ls, k)])
                   else if k == 0 then Location(1, 0) else located[k - 1].location)
  {
    LexemesIffCuts(s, ls);
    assert s[0..] == s;
    LocatedFrom(s, 0, ls, Location(1, 0), k);
  }
}
