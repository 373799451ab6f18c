/** From text to syntax tree: printing a program, writing its tokens with white space between them,
    lexing and parsing gives the program back. */
module TextToTree {
  import opened Results
  import opened Syntax
  import opened Checking
  import opened Parsing
  import opened Printing
  import opened SingleEnd
  import opened Lexing
  import opened LexingProofs

  /** Names are names to the lexer, and float literals are spelled as it reads them. */
  predicate NamedExpr(e: Expr) {
    match e
    case IntLit(_, _) => true
    case FloatLit(digits, _) => IsFloatText(digits)
    case Var(name, _) => IsName(name)
    case Call(name) => IsName(name)
    case Binary(_, lhs, rhs, _, _) => NamedExpr(lhs) && NamedExpr(rhs)
  }

  predicate NamedStmt(s: Stmt)
    decreases s
  {
    match s
    case DeclStmt(name, _, value, _) => IsName(name) && NamedExpr(value)
    case AssignStmt(name, value) => IsName(name) && NamedExpr(value)
    case ShowStmt(expr, _) => NamedExpr(expr)
    case ReturnStmt(expr, _) => NamedExpr(expr)
    case IfStmt(link) => NamedLink(link)
    case LoopStmt(body) => NamedBlock(body)
    case BreakStmt => true
    case CycleStmt => true
  }

  predicate NamedLink(link: IfLink)
    decreases link
  {
    && NamedExpr(link.cond) && NamedBlock(link.thn)
    && match link.els
       case NoElse => true
       case ElseBlock(stmts) => NamedBlock(stmts)
       case ElseIfLink(next) => NamedLink(next)
  }

  predicate NamedBlock(stmts: seq<Stmt>)
    decreases stmts
  {
    stmts == [] || (NamedStmt(stmts[0]) && NamedBlock(stmts[1..]))
  }

  predicate NamedProgram(fns: seq<FunctionDecl>) {
    forall i | 0 <= i < |fns| :: IsName(fns[i].name) && NamedBlock(fns[i].body)
  }

  ghost predicate AllWritable(ts: seq<Token>) {
    forall i | 0 <= i < |ts| :: Writable(ts[i])
  }

  lemma TokWritable(k: TokenKind)
    requires IsKeyword(k) || IsSymbol(k)
    ensures Writable(Tok(k))
  {
  }

  /** Keywords are in lower case, type names start in upper case. */
  lemma KeywordsLower(word: string)
    requires KeywordKind(word).Some?
    ensures word != "" && 'a' <= word[0] <= 'z'
  {
  }

  lemma TypeNamesAreNames(name: string)
    requires IsBuiltinType(name)
    ensures IsName(name)
  {
    hide KeywordKind;
    if KeywordKind(name).Some? {
      KeywordsLower(name);
    }
  }

  lemma WritableJoin(a: seq<Token>, b: seq<Token>)
    requires AllWritable(a) && AllWritable(b)
    ensures AllWritable(a + b)
  {
  }

  lemma {:induction false} ExprWritable(e: Expr, min: nat)
    requires Parsed(e) && NamedExpr(e)
    ensures AllWritable(PrintExpr(e, min))
    decreases e
  {
    hide IsName, IsFloatText, Spelling, Tok;
    match e
    case IntLit(value, _) =>
    case FloatLit(_, _) =>
    case Var(_, _) =>
    case Call(_) => TokWritable(LParen); TokWritable(RParen);
    case Binary(op, lhs, rhs, _, _) =>
      var p := Precedence(op);
      ExprWritable(lhs, p - 1);
      ExprWritable(rhs, p);
      TokWritable(op);
      TokWritable(LParen);
      TokWritable(RParen);
      WritableJoin(PrintExpr(lhs, p - 1), [Tok(op)]);
      WritableJoin(PrintExpr(lhs, p - 1) + [Tok(op)], PrintExpr(rhs, p));
  }

  lemma {:induction false} StmtWritable(s: Stmt)
    requires ParsedStmt(s) && NamedStmt(s)
    ensures AllWritable(PrintStmt(s))
    decreases s
  {
    hide IsName, Spelling, PrintExpr, PrintBlock, PrintLink, NamedExpr, Parsed;
    match s
    case DeclStmt(name, typeName, value, _) =>
      ExprWritable(value, 0);
      TokWritable(Colon);
      TokWritable(Assignment);
      if typeName.Some? {
        TypeNamesAreNames(typeName.value);
      }
    case AssignStmt(_, value) => ExprWritable(value, 0); TokWritable(TokenKind.Set); TokWritable(Assignment);
    case ShowStmt(expr, _) => ExprWritable(expr, 0); TokWritable(TokenKind.Show);
    case ReturnStmt(expr, _) => ExprWritable(expr, 0); TokWritable(TokenKind.Return);
    case IfStmt(link) => LinkWritable(link); TokWritable(TokenKind.If);
    case LoopStmt(body) => BlockWritable(body); TokWritable(TokenKind.Loop); TokWritable(TokenKind.End);
    case BreakStmt => TokWritable(TokenKind.Break);
    case CycleStmt => TokWritable(TokenKind.Cycle);
  }

  lemma {:induction false} LinkWritable(link: IfLink)
    requires ParsedLink(link) && NamedLink(link)
    ensures AllWritable(PrintLink(link))
    decreases link
  {
    hide Writable, Tok, PrintExpr, PrintBlock, NamedExpr, Parsed;
    TokWritable(TokenKind.End);
    ExprWritable(link.cond, 0);
    BlockWritable(link.thn);
    match link.els {
      case NoElse =>
      case ElseBlock(stmts) => BlockWritable(stmts); TokWritable(TokenKind.Else);
      case ElseIfLink(next) => LinkWritable(next); TokWritable(TokenKind.ElseIf);
    }
    assert AllWritable(PrintElse(link.els));
    WritableJoin(PrintExpr(link.cond, 0), PrintBlock(link.thn));
    WritableJoin(PrintExpr(link.cond, 0) + PrintBlock(link.thn), PrintElse(link.els));
  }

  lemma {:induction false} BlockWritable(stmts: seq<Stmt>)
    requires ParsedBlock(stmts) && NamedBlock(stmts)
    ensures AllWritable(PrintBlock(stmts))
    decreases stmts
  {
    hide Writable, PrintStmt, NamedStmt, ParsedStmt;
    if stmts != [] {
      StmtWritable(stmts[0]);
      BlockWritable(stmts[1..]);
    }
  }

  lemma FunctionWritable(f: FunctionDecl)
    requires ParsedBlock(f.body) && IsName(f.name) && NamedBlock(f.body)
    ensures AllWritable(PrintFunction(f))
  {
    hide IsName, Spelling, PrintBlock, NamedBlock, ParsedBlock;
    BlockWritable(f.body);
    TokWritable(TokenKind.Function);
    TokWritable(LParen);
    TokWritable(RParen);
    TokWritable(TokenKind.End);
  }

  lemma {:induction false} ProgramWritable(fns: seq<FunctionDecl>)
    requires ParsedProgram(fns) && NamedProgram(fns)
    ensures AllWritable(PrintProgram(fns))
    decreases fns
  {
    hide Writable, PrintFunction;
    if fns != [] {
      FunctionWritable(fns[0]);
      ProgramWritable(fns[1..]);
    }
  }

  /** Text round trip, for any white space that keeps the tokens apart. */
  lemma TextRoundTrip(fns: seq<FunctionDecl>, gaps: seq<string>)
    requires ParsedProgram(fns) && NamedProgram(fns)
    requires |gaps| == |PrintProgram(fns)| + 1 && Spaces(gaps) && GapsOk(PrintProgram(fns), gaps)
    ensures var ts := Tokenise(Render(PrintProgram(fns), gaps));
            ts.Ok? && ParseProgram(ts.value) == Ok(fns)
  {
    ProgramWritable(fns);
    LexerRoundTrip(PrintProgram(fns), gaps);
    ProgramRoundTrip(fns, Token(EndOfFile, ""));
  }

  // ----- one `end` per chain -----

  lemma {:induction false} OneWritable(s: Stmt)
    requires ParsedStmt(s) && NamedStmt(s)
    ensures AllWritable(PrintOne(s))
    decreases s
  {
    hide Writable, Tok, PrintStmt, PrintAll, PrintChain, NamedExpr, Parsed;
    match s
    case IfStmt(link) => ChainWritable(link); TokWritable(TokenKind.If); TokWritable(TokenKind.End);
    case LoopStmt(body) => AllOfThemWritable(body); TokWritable(TokenKind.Loop); TokWritable(TokenKind.End);
    case _ => StmtWritable(s);
  }

  lemma {:induction false} ChainWritable(link: IfLink)
    requires ParsedLink(link) && NamedLink(link)
    ensures AllWritable(PrintChain(link))
    decreases link
  {
    hide Writable, Tok, PrintExpr, PrintAll, NamedExpr, Parsed;
    ExprWritable(link.cond, 0);
    AllOfThemWritable(link.thn);
    match link.els {
      case NoElse =>
      case ElseBlock(stmts) => AllOfThemWritable(stmts); TokWritable(TokenKind.Else);
      case ElseIfLink(next) => ChainWritable(next); TokWritable(TokenKind.ElseIf);
    }
    assert AllWritable(PrintElseOf(link.els));
    WritableJoin(PrintExpr(link.cond, 0), PrintAll(link.thn));
    WritableJoin(PrintExpr(link.cond, 0) + PrintAll(link.thn), PrintElseOf(link.els));
  }

  lemma {:induction false} AllOfThemWritable(stmts: seq<Stmt>)
    requires ParsedBlock(stmts) && NamedBlock(stmts)
    ensures AllWritable(PrintAll(stmts))
    decreases stmts
  {
    hide Writable, PrintOne, NamedStmt, ParsedStmt;
    if stmts != [] {
      OneWritable(stmts[0]);
      AllOfThemWritable(stmts[1..]);
    }
  }

  lemma {:induction false} ShortWritable(fns: seq<FunctionDecl>)
    requires ParsedProgram(fns) && NamedProgram(fns)
    ensures AllWritable(PrintShort(fns))
    decreases fns
  {
    hide IsName, Spelling, PrintAll, NamedBlock, ParsedBlock;
    if fns != [] {
      AllOfThemWritable(fns[0].body);
      TokWritable(TokenKind.Function);
      TokWritable(LParen);
      TokWritable(RParen);
      TokWritable(TokenKind.End);
      assert AllWritable(PrintShortFunction(fns[0]));
      ShortWritable(fns[1..]);
    }
  }

  /** Text written with one `end` per chain always lexes, and is read back as the program it was written
      for if and only if that program is balanced. */
  lemma ShortTextRoundTrip(fns: seq<FunctionDecl>, gaps: seq<string>)
    requires ParsedProgram(fns) && NamedProgram(fns)
    requires |gaps| == |PrintShort(fns)| + 1 && Spaces(gaps) && GapsOk(PrintShort(fns), gaps)
    ensures var ts := Tokenise(Render(PrintShort(fns), gaps));
            ts.Ok? && (ParseProgram(ts.value) == Ok(fns) <==> Balanced(fns))
  {
    ShortWritable(fns);
    LexerRoundTrip(PrintShort(fns), gaps);
    ShortRoundTrip(fns, Token(EndOfFile, ""));
  }
}
