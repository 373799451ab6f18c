/** Printing syntax trees as tokens, with as few parentheses as precedence allows, and the round trip
    through the parser. */
module Printing {
  import opened Results
  import opened Syntax
  import opened Checking
  import opened Numerals
  import opened Parsing
  import opened Grammar

  /** How a keyword or symbol is spelled. */
  function Spelling(k: TokenKind): string {
    match k
    case Plus => "+"
    case Minus => "-"
    case Asterisk => "*"
    case ForwardSlash => "/"
    case LParen => "("
    case RParen => ")"
    case Assignment => "="
    case Colon => ":"
    case LessThan => "<"
    case GreaterThan => ">"
    case LessThanEquals => "<="
    case GreaterThanEquals => ">="
    case Equals => "=="
    case NotEquals => "!="
    case Set => "set"
    case Show => "show"
    case Function => "func"
    case End => "end"
    case Return => "return"
    case And => "and"
    case Or => "or"
    case If => "if"
    case Else => "else"
    case Not => "not"
    case ElseIf => "elseif"
    case Loop => "loop"
    case Break => "break"
    case In => "in"
    case Cycle => "cycle"
    case _ => ""
  }

  function Tok(k: TokenKind): Token {
    Token(k, Spelling(k))
  }

  /** e where only operators binding tighter than min may stand without parentheses. */
  function PrintExpr(e: Expr, min: nat): Tokens
    decreases e
  {
    match e
    case IntLit(value, _) => [Token(TokenKind.IntLiteral, DigitsOf(if value < 0 then 0 else value))]
    case FloatLit(digits, _) => [Token(TokenKind.FloatLiteral, digits)]
    case Var(name, _) => [Token(Identifier, name)]
    case Call(name) => [Token(Identifier, name), Tok(LParen), Tok(RParen)]
    case Binary(op, lhs, rhs, _, _) =>
      var p := Precedence(op);
      var bare := PrintExpr(lhs, if p > 0 then p - 1 else 0) + [Tok(op)] + PrintExpr(rhs, p);
      if p > min then bare else [Tok(LParen)] + bare + [Tok(RParen)]
  }

  /** A tree as the parser can build it: no annotation, no negative literal, real operators. */
  predicate Parsed(e: Expr) {
    match e
    case IntLit(value, resolved) => value >= 0 && resolved.None?
    case FloatLit(_, resolved) => resolved.None?
    case Var(_, resolved) => resolved.None?
    case Call(_) => true
    case Binary(op, lhs, rhs, operand, resolved) =>
      Precedence(op) > 0 && operand.None? && resolved.None? && Parsed(lhs) && Parsed(rhs)
  }

  /** A printed expression spells its tree. */
  lemma {:induction false} PrintedSpells(e: Expr, min: nat)
    requires Parsed(e)
    ensures Spells(PrintExpr(e, min), e, min)
    decreases e, 1
  {
    if e.Binary? {
      var p := Precedence(e.op);
      if p > min {
        BareSpells(e, min);
      } else {
        var ts := PrintExpr(e, min);
        BareSpells(e, 0);
        assert ts[1..|ts| - 1] == PrintExpr(e, 0);
        SpellsNonEmpty(PrintExpr(e, 0), e, 0);
      }
    }
  }

  lemma {:induction false} BareSpells(e: Expr, min: nat)
    requires Parsed(e) && e.Binary? && Precedence(e.op) > min
    ensures Spells(PrintExpr(e, min), e, min)
    decreases e, 0
  {
    hide Spells, Spelling, Precedence;
    var p := Precedence(e.op);
    var l, r := PrintExpr(e.lhs, p - 1), PrintExpr(e.rhs, p);
    var ts := l + [Tok(e.op)] + r;
    PrintedSpells(e.lhs, p - 1);
    PrintedSpells(e.rhs, p);
    SpellsNonEmpty(l, e.lhs, p - 1);
    SpellsNonEmpty(r, e.rhs, p);
    assert ts[..|l|] == l && ts[|l| + 1..] == r && ts[|l|] == Tok(e.op);
    SpellsBinary(ts, e, min, |l|);
  }

  /** Expression round trip: followed by a token that is no tighter operator and no parenthesis, an
      expression printed for level m is read back at level m, and reading stops at that token. */
  lemma ExpressionRoundTrip(e: Expr, m: nat, rest: Tokens)
    requires Parsed(e) && Precedence(Peek(rest)) <= m && Peek(rest) != LParen
    ensures ParseExpression(PrintExpr(e, m) + rest, m) == Ok((e, rest))
  {
    PrintedSpells(e, m);
    ReadIffSpells(PrintExpr(e, m), e, m, rest);
  }

  // ----- statements, one `end` for every link -----

  function PrintStmt(s: Stmt): Tokens
    decreases s
  {
    match s
    case DeclStmt(name, typeName, value, _) =>
      (if typeName.Some?
       then [Token(Identifier, name), Tok(Colon), Token(Identifier, typeName.value), Tok(Assignment)]
       else [Token(Identifier, name), Tok(Assignment)])
      + PrintExpr(value, 0)
    case AssignStmt(name, value) =>
      [Tok(TokenKind.Set), Token(Identifier, name), Tok(Assignment)] + PrintExpr(value, 0)
    case ShowStmt(expr, _) => [Tok(TokenKind.Show)] + PrintExpr(expr, 0)
    case ReturnStmt(expr, _) => [Tok(TokenKind.Return)] + PrintExpr(expr, 0)
    case IfStmt(link) => [Tok(TokenKind.If)] + PrintLink(link)
    case LoopStmt(body) => [Tok(TokenKind.Loop)] + PrintBlock(body) + [Tok(TokenKind.End)]
    case BreakStmt => [Tok(TokenKind.Break)]
    case CycleStmt => [Tok(TokenKind.Cycle)]
  }

  /** A link after its keyword. */
  function PrintLink(link: IfLink): Tokens
    decreases link
  {
    PrintExpr(link.cond, 0) + PrintBlock(link.thn) + PrintElse(link.els) + [Tok(TokenKind.End)]
  }

  function PrintElse(els: ElsePart): Tokens
    decreases els
  {
    match els
    case NoElse => []
    case ElseBlock(stmts) => [Tok(TokenKind.Else)] + PrintBlock(stmts)
    case ElseIfLink(next) => [Tok(TokenKind.ElseIf)] + PrintLink(next)
  }

  function PrintBlock(stmts: seq<Stmt>): Tokens
    decreases stmts
  {
    if stmts == [] then [] else PrintStmt(stmts[0]) + PrintBlock(stmts[1..])
  }

  function PrintFunction(f: FunctionDecl): Tokens {
    [Tok(TokenKind.Function), Token(Identifier, f.name), Tok(LParen), Tok(RParen)]
    + PrintBlock(f.body) + [Tok(TokenKind.End)]
  }

  function PrintProgram(fns: seq<FunctionDecl>): Tokens
    decreases fns
  {
    if fns == [] then [] else PrintFunction(fns[0]) + PrintProgram(fns[1..])
  }

  predicate ParsedStmt(s: Stmt)
    decreases s
  {
    match s
    case DeclStmt(_, typeName, value, declared) =>
      declared.None? && Parsed(value) && (typeName.Some? ==> IsBuiltinType(typeName.value))
    case AssignStmt(_, value) => Parsed(value)
    case ShowStmt(expr, exprType) => exprType.None? && Parsed(expr)
    case ReturnStmt(expr, exprType) => exprType.None? && Parsed(expr)
    case IfStmt(link) => ParsedLink(link)
    case LoopStmt(body) => ParsedBlock(body)
    case BreakStmt => true
    case CycleStmt => true
  }

  predicate ParsedLink(link: IfLink)
    decreases link
  {
    && Parsed(link.cond) && ParsedBlock(link.thn)
    && match link.els
       case NoElse => true
       case ElseBlock(stmts) => ParsedBlock(stmts)
       case ElseIfLink(next) => ParsedLink(next)
  }

  predicate ParsedBlock(stmts: seq<Stmt>)
    decreases stmts
  {
    stmts == [] || (ParsedStmt(stmts[0]) && ParsedBlock(stmts[1..]))
  }

  predicate ParsedProgram(fns: seq<FunctionDecl>) {
    forall i | 0 <= i < |fns| :: ParsedBlock(fns[i].body)
  }

  lemma StatementStart(s: Stmt, rest: Tokens)
    ensures PrintStmt(s) != [] && StartsStatement(Peek(PrintStmt(s) + rest))
  {
  }

  lemma BlockStart(stmts: seq<Stmt>, rest: Tokens)
    requires EndsExpression(Peek(rest))
    ensures EndsExpression(Peek(PrintBlock(stmts) + rest))
    ensures stmts != [] ==> StartsStatement(Peek(PrintBlock(stmts) + rest))
  {
    hide PrintStmt, Spelling;
    if stmts == [] {
      assert PrintBlock(stmts) + rest == rest;
    } else {
      StatementStart(stmts[0], PrintBlock(stmts[1..]) + rest);
      assert PrintBlock(stmts) + rest == PrintStmt(stmts[0]) + (PrintBlock(stmts[1..]) + rest);
    }
  }

  lemma DeclarationRoundTrip(s: Stmt, rest: Tokens)
    requires s.DeclStmt? && ParsedStmt(s) && EndsExpression(Peek(rest))
    ensures PrintStmt(s) != [] && Peek(PrintStmt(s) + rest) == Identifier
    ensures ParseDeclaration(PrintStmt(s) + rest) == Ok((s, rest))
  {
    hide Spelling, ParseExpression, PrintExpr, Parsed, IsBuiltinType, Precedence;
    var ts := PrintStmt(s) + rest;
    var tail := PrintExpr(s.value, 0) + rest;
    ExpressionRoundTrip(s.value, 0, rest);
    if s.typeName.Some? {
      var t := Token(Identifier, s.typeName.value);
      assert ts[2..] == [t, Tok(Assignment)] + tail;
      assert ts[2..][1..] == [Tok(Assignment)] + tail;
      assert ts[2..][1..][1..] == tail;
    } else {
      assert ts[1..] == [Tok(Assignment)] + tail;
      assert ts[1..][1..] == tail;
    }
  }

  lemma AssignmentRoundTrip(s: Stmt, rest: Tokens)
    requires s.AssignStmt? && ParsedStmt(s) && EndsExpression(Peek(rest))
    ensures ParseStatement(PrintStmt(s) + rest) == Ok((s, rest))
  {
    hide Spelling, ParseExpression, PrintExpr, Parsed;
    var ts := PrintStmt(s) + rest;
    var tail := PrintExpr(s.value, 0) + rest;
    ExpressionRoundTrip(s.value, 0, rest);
    assert ts == [Tok(TokenKind.Set), Token(Identifier, s.name), Tok(Assignment)] + tail;
    assert ts[1..] == [Token(Identifier, s.name), Tok(Assignment)] + tail;
    assert ts[1..][1..] == [Tok(Assignment)] + tail;
    assert ts[1..][1..][1..] == tail;
  }

  /** Statements made of tokens and at most one expression. */
  lemma SimpleRoundTrip(s: Stmt, rest: Tokens)
    requires ParsedStmt(s) && !s.IfStmt? && !s.LoopStmt? && EndsExpression(Peek(rest))
    ensures ParseStatement(PrintStmt(s) + rest) == Ok((s, rest))
  {
    hide Spelling, ParseExpression, PrintExpr, Parsed, ParseLink, ParseBlock, ParseDeclaration, ParseAssignment;
    var ts := PrintStmt(s) + rest;
    match s
    case DeclStmt(_, _, _, _) => DeclarationRoundTrip(s, rest);
    case AssignStmt(_, _) => AssignmentRoundTrip(s, rest);
    case ShowStmt(expr, _) =>
      ExpressionRoundTrip(expr, 0, rest);
      assert ts[1..] == PrintExpr(expr, 0) + rest;
    case ReturnStmt(expr, _) =>
      ExpressionRoundTrip(expr, 0, rest);
      assert ts[1..] == PrintExpr(expr, 0) + rest;
    case BreakStmt => assert ts[1..] == rest;
    case CycleStmt => assert ts[1..] == rest;
  }

  lemma {:induction false} StatementRoundTrip(s: Stmt, rest: Tokens)
    requires ParsedStmt(s) && EndsExpression(Peek(rest))
    ensures ParseStatement(PrintStmt(s) + rest) == Ok((s, rest))
    decreases s
  {
    hide Spelling, ParseExpression, PrintExpr, ParseBlock, PrintBlock, ParseLink, PrintLink, ParsedBlock,
         ParsedLink, ParseDeclaration, ParseAssignment;
    var ts := PrintStmt(s) + rest;
    match s
    case IfStmt(link) =>
      assert ts == [Tok(TokenKind.If)] + (PrintLink(link) + rest);
      LinkRoundTrip(link, TokenKind.If, rest);
    case LoopStmt(body) =>
      var after := [Tok(TokenKind.End)] + rest;
      assert ts[1..] == PrintBlock(body) + after && after[1..] == rest;
      BlockRoundTrip(body, {TokenKind.End}, after);
    case _ => SimpleRoundTrip(s, rest);
  }

  lemma {:induction false} LinkRoundTrip(link: IfLink, k: TokenKind, rest: Tokens)
    requires ParsedLink(link) && EndsExpression(Peek(rest)) && k in {TokenKind.If, TokenKind.ElseIf}
    ensures ParseLink([Tok(k)] + (PrintLink(link) + rest)) == Ok((link, rest))
    decreases link
  {
    hide Spelling, ParseStatement, PrintStmt, ParsedStmt;
    hide Spelling, ParseExpression, PrintExpr, ParseBlock, PrintBlock, ParsedBlock, PrintLink;
    var ts := [Tok(k)] + (PrintLink(link) + rest);
    var end := [Tok(TokenKind.End)] + rest;
    var more := PrintElse(link.els) + end;
    LinkTokens(link, rest);
    assert ts[1..] == PrintLink(link) + rest;
    assert end[1..] == rest;
    BlockStart(link.thn, more);
    ExpressionRoundTrip(link.cond, 0, PrintBlock(link.thn) + more);
    BlockRoundTrip(link.thn, IF_TERMINATORS, more);
    match link.els
    case NoElse => assert more == end;
    case ElseBlock(stmts) =>
      assert more[1..] == PrintBlock(stmts) + end;
      BlockRoundTrip(stmts, {TokenKind.End}, end);
    case ElseIfLink(next) =>
      assert more == [Tok(TokenKind.ElseIf)] + (PrintLink(next) + end);
      LinkRoundTrip(next, TokenKind.ElseIf, end);
  }

  lemma LinkTokens(link: IfLink, rest: Tokens)
    ensures PrintLink(link) + rest
         == PrintExpr(link.cond, 0) + (PrintBlock(link.thn) + (PrintElse(link.els) + ([Tok(TokenKind.End)] + rest)))
  {
  }

  lemma {:induction false} BlockRoundTrip(stmts: seq<Stmt>, terminators: set<TokenKind>, rest: Tokens)
    requires ParsedBlock(stmts) && EndsExpression(Peek(rest)) && Peek(rest) in terminators
    requires terminators <= IF_TERMINATORS
    ensures ParseBlock(PrintBlock(stmts) + rest, terminators) == Ok((stmts, rest))
    decreases stmts
  {
    hide PrintStmt, ParseStatement, ParsedStmt, StartsStatement, EndsExpression;
    if stmts == [] {
      assert PrintBlock(stmts) + rest == rest;
    } else {
      var more := PrintBlock(stmts[1..]) + rest;
      assert PrintBlock(stmts) + rest == PrintStmt(stmts[0]) + more;
      StatementStart(stmts[0], more);
      NoTerminator(Peek(PrintStmt(stmts[0]) + more));
      BlockStart(stmts[1..], rest);
      StatementRoundTrip(stmts[0], more);
      BlockRoundTrip(stmts[1..], terminators, rest);
      assert [stmts[0]] + stmts[1..] == stmts;
    }
  }

  lemma FunctionRoundTrip(f: FunctionDecl, rest: Tokens)
    requires ParsedBlock(f.body)
    ensures ParseFunction(PrintFunction(f) + rest) == Ok((f, rest))
  {
    hide Spelling, ParseBlock, PrintBlock;
    var ts := PrintFunction(f) + rest;
    var end := [Tok(TokenKind.End)] + rest;
    var body := PrintBlock(f.body) + end;
    assert ts[1..] == [Token(Identifier, f.name), Tok(LParen), Tok(RParen)] + body;
    assert ts[1..][1..] == [Tok(LParen), Tok(RParen)] + body;
    assert ts[1..][1..][1..] == [Tok(RParen)] + body;
    assert ts[1..][1..][1..][1..] == body;
    assert end[1..] == rest;
    BlockRoundTrip(f.body, {TokenKind.End}, end);
  }

  /** Program round trip, with an `end` for every link of a chain. */
  lemma {:induction false} ProgramRoundTrip(fns: seq<FunctionDecl>, eof: Token)
    requires ParsedProgram(fns) && eof.kind == EndOfFile
    ensures ParseProgram(PrintProgram(fns) + [eof]) == Ok(fns)
    decreases fns
  {
    hide Spelling, ParseFunction, PrintBlock, ParsedBlock;
    var ts := PrintProgram(fns) + [eof];
    if fns == [] {
      assert ts == [eof];
    } else {
      var more := PrintProgram(fns[1..]) + [eof];
      assert ts == PrintFunction(fns[0]) + more;
      FunctionRoundTrip(fns[0], more);
      ProgramRoundTrip(fns[1..], eof);
      assert [fns[0]] + fns[1..] == fns;
    }
  }
}
