/** The parser on values: each function takes the tokens still to be read and returns what it built
    together with the tokens that are left. */
module Parsing {
  import opened Results
  import opened Syntax
  import opened Checking
  import opened Numerals

  type Tokens = seq<Token>

  /** The kind of the next token; past the end it is EndOfFile. */
  function Peek(ts: Tokens): TokenKind {
    if ts == [] then EndOfFile else ts[0].kind
  }

  /** The number of binding levels is small; a higher one binds tighter, and 0 is no operator. */
  function Precedence(k: TokenKind): nat {
    match k
    case Equals => 1
    case NotEquals => 1
    case GreaterThan => 2
    case LessThan => 2
    case GreaterThanEquals => 2
    case LessThanEquals => 2
    case Plus => 3
    case Minus => 3
    case Asterisk => 4
    case ForwardSlash => 4
    case _ => 0
  }

  function Consume(ts: Tokens, k: TokenKind): (r: Result<(Token, Tokens)>)
    ensures r.Ok? && k != EndOfFile ==> |r.value.1| < |ts|
    ensures r.Ok? && k != EndOfFile ==> r.value.0.kind == k
  {
    if Peek(ts) != k then Err(UnexpectedToken)
    else if ts == [] then Ok((Token(EndOfFile, ""), ts))
    else Ok((ts[0], ts[1..]))
  }

  // ----- expressions -----

  function ParsePrimary(ts: Tokens): (r: Result<(Expr, Tokens)>)
    ensures r.Ok? ==> |r.value.1| < |ts|
    decreases |ts|, 0
  {
    match Peek(ts)
    case FloatLiteral => Ok((FloatLit(ts[0].text, None), ts[1..]))
    case IntLiteral => Ok((IntLit(NumberOf(ts[0].text), None), ts[1..]))
    case LParen =>
      var e :- ParseExpression(ts[1..], 0);
      if Peek(e.1) != RParen then Err(UnexpectedToken) else Ok((e.0, e.1[1..]))
    case Identifier =>
      if Peek(ts[1..]) == LParen then
        var c :- Consume(ts[2..], RParen);
        Ok((Call(ts[0].text), c.1))
      else Ok((Var(ts[0].text, None), ts[1..]))
    case _ => Err(UnexpectedPrimary)
  }

  function ParseExpression(ts: Tokens, min: nat): (r: Result<(Expr, Tokens)>)
    ensures r.Ok? ==> |r.value.1| < |ts|
    decreases |ts|, 1
  {
    var lhs :- ParsePrimary(ts);
    ParseOperators(lhs.1, min, lhs.0)
  }

  /** The loop of precedence climbing: operators that bind tighter than min extend the left operand. */
  function ParseOperators(ts: Tokens, min: nat, lhs: Expr): (r: Result<(Expr, Tokens)>)
    ensures r.Ok? ==> |r.value.1| <= |ts|
    decreases |ts|, 2
  {
    if Precedence(Peek(ts)) > min then
      var op := ts[0].kind;
      var rhs :- ParseExpression(ts[1..], Precedence(op));
      ParseOperators(rhs.1, min, Binary(op, lhs, rhs.0, None, None))
    else Ok((lhs, ts))
  }

  // ----- statements -----

  function ParseDeclaration(ts: Tokens): (r: Result<(Stmt, Tokens)>)
    requires ts != []
    ensures r.Ok? ==> |r.value.1| < |ts|
  {
    var name := ts[0].text;
    if Peek(ts[1..]) == Colon then
      var t :- Consume(ts[2..], Identifier);
      if !IsBuiltinType(t.0.text) then Err(UnknownTypeName)
      else
        var a :- Consume(t.1, Assignment);
        var e :- ParseExpression(a.1, 0);
        Ok((DeclStmt(name, Some(t.0.text), e.0, None), e.1))
    else
      var a :- Consume(ts[1..], Assignment);
      var e :- ParseExpression(a.1, 0);
      Ok((DeclStmt(name, None, e.0, None), e.1))
  }

  function ParseAssignment(ts: Tokens): (r: Result<(Stmt, Tokens)>)
    ensures r.Ok? ==> |r.value.1| < |ts|
  {
    var s :- Consume(ts, TokenKind.Set);
    var name :- Consume(s.1, Identifier);
    var a :- Consume(name.1, Assignment);
    var e :- ParseExpression(a.1, 0);
    Ok((AssignStmt(name.0.text, e.0), e.1))
  }

  function ParseStatement(ts: Tokens): (r: Result<(Stmt, Tokens)>)
    ensures r.Ok? ==> |r.value.1| < |ts|
    decreases |ts|, 1
  {
    match Peek(ts)
    case Identifier => ParseDeclaration(ts)
    case Set => ParseAssignment(ts)
    case Show =>
      var e :- ParseExpression(ts[1..], 0);
      Ok((ShowStmt(e.0, None), e.1))
    case Return =>
      var e :- ParseExpression(ts[1..], 0);
      Ok((ReturnStmt(e.0, None), e.1))
    case If =>
      var l :- ParseLink(ts);
      Ok((IfStmt(l.0), l.1))
    case Loop =>
      var b :- ParseBlock(ts[1..], {TokenKind.End});
      var c :- Consume(b.1, TokenKind.End);
      Ok((LoopStmt(b.0), c.1))
    case Break => Ok((BreakStmt, ts[1..]))
    case Cycle => Ok((CycleStmt, ts[1..]))
    case _ => Err(UnexpectedStatement)
  }

  const IF_TERMINATORS := {TokenKind.ElseIf, TokenKind.Else, TokenKind.End}

  /** One link of a chain, at its `if` or `elseif`.  Every link takes an `end` if one is there. */
  function ParseLink(ts: Tokens): (r: Result<(IfLink, Tokens)>)
    requires Peek(ts) in {TokenKind.If, TokenKind.ElseIf}
    ensures r.Ok? ==> |r.value.1| < |ts|
    decreases |ts|, 0
  {
    var cond :- ParseExpression(ts[1..], 0);
    var thn :- ParseBlock(cond.1, IF_TERMINATORS);
    if Peek(thn.1) == TokenKind.ElseIf then
      var next :- ParseLink(thn.1);
      Ok((IfLink(cond.0, thn.0, ElseIfLink(next.0)), SkipEnd(next.1)))
    else if Peek(thn.1) == TokenKind.Else then
      var els :- ParseBlock(thn.1[1..], {TokenKind.End});
      Ok((IfLink(cond.0, thn.0, ElseBlock(els.0)), SkipEnd(els.1)))
    else Ok((IfLink(cond.0, thn.0, NoElse), SkipEnd(thn.1)))
  }

  function SkipEnd(ts: Tokens): (rest: Tokens)
    ensures |rest| <= |ts|
  {
    if Peek(ts) == TokenKind.End then ts[1..] else ts
  }

  function ParseBlock(ts: Tokens, terminators: set<TokenKind>): (r: Result<(seq<Stmt>, Tokens)>)
    ensures r.Ok? ==> |r.value.1| <= |ts| && Peek(r.value.1) in terminators
    decreases |ts|, 2
  {
    if Peek(ts) in terminators then Ok(([], ts))
    else
      var s :- ParseStatement(ts);
      var rest :- ParseBlock(s.1, terminators);
      Ok(([s.0] + rest.0, rest.1))
  }

  function ParseFunction(ts: Tokens): (r: Result<(FunctionDecl, Tokens)>)
    ensures r.Ok? ==> |r.value.1| < |ts|
  {
    var f :- Consume(ts, TokenKind.Function);
    var name :- Consume(f.1, Identifier);
    var l :- Consume(name.1, LParen);
    var p :- Consume(l.1, RParen);
    var b :- ParseBlock(p.1, {TokenKind.End});
    var c :- Consume(b.1, TokenKind.End);
    Ok((FunctionDecl(name.0.text, b.0), c.1))
  }

  function ParseProgram(ts: Tokens): Result<seq<FunctionDecl>>
    decreases |ts|
  {
    if Peek(ts) == EndOfFile then Ok([])
    else
      var f :- ParseFunction(ts);
      var rest :- ParseProgram(f.1);
      Ok([f.0] + rest)
  }
}
