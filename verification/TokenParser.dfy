/** The parser as it is written: an index into the token vector that every parse method moves.  What a
    method returns, and the tokens it leaves, are what the parsing function says of the tokens from
    the index on; and the index never passes the EndOfFile token. */
module TokenParser {
  import opened Results
  import opened Syntax
  import opened Numerals
  import opened Checking
  import opened Parsing

  /** What the lexer hands over: EndOfFile comes last and nowhere else. */
  ghost predicate EndsWithEof(ts: Tokens) {
    |ts| > 0 && forall i | 0 <= i < |ts| :: ts[i].kind == EndOfFile <==> i == |ts| - 1
  }

  class Parser {
    const tokens: Tokens
    var index: nat

    ghost predicate Valid()
      reads this
    {
      EndsWithEof(tokens) && index < |tokens|
    }

    /** The tokens still to be read. */
    ghost function Left(): Tokens
      requires Valid()
      reads this
    {
      tokens[index..]
    }

    constructor (tokens: Tokens)
      requires EndsWithEof(tokens)
      ensures Valid() && Left() == tokens
    {
      this.tokens := tokens;
      index := 0;
      new;
      assert tokens[0..] == tokens;
    }

    /** The original guards against an index out of bounds; Valid() says that it never is. */
    method PeekToken() returns (t: Token)
      requires Valid()
      ensures t == tokens[index] && t == Left()[0] && t.kind == Parsing.Peek(Left())
    {
      t := tokens[index];
    }

    method Advance()
      requires Valid() && Parsing.Peek(Left()) != EndOfFile
      modifies this`index
      ensures Valid() && Left() == old(Left())[1..] && index == old(index) + 1
    {
      index := index + 1;
    }

    method Consume(expected: TokenKind) returns (r: Result<Token>)
      requires Valid() && expected != EndOfFile
      modifies this`index
      ensures Valid() && index >= old(index)
      ensures match Parsing.Consume(old(Left()), expected)
              case Ok((t, rest)) => r == Ok(t) && Left() == rest
              case Err(error) => r == Err(error)
    {
      var t := PeekToken();
      if t.kind != expected {
        return Err(UnexpectedToken);
      }
      Advance();
      return Ok(t);
    }

    // ----- expressions -----

    method Primary() returns (r: Result<Expr>)
      requires Valid()
      modifies this`index
      ensures Valid() && index >= old(index) && (r.Ok? ==> index > old(index))
      ensures match ParsePrimary(old(Left()))
              case Ok((e, rest)) => r == Ok(e) && Left() == rest
              case Err(error) => r == Err(error)
      decreases |tokens| - index, 0
    {
      var t := PeekToken();
      match t.kind {
        case FloatLiteral =>
          Advance();
          return Ok(FloatLit(t.text, None));
        case IntLiteral =>
          Advance();
          return Ok(IntLit(NumberOf(t.text), None));
        case LParen =>
          r := Paren();
        case Identifier =>
          r := IdentifierExpression();
        case _ =>
          return Err(UnexpectedPrimary);
      }
    }

    method Paren() returns (r: Result<Expr>)
      requires Valid() && Parsing.Peek(Left()) == LParen
      modifies this`index
      ensures Valid() && index >= old(index) && (r.Ok? ==> index > old(index))
      ensures match ParsePrimary(old(Left()))
              case Ok((e, rest)) => r == Ok(e) && Left() == rest
              case Err(error) => r == Err(error)
      decreases |tokens| - index, 0, 0
    {
      Advance();
      var e :- Expression(0);
      var t := PeekToken();
      if t.kind != RParen {
        return Err(UnexpectedToken);
      }
      Advance();
      return Ok(e);
    }

    method IdentifierExpression() returns (r: Result<Expr>)
      requires Valid() && Parsing.Peek(Left()) == Identifier
      modifies this`index
      ensures Valid() && index >= old(index) && (r.Ok? ==> index > old(index))
      ensures match ParsePrimary(old(Left()))
              case Ok((e, rest)) => r == Ok(e) && Left() == rest
              case Err(error) => r == Err(error)
    {
      ghost var start := Left();
      var name := PeekToken();
      Advance();
      var t := PeekToken();
      if t.kind == LParen {
        Advance();
        assert Left() == start[2..];
        var _ :- Consume(RParen);
        return Ok(Call(name.text));
      }
      return Ok(Var(name.text, None));
    }

    /** Precedence climbing: the loop extends the left operand while the next operator binds tighter. */
    method Expression(min: nat) returns (r: Result<Expr>)
      requires Valid()
      modifies this`index
      ensures Valid() && index >= old(index) && (r.Ok? ==> index > old(index))
      ensures match ParseExpression(old(Left()), min)
              case Ok((e, rest)) => r == Ok(e) && Left() == rest
              case Err(error) => r == Err(error)
      decreases |tokens| - index, 1
    {
      ghost var start := Left();
      var lhs :- Primary();
      var t := PeekToken();
      while Precedence(t.kind) > min
        invariant Valid() && index > old(index) && t == tokens[index]
        invariant ParseExpression(start, min) == ParseOperators(Left(), min, lhs)
        decreases |tokens| - index
      {
        Advance();
        var rhs :- Expression(Precedence(t.kind));
        lhs := Binary(t.kind, lhs, rhs, None, None);
        t := PeekToken();
      }
      return Ok(lhs);
    }

    // ----- statements -----

    method TypeName() returns (r: Result<string>)
      requires Valid()
      modifies this`index
      ensures Valid() && index >= old(index)
      ensures match Parsing.Consume(old(Left()), Identifier)
              case Ok((t, rest)) =>
                Left() == rest && r == if IsBuiltinType(t.text) then Ok(t.text) else Err(UnknownTypeName)
              case Err(error) => r == Err(error)
    {
      var t :- Consume(Identifier);
      return if IsBuiltinType(t.text) then Ok(t.text) else Err(UnknownTypeName);
    }

    method VariableDeclaration() returns (r: Result<Stmt>)
      requires Valid() && Parsing.Peek(Left()) == Identifier
      modifies this`index
      ensures Valid() && index >= old(index) && (r.Ok? ==> index > old(index))
      ensures match ParseDeclaration(old(Left()))
              case Ok((s, rest)) => r == Ok(s) && Left() == rest
              case Err(error) => r == Err(error)
    {
      hide ParseExpression;
      ghost var start := Left();
      var name := PeekToken();
      Advance();
      var typeName: Option<string> := None;
      var t := PeekToken();
      if t.kind == Colon {
        Advance();
        assert Left() == start[2..];
        var ty :- TypeName();
        typeName := Some(ty);
      }
      var _ :- Consume(Assignment);
      var value :- Expression(0);
      return Ok(DeclStmt(name.text, typeName, value, None));
    }

    method VariableAssignment() returns (r: Result<Stmt>)
      requires Valid()
      modifies this`index
      ensures Valid() && index >= old(index) && (r.Ok? ==> index > old(index))
      ensures match ParseAssignment(old(Left()))
              case Ok((s, rest)) => r == Ok(s) && Left() == rest
              case Err(error) => r == Err(error)
    {
      hide ParseExpression;
      var _ :- Consume(TokenKind.Set);
      var name :- Consume(Identifier);
      var _ :- Consume(Assignment);
      var value :- Expression(0);
      return Ok(AssignStmt(name.text, value));
    }

    method Statement() returns (r: Result<Stmt>)
      requires Valid()
      modifies this`index
      ensures Valid() && index >= old(index) && (r.Ok? ==> index > old(index))
      ensures match ParseStatement(old(Left()))
              case Ok((s, rest)) => r == Ok(s) && Left() == rest
              case Err(error) => r == Err(error)
      decreases |tokens| - index, 1
    {
      hide ParseExpression, ParseBlock, ParseLink, ParseDeclaration, ParseAssignment;
      var t := PeekToken();
      match t.kind {
        case Identifier => r := VariableDeclaration();
        case Set => r := VariableAssignment();
        case Show =>
          Advance();
          var e :- Expression(0);
          return Ok(ShowStmt(e, None));
        case Return =>
          Advance();
          var e :- Expression(0);
          return Ok(ReturnStmt(e, None));
        case If =>
          var link :- IfStatement();
          return Ok(IfStmt(link));
        case Loop =>
          Advance();
          var body :- Block({TokenKind.End});
          var end := Consume(TokenKind.End);
          return if end.Ok? then Ok(LoopStmt(body)) else Err(UnexpectedToken);
        case Break =>
          Advance();
          return Ok(BreakStmt);
        case Cycle =>
          Advance();
          return Ok(CycleStmt);
        case _ =>
          return Err(UnexpectedStatement);
      }
    }

    /** Also used for an elseif; every link takes an `end` if one is next. */
    method IfStatement() returns (r: Result<IfLink>)
      requires Valid() && Parsing.Peek(Left()) in {TokenKind.If, TokenKind.ElseIf}
      modifies this`index
      ensures Valid() && index >= old(index) && (r.Ok? ==> index > old(index))
      ensures match ParseLink(old(Left()))
              case Ok((link, rest)) => r == Ok(link) && Left() == rest
              case Err(error) => r == Err(error)
      decreases |tokens| - index, 0
    {
      hide ParseExpression, ParseBlock;
      Advance();
      var cond :- Expression(0);
      var thn :- Block(IF_TERMINATORS);
      var els := NoElse;
      var t := PeekToken();
      if t.kind == TokenKind.ElseIf {
        var next :- IfStatement();
        els := ElseIfLink(next);
      } else if t.kind == TokenKind.Else {
        Advance();
        var stmts :- Block({TokenKind.End});
        els := ElseBlock(stmts);
      }
      t := PeekToken();
      if t.kind == TokenKind.End {
        Advance();
      }
      return Ok(IfLink(cond, thn, els));
    }

    method Block(terminators: set<TokenKind>) returns (r: Result<seq<Stmt>>)
      requires Valid()
      modifies this`index
      ensures Valid() && index >= old(index)
      ensures match ParseBlock(old(Left()), terminators)
              case Ok((stmts, rest)) => r == Ok(stmts) && Left() == rest
              case Err(error) => r == Err(error)
      decreases |tokens| - index, 2
    {
      hide ParseStatement;
      ghost var whole := ParseBlock(Left(), terminators);
      var stmts: seq<Stmt> := [];
      assert whole.Ok? ==> stmts + whole.value.0 == whole.value.0;
      var t := PeekToken();
      while t.kind !in terminators
        invariant Valid() && index >= old(index) && t == tokens[index]
        invariant Continues(whole, stmts, ParseBlock(Left(), terminators))
        decreases |tokens| - index
      {
        ghost var here := Left();
        var s :- Statement();
        ghost var rest := ParseBlock(Left(), terminators);
        assert rest.Ok? ==> stmts + ([s] + rest.value.0) == stmts + [s] + rest.value.0;
        stmts := stmts + [s];
        t := PeekToken();
      }
      assert stmts + [] == stmts;
      return Ok(stmts);
    }

    // ----- functions and programs -----

    method FunctionDeclaration() returns (r: Result<FunctionDecl>)
      requires Valid()
      modifies this`index
      ensures Valid() && index >= old(index) && (r.Ok? ==> index > old(index))
      ensures match ParseFunction(old(Left()))
              case Ok((f, rest)) => r == Ok(f) && Left() == rest
              case Err(error) => r == Err(error)
    {
      hide ParseBlock;
      var _ :- Consume(TokenKind.Function);
      var name :- Consume(Identifier);
      var _ :- Consume(LParen);
      var _ :- Consume(RParen);
      var body :- Block({TokenKind.End});
      var end := Consume(TokenKind.End);
      return if end.Ok? then Ok(FunctionDecl(name.text, body)) else Err(UnexpectedToken);
    }

    method TopLevel() returns (r: Result<seq<FunctionDecl>>)
      requires Valid()
      modifies this`index
      ensures Valid() && r == ParseProgram(old(Left()))
      ensures r.Ok? ==> index == |tokens| - 1
    {
      hide ParseFunction;
      ghost var whole := ParseProgram(Left());
      var fns: seq<FunctionDecl> := [];
      assert whole.Ok? ==> fns + whole.value == whole.value;
      var t := PeekToken();
      while t.kind != EndOfFile
        invariant Valid() && t == tokens[index]
        invariant ContinuesProgram(whole, fns, ParseProgram(Left()))
        decreases |tokens| - index
      {
        var f :- FunctionDeclaration();
        ghost var rest := ParseProgram(Left());
        assert rest.Ok? ==> fns + ([f] + rest.value) == fns + [f] + rest.value;
        fns := fns + [f];
        t := PeekToken();
      }
      assert fns + [] == fns;
      return Ok(fns);
    }
  }

  ghost predicate Continues(whole: Result<(seq<Stmt>, Tokens)>, done: seq<Stmt>, rest: Result<(seq<Stmt>, Tokens)>) {
    whole == if rest.Err? then rest else Ok((done + rest.value.0, rest.value.1))
  }

  ghost predicate ContinuesProgram(whole: Result<seq<FunctionDecl>>, done: seq<FunctionDecl>,
                                   rest: Result<seq<FunctionDecl>>) {
    whole == if rest.Err? then rest else Ok(done + rest.value)
  }
}
