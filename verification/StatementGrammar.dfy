/** The language of statements and programs as a relation between tokens and trees, and the parser as exactly its
    decision procedure.  Expressions may be spelled with any redundant parentheses.  A link with another link after
    it may have an `end` of its own or not, but not where the next token is an `end` that it could take. */
module StatementGrammar {
  import opened Results
  import opened Syntax
  import opened Checking
  import opened Parsing
  import opened Grammar

  predicate Is(ts: Tokens, i: nat, k: TokenKind) {
    i < |ts| && ts[i].kind == k
  }

  predicate Named(ts: Tokens, i: nat, name: string) {
    i < |ts| && ts[i].kind == Identifier && ts[i].text == name
  }

  /** The kind of the token at i, where `next` follows the tokens. */
  function KindAt(ts: Tokens, i: nat, next: TokenKind): TokenKind {
    if i < |ts| then ts[i].kind else next
  }

  /** The tokens spell s where a token of kind `next` follows. */
  ghost predicate SpellsStmt(ts: Tokens, s: Stmt, next: TokenKind)
    decreases s, 0
  {
    match s
    case DeclStmt(name, typeName, value, declared) =>
      && declared.None? && Named(ts, 0, name)
      && (match typeName
          case None => Is(ts, 1, Assignment) && Spells(ts[2..], value, 0)
          case Some(t) =>
            && Is(ts, 1, Colon) && Named(ts, 2, t) && IsBuiltinType(t) && Is(ts, 3, Assignment)
            && Spells(ts[4..], value, 0))
    case AssignStmt(name, value) =>
      Is(ts, 0, TokenKind.Set) && Named(ts, 1, name) && Is(ts, 2, Assignment) && Spells(ts[3..], value, 0)
    case ShowStmt(expr, exprType) => exprType.None? && Is(ts, 0, TokenKind.Show) && Spells(ts[1..], expr, 0)
    case ReturnStmt(expr, exprType) => exprType.None? && Is(ts, 0, TokenKind.Return) && Spells(ts[1..], expr, 0)
    case IfStmt(link) => Is(ts, 0, TokenKind.If) && SpellsLink(ts[1..], link, next)
    case LoopStmt(body) =>
      && |ts| > 1 && Is(ts, 0, TokenKind.Loop) && Is(ts, |ts| - 1, TokenKind.End)
      && SpellsSeq(ts[1..|ts| - 1], body, TokenKind.End)
    case BreakStmt => |ts| == 1 && Is(ts, 0, TokenKind.Break)
    case CycleStmt => |ts| == 1 && Is(ts, 0, TokenKind.Cycle)
  }

  /** A link after its keyword. */
  ghost predicate SpellsLink(ts: Tokens, link: IfLink, next: TokenKind)
    decreases link, 1
  {
    exists i: nat, j: nat :: SplitsLink(ts, link, next, i, j)
  }

  ghost predicate SplitsLink(ts: Tokens, link: IfLink, next: TokenKind, i: nat, j: nat)
    decreases link, 0
  {
    && i <= j <= |ts| && Spells(ts[..i], link.cond, 0) && SpellsSeq(ts[i..j], link.thn, KindAt(ts, j, next))
    && SpellsRest(ts[j..], link.els, next)
  }

  /** The rest of a link: its else part and an `end`, which only a link before another link may go without. */
  ghost predicate SpellsRest(ts: Tokens, els: ElsePart, next: TokenKind)
    decreases els, 1
  {
    || (ts != [] && Is(ts, |ts| - 1, TokenKind.End) && SpellsElse(ts[..|ts| - 1], els, TokenKind.End))
    || (els.ElseIfLink? && next != TokenKind.End && SpellsElse(ts, els, next))
  }

  ghost predicate SpellsElse(ts: Tokens, els: ElsePart, next: TokenKind)
    decreases els, 0
  {
    match els
    case NoElse => ts == []
    case ElseBlock(stmts) => Is(ts, 0, TokenKind.Else) && SpellsSeq(ts[1..], stmts, next)
    case ElseIfLink(link) => Is(ts, 0, TokenKind.ElseIf) && SpellsLink(ts[1..], link, next)
  }

  ghost predicate SpellsSeq(ts: Tokens, stmts: seq<Stmt>, next: TokenKind)
    decreases stmts, 1
  {
    if stmts == [] then ts == [] else exists i: nat :: SplitsSeq(ts, stmts, next, i)
  }

  ghost predicate SplitsSeq(ts: Tokens, stmts: seq<Stmt>, next: TokenKind, i: nat)
    requires stmts != []
    decreases stmts, 0
  {
    i <= |ts| && SpellsStmt(ts[..i], stmts[0], KindAt(ts, i, next)) && SpellsSeq(ts[i..], stmts[1..], next)
  }

  ghost predicate SpellsFunction(ts: Tokens, f: FunctionDecl) {
    && |ts| > 4 && Is(ts, 0, TokenKind.Function) && Named(ts, 1, f.name) && Is(ts, 2, LParen) && Is(ts, 3, RParen)
    && Is(ts, |ts| - 1, TokenKind.End) && SpellsSeq(ts[4..|ts| - 1], f.body, TokenKind.End)
  }

  ghost predicate SpellsProgram(ts: Tokens, fns: seq<FunctionDecl>)
    decreases fns
  {
    if fns == [] then ts == [] else exists i: nat :: SplitsProgram(ts, fns, i)
  }

  ghost predicate SplitsProgram(ts: Tokens, fns: seq<FunctionDecl>, i: nat)
    requires fns != []
    decreases fns, 0
  {
    i <= |ts| && SpellsFunction(ts[..i], fns[0]) && SpellsProgram(ts[i..], fns[1..])
  }

  // ----- joining -----

  lemma JoinSeq(a: Tokens, b: Tokens, s: Stmt, stmts: seq<Stmt>, next: TokenKind)
    requires SpellsStmt(a, s, KindAt(b, 0, next)) && SpellsSeq(b, stmts, next)
    ensures SpellsSeq(a + b, [s] + stmts, next)
  {
    hide SpellsStmt, SpellsSeq;
    var ts, all := a + b, [s] + stmts;
    assert ts[..|a|] == a && ts[|a|..] == b && all[1..] == stmts;
    assert KindAt(ts, |a|, next) == KindAt(b, 0, next);
    assert SplitsSeq(ts, all, next, |a|);
    SplitSpells(ts, all, next, |a|);
  }

  lemma SplitSpells(ts: Tokens, stmts: seq<Stmt>, next: TokenKind, i: nat)
    requires stmts != [] && SplitsSeq(ts, stmts, next, i)
    ensures SpellsSeq(ts, stmts, next)
  {
    hide SplitsSeq;
  }

  lemma JoinProgram(a: Tokens, b: Tokens, f: FunctionDecl, fns: seq<FunctionDecl>)
    requires SpellsFunction(a, f) && SpellsProgram(b, fns)
    ensures SpellsProgram(a + b, [f] + fns)
  {
    hide SpellsFunction;
    var ts, all := a + b, [f] + fns;
    assert ts[..|a|] == a && ts[|a|..] == b && all[1..] == fns;
    assert SplitsProgram(ts, all, |a|);
  }

  lemma JoinLink(a: Tokens, b: Tokens, c: Tokens, link: IfLink, next: TokenKind)
    requires Spells(a, link.cond, 0) && SpellsSeq(b, link.thn, KindAt(c, 0, next)) && SpellsRest(c, link.els, next)
    ensures SpellsLink(a + (b + c), link, next)
  {
    hide Spells, SpellsSeq, SpellsRest;
    var ts := a + (b + c);
    assert ts[..|a|] == a && ts[|a|..|a| + |b|] == b && ts[|a| + |b|..] == c;
    assert KindAt(ts, |a| + |b|, next) == KindAt(c, 0, next);
    assert SplitsLink(ts, link, next, |a|, |a| + |b|);
  }

  // ----- whatever is read was spelled -----

  lemma ExpressionRead(ts: Tokens) returns (front: Tokens)
    requires ParseExpression(ts, 0).Ok?
    ensures ts == front + ParseExpression(ts, 0).value.1 && Spells(front, ParseExpression(ts, 0).value.0, 0)
  {
    hide Spells, ParseExpression;
    ReadSpelled(ts, 0);
    var rest := ParseExpression(ts, 0).value.1;
    front := ts[..|ts| - |rest|];
  }

  lemma DeclarationRead(ts: Tokens, next: TokenKind) returns (front: Tokens)
    requires Peek(ts) == Identifier && ts != [] && ParseDeclaration(ts).Ok?
    ensures ts == front + ParseDeclaration(ts).value.1 && SpellsStmt(front, ParseDeclaration(ts).value.0, next)
  {
    hide Spells, ParseExpression, IsBuiltinType;
    if Peek(ts[1..]) == Colon {
      assert ts[2..][1..] == ts[3..] && ts[3..][1..] == ts[4..];
      var e := ExpressionRead(ts[4..]);
      front := ts[..4] + e;
      assert front[4..] == e;
    } else {
      assert ts[1..][1..] == ts[2..];
      var e := ExpressionRead(ts[2..]);
      front := ts[..2] + e;
      assert front[2..] == e;
    }
  }

  lemma AssignmentRead(ts: Tokens, next: TokenKind) returns (front: Tokens)
    requires ParseAssignment(ts).Ok?
    ensures ts == front + ParseAssignment(ts).value.1 && SpellsStmt(front, ParseAssignment(ts).value.0, next)
  {
    hide Spells, ParseExpression;
    assert ts[1..][1..] == ts[2..] && ts[2..][1..] == ts[3..];
    var e := ExpressionRead(ts[3..]);
    front := ts[..3] + e;
    assert front[3..] == e;
  }

  lemma {:induction false} StatementRead(ts: Tokens) returns (front: Tokens)
    requires ParseStatement(ts).Ok?
    ensures var (s, rest) := ParseStatement(ts).value; ts == front + rest && SpellsStmt(front, s, Peek(rest))
    decreases |ts|, 1
  {
    hide Spells, ParseExpression, ParseBlock, ParseLink, ParseDeclaration, ParseAssignment, SpellsSeq, SpellsLink;
    var next := Peek(ParseStatement(ts).value.1);
    match Peek(ts)
    case Identifier => front := DeclarationRead(ts, next);
    case Set => front := AssignmentRead(ts, next);
    case Show =>
      var e := ExpressionRead(ts[1..]);
      front := ts[..1] + e;
      assert front[1..] == e;
    case Return =>
      var e := ExpressionRead(ts[1..]);
      front := ts[..1] + e;
      assert front[1..] == e;
    case If => front := LinkRead(ts); assert front[0] == ts[0];
    case Loop =>
      var b := BlockRead(ts[1..], {TokenKind.End});
      var after := ParseBlock(ts[1..], {TokenKind.End}).value.1;
      front := ts[..1] + b + after[..1];
      assert front[1..|front| - 1] == b;
    case Break => front := ts[..1];
    case Cycle => front := ts[..1];
    case _ => front := [];
  }

  lemma {:induction false} LinkRead(ts: Tokens) returns (front: Tokens)
    requires Peek(ts) in {TokenKind.If, TokenKind.ElseIf} && ParseLink(ts).Ok?
    ensures var (link, rest) := ParseLink(ts).value;
            ts == front + rest && front != [] && SpellsLink(front[1..], link, Peek(rest))
    decreases |ts|, 0
  {
    hide Spells, ParseExpression, ParseBlock, ParseLink, SpellsSeq, SpellsLink, SpellsRest;
    LinkParts(ts);
    var cond := ExpressionRead(ts[1..]);
    var after := ParseExpression(ts[1..], 0).value.1;
    var thn := BlockRead(after, IF_TERMINATORS);
    var tail := ParseBlock(after, IF_TERMINATORS).value.1;
    var rest := RestRead(tail);
    var (link, left) := ParseLink(ts).value;
    assert KindAt(rest, 0, Peek(left)) == Peek(tail);
    JoinLink(cond, thn, rest, link, Peek(left));
    front := ts[..1] + (cond + (thn + rest));
    assert front[1..] == cond + (thn + rest);
  }

  /** What is read after the then part of a link. */
  function ParseRest(ts: Tokens): Result<(ElsePart, Tokens)> {
    if Peek(ts) == TokenKind.ElseIf then
      var next :- ParseLink(ts);
      Ok((ElseIfLink(next.0), SkipEnd(next.1)))
    else if Peek(ts) == TokenKind.Else then
      var els :- ParseBlock(ts[1..], {TokenKind.End});
      Ok((ElseBlock(els.0), SkipEnd(els.1)))
    else Ok((NoElse, SkipEnd(ts)))
  }

  lemma LinkParts(ts: Tokens)
    requires Peek(ts) in {TokenKind.If, TokenKind.ElseIf} && ParseLink(ts).Ok?
    ensures var (link, rest) := ParseLink(ts).value;
            && ParseExpression(ts[1..], 0).Ok?
            && var cond := ParseExpression(ts[1..], 0).value;
            && ParseBlock(cond.1, IF_TERMINATORS).Ok?
            && var thn := ParseBlock(cond.1, IF_TERMINATORS).value;
            && ParseRest(thn.1).Ok?
            && link == IfLink(cond.0, thn.0, ParseRest(thn.1).value.0) && rest == ParseRest(thn.1).value.1
            && |thn.1| < |ts|
  {
    hide ParseExpression, ParseBlock;
  }

  lemma {:induction false} RestRead(ts: Tokens) returns (front: Tokens)
    requires Peek(ts) in IF_TERMINATORS && ParseRest(ts).Ok?
    ensures var (els, rest) := ParseRest(ts).value; ts == front + rest && SpellsRest(front, els, Peek(rest))
    decreases |ts|, 3
  {
    hide ParseBlock, ParseLink, SpellsSeq, SpellsLink;
    if Peek(ts) == TokenKind.ElseIf {
      front := LinkRead(ts);
      front := EndRead(ts, front, ParseLink(ts).value.1, ParseRest(ts).value.0);
    } else if Peek(ts) == TokenKind.Else {
      var b := BlockRead(ts[1..], {TokenKind.End});
      front := ts[..1] + b;
      assert front[1..] == b;
      front := EndRead(ts, front, ParseBlock(ts[1..], {TokenKind.End}).value.1, ParseRest(ts).value.0);
    } else {
      front := EndRead(ts, [], ts, NoElse);
    }
  }

  /** The `end` of a link, if one is next. */
  lemma EndRead(ts: Tokens, front: Tokens, rest: Tokens, els: ElsePart) returns (front': Tokens)
    requires ts == front + rest && SpellsElse(front, els, Peek(rest))
    requires els.ElseIfLink? || Peek(rest) == TokenKind.End
    ensures ts == front' + SkipEnd(rest) && SpellsRest(front', els, Peek(SkipEnd(rest)))
  {
    hide SpellsElse;
    front' := front;
    if Peek(rest) == TokenKind.End {
      front' := front + rest[..1];
      assert front'[..|front'| - 1] == front;
    }
  }

  lemma NothingSpelled(next: TokenKind)
    ensures SpellsSeq([], [], next)
  {
  }

  lemma {:induction false} BlockRead(ts: Tokens, terminators: set<TokenKind>) returns (front: Tokens)
    requires ParseBlock(ts, terminators).Ok?
    ensures var (stmts, rest) := ParseBlock(ts, terminators).value;
            ts == front + rest && SpellsSeq(front, stmts, Peek(rest))
    decreases |ts|, 2
  {
    hide ParseStatement, SpellsStmt, SpellsSeq;
    front := [];
    NothingSpelled(Peek(ts));
    if Peek(ts) !in terminators {
      var s := StatementRead(ts);
      var after := ParseStatement(ts).value.1;
      var b := BlockRead(after, terminators);
      var rest := ParseBlock(after, terminators).value;
      assert KindAt(b, 0, Peek(rest.1)) == Peek(after);
      JoinSeq(s, b, ParseStatement(ts).value.0, rest.0, Peek(rest.1));
      front := s + b;
    }
  }

  lemma FunctionRead(ts: Tokens) returns (front: Tokens)
    requires ParseFunction(ts).Ok?
    ensures ts == front + ParseFunction(ts).value.1 && SpellsFunction(front, ParseFunction(ts).value.0)
  {
    hide ParseBlock, SpellsSeq;
    assert ts[1..][1..] == ts[2..] && ts[2..][1..] == ts[3..] && ts[3..][1..] == ts[4..];
    var b := BlockRead(ts[4..], {TokenKind.End});
    var after := ParseBlock(ts[4..], {TokenKind.End}).value.1;
    front := ts[..4] + b + after[..1];
    assert front[4..|front| - 1] == b;
  }

  /** Whatever program is read was spelled by the tokens before the end of the file. */
  lemma {:induction false} ProgramRead(ts: Tokens) returns (front: Tokens)
    requires ParseProgram(ts).Ok?
    ensures front <= ts && Peek(ts[|front|..]) == EndOfFile && SpellsProgram(front, ParseProgram(ts).value)
    decreases |ts|
  {
    hide ParseFunction, SpellsFunction;
    front := [];
    if Peek(ts) != EndOfFile {
      var f := FunctionRead(ts);
      var after := ParseFunction(ts).value.1;
      var b := ProgramRead(after);
      JoinProgram(f, b, ParseFunction(ts).value.0, ParseProgram(after).value);
      front := f + b;
      assert ts[|front|..] == after[|b|..];
    }
  }

  // ----- whatever is spelled is read -----

  lemma ExpressionSpelled(ts: Tokens, e: Expr, rest: Tokens)
    requires Spells(ts, e, 0) && EndsExpression(Peek(rest))
    ensures ParseExpression(ts + rest, 0) == Ok((e, rest))
  {
    ReadIffSpells(ts, e, 0, rest);
  }

  lemma DeclarationSpelled(ts: Tokens, s: Stmt, rest: Tokens)
    requires s.DeclStmt? && SpellsStmt(ts, s, Peek(rest)) && EndsExpression(Peek(rest))
    ensures ts != [] && Peek(ts + rest) == Identifier && ParseDeclaration(ts + rest) == Ok((s, rest))
  {
    hide Spells, ParseExpression, IsBuiltinType, Precedence;
    var all := ts + rest;
    if s.typeName.Some? {
      assert all[1..][0] == ts[1] && all[2..][0] == ts[2] && all[2..][1..] == all[3..] && all[3..][0] == ts[3];
      assert all[3..][1..] == ts[4..] + rest;
      ExpressionSpelled(ts[4..], s.value, rest);
    } else {
      assert all[1..][0] == ts[1] && all[1..][1..] == ts[2..] + rest;
      ExpressionSpelled(ts[2..], s.value, rest);
    }
  }

  lemma AssignmentSpelled(ts: Tokens, s: Stmt, rest: Tokens)
    requires s.AssignStmt? && SpellsStmt(ts, s, Peek(rest)) && EndsExpression(Peek(rest))
    ensures ParseStatement(ts + rest) == Ok((s, rest))
  {
    hide Spells, ParseExpression;
    var all := ts + rest;
    assert all[1..][0] == ts[1] && all[1..][1..][0] == ts[2] && all[1..][1..][1..] == ts[3..] + rest;
    ExpressionSpelled(ts[3..], s.value, rest);
  }

  lemma AfterKeyword(ts: Tokens, e: Expr, rest: Tokens)
    requires ts != [] && Spells(ts[1..], e, 0) && EndsExpression(Peek(rest))
    ensures ParseExpression((ts + rest)[1..], 0) == Ok((e, rest))
  {
    hide Spells, ParseExpression;
    assert (ts + rest)[1..] == ts[1..] + rest;
    ExpressionSpelled(ts[1..], e, rest);
  }

  /** Statements made of tokens and at most one expression. */
  lemma SimpleSpelled(ts: Tokens, s: Stmt, rest: Tokens)
    requires SpellsStmt(ts, s, Peek(rest)) && EndsExpression(Peek(rest)) && !s.IfStmt? && !s.LoopStmt?
    ensures ParseStatement(ts + rest) == Ok((s, rest))
  {
    hide Spells, ParseExpression, ParseBlock, ParseLink, ParseDeclaration, ParseAssignment, EndsExpression,
         IsBuiltinType;
    var all := ts + rest;
    match s
    case DeclStmt(_, _, _, _) => DeclarationSpelled(ts, s, rest);
    case AssignStmt(_, _) => AssignmentSpelled(ts, s, rest);
    case ShowStmt(expr, _) => AfterKeyword(ts, expr, rest);
    case ReturnStmt(expr, _) => AfterKeyword(ts, expr, rest);
    case BreakStmt => assert all[1..] == rest;
    case CycleStmt => assert all[1..] == rest;
  }

  lemma {:induction false} StatementSpelled(ts: Tokens, s: Stmt, rest: Tokens)
    requires SpellsStmt(ts, s, Peek(rest)) && EndsExpression(Peek(rest))
    ensures ParseStatement(ts + rest) == Ok((s, rest))
    decreases s
  {
    hide Spells, ParseExpression, ParseBlock, ParseLink, ParseDeclaration, ParseAssignment, SpellsSeq, SpellsLink;
    var all := ts + rest;
    match s
    case IfStmt(link) => LinkSpelled(ts, link, rest);
    case LoopStmt(body) =>
      var after := [ts[|ts| - 1]] + rest;
      assert all[1..] == ts[1..|ts| - 1] + after && after[1..] == rest;
      BlockSpelled(ts[1..|ts| - 1], body, {TokenKind.End}, after);
    case _ => SimpleSpelled(ts, s, rest);
  }

  lemma {:induction false} LinkSpelled(ts: Tokens, link: IfLink, rest: Tokens)
    requires ts != [] && ts[0].kind in {TokenKind.If, TokenKind.ElseIf}
    requires SpellsLink(ts[1..], link, Peek(rest)) && EndsExpression(Peek(rest))
    ensures ParseLink(ts + rest) == Ok((link, rest))
    decreases link
  {
    hide Spells, ParseExpression, ParseBlock, ParseLink, SpellsSeq, SpellsRest, ParseRest;
    var next := Peek(rest);
    var i: nat, j: nat :| SplitsLink(ts[1..], link, next, i, j);
    var cond, thn, tail := ts[1..][..i], ts[1..][i..j], ts[1..][j..];
    assert (ts + rest)[1..] == cond + (thn + (tail + rest));
    RestStart(tail, link.els, rest);
    assert KindAt(ts[1..], j, next) == Peek(tail + rest);
    SeqStart(thn, link.thn, tail + rest);
    ExpressionSpelled(cond, link.cond, thn + (tail + rest));
    BlockSpelled(thn, link.thn, IF_TERMINATORS, tail + rest);
    RestSpelled(tail, link.els, rest);
    PartsLink(ts + rest);
  }

  /** A link is read if its parts are. */
  lemma PartsLink(ts: Tokens)
    requires Peek(ts) in {TokenKind.If, TokenKind.ElseIf} && ParseExpression(ts[1..], 0).Ok?
    requires var cond := ParseExpression(ts[1..], 0).value;
             && ParseBlock(cond.1, IF_TERMINATORS).Ok?
             && ParseRest(ParseBlock(cond.1, IF_TERMINATORS).value.1).Ok?
    ensures ParseLink(ts).Ok?
    ensures var cond := ParseExpression(ts[1..], 0).value;
            var thn := ParseBlock(cond.1, IF_TERMINATORS).value;
            var (els, rest) := ParseRest(thn.1).value;
            ParseLink(ts).value == (IfLink(cond.0, thn.0, els), rest)
  {
    hide ParseExpression, ParseBlock;
  }

  /** What comes after the then part of a link. */
  lemma RestStart(ts: Tokens, els: ElsePart, rest: Tokens)
    requires SpellsRest(ts, els, Peek(rest))
    ensures ts != [] && Peek(ts + rest) in IF_TERMINATORS && EndsExpression(Peek(ts + rest))
    ensures els.ElseIfLink? <==> Peek(ts + rest) == TokenKind.ElseIf
    ensures els.ElseBlock? <==> Peek(ts + rest) == TokenKind.Else
  {
    hide SpellsSeq, SpellsLink;
  }

  lemma {:induction false} RestSpelled(ts: Tokens, els: ElsePart, rest: Tokens)
    requires SpellsRest(ts, els, Peek(rest)) && EndsExpression(Peek(rest))
    ensures ParseRest(ts + rest) == Ok((els, rest))
    decreases els
  {
    hide ParseBlock, ParseLink, SpellsSeq, SpellsLink;
    RestStart(ts, els, rest);
    var all := ts + rest;
    if Is(ts, |ts| - 1, TokenKind.End) && SpellsElse(ts[..|ts| - 1], els, TokenKind.End) {
      var front, after := ts[..|ts| - 1], [ts[|ts| - 1]] + rest;
      assert all == front + after && after[1..] == rest;
      match els
      case NoElse => assert all == after;
      case ElseBlock(stmts) =>
        assert all[1..] == front[1..] + after;
        BlockSpelled(front[1..], stmts, {TokenKind.End}, after);
      case ElseIfLink(link) => LinkSpelled(front, link, after);
    } else {
      LinkSpelled(ts, els.next, rest);
    }
  }

  /** Statements, or what follows them, end an expression. */
  lemma SeqStart(ts: Tokens, stmts: seq<Stmt>, rest: Tokens)
    requires SpellsSeq(ts, stmts, Peek(rest)) && EndsExpression(Peek(rest))
    ensures EndsExpression(Peek(ts + rest))
    ensures stmts != [] ==> ts != [] && StartsStatement(Peek(ts + rest))
  {
    hide Spells, SpellsLink;
    if stmts == [] {
      assert ts + rest == rest;
    } else {
      var i: nat :| SplitsSeq(ts, stmts, Peek(rest), i);
      StmtStart(ts[..i], stmts[0], KindAt(ts, i, Peek(rest)));
    }
  }

  lemma StmtStart(ts: Tokens, s: Stmt, next: TokenKind)
    requires SpellsStmt(ts, s, next)
    ensures ts != [] && StartsStatement(ts[0].kind) && EndsExpression(ts[0].kind)
  {
    hide Spells, SpellsLink, SpellsSeq;
  }

  lemma {:induction false} BlockSpelled(ts: Tokens, stmts: seq<Stmt>, terminators: set<TokenKind>, rest: Tokens)
    requires SpellsSeq(ts, stmts, Peek(rest)) && EndsExpression(Peek(rest)) && Peek(rest) in terminators
    requires terminators <= IF_TERMINATORS
    ensures ParseBlock(ts + rest, terminators) == Ok((stmts, rest))
    decreases stmts
  {
    hide SpellsStmt, ParseStatement, StartsStatement, EndsExpression;
    if stmts == [] {
      assert ts + rest == rest;
    } else {
      SeqStart(ts, stmts, rest);
      NoTerminator(Peek(ts + rest));
      var i: nat :| SplitsSeq(ts, stmts, Peek(rest), i);
      var more := ts[i..] + rest;
      assert ts + rest == ts[..i] + more && KindAt(ts, i, Peek(rest)) == Peek(more);
      SeqStart(ts[i..], stmts[1..], rest);
      StatementSpelled(ts[..i], stmts[0], more);
      BlockSpelled(ts[i..], stmts[1..], terminators, rest);
      assert [stmts[0]] + stmts[1..] == stmts;
    }
  }

  lemma FunctionSpelled(ts: Tokens, f: FunctionDecl, rest: Tokens)
    requires SpellsFunction(ts, f)
    ensures ParseFunction(ts + rest) == Ok((f, rest))
  {
    hide ParseBlock, SpellsSeq;
    var all, after := ts + rest, [ts[|ts| - 1]] + rest;
    assert all[1..][0] == ts[1] && all[1..][1..][0] == ts[2] && all[1..][1..][1..][0] == ts[3];
    assert all[1..][1..][1..][1..] == ts[4..|ts| - 1] + after && after[1..] == rest;
    BlockSpelled(ts[4..|ts| - 1], f.body, {TokenKind.End}, after);
  }

  lemma {:induction false} ProgramSpelled(ts: Tokens, fns: seq<FunctionDecl>, rest: Tokens)
    requires SpellsProgram(ts, fns) && Peek(rest) == EndOfFile
    ensures ParseProgram(ts + rest) == Ok(fns)
    decreases fns
  {
    hide SpellsFunction, ParseFunction;
    if fns == [] {
      assert ts + rest == rest;
    } else {
      var i: nat :| SplitsProgram(ts, fns, i);
      assert ts + rest == ts[..i] + (ts[i..] + rest);
      FunctionStart(ts[..i], fns[0]);
      FunctionSpelled(ts[..i], fns[0], ts[i..] + rest);
      ProgramSpelled(ts[i..], fns[1..], rest);
      assert [fns[0]] + fns[1..] == fns;
    }
  }

  lemma FunctionStart(ts: Tokens, f: FunctionDecl)
    requires SpellsFunction(ts, f)
    ensures ts != [] && ts[0].kind == TokenKind.Function
  {
  }

  // ----- the parser decides the language -----

  /** Where what follows cannot go on an expression, tokens are read as a statement, up to there, if and only if
      they spell it. */
  lemma StatementIffSpells(ts: Tokens, s: Stmt, rest: Tokens)
    requires EndsExpression(Peek(rest))
    ensures ParseStatement(ts + rest) == Ok((s, rest)) <==> SpellsStmt(ts, s, Peek(rest))
  {
    hide ParseStatement, SpellsStmt;
    if ParseStatement(ts + rest) == Ok((s, rest)) {
      var front := StatementRead(ts + rest);
      assert front == (ts + rest)[..|ts|] == ts;
    }
    if SpellsStmt(ts, s, Peek(rest)) {
      StatementSpelled(ts, s, rest);
    }
  }

  /** A token list that ends in its only EndOfFile is read as a program if and only if the tokens before that
      spell it. */
  lemma ProgramIffSpells(ts: Tokens, fns: seq<FunctionDecl>, eof: Token)
    requires eof.kind == EndOfFile && forall i | 0 <= i < |ts| :: ts[i].kind != EndOfFile
    ensures ParseProgram(ts + [eof]) == Ok(fns) <==> SpellsProgram(ts, fns)
  {
    hide ParseProgram, SpellsProgram;
    if ParseProgram(ts + [eof]) == Ok(fns) {
      var front := ProgramRead(ts + [eof]);
      assert |front| >= |ts|;
      if |front| > |ts| {
        LastNotEof(front, fns, eof);
      } else {
        assert front == (ts + [eof])[..|ts|] == ts;
      }
    }
    if SpellsProgram(ts, fns) {
      ProgramSpelled(ts, fns, [eof]);
    }
  }

  lemma {:induction false} LastNotEof(ts: Tokens, fns: seq<FunctionDecl>, eof: Token)
    requires SpellsProgram(ts, fns) && eof.kind == EndOfFile && ts != []
    ensures ts[|ts| - 1] != eof
    decreases fns
  {
    hide SpellsFunction;
    var i: nat :| SplitsProgram(ts, fns, i);
    if i == |ts| {
      FunctionEnd(ts[..i], fns[0]);
      assert ts[..i] == ts;
    } else {
      LastNotEof(ts[i..], fns[1..], eof);
    }
  }

  lemma FunctionEnd(ts: Tokens, f: FunctionDecl)
    requires SpellsFunction(ts, f)
    ensures ts != [] && ts[|ts| - 1].kind == TokenKind.End
  {
  }
}
