/** Programs written with one `end` for a whole if / elseif / else chain.  The parser lets every link
    of a chain take an `end`, so a chain may take ends meant for the constructs around it.  This is
    exactly when such a program is still read as it was meant. */
module SingleEnd {
  import opened Results
  import opened Syntax
  import opened Parsing
  import opened Grammar
  import opened Printing

  function PrintOne(s: Stmt): Tokens
    decreases s
  {
    match s
    case IfStmt(link) => [Tok(TokenKind.If)] + PrintChain(link) + [Tok(TokenKind.End)]
    case LoopStmt(body) => [Tok(TokenKind.Loop)] + PrintAll(body) + [Tok(TokenKind.End)]
    case _ => PrintStmt(s)
  }

  /** A chain after its first keyword and before its only `end`. */
  function PrintChain(link: IfLink): Tokens
    decreases link
  {
    PrintExpr(link.cond, 0) + PrintAll(link.thn) + PrintElseOf(link.els)
  }

  function PrintElseOf(els: ElsePart): Tokens
    decreases els
  {
    match els
    case NoElse => []
    case ElseBlock(stmts) => [Tok(TokenKind.Else)] + PrintAll(stmts)
    case ElseIfLink(next) => [Tok(TokenKind.ElseIf)] + PrintChain(next)
  }

  function PrintAll(stmts: seq<Stmt>): Tokens
    decreases stmts
  {
    if stmts == [] then [] else PrintOne(stmts[0]) + PrintAll(stmts[1..])
  }

  function PrintShortFunction(f: FunctionDecl): Tokens {
    [Tok(TokenKind.Function), Token(Identifier, f.name), Tok(LParen), Tok(RParen)]
    + PrintAll(f.body) + [Tok(TokenKind.End)]
  }

  function PrintShort(fns: seq<FunctionDecl>): Tokens
    decreases fns
  {
    if fns == [] then [] else PrintShortFunction(fns[0]) + PrintShort(fns[1..])
  }

  /** n times `end`. */
  function Ends(n: nat): Tokens {
    if n == 0 then [] else [Tok(TokenKind.End)] + Ends(n - 1)
  }

  // ----- how many ends are taken -----

  /** How many of the k ends that follow a statement it takes from its surroundings; None if it is
      misread. */
  function Taken(s: Stmt, k: nat): (r: Option<nat>)
    ensures r.Some? ==> r.value <= k
    decreases s
  {
    match s
    case IfStmt(link) =>
      var j := TakenByChain(link, k + 1);
      if j.Some? then Some(j.value - 1) else None
    case LoopStmt(body) =>
      var j := TakenByBlock(body, k + 1);
      if j.Some? && j.value <= k then j else None
    case _ => Some(0)
  }

  /** How many of the n ends at hand a chain takes, its own included. */
  function TakenByChain(link: IfLink, n: nat): (r: Option<nat>)
    requires n > 0
    ensures r.Some? ==> 0 < r.value <= n
    decreases link
  {
    match link.els
    case NoElse =>
      var j := TakenByBlock(link.thn, n);
      if j.Some? && j.value < n then Some(j.value + 1) else None
    case ElseBlock(stmts) =>
      var j := TakenByBlock(stmts, n);
      if TakenByBlock(link.thn, 0) == Some(0) && j.Some? && j.value < n then Some(j.value + 1) else None
    case ElseIfLink(next) =>
      var j := TakenByChain(next, n);
      if TakenByBlock(link.thn, 0) == Some(0) && j.Some?
      then Some(if j.value < n then j.value + 1 else n) else None
  }

  /** Only the last statement of a block has ends behind it. */
  function TakenByBlock(stmts: seq<Stmt>, k: nat): (r: Option<nat>)
    ensures r.Some? ==> r.value <= k
    decreases stmts
  {
    if stmts == [] then Some(0)
    else if |stmts| == 1 then Taken(stmts[0], k)
    else if Taken(stmts[0], 0) == Some(0) then TakenByBlock(stmts[1..], k)
    else None
  }

  /** Every function keeps its `end`. */
  ghost predicate Balanced(fns: seq<FunctionDecl>) {
    forall i | 0 <= i < |fns| :: TakenByBlock(fns[i].body, 1) == Some(0)
  }

  // ----- what is read -----

  /** The result is x and leaves rest, if `good`; otherwise it is an error or something else. */
  ghost predicate Reads<T>(r: Result<(T, Tokens)>, x: T, rest: Tokens, good: bool) {
    if good then r == Ok((x, rest)) else r.Err? || r.value.0 != x
  }

  /** A token after a run of ends. */
  ghost predicate Follows(r: Tokens) {
    Peek(r) != TokenKind.End && EndsExpression(Peek(r))
  }

  lemma EndsPeek(n: nat, r: Tokens)
    ensures Peek(Ends(n) + r) == if n > 0 then TokenKind.End else Peek(r)
    ensures n > 0 ==> (Ends(n) + r)[1..] == Ends(n - 1) + r
    ensures n == 0 ==> Ends(n) + r == r
    ensures Follows(r) ==> EndsExpression(Peek(Ends(n) + r))
  {
    if n > 0 {
      assert Ends(n) + r == [Tok(TokenKind.End)] + (Ends(n - 1) + r);
    }
  }

  lemma OneStart(s: Stmt, rest: Tokens)
    ensures PrintOne(s) != [] && StartsStatement(Peek(PrintOne(s) + rest))
  {
    StatementStart(s, rest);
  }

  lemma AllStart(stmts: seq<Stmt>, rest: Tokens)
    requires EndsExpression(Peek(rest))
    ensures EndsExpression(Peek(PrintAll(stmts) + rest))
    ensures stmts != [] ==> StartsStatement(Peek(PrintAll(stmts) + rest))
  {
    hide PrintOne, Spelling;
    if stmts == [] {
      assert PrintAll(stmts) + rest == rest;
    } else {
      OneStart(stmts[0], PrintAll(stmts[1..]) + rest);
      assert PrintAll(stmts) + rest == PrintOne(stmts[0]) + (PrintAll(stmts[1..]) + rest);
    }
  }

  /** Reading a loop is reading its body and then an `end`. */
  lemma LoopStep(body: seq<Stmt>, tail: Tokens)
    ensures var b := ParseBlock(PrintAll(body) + ([Tok(TokenKind.End)] + tail), {TokenKind.End});
            ParseStatement(PrintOne(LoopStmt(body)) + tail) ==
            if b.Err? then Err(b.error)
            else if Peek(b.value.1) != TokenKind.End then Err(UnexpectedToken)
            else Ok((LoopStmt(b.value.0), b.value.1[1..]))
  {
    hide ParseBlock, PrintAll, Spelling, ParseExpression, ParseLink, ParseDeclaration, ParseAssignment, PrintStmt;
    var ts := PrintOne(LoopStmt(body)) + tail;
    assert ts[1..] == PrintAll(body) + ([Tok(TokenKind.End)] + tail);
  }

  lemma IfStep(link: IfLink, tail: Tokens)
    ensures var l := ParseLink([Tok(TokenKind.If)] + (PrintChain(link) + ([Tok(TokenKind.End)] + tail)));
            ParseStatement(PrintOne(IfStmt(link)) + tail) ==
            if l.Err? then Err(l.error) else Ok((IfStmt(l.value.0), l.value.1))
  {
    hide ParseBlock, PrintChain, Spelling, ParseExpression, ParseLink, ParseDeclaration, ParseAssignment, PrintStmt;
    var ts := PrintOne(IfStmt(link)) + tail;
    assert ts == [Tok(TokenKind.If)] + (PrintChain(link) + ([Tok(TokenKind.End)] + tail));
  }

  lemma OneMore(n: nat, r: Tokens)
    ensures [Tok(TokenKind.End)] + (Ends(n) + r) == Ends(n + 1) + r
  {
  }

  lemma {:induction false} ReadsOne(s: Stmt, k: nat, r: Tokens)
    requires ParsedStmt(s) && Follows(r)
    ensures OneReads(s, k, r)
    decreases s
  {
    hide Tok, Ends, ParseStatement, ParseLink, ParseBlock, ParsedBlock, ParsedLink, PrintAll, PrintChain,
         PrintStmt, TakenByBlock, TakenByChain;
    match s
    case IfStmt(link) =>
      IfStep(link, Ends(k) + r);
      OneMore(k, r);
      ReadsChain(link, TokenKind.If, k + 1, r);
    case LoopStmt(body) =>
      LoopStep(body, Ends(k) + r);
      OneMore(k, r);
      ReadsAll(body, {TokenKind.End}, k + 1, r);
      var j := TakenByBlock(body, k + 1);
      if j.Some? {
        EndsPeek(k + 1 - j.value, r);
      }
    case _ =>
      EndsPeek(k, r);
      SimpleRoundTrip(s, Ends(k) + r);
  }

  /** Reading a link: its condition, its then part, and what the next token says. */
  lemma ChainStep(link: IfLink, kw: TokenKind, tail: Tokens)
    requires Parsed(link.cond) && EndsExpression(Peek(tail)) && kw in {TokenKind.If, TokenKind.ElseIf}
    ensures var r := ParseLink([Tok(kw)] + (PrintChain(link) + tail));
            var b := ParseBlock(PrintAll(link.thn) + (PrintElseOf(link.els) + tail), IF_TERMINATORS);
            if b.Err? then r.Err?
            else if Peek(b.value.1) == TokenKind.ElseIf then
              var n := ParseLink(b.value.1);
              if n.Err? then r.Err?
              else r == Ok((IfLink(link.cond, b.value.0, ElseIfLink(n.value.0)), SkipEnd(n.value.1)))
            else if Peek(b.value.1) == TokenKind.Else then
              var c := ParseBlock(b.value.1[1..], {TokenKind.End});
              if c.Err? then r.Err?
              else r == Ok((IfLink(link.cond, b.value.0, ElseBlock(c.value.0)), SkipEnd(c.value.1)))
            else r == Ok((IfLink(link.cond, b.value.0, NoElse), SkipEnd(b.value.1)))
  {
    hide ParseBlock, ParseExpression, PrintAll, PrintChain, Spelling, PrintExpr, Parsed, PrintElseOf;
    var ts := [Tok(kw)] + (PrintChain(link) + tail);
    var more := PrintElseOf(link.els) + tail;
    ChainTokens(link, tail);
    ElseStart(link.els, tail);
    assert ts[1..] == PrintChain(link) + tail;
    AllStart(link.thn, more);
    ExpressionRoundTrip(link.cond, 0, PrintAll(link.thn) + more);
  }

  /** The token after a then part. */
  lemma ElseStart(els: ElsePart, tail: Tokens)
    requires EndsExpression(Peek(tail))
    ensures var more := PrintElseOf(els) + tail;
            && EndsExpression(Peek(more))
            && (els.NoElse? ==> more == tail)
            && (els.ElseBlock? ==> Peek(more) == TokenKind.Else && more[1..] == PrintAll(els.stmts) + tail)
            && (els.ElseIfLink? ==> Peek(more) == TokenKind.ElseIf
                                    && more == [Tok(TokenKind.ElseIf)] + (PrintChain(els.next) + tail))
  {
    hide PrintAll, PrintChain, Spelling;
    var more := PrintElseOf(els) + tail;
    match els
    case NoElse =>
    case ElseBlock(stmts) => assert more == [Tok(TokenKind.Else)] + (PrintAll(stmts) + tail);
    case ElseIfLink(next) => assert more == [Tok(TokenKind.ElseIf)] + (PrintChain(next) + tail);
  }

  /** What a chain reads as, given what follows it. */
  ghost predicate ChainReads(link: IfLink, kw: TokenKind, n: nat, r: Tokens)
    requires n > 0 && kw in {TokenKind.If, TokenKind.ElseIf}
  {
    var taken := TakenByChain(link, n);
    Reads(ParseLink([Tok(kw)] + (PrintChain(link) + (Ends(n) + r))), link,
          if taken.Some? then Ends(n - taken.value) + r else r, taken.Some?)
  }

  lemma {:induction false} ReadsChain(link: IfLink, kw: TokenKind, n: nat, r: Tokens)
    requires ParsedLink(link) && Follows(r) && n > 0 && kw in {TokenKind.If, TokenKind.ElseIf}
    ensures ChainReads(link, kw, n, r)
    decreases link
  {
    hide Tok, Ends, ParseLink, ParseBlock, ParsedBlock, PrintAll, PrintChain, PrintElseOf, TakenByBlock, Parsed,
         ChainReads, Reads;
    var more := PrintElseOf(link.els) + (Ends(n) + r);
    EndsPeek(n, r);
    ElseStart(link.els, Ends(n) + r);
    match link.els
    case NoElse =>
      ReadsAll(link.thn, IF_TERMINATORS, n, r);
      ReadsNoElse(link, kw, n, r);
    case ElseBlock(stmts) =>
      ReadsAll(link.thn, IF_TERMINATORS, 0, more);
      ReadsAll(stmts, {TokenKind.End}, n, r);
      ReadsElse(link, kw, n, r);
    case ElseIfLink(next) =>
      ReadsAll(link.thn, IF_TERMINATORS, 0, more);
      ReadsChain(next, TokenKind.ElseIf, n, r);
      ReadsElseIf(link, kw, n, r);
  }

  lemma ReadsNoElse(link: IfLink, kw: TokenKind, n: nat, r: Tokens)
    requires link.els.NoElse? && BlockReads(link.thn, IF_TERMINATORS, n, r)
    requires Parsed(link.cond) && Follows(r) && n > 0 && kw in {TokenKind.If, TokenKind.ElseIf}
    ensures ChainReads(link, kw, n, r)
  {
    hide Tok, Ends, ParseLink, ParseBlock, PrintAll, PrintChain, PrintElseOf, TakenByBlock, Parsed;
    EndsPeek(n, r);
    ChainStep(link, kw, Ends(n) + r);
    ElseStart(link.els, Ends(n) + r);
    var j := TakenByBlock(link.thn, n);
    if j.Some? {
      EndsPeek(n - j.value, r);
    }
  }

  /** What a chain with an else part takes, one link at a time. */
  lemma TakenElse(link: IfLink, n: nat)
    requires n > 0
    ensures link.els.ElseBlock? ==>
              var j := TakenByBlock(link.els.stmts, n);
              TakenByChain(link, n) == if TakenByBlock(link.thn, 0) == Some(0) && j.Some? && j.value < n
                                       then Some(j.value + 1) else None
    ensures link.els.ElseIfLink? ==>
              var j := TakenByChain(link.els.next, n);
              TakenByChain(link, n) == if TakenByBlock(link.thn, 0) == Some(0) && j.Some?
                                       then Some(if j.value < n then j.value + 1 else n) else None
  {
  }

  /** A link with an else part, once it is known how its then part reads. */
  lemma ElseStep(link: IfLink, kw: TokenKind, tail: Tokens)
    requires Parsed(link.cond) && EndsExpression(Peek(tail)) && kw in {TokenKind.If, TokenKind.ElseIf}
    ensures var r := ParseLink([Tok(kw)] + (PrintChain(link) + tail));
            var more := PrintElseOf(link.els) + tail;
            var b := ParseBlock(PrintAll(link.thn) + more, IF_TERMINATORS);
            && (!link.els.NoElse? ==> Peek(more) in IF_TERMINATORS)
            && (b.Err? || b.value.0 != link.thn ==> r.Err? || r.value.0 != link)
            && (b == Ok((link.thn, more)) && link.els.ElseBlock? ==>
                  var c := ParseBlock(PrintAll(link.els.stmts) + tail, {TokenKind.End});
                  if c.Err? then r.Err?
                  else r == Ok((IfLink(link.cond, link.thn, ElseBlock(c.value.0)), SkipEnd(c.value.1))))
            && (b == Ok((link.thn, more)) && link.els.ElseIfLink? ==>
                  var n := ParseLink([Tok(TokenKind.ElseIf)] + (PrintChain(link.els.next) + tail));
                  if n.Err? then r.Err?
                  else r == Ok((IfLink(link.cond, link.thn, ElseIfLink(n.value.0)), SkipEnd(n.value.1))))
  {
    hide Tok, ParseLink, ParseBlock, PrintAll, PrintChain, PrintElseOf, Parsed, Precedence, EndsExpression, SkipEnd;
    ChainStep(link, kw, tail);
    ElseStart(link.els, tail);
  }

  lemma ReadsElse(link: IfLink, kw: TokenKind, n: nat, r: Tokens)
    requires link.els.ElseBlock? && Parsed(link.cond) && Follows(r) && n > 0
    requires kw in {TokenKind.If, TokenKind.ElseIf}
    requires BlockReads(link.thn, IF_TERMINATORS, 0, PrintElseOf(link.els) + (Ends(n) + r))
    requires BlockReads(link.els.stmts, {TokenKind.End}, n, r)
    ensures ChainReads(link, kw, n, r)
  {
    hide Tok, Ends, ParseLink, ParseBlock, PrintAll, PrintChain, PrintElseOf, TakenByBlock, TakenByChain,
         Parsed, Precedence, EndsExpression;
    TakenElse(link, n);
    EndsPeek(n, r);
    ElseStep(link, kw, Ends(n) + r);
    EndsPeek(0, PrintElseOf(link.els) + (Ends(n) + r));
    var j := TakenByBlock(link.els.stmts, n);
    if j.Some? {
      EndsPeek(n - j.value, r);
    }
  }

  lemma ReadsElseIf(link: IfLink, kw: TokenKind, n: nat, r: Tokens)
    requires link.els.ElseIfLink? && Parsed(link.cond) && Follows(r) && n > 0
    requires kw in {TokenKind.If, TokenKind.ElseIf}
    requires BlockReads(link.thn, IF_TERMINATORS, 0, PrintElseOf(link.els) + (Ends(n) + r))
    requires ChainReads(link.els.next, TokenKind.ElseIf, n, r)
    ensures ChainReads(link, kw, n, r)
  {
    hide Tok, Ends, ParseLink, ParseBlock, PrintAll, PrintChain, PrintElseOf, TakenByBlock, TakenByChain,
         Parsed, Precedence, EndsExpression;
    TakenElse(link, n);
    EndsPeek(n, r);
    ElseStep(link, kw, Ends(n) + r);
    EndsPeek(0, PrintElseOf(link.els) + (Ends(n) + r));
    var j := TakenByChain(link.els.next, n);
    if j.Some? {
      EndsPeek(n - j.value, r);
    }
  }

  lemma ChainTokens(link: IfLink, rest: Tokens)
    ensures PrintChain(link) + rest
         == PrintExpr(link.cond, 0) + (PrintAll(link.thn) + (PrintElseOf(link.els) + rest))
  {
  }

  /** A block reads back if its statements do and a terminator is next; with no terminator next, the
      parser goes on and reads something longer or fails. */
  ghost predicate BlockReads(stmts: seq<Stmt>, terminators: set<TokenKind>, k: nat, r: Tokens) {
    var taken := TakenByBlock(stmts, k);
    Reads(ParseBlock(PrintAll(stmts) + (Ends(k) + r), terminators), stmts,
          if taken.Some? then Ends(k - taken.value) + r else r,
          taken.Some? && (taken.value < k || Peek(r) in terminators))
  }

  ghost predicate OneReads(s: Stmt, k: nat, r: Tokens) {
    var taken := Taken(s, k);
    Reads(ParseStatement(PrintOne(s) + (Ends(k) + r)), s,
          if taken.Some? then Ends(k - taken.value) + r else r, taken.Some?)
  }

  lemma {:induction false} ReadsAll(stmts: seq<Stmt>, terminators: set<TokenKind>, k: nat, r: Tokens)
    requires ParsedBlock(stmts) && Follows(r)
    requires TokenKind.End in terminators && terminators <= IF_TERMINATORS
    ensures BlockReads(stmts, terminators, k, r)
    decreases stmts
  {
    hide Tok, Ends, ParseStatement, PrintOne, PrintAll, Taken, ParsedStmt, OneReads;
    EndsPeek(k, r);
    AllTokens(stmts, Ends(k) + r);
    if |stmts| == 1 {
      ReadsOne(stmts[0], k, r);
      ReadsLast(stmts, terminators, k, r);
    } else if stmts != [] {
      var more := PrintAll(stmts[1..]) + (Ends(k) + r);
      AllStart(stmts[1..], Ends(k) + r);
      ReadsOne(stmts[0], 0, more);
      ReadsAll(stmts[1..], terminators, k, r);
      ReadsMore(stmts, terminators, k, r);
    }
  }

  /** One step of reading a block. */
  lemma BlockStep(ts: Tokens, terminators: set<TokenKind>)
    ensures Peek(ts) in terminators ==> ParseBlock(ts, terminators) == Ok(([], ts))
    ensures Peek(ts) !in terminators ==>
              var s, r := ParseStatement(ts), ParseBlock(ts, terminators);
              if s.Err? then r.Err?
              else
                var b := ParseBlock(s.value.1, terminators);
                if b.Err? then r.Err? else r == Ok(([s.value.0] + b.value.0, b.value.1))
  {
  }

  lemma ReadsLast(stmts: seq<Stmt>, terminators: set<TokenKind>, k: nat, r: Tokens)
    requires |stmts| == 1 && OneReads(stmts[0], k, r) && Follows(r)
    requires TokenKind.End in terminators && terminators <= IF_TERMINATORS
    ensures BlockReads(stmts, terminators, k, r)
  {
    hide Tok, Ends, ParseStatement, ParseBlock, PrintOne, PrintAll, Taken;
    var ts := PrintAll(stmts) + (Ends(k) + r);
    AllTokens(stmts, Ends(k) + r);
    AllTokens(stmts[1..], Ends(k) + r);
    OneStart(stmts[0], Ends(k) + r);
    BlockStep(ts, terminators);
    assert stmts == [stmts[0]] == [stmts[0]] + [];
    var x := Taken(stmts[0], k);
    if x.Some? {
      var rest := Ends(k - x.value) + r;
      EndsPeek(k - x.value, r);
      BlockStep(rest, terminators);
    }
  }

  lemma ReadsMore(stmts: seq<Stmt>, terminators: set<TokenKind>, k: nat, r: Tokens)
    requires |stmts| > 1 && OneReads(stmts[0], 0, PrintAll(stmts[1..]) + (Ends(k) + r))
    requires BlockReads(stmts[1..], terminators, k, r) && terminators <= IF_TERMINATORS
    ensures BlockReads(stmts, terminators, k, r)
  {
    hide Tok, Ends, ParseStatement, ParseBlock, PrintOne, PrintAll, Taken;
    var more := PrintAll(stmts[1..]) + (Ends(k) + r);
    AllTokens(stmts, Ends(k) + r);
    OneStart(stmts[0], more);
    EndsPeek(0, more);
    BlockStep(PrintAll(stmts) + (Ends(k) + r), terminators);
    assert stmts == [stmts[0]] + stmts[1..];
  }

  lemma AllTokens(stmts: seq<Stmt>, tail: Tokens)
    ensures stmts == [] ==> PrintAll(stmts) + tail == tail
    ensures stmts != [] ==> PrintAll(stmts) + tail == PrintOne(stmts[0]) + (PrintAll(stmts[1..]) + tail)
  {
  }

  /** Reading a function: its header, its body, and an `end`. */
  lemma FunctionStep(f: FunctionDecl, r: Tokens)
    ensures var b := ParseBlock(PrintAll(f.body) + ([Tok(TokenKind.End)] + r), {TokenKind.End});
            ParseFunction(PrintShortFunction(f) + r) ==
            if b.Err? then Err(b.error)
            else if Peek(b.value.1) != TokenKind.End then Err(UnexpectedToken)
            else Ok((FunctionDecl(f.name, b.value.0), b.value.1[1..]))
  {
    hide Spelling, ParseBlock, PrintAll;
    var ts := PrintShortFunction(f) + r;
    var body := PrintAll(f.body) + ([Tok(TokenKind.End)] + r);
    assert ts[1..] == [Token(Identifier, f.name), Tok(LParen), Tok(RParen)] + body;
    assert ts[1..][1..] == [Tok(LParen), Tok(RParen)] + body;
    assert ts[1..][1..][1..] == [Tok(RParen)] + body;
    assert ts[1..][1..][1..][1..] == body;
  }

  lemma ReadsFunction(f: FunctionDecl, r: Tokens)
    requires ParsedBlock(f.body) && Follows(r)
    ensures Reads(ParseFunction(PrintShortFunction(f) + r), f, r, TakenByBlock(f.body, 1) == Some(0))
  {
    hide Tok, Ends, ParseFunction, ParseBlock, PrintAll, TakenByBlock, ParsedBlock, PrintShortFunction;
    FunctionStep(f, r);
    OneMore(0, r);
    EndsPeek(1, r);
    EndsPeek(0, r);
    ReadsAll(f.body, {TokenKind.End}, 1, r);
  }

  /** A program written with one `end` per chain is read back as itself if and only if it is balanced. */
  lemma {:induction false} ShortRoundTrip(fns: seq<FunctionDecl>, eof: Token)
    requires ParsedProgram(fns) && eof.kind == EndOfFile
    ensures ParseProgram(PrintShort(fns) + [eof]) == Ok(fns) <==> Balanced(fns)
    decreases fns
  {
    hide Spelling, ParseFunction, PrintAll, TakenByBlock, ParsedBlock;
    var ts := PrintShort(fns) + [eof];
    if fns == [] {
      assert ts == [eof];
    } else {
      var more := PrintShort(fns[1..]) + [eof];
      assert ts == PrintShortFunction(fns[0]) + more;
      ReadsFunction(fns[0], more);
      ShortRoundTrip(fns[1..], eof);
      assert fns == [fns[0]] + fns[1..];
    }
  }

  // ----- a simple sufficient condition, and what happens without it -----

  predicate IsElseIfChain(s: Stmt) {
    s.IfStmt? && s.link.els.ElseIfLink?
  }

  /** No elseif chain is the last statement of a block. */
  predicate Apart(stmts: seq<Stmt>)
    decreases stmts
  {
    stmts == [] || (ApartStmt(stmts[0]) && Apart(stmts[1..]) && (|stmts| == 1 ==> !IsElseIfChain(stmts[0])))
  }

  predicate ApartStmt(s: Stmt)
    decreases s
  {
    match s
    case IfStmt(link) => ApartLink(link)
    case LoopStmt(body) => Apart(body)
    case _ => true
  }

  predicate ApartLink(link: IfLink)
    decreases link
  {
    && Apart(link.thn)
    && match link.els
       case NoElse => true
       case ElseBlock(stmts) => Apart(stmts)
       case ElseIfLink(next) => ApartLink(next)
  }

  lemma {:induction false} ApartTakesNothing(stmts: seq<Stmt>, k: nat)
    requires Apart(stmts)
    ensures TakenByBlock(stmts, k) == Some(0)
    decreases stmts
  {
    if stmts != [] {
      ApartStmtTakesNothing(stmts[0], if |stmts| == 1 then k else 0);
      ApartTakesNothing(stmts[1..], k);
    }
  }

  lemma {:induction false} ApartStmtTakesNothing(s: Stmt, k: nat)
    requires ApartStmt(s) && (IsElseIfChain(s) ==> k == 0)
    ensures Taken(s, k) == Some(0)
    decreases s
  {
    match s
    case IfStmt(link) => ApartChainTakesOne(link, k + 1);
    case LoopStmt(body) => ApartTakesNothing(body, k + 1);
    case _ =>
  }

  lemma {:induction false} ApartChainTakesOne(link: IfLink, n: nat)
    requires ApartLink(link) && n > 0 && (link.els.ElseIfLink? ==> n == 1)
    ensures TakenByChain(link, n) == Some(1)
    decreases link
  {
    ApartTakesNothing(link.thn, n);
    ApartTakesNothing(link.thn, 0);
    match link.els
    case NoElse =>
    case ElseBlock(stmts) => ApartTakesNothing(stmts, n);
    case ElseIfLink(next) => ApartChainTakesOne(next, n);
  }

  /** Programs in which no elseif chain ends a block are read back as they are. */
  lemma ApartRoundTrip(fns: seq<FunctionDecl>, eof: Token)
    requires ParsedProgram(fns) && eof.kind == EndOfFile
    requires forall i | 0 <= i < |fns| :: Apart(fns[i].body)
    ensures ParseProgram(PrintShort(fns) + [eof]) == Ok(fns)
  {
    forall i | 0 <= i < |fns|
      ensures TakenByBlock(fns[i].body, 1) == Some(0)
    {
      ApartTakesNothing(fns[i].body, 1);
    }
    ShortRoundTrip(fns, eof);
  }

  /** An elseif chain directly before the `end` of its function takes that `end`. */
  lemma ChainBeforeEndMisread(c: Expr, f: string, eof: Token)
    requires Parsed(c) && eof.kind == EndOfFile
    ensures var chain := IfStmt(IfLink(c, [], ElseIfLink(IfLink(c, [], NoElse))));
            ParseProgram(PrintShort([FunctionDecl(f, [chain])]) + [eof]) != Ok([FunctionDecl(f, [chain])])
  {
    var inner := IfLink(c, [], NoElse);
    var chain := IfLink(c, [], ElseIfLink(inner));
    var fns := [FunctionDecl(f, [IfStmt(chain)])];
    assert TakenByBlock(inner.thn, 2) == Some(0);
    assert TakenByChain(inner, 2) == Some(1);
    assert TakenByChain(chain, 2) == Some(2);
    assert !Balanced(fns) by {
      assert TakenByBlock(fns[0].body, 1) == Taken(IfStmt(chain), 1) == Some(1);
    }
    ParsedExample(c, fns);
    ShortRoundTrip(fns, eof);
  }

  lemma ParsedExample(c: Expr, fns: seq<FunctionDecl>)
    requires Parsed(c) && |fns| == 1 && fns[0].body == [IfStmt(IfLink(c, [], ElseIfLink(IfLink(c, [], NoElse))))]
    ensures ParsedProgram(fns)
  {
    assert ParsedBlock([]);
    assert ParsedLink(IfLink(c, [], NoElse));
    assert ParsedLink(IfLink(c, [], ElseIfLink(IfLink(c, [], NoElse))));
    assert fns[0].body[1..] == [];
  }
}
