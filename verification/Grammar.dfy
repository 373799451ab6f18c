/** The language of expressions as a relation between tokens and trees, and the parser as exactly its
    decision procedure. */
module Grammar {
  import opened Results
  import opened Syntax
  import opened Numerals
  import opened Parsing

  /** The tokens spell the tree where only operators binding tighter than min may stand bare: left
      operands may bind as tightly as the operator, right operands must bind tighter, and anything may
      be put in parentheses. */
  ghost predicate Spells(ts: Tokens, e: Expr, min: nat)
    decreases |ts|
  {
    SpellsAtom(ts, e)
    || (|ts| > 2 && ts[0].kind == LParen && ts[|ts| - 1].kind == RParen && Spells(ts[1..|ts| - 1], e, 0))
    || (e.Binary? && e.operand.None? && e.resolved.None? && Precedence(e.op) > min
        && exists i | 0 < i < |ts| - 1 ::
             SplitsAt(ts, e.op, i)
             && Spells(ts[..i], e.lhs, Precedence(e.op) - 1) && Spells(ts[i + 1..], e.rhs, Precedence(e.op)))
  }

  predicate SplitsAt(ts: Tokens, op: TokenKind, i: nat)
    requires i < |ts|
  {
    ts[i].kind == op
  }

  predicate SpellsAtom(ts: Tokens, e: Expr) {
    match e
    case IntLit(value, resolved) =>
      resolved.None? && |ts| == 1 && ts[0].kind == TokenKind.IntLiteral && NumberOf(ts[0].text) == value
    case FloatLit(digits, resolved) =>
      resolved.None? && |ts| == 1 && ts[0].kind == TokenKind.FloatLiteral && ts[0].text == digits
    case Var(name, resolved) =>
      resolved.None? && |ts| == 1 && ts[0].kind == Identifier && ts[0].text == name
    case Call(name) =>
      |ts| == 3 && ts[0].kind == Identifier && ts[0].text == name && ts[1].kind == LParen && ts[2].kind == RParen
    case Binary(_, _, _, _, _) => false
  }

  lemma SpellsBinary(ts: Tokens, e: Expr, min: nat, i: nat)
    requires e.Binary? && e.operand.None? && e.resolved.None? && Precedence(e.op) > min
    requires 0 < i < |ts| - 1 && ts[i].kind == e.op
    requires Spells(ts[..i], e.lhs, Precedence(e.op) - 1) && Spells(ts[i + 1..], e.rhs, Precedence(e.op))
    ensures Spells(ts, e, min)
  {
    assert SplitsAt(ts, e.op, i);
  }

  /** A token that ends an expression whatever comes before it. */
  predicate EndsExpression(k: TokenKind) {
    Precedence(k) == 0 && k != LParen
  }

  /** The keywords and names that begin statements end expressions and close no block. */
  predicate StartsStatement(k: TokenKind) {
    k in {Identifier, TokenKind.Set, TokenKind.Show, TokenKind.Return, TokenKind.If, TokenKind.Loop,
          TokenKind.Break, TokenKind.Cycle}
  }

  lemma NoTerminator(k: TokenKind)
    requires StartsStatement(k)
    ensures k !in IF_TERMINATORS
  {
  }

  // ----- every spelling is read as its tree -----

  lemma {:induction false} SpellingRead(ts: Tokens, e: Expr, k: nat, m: nat, rest: Tokens)
    requires Spells(ts, e, k) && m <= k && Precedence(Peek(rest)) <= k + 1 && Peek(rest) != LParen
    ensures ParseExpression(ts + rest, m) == ParseOperators(rest, m, e)
    decreases |ts|
  {
    hide Spells, ParseExpression, ParseOperators, SpellsAtom, Precedence;
    var form := FormOf(ts, e, k);
    match form
    case Atom => AtomRead(ts, e, m, rest);
    case Paren =>
      var inner, after := ts[1..|ts| - 1], [ts[|ts| - 1]] + rest;
      assert ts + rest == [ts[0]] + (inner + after);
      SpellingRead(inner, e, 0, 0, after);
      assert after[1..] == rest;
      ParenRead(ts[0], inner + after, e, m, after);
    case Split(i) =>
      var p := Precedence(e.op);
      var right := ts[i + 1..] + rest;
      assert ts + rest == ts[..i] + ([ts[i]] + right);
      SpellingRead(ts[..i], e.lhs, p - 1, m, [ts[i]] + right);
      SpellingRead(ts[i + 1..], e.rhs, p, p, rest);
      OperatorRead(ts[i], right, e, m, rest);
  }

  datatype Form = Atom | Paren | Split(at: nat)

  /** The way ts spells e. */
  lemma FormOf(ts: Tokens, e: Expr, k: nat) returns (f: Form)
    requires Spells(ts, e, k)
    ensures match f
            case Atom => SpellsAtom(ts, e)
            case Paren =>
              |ts| > 2 && ts[0].kind == LParen && ts[|ts| - 1].kind == RParen && Spells(ts[1..|ts| - 1], e, 0)
              && Precedence(RParen) == 0
            case Split(i) =>
              && e.Binary? && e.operand.None? && e.resolved.None? && Precedence(e.op) > k && e.op != LParen
              && 0 < i < |ts| - 1 && ts[i].kind == e.op
              && Spells(ts[..i], e.lhs, Precedence(e.op) - 1) && Spells(ts[i + 1..], e.rhs, Precedence(e.op))
  {
    hide SpellsAtom;
    if SpellsAtom(ts, e) {
      f := Atom;
    } else if |ts| > 2 && ts[0].kind == LParen && ts[|ts| - 1].kind == RParen && Spells(ts[1..|ts| - 1], e, 0) {
      f := Paren;
    } else {
      var i :| 0 < i < |ts| - 1 && SplitsAt(ts, e.op, i)
               && Spells(ts[..i], e.lhs, Precedence(e.op) - 1) && Spells(ts[i + 1..], e.rhs, Precedence(e.op));
      f := Split(i);
    }
  }

  lemma AtomRead(ts: Tokens, e: Expr, m: nat, rest: Tokens)
    requires SpellsAtom(ts, e) && Peek(rest) != LParen
    ensures ParseExpression(ts + rest, m) == ParseOperators(rest, m, e)
  {
    var all := ts + rest;
    if e.Call? {
      assert all[1..][0] == ts[1] && all[2..] == [ts[2]] + rest && all[2..][1..] == rest;
    } else {
      assert all[1..] == rest;
    }
  }

  lemma ParenRead(open: Token, inside: Tokens, e: Expr, m: nat, after: Tokens)
    requires open.kind == LParen && Peek(after) == RParen
    requires ParseExpression(inside, 0) == ParseOperators(after, 0, e)
    ensures after != [] && ParseExpression([open] + inside, m) == ParseOperators(after[1..], m, e)
  {
    assert ([open] + inside)[1..] == inside;
    assert ParseOperators(after, 0, e) == Ok((e, after));
  }

  lemma OperatorRead(op: Token, right: Tokens, e: Expr, m: nat, rest: Tokens)
    requires e.Binary? && e.operand.None? && e.resolved.None? && op.kind == e.op
    requires m < Precedence(e.op) && Precedence(Peek(rest)) <= Precedence(e.op)
    requires ParseExpression(right, Precedence(e.op)) == ParseOperators(rest, Precedence(e.op), e.rhs)
    ensures ParseOperators([op] + right, m, e.lhs) == ParseOperators(rest, m, e)
  {
    assert ([op] + right)[1..] == right;
    assert ParseOperators(rest, Precedence(e.op), e.rhs) == Ok((e.rhs, rest));
  }

  // ----- whatever is read was spelled -----

  /** rest is what is left of ts, the tokens before it spell e, and no tighter operator is next. */
  ghost predicate Consumed(ts: Tokens, e: Expr, m: nat, rest: Tokens) {
    |rest| <= |ts| && rest == ts[|ts| - |rest|..] && Spells(ts[..|ts| - |rest|], e, m)
    && Precedence(Peek(rest)) <= m
  }

  lemma {:induction false} PrimarySpelled(ts: Tokens, k: nat)
    requires ParsePrimary(ts).Ok?
    ensures var (e, rest) := ParsePrimary(ts).value;
            rest == ts[|ts| - |rest|..] && Spells(ts[..|ts| - |rest|], e, k)
    decreases |ts|, 0
  {
    hide ParseExpression;
    if Peek(ts) == LParen {
      hide Spells;
      ReadSpelled(ts[1..], 0);
      var (e, after) := ParseExpression(ts[1..], 0).value;
      var n := |ts| - |after| + 1;
      assert after == ts[n - 1..] && after[1..] == ts[n..];
      assert ts[..n][1..n - 1] == ts[1..][..n - 2];
      SpellsNonEmpty(ts[..n][1..n - 1], e, 0);
      SpellsParen(ts[..n], e, k);
    } else {
      AtomSpelled(ts);
    }
  }

  lemma SpellsParen(ts: Tokens, e: Expr, k: nat)
    requires |ts| > 2 && ts[0].kind == LParen && ts[|ts| - 1].kind == RParen && Spells(ts[1..|ts| - 1], e, 0)
    ensures Spells(ts, e, k)
  {
  }

  lemma AtomSpelled(ts: Tokens)
    requires Peek(ts) != LParen && ParsePrimary(ts).Ok?
    ensures var (e, rest) := ParsePrimary(ts).value;
            rest == ts[|ts| - |rest|..] && SpellsAtom(ts[..|ts| - |rest|], e)
  {
    hide ParseExpression, NumberOf, SpellsAtom;
    if Peek(ts) == Identifier && Peek(ts[1..]) == LParen {
      assert ts[1..][0] == ts[1] && ts[2..][0] == ts[2];
      assert ts[2..][1..] == ts[3..];
      CallSpelled(ts[..3], ts[0].text);
    } else {
      TokenSpelled(ts[..1], ParsePrimary(ts).value.0);
    }
  }

  lemma CallSpelled(ts: Tokens, name: string)
    requires |ts| == 3 && ts[0] == Token(Identifier, name) && ts[1].kind == LParen && ts[2].kind == RParen
    ensures SpellsAtom(ts, Call(name))
  {
  }

  lemma TokenSpelled(ts: Tokens, e: Expr)
    requires |ts| == 1
    requires match ts[0].kind
             case FloatLiteral => e == FloatLit(ts[0].text, None)
             case IntLiteral => e == IntLit(NumberOf(ts[0].text), None)
             case Identifier => e == Var(ts[0].text, None)
             case _ => false
    ensures SpellsAtom(ts, e)
  {
  }

  lemma SpellsNonEmpty(ts: Tokens, e: Expr, k: nat)
    requires Spells(ts, e, k)
    ensures ts != []
  {
  }

  lemma {:induction false} ReadSpelled(ts: Tokens, m: nat)
    requires ParseExpression(ts, m).Ok?
    ensures Consumed(ts, ParseExpression(ts, m).value.0, m, ParseExpression(ts, m).value.1)
    decreases |ts|, 1
  {
    var (lhs, after) := ParsePrimary(ts).value;
    var q := Precedence(Peek(after));
    PrimarySpelled(ts, if q > m then q - 1 else m);
    OperatorsSpelled(ts, |ts| - |after|, m, lhs);
  }

  lemma NoOperator()
    ensures Precedence(EndOfFile) == 0
  {
  }

  /** The loop: the tokens before i spell lhs as tightly as the operator at i needs. */
  lemma {:induction false} OperatorsSpelled(ts: Tokens, i: nat, m: nat, lhs: Expr)
    requires 0 < i <= |ts| && ParseOperators(ts[i..], m, lhs).Ok?
    requires var q := Precedence(Peek(ts[i..])); Spells(ts[..i], lhs, if q > m then q - 1 else m)
    ensures Consumed(ts, ParseOperators(ts[i..], m, lhs).value.0, m, ParseOperators(ts[i..], m, lhs).value.1)
    decreases |ts| - i, 2
  {
    hide Spells, ParseExpression, Precedence;
    var q := Precedence(Peek(ts[i..]));
    if q > m {
      assert Precedence(EndOfFile) == 0 by { NoOperator(); }
      var op := ts[i].kind;
      assert ts[i..][1..] == ts[i + 1..];
      var (rhs, after) := ParseExpression(ts[i + 1..], q).value;
      ReadSpelled(ts[i + 1..], q);
      var j := |ts| - |after|;
      var whole := Binary(op, lhs, rhs, None, None);
      assert after == ts[j..] && ts[i + 1..][..j - (i + 1)] == ts[i + 1..j];
      SpellsNonEmpty(ts[i + 1..j], rhs, q);
      assert ts[..j][..i] == ts[..i] && ts[..j][i + 1..] == ts[i + 1..j];
      var r := Precedence(Peek(after));
      SpellsBinary(ts[..j], whole, if r > m then r - 1 else m, i);
      OperatorsSpelled(ts, j, m, whole);
    }
  }

  /** The parser decides the relation: next to a token that is neither a tighter operator nor an opening
      parenthesis, tokens are read as e, up to that token, if and only if they spell e. */
  lemma ReadIffSpells(ts: Tokens, e: Expr, m: nat, rest: Tokens)
    requires Precedence(Peek(rest)) <= m && Peek(rest) != LParen
    ensures ParseExpression(ts + rest, m) == Ok((e, rest)) <==> Spells(ts, e, m)
  {
    if ParseExpression(ts + rest, m) == Ok((e, rest)) {
      ReadSpelled(ts + rest, m);
      assert (ts + rest)[..|ts|] == ts;
    }
    if Spells(ts, e, m) {
      SpellingRead(ts, e, m, m, rest);
    }
  }

  // ----- the levels of binding -----

  /** Tighter operators later. */
  const TIERS: seq<set<TokenKind>> := [
    {TokenKind.Equals, TokenKind.NotEquals},
    {TokenKind.LessThan, TokenKind.GreaterThan, TokenKind.LessThanEquals, TokenKind.GreaterThanEquals},
    {TokenKind.Plus, TokenKind.Minus},
    {TokenKind.Asterisk, TokenKind.ForwardSlash}
  ]

  /** Three names and two operators: the right pair groups first only if its operator is in a later
      tier; operators of one tier group to the left. */
  lemma ThreeOperands(a: string, b: string, c: string, s: nat, t: nat, op1: Token, op2: Token, rest: Tokens)
    requires s < |TIERS| && t < |TIERS| && op1.kind in TIERS[s] && op2.kind in TIERS[t]
    requires Precedence(Peek(rest)) == 0 && Peek(rest) != LParen
    ensures var x, y, z := Var(a, None), Var(b, None), Var(c, None);
            var ts := [Token(Identifier, a), op1, Token(Identifier, b), op2, Token(Identifier, c)];
            var tree := if t > s then Binary(op1.kind, x, Binary(op2.kind, y, z, None, None), None, None)
                        else Binary(op2.kind, Binary(op1.kind, x, y, None, None), z, None, None);
            ParseExpression(ts + rest, 0) == Ok((tree, rest))
  {
    var x, y, z := Var(a, None), Var(b, None), Var(c, None);
    var ta, tb, tc := Token(Identifier, a), Token(Identifier, b), Token(Identifier, c);
    var ts := [ta, op1, tb, op2, tc];
    assert Precedence(op1.kind) == s + 1 && Precedence(op2.kind) == t + 1;
    if t > s {
      var right := Binary(op2.kind, y, z, None, None);
      assert ts[2..][..1] == [tb] && ts[2..][2..] == [tc];
      SpellsBinary(ts[2..], right, s + 1, 1);
      assert ts[..1] == [ta];
      SpellsBinary(ts, Binary(op1.kind, x, right, None, None), 0, 1);
      ReadIffSpells(ts, Binary(op1.kind, x, right, None, None), 0, rest);
    } else {
      var left := Binary(op1.kind, x, y, None, None);
      assert ts[..3][..1] == [ta] && ts[..3][2..] == [tb];
      SpellsBinary(ts[..3], left, t, 1);
      assert ts[4..] == [tc];
      SpellsBinary(ts, Binary(op2.kind, left, z, None, None), 0, 3);
      ReadIffSpells(ts, Binary(op2.kind, left, z, None, None), 0, rest);
    }
  }
}
