/** A declarative typing relation on annotated expressions, and the checker's soundness against it. */
module Typing {
  import opened Results
  import opened Syntax
  import opened Checking

  /** What the names in scope stand for. */
  datatype Gamma = Gamma(vars: map<string, TypeId>, functions: map<string, TypeId>)

  /** All scopes at once; an outer scope wins over an inner one. */
  function Flat(scopes: Scopes): map<string, TypeId>
    decreases scopes
  {
    if scopes == [] then map[] else Flat(scopes[1..]) + scopes[0]
  }

  function GammaOf(c: Context): Gamma {
    Gamma(Flat(c.scopes), c.functions)
  }

  lemma {:induction false} FindIsFlat(scopes: Scopes, x: string)
    ensures Find(scopes, x) == if x in Flat(scopes) then Some(Flat(scopes)[x]) else None
    decreases scopes
  {
    if scopes != [] {
      FindIsFlat(scopes[1..], x);
    }
  }

  ghost predicate GammaOk(g: Gamma) {
    && (forall x | x in g.vars :: !IsLiteral(g.vars[x]))
    && (forall f | f in g.functions :: !IsLiteral(g.functions[f]))
  }

  /** e, as annotated, is an expression of type t.  Both operands of a node have its operand type; an
      arithmetic node has that type too, a comparison is Bool. */
  predicate HasType(g: Gamma, e: Expr, t: TypeId) {
    match e
    case IntLit(value, resolved) => resolved == Some(t) && IntFits(value, t)
    case FloatLit(_, resolved) => resolved == Some(t) && IsFloat(t)
    case Var(name, resolved) => resolved == Some(t) && name in g.vars && g.vars[name] == t
    case Call(name) => name in g.functions && g.functions[name] == t
    case Binary(op, lhs, rhs, operand, resolved) =>
      && resolved == Some(t) && operand.Some? && !IsLiteral(operand.value)
      && HasType(g, lhs, operand.value) && HasType(g, rhs, operand.value)
      && t == (if IsBoolOperator(op) then TypeId.Bool else operand.value)
  }

  /** No node is left without a type or with a literal type, and int literals fit their type. */
  predicate Concrete(e: Expr) {
    match e
    case IntLit(value, resolved) => resolved.Some? && !IsLiteral(resolved.value) && IntFits(value, resolved.value)
    case FloatLit(_, resolved) => resolved.Some? && IsFloat(resolved.value)
    case Var(_, resolved) => resolved.Some? && !IsLiteral(resolved.value)
    case Call(_) => true
    case Binary(_, lhs, rhs, operand, resolved) =>
      && operand.Some? && !IsLiteral(operand.value) && resolved.Some? && !IsLiteral(resolved.value)
      && Concrete(lhs) && Concrete(rhs)
  }

  /** The tree as the parser built it. */
  function Erase(e: Expr): Expr {
    match e
    case IntLit(value, _) => IntLit(value, None)
    case FloatLit(digits, _) => FloatLit(digits, None)
    case Var(name, _) => Var(name, None)
    case Call(_) => e
    case Binary(op, lhs, rhs, _, _) => Binary(op, Erase(lhs), Erase(rhs), None, None)
  }

  /** Arithmetic over literals only. */
  predicate LiteralOnly(e: Expr) {
    match e
    case IntLit(_, _) => true
    case FloatLit(_, _) => true
    case Binary(op, lhs, rhs, _, _) => !IsBoolOperator(op) && LiteralOnly(lhs) && LiteralOnly(rhs)
    case _ => false
  }

  /** A comparison that an expected type would reach, going down through arithmetic only. */
  predicate ExposesComparison(e: Expr) {
    e.Binary? && (IsBoolOperator(e.op) || ExposesComparison(e.lhs) || ExposesComparison(e.rhs))
  }

  /** The guard the checker lacks: comparisons are expected to be Bool. */
  predicate Clean(e: Expr, t: TypeId) {
    t.Bool? || !ExposesComparison(e)
  }

  lemma {:induction false} ExposureErased(e: Expr)
    ensures ExposesComparison(Erase(e)) == ExposesComparison(e)
    ensures LiteralOnly(e) ==> !ExposesComparison(e)
    ensures LiteralOnly(Erase(e)) == LiteralOnly(e)
    ensures Erase(Erase(e)) == Erase(e)
  {
    if e.Binary? {
      ExposureErased(e.lhs);
      ExposureErased(e.rhs);
    }
  }

  /** Inference: a concrete result is a sound typing, whatever the expression; a literal result means
      arithmetic over literals, still to be settled. */
  lemma {:induction false} InferSound(c: Context, e: Expr)
    requires GammaOk(GammaOf(c)) && InferExpr(c, e).Ok?
    ensures var (t, e') := InferExpr(c, e).value;
            && Erase(e') == Erase(e)
            && (if IsLiteral(t) then LiteralOnly(e') else Concrete(e') && HasType(GammaOf(c), e', t))
    decreases Size(e), 0
  {
    match e
    case Var(name, _) => FindIsFlat(c.scopes, name);
    case Binary(op, lhs, rhs, _, _) =>
      var l, r := InferExpr(c, lhs).value, InferExpr(c, rhs).value;
      InferSound(c, lhs);
      InferSound(c, rhs);
      PairSound(c, l, r);
      var p := ResolvePair(c, l, r).value;
      if IsBoolOperator(op) && IsLiteral(p.0) {
        LiteralCheckSound(c, p.1, LiteralDefault(p.0).value);
        LiteralCheckSound(c, p.2, LiteralDefault(p.0).value);
      }
    case _ =>
  }

  lemma {:induction false} LiteralCheckSound(c: Context, e: Expr, t: TypeId)
    requires GammaOk(GammaOf(c)) && LiteralOnly(e) && !IsLiteral(t) && CheckExpr(c, e, t).Ok?
    ensures var e' := CheckExpr(c, e, t).value;
            Erase(e') == Erase(e) && Concrete(e') && HasType(GammaOf(c), e', t)
    decreases Size(e), 2
  {
    CheckSound(c, e, t);
    ExposureErased(e);
  }

  lemma {:induction false} PairSound(c: Context, l: (TypeId, Expr), r: (TypeId, Expr))
    requires GammaOk(GammaOf(c)) && ResolvePair(c, l, r).Ok?
    requires if IsLiteral(l.0) then LiteralOnly(l.1) else Concrete(l.1) && HasType(GammaOf(c), l.1, l.0)
    requires if IsLiteral(r.0) then LiteralOnly(r.1) else Concrete(r.1) && HasType(GammaOf(c), r.1, r.0)
    ensures var (t, l', r') := ResolvePair(c, l, r).value;
            && Erase(l') == Erase(l.1) && Erase(r') == Erase(r.1)
            && (if IsLiteral(t) then LiteralOnly(l') && LiteralOnly(r')
                else Concrete(l') && Concrete(r') && HasType(GammaOf(c), l', t) && HasType(GammaOf(c), r', t))
    decreases Size(l.1) + Size(r.1), 3
  {
    var t := ResolvePair(c, l, r).value.0;
    if IsLiteral(l.0) && !IsLiteral(t) {
      LiteralCheckSound(c, l.1, t);
    } else if IsLiteral(r.0) && !IsLiteral(t) {
      LiteralCheckSound(c, r.1, t);
    }
  }

  /** Checking against a concrete type leaves no literal type anywhere, and the result has the expected
      type exactly when no comparison met an expected type other than Bool. */
  lemma {:induction false} CheckSound(c: Context, e: Expr, t: TypeId)
    requires GammaOk(GammaOf(c)) && !IsLiteral(t) && CheckExpr(c, e, t).Ok?
    ensures var e' := CheckExpr(c, e, t).value;
            && Erase(e') == Erase(e) && Concrete(e')
            && (HasType(GammaOf(c), e', t) <==> Clean(e, t))
    decreases Size(e), 1
  {
    match e
    case Var(name, _) => FindIsFlat(c.scopes, name);
    case Binary(op, lhs, rhs, _, _) =>
      if IsBoolOperator(op) {
        InferSound(c, e);
      } else {
        CheckSound(c, lhs, t);
        CheckSound(c, rhs, t);
      }
    case _ =>
  }

  /** Settling literals by default is sound with no proviso. */
  lemma TopLevelSound(c: Context, e: Expr)
    requires GammaOk(GammaOf(c)) && InferTopLevel(c, e).Ok?
    ensures var (t, e') := InferTopLevel(c, e).value;
            Erase(e') == Erase(e) && !IsLiteral(t) && Concrete(e') && HasType(GammaOf(c), e', t)
  {
    InferSound(c, e);
    var i := InferExpr(c, e).value;
    if IsLiteral(i.0) {
      LiteralCheckSound(c, i.1, LiteralDefault(i.0).value);
    }
  }

  /** The guard is not idle: a comparison passes as an Int32. */
  lemma ComparisonPassesAsInt32(c: Context)
    ensures var e := Binary(TokenKind.Equals, IntLit(1, None), IntLit(2, None), None, None);
            CheckExpr(c, e, Int32).Ok? && !HasType(GammaOf(c), CheckExpr(c, e, Int32).value, Int32)
  {
    var e := Binary(TokenKind.Equals, IntLit(1, None), IntLit(2, None), None, None);
    var l, r := InferExpr(c, e.lhs).value, InferExpr(c, e.rhs).value;
    assert ResolvePair(c, l, r) == Ok((LiteralInt, l.1, r.1));
    assert CheckExpr(c, l.1, Int32) == Ok(IntLit(1, Some(Int32)));
    assert CheckExpr(c, r.1, Int32) == Ok(IntLit(2, Some(Int32)));
    assert FixOperands(c, e.op, (LiteralInt, l.1, r.1)) == Ok((Int32, IntLit(1, Some(Int32)), IntLit(2, Some(Int32))));
  }
}
