/** Checking and inference agree, and doing either again changes nothing. */
module Inference {
  import opened Results
  import opened Syntax
  import opened Checking
  import opened Typing

  /** Earlier annotations do not matter: trees with the same erasure check alike, and infer alike as
      soon as the type is concrete. */
  lemma {:induction false} CheckIgnoresAnnotations(c: Context, e: Expr, f: Expr, t: TypeId)
    requires Erase(e) == Erase(f)
    ensures CheckExpr(c, e, t) == CheckExpr(c, f, t)
    decreases Size(e), 1
  {
    if e.Binary? {
      if IsBoolOperator(e.op) {
        InferIgnoresAnnotations(c, e, f);
      } else {
        CheckIgnoresAnnotations(c, e.lhs, f.lhs, t);
        CheckIgnoresAnnotations(c, e.rhs, f.rhs, t);
      }
    }
  }

  /** Same type, same erasure, and the same tree unless the type is still literal. */
  ghost predicate SameInference(r: Result<(TypeId, Expr)>, s: Result<(TypeId, Expr)>) {
    if r.Err? then r == s
    else s.Ok? && r.value.0 == s.value.0 && Erase(r.value.1) == Erase(s.value.1)
         && (IsLiteral(r.value.0) || r == s)
  }

  lemma {:induction false} InferIgnoresAnnotations(c: Context, e: Expr, f: Expr)
    requires Erase(e) == Erase(f)
    ensures SameInference(InferExpr(c, e), InferExpr(c, f))
    decreases Size(e), 0
  {
    hide CheckExpr, Promotion, ResolvePair;
    if e.Binary? {
      InferIgnoresAnnotations(c, e.lhs, f.lhs);
      InferIgnoresAnnotations(c, e.rhs, f.rhs);
      var l1, l2 := InferExpr(c, e.lhs), InferExpr(c, f.lhs);
      var r1, r2 := InferExpr(c, e.rhs), InferExpr(c, f.rhs);
      if l1.Ok? && r1.Ok? {
        SameSizes(e.lhs, f.lhs);
        SameSizes(e.rhs, f.rhs);
        PairIgnoresAnnotations(c, l1.value, r1.value, l2.value, r2.value);
        var p1, p2 := ResolvePair(c, l1.value, r1.value), ResolvePair(c, l2.value, r2.value);
        if p1.Ok? && IsBoolOperator(e.op) && IsLiteral(p1.value.0) {
          var t := LiteralDefault(p1.value.0).value;
          CheckIgnoresAnnotations(c, p1.value.1, p2.value.1, t);
          CheckIgnoresAnnotations(c, p1.value.2, p2.value.2, t);
        }
      }
    }
  }

  lemma {:induction false} SameSizes(e: Expr, f: Expr)
    requires Erase(e) == Erase(f)
    ensures Size(e) == Size(f)
  {
    if e.Binary? {
      SameSizes(e.lhs, f.lhs);
      SameSizes(e.rhs, f.rhs);
    }
  }

  lemma {:induction false} PairIgnoresAnnotations(c: Context, l: (TypeId, Expr), r: (TypeId, Expr),
                                                  m: (TypeId, Expr), s: (TypeId, Expr))
    requires SameInference(Ok(l), Ok(m)) && SameInference(Ok(r), Ok(s))
    ensures var p, q := ResolvePair(c, l, r), ResolvePair(c, m, s);
            if p.Err? then p == q
            else q.Ok? && p.value.0 == q.value.0
                 && Erase(p.value.1) == Erase(q.value.1) && Erase(p.value.2) == Erase(q.value.2)
                 && (IsLiteral(p.value.0) || p == q)
    decreases Size(l.1) + Size(r.1), 3
  {
    if IsLiteral(l.0) || IsLiteral(r.0) {
      var found := Promotion(l.0, r.0);
      if found.Some? && !IsLiteral(found.value) {
        if IsLiteral(l.0) {
          CheckIgnoresAnnotations(c, l.1, m.1, found.value);
        } else {
          CheckIgnoresAnnotations(c, r.1, s.1, found.value);
        }
      }
    }
  }

  /** Checking against the type that inference finds succeeds, with the very same annotations. */
  lemma {:induction false} CheckReproducesInfer(c: Context, e: Expr)
    requires GammaOk(GammaOf(c)) && InferExpr(c, e).Ok? && !IsLiteral(InferExpr(c, e).value.0)
    ensures CheckExpr(c, e, InferExpr(c, e).value.0) == Ok(InferExpr(c, e).value.1)
    decreases Size(e)
  {
    match e
    case Binary(op, lhs, rhs, _, _) =>
      if !IsBoolOperator(op) {
        var l, r := InferExpr(c, lhs).value, InferExpr(c, rhs).value;
        var t := ResolvePair(c, l, r).value.0;
        InferSound(c, lhs);
        InferSound(c, rhs);
        if IsLiteral(l.0) {
          CheckIgnoresAnnotations(c, lhs, l.1, t);
        } else {
          CheckReproducesInfer(c, lhs);
        }
        if IsLiteral(r.0) {
          CheckIgnoresAnnotations(c, rhs, r.1, t);
        } else {
          CheckReproducesInfer(c, rhs);
        }
      }
    case _ =>
  }

  /** Top-level inference is stable: checking or inferring again, from the bare or from the annotated
      tree, changes nothing. */
  lemma TopLevelStable(c: Context, e: Expr)
    requires GammaOk(GammaOf(c)) && InferTopLevel(c, e).Ok?
    ensures var (t, e') := InferTopLevel(c, e).value;
            CheckExpr(c, e, t) == Ok(e') && CheckExpr(c, e', t) == Ok(e') && InferTopLevel(c, e') == Ok((t, e'))
  {
    var i := InferExpr(c, e).value;
    var (t, e') := InferTopLevel(c, e).value;
    InferSound(c, e);
    TopLevelSound(c, e);
    if IsLiteral(i.0) {
      CheckIgnoresAnnotations(c, e, i.1, t);
    } else {
      CheckReproducesInfer(c, e);
    }
    CheckIgnoresAnnotations(c, e, e', t);
    InferIgnoresAnnotations(c, e, e');
    if IsLiteral(i.0) {
      CheckIgnoresAnnotations(c, i.1, InferExpr(c, e').value.1, t);
    }
  }

  lemma CheckStable(c: Context, e: Expr, t: TypeId)
    requires GammaOk(GammaOf(c)) && !IsLiteral(t) && CheckExpr(c, e, t).Ok?
    ensures CheckExpr(c, CheckExpr(c, e, t).value, t) == CheckExpr(c, e, t)
  {
    CheckSound(c, e, t);
    CheckIgnoresAnnotations(c, e, CheckExpr(c, e, t).value, t);
  }

  /** A clean expression that checks against t infers to t, or to a literal type that t can absorb. */
  lemma {:induction false} InferFollowsCheck(c: Context, e: Expr, t: TypeId)
    requires GammaOk(GammaOf(c)) && !IsLiteral(t) && CheckExpr(c, e, t).Ok? && Clean(e, t)
    ensures InferExpr(c, e).Ok?
    ensures var i := InferExpr(c, e).value.0; i == t || (IsLiteral(i) && Promotion(i, t) == Some(t))
    decreases Size(e), 1
  {
    match e
    case Var(name, _) => FindIsFlat(c.scopes, name);
    case Binary(op, _, _, _, _) =>
      if !IsBoolOperator(op) {
        ArithmeticFollowsCheck(c, e, t);
      }
    case _ =>
  }

  lemma {:induction false} ArithmeticFollowsCheck(c: Context, e: Expr, t: TypeId)
    requires e.Binary? && !IsBoolOperator(e.op)
    requires GammaOk(GammaOf(c)) && !IsLiteral(t) && CheckExpr(c, e, t).Ok? && Clean(e, t)
    ensures InferExpr(c, e).Ok?
    ensures var i := InferExpr(c, e).value.0; i == t || (IsLiteral(i) && Promotion(i, t) == Some(t))
    decreases Size(e), 0
  {
    hide InferExpr, HasType, Erase;
    BinaryInferred(c, e);
    InferFollowsCheck(c, e.lhs, t);
    InferFollowsCheck(c, e.rhs, t);
    InferSound(c, e.lhs);
    InferSound(c, e.rhs);
    CheckIgnoresAnnotations(c, e.lhs, InferExpr(c, e.lhs).value.1, t);
    CheckIgnoresAnnotations(c, e.rhs, InferExpr(c, e.rhs).value.1, t);
  }
}
