/** Which expressions the checker accepts, and at what type.  This depends on the leaves of the arithmetic
    alone: a comparison counts as a leaf of type Bool, and compares operands that settle to one type. */
module Settling {
  import opened Results
  import opened Syntax
  import opened Checking
  import opened Typing
  import opened Inference

  /** What the names in scope stand for, and which float literals fit which type. */
  datatype View = View(names: Gamma, floatFits: (string, TypeId) -> bool)

  function ViewOf(c: Context): View {
    View(GammaOf(c), c.floatFits)
  }

  predicate IsComparison(e: Expr) {
    e.Binary? && IsBoolOperator(e.op)
  }

  /** The operands of the arithmetic, without annotations. */
  function Leaves(e: Expr): multiset<Expr> {
    if e.Binary? && !IsBoolOperator(e.op) then Leaves(e.lhs) + Leaves(e.rhs) else multiset{Erase(e)}
  }

  /** A leaf with a type of its own. */
  ghost predicate HasTypedLeaf(leaves: multiset<Expr>) {
    exists leaf | leaf in leaves :: leaf.Var? || leaf.Call? || leaf.Binary?
  }

  ghost predicate HasFloatLeaf(leaves: multiset<Expr>) {
    exists leaf | leaf in leaves :: leaf.FloatLit?
  }

  /** e can be an expression of type t: its literals fit t, its names have that type, and comparisons are Bool,
      if their operands agree on some type. */
  ghost predicate Fits(v: View, e: Expr, t: TypeId)
    decreases Size(e), 0
  {
    match e
    case IntLit(value, _) => (IsInteger(t) || IsFloat(t)) && IntFits(value, t)
    case FloatLit(digits, _) => IsFloat(t) && v.floatFits(digits, t)
    case Var(name, _) => name in v.names.vars && v.names.vars[name] == t
    case Call(name) => name in v.names.functions && v.names.functions[name] == t
    case Binary(op, lhs, rhs, _, _) =>
      if IsBoolOperator(op) then t.Bool? && Compares(v, lhs, rhs) else Fits(v, lhs, t) && Fits(v, rhs, t)
  }

  ghost predicate Compares(v: View, lhs: Expr, rhs: Expr)
    decreases Size(lhs) + Size(rhs), 2
  {
    exists t :: Agree(v, lhs, rhs, t)
  }

  /** Both operands fit t, and t is not arbitrary: a name or a comparison has it, or it is the default. */
  ghost predicate Agree(v: View, lhs: Expr, rhs: Expr, t: TypeId)
    decreases Size(lhs) + Size(rhs), 1
  {
    && !IsLiteral(t) && Fits(v, lhs, t) && Fits(v, rhs, t)
    && Determined(Leaves(lhs) + Leaves(rhs), t)
  }

  ghost predicate Determined(leaves: multiset<Expr>, t: TypeId) {
    HasTypedLeaf(leaves) || t == if HasFloatLeaf(leaves) then Float64 else Int32
  }

  ghost predicate AllFit(v: View, leaves: multiset<Expr>, t: TypeId) {
    forall leaf | leaf in leaves :: Fits(v, leaf, t)
  }

  /** What arithmetic over these leaves settles to: the type of its typed leaves, or else the default, a float if
      there is a float literal; every leaf has to fit. */
  ghost predicate Settles(v: View, leaves: multiset<Expr>, t: TypeId) {
    !IsLiteral(t) && AllFit(v, leaves, t) && Determined(leaves, t)
  }

  /** What a type pushed down on these leaves asks of them: it does not reach the comparisons. */
  ghost predicate AllPass(v: View, leaves: multiset<Expr>, t: TypeId) {
    forall leaf | leaf in leaves :: Fits(v, leaf, if leaf.Binary? then TypeId.Bool else t)
  }

  // ----- leaves -----

  lemma {:induction false} LeavesErased(e: Expr)
    ensures Leaves(Erase(e)) == Leaves(e)
    ensures LiteralOnly(e) ==> forall leaf | leaf in Leaves(e) :: leaf.IntLit? || leaf.FloatLit?
    ensures forall leaf | leaf in Leaves(e) :: leaf.Binary? ==> IsComparison(leaf)
    ensures exists leaf :: leaf in Leaves(e)
  {
    if e.Binary? && !IsBoolOperator(e.op) {
      LeavesErased(e.lhs);
      LeavesErased(e.rhs);
      var leaf :| leaf in Leaves(e.lhs);
      assert leaf in Leaves(e);
    } else {
      ExposureErased(e);
      assert Erase(e) in Leaves(e);
    }
  }

  lemma SameLeaves(e: Expr, f: Expr)
    requires Erase(e) == Erase(f)
    ensures Leaves(e) == Leaves(f)
  {
    LeavesErased(e);
    LeavesErased(f);
  }

  lemma {:induction false} FitsErased(v: View, e: Expr, t: TypeId)
    ensures Fits(v, Erase(e), t) == Fits(v, e, t)
    decreases e
  {
    if e.Binary? {
      forall u
        ensures Fits(v, Erase(e.lhs), u) == Fits(v, e.lhs, u) && Fits(v, Erase(e.rhs), u) == Fits(v, e.rhs, u)
      {
        FitsErased(v, e.lhs, u);
        FitsErased(v, e.rhs, u);
      }
      if IsBoolOperator(e.op) {
        ComparesErased(v, e.lhs, e.rhs);
      }
    }
  }

  lemma ComparesErased(v: View, lhs: Expr, rhs: Expr)
    requires forall t :: Fits(v, Erase(lhs), t) == Fits(v, lhs, t) && Fits(v, Erase(rhs), t) == Fits(v, rhs, t)
    ensures Compares(v, Erase(lhs), Erase(rhs)) == Compares(v, lhs, rhs)
  {
    hide Determined, Leaves, Erase;
    LeavesErased(lhs);
    LeavesErased(rhs);
    if t :| Agree(v, lhs, rhs, t) {
      assert Agree(v, Erase(lhs), Erase(rhs), t);
    }
    if t :| Agree(v, Erase(lhs), Erase(rhs), t) {
      assert Agree(v, lhs, rhs, t);
    }
  }

  lemma BothIn(a: multiset<Expr>, b: multiset<Expr>)
    ensures forall leaf :: leaf in a + b <==> leaf in a || leaf in b
    ensures HasTypedLeaf(a + b) <==> HasTypedLeaf(a) || HasTypedLeaf(b)
    ensures HasFloatLeaf(a + b) <==> HasFloatLeaf(a) || HasFloatLeaf(b)
  {
    assert forall leaf :: leaf in a + b <==> leaf in a || leaf in b;
    assert forall leaf | leaf in a :: leaf in a + b;
    assert forall leaf | leaf in b :: leaf in a + b;
  }

  lemma FitsBoth(v: View, a: multiset<Expr>, b: multiset<Expr>, t: TypeId)
    ensures AllFit(v, a + b, t) <==> AllFit(v, a, t) && AllFit(v, b, t)
    ensures AllPass(v, a + b, t) <==> AllPass(v, a, t) && AllPass(v, b, t)
  {
    hide Fits;
    BothIn(a, b);
  }

  /** An expression fits a type exactly when all its leaves do. */
  lemma {:induction false} FitsIffLeaves(v: View, e: Expr, t: TypeId)
    ensures Fits(v, e, t) <==> AllFit(v, Leaves(e), t)
    decreases e
  {
    hide AllFit;
    if e.Binary? && !IsBoolOperator(e.op) {
      FitsIffLeaves(v, e.lhs, t);
      FitsIffLeaves(v, e.rhs, t);
      FitsBoth(v, Leaves(e.lhs), Leaves(e.rhs), t);
    } else {
      OneLeaf(v, e, t);
    }
  }

  lemma OneLeaf(v: View, e: Expr, t: TypeId)
    requires e.Binary? ==> IsBoolOperator(e.op)
    ensures AllFit(v, Leaves(e), t) <==> Fits(v, e, t)
    ensures AllPass(v, Leaves(e), t) <==> Fits(v, e, if e.Binary? then TypeId.Bool else t)
  {
    hide Fits;
    assert forall leaf :: leaf in Leaves(e) <==> leaf == Erase(e);
    FitsErased(v, e, t);
    FitsErased(v, e, TypeId.Bool);
  }

  lemma AgreeIffSettles(v: View, lhs: Expr, rhs: Expr, t: TypeId)
    ensures Agree(v, lhs, rhs, t) <==> Settles(v, Leaves(lhs) + Leaves(rhs), t)
  {
    FitsIffLeaves(v, lhs, t);
    FitsIffLeaves(v, rhs, t);
    FitsBoth(v, Leaves(lhs), Leaves(rhs), t);
  }

  lemma ComparesIffSettles(v: View, lhs: Expr, rhs: Expr)
    ensures Compares(v, lhs, rhs) <==> exists t :: Settles(v, Leaves(lhs) + Leaves(rhs), t)
  {
    hide Settles, Fits;
    if t :| Agree(v, lhs, rhs, t) {
      AgreeIffSettles(v, lhs, rhs, t);
    }
    if t :| Settles(v, Leaves(lhs) + Leaves(rhs), t) {
      AgreeIffSettles(v, lhs, rhs, t);
    }
  }

  /** Typed leaves admit one type only. */
  lemma OneType(v: View, leaves: multiset<Expr>, t: TypeId)
    requires HasTypedLeaf(leaves) && AllFit(v, leaves, t)
    requires forall leaf | leaf in leaves :: leaf.Binary? ==> IsComparison(leaf)
    ensures forall u :: AllFit(v, leaves, u) ==> u == t
  {
    var leaf :| leaf in leaves && (leaf.Var? || leaf.Call? || leaf.Binary?);
    forall u | AllFit(v, leaves, u)
      ensures u == t
    {
      assert Fits(v, leaf, u) && Fits(v, leaf, t);
    }
  }

  // ----- inference -----

  /** Pushing a type down on literals succeeds exactly when all fit it. */
  lemma {:induction false} LiteralsFit(c: Context, e: Expr, t: TypeId)
    requires LiteralOnly(e)
    ensures CheckExpr(c, e, t).Ok? <==> AllFit(ViewOf(c), Leaves(e), t)
    decreases e
  {
    hide AllFit;
    if e.Binary? {
      LiteralsFit(c, e.lhs, t);
      LiteralsFit(c, e.rhs, t);
      FitsBoth(ViewOf(c), Leaves(e.lhs), Leaves(e.rhs), t);
    } else {
      OneLeaf(ViewOf(c), e, t);
    }
  }

  ghost predicate FitsNone(v: View, leaves: multiset<Expr>) {
    forall t :: IsLiteral(t) || !AllFit(v, leaves, t)
  }

  /** What inference says about the leaves. */
  ghost predicate Summary(c: Context, leaves: multiset<Expr>, r: Result<(TypeId, Expr)>) {
    if r.Err? then HasTypedLeaf(leaves) && FitsNone(ViewOf(c), leaves)
    else if IsLiteral(r.value.0) then
      !HasTypedLeaf(leaves) && (r.value.0.LiteralFloat? <==> HasFloatLeaf(leaves))
    else HasTypedLeaf(leaves) && AllFit(ViewOf(c), leaves, r.value.0)
  }

  lemma {:induction false} InferSummary(c: Context, e: Expr)
    requires GammaOk(GammaOf(c))
    ensures Summary(c, Leaves(e), InferExpr(c, e))
    decreases e
  {
    hide AllFit, InferExpr, CheckExpr, HasTypedLeaf, HasFloatLeaf;
    if e.Binary? {
      InferSummary(c, e.lhs);
      InferSummary(c, e.rhs);
      PairSummary(c, e);
      if IsBoolOperator(e.op) {
        ComparisonSummary(c, e);
        var i := InferExpr(c, e);
        assert i.Ok? ==> Settles(ViewOf(c), Leaves(e.lhs) + Leaves(e.rhs), i.value.1.operand.value);
        ComparisonLeaf(c, e);
      } else {
        BinaryInferred(c, e);
      }
    } else {
      LeafSummary(c, e);
    }
  }

  lemma LeafSummary(c: Context, e: Expr)
    requires GammaOk(GammaOf(c)) && !e.Binary?
    ensures Summary(c, Leaves(e), InferExpr(c, e))
  {
    assert forall leaf :: leaf in Leaves(e) <==> leaf == Erase(e);
    assert Erase(e) in Leaves(e);
    if e.Var? {
      FindIsFlat(c.scopes, e.name);
    }
  }

  /** Both operands of a node inferred, and their common type found. */
  function InferPair(c: Context, e: Expr): Result<(TypeId, Expr, Expr)>
    requires e.Binary?
  {
    var l :- InferExpr(c, e.lhs);
    var r :- InferExpr(c, e.rhs);
    ResolvePair(c, l, r)
  }

  /** The pair has no type that all leaves could have, or the only one, or is still literal. */
  ghost predicate PairSummed(c: Context, leaves: multiset<Expr>, p: Result<(TypeId, Expr, Expr)>) {
    if p.Err? then HasTypedLeaf(leaves) && FitsNone(ViewOf(c), leaves)
    else if IsLiteral(p.value.0) then
      !HasTypedLeaf(leaves) && (p.value.0.LiteralFloat? <==> HasFloatLeaf(leaves))
    else HasTypedLeaf(leaves) && AllFit(ViewOf(c), leaves, p.value.0)
  }

  lemma PairSummary(c: Context, e: Expr)
    requires GammaOk(GammaOf(c)) && e.Binary?
    requires Summary(c, Leaves(e.lhs), InferExpr(c, e.lhs)) && Summary(c, Leaves(e.rhs), InferExpr(c, e.rhs))
    ensures PairSummed(c, Leaves(e.lhs) + Leaves(e.rhs), InferPair(c, e))
  {
    hide AllFit, HasTypedLeaf, HasFloatLeaf, CheckExpr, InferExpr, HasType, Concrete, ResolvePair, Leaves;
    var a, b := Leaves(e.lhs), Leaves(e.rhs);
    var l, r := InferExpr(c, e.lhs), InferExpr(c, e.rhs);
    BothIn(a, b);
    if l.Err? || r.Err? {
      FitsNoneEither(ViewOf(c), a, b);
    } else {
      InferSound(c, e.lhs);
      InferSound(c, e.rhs);
      SameLeaves(e.lhs, l.value.1);
      SameLeaves(e.rhs, r.value.1);
      if IsLiteral(l.value.0) && IsLiteral(r.value.0) {
        TwoLiterals(c, l.value, r.value);
      } else {
        ConcretePair(c, l.value, r.value, a, b);
      }
    }
  }

  lemma FitsNoneEither(v: View, a: multiset<Expr>, b: multiset<Expr>)
    requires FitsNone(v, a) || FitsNone(v, b)
    ensures FitsNone(v, a + b)
  {
    forall t
      ensures IsLiteral(t) || !AllFit(v, a + b, t)
    {
      FitsBoth(v, a, b, t);
    }
  }

  lemma TwoLiterals(c: Context, l: (TypeId, Expr), r: (TypeId, Expr))
    requires IsLiteral(l.0) && IsLiteral(r.0)
    ensures ResolvePair(c, l, r).Ok?
    ensures ResolvePair(c, l, r).value.0 == if l.0.LiteralFloat? || r.0.LiteralFloat? then LiteralFloat else LiteralInt
  {
  }

  /** At most one side is literal: the pair resolves to t exactly when all leaves of both sides fit t. */
  lemma ConcretePair(c: Context, l: (TypeId, Expr), r: (TypeId, Expr), a: multiset<Expr>, b: multiset<Expr>)
    requires !IsLiteral(l.0) || !IsLiteral(r.0)
    requires Summary(c, a, Ok(l)) && Summary(c, b, Ok(r))
    requires Leaves(l.1) == a && Leaves(r.1) == b
    requires IsLiteral(l.0) ==> LiteralOnly(l.1)
    requires IsLiteral(r.0) ==> LiteralOnly(r.1)
    ensures var q := ResolvePair(c, l, r);
            if q.Ok? then !IsLiteral(q.value.0) && AllFit(ViewOf(c), a + b, q.value.0)
            else FitsNone(ViewOf(c), a + b)
  {
    hide Fits;
    var v := ViewOf(c);
    LeavesErased(l.1);
    LeavesErased(r.1);
    forall u
      ensures AllFit(v, a + b, u) <==> AllFit(v, a, u) && AllFit(v, b, u)
    {
      FitsBoth(v, a, b, u);
    }
    if IsLiteral(l.0) {
      LiteralPair(c, l, r, a, b);
    } else if IsLiteral(r.0) {
      LiteralPair(c, r, l, b, a);
    } else {
      OneType(v, a, l.0);
      OneType(v, b, r.0);
    }
  }

  lemma LiteralPair(c: Context, l: (TypeId, Expr), r: (TypeId, Expr), a: multiset<Expr>, b: multiset<Expr>)
    requires IsLiteral(l.0) && !IsLiteral(r.0) && LiteralOnly(l.1) && Leaves(l.1) == a && Leaves(r.1) == b
    requires Summary(c, a, Ok(l)) && Summary(c, b, Ok(r))
    ensures (Promotion(l.0, r.0).Some? && CheckExpr(c, l.1, r.0).Ok?) <==> AllFit(ViewOf(c), a, r.0)
    ensures Promotion(l.0, r.0) == Promotion(r.0, l.0)
    ensures Promotion(l.0, r.0).Some? ==> Promotion(l.0, r.0) == Some(r.0)
    ensures forall t :: AllFit(ViewOf(c), b, t) ==> t == r.0
  {
    var v := ViewOf(c);
    LeavesErased(l.1);
    LeavesErased(r.1);
    LiteralsFit(c, l.1, r.0);
    OneType(v, b, r.0);
    if AllFit(v, a, r.0) {
      if l.0.LiteralFloat? {
        var leaf :| leaf in a && leaf.FloatLit?;
        assert Fits(v, leaf, r.0);
      } else {
        var leaf :| leaf in a;
        assert leaf.IntLit?;
        assert Fits(v, leaf, r.0);
      }
    }
  }

  /** A comparison is accepted exactly when both sides together settle to some type; that is then the type of its
      operands, which are checked against it, and the result is Bool.  For all five comparison operators. */
  lemma ComparisonSummary(c: Context, e: Expr)
    requires GammaOk(GammaOf(c)) && IsComparison(e)
    requires PairSummed(c, Leaves(e.lhs) + Leaves(e.rhs), InferPair(c, e))
    ensures var i := InferExpr(c, e);
            && (i.Err? ==> forall t :: !Settles(ViewOf(c), Leaves(e.lhs) + Leaves(e.rhs), t))
            && (i.Ok? ==>
                  i.value.0 == TypeId.Bool && i.value.1.Binary? && i.value.1.operand.Some?
                  && forall t :: Settles(ViewOf(c), Leaves(e.lhs) + Leaves(e.rhs), t)
                                 <==> t == i.value.1.operand.value)
  {
    hide AllFit, HasTypedLeaf, HasFloatLeaf, CheckExpr, InferExpr, ResolvePair, Leaves;
    BinaryInferred(c, e);
    var leaves := Leaves(e.lhs) + Leaves(e.rhs);
    var p := InferPair(c, e);
    ComparisonsOnly(e);
    if p.Ok? {
      if IsLiteral(p.value.0) {
        DefaultedPair(c, e);
      } else {
        OneType(ViewOf(c), leaves, p.value.0);
      }
    }
  }

  lemma ComparisonsOnly(e: Expr)
    requires e.Binary?
    ensures forall leaf | leaf in Leaves(e.lhs) + Leaves(e.rhs) :: leaf.Binary? ==> IsComparison(leaf)
  {
    LeavesErased(e.lhs);
    LeavesErased(e.rhs);
    BothIn(Leaves(e.lhs), Leaves(e.rhs));
  }

  /** Literals on both sides of a comparison take the default if they all fit it. */
  lemma DefaultedPair(c: Context, e: Expr)
    requires GammaOk(GammaOf(c)) && IsComparison(e)
    requires InferPair(c, e).Ok? && IsLiteral(InferPair(c, e).value.0)
    ensures var p := InferPair(c, e).value;
            var q, t := FixOperands(c, e.op, p), LiteralDefault(p.0).value;
            && (q.Ok? <==> AllFit(ViewOf(c), Leaves(e.lhs) + Leaves(e.rhs), t))
            && (q.Ok? ==> q.value.0 == t)
  {
    hide AllFit, CheckExpr, InferExpr, Leaves;
    var p := InferPair(c, e).value;
    InferSound(c, e.lhs);
    InferSound(c, e.rhs);
    SameLeaves(e.lhs, p.1);
    SameLeaves(e.rhs, p.2);
    var t := LiteralDefault(p.0).value;
    LiteralsFit(c, p.1, t);
    LiteralsFit(c, p.2, t);
    FitsBoth(ViewOf(c), Leaves(e.lhs), Leaves(e.rhs), t);
  }

  lemma ComparisonLeaf(c: Context, e: Expr)
    requires GammaOk(GammaOf(c)) && IsComparison(e)
    requires InferExpr(c, e).Err? ==> forall t :: !Settles(ViewOf(c), Leaves(e.lhs) + Leaves(e.rhs), t)
    requires InferExpr(c, e).Ok? ==>
               && InferExpr(c, e).value.0 == TypeId.Bool
               && exists t :: Settles(ViewOf(c), Leaves(e.lhs) + Leaves(e.rhs), t)
    ensures Summary(c, Leaves(e), InferExpr(c, e))
  {
    hide InferExpr, Settles, Compares, Agree;
    var v := ViewOf(c);
    ComparesIffSettles(v, e.lhs, e.rhs);
    forall t
      ensures AllFit(v, Leaves(e), t) <==> t.Bool? && Compares(v, e.lhs, e.rhs)
    {
      OneLeaf(v, e, t);
    }
    assert Erase(e) in Leaves(e);
  }

  // ----- acceptance -----

  /** A comparison is accepted, with operands of type t, if and only if its two sides together settle to t: a type
      that every name and comparison in them has and every literal fits, or the default if there are only
      literals.  It is then a Bool over its sides checked against t.  Which of the five operators it is does not
      matter. */
  lemma ComparisonIffSettles(c: Context, e: Expr, t: TypeId)
    requires GammaOk(GammaOf(c)) && IsComparison(e)
    ensures Settles(ViewOf(c), Leaves(e.lhs) + Leaves(e.rhs), t) <==>
            && CheckExpr(c, e.lhs, t).Ok? && CheckExpr(c, e.rhs, t).Ok?
            && InferExpr(c, e)
               == Ok((TypeId.Bool, Binary(e.op, CheckExpr(c, e.lhs, t).value, CheckExpr(c, e.rhs, t).value,
                                          Some(t), Some(TypeId.Bool))))
    ensures InferExpr(c, e).Ok? <==> exists u :: Settles(ViewOf(c), Leaves(e.lhs) + Leaves(e.rhs), u)
  {
    hide CheckExpr, InferExpr, Settles, Leaves;
    InferSummary(c, e.lhs);
    InferSummary(c, e.rhs);
    PairSummary(c, e);
    ComparisonSummary(c, e);
    if InferExpr(c, e).Ok? {
      ComparisonTree(c, e);
      assert Settles(ViewOf(c), Leaves(e.lhs) + Leaves(e.rhs), InferExpr(c, e).value.1.operand.value);
    }
  }

  /** The sides of an inferred comparison are as checked against its operand type. */
  lemma ComparisonTree(c: Context, e: Expr)
    requires GammaOk(GammaOf(c)) && IsComparison(e) && InferExpr(c, e).Ok?
    ensures var e' := InferExpr(c, e).value.1;
            && e'.Binary? && e'.operand.Some?
            && var t := e'.operand.value;
            && CheckExpr(c, e.lhs, t).Ok? && CheckExpr(c, e.rhs, t).Ok?
            && e' == Binary(e.op, CheckExpr(c, e.lhs, t).value, CheckExpr(c, e.rhs, t).value,
                            Some(t), Some(TypeId.Bool))
  {
    hide CheckExpr, InferExpr;
    BinaryInferred(c, e);
    var l, r := InferExpr(c, e.lhs).value, InferExpr(c, e.rhs).value;
    var t := InferExpr(c, e).value.1.operand.value;
    InferSound(c, e.lhs);
    InferSound(c, e.rhs);
    if IsLiteral(l.0) {
      CheckIgnoresAnnotations(c, e.lhs, l.1, t);
    } else {
      CheckReproducesInfer(c, e.lhs);
    }
    if IsLiteral(r.0) {
      CheckIgnoresAnnotations(c, e.rhs, r.1, t);
    } else {
      CheckReproducesInfer(c, e.rhs);
    }
  }

  /** Checking against a type succeeds exactly when every leaf passes: names and literals fit the type, and
      comparisons are accepted for themselves. */
  lemma {:induction false} CheckIffAllPass(c: Context, e: Expr, t: TypeId)
    requires GammaOk(GammaOf(c))
    ensures CheckExpr(c, e, t).Ok? <==> AllPass(ViewOf(c), Leaves(e), t)
    decreases e
  {
    hide InferExpr, AllPass, Fits;
    var v := ViewOf(c);
    if e.Binary? && !IsBoolOperator(e.op) {
      CheckIffAllPass(c, e.lhs, t);
      CheckIffAllPass(c, e.rhs, t);
      FitsBoth(v, Leaves(e.lhs), Leaves(e.rhs), t);
    } else {
      OneLeaf(v, e, t);
      LeafPasses(c, e, t);
    }
  }

  lemma LeafPasses(c: Context, e: Expr, t: TypeId)
    requires GammaOk(GammaOf(c)) && (e.Binary? ==> IsBoolOperator(e.op))
    ensures CheckExpr(c, e, t).Ok? <==> Fits(ViewOf(c), e, if e.Binary? then TypeId.Bool else t)
  {
    hide InferExpr, Settles;
    var v := ViewOf(c);
    if e.Var? {
      FindIsFlat(c.scopes, e.name);
    }
    if e.Binary? {
      ComparesIffSettles(v, e.lhs, e.rhs);
      ComparisonIffSettles(c, e, t);
    }
  }

  /** For a clean expression, passing is fitting. */
  lemma CheckIffFits(c: Context, e: Expr, t: TypeId)
    requires GammaOk(GammaOf(c)) && Clean(e, t)
    ensures CheckExpr(c, e, t).Ok? <==> AllFit(ViewOf(c), Leaves(e), t)
  {
    hide CheckExpr, Fits;
    CheckIffAllPass(c, e, t);
    if !t.Bool? {
      NothingExposed(e);
    }
  }

  lemma {:induction false} NothingExposed(e: Expr)
    requires !ExposesComparison(e)
    ensures forall leaf | leaf in Leaves(e) :: !leaf.Binary?
  {
    if e.Binary? {
      NothingExposed(e.lhs);
      NothingExposed(e.rhs);
      BothIn(Leaves(e.lhs), Leaves(e.rhs));
    }
  }

  /** An expression on its own is accepted as a t exactly when its multiset of leaves settles to t: neither
      grouping nor order nor the operators matter. */
  lemma TopLevelIffSettles(c: Context, e: Expr, t: TypeId)
    requires GammaOk(GammaOf(c))
    ensures (InferTopLevel(c, e).Ok? && InferTopLevel(c, e).value.0 == t) <==> Settles(ViewOf(c), Leaves(e), t)
  {
    hide AllFit, HasTypedLeaf, HasFloatLeaf, CheckExpr, InferExpr, HasType, Concrete, Leaves;
    var leaves := Leaves(e);
    InferSummary(c, e);
    LeavesErased(e);
    var i := InferExpr(c, e);
    if i.Ok? {
      InferSound(c, e);
      if IsLiteral(i.value.0) {
        SameLeaves(e, i.value.1);
        LiteralsFit(c, i.value.1, LiteralDefault(i.value.0).value);
      } else {
        OneType(ViewOf(c), leaves, i.value.0);
      }
    }
  }

  lemma OrderIrrelevant(c: Context, e: Expr, f: Expr)
    requires GammaOk(GammaOf(c)) && Leaves(e) == Leaves(f)
    ensures InferTopLevel(c, e).Ok? <==> InferTopLevel(c, f).Ok?
    ensures InferTopLevel(c, e).Ok? ==> InferTopLevel(c, f).value.0 == InferTopLevel(c, e).value.0
  {
    hide InferTopLevel, Settles, Leaves;
    if InferTopLevel(c, e).Ok? {
      TopLevelIffSettles(c, e, InferTopLevel(c, e).value.0);
      TopLevelIffSettles(c, f, InferTopLevel(c, e).value.0);
    }
    if InferTopLevel(c, f).Ok? {
      TopLevelIffSettles(c, e, InferTopLevel(c, f).value.0);
      TopLevelIffSettles(c, f, InferTopLevel(c, f).value.0);
    }
  }
}
