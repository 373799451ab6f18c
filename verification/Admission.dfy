/** Which programs the checker accepts, said of the bare source: one flat map of the names in scope, whether a loop
    is around, and which expressions settle to what. */
module Admission {
  import opened Results
  import opened Syntax
  import opened Checking
  import opened Typing
  import opened Settling
  import opened Scoping

  function With(v: View, name: string, t: TypeId): View {
    v.(names := v.names.(vars := v.names.vars[name := t]))
  }

  /** An expression that stands on its own. */
  ghost predicate Stands(v: View, e: Expr) {
    exists t :: Settles(v, Leaves(e), t)
  }

  /** A declaration of a name new to all scopes, which gives it the type t: the one written, if the value passes
      as that, or else the one its value settles to. */
  ghost predicate Declares(v: View, s: Stmt, t: TypeId)
    requires s.DeclStmt?
  {
    && s.name !in v.names.vars
    && match s.typeName
       case Some(n) => IsBuiltinType(n) && t == TypeIdOf(n) && AllPass(v, Leaves(s.value), t)
       case None => Settles(v, Leaves(s.value), t)
  }

  ghost predicate Admits(v: View, s: Stmt, inLoop: bool)
    decreases s
  {
    match s
    case DeclStmt(_, _, _, _) => exists t :: Declares(v, s, t)
    case AssignStmt(name, value) => name in v.names.vars && AllPass(v, Leaves(value), v.names.vars[name])
    case ShowStmt(expr, _) => Stands(v, expr)
    case ReturnStmt(expr, _) => Stands(v, expr)
    case IfStmt(link) => AdmitsLink(v, link, inLoop)
    case LoopStmt(body) => AdmitsSeq(v, body, true)
    case BreakStmt => inLoop
    case CycleStmt => inLoop
  }

  /** Names declared in a branch are not in scope after it. */
  ghost predicate AdmitsLink(v: View, link: IfLink, inLoop: bool)
    decreases link
  {
    && AllPass(v, Leaves(link.cond), TypeId.Bool) && AdmitsSeq(v, link.thn, inLoop)
    && match link.els
       case NoElse => true
       case ElseBlock(stmts) => AdmitsSeq(v, stmts, inLoop)
       case ElseIfLink(next) => AdmitsLink(v, next, inLoop)
  }

  /** A name declared here is in scope for all that follows. */
  ghost predicate AdmitsSeq(v: View, stmts: seq<Stmt>, inLoop: bool)
    decreases stmts
  {
    if stmts == [] then true
    else if stmts[0].DeclStmt? then
      exists t :: Declares(v, stmts[0], t) && AdmitsSeq(With(v, stmts[0].name, t), stmts[1..], inLoop)
    else Admits(v, stmts[0], inLoop) && AdmitsSeq(v, stmts[1..], inLoop)
  }

  /** Every body sees no variable and the functions before it, which all give an Int32. */
  ghost predicate AdmitsFunctions(functions: map<string, TypeId>, floatFits: (string, TypeId) -> bool,
                                  fns: seq<FunctionDecl>)
    decreases fns
  {
    fns == []
    || (AdmitsSeq(View(Gamma(map[], functions), floatFits), fns[0].body, false)
        && AdmitsFunctions(functions[fns[0].name := Int32], floatFits, fns[1..]))
  }

  function ViewAt(st: State): View {
    ViewOf(st.Here())
  }

  // ----- statements -----

  /** A declaration is accepted, with declared type t, exactly when it declares its name as a t. */
  lemma DeclarationAdmitted(st: State, s: Stmt, t: TypeId)
    requires s.DeclStmt? && st.scopes != [] && GammaOk(GammaAt(st))
    ensures (CheckStmt(st, s).Ok? && CheckStmt(st, s).value.1.DeclStmt? && CheckStmt(st, s).value.1.declared == Some(t))
       <==> Declares(ViewAt(st), s, t)
  {
    hide InferTopLevel, CheckExpr, AllPass, Settles, Leaves, IsBuiltinType, TypeIdOf;
    FindIsFlat(st.scopes, s.name);
    if s.typeName.Some? {
      CheckIffAllPass(st.Here(), s.value, TypeIdOf(s.typeName.value));
    } else {
      TopLevelIffSettles(st.Here(), s.value, t);
    }
  }

  lemma StandsAlone(c: Context, e: Expr)
    requires GammaOk(GammaOf(c))
    ensures InferTopLevel(c, e).Ok? <==> Stands(ViewOf(c), e)
  {
    hide InferTopLevel, Settles;
    if InferTopLevel(c, e).Ok? {
      TopLevelIffSettles(c, e, InferTopLevel(c, e).value.0);
    }
    if t :| Settles(ViewOf(c), Leaves(e), t) {
      TopLevelIffSettles(c, e, t);
    }
  }

  /** The checker accepts a statement if and only if it is admitted. */
  lemma {:induction false} StmtAdmitted(st: State, s: Stmt)
    requires st.scopes != [] && GammaOk(GammaAt(st))
    ensures CheckStmt(st, s).Ok? <==> Admits(ViewAt(st), s, st.loopDepth > 0)
    decreases s
  {
    hide InferTopLevel, CheckExpr, AllPass, Stands, CheckLink, CheckBlock, AdmitsLink, AdmitsSeq;
    var c := st.Here();
    match s
    case DeclStmt(_, _, _, _) => DeclarationOk(st, s);
    case AssignStmt(name, value) =>
      FindIsFlat(st.scopes, name);
      if name in Flat(st.scopes) {
        CheckIffAllPass(c, value, Flat(st.scopes)[name]);
      }
    case ShowStmt(expr, _) => StandsAlone(c, expr);
    case ReturnStmt(expr, _) => StandsAlone(c, expr);
    case IfStmt(link) => LinkAdmitted(st, link);
    case LoopStmt(body) => BlockAdmitted(st.(loopDepth := st.loopDepth + 1), body);
    case BreakStmt =>
    case CycleStmt =>
  }

  lemma DeclarationOk(st: State, s: Stmt)
    requires s.DeclStmt? && st.scopes != [] && GammaOk(GammaAt(st))
    ensures CheckStmt(st, s).Ok? <==> exists t :: Declares(ViewAt(st), s, t)
  {
    hide Declares;
    if CheckStmt(st, s).Ok? {
      DeclarationAdmitted(st, s, CheckStmt(st, s).value.1.declared.value);
    }
    if t :| Declares(ViewAt(st), s, t) {
      DeclarationAdmitted(st, s, t);
    }
  }

  lemma {:induction false} LinkAdmitted(st: State, link: IfLink)
    requires st.scopes != [] && GammaOk(GammaAt(st))
    ensures CheckLink(st, link).Ok? <==> AdmitsLink(ViewAt(st), link, st.loopDepth > 0)
    decreases link
  {
    hide CheckExpr, AllPass, CheckBlock, AdmitsSeq;
    CheckIffAllPass(st.Here(), link.cond, TypeId.Bool);
    BlockAdmitted(st, link.thn);
    if CheckBlock(st, link.thn).Ok? {
      BlockScopes(st, link.thn);
      match link.els
      case NoElse =>
      case ElseBlock(stmts) => BlockAdmitted(st, stmts);
      case ElseIfLink(next) => LinkAdmitted(st, next);
    }
  }

  lemma {:induction false} BlockAdmitted(st: State, stmts: seq<Stmt>)
    requires GammaOk(GammaAt(st))
    ensures CheckBlock(st, stmts).Ok? <==> AdmitsSeq(ViewAt(st), stmts, st.loopDepth > 0)
    decreases stmts, 1
  {
    FlatPush(st.scopes, map[]);
    assert ViewAt(st.Push()) == ViewAt(st);
    SeqAdmitted(st.Push(), stmts);
  }

  lemma {:induction false} SeqAdmitted(st: State, stmts: seq<Stmt>)
    requires st.scopes != [] && GammaOk(GammaAt(st))
    ensures CheckSeq(st, stmts).Ok? <==> AdmitsSeq(ViewAt(st), stmts, st.loopDepth > 0)
    decreases stmts, 0
  {
    hide CheckStmt, Admits, Declares;
    if stmts != [] {
      var s := stmts[0];
      StmtAdmitted(st, s);
      if CheckStmt(st, s).Ok? {
        var (st1, s1) := CheckStmt(st, s).value;
        StmtScopes(st, s);
        StmtSound(st, s);
        SeqAdmitted(st1, stmts[1..]);
        if s.DeclStmt? {
          DeclarationAfter(st, s, stmts[1..]);
        }
      } else if s.DeclStmt? {
        DeclarationOk(st, s);
      }
    }
  }

  /** After a declaration the name is in scope, with the only type it could have got. */
  lemma DeclarationAfter(st: State, s: Stmt, rest: seq<Stmt>)
    requires s.DeclStmt? && st.scopes != [] && GammaOk(GammaAt(st)) && CheckStmt(st, s).Ok?
    ensures AdmitsSeq(ViewAt(CheckStmt(st, s).value.0), rest, st.loopDepth > 0)
       <==> exists t :: Declares(ViewAt(st), s, t) && AdmitsSeq(With(ViewAt(st), s.name, t), rest, st.loopDepth > 0)
  {
    hide CheckExpr, InferTopLevel, Declares, AdmitsSeq;
    var (st1, s1) := CheckStmt(st, s).value;
    var v, u := ViewAt(st), s1.declared.value;
    StmtScopes(st, s);
    StoreNew(st, s.name, u);
    assert ViewAt(st1) == With(v, s.name, u);
    DeclarationAdmitted(st, s, u);
    forall t | Declares(v, s, t)
      ensures t == u
    {
      DeclarationAdmitted(st, s, t);
    }
  }

  // ----- programs -----

  /** The checker accepts functions, one after the other, if and only if they are admitted. */
  lemma {:induction false} FunctionsAdmitted(st: State, fns: seq<FunctionDecl>)
    requires st.loopDepth == 0 && (forall i | 0 <= i < |st.scopes| :: st.scopes[i] == map[])
    requires forall f | f in st.functions :: !IsLiteral(st.functions[f])
    ensures CheckFunctions(st, fns).Ok? <==> AdmitsFunctions(st.functions, st.floatFits, fns)
    decreases fns
  {
    hide CheckBlock, AdmitsSeq;
    if fns != [] {
      FlatBlank(st.scopes);
      assert ViewAt(st) == View(Gamma(map[], st.functions), st.floatFits);
      BlockAdmitted(st, fns[0].body);
      if CheckBlock(st, fns[0].body).Ok? {
        BlockScopes(st, fns[0].body);
        FunctionsAdmitted(CheckFunction(st, fns[0]).value.0, fns[1..]);
      }
    }
  }

  /** The program check, with its extra pop, accepts exactly the admitted programs of at most one function. */
  lemma ProgramAdmitted(floatFits: (string, TypeId) -> bool, fns: seq<FunctionDecl>)
    ensures CheckProgram(InitialState(floatFits), fns).Ok?
       <==> |fns| <= 1 && AdmitsFunctions(map[], floatFits, fns)
  {
    ProgramsHaveOneFunction(floatFits, fns);
    FunctionsAdmitted(InitialState(floatFits), fns);
  }
}
