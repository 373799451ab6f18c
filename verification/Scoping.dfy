/** Statements: scopes come back as they were, no name lives twice, and accepted bodies are typed. */
module Scoping {
  import opened Results
  import opened Syntax
  import opened Checking
  import opened Typing

  // ----- the scope stack -----

  /** No name is in two scopes. */
  ghost predicate Disjoint(scopes: Scopes) {
    forall i, j, x | 0 <= i < j < |scopes| && x in scopes[i] :: x !in scopes[j]
  }

  /** Lookup from the innermost scope outwards. */
  function FindInner(scopes: Scopes, name: string): Option<TypeId>
    decreases |scopes|
  {
    if scopes == [] then None
    else
      var last := |scopes| - 1;
      if name in scopes[last] then Some(scopes[last][name]) else FindInner(scopes[..last], name)
  }

  lemma {:induction false} FindIn(scopes: Scopes, x: string)
    ensures match Find(scopes, x)
            case None => forall i | 0 <= i < |scopes| :: x !in scopes[i]
            case Some(t) => exists i :: 0 <= i < |scopes| && x in scopes[i] && scopes[i][x] == t
    decreases scopes
  {
    if scopes != [] && x !in scopes[0] {
      FindIn(scopes[1..], x);
      if Find(scopes, x).Some? {
        var i :| 0 <= i < |scopes[1..]| && x in scopes[1..][i] && scopes[1..][i][x] == Find(scopes, x).value;
        assert x in scopes[i + 1] && scopes[i + 1][x] == Find(scopes, x).value;
      } else {
        forall i | 0 <= i < |scopes|
          ensures x !in scopes[i]
        {
          assert i > 0 ==> scopes[i] == scopes[1..][i - 1];
        }
      }
    }
  }

  lemma {:induction false} FindInnerIn(scopes: Scopes, x: string)
    ensures match FindInner(scopes, x)
            case None => forall i | 0 <= i < |scopes| :: x !in scopes[i]
            case Some(t) => exists i :: 0 <= i < |scopes| && x in scopes[i] && scopes[i][x] == t
    decreases |scopes|
  {
    if scopes != [] && x !in scopes[|scopes| - 1] {
      FindInnerIn(scopes[..|scopes| - 1], x);
    }
  }

  /** With no name in two scopes, searching from the outside finds what searching from the inside does. */
  lemma DirectionIrrelevant(scopes: Scopes, x: string)
    requires Disjoint(scopes)
    ensures Find(scopes, x) == FindInner(scopes, x)
  {
    FindIn(scopes, x);
    FindInnerIn(scopes, x);
  }

  lemma {:induction false} FlatPush(scopes: Scopes, top: map<string, TypeId>)
    requires forall x | x in top :: x !in Flat(scopes)
    ensures Flat(scopes + [top]) == Flat(scopes) + top
    decreases scopes
  {
    if scopes == [] {
      assert (scopes + [top])[1..] == [];
    } else {
      assert (scopes + [top])[1..] == scopes[1..] + [top];
      FlatPush(scopes[1..], top);
    }
  }

  lemma {:induction false} FlatBlank(scopes: Scopes)
    requires forall i | 0 <= i < |scopes| :: scopes[i] == map[]
    ensures Flat(scopes) == map[]
    decreases scopes
  {
    if scopes != [] {
      FlatBlank(scopes[1..]);
    }
  }

  /** Storing a new name adds it to what is in scope, and to no other scope. */
  lemma StoreNew(st: State, name: string, t: TypeId)
    requires st.scopes != [] && Find(st.scopes, name).None?
    ensures Flat(st.Store(name, t).scopes) == Flat(st.scopes)[name := t]
    ensures Disjoint(st.scopes) ==> Disjoint(st.Store(name, t).scopes)
  {
    var last := |st.scopes| - 1;
    var below, top := st.scopes[..last], st.scopes[last];
    FindIn(st.scopes, name);
    FlatStore(below, top, name, t);
    assert st.scopes == below + [top];
    assert st.Store(name, t).scopes == below + [top[name := t]];
  }

  lemma {:induction false} FlatStore(below: Scopes, top: map<string, TypeId>, name: string, t: TypeId)
    requires forall i | 0 <= i < |below| :: name !in below[i]
    ensures Flat(below + [top[name := t]]) == Flat(below + [top])[name := t]
    decreases below
  {
    if below == [] {
      assert (below + [top])[1..] == [] && (below + [top[name := t]])[1..] == [];
    } else {
      assert (below + [top])[1..] == below[1..] + [top];
      assert (below + [top[name := t]])[1..] == below[1..] + [top[name := t]];
      FlatStore(below[1..], top, name, t);
    }
  }

  // ----- the checker's effect on its state -----

  /** A statement declares at most its own name, in the innermost scope. */
  lemma {:induction false} StmtScopes(st: State, s: Stmt)
    requires st.scopes != [] && CheckStmt(st, s).Ok?
    ensures var (st', s') := CheckStmt(st, s).value;
            && (if s.DeclStmt? then s'.DeclStmt? && s'.declared.Some? && Find(st.scopes, s.name).None?
                                    && st' == st.Store(s.name, s'.declared.value)
                else st' == st)
            && (Disjoint(st.scopes) ==> Disjoint(st'.scopes))
    decreases s
  {
    match s
    case DeclStmt(name, _, _, _) => StoreNew(st, name, CheckStmt(st, s).value.1.declared.value);
    case IfStmt(link) => LinkScopes(st, link);
    case LoopStmt(body) => BlockScopes(st.(loopDepth := st.loopDepth + 1), body);
    case _ =>
  }

  lemma {:induction false} LinkScopes(st: State, link: IfLink)
    requires st.scopes != [] && CheckLink(st, link).Ok?
    ensures CheckLink(st, link).value.0 == st
    decreases link
  {
    BlockScopes(st, link.thn);
    match link.els
    case NoElse =>
    case ElseBlock(stmts) => BlockScopes(st, stmts);
    case ElseIfLink(next) => LinkScopes(st, next);
  }

  /** A block gives back the whole state as it was. */
  lemma {:induction false} BlockScopes(st: State, stmts: seq<Stmt>)
    requires CheckBlock(st, stmts).Ok?
    ensures CheckBlock(st, stmts).value.0 == st
    decreases stmts, 1
  {
    SeqScopes(st.Push(), stmts);
    var st' := CheckSeq(st.Push(), stmts).value.0;
    assert st'.scopes[..|st'.scopes| - 1] == st.Push().scopes[..|st.scopes|] == st.scopes;
  }

  lemma {:induction false} SeqScopes(st: State, stmts: seq<Stmt>)
    requires st.scopes != [] && CheckSeq(st, stmts).Ok?
    ensures var st' := CheckSeq(st, stmts).value.0;
            && st'.scopes[..|st'.scopes| - 1] == st.scopes[..|st.scopes| - 1]
            && st' == st.(scopes := st'.scopes)
            && (Disjoint(st.scopes) ==> Disjoint(st'.scopes))
    decreases stmts, 0
  {
    if stmts != [] {
      StmtScopes(st, stmts[0]);
      SeqScopes(CheckStmt(st, stmts[0]).value.0, stmts[1..]);
    }
  }

  // ----- typed statements -----

  /** What is in scope after a statement of a block. */
  function After(g: Gamma, s: Stmt): Gamma {
    g.(vars := VarsAfter(g.vars, s))
  }

  function VarsAfter(vars: map<string, TypeId>, s: Stmt): map<string, TypeId> {
    if s.DeclStmt? && s.declared.Some? then vars[s.name := s.declared.value] else vars
  }

  predicate TypedStmt(g: Gamma, s: Stmt, inLoop: bool)
    decreases s
  {
    match s
    case DeclStmt(name, _, value, declared) =>
      name !in g.vars && declared.Some? && !IsLiteral(declared.value) && HasType(g, value, declared.value)
    case AssignStmt(name, value) => name in g.vars && HasType(g, value, g.vars[name])
    case ShowStmt(expr, exprType) => exprType.Some? && HasType(g, expr, exprType.value)
    case ReturnStmt(expr, exprType) => exprType.Some? && HasType(g, expr, exprType.value)
    case IfStmt(link) => TypedLink(g, link, inLoop)
    case LoopStmt(body) => TypedSeq(g, body, true)
    case BreakStmt => inLoop
    case CycleStmt => inLoop
  }

  predicate TypedLink(g: Gamma, link: IfLink, inLoop: bool)
    decreases link
  {
    && HasType(g, link.cond, TypeId.Bool) && TypedSeq(g, link.thn, inLoop)
    && match link.els
       case NoElse => true
       case ElseBlock(stmts) => TypedSeq(g, stmts, inLoop)
       case ElseIfLink(next) => TypedLink(g, next, inLoop)
  }

  predicate TypedSeq(g: Gamma, stmts: seq<Stmt>, inLoop: bool)
    decreases stmts
  {
    stmts == [] || (TypedStmt(g, stmts[0], inLoop) && TypedSeq(After(g, stmts[0]), stmts[1..], inLoop))
  }

  /** Every expression of a checked statement is concrete. */
  predicate ConcreteStmt(s: Stmt)
    decreases s
  {
    match s
    case DeclStmt(_, _, value, declared) => declared.Some? && !IsLiteral(declared.value) && Concrete(value)
    case AssignStmt(_, value) => Concrete(value)
    case ShowStmt(expr, t) => t.Some? && !IsLiteral(t.value) && Concrete(expr)
    case ReturnStmt(expr, t) => t.Some? && !IsLiteral(t.value) && Concrete(expr)
    case IfStmt(link) => ConcreteLink(link)
    case LoopStmt(body) => ConcreteSeq(body)
    case BreakStmt => true
    case CycleStmt => true
  }

  predicate ConcreteLink(link: IfLink)
    decreases link
  {
    && Concrete(link.cond) && ConcreteSeq(link.thn)
    && match link.els
       case NoElse => true
       case ElseBlock(stmts) => ConcreteSeq(stmts)
       case ElseIfLink(next) => ConcreteLink(next)
  }

  predicate ConcreteSeq(stmts: seq<Stmt>)
    decreases stmts
  {
    stmts == [] || (ConcreteStmt(stmts[0]) && ConcreteSeq(stmts[1..]))
  }

  /** Where an expected type is written down - a declaration with a type, an assignment - no comparison
      meets a type other than Bool. */
  predicate CleanStmt(vars: map<string, TypeId>, s: Stmt)
    decreases s
  {
    match s
    case DeclStmt(_, typeName, value, declared) => typeName.Some? && declared.Some? ==> Clean(value, declared.value)
    case AssignStmt(name, value) => name in vars ==> Clean(value, vars[name])
    case IfStmt(link) => CleanLink(vars, link)
    case LoopStmt(body) => CleanSeq(vars, body)
    case _ => true
  }

  predicate CleanLink(vars: map<string, TypeId>, link: IfLink)
    decreases link
  {
    && CleanSeq(vars, link.thn)
    && match link.els
       case NoElse => true
       case ElseBlock(stmts) => CleanSeq(vars, stmts)
       case ElseIfLink(next) => CleanLink(vars, next)
  }

  predicate CleanSeq(vars: map<string, TypeId>, stmts: seq<Stmt>)
    decreases stmts
  {
    stmts == [] || (CleanStmt(vars, stmts[0]) && CleanSeq(VarsAfter(vars, stmts[0]), stmts[1..]))
  }

  function GammaAt(st: State): Gamma {
    GammaOf(st.Here())
  }

  lemma TypeNamesConcrete(name: string)
    ensures !IsLiteral(TypeIdOf(name))
  {
  }

  lemma CleanErased(e: Expr, e': Expr, t: TypeId)
    requires Erase(e) == Erase(e')
    ensures Clean(e, t) == Clean(e', t)
  {
    ExposureErased(e);
    ExposureErased(e');
  }

  /** An accepted statement is concrete throughout, and typed exactly when it is clean. */
  lemma {:induction false} StmtSound(st: State, s: Stmt)
    requires st.scopes != [] && GammaOk(GammaAt(st)) && CheckStmt(st, s).Ok?
    ensures var (st', s') := CheckStmt(st, s).value;
            && ConcreteStmt(s') && GammaAt(st') == After(GammaAt(st), s') && GammaOk(GammaAt(st'))
            && (TypedStmt(GammaAt(st), s', st.loopDepth > 0) <==> CleanStmt(GammaAt(st).vars, s'))
    decreases s
  {
    var g, c := GammaAt(st), st.Here();
    StmtScopes(st, s);
    match s
    case DeclStmt(name, typeName, value, _) =>
      FindIsFlat(st.scopes, name);
      StoreNew(st, name, CheckStmt(st, s).value.1.declared.value);
      if typeName.Some? {
        var t := TypeIdOf(typeName.value);
        TypeNamesConcrete(typeName.value);
        CheckSound(c, value, t);
        CleanErased(value, CheckExpr(c, value, t).value, t);
      } else {
        TopLevelSound(c, value);
      }
    case AssignStmt(name, value) =>
      FindIsFlat(st.scopes, name);
      CheckSound(c, value, g.vars[name]);
      CleanErased(value, CheckExpr(c, value, g.vars[name]).value, g.vars[name]);
    case ShowStmt(expr, _) => TopLevelSound(c, expr);
    case ReturnStmt(expr, _) => TopLevelSound(c, expr);
    case IfStmt(link) => LinkSound(st, link);
    case LoopStmt(body) => BlockSound(st.(loopDepth := st.loopDepth + 1), body);
    case BreakStmt =>
    case CycleStmt =>
  }

  lemma {:induction false} LinkSound(st: State, link: IfLink)
    requires st.scopes != [] && GammaOk(GammaAt(st)) && CheckLink(st, link).Ok?
    ensures var link' := CheckLink(st, link).value.1;
            && ConcreteLink(link')
            && (TypedLink(GammaAt(st), link', st.loopDepth > 0) <==> CleanLink(GammaAt(st).vars, link'))
    decreases link
  {
    CheckSound(st.Here(), link.cond, TypeId.Bool);
    BlockScopes(st, link.thn);
    BlockSound(st, link.thn);
    match link.els
    case NoElse =>
    case ElseBlock(stmts) => BlockSound(st, stmts);
    case ElseIfLink(next) => LinkSound(st, next);
  }

  lemma {:induction false} BlockSound(st: State, stmts: seq<Stmt>)
    requires GammaOk(GammaAt(st)) && CheckBlock(st, stmts).Ok?
    ensures var stmts' := CheckBlock(st, stmts).value.1;
            && ConcreteSeq(stmts')
            && (TypedSeq(GammaAt(st), stmts', st.loopDepth > 0) <==> CleanSeq(GammaAt(st).vars, stmts'))
    decreases stmts, 1
  {
    FlatPush(st.scopes, map[]);
    assert GammaAt(st.Push()) == GammaAt(st);
    SeqSound(st.Push(), stmts);
  }

  lemma {:induction false} SeqSound(st: State, stmts: seq<Stmt>)
    requires st.scopes != [] && GammaOk(GammaAt(st)) && CheckSeq(st, stmts).Ok?
    ensures var stmts' := CheckSeq(st, stmts).value.1;
            && ConcreteSeq(stmts')
            && (TypedSeq(GammaAt(st), stmts', st.loopDepth > 0) <==> CleanSeq(GammaAt(st).vars, stmts'))
    decreases stmts, 0
  {
    if stmts != [] {
      var (st1, s1) := CheckStmt(st, stmts[0]).value;
      StmtScopes(st, stmts[0]);
      StmtSound(st, stmts[0]);
      SeqSound(st1, stmts[1..]);
      var rest := CheckSeq(st1, stmts[1..]).value.1;
      assert ([s1] + rest)[1..] == rest;
    }
  }

  /** An accepted condition is Bool, whatever its operands are. */
  lemma ConditionIsBool(st: State, cond: Expr)
    requires GammaOk(GammaAt(st)) && CheckExpr(st.Here(), cond, TypeId.Bool).Ok?
    ensures HasType(GammaAt(st), CheckExpr(st.Here(), cond, TypeId.Bool).value, TypeId.Bool)
  {
    CheckSound(st.Here(), cond, TypeId.Bool);
  }

  // ----- programs -----

  /** The checker accepts a program only if it has at most one function: its extra pop after the first
      function takes the only scope, and after the second there is none left to pop. */
  lemma ProgramsHaveOneFunction(floatFits: (string, TypeId) -> bool, fns: seq<FunctionDecl>)
    ensures CheckProgram(InitialState(floatFits), fns).Ok?
       <==> |fns| <= 1 && CheckFunctions(InitialState(floatFits), fns).Ok?
  {
    hide CheckBlock;
    var st := InitialState(floatFits);
    if fns != [] && CheckFunction(st, fns[0]).Ok? {
      BlockScopes(st, fns[0].body);
      var st1 := CheckFunction(st, fns[0]).value.0.Pop();
      if |fns| == 1 {
        assert CheckProgram(st1, fns[1..]).Ok?;
        assert CheckFunctions(CheckFunction(st, fns[0]).value.0, fns[1..]).Ok?;
      } else if CheckFunction(st1, fns[1]).Ok? {
        BlockScopes(st1, fns[1].body);
      }
    }
  }
}
