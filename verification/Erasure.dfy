/** Checking only annotates: without its annotations a checked program is the program that was parsed.
    So whatever does not depend on annotations can be read off the source. */
module Erasure {
  import opened Results
  import opened Syntax
  import opened Checking
  import opened Typing

  // ----- expressions -----

  lemma {:induction false} InferErases(c: Context, e: Expr)
    requires InferExpr(c, e).Ok?
    ensures Erase(InferExpr(c, e).value.1) == Erase(e)
    decreases Size(e), 0
  {
    hide CheckExpr, Promotion;
    if e.Binary? {
      InferErases(c, e.lhs);
      InferErases(c, e.rhs);
      var p := ResolvePair(c, InferExpr(c, e.lhs).value, InferExpr(c, e.rhs).value).value;
      PairErases(c, InferExpr(c, e.lhs).value, InferExpr(c, e.rhs).value);
      if IsBoolOperator(e.op) && IsLiteral(p.0) {
        CheckErases(c, p.1, LiteralDefault(p.0).value);
        CheckErases(c, p.2, LiteralDefault(p.0).value);
      }
    }
  }

  lemma {:induction false} PairErases(c: Context, l: (TypeId, Expr), r: (TypeId, Expr))
    requires ResolvePair(c, l, r).Ok?
    ensures var (_, l', r') := ResolvePair(c, l, r).value; Erase(l') == Erase(l.1) && Erase(r') == Erase(r.1)
    decreases Size(l.1) + Size(r.1), 3
  {
    hide CheckExpr;
    var t := ResolvePair(c, l, r).value.0;
    if IsLiteral(l.0) && !IsLiteral(t) {
      CheckErases(c, l.1, t);
    } else if IsLiteral(r.0) && !IsLiteral(t) {
      CheckErases(c, r.1, t);
    }
  }

  lemma {:induction false} CheckErases(c: Context, e: Expr, t: TypeId)
    requires CheckExpr(c, e, t).Ok?
    ensures Erase(CheckExpr(c, e, t).value) == Erase(e)
    decreases Size(e), 1
  {
    hide InferExpr;
    if e.Binary? {
      if IsBoolOperator(e.op) {
        InferErases(c, e);
      } else {
        CheckErases(c, e.lhs, t);
        CheckErases(c, e.rhs, t);
      }
    }
  }

  lemma TopLevelErases(c: Context, e: Expr)
    requires InferTopLevel(c, e).Ok?
    ensures Erase(InferTopLevel(c, e).value.1) == Erase(e)
  {
    hide InferExpr, CheckExpr;
    InferErases(c, e);
    var i := InferExpr(c, e).value;
    if IsLiteral(i.0) {
      CheckErases(c, i.1, LiteralDefault(i.0).value);
    }
  }

  // ----- statements -----

  function EraseStmt(s: Stmt): Stmt
    decreases s
  {
    match s
    case DeclStmt(name, typeName, value, _) => DeclStmt(name, typeName, Erase(value), None)
    case AssignStmt(name, value) => AssignStmt(name, Erase(value))
    case ShowStmt(expr, _) => ShowStmt(Erase(expr), None)
    case ReturnStmt(expr, _) => ReturnStmt(Erase(expr), None)
    case IfStmt(link) => IfStmt(EraseLink(link))
    case LoopStmt(body) => LoopStmt(EraseSeq(body))
    case BreakStmt => BreakStmt
    case CycleStmt => CycleStmt
  }

  function EraseLink(link: IfLink): IfLink
    decreases link
  {
    IfLink(Erase(link.cond), EraseSeq(link.thn),
           match link.els
           case NoElse => NoElse
           case ElseBlock(stmts) => ElseBlock(EraseSeq(stmts))
           case ElseIfLink(next) => ElseIfLink(EraseLink(next)))
  }

  function EraseSeq(stmts: seq<Stmt>): (r: seq<Stmt>)
    ensures |r| == |stmts|
    decreases stmts
  {
    if stmts == [] then [] else [EraseStmt(stmts[0])] + EraseSeq(stmts[1..])
  }

  function EraseFunction(f: FunctionDecl): FunctionDecl {
    FunctionDecl(f.name, EraseSeq(f.body))
  }

  lemma {:induction false} StmtErases(st: State, s: Stmt)
    requires st.scopes != [] && CheckStmt(st, s).Ok?
    ensures EraseStmt(CheckStmt(st, s).value.1) == EraseStmt(s)
    decreases s
  {
    hide InferTopLevel, CheckExpr;
    match s
    case DeclStmt(_, typeName, value, _) =>
      if typeName.Some? {
        CheckErases(st.Here(), value, TypeIdOf(typeName.value));
      } else {
        TopLevelErases(st.Here(), value);
      }
    case AssignStmt(name, value) => CheckErases(st.Here(), value, Find(st.scopes, name).value);
    case ShowStmt(expr, _) => TopLevelErases(st.Here(), expr);
    case ReturnStmt(expr, _) => TopLevelErases(st.Here(), expr);
    case IfStmt(link) => LinkErases(st, link);
    case LoopStmt(body) => BlockErases(st.(loopDepth := st.loopDepth + 1), body);
    case BreakStmt =>
    case CycleStmt =>
  }

  lemma {:induction false} LinkErases(st: State, link: IfLink)
    requires st.scopes != [] && CheckLink(st, link).Ok?
    ensures EraseLink(CheckLink(st, link).value.1) == EraseLink(link)
    decreases link
  {
    hide CheckExpr, CheckBlock;
    CheckErases(st.Here(), link.cond, TypeId.Bool);
    BlockErases(st, link.thn);
    var st1 := CheckBlock(st, link.thn).value.0;
    match link.els
    case NoElse =>
    case ElseBlock(stmts) => BlockErases(st1, stmts);
    case ElseIfLink(next) => LinkErases(st1, next);
  }

  lemma {:induction false} BlockErases(st: State, stmts: seq<Stmt>)
    requires CheckBlock(st, stmts).Ok?
    ensures EraseSeq(CheckBlock(st, stmts).value.1) == EraseSeq(stmts)
    decreases stmts, 1
  {
    SeqErases(st.Push(), stmts);
  }

  lemma {:induction false} SeqErases(st: State, stmts: seq<Stmt>)
    requires st.scopes != [] && CheckSeq(st, stmts).Ok?
    ensures EraseSeq(CheckSeq(st, stmts).value.1) == EraseSeq(stmts)
    decreases stmts, 0
  {
    hide CheckStmt, EraseStmt;
    if stmts != [] {
      var (st1, s1) := CheckStmt(st, stmts[0]).value;
      var rest := CheckSeq(st1, stmts[1..]).value.1;
      StmtErases(st, stmts[0]);
      SeqErases(st1, stmts[1..]);
      assert ([s1] + rest)[1..] == rest;
    }
  }

  /** The checked program is the given one with annotations. */
  lemma {:induction false} FunctionsErase(st: State, fns: seq<FunctionDecl>)
    requires CheckFunctions(st, fns).Ok?
    ensures var fns' := CheckFunctions(st, fns).value.1;
            |fns'| == |fns| && forall i | 0 <= i < |fns| :: EraseFunction(fns'[i]) == EraseFunction(fns[i])
    decreases fns
  {
    if fns != [] {
      var (st1, f') := CheckFunction(st, fns[0]).value;
      BlockErases(st, fns[0].body);
      FunctionsErase(st1, fns[1..]);
      var fns' := CheckFunctions(st, fns).value.1;
      forall i | 0 <= i < |fns|
        ensures EraseFunction(fns'[i]) == EraseFunction(fns[i])
      {
        if i > 0 {
          assert fns[i] == fns[1..][i - 1] && fns'[i] == CheckFunctions(st1, fns[1..]).value.1[i - 1];
        }
      }
    }
  }
}
