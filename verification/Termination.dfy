/** A function can be called only after its body has been checked, so accepted calls are acyclic:
    without loops, every accepted program terminates, within a fuel that is known beforehand. */
module Termination {
  import opened Syntax
  import opened Floats
  import opened Semantics
  import opened Checking
  import opened Typing
  import opened Scoping
  import opened Erasure
  import opened Behaviour

  // ----- calls -----

  /** Every call in e is to one of the names. */
  predicate CallsIn(e: Expr, names: set<string>) {
    match e
    case Call(name) => name in names
    case Binary(_, lhs, rhs, _, _) => CallsIn(lhs, names) && CallsIn(rhs, names)
    case _ => true
  }

  predicate CallsInStmt(s: Stmt, names: set<string>)
    decreases s
  {
    match s
    case DeclStmt(_, _, value, _) => CallsIn(value, names)
    case AssignStmt(_, value) => CallsIn(value, names)
    case ShowStmt(expr, _) => CallsIn(expr, names)
    case ReturnStmt(expr, _) => CallsIn(expr, names)
    case IfStmt(link) => CallsInLink(link, names)
    case LoopStmt(body) => CallsInSeq(body, names)
    case BreakStmt => true
    case CycleStmt => true
  }

  predicate CallsInLink(link: IfLink, names: set<string>)
    decreases link
  {
    && CallsIn(link.cond, names) && CallsInSeq(link.thn, names)
    && match link.els
       case NoElse => true
       case ElseBlock(stmts) => CallsInSeq(stmts, names)
       case ElseIfLink(next) => CallsInLink(next, names)
  }

  predicate CallsInSeq(stmts: seq<Stmt>, names: set<string>)
    decreases stmts
  {
    stmts == [] || (CallsInStmt(stmts[0], names) && CallsInSeq(stmts[1..], names))
  }

  lemma {:induction false} InferCalls(c: Context, e: Expr)
    requires InferExpr(c, e).Ok?
    ensures CallsIn(e, c.functions.Keys)
    decreases e
  {
    if e.Binary? {
      InferCalls(c, e.lhs);
      InferCalls(c, e.rhs);
    }
  }

  lemma {:induction false} CheckCalls(c: Context, e: Expr, t: TypeId)
    requires CheckExpr(c, e, t).Ok?
    ensures CallsIn(e, c.functions.Keys)
    decreases e
  {
    if e.Binary? {
      if IsBoolOperator(e.op) {
        InferCalls(c, e);
      } else {
        CheckCalls(c, e.lhs, t);
        CheckCalls(c, e.rhs, t);
      }
    }
  }

  /** What an accepted statement calls is in the function map. */
  lemma {:induction false} StmtCalls(st: State, s: Stmt)
    requires st.scopes != [] && CheckStmt(st, s).Ok?
    ensures CallsInStmt(s, st.functions.Keys)
    decreases s
  {
    hide CheckExpr, InferExpr;
    match s
    case DeclStmt(_, typeName, value, _) =>
      if typeName.Some? {
        CheckCalls(st.Here(), value, TypeIdOf(typeName.value));
      } else {
        InferCalls(st.Here(), value);
      }
    case AssignStmt(name, value) => CheckCalls(st.Here(), value, Find(st.scopes, name).value);
    case ShowStmt(expr, _) => InferCalls(st.Here(), expr);
    case ReturnStmt(expr, _) => InferCalls(st.Here(), expr);
    case IfStmt(link) => LinkCalls(st, link);
    case LoopStmt(body) => BlockCalls(st.(loopDepth := st.loopDepth + 1), body);
    case BreakStmt =>
    case CycleStmt =>
  }

  lemma {:induction false} LinkCalls(st: State, link: IfLink)
    requires st.scopes != [] && CheckLink(st, link).Ok?
    ensures CallsInLink(link, st.functions.Keys)
    decreases link
  {
    hide CheckExpr, CheckBlock;
    CheckCalls(st.Here(), link.cond, TypeId.Bool);
    BlockCalls(st, link.thn);
    BlockScopes(st, link.thn);
    match link.els
    case NoElse =>
    case ElseBlock(stmts) => BlockCalls(st, stmts);
    case ElseIfLink(next) => LinkCalls(st, next);
  }

  lemma {:induction false} BlockCalls(st: State, stmts: seq<Stmt>)
    requires CheckBlock(st, stmts).Ok?
    ensures CallsInSeq(stmts, st.functions.Keys)
    decreases stmts, 1
  {
    SeqCalls(st.Push(), stmts);
  }

  lemma {:induction false} SeqCalls(st: State, stmts: seq<Stmt>)
    requires st.scopes != [] && CheckSeq(st, stmts).Ok?
    ensures CallsInSeq(stmts, st.functions.Keys)
    decreases stmts, 0
  {
    hide CheckStmt;
    if stmts != [] {
      StmtCalls(st, stmts[0]);
      StmtScopes(st, stmts[0]);
      SeqCalls(CheckStmt(st, stmts[0]).value.0, stmts[1..]);
    }
  }

  function NamesBefore(fns: seq<FunctionDecl>, i: nat): set<string>
    requires i <= |fns|
  {
    set j | 0 <= j < i :: fns[j].name
  }

  lemma {:induction false} FunctionsCallBack(st: State, fns: seq<FunctionDecl>)
    requires CheckFunctions(st, fns).Ok?
    ensures forall i | 0 <= i < |fns| :: CallsInSeq(fns[i].body, st.functions.Keys + NamesBefore(fns, i))
    decreases fns
  {
    hide CallsInSeq;
    if fns != [] {
      BlockCalls(st, fns[0].body);
      BlockScopes(st, fns[0].body);
      var st1 := CheckFunction(st, fns[0]).value.0;
      FunctionsCallBack(st1, fns[1..]);
      forall i | 0 <= i < |fns|
        ensures CallsInSeq(fns[i].body, st.functions.Keys + NamesBefore(fns, i))
      {
        if i == 0 {
          assert st.functions.Keys + NamesBefore(fns, 0) == st.functions.Keys;
        } else {
          BeforeTail(fns, i);
          assert st1.functions.Keys + NamesBefore(fns[1..], i - 1) == st.functions.Keys + NamesBefore(fns, i);
          assert fns[1..][i - 1] == fns[i];
        }
      }
    }
  }

  lemma BeforeTail(fns: seq<FunctionDecl>, i: nat)
    requires 0 < i <= |fns|
    ensures NamesBefore(fns, i) == {fns[0].name} + NamesBefore(fns[1..], i - 1)
  {
    forall name | name in NamesBefore(fns, i)
      ensures name in {fns[0].name} + NamesBefore(fns[1..], i - 1)
    {
      var j :| 0 <= j < i && fns[j].name == name;
      if j > 0 {
        assert fns[1..][j - 1].name == name;
      }
    }
    forall name | name in NamesBefore(fns[1..], i - 1)
      ensures name in NamesBefore(fns, i)
    {
      var j :| 0 <= j < i - 1 && fns[1..][j].name == name;
      assert fns[j + 1].name == name;
    }
  }

  /** Every accepted call is to a function earlier in the program; no function calls itself. */
  lemma CallsGoBack(floatFits: (string, TypeId) -> bool, fns: seq<FunctionDecl>)
    requires CheckFunctions(InitialState(floatFits), fns).Ok?
    ensures forall i | 0 <= i < |fns| :: CallsInSeq(fns[i].body, NamesBefore(fns, i))
  {
    hide CallsInSeq;
    FunctionsCallBack(InitialState(floatFits), fns);
    forall i | 0 <= i < |fns|
      ensures CallsInSeq(fns[i].body, NamesBefore(fns, i))
    {
      assert InitialState(floatFits).functions.Keys + NamesBefore(fns, i) == NamesBefore(fns, i);
    }
  }

  // ----- loop-free programs -----

  predicate LoopFree(stmts: seq<Stmt>)
    decreases stmts
  {
    stmts == [] || (LoopFreeStmt(stmts[0]) && LoopFree(stmts[1..]))
  }

  predicate LoopFreeStmt(s: Stmt)
    decreases s
  {
    match s
    case IfStmt(link) => LoopFreeLink(link)
    case LoopStmt(_) => false
    case _ => true
  }

  predicate LoopFreeLink(link: IfLink)
    decreases link
  {
    && LoopFree(link.thn)
    && match link.els
       case NoElse => true
       case ElseBlock(stmts) => LoopFree(stmts)
       case ElseIfLink(next) => LoopFreeLink(next)
  }

  /** No function has a loop, and all calls go back. */
  ghost predicate Bounded(fns: seq<FunctionDecl>) {
    forall i | 0 <= i < |fns| :: LoopFree(fns[i].body) && CallsInSeq(fns[i].body, NamesBefore(fns, i))
  }

  /** The function a name stands for: the first one of that name. */
  lemma {:induction false} FirstNamed(fns: seq<FunctionDecl>, i: nat) returns (j: nat)
    requires i < |fns|
    ensures var f := fns[i].name; j <= i && f in ProgramOf(fns) && ProgramOf(fns)[f] == fns[j].body
    decreases fns
  {
    if fns[0].name == fns[i].name {
      j := 0;
    } else {
      var k := FirstNamed(fns[1..], i - 1);
      j := k + 1;
    }
  }

  lemma {:induction false} EvalTerminates(u: Fpu, fns: seq<FunctionDecl>, i: nat, e: Expr, env: Env, out: seq<Val>,
                                          fuel: nat)
    requires Bounded(fns) && i < |fns| && CallsIn(e, NamesBefore(fns, i)) && fuel >= i
    ensures var r := Eval(u, ProgramOf(fns), e, env, out, fuel); r.EvalStop? ==> !r.stop.OutOfFuel?
    decreases i, e
  {
    hide Bounded;
    match e
    case Call(name) =>
      var k :| 0 <= k < i && fns[k].name == name;
      var j := FirstNamed(fns, k);
      FunctionTerminates(u, fns, j, out, fuel - 1);
    case Binary(_, lhs, rhs, _, _) =>
      EvalTerminates(u, fns, i, lhs, env, out, fuel);
      var l := Eval(u, ProgramOf(fns), lhs, env, out, fuel);
      if l.Value? {
        EvalTerminates(u, fns, i, rhs, env, l.out, fuel);
      }
    case _ =>
  }

  lemma {:induction false} FunctionTerminates(u: Fpu, fns: seq<FunctionDecl>, i: nat, out: seq<Val>, fuel: nat)
    requires Bounded(fns) && i < |fns| && fuel >= i
    ensures var o := ExecBlock(u, ProgramOf(fns), fns[i].body, map[], out, fuel); o.Stops? ==> !o.stop.OutOfFuel?
    decreases i, fns[i].body, 1
  {
    SeqTerminates(u, fns, i, fns[i].body, map[], out, fuel);
  }

  lemma {:induction false} SeqTerminates(u: Fpu, fns: seq<FunctionDecl>, i: nat, stmts: seq<Stmt>, env: Env,
                                         out: seq<Val>, fuel: nat)
    requires Bounded(fns) && i < |fns| && CallsInSeq(stmts, NamesBefore(fns, i)) && LoopFree(stmts) && fuel >= i
    ensures var o := ExecSeq(u, ProgramOf(fns), stmts, env, out, fuel); o.Stops? ==> !o.stop.OutOfFuel?
    decreases i, stmts, 0
  {
    hide Bounded, NamesBefore;
    if stmts != [] {
      StmtTerminates(u, fns, i, stmts[0], env, out, fuel);
      var o := Exec(u, ProgramOf(fns), stmts[0], env, out, fuel);
      if o.Normal? {
        SeqTerminates(u, fns, i, stmts[1..], o.env, o.out, fuel);
      }
    }
  }

  lemma {:induction false} StmtTerminates(u: Fpu, fns: seq<FunctionDecl>, i: nat, s: Stmt, env: Env, out: seq<Val>,
                                          fuel: nat)
    requires Bounded(fns) && i < |fns| && CallsInStmt(s, NamesBefore(fns, i)) && LoopFreeStmt(s) && fuel >= i
    ensures var o := Exec(u, ProgramOf(fns), s, env, out, fuel); o.Stops? ==> !o.stop.OutOfFuel?
    decreases i, s
  {
    hide Bounded, NamesBefore, Eval;
    match s
    case DeclStmt(_, _, value, _) => EvalTerminates(u, fns, i, value, env, out, fuel);
    case AssignStmt(_, value) => EvalTerminates(u, fns, i, value, env, out, fuel);
    case ShowStmt(expr, _) => EvalTerminates(u, fns, i, expr, env, out, fuel);
    case ReturnStmt(expr, _) => EvalTerminates(u, fns, i, expr, env, out, fuel);
    case IfStmt(link) => LinkTerminates(u, fns, i, link, env, out, fuel);
    case BreakStmt =>
    case CycleStmt =>
  }

  lemma {:induction false} LinkTerminates(u: Fpu, fns: seq<FunctionDecl>, i: nat, link: IfLink, env: Env, out: seq<Val>,
                                          fuel: nat)
    requires Bounded(fns) && i < |fns| && CallsInLink(link, NamesBefore(fns, i)) && LoopFreeLink(link) && fuel >= i
    ensures var o := ExecLink(u, ProgramOf(fns), link, env, out, fuel); o.Stops? ==> !o.stop.OutOfFuel?
    decreases i, link
  {
    hide Bounded, NamesBefore, Eval, Exec;
    EvalTerminates(u, fns, i, link.cond, env, out, fuel);
    var r := Eval(u, ProgramOf(fns), link.cond, env, out, fuel);
    if r.Value? {
      if r.v.BoolV? && r.v.b {
        SeqTerminates(u, fns, i, link.thn, env, r.out, fuel);
      } else {
        ElseTerminates(u, fns, i, link.els, env, r.out, fuel);
      }
    }
  }

  lemma {:induction false} ElseTerminates(u: Fpu, fns: seq<FunctionDecl>, i: nat, els: ElsePart, env: Env,
                                          out: seq<Val>, fuel: nat)
    requires Bounded(fns) && i < |fns| && fuel >= i
    requires els.ElseBlock? ==> CallsInSeq(els.stmts, NamesBefore(fns, i)) && LoopFree(els.stmts)
    requires els.ElseIfLink? ==> CallsInLink(els.next, NamesBefore(fns, i)) && LoopFreeLink(els.next)
    ensures var o := ExecElse(u, ProgramOf(fns), els, env, out, fuel); o.Stops? ==> !o.stop.OutOfFuel?
    decreases i, els
  {
    hide Bounded, NamesBefore, Eval, Exec;
    match els
    case NoElse =>
    case ElseBlock(stmts) => SeqTerminates(u, fns, i, stmts, env, out, fuel);
    case ElseIfLink(next) => LinkTerminates(u, fns, i, next, env, out, fuel);
  }

  // ----- loops and calls do not depend on annotations -----

  lemma {:induction false} ExprCallsErased(e: Expr, names: set<string>)
    ensures CallsIn(Erase(e), names) == CallsIn(e, names)
  {
    if e.Binary? {
      ExprCallsErased(e.lhs, names);
      ExprCallsErased(e.rhs, names);
    }
  }

  lemma {:induction false} StmtBoundErased(s: Stmt, names: set<string>)
    ensures LoopFreeStmt(EraseStmt(s)) == LoopFreeStmt(s) && CallsInStmt(EraseStmt(s), names) == CallsInStmt(s, names)
    decreases s
  {
    match s
    case DeclStmt(_, _, value, _) => ExprCallsErased(value, names);
    case AssignStmt(_, value) => ExprCallsErased(value, names);
    case ShowStmt(expr, _) => ExprCallsErased(expr, names);
    case ReturnStmt(expr, _) => ExprCallsErased(expr, names);
    case IfStmt(link) => LinkBoundErased(link, names);
    case LoopStmt(body) => SeqBoundErased(body, names);
    case BreakStmt =>
    case CycleStmt =>
  }

  lemma {:induction false} LinkBoundErased(link: IfLink, names: set<string>)
    ensures LoopFreeLink(EraseLink(link)) == LoopFreeLink(link)
    ensures CallsInLink(EraseLink(link), names) == CallsInLink(link, names)
    decreases link
  {
    ExprCallsErased(link.cond, names);
    SeqBoundErased(link.thn, names);
    match link.els
    case NoElse =>
    case ElseBlock(stmts) => SeqBoundErased(stmts, names);
    case ElseIfLink(next) => LinkBoundErased(next, names);
  }

  lemma {:induction false} SeqBoundErased(stmts: seq<Stmt>, names: set<string>)
    ensures LoopFree(EraseSeq(stmts)) == LoopFree(stmts)
    ensures CallsInSeq(EraseSeq(stmts), names) == CallsInSeq(stmts, names)
    decreases stmts
  {
    if stmts != [] {
      StmtBoundErased(stmts[0], names);
      SeqBoundErased(stmts[1..], names);
      assert EraseSeq(stmts)[1..] == EraseSeq(stmts[1..]);
    }
  }

  /** Every accepted loop-free program terminates: function number i needs no more than i units of fuel.
      Nothing else is asked, neither distinct names nor typed expressions. */
  lemma LoopFreeTerminates(u: Fpu, floatFits: (string, TypeId) -> bool, fns: seq<FunctionDecl>, i: nat, fuel: nat)
    requires CheckFunctions(InitialState(floatFits), fns).Ok?
    requires forall k | 0 <= k < |fns| :: LoopFree(fns[k].body)
    requires i < |fns| && fuel >= i
    ensures var p := ProgramOf(CheckFunctions(InitialState(floatFits), fns).value.1);
            && fns[i].name in p
            && var r := Run(u, p, fns[i].name, fuel); (r.EvalStop? ==> !r.stop.OutOfFuel?)
  {
    hide CallsInSeq, LoopFree, EraseSeq, CheckFunctions;
    var fns' := CheckFunctions(InitialState(floatFits), fns).value.1;
    CallsGoBack(floatFits, fns);
    FunctionsErase(InitialState(floatFits), fns);
    forall k | 0 <= k < |fns'|
      ensures LoopFree(fns'[k].body) && CallsInSeq(fns'[k].body, NamesBefore(fns', k))
    {
      assert forall j | 0 <= j < |fns| :: EraseFunction(fns'[j]) == EraseFunction(fns[j])
                                          && fns'[j].name == fns[j].name;
      assert NamesBefore(fns', k) == NamesBefore(fns, k);
      SeqBoundErased(fns'[k].body, NamesBefore(fns, k));
      SeqBoundErased(fns[k].body, NamesBefore(fns, k));
    }
    assert EraseFunction(fns'[i]) == EraseFunction(fns[i]);
    var j := FirstNamed(fns', i);
    FunctionTerminates(u, fns', j, [], fuel);
  }
}
