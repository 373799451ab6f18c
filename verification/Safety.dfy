/** Typed programs over integers, Bools and doubles never go wrong, unless they return something that is not
    32 bits wide. */
module Safety {
  import opened Results
  import opened Syntax
  import opened Floats
  import opened Semantics
  import opened Arithmetic
  import opened Typing
  import opened Scoping

  // ----- the fragment -----

  predicate SupportedOperator(op: TokenKind) {
    IsBoolOperator(op) || op in {TokenKind.Plus, TokenKind.Minus, TokenKind.Asterisk, TokenKind.ForwardSlash}
  }

  predicate FragmentType(t: TypeId) {
    IsInteger(t) || t.Bool? || t.Float64?
  }

  /** Integers, Bools and doubles: no integer literal used as a float, float literals used as the doubles they are,
      operators with an instruction, on numbers. */
  predicate InFragment(e: Expr) {
    match e
    case IntLit(_, resolved) => resolved.Some? && IsInteger(resolved.value)
    case FloatLit(_, resolved) => resolved == Some(Float64)
    case Var(_, resolved) => resolved.Some? && FragmentType(resolved.value)
    case Call(_) => true
    case Binary(op, lhs, rhs, operand, _) =>
      && SupportedOperator(op) && operand.Some? && FragmentType(operand.value) && !operand.value.Bool?
      && InFragment(lhs) && InFragment(rhs)
  }

  predicate FragmentStmt(s: Stmt)
    decreases s
  {
    match s
    case DeclStmt(_, _, value, declared) =>
      declared.Some? && FragmentType(declared.value) && InFragment(value)
    case AssignStmt(_, value) => InFragment(value)
    case ShowStmt(expr, _) => InFragment(expr)
    case ReturnStmt(expr, _) => InFragment(expr)
    case IfStmt(link) => FragmentLink(link)
    case LoopStmt(body) => FragmentSeq(body)
    case BreakStmt => true
    case CycleStmt => true
  }

  predicate FragmentLink(link: IfLink)
    decreases link
  {
    && InFragment(link.cond) && FragmentSeq(link.thn)
    && match link.els
       case NoElse => true
       case ElseBlock(stmts) => FragmentSeq(stmts)
       case ElseIfLink(next) => FragmentLink(next)
  }

  predicate FragmentSeq(stmts: seq<Stmt>)
    decreases stmts
  {
    stmts == [] || (FragmentStmt(stmts[0]) && FragmentSeq(stmts[1..]))
  }

  /** Every return is 32 bits wide. */
  predicate WordReturnsStmt(s: Stmt)
    decreases s
  {
    match s
    case ReturnStmt(_, exprType) => exprType.Some? && IsWord(exprType.value)
    case IfStmt(link) => WordReturnsLink(link)
    case LoopStmt(body) => WordReturns(body)
    case _ => true
  }

  predicate WordReturnsLink(link: IfLink)
    decreases link
  {
    && WordReturns(link.thn)
    && match link.els
       case NoElse => true
       case ElseBlock(stmts) => WordReturns(stmts)
       case ElseIfLink(next) => WordReturnsLink(next)
  }

  predicate WordReturns(stmts: seq<Stmt>)
    decreases stmts
  {
    stmts == [] || (WordReturnsStmt(stmts[0]) && WordReturns(stmts[1..]))
  }

  // ----- typed environments and programs -----

  ghost predicate EnvAtLeast(g: Gamma, env: Env) {
    forall x {:trigger HasVal(g, env, x)} | x in g.vars :: HasVal(g, env, x)
  }

  ghost predicate HasVal(g: Gamma, env: Env, x: string)
    requires x in g.vars
  {
    x in env && ValOk(env[x]) && TypeOf(env[x]) == g.vars[x]
  }

  ghost predicate EnvOk(g: Gamma, env: Env) {
    env.Keys == g.vars.Keys && EnvAtLeast(g, env)
  }

  /** Every body is typed against the functions of the program, all of which return Int32. */
  ghost predicate ProgramTyped(p: Program, functions: map<string, TypeId>) {
    && functions.Keys <= p.Keys
    && (forall f | f in functions :: functions[f] == Int32)
    && (forall f {:trigger BodyTyped(p, functions, f)} | f in p :: BodyTyped(p, functions, f))
  }

  ghost predicate BodyTyped(p: Program, functions: map<string, TypeId>, f: string)
    requires f in p
  {
    TypedSeq(Gamma(map[], functions), p[f], false) && FragmentSeq(p[f]) && WordReturns(p[f])
  }

  ghost predicate EvalSafe(r: EvalResult, t: TypeId) {
    match r
    case Value(v, _) => ValOk(v) && TypeOf(v) == t
    case EvalStop(s) => !s.Wrong?
  }

  /** A statement list ends in no wrong state, jumps only out of loops, and leaves the values typed. */
  ghost predicate ExecSafe(o: Outcome, g: Gamma, after: Gamma, inLoop: bool) {
    match o
    case Normal(env, _) => EnvOk(after, env)
    case Broke(env, _) => inLoop && EnvAtLeast(g, env)
    case Cycled(env, _) => inLoop && EnvAtLeast(g, env)
    case Returns(v, _) => ValOk(v) && TypeOf(v) == Int32
    case Stops(s) => !s.Wrong?
  }

  lemma {:induction false} EvalNeverWrong(u: Fpu, p: Program, g: Gamma, e: Expr, t: TypeId, env: Env, out: seq<Val>,
                                          fuel: nat)
    requires ProgramTyped(p, g.functions) && EnvOk(g, env) && HasType(g, e, t) && InFragment(e)
    ensures EvalSafe(Eval(u, p, e, env, out, fuel), t)
    decreases fuel, e
  {
    match e
    case Var(name, _) => assert HasVal(g, env, name);
    case Call(name) =>
      if fuel > 0 {
        assert BodyTyped(p, g.functions, name);
        BlockNeverWrong(u, p, Gamma(map[], g.functions), p[name], map[], out, fuel - 1, false);
      }
    case Binary(_, _, _, _, _) => BinaryNeverWrong(u, p, g, e, t, env, out, fuel);
    case _ =>
  }

  lemma {:induction false} BinaryNeverWrong(u: Fpu, p: Program, g: Gamma, e: Expr, t: TypeId, env: Env, out: seq<Val>,
                                            fuel: nat)
    requires e.Binary? && ProgramTyped(p, g.functions) && EnvOk(g, env) && HasType(g, e, t) && InFragment(e)
    ensures EvalSafe(Eval(u, p, e, env, out, fuel), t)
    decreases fuel, e, 0
  {
    hide Eval, ProgramTyped, EnvOk;
    EvalBinary(u, p, e, env, out, fuel);
    EvalNeverWrong(u, p, g, e.lhs, e.operand.value, env, out, fuel);
    var l := Eval(u, p, e.lhs, env, out, fuel);
    if l.Value? {
      EvalNeverWrong(u, p, g, e.rhs, e.operand.value, env, l.out, fuel);
      var r := Eval(u, p, e.rhs, env, l.out, fuel);
      if r.Value? && Apply(u, e.op, e.operand, e.resolved, l.v, r.v).Result? {
        ApplyOk(u, e.op, e.operand, e.resolved, l.v, r.v);
      }
    }
  }

  lemma {:induction false} StmtNeverWrong(u: Fpu, p: Program, g: Gamma, s: Stmt, env: Env, out: seq<Val>, fuel: nat,
                                          inLoop: bool)
    requires ProgramTyped(p, g.functions) && EnvOk(g, env) && TypedStmt(g, s, inLoop)
    requires FragmentStmt(s) && WordReturnsStmt(s)
    ensures ExecSafe(Exec(u, p, s, env, out, fuel), g, After(g, s), inLoop)
    decreases fuel, s
  {
    match s
    case DeclStmt(name, _, value, declared) =>
      EvalNeverWrong(u, p, g, value, declared.value, env, out, fuel);
      var r := Eval(u, p, value, env, out, fuel);
      if r.Value? {
        AfterStore(g, env, name, r.v);
      }
    case AssignStmt(name, value) =>
      EvalNeverWrong(u, p, g, value, g.vars[name], env, out, fuel);
      assert HasVal(g, env, name);
      var r := Eval(u, p, value, env, out, fuel);
      if r.Value? {
        AfterStore(g, env, name, r.v);
        assert g.vars[name := TypeOf(r.v)] == g.vars;
      }
    case ShowStmt(expr, exprType) => EvalNeverWrong(u, p, g, expr, exprType.value, env, out, fuel);
    case ReturnStmt(expr, exprType) => EvalNeverWrong(u, p, g, expr, exprType.value, env, out, fuel);
    case IfStmt(link) => LinkNeverWrong(u, p, g, link, env, out, fuel, inLoop);
    case LoopStmt(body) => LoopNeverWrong(u, p, g, body, env, out, fuel);
    case BreakStmt =>
    case CycleStmt =>
  }

  lemma AfterStore(g: Gamma, env: Env, name: string, v: Val)
    requires EnvOk(g, env) && ValOk(v)
    ensures EnvOk(g.(vars := g.vars[name := TypeOf(v)]), env[name := v])
  {
    var g', env' := g.(vars := g.vars[name := TypeOf(v)]), env[name := v];
    forall x | x in g'.vars
      ensures HasVal(g', env', x)
    {
      assert x != name ==> HasVal(g, env, x);
    }
  }

  lemma {:induction false} LinkNeverWrong(u: Fpu, p: Program, g: Gamma, link: IfLink, env: Env, out: seq<Val>,
                                          fuel: nat, inLoop: bool)
    requires ProgramTyped(p, g.functions) && EnvOk(g, env) && TypedLink(g, link, inLoop)
    requires FragmentLink(link) && WordReturnsLink(link)
    ensures ExecSafe(ExecLink(u, p, link, env, out, fuel), g, g, inLoop)
    decreases fuel, link
  {
    EvalNeverWrong(u, p, g, link.cond, TypeId.Bool, env, out, fuel);
    var r := Eval(u, p, link.cond, env, out, fuel);
    if r.Value? {
      if r.v.b {
        BlockNeverWrong(u, p, g, link.thn, env, r.out, fuel, inLoop);
      } else {
        match link.els
        case NoElse =>
        case ElseBlock(stmts) => BlockNeverWrong(u, p, g, stmts, env, r.out, fuel, inLoop);
        case ElseIfLink(next) => LinkNeverWrong(u, p, g, next, env, r.out, fuel, inLoop);
      }
    }
  }

  lemma {:induction false} LoopNeverWrong(u: Fpu, p: Program, g: Gamma, body: seq<Stmt>, env: Env, out: seq<Val>,
                                          fuel: nat)
    requires ProgramTyped(p, g.functions) && EnvOk(g, env) && TypedSeq(g, body, true)
    requires FragmentSeq(body) && WordReturns(body)
    ensures ExecSafe(ExecLoop(u, p, body, env, out, fuel), g, g, false)
    decreases fuel, body, 2
  {
    if fuel > 0 {
      BlockNeverWrong(u, p, g, body, env, out, fuel - 1, true);
      var o := ExecBlock(u, p, body, env, out, fuel - 1);
      if o.Normal? || o.Cycled? {
        LoopNeverWrong(u, p, g, body, o.env, o.out, fuel - 1);
      }
    }
  }

  /** Leaving a block cuts the values back to the names that were there. */
  lemma {:induction false} BlockNeverWrong(u: Fpu, p: Program, g: Gamma, stmts: seq<Stmt>, env: Env, out: seq<Val>,
                                           fuel: nat, inLoop: bool)
    requires ProgramTyped(p, g.functions) && EnvOk(g, env) && TypedSeq(g, stmts, inLoop)
    requires FragmentSeq(stmts) && WordReturns(stmts)
    ensures ExecSafe(ExecBlock(u, p, stmts, env, out, fuel), g, g, inLoop)
    ensures var o := ExecBlock(u, p, stmts, env, out, fuel); o.Broke? || o.Cycled? ==> EnvOk(g, o.env)
    decreases fuel, stmts, 1
  {
    SeqNeverWrong(u, p, g, stmts, env, out, fuel, inLoop);
    var o := ExecSeq(u, p, stmts, env, out, fuel);
    if o.Normal? || o.Broke? || o.Cycled? {
      CutBack(g, o.env, env.Keys);
    }
  }

  lemma CutBack(g: Gamma, env: Env, keep: set<string>)
    requires EnvAtLeast(g, env) && keep == g.vars.Keys
    ensures EnvOk(g, map x | x in env && x in keep :: env[x])
  {
    var inner := map x | x in env && x in keep :: env[x];
    forall x | x in g.vars
      ensures HasVal(g, inner, x)
    {
      assert HasVal(g, env, x);
    }
  }

  lemma {:induction false} SeqNeverWrong(u: Fpu, p: Program, g: Gamma, stmts: seq<Stmt>, env: Env, out: seq<Val>,
                                         fuel: nat, inLoop: bool)
    requires ProgramTyped(p, g.functions) && EnvOk(g, env) && TypedSeq(g, stmts, inLoop)
    requires FragmentSeq(stmts) && WordReturns(stmts)
    ensures var o := ExecSeq(u, p, stmts, env, out, fuel);
            && (o.Normal? || o.Broke? || o.Cycled? ==> EnvAtLeast(g, o.env))
            && (o.Broke? || o.Cycled? ==> inLoop)
            && (o.Returns? ==> ValOk(o.v) && TypeOf(o.v) == Int32)
            && (o.Stops? ==> !o.stop.Wrong?)
    decreases fuel, stmts, 0
  {
    if stmts != [] {
      StmtNeverWrong(u, p, g, stmts[0], env, out, fuel, inLoop);
      var o := Exec(u, p, stmts[0], env, out, fuel);
      if o.Normal? {
        var g1 := After(g, stmts[0]);
        SeqNeverWrong(u, p, g1, stmts[1..], o.env, o.out, fuel, inLoop);
        var o1 := ExecSeq(u, p, stmts[1..], o.env, o.out, fuel);
        if o1.Normal? || o1.Broke? || o1.Cycled? {
          Narrower(g, stmts[0], o1.env);
        }
      }
    }
  }

  lemma Narrower(g: Gamma, s: Stmt, env: Env)
    requires EnvAtLeast(After(g, s), env) && (s.DeclStmt? ==> s.name !in g.vars)
    ensures EnvAtLeast(g, env)
  {
    forall x | x in g.vars
      ensures HasVal(g, env, x)
    {
      assert HasVal(After(g, s), env, x);
    }
  }

  /** A typed program of the fragment never goes wrong, whatever function is run with whatever fuel. */
  lemma RunNeverWrong(u: Fpu, p: Program, functions: map<string, TypeId>, f: string, fuel: nat)
    requires ProgramTyped(p, functions) && f in p
    ensures Run(u, p, f, fuel) != EvalStop(Wrong)
  {
    assert BodyTyped(p, functions, f);
    BlockNeverWrong(u, p, Gamma(map[], functions), p[f], map[], [], fuel, false);
  }
}
