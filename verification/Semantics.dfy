/** A reference semantics of annotated programs, structured and without basic blocks: variables hold
    mathematical integers in the range of their type, and block-local names end with their block.
    Fuel bounds loop iterations and call depth; running out of it is a result of its own. */
module Semantics {
  import opened Results
  import opened Syntax
  import opened Integers
  import opened Floats

  datatype Val = IntV(ty: TypeId, n: int) | BoolV(b: bool) | DoubleV(x: Double)

  type Env = map<string, Val>

  type Program = map<string, seq<Stmt>>

  datatype Stop =
    | OutOfFuel(out: seq<Val>)
    | Trap(out: seq<Val>)        // division by zero or an unrepresentable quotient
    | FellOff(out: seq<Val>)     // a function body ended without return
    | Wrong                      // ill-typed or unsupported construct

  datatype EvalResult = Value(v: Val, out: seq<Val>) | EvalStop(stop: Stop)

  datatype Outcome =
    | Normal(env: Env, out: seq<Val>)
    | Broke(env: Env, out: seq<Val>)
    | Cycled(env: Env, out: seq<Val>)
    | Returns(v: Val, out: seq<Val>)
    | Stops(stop: Stop)

  function TypeOf(v: Val): TypeId {
    match v
    case IntV(ty, _) => ty
    case BoolV(_) => TypeId.Bool
    case DoubleV(_) => Float64
  }

  predicate ValOk(v: Val) {
    v.IntV? ==> IsInteger(v.ty) && InRange(v.ty, v.n)
  }

  datatype Arith = Result(v: Val) | ArithTrap | ArithWrong

  /** What an operator means on two values of integer type t: wrapping + - *, division toward zero,
      and mathematical comparison. */
  function Meaning(op: TokenKind, t: TypeId, a: int, b: int): Arith
    requires IsInteger(t)
  {
    match op
    case Plus => Result(IntV(t, Wrap(t, a + b)))
    case Minus => Result(IntV(t, Wrap(t, a - b)))
    case Asterisk => Result(IntV(t, Wrap(t, a * b)))
    case ForwardSlash =>
      if b == 0 || !InRange(t, TruncDiv(a, b)) then ArithTrap else Result(IntV(t, TruncDiv(a, b)))
    case GreaterThan => Result(BoolV(a > b))
    case LessThan => Result(BoolV(a < b))
    case GreaterThanEquals => Result(BoolV(a >= b))
    case LessThanEquals => Result(BoolV(a <= b))
    case Equals => Result(BoolV(a == b))
    case _ => ArithWrong
  }

  /** What an operator means on two doubles. */
  function DoubleMeaning(u: Fpu, op: TokenKind, a: Double, b: Double): Arith {
    match op
    case Plus => Result(DoubleV(u.plus(a, b)))
    case Minus => Result(DoubleV(u.minus(a, b)))
    case Asterisk => Result(DoubleV(u.times(a, b)))
    case ForwardSlash => Result(DoubleV(u.over(a, b)))
    case GreaterThan => Result(BoolV(u.above(a, b)))
    case LessThan => Result(BoolV(u.below(a, b)))
    case GreaterThanEquals => Result(BoolV(u.atLeast(a, b)))
    case LessThanEquals => Result(BoolV(u.atMost(a, b)))
    case Equals => Result(BoolV(u.same(a, b)))
    case _ => ArithWrong
  }

  /** A binary node means something only if its annotations describe its operands and its result. */
  function Apply(u: Fpu, op: TokenKind, operand: Option<TypeId>, resolved: Option<TypeId>, a: Val, b: Val): Arith {
    if TypeOf(a) != TypeOf(b) || operand != Some(TypeOf(a))
       || resolved != Some(if IsBoolOperator(op) then TypeId.Bool else TypeOf(a))
    then ArithWrong
    else if a.IntV? && b.IntV? && IsInteger(a.ty) then Meaning(op, a.ty, a.n, b.n)
    else if a.DoubleV? && b.DoubleV? then DoubleMeaning(u, op, a.x, b.x)
    else ArithWrong
  }

  function Eval(u: Fpu, p: Program, e: Expr, env: Env, out: seq<Val>, fuel: nat): EvalResult
    decreases fuel, e
  {
    match e
    case IntLit(value, resolved) =>
      if resolved.Some? && IsInteger(resolved.value) && InRange(resolved.value, value)
      then Value(IntV(resolved.value, value), out)
      else EvalStop(Wrong)
    case FloatLit(digits, resolved) =>
      // a float literal is a double, whatever type it is used at
      if resolved == Some(Float64) then Value(DoubleV(u.constant(digits)), out) else EvalStop(Wrong)
    case Var(name, resolved) =>
      if name in env && resolved == Some(TypeOf(env[name])) then Value(env[name], out)
      else EvalStop(Wrong)
    case Call(name) =>
      if name !in p then EvalStop(Wrong)
      else if fuel == 0 then EvalStop(OutOfFuel(out))
      else CallResult(ExecBlock(u, p, p[name], map[], out, fuel - 1))
    case Binary(op, lhs, rhs, operand, resolved) =>
      match Eval(u, p, lhs, env, out, fuel)
      case EvalStop(s) => EvalStop(s)
      case Value(a, out1) =>
        match Eval(u, p, rhs, env, out1, fuel)
        case EvalStop(s) => EvalStop(s)
        case Value(b, out2) =>
          match Apply(u, op, operand, resolved, a, b)
          case Result(v) => Value(v, out2)
          case ArithTrap => EvalStop(Trap(out2))
          case ArithWrong => EvalStop(Wrong)
  }

  /** An operator's value in terms of its operands'. */
  lemma EvalBinary(u: Fpu, p: Program, e: Expr, env: Env, out: seq<Val>, fuel: nat)
    requires e.Binary?
    ensures var first := Eval(u, p, e.lhs, env, out, fuel);
            Eval(u, p, e, env, out, fuel) ==
            if first.EvalStop? then first
            else
              var second := Eval(u, p, e.rhs, env, first.out, fuel);
              if second.EvalStop? then second
              else
                match Apply(u, e.op, e.operand, e.resolved, first.v, second.v)
                case Result(v) => Value(v, second.out)
                case ArithTrap => EvalStop(Trap(second.out))
                case ArithWrong => EvalStop(Wrong)
  {
    hide Apply;
  }

  /** Types whose values fill the result of a function. */
  predicate IsWord(t: TypeId) {
    t.Int32? || t.UInt32?
  }

  /** Every function is an Int32 to its caller; an unsigned result is read as a signed one. */
  function AsResult(v: Val): Val {
    if v.IntV? then IntV(Int32, Wrap(Int32, v.n)) else v
  }

  /** What the caller sees when a function body has run. */
  function CallResult(o: Outcome): EvalResult {
    match o
    case Returns(v, out) => Value(v, out)
    case Normal(_, out) => EvalStop(FellOff(out))
    case Stops(s) => EvalStop(s)
    case Broke(_, _) => EvalStop(Wrong)
    case Cycled(_, _) => EvalStop(Wrong)
  }

  function Exec(u: Fpu, p: Program, s: Stmt, env: Env, out: seq<Val>, fuel: nat): Outcome
    decreases fuel, s
  {
    match s
    case DeclStmt(name, _, value, declared) =>
      (match Eval(u, p, value, env, out, fuel)
       case EvalStop(stop) => Stops(stop)
       case Value(v, out1) =>
         if name in env || declared != Some(TypeOf(v)) then Stops(Wrong)
         else Normal(env[name := v], out1))
    case AssignStmt(name, value) =>
      (match Eval(u, p, value, env, out, fuel)
       case EvalStop(stop) => Stops(stop)
       case Value(v, out1) =>
         if name !in env || TypeOf(env[name]) != TypeOf(v) then Stops(Wrong)
         else Normal(env[name := v], out1))
    case ShowStmt(expr, _) =>
      (match Eval(u, p, expr, env, out, fuel)
       case EvalStop(stop) => Stops(stop)
       case Value(v, out1) => Normal(env, out1 + [v]))
    case ReturnStmt(expr, _) =>
      (match Eval(u, p, expr, env, out, fuel)
       case EvalStop(stop) => Stops(stop)
       case Value(v, out1) => if IsWord(TypeOf(v)) then Returns(AsResult(v), out1) else Stops(Wrong))
    case IfStmt(link) => ExecLink(u, p, link, env, out, fuel)
    case LoopStmt(body) => ExecLoop(u, p, body, env, out, fuel)
    case BreakStmt => Broke(env, out)
    case CycleStmt => Cycled(env, out)
  }

  function ExecLink(u: Fpu, p: Program, link: IfLink, env: Env, out: seq<Val>, fuel: nat): Outcome
    decreases fuel, link
  {
    match Eval(u, p, link.cond, env, out, fuel)
    case EvalStop(stop) => Stops(stop)
    case Value(v, out1) =>
      if !v.BoolV? then Stops(Wrong)
      else if v.b then ExecBlock(u, p, link.thn, env, out1, fuel)
      else ExecElse(u, p, link.els, env, out1, fuel)
  }

  function ExecElse(u: Fpu, p: Program, els: ElsePart, env: Env, out: seq<Val>, fuel: nat): Outcome
    decreases fuel, els
  {
    match els
    case NoElse => Normal(env, out)
    case ElseBlock(stmts) => ExecBlock(u, p, stmts, env, out, fuel)
    case ElseIfLink(next) => ExecLink(u, p, next, env, out, fuel)
  }

  function ExecLoop(u: Fpu, p: Program, body: seq<Stmt>, env: Env, out: seq<Val>, fuel: nat): Outcome
    decreases fuel, body, 2
  {
    if fuel == 0 then Stops(OutOfFuel(out))
    else
      match ExecBlock(u, p, body, env, out, fuel - 1)
      case Normal(env1, out1) => ExecLoop(u, p, body, env1, out1, fuel - 1)
      case Cycled(env1, out1) => ExecLoop(u, p, body, env1, out1, fuel - 1)
      case Broke(env1, out1) => Normal(env1, out1)
      case Returns(v, out1) => Returns(v, out1)
      case Stops(stop) => Stops(stop)
  }

  /** One round of a loop. */
  lemma LoopRound(u: Fpu, p: Program, body: seq<Stmt>, env: Env, out: seq<Val>, fuel: nat)
    ensures fuel == 0 ==> ExecLoop(u, p, body, env, out, fuel) == Stops(OutOfFuel(out))
    ensures fuel > 0 ==>
              var o := ExecBlock(u, p, body, env, out, fuel - 1);
              ExecLoop(u, p, body, env, out, fuel) ==
              if o.Normal? || o.Cycled? then ExecLoop(u, p, body, o.env, o.out, fuel - 1)
              else if o.Broke? then Normal(o.env, o.out) else o
  {
    hide ExecBlock;
  }

  /** Names declared in a block end with it, however the block is left. */
  function Leave(o: Outcome, keep: set<string>): Outcome {
    match o
    case Normal(env, out) => Normal(map x | x in env && x in keep :: env[x], out)
    case Broke(env, out) => Broke(map x | x in env && x in keep :: env[x], out)
    case Cycled(env, out) => Cycled(map x | x in env && x in keep :: env[x], out)
    case Returns(_, _) => o
    case Stops(_) => o
  }

  function ExecBlock(u: Fpu, p: Program, stmts: seq<Stmt>, env: Env, out: seq<Val>, fuel: nat): Outcome
    decreases fuel, stmts, 1
  {
    Leave(ExecSeq(u, p, stmts, env, out, fuel), env.Keys)
  }

  function ExecSeq(u: Fpu, p: Program, stmts: seq<Stmt>, env: Env, out: seq<Val>, fuel: nat): Outcome
    decreases fuel, stmts, 0
  {
    if stmts == [] then Normal(env, out)
    else
      match Exec(u, p, stmts[0], env, out, fuel)
      case Normal(env1, out1) => ExecSeq(u, p, stmts[1..], env1, out1, fuel)
      case Broke(env1, out1) => Broke(env1, out1)
      case Cycled(env1, out1) => Cycled(env1, out1)
      case Returns(v, out1) => Returns(v, out1)
      case Stops(stop) => Stops(stop)
  }

  /** Running one function of a program with nothing printed yet. */
  function Run(u: Fpu, p: Program, f: string, fuel: nat): EvalResult
    requires f in p
  {
    CallResult(ExecBlock(u, p, p[f], map[], [], fuel))
  }
}
