/** Lowering preserves meaning: the emitted blocks, run by the step machine, do what the structured
    semantics does, step for step as far as the fuel goes. */
module Lowering {
  import opened Results
  import opened Syntax
  import opened Integers
  import opened Floats
  import opened Ir
  import opened Semantics
  import opened Codegen
  import opened Layout
  import opened Arithmetic

  /** A program, its module, and the functions each function could see when it was emitted. */
  datatype World = World(p: Program, m: Module, known: map<string, set<string>>)

  ghost predicate WorldOk(w: World) {
    && w.p.Keys == w.known.Keys == w.m.Keys
    && forall f {:trigger BodyOk(w, f)} | f in w.p :: BodyOk(w, f)
  }

  /** The module holds exactly the blocks emitted for f. */
  ghost predicate BodyOk(w: World, f: string)
    requires f in w.p && f in w.known && f in w.m
  {
    && EmitBlock(w.known[f], START, w.p[f]).Ok?
    && w.m[f] == EmitBlock(w.known[f], START, w.p[f]).value.blocks
  }

  /** One activation of one function: its final blocks and slots, and who waits for its result. */
  datatype Site = Site(u: Fpu, w: World, fn: string, blocks: seq<Block>, named: map<string, nat>, callers: Callers)

  ghost predicate SiteOk(c: Site) {
    && WorldOk(c.w)
    && c.fn in c.w.m
    && c.blocks == c.w.m[c.fn]
    && forall x, y | x in c.named && y in c.named && x != y :: c.named[x] != c.named[y]
  }

  /** The builder b is an earlier stage of what became the function. */
  ghost predicate Fits(c: Site, b: Builder) {
    b.Valid() && Extends(b.blocks, c.blocks) && NamesKept(b.named, c.named)
  }

  lemma FitsBefore(c: Site, b: Builder, b': Builder)
    requires b.Valid() && Grows(b, b') && Fits(c, b')
    ensures Fits(c, b)
  {
    ExtendsTrans(b.blocks, b'.blocks, c.blocks);
  }

  /** The machine at the insertion point of b. */
  function At(c: Site, b: Builder, regs: map<nat, Word>, slots: map<nat, Cell>, out: seq<Val>): Machine
    requires b.Valid()
  {
    AtBlock(c, b.cur, |b.blocks[b.cur]|, regs, slots, out)
  }

  function AtBlock(c: Site, block: nat, pc: nat, regs: map<nat, Word>, slots: map<nat, Cell>, out: seq<Val>)
    : Machine
  {
    Running(Frame(c.fn, block, pc, regs, slots), c.callers, WordsOf(out))
  }

  /** Every live source variable is in its slot, encoded at its type. */
  ghost predicate Agrees(c: Site, env: Env, slots: map<nat, Cell>) {
    forall x {:trigger InSlot(c, slots, x, env[x])} | x in env :: InSlot(c, slots, x, env[x])
  }

  ghost predicate InSlot(c: Site, slots: map<nat, Cell>, x: string, v: Val) {
    && x in c.named && c.named[x] in slots
    && ValOk(v)
    && slots[c.named[x]] == Cell(TypeOfWord(WordOf(v)), Some(WordOf(v)))
  }

  ghost predicate RegsKept(regs: map<nat, Word>, regs': map<nat, Word>, below: nat) {
    forall r {:trigger KeepsReg(regs, regs', r)} | r in regs && r < below :: KeepsReg(regs, regs', r)
  }

  ghost predicate KeepsReg(regs: map<nat, Word>, regs': map<nat, Word>, r: nat)
    requires r in regs
  {
    r in regs' && regs'[r] == regs[r]
  }

  /** Computing a second operand, and then a result, leaves the first operand and old registers alone. */
  lemma RegsKeptTwice(u: Fpu, regs: map<nat, Word>, regs1: map<nat, Word>, regs2: map<nat, Word>, b0: nat, b1: nat,
                      b2: nat, v: Operand, w: Word, result: Word)
    requires b0 <= b1 <= b2 && RegsKept(regs, regs1, b0) && RegsKept(regs1, regs2, b1) && Holds(u, regs1, v, w, b1)
    ensures RegsKept(regs, regs2, b0) && RegsKept(regs, regs2[b2 := result], b0)
    ensures Read(u, regs2, v) == Some(w)
  {
    forall r | r in regs && r < b0
      ensures KeepsReg(regs, regs2, r) && KeepsReg(regs, regs2[b2 := result], r)
    {
      assert KeepsReg(regs, regs1, r) && KeepsReg(regs1, regs2, r);
    }
    if v.Reg? {
      assert KeepsReg(regs1, regs2, v.id);
    }
  }

  /** An operand that was computed: it reads as w and is not disturbed by later registers. */
  ghost predicate Holds(u: Fpu, regs: map<nat, Word>, v: Operand, w: Word, below: nat) {
    Read(u, regs, v) == Some(w) && (v.Reg? ==> v.id < below)
  }

  /** What the machine must have done when the source stopped early.  Running out of fuel means that
      the machine is still running after at least `fuel` steps, with the same output so far. */
  ghost predicate Stopped(s: Machine, stop: Stop, n: nat, fuel: nat) {
    match stop
    case OutOfFuel(out) => n >= fuel && s.Running? && s.out == WordsOf(out)
    case Trap(out) => s == Halted(DivisionTrap, WordsOf(out))
    case FellOff(out) => s == Halted(NoTerminator, WordsOf(out))
    case Wrong => true
  }

  ghost predicate ExprDone(c: Site, b: Builder, b': Builder, v: Operand, start: Machine, r: EvalResult,
                           regs: map<nat, Word>, slots: map<nat, Cell>, n: nat, regs': map<nat, Word>,
                           fuel: nat)
    requires b'.Valid()
  {
    match r
    case Value(x, out') =>
      && ValOk(x)
      && Steps(c.u, c.w.m, start, n) == At(c, b', regs', slots, out')
      && RegsKept(regs, regs', b.next)
      && Holds(c.u, regs', v, WordOf(x), b'.next)
    case EvalStop(stop) => Stopped(Steps(c.u, c.w.m, start, n), stop, n, fuel)
  }

  /** Where a statement leaves the machine: at the given place if it ends normally, at the start of
      the innermost loop's end or body block, back in the caller, or halted. */
  ghost predicate Lands(c: Site, loops: seq<LoopBlocks>, block: nat, pc: nat, s: Machine, o: Outcome,
                        n: nat, regs: map<nat, Word>, slots: map<nat, Cell>, fuel: nat)
  {
    match o
    case Normal(env, out) => Agrees(c, env, slots) && s == AtBlock(c, block, pc, regs, slots, out)
    case Broke(env, out) =>
      loops != [] && Agrees(c, env, slots)
      && s == AtBlock(c, loops[|loops| - 1].end, 0, regs, slots, out)
    case Cycled(env, out) =>
      n >= 1 && loops != [] && Agrees(c, env, slots)
      && s == AtBlock(c, loops[|loops| - 1].body, 0, regs, slots, out)
    case Returns(v, out) => ValOk(v) && s == GiveBack(WordOf(v), c.callers, WordsOf(out))
    case Stops(stop) => Stopped(s, stop, n, fuel)
  }

  /** One machine step over the instruction appended to b. */
  lemma StepAdded(c: Site, b: Builder, i: Instr, regs: map<nat, Word>, slots: map<nat, Cell>, out: seq<Val>)
    requires SiteOk(c) && b.Valid() && Extends(b.Add(i).blocks, c.blocks)
    ensures Step(c.u, c.w.m, At(c, b, regs, slots, out))
         == StepInstr(c.u, c.w.m, i, Frame(c.fn, b.cur, |b.blocks[b.cur]|, regs, slots), c.callers, WordsOf(out))
  {
    assert Prefix(b.Add(i).blocks[b.cur], c.blocks[b.cur]);
    assert b.Add(i).blocks[b.cur][|b.blocks[b.cur]|] == i;
  }

  lemma OneStep(u: Fpu, m: Module, s: Machine)
    ensures Steps(u, m, s, 1) == Step(u, m, s)
  {
    assert Steps(u, m, s, 1) == Steps(u, m, Step(u, m, s), 0);
  }

  /** One more step after n steps. */
  lemma ThenStep(u: Fpu, m: Module, s: Machine, n: nat)
    ensures Steps(u, m, s, n + 1) == Step(u, m, Steps(u, m, s, n))
  {
    StepsAdd(u, m, s, n, 1);
    OneStep(u, m, Steps(u, m, s, n));
  }

  lemma BinaryFits(c: Site, b: Builder, e: Expr)
    requires e.Binary? && SiteOk(c) && b.Valid()
    requires EmitExpr(c.w.known[c.fn], b, e).Ok? && Fits(c, EmitExpr(c.w.known[c.fn], b, e).value.0)
    ensures var known := c.w.known[c.fn];
            && EmitExpr(known, b, e.lhs).Ok?
            && var l := EmitExpr(known, b, e.lhs).value.0;
            && EmitExpr(known, l, e.rhs).Ok?
            && var r := EmitExpr(known, l, e.rhs).value;
            && Fits(c, l) && Fits(c, r.0) && b.next <= l.next <= r.0.next
            && OpcodeFor(e.op, e.operand, e.resolved).Ok?
            && Extends(EmitExpr(known, b, e).value.0.blocks, c.blocks)
            && EmitExpr(known, b, e).value
               == (r.0.Define(Op(r.0.next, OpcodeFor(e.op, e.operand, e.resolved).value,
                                 EmitExpr(known, b, e.lhs).value.1, r.1)), Reg(r.0.next))
  {
    var known := c.w.known[c.fn];
    var l := EmitExpr(known, b, e.lhs).value;
    var r := EmitExpr(known, l.0, e.rhs).value;
    var opcode := OpcodeFor(e.op, e.operand, e.resolved).value;
    ExprGrows(known, b, e.lhs);
    ExprGrows(known, l.0, e.rhs);
    FitsAdded(c, r.0, Op(r.0.next, opcode, l.1, r.1));
    FitsBefore(c, l.0, r.0);
  }

  lemma {:induction false} SimExpr(c: Site, b: Builder, e: Expr, env: Env, out: seq<Val>, fuel: nat,
                                   regs: map<nat, Word>, slots: map<nat, Cell>)
    returns (n: nat, regs': map<nat, Word>)
    requires SiteOk(c) && b.Valid()
    requires EmitExpr(c.w.known[c.fn], b, e).Ok? && Fits(c, EmitExpr(c.w.known[c.fn], b, e).value.0)
    requires Agrees(c, env, slots)
    ensures var r := EmitExpr(c.w.known[c.fn], b, e).value;
            ExprDone(c, b, r.0, r.1, At(c, b, regs, slots, out), Eval(c.u, c.w.p, e, env, out, fuel),
                     regs, slots, n, regs', fuel)
    decreases fuel, e
  {
    var known := c.w.known[c.fn];
    match e
    case IntLit(value, resolved) =>
      n, regs' := 0, regs;
      if resolved.Some? && IsInteger(resolved.value) && InRange(resolved.value, value) {
        LiteralExact(value, resolved.value);
      }
    case FloatLit(_, _) => n, regs' := 0, regs;
    case Var(name, resolved) =>
      n, regs' := SimVar(c, b, name, resolved, env, out, fuel, regs, slots);
    case Call(name) =>
      n, regs' := SimCall(c, b, name, env, out, fuel, regs, slots);
    case Binary(op, lhs, rhs, operand, resolved) =>
      n, regs' := SimBinary(c, b, e, env, out, fuel, regs, slots);
  }

  lemma {:induction false} SimBinary(c: Site, b: Builder, e: Expr, env: Env, out: seq<Val>, fuel: nat,
                                     regs: map<nat, Word>, slots: map<nat, Cell>)
    returns (n: nat, regs': map<nat, Word>)
    requires e.Binary? && SiteOk(c) && b.Valid()
    requires EmitExpr(c.w.known[c.fn], b, e).Ok? && Fits(c, EmitExpr(c.w.known[c.fn], b, e).value.0)
    requires Agrees(c, env, slots)
    ensures var r := EmitExpr(c.w.known[c.fn], b, e).value;
            ExprDone(c, b, r.0, r.1, At(c, b, regs, slots, out), Eval(c.u, c.w.p, e, env, out, fuel),
                     regs, slots, n, regs', fuel)
    decreases fuel, e, 0
  {
    hide Step, Apply, OpcodeFor, EmitExpr, Eval, Agrees, Fits;
    var known := c.w.known[c.fn];
    BinaryFits(c, b, e);
    EvalBinary(c.u, c.w.p, e, env, out, fuel);
    var l := EmitExpr(known, b, e.lhs).value;
    var r := EmitExpr(known, l.0, e.rhs).value;
    var opcode := OpcodeFor(e.op, e.operand, e.resolved).value;
    var start := At(c, b, regs, slots, out);
    var n1, regs1 := SimExpr(c, b, e.lhs, env, out, fuel, regs, slots);
    n, regs' := n1, regs1;
    var first := Eval(c.u, c.w.p, e.lhs, env, out, fuel);
    if first.Value? {
      var n2, regs2 := SimExpr(c, l.0, e.rhs, env, first.out, fuel, regs1, slots);
      StepsAdd(c.u, c.w.m, start, n1, n2);
      n, regs' := n1 + n2, regs2;
      var second := Eval(c.u, c.w.p, e.rhs, env, first.out, fuel);
      if second.Value? {
        var meaning := Apply(c.u, e.op, e.operand, e.resolved, first.v, second.v);
        if !meaning.ArithWrong? {
          var word := if meaning.Result? then WordOf(meaning.v) else BoolWord(false);
          RegsKeptTwice(c.u, regs, regs1, regs2, b.next, l.0.next, r.0.next, l.1, WordOf(first.v), word);
          StepOp(c, r.0, e, opcode, l.1, r.1, first.v, second.v, regs2, slots, second.out);
          ThenStep(c.u, c.w.m, start, n);
          n := n + 1;
          regs' := if meaning.Result? then regs2[r.0.next := WordOf(meaning.v)] else regs2;
        }
      }
    }
  }

  lemma StepOp(c: Site, b: Builder, e: Expr, opcode: Opcode, x: Operand, y: Operand, u: Val, v: Val,
               regs: map<nat, Word>, slots: map<nat, Cell>, out: seq<Val>)
    requires e.Binary? && SiteOk(c) && b.Valid()
    requires Extends(b.Define(Op(b.next, opcode, x, y)).blocks, c.blocks)
    requires ValOk(u) && ValOk(v) && Read(c.u, regs, x) == Some(WordOf(u)) && Read(c.u, regs, y) == Some(WordOf(v))
    requires OpcodeFor(e.op, e.operand, e.resolved) == Ok(opcode)
    requires !Apply(c.u, e.op, e.operand, e.resolved, u, v).ArithWrong?
    ensures var s := Step(c.u, c.w.m, At(c, b, regs, slots, out));
            match Apply(c.u, e.op, e.operand, e.resolved, u, v)
            case Result(z) =>
              ValOk(z) && s == At(c, b.Define(Op(b.next, opcode, x, y)), regs[b.next := WordOf(z)], slots, out)
            case ArithTrap => s == Halted(DivisionTrap, WordsOf(out))
            case ArithWrong => true
  {
    StepAdded(c, b, Op(b.next, opcode, x, y), regs, slots, out);
    NodeRefines(c.u, e.op, e.operand, e.resolved, u, v, opcode);
    if Apply(c.u, e.op, e.operand, e.resolved, u, v).Result? {
      ApplyOk(c.u, e.op, e.operand, e.resolved, u, v);
    }
  }

  lemma SimVar(c: Site, b: Builder, name: string, resolved: Option<TypeId>, env: Env, out: seq<Val>,
               fuel: nat, regs: map<nat, Word>, slots: map<nat, Cell>)
    returns (n: nat, regs': map<nat, Word>)
    requires SiteOk(c) && b.Valid()
    requires EmitExpr(c.w.known[c.fn], b, Var(name, resolved)).Ok?
    requires Fits(c, EmitExpr(c.w.known[c.fn], b, Var(name, resolved)).value.0)
    requires Agrees(c, env, slots)
    ensures var r := EmitExpr(c.w.known[c.fn], b, Var(name, resolved)).value;
            ExprDone(c, b, r.0, r.1, At(c, b, regs, slots, out),
                     Eval(c.u, c.w.p, Var(name, resolved), env, out, fuel), regs, slots, n, regs', fuel)
  {
    n, regs' := 0, regs;
    if name in env && resolved == Some(TypeOf(env[name])) {
      assert InSlot(c, slots, name, env[name]);
      StepAdded(c, b, Load(b.next, LlvmTypeOf(resolved.value).value, b.named[name]), regs, slots, out);
      OneStep(c.u, c.w.m, At(c, b, regs, slots, out));
      n, regs' := 1, regs[b.next := WordOf(env[name])];
    }
  }

  /** A call: one step in, the callee's body on one unit of fuel less, one return. */
  lemma {:induction false} SimCall(c: Site, b: Builder, name: string, env: Env, out: seq<Val>, fuel: nat,
                                   regs: map<nat, Word>, slots: map<nat, Cell>)
    returns (n: nat, regs': map<nat, Word>)
    requires SiteOk(c) && b.Valid()
    requires EmitExpr(c.w.known[c.fn], b, Call(name)).Ok? && Fits(c, EmitExpr(c.w.known[c.fn], b, Call(name)).value.0)
    ensures var r := EmitExpr(c.w.known[c.fn], b, Call(name)).value;
            ExprDone(c, b, r.0, r.1, At(c, b, regs, slots, out), Eval(c.u, c.w.p, Call(name), env, out, fuel),
                     regs, slots, n, regs', fuel)
    decreases fuel, Call(name), 0
  {
    hide EmitBlock, ExecBlock;
    n, regs' := 0, regs;
    if name in c.w.p && fuel > 0 {
      var start := At(c, b, regs, slots, out);
      StepAdded(c, b, CallFunction(b.next, name), regs, slots, out);
      OneStep(c.u, c.w.m, start);
      var callers := Caller(start.top, b.next, c.callers);
      var n1 := SimBody(c.u, c.w, name, callers, out, fuel - 1);
      StepsAdd(c.u, c.w.m, start, 1, n1);
      n := 1 + n1;
      var r := Eval(c.u, c.w.p, Call(name), env, out, fuel);
      if r.Value? {
        regs' := regs[b.next := WordOf(r.v)];
      }
    }
  }

  ghost predicate BodyDone(s: Machine, r: EvalResult, callers: Callers, n: nat, fuel: nat) {
    match r
    case Value(v, out') => ValOk(v) && s == GiveBack(WordOf(v), callers, WordsOf(out'))
    case EvalStop(stop) => Stopped(s, stop, n, fuel)
  }

  /** A whole function body, from its entry block. */
  lemma {:induction false} SimBody(u: Fpu, w: World, f: string, callers: Callers, out: seq<Val>, fuel: nat)
    returns (n: nat)
    requires WorldOk(w) && f in w.p
    ensures BodyDone(Steps(u, w.m, Running(Enter(f), callers, WordsOf(out)), n),
                     CallResult(ExecBlock(u, w.p, w.p[f], map[], out, fuel)), callers, n, fuel)
    decreases fuel, w.p[f], 2
  {
    hide EmitStmt, Exec;
    assert BodyOk(w, f);
    var b := EmitBlock(w.known[f], START, w.p[f]).value;
    BlockGrows(w.known[f], START, w.p[f]);
    var c := Site(u, w, f, b.blocks, b.named, callers);
    var n1, regs', slots' := SimBlock(c, START, w.p[f], map[], out, fuel, map[], map[]);
    n := n1;
    var o := ExecBlock(u, w.p, w.p[f], map[], out, fuel);
    if o.Normal? {
      ThenStep(u, w.m, Running(Enter(f), callers, WordsOf(out)), n1);
      n := n1 + 1;
    }
  }

  lemma {:induction false} SimBlock(c: Site, b: Builder, stmts: seq<Stmt>, env: Env, out: seq<Val>,
                                    fuel: nat, regs: map<nat, Word>, slots: map<nat, Cell>)
    returns (n: nat, regs': map<nat, Word>, slots': map<nat, Cell>)
    requires SiteOk(c) && b.Valid()
    requires EmitBlock(c.w.known[c.fn], b, stmts).Ok? && Fits(c, EmitBlock(c.w.known[c.fn], b, stmts).value)
    requires Agrees(c, env, slots)
    ensures var b' := EmitBlock(c.w.known[c.fn], b, stmts).value;
            Lands(c, b.loops, b'.cur, |b'.Here()|, Steps(c.u, c.w.m, At(c, b, regs, slots, out), n),
                  ExecBlock(c.u, c.w.p, stmts, env, out, fuel), n, regs', slots', fuel)
    decreases fuel, stmts, 1
  {
    n, regs', slots' := SimSeq(c, b, stmts, env, out, fuel, regs, slots);
    var o := ExecSeq(c.u, c.w.p, stmts, env, out, fuel);
    if o.Normal? || o.Broke? || o.Cycled? {
      NarrowerAgrees(c, o.env, env.Keys, slots');
    }
  }

  lemma NarrowerAgrees(c: Site, env: Env, keep: set<string>, slots: map<nat, Cell>)
    requires Agrees(c, env, slots)
    ensures Agrees(c, map x | x in env && x in keep :: env[x], slots)
  {
    var inner := map x | x in env && x in keep :: env[x];
    forall x | x in inner
      ensures InSlot(c, slots, x, inner[x])
    {
      assert InSlot(c, slots, x, env[x]);
    }
  }

  lemma SeqFits(c: Site, b: Builder, stmts: seq<Stmt>)
    requires SiteOk(c) && b.Valid() && stmts != []
    requires EmitBlock(c.w.known[c.fn], b, stmts).Ok? && Fits(c, EmitBlock(c.w.known[c.fn], b, stmts).value)
    ensures var b1 := EmitStmt(c.w.known[c.fn], b, stmts[0]).value; Fits(c, b1) && b1.loops == b.loops
  {
    var known := c.w.known[c.fn];
    var b1 := EmitStmt(known, b, stmts[0]).value;
    StmtGrows(known, b, stmts[0]);
    BlockGrows(known, b1, stmts[1..]);
    FitsBefore(c, b1, EmitBlock(known, b1, stmts[1..]).value);
  }

  lemma {:induction false} SimSeq(c: Site, b: Builder, stmts: seq<Stmt>, env: Env, out: seq<Val>,
                                  fuel: nat, regs: map<nat, Word>, slots: map<nat, Cell>)
    returns (n: nat, regs': map<nat, Word>, slots': map<nat, Cell>)
    requires SiteOk(c) && b.Valid()
    requires EmitBlock(c.w.known[c.fn], b, stmts).Ok? && Fits(c, EmitBlock(c.w.known[c.fn], b, stmts).value)
    requires Agrees(c, env, slots)
    ensures var b' := EmitBlock(c.w.known[c.fn], b, stmts).value;
            Lands(c, b.loops, b'.cur, |b'.Here()|, Steps(c.u, c.w.m, At(c, b, regs, slots, out), n),
                  ExecSeq(c.u, c.w.p, stmts, env, out, fuel), n, regs', slots', fuel)
    decreases fuel, stmts, 0
  {
    hide Step, EmitStmt, Exec;
    n, regs', slots' := 0, regs, slots;
    if stmts != [] {
      var known := c.w.known[c.fn];
      var b1 := EmitStmt(known, b, stmts[0]).value;
      SeqFits(c, b, stmts);
      var n1, regs1, slots1 := SimStmt(c, b, stmts[0], env, out, fuel, regs, slots);
      n, regs', slots' := n1, regs1, slots1;
      var o := Exec(c.u, c.w.p, stmts[0], env, out, fuel);
      if o.Normal? {
        var n2, regs2, slots2 := SimSeq(c, b1, stmts[1..], o.env, o.out, fuel, regs1, slots1);
        StepsAdd(c.u, c.w.m, At(c, b, regs, slots, out), n1, n2);
        n, regs', slots' := n1 + n2, regs2, slots2;
      }
    }
  }

  lemma {:induction false} SimStmt(c: Site, b: Builder, s: Stmt, env: Env, out: seq<Val>, fuel: nat,
                                   regs: map<nat, Word>, slots: map<nat, Cell>)
    returns (n: nat, regs': map<nat, Word>, slots': map<nat, Cell>)
    requires SiteOk(c) && b.Valid()
    requires EmitStmt(c.w.known[c.fn], b, s).Ok? && Fits(c, EmitStmt(c.w.known[c.fn], b, s).value)
    requires Agrees(c, env, slots)
    ensures var b' := EmitStmt(c.w.known[c.fn], b, s).value;
            Lands(c, b.loops, b'.cur, |b'.Here()|, Steps(c.u, c.w.m, At(c, b, regs, slots, out), n),
                  Exec(c.u, c.w.p, s, env, out, fuel), n, regs', slots', fuel)
    decreases fuel, s
  {
    var start := At(c, b, regs, slots, out);
    match s
    case DeclStmt(name, _, value, declared) =>
      n, regs', slots' := SimDecl(c, b, s, env, out, fuel, regs, slots);
    case AssignStmt(name, value) =>
      n, regs', slots' := SimAssign(c, b, s, env, out, fuel, regs, slots);
    case ShowStmt(expr, _) =>
      n, regs', slots' := SimShow(c, b, s, env, out, fuel, regs, slots);
    case ReturnStmt(expr, _) =>
      n, regs', slots' := SimReturn(c, b, s, env, out, fuel, regs, slots);
    case IfStmt(link) => n, regs', slots' := SimLink(c, b, link, env, out, fuel, regs, slots);
    case LoopStmt(body) =>
      n, regs', slots' := SimLoop(c, b, body, env, out, fuel, regs, slots);
    case BreakStmt =>
      StepAdded(c, b, Br(b.loops[|b.loops| - 1].end), regs, slots, out);
      OneStep(c.u, c.w.m, start);
      n, regs', slots' := 1, regs, slots;
    case CycleStmt =>
      StepAdded(c, b, Br(b.loops[|b.loops| - 1].body), regs, slots, out);
      OneStep(c.u, c.w.m, start);
      n, regs', slots' := 1, regs, slots;
  }

  lemma StoredAgrees(c: Site, env: Env, name: string, v: Val, slots: map<nat, Cell>)
    requires SiteOk(c) && name in c.named && ValOk(v) && Agrees(c, env, slots)
    ensures Agrees(c, env[name := v], slots[c.named[name] := Cell(TypeOfWord(WordOf(v)), Some(WordOf(v)))])
  {
    var env', slots' := env[name := v], slots[c.named[name] := Cell(TypeOfWord(WordOf(v)), Some(WordOf(v)))];
    forall x | x in env'
      ensures InSlot(c, slots', x, env'[x])
    {
      if x != name {
        assert InSlot(c, slots, x, env[x]);
      }
    }
  }

  lemma StepStore(c: Site, b: Builder, src: Operand, slot: nat, w: Word, regs: map<nat, Word>,
                  slots: map<nat, Cell>, out: seq<Val>)
    requires SiteOk(c) && b.Valid() && Extends(b.Add(Store(src, slot)).blocks, c.blocks)
    requires Read(c.u, regs, src) == Some(w) && slot in slots && slots[slot].ty == TypeOfWord(w)
    ensures Step(c.u, c.w.m, At(c, b, regs, slots, out))
         == At(c, b.Add(Store(src, slot)), regs, slots[slot := Cell(TypeOfWord(w), Some(w))], out)
  {
    StepAdded(c, b, Store(src, slot), regs, slots, out);
  }

  lemma StepAlloca(c: Site, b: Builder, slot: nat, ty: LlvmType, regs: map<nat, Word>,
                   slots: map<nat, Cell>, out: seq<Val>)
    requires SiteOk(c) && b.Valid() && Extends(b.Define(Alloca(slot, ty)).blocks, c.blocks)
    ensures Step(c.u, c.w.m, At(c, b, regs, slots, out))
         == At(c, b.Define(Alloca(slot, ty)), regs, slots[slot := Cell(ty, None)], out)
  {
    StepAdded(c, b, Alloca(slot, ty), regs, slots, out);
  }

  /** A declaration allocates its slot and stores to it. */
  lemma StepDecl(c: Site, b: Builder, src: Operand, slot: nat, ty: LlvmType, w: Word,
                 regs: map<nat, Word>, slots: map<nat, Cell>, out: seq<Val>)
    requires SiteOk(c) && b.Valid() && ty == TypeOfWord(w) && Read(c.u, regs, src) == Some(w)
    requires Extends(b.Define(Alloca(slot, ty)).blocks, c.blocks)
    requires Extends(b.Define(Alloca(slot, ty)).Add(Store(src, slot)).blocks, c.blocks)
    ensures Steps(c.u, c.w.m, At(c, b, regs, slots, out), 2)
         == At(c, b.Define(Alloca(slot, ty)).Add(Store(src, slot)), regs, slots[slot := Cell(ty, Some(w))], out)
  {
    var start := At(c, b, regs, slots, out);
    var slots1 := slots[slot := Cell(ty, None)];
    StepAlloca(c, b, slot, ty, regs, slots, out);
    OneStep(c.u, c.w.m, start);
    StepStore(c, b.Define(Alloca(slot, ty)), src, slot, w, regs, slots1, out);
    ThenStep(c.u, c.w.m, start, 1);
    assert slots1[slot := Cell(ty, Some(w))] == slots[slot := Cell(ty, Some(w))];
  }

  lemma FitsAdded(c: Site, b: Builder, i: Instr)
    requires b.Valid() && Extends(b.Add(i).blocks, c.blocks) && NamesKept(b.named, c.named)
    ensures Fits(c, b)
  {
    AddGrows(b, b, i);
    ExtendsTrans(b.blocks, b.Add(i).blocks, c.blocks);
  }

  lemma {:induction false} SimDecl(c: Site, b: Builder, s: Stmt, env: Env, out: seq<Val>, fuel: nat,
                                   regs: map<nat, Word>, slots: map<nat, Cell>)
    returns (n: nat, regs': map<nat, Word>, slots': map<nat, Cell>)
    requires s.DeclStmt? && SiteOk(c) && b.Valid()
    requires EmitStmt(c.w.known[c.fn], b, s).Ok? && Fits(c, EmitStmt(c.w.known[c.fn], b, s).value)
    requires Agrees(c, env, slots)
    ensures var b' := EmitStmt(c.w.known[c.fn], b, s).value;
            Lands(c, b.loops, b'.cur, |b'.Here()|, Steps(c.u, c.w.m, At(c, b, regs, slots, out), n),
                  Exec(c.u, c.w.p, s, env, out, fuel), n, regs', slots', fuel)
    decreases fuel, s, 0
  {
    hide Step, EmitExpr, Eval;
    var known := c.w.known[c.fn];
    var start := At(c, b, regs, slots, out);
    var v := EmitExpr(known, b, s.value).value;
    var ty := LlvmTypeOf(s.declared.value).value;
    var slot := v.0.next;
    var b1 := v.0.Define(Alloca(slot, ty));
    var store := Store(v.1, slot);
    assert EmitStmt(known, b, s).value == b1.Add(store).(named := v.0.named[s.name := slot]);
    assert NamesKept(b1.named, c.named) by { assert s.name !in b1.named; }
    assert c.named[s.name] == slot;
    FitsAdded(c, b1, store);
    FitsAdded(c, v.0, Alloca(slot, ty));
    var b' := EmitStmt(known, b, s).value;
    var n1, regs1 := SimExpr(c, b, s.value, env, out, fuel, regs, slots);
    n, regs', slots' := n1, regs1, slots;
    var r := Eval(c.u, c.w.p, s.value, env, out, fuel);
    if r.Value? && s.name !in env && s.declared == Some(TypeOf(r.v)) {
      StepDecl(c, v.0, v.1, slot, ty, WordOf(r.v), regs1, slots, r.out);
      StepsAdd(c.u, c.w.m, start, n1, 2);
      StoredAgrees(c, env, s.name, r.v, slots);
      n, slots' := n1 + 2, slots[slot := Cell(ty, Some(WordOf(r.v)))];
    }
  }

  lemma {:induction false} SimAssign(c: Site, b: Builder, s: Stmt, env: Env, out: seq<Val>, fuel: nat,
                                     regs: map<nat, Word>, slots: map<nat, Cell>)
    returns (n: nat, regs': map<nat, Word>, slots': map<nat, Cell>)
    requires s.AssignStmt? && SiteOk(c) && b.Valid()
    requires EmitStmt(c.w.known[c.fn], b, s).Ok? && Fits(c, EmitStmt(c.w.known[c.fn], b, s).value)
    requires Agrees(c, env, slots)
    ensures var b' := EmitStmt(c.w.known[c.fn], b, s).value;
            Lands(c, b.loops, b'.cur, |b'.Here()|, Steps(c.u, c.w.m, At(c, b, regs, slots, out), n),
                  Exec(c.u, c.w.p, s, env, out, fuel), n, regs', slots', fuel)
    decreases fuel, s, 0
  {
    hide Step, EmitExpr, Eval;
    var known := c.w.known[c.fn];
    var start := At(c, b, regs, slots, out);
    var v := EmitExpr(known, b, s.value).value;
    var slot := b.named[s.name];
    FitsAdded(c, v.0, Store(v.1, slot));
    var n1, regs1 := SimExpr(c, b, s.value, env, out, fuel, regs, slots);
    n, regs', slots' := n1, regs1, slots;
    var r := Eval(c.u, c.w.p, s.value, env, out, fuel);
    if r.Value? && s.name in env && TypeOf(env[s.name]) == TypeOf(r.v) {
      assert InSlot(c, slots, s.name, env[s.name]);
      StepStore(c, v.0, v.1, slot, WordOf(r.v), regs1, slots, r.out);
      ThenStep(c.u, c.w.m, start, n1);
      StoredAgrees(c, env, s.name, r.v, slots);
      n, slots' := n1 + 1, slots[slot := Cell(TypeOfWord(WordOf(r.v)), Some(WordOf(r.v)))];
    }
  }

  lemma {:induction false} SimShow(c: Site, b: Builder, s: Stmt, env: Env, out: seq<Val>, fuel: nat,
                                   regs: map<nat, Word>, slots: map<nat, Cell>)
    returns (n: nat, regs': map<nat, Word>, slots': map<nat, Cell>)
    requires s.ShowStmt? && SiteOk(c) && b.Valid()
    requires EmitStmt(c.w.known[c.fn], b, s).Ok? && Fits(c, EmitStmt(c.w.known[c.fn], b, s).value)
    requires Agrees(c, env, slots)
    ensures var b' := EmitStmt(c.w.known[c.fn], b, s).value;
            Lands(c, b.loops, b'.cur, |b'.Here()|, Steps(c.u, c.w.m, At(c, b, regs, slots, out), n),
                  Exec(c.u, c.w.p, s, env, out, fuel), n, regs', slots', fuel)
    decreases fuel, s, 0
  {
    hide EmitExpr, Eval;
    var known := c.w.known[c.fn];
    var v := EmitExpr(known, b, s.expr).value;
    FitsAdded(c, v.0, CallPrintf(v.1));
    var n1, regs1 := SimExpr(c, b, s.expr, env, out, fuel, regs, slots);
    n, regs', slots' := n1, regs1, slots;
    var r := Eval(c.u, c.w.p, s.expr, env, out, fuel);
    if r.Value? {
      StepAdded(c, v.0, CallPrintf(v.1), regs1, slots, r.out);
      ThenStep(c.u, c.w.m, At(c, b, regs, slots, out), n1);
      WordsOfAppend(r.out, r.v);
      n := n1 + 1;
    }
  }

  /** What is returned is read as an Int32 of the same 32 bits. */
  lemma ReturnWord(v: Val)
    requires ValOk(v) && IsWord(TypeOf(v))
    ensures ValOk(AsResult(v)) && WordOf(AsResult(v)) == WordOf(v) && TypeOfWord(WordOf(v)) == I(W32)
  {
    WrapBits(Int32, v.n);
  }

  lemma {:induction false} SimReturn(c: Site, b: Builder, s: Stmt, env: Env, out: seq<Val>, fuel: nat,
                                     regs: map<nat, Word>, slots: map<nat, Cell>)
    returns (n: nat, regs': map<nat, Word>, slots': map<nat, Cell>)
    requires s.ReturnStmt? && SiteOk(c) && b.Valid()
    requires EmitStmt(c.w.known[c.fn], b, s).Ok? && Fits(c, EmitStmt(c.w.known[c.fn], b, s).value)
    requires Agrees(c, env, slots)
    ensures var b' := EmitStmt(c.w.known[c.fn], b, s).value;
            Lands(c, b.loops, b'.cur, |b'.Here()|, Steps(c.u, c.w.m, At(c, b, regs, slots, out), n),
                  Exec(c.u, c.w.p, s, env, out, fuel), n, regs', slots', fuel)
    decreases fuel, s, 0
  {
    hide EmitExpr, Eval, WordOf, AsResult, Layout.Extends, Layout.NamesKept, RegsKept;
    var known := c.w.known[c.fn];
    var v := EmitExpr(known, b, s.expr).value;
    FitsAdded(c, v.0, Ret(v.1));
    var n1, regs1 := SimExpr(c, b, s.expr, env, out, fuel, regs, slots);
    n, regs', slots' := n1, regs1, slots;
    var r := Eval(c.u, c.w.p, s.expr, env, out, fuel);
    if r.Value? && IsWord(TypeOf(r.v)) {
      ReturnWord(r.v);
      StepAdded(c, v.0, Ret(v.1), regs1, slots, r.out);
      ThenStep(c.u, c.w.m, At(c, b, regs, slots, out), n1);
      n := n1 + 1;
    }
  }

  /** A statement that ends normally leaves its last block without a terminator. */
  lemma {:induction false} NormalStaysOpen(u: Fpu, p: Program, known: set<string>, b: Builder, stmts: seq<Stmt>,
                                           env: Env, out: seq<Val>, fuel: nat)
    requires b.Valid() && EmitBlock(known, b, stmts).Ok? && !Terminated(b.Here())
    requires ExecSeq(u, p, stmts, env, out, fuel).Normal?
    ensures !Terminated(EmitBlock(known, b, stmts).value.Here())
    decreases stmts
  {
    if stmts != [] {
      var b1 := EmitStmt(known, b, stmts[0]).value;
      if stmts[0].IfStmt? {
        LinkLands(known, b, stmts[0].link);
      } else if stmts[0].LoopStmt? {
        LoopLands(known, b, stmts[0].body);
      }
      var o := Exec(u, p, stmts[0], env, out, fuel);
      NormalStaysOpen(u, p, known, b1, stmts[1..], o.env, o.out, fuel);
    }
  }

  lemma FitsClosed(c: Site, b: Builder, end: nat, k: nat)
    requires b.Valid() && k < |b.blocks| && Fits(c, b.CloseWith(end).MoveTo(k))
    ensures Fits(c, b)
  {
    AddGrows(b, b, Br(end));
    ExtendsTrans(b.blocks, b.CloseWith(end).blocks, c.blocks);
  }

  /** A branch of a conditional that ends normally goes on to the end block. */
  lemma CloseBranch(c: Site, loops: seq<LoopBlocks>, b: Builder, end: nat, start: Machine, o: Outcome, n: nat,
                    regs: map<nat, Word>, slots: map<nat, Cell>, fuel: nat)
    returns (n': nat)
    requires SiteOk(c) && b.Valid()
    requires Extends(b.CloseWith(end).blocks, c.blocks)
    requires o.Normal? ==> !Terminated(b.Here())
    requires Lands(c, loops, b.cur, |b.Here()|, Steps(c.u, c.w.m, start, n), o, n, regs, slots, fuel)
    ensures Lands(c, loops, end, 0, Steps(c.u, c.w.m, start, n'), o, n', regs, slots, fuel)
  {
    n' := n;
    if o.Normal? {
      StepAdded(c, b, Br(end), regs, slots, o.out);
      ThenStep(c.u, c.w.m, start, n);
      n' := n + 1;
    }
  }

  /** The conditional branch that opens a chain link. */
  lemma StepBranch(c: Site, b: Builder, cond: Operand, link: IfLink, v: bool, regs: map<nat, Word>,
                   slots: map<nat, Cell>, out: seq<Val>)
    requires SiteOk(c) && b.Valid() && Fits(c, b.OpenThen(cond, link))
    requires Read(c.u, regs, cond) == Some(BoolWord(v))
    ensures Step(c.u, c.w.m, At(c, b, regs, slots, out))
         == AtBlock(c, if v then |b.blocks| else |b.blocks| + 1, 0, regs, slots, out)
  {
    var i := CondBr(cond, |b.blocks|, |b.blocks| + 1);
    assert Extends(b.Add(i).blocks, b.OpenThen(cond, link).blocks);
    ExtendsTrans(b.Add(i).blocks, b.OpenThen(cond, link).blocks, c.blocks);
    StepAdded(c, b, i, regs, slots, out);
  }

  lemma {:induction false} SimLink(c: Site, b: Builder, link: IfLink, env: Env, out: seq<Val>, fuel: nat,
                                   regs: map<nat, Word>, slots: map<nat, Cell>)
    returns (n: nat, regs': map<nat, Word>, slots': map<nat, Cell>)
    requires SiteOk(c) && b.Valid()
    requires EmitLink(c.w.known[c.fn], b, link).Ok? && Fits(c, EmitLink(c.w.known[c.fn], b, link).value)
    requires Agrees(c, env, slots)
    ensures var b' := EmitLink(c.w.known[c.fn], b, link).value;
            Lands(c, b.loops, b'.cur, |b'.Here()|, Steps(c.u, c.w.m, At(c, b, regs, slots, out), n),
                  ExecLink(c.u, c.w.p, link, env, out, fuel), n, regs', slots', fuel)
    decreases fuel, link, 0
  {
    hide Step, EmitExpr, Eval, EmitBlock, ExecBlock, EmitLink, StagesOf;
    var start := At(c, b, regs, slots, out);
    var t := StagesOf(c.w.known[c.fn], b, link);
    LinkFits(c, b, link);
    var n1, regs1 := SimExpr(c, b, link.cond, env, out, fuel, regs, slots);
    n, regs', slots' := n1, regs1, slots;
    var r := Eval(c.u, c.w.p, link.cond, env, out, fuel);
    if r.Value? && r.v.BoolV? {
      StepBranch(c, t.cond, t.v, link, r.v.b, regs1, slots, r.out);
      ThenStep(c.u, c.w.m, start, n1);
      n := n1 + 1;
      var n2, regs2, slots2;
      if r.v.b {
        n2, regs2, slots2 := SimBranch(c, t.thn, link.thn, t.end, env, r.out, fuel, regs1, slots);
      } else {
        n2, regs2, slots2 := SimElse(c, b, link, t, env, r.out, fuel, regs1, slots);
      }
      StepsAdd(c.u, c.w.m, start, n1 + 1, n2);
      n, regs', slots' := n1 + 1 + n2, regs2, slots2;
    }
  }

  /** The else part of a link, from the block the false branch leads to. */
  lemma {:induction false} SimElse(c: Site, b: Builder, link: IfLink, t: Stages, env: Env, out: seq<Val>, fuel: nat,
                                   regs: map<nat, Word>, slots: map<nat, Cell>)
    returns (n: nat, regs': map<nat, Word>, slots': map<nat, Cell>)
    requires SiteOk(c) && b.Valid() && Agrees(c, env, slots)
    requires t.cond.Valid() && t.thn.Valid() && t.els.Valid() && t.thnEnd.Valid() && t.elsEnd.Valid()
    requires StagesFit(c, b, link, t)
    ensures Lands(c, b.loops, t.end, 0,
                  Steps(c.u, c.w.m, AtBlock(c, |t.cond.blocks| + 1, 0, regs, slots, out), n),
                  ExecElse(c.u, c.w.p, link.els, env, out, fuel), n, regs', slots', fuel)
    decreases fuel, link.els, 1
  {
    hide Step, EmitExpr, EmitBlock, EmitLink, ExecBlock, ExecLink;
    n, regs', slots' := 0, regs, slots;
    match link.els
    case NoElse =>
    case ElseBlock(stmts) =>
      n, regs', slots' := SimBranch(c, t.els, stmts, t.end, env, out, fuel, regs, slots);
    case ElseIfLink(next) =>
      n, regs', slots' := SimElseIf(c, t.els, next, t.end, env, out, fuel, regs, slots);
  }

  /** The stages fit the function, both branches start in empty blocks, and the loop stack is the
      same in all of them. */
  ghost predicate StagesFit(c: Site, b: Builder, link: IfLink, t: Stages)
    requires c.fn in c.w.known
    requires b.Valid() && t.cond.Valid() && t.thn.Valid() && t.els.Valid() && t.thnEnd.Valid() && t.elsEnd.Valid()
  {
    var known := c.w.known[c.fn];
    && EmitExpr(known, b, link.cond) == Ok((t.cond, t.v)) && Fits(c, t.cond)
    && t.thn == t.cond.OpenThen(t.v, link) && Fits(c, t.thn) && t.thn.Here() == [] && t.thn.loops == b.loops
    && t.thn.cur == |t.cond.blocks| && t.els.cur == |t.cond.blocks| + 1
    && t.els.Here() == [] && t.els.loops == b.loops
    && EmitBlock(known, t.thn, link.thn) == Ok(t.thnEnd) && Fits(c, t.thnEnd)
    && Extends(t.thnEnd.CloseWith(t.end).blocks, c.blocks)
    && match link.els
       case NoElse => t.els.cur == t.end
       case ElseBlock(stmts) =>
         && EmitBlock(known, t.els, stmts) == Ok(t.elsEnd) && Fits(c, t.elsEnd)
         && Extends(t.elsEnd.CloseWith(t.end).blocks, c.blocks)
       case ElseIfLink(next) =>
         && EmitLink(known, t.els, next) == Ok(t.elsEnd) && Fits(c, t.elsEnd)
         && Extends(t.elsEnd.CloseWith(t.end).blocks, c.blocks)
  }

  lemma LinkFits(c: Site, b: Builder, link: IfLink)
    requires SiteOk(c) && b.Valid()
    requires EmitLink(c.w.known[c.fn], b, link).Ok? && Fits(c, EmitLink(c.w.known[c.fn], b, link).value)
    ensures var t := StagesOf(c.w.known[c.fn], b, link);
            var b' := EmitLink(c.w.known[c.fn], b, link).value;
            StagesFit(c, b, link, t) && b'.cur == t.end && b'.Here() == []
  {
    hide EmitExpr, EmitBlock, EmitStmt, Layout.Extends, Layout.NamesKept;
    var known := c.w.known[c.fn];
    var t := StagesOf(known, b, link);
    LinkLands(known, b, link);
    OpenThenGrows(t.cond, t.v, link);
    BlockGrows(known, t.thn, link.thn);
    match link.els {
      case NoElse =>
      case ElseBlock(stmts) =>
        BlockGrows(known, t.els, stmts);
        FitsClosed(c, t.elsEnd, t.end, t.end);
        FitsBefore(c, t.els, t.elsEnd);
      case ElseIfLink(next) =>
        LinkGrows(known, t.els, next);
        FitsClosed(c, t.elsEnd, t.end, t.end);
        FitsBefore(c, t.els, t.elsEnd);
    }
    FitsClosed(c, t.thnEnd, t.end, |t.cond.blocks| + 1);
    FitsBefore(c, t.thn, t.thnEnd);
    FitsBefore(c, t.cond, t.thn);
  }

  /** A block branch of a conditional: from its empty first block to the end block. */
  lemma {:induction false} SimBranch(c: Site, b: Builder, stmts: seq<Stmt>, end: nat, env: Env, out: seq<Val>,
                                     fuel: nat, regs: map<nat, Word>, slots: map<nat, Cell>)
    returns (n: nat, regs': map<nat, Word>, slots': map<nat, Cell>)
    requires SiteOk(c) && b.Valid() && b.Here() == []
    requires EmitBlock(c.w.known[c.fn], b, stmts).Ok? && Fits(c, EmitBlock(c.w.known[c.fn], b, stmts).value)
    requires Extends(EmitBlock(c.w.known[c.fn], b, stmts).value.CloseWith(end).blocks, c.blocks)
    requires Agrees(c, env, slots)
    ensures Lands(c, b.loops, end, 0, Steps(c.u, c.w.m, At(c, b, regs, slots, out), n),
                  ExecBlock(c.u, c.w.p, stmts, env, out, fuel), n, regs', slots', fuel)
    decreases fuel, stmts, 2
  {
    n, regs', slots' := SimBlock(c, b, stmts, env, out, fuel, regs, slots);
    var o := ExecBlock(c.u, c.w.p, stmts, env, out, fuel);
    if o.Normal? {
      NormalStaysOpen(c.u, c.w.p, c.w.known[c.fn], b, stmts, env, out, fuel);
    }
    n := CloseBranch(c, b.loops, EmitBlock(c.w.known[c.fn], b, stmts).value, end, At(c, b, regs, slots, out),
                     o, n, regs', slots', fuel);
  }

  /** An elseif branch: the next link of the chain, closed to the same end block. */
  lemma {:induction false} SimElseIf(c: Site, b: Builder, link: IfLink, end: nat, env: Env, out: seq<Val>,
                                     fuel: nat, regs: map<nat, Word>, slots: map<nat, Cell>)
    returns (n: nat, regs': map<nat, Word>, slots': map<nat, Cell>)
    requires SiteOk(c) && b.Valid() && b.Here() == []
    requires EmitLink(c.w.known[c.fn], b, link).Ok? && Fits(c, EmitLink(c.w.known[c.fn], b, link).value)
    requires Extends(EmitLink(c.w.known[c.fn], b, link).value.CloseWith(end).blocks, c.blocks)
    requires Agrees(c, env, slots)
    ensures Lands(c, b.loops, end, 0, Steps(c.u, c.w.m, At(c, b, regs, slots, out), n),
                  ExecLink(c.u, c.w.p, link, env, out, fuel), n, regs', slots', fuel)
    decreases fuel, link, 1
  {
    hide Step, ExecLink, EmitLink;
    n, regs', slots' := SimLink(c, b, link, env, out, fuel, regs, slots);
    LinkLands(c.w.known[c.fn], b, link);
    n := CloseBranch(c, b.loops, EmitLink(c.w.known[c.fn], b, link).value, end, At(c, b, regs, slots, out),
                     ExecLink(c.u, c.w.p, link, env, out, fuel), n, regs', slots', fuel);
  }

  lemma {:induction false} SimLoop(c: Site, b: Builder, body: seq<Stmt>, env: Env, out: seq<Val>, fuel: nat,
                                   regs: map<nat, Word>, slots: map<nat, Cell>)
    returns (n: nat, regs': map<nat, Word>, slots': map<nat, Cell>)
    requires SiteOk(c) && b.Valid()
    requires EmitStmt(c.w.known[c.fn], b, LoopStmt(body)).Ok?
    requires Fits(c, EmitStmt(c.w.known[c.fn], b, LoopStmt(body)).value)
    requires Agrees(c, env, slots)
    ensures var b' := EmitStmt(c.w.known[c.fn], b, LoopStmt(body)).value;
            Lands(c, b.loops, b'.cur, |b'.Here()|, Steps(c.u, c.w.m, At(c, b, regs, slots, out), n),
                  ExecLoop(c.u, c.w.p, body, env, out, fuel), n, regs', slots', fuel)
    decreases fuel, body, 4
  {
    hide EmitExpr, EmitBlock, ExecLoop;
    var top := |b.blocks|;
    LoopLands(c.w.known[c.fn], b, body);
    LoopFits(c, b, body);
    assert Extends(b.Add(Br(top)).blocks, b.OpenLoop().blocks);
    ExtendsTrans(b.Add(Br(top)).blocks, b.OpenLoop().blocks, c.blocks);
    StepAdded(c, b, Br(top), regs, slots, out);
    OneStep(c.u, c.w.m, At(c, b, regs, slots, out));
    n, regs', slots' := SimIterations(c, b, body, env, out, fuel, regs, slots);
    StepsAdd(c.u, c.w.m, At(c, b, regs, slots, out), 1, n);
    n := 1 + n;
  }

  lemma LoopEmitted(known: set<string>, b: Builder, body: seq<Stmt>)
    requires b.Valid() && EmitStmt(known, b, LoopStmt(body)).Ok?
    ensures EmitBlock(known, b.OpenLoop(), body).Ok?
    ensures var b2, b' := EmitBlock(known, b.OpenLoop(), body).value, EmitStmt(known, b, LoopStmt(body)).value;
            b'.blocks == b2.Add(Br(|b.blocks|)).blocks && b'.named == b2.named
  {
    hide EmitBlock, EmitExpr, EmitLink;
  }

  lemma LoopFits(c: Site, b: Builder, body: seq<Stmt>)
    requires SiteOk(c) && b.Valid()
    requires EmitStmt(c.w.known[c.fn], b, LoopStmt(body)).Ok?
    requires Fits(c, EmitStmt(c.w.known[c.fn], b, LoopStmt(body)).value)
    ensures var known := c.w.known[c.fn];
            && EmitBlock(known, b.OpenLoop(), body).Ok?
            && var b2 := EmitBlock(known, b.OpenLoop(), body).value;
            && Fits(c, b.OpenLoop()) && Fits(c, b2) && Extends(b2.Add(Br(|b.blocks|)).blocks, c.blocks)
  {
    hide EmitStmt, EmitBlock, Layout.Extends, Layout.NamesKept;
    var known := c.w.known[c.fn];
    LoopEmitted(known, b, body);
    var b2 := EmitBlock(known, b.OpenLoop(), body).value;
    FitsAdded(c, b2, Br(|b.blocks|));
    BlockGrows(known, b.OpenLoop(), body);
    FitsBefore(c, b.OpenLoop(), b2);
  }

  /** The iterations of a loop, from the start of its body block.  Each one costs a step: the back
      edge, or the branch of the cycle that ends it. */
  lemma {:induction false} SimIterations(c: Site, b: Builder, body: seq<Stmt>, env: Env, out: seq<Val>,
                                         fuel: nat, regs: map<nat, Word>, slots: map<nat, Cell>)
    returns (n: nat, regs': map<nat, Word>, slots': map<nat, Cell>)
    requires SiteOk(c) && b.Valid()
    requires EmitBlock(c.w.known[c.fn], b.OpenLoop(), body).Ok?
    requires Fits(c, EmitBlock(c.w.known[c.fn], b.OpenLoop(), body).value)
    requires Extends(EmitBlock(c.w.known[c.fn], b.OpenLoop(), body).value.Add(Br(|b.blocks|)).blocks, c.blocks)
    requires Agrees(c, env, slots)
    ensures Lands(c, b.loops, |b.blocks| + 1, 0, Steps(c.u, c.w.m, AtBlock(c, |b.blocks|, 0, regs, slots, out), n),
                  ExecLoop(c.u, c.w.p, body, env, out, fuel), n + 1, regs', slots', fuel)
    decreases fuel, body, 3
  {
    hide Step, EmitBlock, ExecBlock, Agrees, Layout.Extends, Layout.NamesKept, WordsOf, ExecLoop;
    LoopRound(c.u, c.w.p, body, env, out, fuel);
    var top := |b.blocks|;
    var start := AtBlock(c, top, 0, regs, slots, out);
    n, regs', slots' := 0, regs, slots;
    if fuel > 0 {
      var b1 := b.OpenLoop();
      var b2 := EmitBlock(c.w.known[c.fn], b1, body).value;
      assert b1.Here() == [] && b1.loops[|b1.loops| - 1] == LoopBlocks(top, top + 1);
      var n1, regs1, slots1 := SimBlock(c, b1, body, env, out, fuel - 1, regs, slots);
      n, regs', slots' := n1, regs1, slots1;
      var o := ExecBlock(c.u, c.w.p, body, env, out, fuel - 1);
      if o.Normal? {
        StepAdded(c, b2, Br(top), regs1, slots1, o.out);
        ThenStep(c.u, c.w.m, start, n1);
        n1 := n1 + 1;
      }
      if o.Normal? || o.Cycled? {
        var n2, regs2, slots2 := SimIterations(c, b, body, o.env, o.out, fuel - 1, regs1, slots1);
        StepsAdd(c.u, c.w.m, start, n1, n2);
        n, regs', slots' := n1 + n2, regs2, slots2;
      }
    }
  }
}
