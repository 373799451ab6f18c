/** The part of LLVM the compiler targets: functions made of basic blocks, a memory of slots, and a
    step machine over them.  A block may hold instructions after a terminator, as the instruction
    builder allows; the machine never reaches them. */
module Ir {
  import opened Results
  import opened Integers
  import opened Floats

  datatype Word = Word(width: Width, bits: nat) | DoubleWord(double: Double)

  datatype LlvmType = I(width: Width) | FloatTy | DoubleTy

  function TypeOfWord(w: Word): LlvmType {
    match w
    case Word(width, _) => I(width)
    case DoubleWord(_) => DoubleTy
  }

  datatype Operand = Const(word: Word) | FloatConst(digits: string) | Reg(id: nat)

  datatype Predicate = EQ | SGT | SLT | SGE | SLE | UGT | ULT | UGE | ULE

  datatype Opcode =
    | Add | Sub | Mul | SDiv | UDiv | ICmp(pred: Predicate)
    | FAdd | FSub | FMul | FDiv | FCmp(pred: Predicate)

  datatype Instr =
    | Alloca(slot: nat, ty: LlvmType)
    | Store(src: Operand, slot: nat)
    | Load(dst: nat, ty: LlvmType, slot: nat)
    | Op(dst: nat, opcode: Opcode, a: Operand, b: Operand)
    | CallPrintf(src: Operand)
    | CallFunction(dst: nat, callee: string)
    | Br(target: nat)
    | CondBr(cond: Operand, thn: nat, els: nat)
    | Ret(src: Operand)

  predicate IsTerminator(i: Instr) {
    i.Br? || i.CondBr? || i.Ret?
  }

  type Block = seq<Instr>

  type Module = map<string, seq<Block>>

  /** A stack slot: its type and, once stored to, its contents. */
  datatype Cell = Cell(ty: LlvmType, contents: Option<Word>)

  datatype Frame = Frame(fn: string, block: nat, pc: nat, regs: map<nat, Word>, slots: map<nat, Cell>)

  /** Callers waiting for a result, each with the register that receives it. */
  datatype Callers = Nobody | Caller(frame: Frame, dst: nat, below: Callers)

  datatype Ending =
    | Returned(word: Word)
    | DivisionTrap  // division by zero, or the one signed quotient that does not fit
    | NoTerminator  // control reached the end of a block that has no terminator
    | Stuck         // ill-typed instruction, unknown register, slot, block or callee

  datatype Machine =
    | Running(top: Frame, callers: Callers, out: seq<Word>)
    | Halted(ending: Ending, out: seq<Word>)

  function Read(u: Fpu, regs: map<nat, Word>, v: Operand): Option<Word> {
    match v
    case Const(word) => Some(word)
    case FloatConst(digits) => Some(DoubleWord(u.constant(digits)))
    case Reg(id) => if id in regs then Some(regs[id]) else None
  }

  function BoolWord(b: bool): Word {
    Word(W1, if b then 1 else 0)
  }

  function Compare(p: Predicate, w: Width, a: nat, b: nat): bool {
    match p
    case EQ => a == b
    case SGT => SignedView(true, w, a) > SignedView(true, w, b)
    case SLT => SignedView(true, w, a) < SignedView(true, w, b)
    case SGE => SignedView(true, w, a) >= SignedView(true, w, b)
    case SLE => SignedView(true, w, a) <= SignedView(true, w, b)
    case UGT => a > b
    case ULT => a < b
    case UGE => a >= b
    case ULE => a <= b
  }

  datatype OpResult = Yields(word: Word) | Traps | Undefined

  /** The integer instructions. */
  function Execute(op: Opcode, w: Width, a: nat, b: nat): OpResult {
    match op
    case Add => Yields(Word(w, Bits(w, a + b)))
    case Sub => Yields(Word(w, Bits(w, a - b)))
    case Mul => Yields(Word(w, Bits(w, a * b)))
    case UDiv => if b == 0 then Traps else Yields(Word(w, Bits(w, a / b)))
    case SDiv =>
      var x, y := SignedView(true, w, a), SignedView(true, w, b);
      if y == 0 || (x == -(Modulus(w) / 2) && y == -1) then Traps
      else Yields(Word(w, Bits(w, TruncDiv(x, y))))
    case ICmp(p) => Yields(BoolWord(Compare(p, w, a, b)))
    case _ => Undefined
  }

  /** The instructions on doubles; the predicates of a comparison are the ordered ones. */
  function ExecuteFloat(u: Fpu, op: Opcode, a: Double, b: Double): OpResult {
    match op
    case FAdd => Yields(DoubleWord(u.plus(a, b)))
    case FSub => Yields(DoubleWord(u.minus(a, b)))
    case FMul => Yields(DoubleWord(u.times(a, b)))
    case FDiv => Yields(DoubleWord(u.over(a, b)))
    case FCmp(SGT) => Yields(BoolWord(u.above(a, b)))
    case FCmp(SLT) => Yields(BoolWord(u.below(a, b)))
    case FCmp(SGE) => Yields(BoolWord(u.atLeast(a, b)))
    case FCmp(SLE) => Yields(BoolWord(u.atMost(a, b)))
    case FCmp(EQ) => Yields(BoolWord(u.same(a, b)))
    case _ => Undefined
  }

  /** An instruction on two words of one type. */
  function ExecuteWords(u: Fpu, op: Opcode, x: Word, y: Word): OpResult {
    if x.DoubleWord? && y.DoubleWord? then ExecuteFloat(u, op, x.double, y.double)
    else if x.Word? && y.Word? && x.width == y.width then Execute(op, x.width, x.bits, y.bits)
    else Undefined
  }

  function Goto(f: Frame, target: nat): Frame {
    f.(block := target, pc := 0)
  }

  function Next(f: Frame): Frame {
    f.(pc := f.pc + 1)
  }

  function SetReg(f: Frame, dst: nat, w: Word): Frame {
    f.(regs := f.regs[dst := w], pc := f.pc + 1)
  }

  function StepInstr(u: Fpu, m: Module, i: Instr, f: Frame, callers: Callers, out: seq<Word>): Machine {
    match i
    case Alloca(slot, ty) => Running(Next(f.(slots := f.slots[slot := Cell(ty, None)])), callers, out)
    case Store(src, slot) =>
      var v := Read(u, f.regs, src);
      if v.Some? && slot in f.slots && f.slots[slot].ty == TypeOfWord(v.value) then
        Running(Next(f.(slots := f.slots[slot := f.slots[slot].(contents := v)])), callers, out)
      else Halted(Stuck, out)
    case Load(dst, ty, slot) =>
      if slot in f.slots && f.slots[slot].contents.Some? && f.slots[slot].ty == ty then
        Running(SetReg(f, dst, f.slots[slot].contents.value), callers, out)
      else Halted(Stuck, out)
    case Op(dst, opcode, a, b) =>
      var x, y := Read(u, f.regs, a), Read(u, f.regs, b);
      if x.Some? && y.Some? then
        match ExecuteWords(u, opcode, x.value, y.value)
        case Yields(w) => Running(SetReg(f, dst, w), callers, out)
        case Traps => Halted(DivisionTrap, out)
        case Undefined => Halted(Stuck, out)
      else Halted(Stuck, out)
    case CallPrintf(src) =>
      var v := Read(u, f.regs, src);
      if v.Some? then Running(Next(f), callers, out + [v.value]) else Halted(Stuck, out)
    case CallFunction(dst, callee) =>
      if callee in m then Running(Enter(callee), Caller(f, dst, callers), out) else Halted(Stuck, out)
    case Br(target) => Running(Goto(f, target), callers, out)
    case CondBr(cond, thn, els) =>
      var v := Read(u, f.regs, cond);
      if v.Some? && TypeOfWord(v.value) == I(W1) then
        Running(Goto(f, if v.value.bits != 0 then thn else els), callers, out)
      else Halted(Stuck, out)
    case Ret(src) =>
      var v := Read(u, f.regs, src);
      if v.Some? && TypeOfWord(v.value) == I(W32) then GiveBack(v.value, callers, out) else Halted(Stuck, out)
  }

  /** A fresh activation of a function, at the start of its entry block. */
  function Enter(fn: string): Frame {
    Frame(fn, 0, 0, map[], map[])
  }

  function GiveBack(w: Word, callers: Callers, out: seq<Word>): Machine {
    match callers
    case Nobody => Halted(Returned(w), out)
    case Caller(frame, dst, below) => Running(SetReg(frame, dst, w), below, out)
  }

  function Step(u: Fpu, m: Module, s: Machine): Machine {
    match s
    case Halted(_, _) => s
    case Running(f, callers, out) =>
      if f.fn !in m || f.block >= |m[f.fn]| then Halted(Stuck, out)
      else if f.pc >= |m[f.fn][f.block]| then Halted(NoTerminator, out)
      else StepInstr(u, m, m[f.fn][f.block][f.pc], f, callers, out)
  }

  function Steps(u: Fpu, m: Module, s: Machine, n: nat): Machine
    decreases n
  {
    if n == 0 then s else Steps(u, m, Step(u, m, s), n - 1)
  }

  lemma {:induction false} StepsAdd(u: Fpu, m: Module, s: Machine, a: nat, b: nat)
    ensures Steps(u, m, s, a + b) == Steps(u, m, Steps(u, m, s, a), b)
    decreases a
  {
    if a > 0 {
      StepsAdd(u, m, Step(u, m, s), a - 1, b);
    }
  }

  lemma {:induction false} HaltedStays(u: Fpu, m: Module, s: Machine, n: nat)
    requires s.Halted?
    ensures Steps(u, m, s, n) == s
  {
    if n > 0 {
      HaltedStays(u, m, s, n - 1);
    }
  }

  /** The machine is deterministic: it cannot halt in two different ways, and once halted it stays. */
  lemma EndingsAgree(u: Fpu, m: Module, s: Machine, a: nat, b: nat)
    requires Steps(u, m, s, a).Halted?
    ensures a <= b ==> Steps(u, m, s, b) == Steps(u, m, s, a)
    ensures Steps(u, m, s, b).Halted? ==> Steps(u, m, s, b) == Steps(u, m, s, a)
  {
    if a <= b {
      StepsAdd(u, m, s, a, b - a);
      HaltedStays(u, m, Steps(u, m, s, a), b - a);
    } else if Steps(u, m, s, b).Halted? {
      StepsAdd(u, m, s, b, a - b);
      HaltedStays(u, m, Steps(u, m, s, b), a - b);
    }
  }
}
