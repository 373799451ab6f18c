/** Lowering of annotated functions to basic blocks, as functions on a snapshot of the instruction
    builder. */
module Codegen {
  import opened Results
  import opened Syntax
  import opened Integers
  import opened Ir

  /** Where cycle and break go for an enclosing loop. */
  datatype LoopBlocks = LoopBlocks(body: nat, end: nat)

  /** The builder while one function is emitted.  The same counter numbers registers and slots. */
  datatype Builder = Builder(blocks: seq<Block>, cur: nat, named: map<string, nat>,
                             loops: seq<LoopBlocks>, next: nat)
  {
    predicate Valid() {
      cur < |blocks|
    }

    function Here(): Block
      requires Valid()
    {
      blocks[cur]
    }

    /** Append an instruction at the insertion point. */
    function Add(i: Instr): (b: Builder)
      requires Valid()
      ensures b.Valid()
    {
      this.(blocks := blocks[cur := blocks[cur] + [i]])
    }

    /** Append an instruction that defines the next free register. */
    function Define(i: Instr): (b: Builder)
      requires Valid()
      ensures b.Valid()
    {
      Add(i).(next := next + 1)
    }

    function NewBlocks(n: nat): (b: Builder)
      requires Valid()
      ensures b.Valid()
    {
      this.(blocks := blocks + seq(n, _ => []))
    }

    function MoveTo(k: nat): (b: Builder)
      requires k < |blocks|
      ensures b.Valid()
    {
      this.(cur := k)
    }

    /** Branch to k unless the insertion block already ends in a terminator. */
    function CloseWith(k: nat): (b: Builder)
      requires Valid()
      ensures b.Valid() && |b.blocks| == |blocks|
    {
      if Terminated(Here()) then this else Add(Br(k))
    }

    /** A conditional creates its blocks in the order then, else (if any), end, branches, and moves
        to the then block.  The block after it takes control when the condition is false. */
    function OpenThen(cond: Operand, link: IfLink): (b: Builder)
      requires Valid()
      ensures b.Valid() && |b.blocks| == EndOf(link) + 1
    {
      var thn := |blocks|;
      NewBlocks(if link.els.NoElse? then 2 else 3).Add(CondBr(cond, thn, thn + 1)).MoveTo(thn)
    }

    function EndOf(link: IfLink): nat {
      |blocks| + if link.els.NoElse? then 1 else 2
    }

    /** A loop creates its body and end blocks, records them, and moves to the body. */
    function OpenLoop(): (b: Builder)
      requires Valid()
      ensures b.Valid() && |b.blocks| == |blocks| + 2
    {
      var top, end := |blocks|, |blocks| + 1;
      NewBlocks(2).Add(Br(top)).MoveTo(top).(loops := loops + [LoopBlocks(top, end)])
    }

    /** The back edge is added even after a terminator; then the loop opened at b is forgotten. */
    function CloseLoop(b: Builder): (r: Builder)
      requires Valid() && |b.blocks| + 1 < |blocks|
      ensures r.Valid()
    {
      Add(Br(|b.blocks|)).MoveTo(|b.blocks| + 1).(loops := b.loops)
    }
  }

  predicate Terminated(b: Block) {
    |b| > 0 && IsTerminator(b[|b| - 1])
  }

  function LlvmTypeOf(t: TypeId): Result<LlvmType> {
    match t
    case Float32 => Ok(FloatTy)
    case Float64 => Ok(DoubleTy)
    case String => Err(NoLlvmType)
    case UserDefined => Err(NoLlvmType)
    case Sentinel => Err(NoLlvmType)
    case LiteralInt => Err(NoLlvmType)
    case LiteralFloat => Err(NoLlvmType)
    case _ => Ok(I(WidthOf(t)))
  }

  datatype TypeOperations = IntOperations(isSigned: bool) | FloatOperations

  function BuildTypeOperations(t: TypeId): Result<TypeOperations> {
    match t
    case Int8 => Ok(IntOperations(true))
    case Int16 => Ok(IntOperations(true))
    case Int32 => Ok(IntOperations(true))
    case Int64 => Ok(IntOperations(true))
    case UInt8 => Ok(IntOperations(false))
    case UInt16 => Ok(IntOperations(false))
    case UInt32 => Ok(IntOperations(false))
    case UInt64 => Ok(IntOperations(false))
    case Float32 => Ok(FloatOperations)
    case Float64 => Ok(FloatOperations)
    case _ => Err(NoOperations)
  }

  /** The instruction chosen for an operator token.  Float comparisons are the ordered ones. */
  function ApplyOperation(ops: TypeOperations, op: TokenKind): Result<Opcode> {
    match ops
    case IntOperations(s) =>
      (match op
       case Plus => Ok(Opcode.Add)
       case Minus => Ok(Sub)
       case Asterisk => Ok(Mul)
       case ForwardSlash => Ok(if s then SDiv else UDiv)
       case GreaterThan => Ok(ICmp(if s then SGT else UGT))
       case LessThan => Ok(ICmp(if s then SLT else ULT))
       case GreaterThanEquals => Ok(ICmp(if s then SGE else UGE))
       case LessThanEquals => Ok(ICmp(if s then SLE else ULE))
       case Equals => Ok(ICmp(EQ))
       case _ => Err(UnsupportedOperation))
    case FloatOperations =>
      (match op
       case Plus => Ok(FAdd)
       case Minus => Ok(FSub)
       case Asterisk => Ok(FMul)
       case ForwardSlash => Ok(FDiv)
       case GreaterThan => Ok(FCmp(SGT))
       case LessThan => Ok(FCmp(SLT))
       case GreaterThanEquals => Ok(FCmp(SGE))
       case LessThanEquals => Ok(FCmp(SLE))
       case Equals => Ok(FCmp(EQ))
       case _ => Err(UnsupportedOperation))
  }

  /** The instruction for a binary node: a Bool result takes its operations from the operand type. */
  function OpcodeFor(op: TokenKind, operand: Option<TypeId>, resolved: Option<TypeId>): Result<Opcode> {
    if resolved.None? then Err(MissingAnnotation)
    else if resolved.value.Bool? && operand.None? then Err(MissingAnnotation)
    else
      var ops :- BuildTypeOperations(if resolved.value.Bool? then operand.value else resolved.value);
      ApplyOperation(ops, op)
  }

  /** An integer constant: the value goes through 64 bits before it is cut to the type's width. */
  function LiteralWord(value: int, resolved: Option<TypeId>): Result<Word> {
    if resolved.None? then Err(MissingAnnotation)
    else if !IsInteger(resolved.value) then Err(NotAnIntegerLiteral)
    else
      var w := WidthOf(resolved.value);
      Ok(Word(w, Bits(w, Bits(W64, value))))
  }

  function EmitExpr(known: set<string>, b: Builder, e: Expr): (r: Result<(Builder, Operand)>)
    requires b.Valid()
    ensures r.Ok? ==> var b' := r.value.0;
                      b'.cur == b.cur && |b'.blocks| == |b.blocks| && b'.named == b.named && b'.loops == b.loops
    decreases e
  {
    match e
    case IntLit(value, resolved) =>
      var w :- LiteralWord(value, resolved);
      Ok((b, Const(w)))
    case FloatLit(digits, _) => Ok((b, FloatConst(digits)))
    case Var(name, resolved) =>
      if name !in b.named then Err(UnknownValue)
      else if resolved.None? then Err(MissingAnnotation)
      else
        var ty :- LlvmTypeOf(resolved.value);
        Ok((b.Define(Load(b.next, ty, b.named[name])), Reg(b.next)))
    case Call(name) =>
      if name !in known then Err(UnknownFunction)
      else Ok((b.Define(CallFunction(b.next, name)), Reg(b.next)))
    case Binary(op, lhs, rhs, operand, resolved) =>
      var l :- EmitExpr(known, b, lhs);
      var r :- EmitExpr(known, l.0, rhs);
      var opcode :- OpcodeFor(op, operand, resolved);
      Ok((r.0.Define(Op(r.0.next, opcode, l.1, r.1)), Reg(r.0.next)))
  }

  function EmitStmt(known: set<string>, b: Builder, s: Stmt): (r: Result<Builder>)
    requires b.Valid()
    ensures r.Ok? ==> r.value.Valid() && |r.value.blocks| >= |b.blocks|
    decreases s
  {
    match s
    case DeclStmt(name, _, value, declared) =>
      if name in b.named then Err(DuplicateVariable)
      else
        var v :- EmitExpr(known, b, value);
        if declared.None? then Err(MissingAnnotation)
        else
          var ty :- LlvmTypeOf(declared.value);
          var slot := v.0.next;
          Ok(v.0.Define(Alloca(slot, ty)).Add(Store(v.1, slot)).(named := v.0.named[name := slot]))
    case AssignStmt(name, value) =>
      if name !in b.named then Err(UnknownValue)
      else
        var v :- EmitExpr(known, b, value);
        Ok(v.0.Add(Store(v.1, b.named[name])))
    case ShowStmt(expr, _) =>
      var v :- EmitExpr(known, b, expr);
      Ok(v.0.Add(CallPrintf(v.1)))
    case ReturnStmt(expr, _) =>
      var v :- EmitExpr(known, b, expr);
      Ok(v.0.Add(Ret(v.1)))
    case IfStmt(link) => EmitLink(known, b, link)
    case LoopStmt(body) =>
      var b2 :- EmitBlock(known, b.OpenLoop(), body);
      Ok(b2.CloseLoop(b))
    case BreakStmt =>
      if b.loops == [] then Err(JumpWithoutLoop) else Ok(b.Add(Br(b.loops[|b.loops| - 1].end)))
    case CycleStmt =>
      if b.loops == [] then Err(JumpWithoutLoop) else Ok(b.Add(Br(b.loops[|b.loops| - 1].body)))
  }

  function EmitLink(known: set<string>, b: Builder, link: IfLink): (r: Result<Builder>)
    requires b.Valid()
    ensures r.Ok? ==> r.value.Valid() && |r.value.blocks| >= |b.blocks|
    decreases link
  {
    var c :- EmitExpr(known, b, link.cond);
    var b1 := c.0.OpenThen(c.1, link);
    var b2 :- EmitBlock(known, b1, link.thn);
    var end := c.0.EndOf(link);
    var b3 := b2.CloseWith(end).MoveTo(|c.0.blocks| + 1);
    match link.els
    case NoElse => Ok(b3)
    case ElseBlock(stmts) =>
      var b4 :- EmitBlock(known, b3, stmts);
      Ok(b4.CloseWith(end).MoveTo(end))
    case ElseIfLink(next) =>
      var b4 :- EmitLink(known, b3, next);
      Ok(b4.CloseWith(end).MoveTo(end))
  }

  function EmitBlock(known: set<string>, b: Builder, stmts: seq<Stmt>): (r: Result<Builder>)
    requires b.Valid()
    ensures r.Ok? ==> r.value.Valid() && |r.value.blocks| >= |b.blocks|
    decreases stmts
  {
    if stmts == [] then Ok(b)
    else
      var b1 :- EmitStmt(known, b, stmts[0]);
      EmitBlock(known, b1, stmts[1..])
  }

  const START := Builder([[]], 0, map[], [], 0)

  /** All blocks of a function, entry first.  The function itself is already known to the module. */
  function EmitFunction(known: set<string>, f: FunctionDecl): Result<Builder> {
    EmitBlock(known + {f.name}, START, f.body)
  }

  /** A module grows by one function at a time.  A second function with a taken name is renamed by
      LLVM, so no call reaches it; it is recorded apart. */
  function EmitProgram(known: set<string>, m: Module, fns: seq<FunctionDecl>): Result<Module>
    decreases fns
  {
    if fns == [] then Ok(m)
    else
      var b :- EmitFunction(known, fns[0]);
      EmitProgram(known + {fns[0].name},
                  if fns[0].name in known then m else m[fns[0].name := b.blocks],
                  fns[1..])
  }

  function RenamedBlocks(known: set<string>, fns: seq<FunctionDecl>): seq<seq<Block>>
    decreases fns
  {
    if fns == [] || EmitFunction(known, fns[0]).Err? then []
    else
      (if fns[0].name in known then [EmitFunction(known, fns[0]).value.blocks] else [])
      + RenamedBlocks(known + {fns[0].name}, fns[1..])
  }

  const PRINTF := "printf"

  function Compile(fns: seq<FunctionDecl>): Result<Module> {
    EmitProgram({PRINTF}, map[], fns)
  }
}
