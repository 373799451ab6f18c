/** The verifier's other rules: operands have the types their instruction asks for, on every path a
    register or slot is defined before it is used, and functions return 32 bits.  What is emitted for typed
    programs keeps them exactly when every return is 32 bits wide. */
module Verifying {
  import opened Results
  import opened Syntax
  import opened Integers
  import opened Ir
  import opened Codegen
  import opened Layout
  import opened WellFormedness
  import opened Typing
  import opened Scoping
  import opened Safety

  // ----- the rules -----

  /** What is known at a point of a block, on every path to it: registers defined in the block, slots
      allocated, slots stored to. */
  datatype Facts = Facts(regs: set<nat>, slots: set<nat>, stored: set<nat>)

  function Past(f: Facts, i: Instr): Facts {
    match i
    case Alloca(slot, _) => f.(slots := f.slots + {slot}, stored := f.stored - {slot})
    case Store(_, slot) => f.(stored := f.stored + {slot})
    case Load(dst, _, _) => f.(regs := f.regs + {dst})
    case Op(dst, _, _, _) => f.(regs := f.regs + {dst})
    case CallFunction(dst, _) => f.(regs := f.regs + {dst})
    case _ => f
  }

  /** At the end of a block on whose entry the slots in `start` are stored to. */
  function FactsAfter(start: set<nat>, block: Block): Facts {
    if block == [] then Facts({}, start, start)
    else Past(FactsAfter(start, block[..|block| - 1]), block[|block| - 1])
  }

  /** The type of each register, and of what each slot holds. */
  type Types = map<nat, LlvmType>

  function OperandType(types: Types, f: Facts, v: Operand): Option<LlvmType> {
    match v
    case Const(w) => Some(TypeOfWord(w))
    case FloatConst(_) => Some(DoubleTy)
    case Reg(id) => if id in f.regs && id in types then Some(types[id]) else None
  }

  function ResultType(opcode: Opcode, t: LlvmType): Option<LlvmType> {
    match opcode
    case ICmp(_) => if t.I? then Some(I(W1)) else None
    case FCmp(_) => if t.I? then None else Some(I(W1))
    case FAdd => if t.I? then None else Some(t)
    case FSub => if t.I? then None else Some(t)
    case FMul => if t.I? then None else Some(t)
    case FDiv => if t.I? then None else Some(t)
    case _ => if t.I? then Some(t) else None
  }

  predicate Has(types: Types, n: nat, t: LlvmType) {
    n in types && types[n] == t
  }

  /** entry[k] is what block k may rely on; a branch to it must guarantee that.  No branch goes back to the
      first block. */
  predicate InstrOk(names: set<string>, entry: seq<set<nat>>, types: Types, f: Facts, i: Instr) {
    match i
    case Alloca(slot, t) => Has(types, slot, t)
    case Store(src, slot) => slot in f.slots && slot in types && OperandType(types, f, src) == Some(types[slot])
    case Load(dst, t, slot) => slot in f.stored && Has(types, slot, t) && Has(types, dst, t)
    case Op(dst, opcode, a, b) =>
      var t := OperandType(types, f, a);
      && t.Some? && OperandType(types, f, b) == t && dst in types && ResultType(opcode, t.value) == Some(types[dst])
    case CallPrintf(src) => OperandType(types, f, src).Some?
    case CallFunction(dst, callee) => callee in names && Has(types, dst, I(W32))
    case Br(target) => 0 < target < |entry| && entry[target] <= f.stored
    case CondBr(cond, thn, els) =>
      && OperandType(types, f, cond) == Some(I(W1))
      && 0 < thn < |entry| && entry[thn] <= f.stored && 0 < els < |entry| && entry[els] <= f.stored
    case Ret(src) => OperandType(types, f, src) == Some(I(W32))
  }

  predicate BlockOk(names: set<string>, entry: seq<set<nat>>, types: Types, start: set<nat>, block: Block) {
    block == []
    || (BlockOk(names, entry, types, start, block[..|block| - 1])
        && InstrOk(names, entry, types, FactsAfter(start, block[..|block| - 1]), block[|block| - 1]))
  }

  ghost predicate AllOk(names: set<string>, entry: seq<set<nat>>, types: Types, blocks: seq<Block>) {
    |entry| == |blocks| && forall k | 0 <= k < |blocks| :: BlockOk(names, entry, types, entry[k], blocks[k])
  }

  /** Nothing is assumed on entry to the function. */
  ghost predicate StaticallyOk(names: set<string>, blocks: seq<Block>) {
    exists entry: seq<set<nat>>, types: Types ::
      |entry| > 0 && entry[0] == {} && AllOk(names, entry, types, blocks)
  }

  // ----- appending and opening blocks -----

  ghost predicate MoreTypes(types: Types, types': Types) {
    forall n | n in types :: n in types' && types'[n] == types[n]
  }

  lemma {:induction false} BlockMore(names: set<string>, entry: seq<set<nat>>, entry': seq<set<nat>>, types: Types,
                                     types': Types, start: set<nat>, block: Block)
    requires BlockOk(names, entry, types, start, block) && entry <= entry' && MoreTypes(types, types')
    ensures BlockOk(names, entry', types', start, block)
    decreases |block|
  {
    if block != [] {
      BlockMore(names, entry, entry', types, types', start, block[..|block| - 1]);
    }
  }

  lemma AllMore(names: set<string>, entry: seq<set<nat>>, entry': seq<set<nat>>, types: Types, types': Types,
                blocks: seq<Block>, n: nat)
    requires AllOk(names, entry, types, blocks) && entry <= entry' && MoreTypes(types, types')
    requires |entry'| == |entry| + n
    ensures AllOk(names, entry', types', blocks + seq(n, _ => []))
  {
    hide InstrOk;
    var all := blocks + seq(n, _ => []);
    forall k | 0 <= k < |all|
      ensures BlockOk(names, entry', types', entry'[k], all[k])
    {
      if k < |blocks| {
        BlockMore(names, entry, entry', types, types', entry[k], blocks[k]);
      }
    }
  }

  /** Facts at the insertion point. */
  function Here(b: Builder, entry: seq<set<nat>>): Facts
    requires b.Valid() && |entry| == |b.blocks|
  {
    FactsAfter(entry[b.cur], b.blocks[b.cur])
  }

  lemma AddOk(names: set<string>, b: Builder, entry: seq<set<nat>>, types: Types, types': Types, i: Instr)
    requires b.Valid() && AllOk(names, entry, types, b.blocks) && MoreTypes(types, types')
    requires InstrOk(names, entry, types', Here(b, entry), i)
    ensures AllOk(names, entry, types', b.Add(i).blocks)
    ensures Here(b.Add(i), entry) == Past(Here(b, entry), i)
  {
    hide InstrOk, BlockOk, FactsAfter, Past;
    AllMore(names, entry, entry, types, types', b.blocks, 0);
    assert b.blocks + seq(0, _ => []) == b.blocks;
    BlockAppend(names, entry, types', entry[b.cur], b.blocks[b.cur], i);
  }

  lemma BlockAppend(names: set<string>, entry: seq<set<nat>>, types: Types, start: set<nat>, block: Block, i: Instr)
    requires BlockOk(names, entry, types, start, block)
    requires InstrOk(names, entry, types, FactsAfter(start, block), i)
    ensures BlockOk(names, entry, types, start, block + [i])
    ensures FactsAfter(start, block + [i]) == Past(FactsAfter(start, block), i)
  {
    hide InstrOk, Past;
    assert (block + [i])[..|block|] == block;
  }

  // ----- what is kept during emission -----

  ghost predicate VarOk(g: Gamma, b: Builder, entry: seq<set<nat>>, types: Types, x: string)
    requires b.Valid() && |entry| == |b.blocks| && x in g.vars
  {
    && x in b.named && b.named[x] in Here(b, entry).stored
    && LlvmTypeOf(g.vars[x]).Ok? && Has(types, b.named[x], LlvmTypeOf(g.vars[x]).value)
  }

  ghost predicate ScopeOk(g: Gamma, b: Builder, entry: seq<set<nat>>, types: Types)
    requires b.Valid() && |entry| == |b.blocks|
  {
    forall x {:trigger VarOk(g, b, entry, types, x)} | x in g.vars :: VarOk(g, b, entry, types, x)
  }

  ghost predicate LoopsOk(b: Builder, entry: seq<set<nat>>)
    requires b.Valid() && |entry| == |b.blocks|
  {
    forall l | l in b.loops ::
      && 0 < l.body < |entry| && entry[l.body] <= Here(b, entry).stored
      && 0 < l.end < |entry| && entry[l.end] <= Here(b, entry).stored
  }

  ghost predicate NumbersOk(b: Builder, entry: seq<set<nat>>, types: Types)
    requires b.Valid() && |entry| == |b.blocks|
  {
    && (forall n | n in types :: n < b.next)
    && (forall n | n in Here(b, entry).stored :: n < b.next && n in Here(b, entry).slots)
  }

  /** The blocks so far keep the rules, every name in scope has a slot that is stored to on every path here,
      and so is whatever the blocks of the enclosing loops rely on. */
  ghost predicate Fine(names: set<string>, g: Gamma, b: Builder, entry: seq<set<nat>>, types: Types) {
    && b.Valid() && AllOk(names, entry, types, b.blocks)
    && ScopeOk(g, b, entry, types) && LoopsOk(b, entry) && NumbersOk(b, entry, types)
  }

  /** What was stored stays stored. */
  ghost predicate Onward(b: Builder, entry: seq<set<nat>>, types: Types, b': Builder, entry': seq<set<nat>>,
                         types': Types)
    requires b.Valid() && |entry| == |b.blocks| && b'.Valid() && |entry'| == |b'.blocks|
  {
    && entry <= entry' && MoreTypes(types, types') && Here(b, entry).stored <= Here(b', entry').stored
    && NamesKept(b.named, b'.named) && b.next <= b'.next
  }

  lemma OnwardTrans(b: Builder, entry: seq<set<nat>>, types: Types, b1: Builder, entry1: seq<set<nat>>, types1: Types,
                    b2: Builder, entry2: seq<set<nat>>, types2: Types)
    requires b.Valid() && |entry| == |b.blocks| && b1.Valid() && |entry1| == |b1.blocks|
    requires b2.Valid() && |entry2| == |b2.blocks|
    requires Onward(b, entry, types, b1, entry1, types1) && Onward(b1, entry1, types1, b2, entry2, types2)
    ensures Onward(b, entry, types, b2, entry2, types2)
  {
    hide FactsAfter;
    assert forall k | 0 <= k < |entry| :: entry2[k] == entry1[k] == entry[k];
  }

  /** Going on from b to b' keeps what holds at b. */
  lemma FineOnward(names: set<string>, g: Gamma, b: Builder, entry: seq<set<nat>>, types: Types, b': Builder,
                   entry': seq<set<nat>>, types': Types)
    requires Fine(names, g, b, entry, types) && b'.Valid() && AllOk(names, entry', types', b'.blocks)
    requires Onward(b, entry, types, b', entry', types') && b'.loops == b.loops && NumbersOk(b', entry', types')
    ensures Fine(names, g, b', entry', types')
  {
    hide FactsAfter, BlockOk;
    forall x | x in g.vars
      ensures VarOk(g, b', entry', types', x)
    {
      assert VarOk(g, b, entry, types, x);
    }
  }

  // ----- expressions -----

  lemma {:induction false} ExprFine(names: set<string>, known: set<string>, g: Gamma, b: Builder, e: Expr, t: TypeId,
                                    entry: seq<set<nat>>, types: Types)
    returns (types': Types)
    requires Fine(names, g, b, entry, types) && HasType(g, e, t) && InFragment(e) && EmitExpr(known, b, e).Ok?
    requires g.functions.Keys <= names && forall f | f in g.functions :: g.functions[f] == Int32
    ensures var (b', v) := EmitExpr(known, b, e).value;
            && Fine(names, g, b', entry, types') && Onward(b, entry, types, b', entry, types')
            && Here(b', entry).stored == Here(b, entry).stored && Here(b, entry).regs <= Here(b', entry).regs
            && LlvmTypeOf(t).Ok? && OperandType(types', Here(b', entry), v) == Some(LlvmTypeOf(t).value)
    decreases e
  {
    types' := types;
    match e
    case IntLit(_, _) =>
    case FloatLit(_, _) =>
    case Var(name, resolved) =>
      assert VarOk(g, b, entry, types, name);
      var ty := LlvmTypeOf(t).value;
      types' := Defined(names, g, b, entry, types, Load(b.next, ty, b.named[name]), ty);
    case Call(name) =>
      types' := Defined(names, g, b, entry, types, CallFunction(b.next, name), I(W32));
    case Binary(op, lhs, rhs, operand, resolved) =>
      types' := BinaryFine(names, known, g, b, e, t, entry, types);
  }

  /** An instruction that defines the next register. */
  lemma Defined(names: set<string>, g: Gamma, b: Builder, entry: seq<set<nat>>, types: Types, i: Instr, t: LlvmType)
    returns (types': Types)
    requires Fine(names, g, b, entry, types)
    requires i.Load? || i.Op? || i.CallFunction?
    requires i.dst == b.next && InstrOk(names, entry, types[b.next := t], Here(b, entry), i)
    ensures types' == types[b.next := t]
    ensures Fine(names, g, b.Define(i), entry, types') && Onward(b, entry, types, b.Define(i), entry, types')
    ensures Here(b.Define(i), entry) == Here(b, entry).(regs := Here(b, entry).regs + {b.next})
  {
    hide InstrOk, FactsAfter, BlockOk;
    types' := types[b.next := t];
    AddOk(names, b, entry, types, types', i);
    assert Here(b.Define(i), entry) == Past(Here(b, entry), i);
    FineOnward(names, g, b, entry, types, b.Define(i), entry, types');
  }

  lemma {:induction false} BinaryFine(names: set<string>, known: set<string>, g: Gamma, b: Builder, e: Expr, t: TypeId,
                                      entry: seq<set<nat>>, types: Types)
    returns (types': Types)
    requires e.Binary? && Fine(names, g, b, entry, types) && HasType(g, e, t) && InFragment(e)
    requires EmitExpr(known, b, e).Ok?
    requires g.functions.Keys <= names && forall f | f in g.functions :: g.functions[f] == Int32
    ensures var (b', v) := EmitExpr(known, b, e).value;
            && Fine(names, g, b', entry, types') && Onward(b, entry, types, b', entry, types')
            && Here(b', entry).stored == Here(b, entry).stored && Here(b, entry).regs <= Here(b', entry).regs
            && LlvmTypeOf(t).Ok? && OperandType(types', Here(b', entry), v) == Some(LlvmTypeOf(t).value)
    decreases e, 0
  {
    hide FactsAfter, BlockOk, ScopeOk, LoopsOk, OpcodeFor;
    var l := EmitExpr(known, b, e.lhs).value;
    var r := EmitExpr(known, l.0, e.rhs).value;
    var opcode := OpcodeFor(e.op, e.operand, e.resolved).value;
    var types1 := ExprFine(names, known, g, b, e.lhs, e.operand.value, entry, types);
    var types2 := ExprFine(names, known, g, l.0, e.rhs, e.operand.value, entry, types1);
    OperandKept(types1, types2, Here(l.0, entry), Here(r.0, entry), l.1);
    OpcodeTyped(e, t, opcode);
    var i := Op(r.0.next, opcode, l.1, r.1);
    var types3 := types2[r.0.next := LlvmTypeOf(t).value];
    OperandKept(types2, types3, Here(r.0, entry), Here(r.0, entry), l.1);
    OperandKept(types2, types3, Here(r.0, entry), Here(r.0, entry), r.1);
    types' := Defined(names, g, r.0, entry, types2, i, LlvmTypeOf(t).value);
    OnwardTrans(b, entry, types, l.0, entry, types1, r.0, entry, types2);
    OnwardTrans(b, entry, types, r.0, entry, types2, r.0.Define(i), entry, types');
  }

  /** The instruction picked for a node takes its operand type to its result type. */
  lemma OpcodeTyped(e: Expr, t: TypeId, opcode: Opcode)
    requires e.Binary? && InFragment(e) && e.resolved == Some(t) && OpcodeFor(e.op, e.operand, e.resolved) == Ok(opcode)
    requires t == if IsBoolOperator(e.op) then TypeId.Bool else e.operand.value
    ensures LlvmTypeOf(e.operand.value).Ok? && LlvmTypeOf(t).Ok?
    ensures ResultType(opcode, LlvmTypeOf(e.operand.value).value) == Some(LlvmTypeOf(t).value)
  {
  }

  lemma OperandKept(types: Types, types': Types, f: Facts, f': Facts, v: Operand)
    requires MoreTypes(types, types') && f.regs <= f'.regs && OperandType(types, f, v).Some?
    ensures OperandType(types', f', v) == OperandType(types, f, v)
  {
  }

  // ----- statements -----

  /** An instruction that defines no register and allocates nothing. */
  lemma Appended(names: set<string>, g: Gamma, b: Builder, entry: seq<set<nat>>, types: Types, i: Instr)
    requires Fine(names, g, b, entry, types) && InstrOk(names, entry, types, Here(b, entry), i)
    requires i.Store? || i.CallPrintf? || i.Br? || i.CondBr? || i.Ret?
    ensures Fine(names, g, b.Add(i), entry, types) && Onward(b, entry, types, b.Add(i), entry, types)
    ensures Here(b.Add(i), entry) == Past(Here(b, entry), i)
  {
    hide FactsAfter, BlockOk;
    AddOk(names, b, entry, types, types, i);
    FineOnward(names, g, b, entry, types, b.Add(i), entry, types);
  }

  /** A declaration: allocate, store, and from here on the name is in scope. */
  lemma DeclFine(names: set<string>, g: Gamma, b: Builder, x: string, t: TypeId, v: Operand, entry: seq<set<nat>>,
                 types: Types)
    returns (types': Types)
    requires Fine(names, g, b, entry, types) && x !in b.named && LlvmTypeOf(t).Ok?
    requires OperandType(types, Here(b, entry), v) == Some(LlvmTypeOf(t).value)
    ensures var b1 := b.Define(Alloca(b.next, LlvmTypeOf(t).value)).Add(Store(v, b.next));
            var b' := b1.(named := b.named[x := b.next]);
            Fine(names, g.(vars := g.vars[x := t]), b', entry, types') && Onward(b, entry, types, b', entry, types')
  {
    hide FactsAfter, BlockOk, LlvmTypeOf;
    var ty, slot := LlvmTypeOf(t).value, b.next;
    types' := types[slot := ty];
    var b1 := b.Define(Alloca(slot, ty));
    AddOk(names, b, entry, types, types', Alloca(slot, ty));
    assert Here(b1, entry) == Past(Here(b, entry), Alloca(slot, ty));
    assert Here(b1, entry).stored == Here(b, entry).stored;
    OperandKept(types, types', Here(b, entry), Here(b1, entry), v);
    AddOk(names, b1, entry, types', types', Store(v, slot));
    var b' := b1.Add(Store(v, slot)).(named := b.named[x := slot]);
    assert Here(b', entry) == Past(Here(b1, entry), Store(v, slot));
    FineOnward(names, g, b, entry, types, b', entry, types');
    var g' := g.(vars := g.vars[x := t]);
    forall y | y in g'.vars
      ensures VarOk(g', b', entry, types', y)
    {
      assert y != x ==> VarOk(g, b', entry, types', y);
    }
  }

  /** Opening n blocks that rely on what is stored here, branching to them, and moving to one of them. */
  lemma Opened(names: set<string>, g: Gamma, b: Builder, entry: seq<set<nat>>, types: Types, n: nat, i: Instr, k: nat)
    returns (entry': seq<set<nat>>)
    requires Fine(names, g, b, entry, types) && |b.blocks| <= k < |b.blocks| + n && (i.Br? || i.CondBr?)
    requires InstrOk(names, entry + seq(n, _ => Here(b, entry).stored), types, Here(b, entry), i)
    ensures entry' == entry + seq(n, _ => Here(b, entry).stored)
    ensures var b' := b.NewBlocks(n).Add(i).MoveTo(k);
            && Fine(names, g, b', entry', types) && Onward(b, entry, types, b', entry', types)
            && Here(b', entry').stored == Here(b, entry).stored
  {
    hide InstrOk;
    var stored := Here(b, entry).stored;
    entry' := entry + seq(n, _ => stored);
    var b1 := b.NewBlocks(n);
    AllMore(names, entry, entry', types, types, b.blocks, n);
    assert b1.blocks[b.cur] == b.blocks[b.cur] && Here(b1, entry') == Here(b, entry);
    AddOk(names, b1, entry', types, types, i);
    var b' := b1.Add(i).MoveTo(k);
    assert b'.blocks[k] == [] && entry'[k] == stored;
    FineOnward(names, g, b, entry, types, b', entry', types);
  }

  /** Taking up again, in a block still empty that relies on what was stored at c. */
  lemma Resumed(names: set<string>, g: Gamma, c: Builder, entry: seq<set<nat>>, types: Types, b: Builder,
                entry': seq<set<nat>>, types': Types, k: nat)
    requires Fine(names, g, c, entry, types) && b.Valid() && AllOk(names, entry', types', b.blocks)
    requires Onward(c, entry, types, b, entry', types') && b.loops == c.loops
    requires forall n | n in types' :: n < b.next
    requires k < |b.blocks| && b.blocks[k] == [] && entry'[k] == Here(c, entry).stored
    ensures Fine(names, g, b.MoveTo(k), entry', types')
    ensures Onward(c, entry, types, b.MoveTo(k), entry', types')
    ensures Here(b.MoveTo(k), entry').stored == Here(c, entry).stored
  {
    hide BlockOk;
    assert Here(b.MoveTo(k), entry') == Facts({}, entry'[k], entry'[k]);
    FineOnward(names, g, c, entry, types, b.MoveTo(k), entry', types');
  }

  /** Closing a branch. */
  lemma Closed(names: set<string>, g: Gamma, b: Builder, entry: seq<set<nat>>, types: Types, end: nat)
    requires Fine(names, g, b, entry, types) && 0 < end < |entry| && entry[end] <= Here(b, entry).stored
    ensures Fine(names, g, b.CloseWith(end), entry, types)
    ensures Onward(b, entry, types, b.CloseWith(end), entry, types)
  {
    hide FactsAfter, BlockOk;
    if !Terminated(b.Here()) {
      Appended(names, g, b, entry, types, Br(end));
    }
  }

  lemma {:induction false} StmtFine(names: set<string>, known: set<string>, g: Gamma, b: Builder, s: Stmt, inLoop: bool,
                                    entry: seq<set<nat>>, types: Types)
    returns (entry': seq<set<nat>>, types': Types)
    requires Fine(names, g, b, entry, types) && TypedStmt(g, s, inLoop) && FragmentStmt(s)
    requires WordReturnsStmt(s) && EmitStmt(known, b, s).Ok?
    requires g.functions.Keys <= names && forall f | f in g.functions :: g.functions[f] == Int32
    ensures var b' := EmitStmt(known, b, s).value;
            Fine(names, After(g, s), b', entry', types') && Onward(b, entry, types, b', entry', types')
    decreases s
  {
    hide Fine, Onward, FactsAfter, EmitExpr, HasType, InFragment, InstrOk;
    entry', types' := entry, types;
    match s
    case IfStmt(link) => entry', types' := LinkFine(names, known, g, b, link, inLoop, entry, types);
    case LoopStmt(body) => entry', types' := LoopFine(names, known, g, b, body, entry, types);
    case _ => types' := SimpleFine(names, known, g, b, s, inLoop, entry, types);
  }

  /** Statements without a block of their own. */
  lemma SimpleFine(names: set<string>, known: set<string>, g: Gamma, b: Builder, s: Stmt, inLoop: bool,
                   entry: seq<set<nat>>, types: Types)
    returns (types': Types)
    requires !s.IfStmt? && !s.LoopStmt?
    requires Fine(names, g, b, entry, types) && TypedStmt(g, s, inLoop) && FragmentStmt(s)
    requires WordReturnsStmt(s) && EmitStmt(known, b, s).Ok?
    requires g.functions.Keys <= names && forall f | f in g.functions :: g.functions[f] == Int32
    ensures var b' := EmitStmt(known, b, s).value;
            Fine(names, After(g, s), b', entry, types') && Onward(b, entry, types, b', entry, types')
  {
    hide FactsAfter, BlockOk, EmitExpr, HasType, InFragment;
    types' := types;
    match s
    case DeclStmt(name, _, value, declared) =>
      var v := EmitExpr(known, b, value).value;
      var types1 := ExprFine(names, known, g, b, value, declared.value, entry, types);
      types' := DeclFine(names, g, v.0, name, declared.value, v.1, entry, types1);
      OnwardTrans(b, entry, types, v.0, entry, types1, EmitStmt(known, b, s).value, entry, types');
    case AssignStmt(name, value) =>
      var v := EmitExpr(known, b, value).value;
      types' := ExprFine(names, known, g, b, value, g.vars[name], entry, types);
      assert VarOk(g, v.0, entry, types', name);
      assert v.0.named == b.named;
      Appended(names, g, v.0, entry, types', Store(v.1, b.named[name]));
      OnwardTrans(b, entry, types, v.0, entry, types', EmitStmt(known, b, s).value, entry, types');
    case ShowStmt(expr, exprType) =>
      var v := EmitExpr(known, b, expr).value;
      types' := ExprFine(names, known, g, b, expr, exprType.value, entry, types);
      Appended(names, g, v.0, entry, types', CallPrintf(v.1));
      OnwardTrans(b, entry, types, v.0, entry, types', EmitStmt(known, b, s).value, entry, types');
    case ReturnStmt(expr, exprType) =>
      var v := EmitExpr(known, b, expr).value;
      types' := ExprFine(names, known, g, b, expr, exprType.value, entry, types);
      Appended(names, g, v.0, entry, types', Ret(v.1));
      OnwardTrans(b, entry, types, v.0, entry, types', EmitStmt(known, b, s).value, entry, types');
    case BreakStmt =>
      assert b.loops[|b.loops| - 1] in b.loops;
      Appended(names, g, b, entry, types, Br(b.loops[|b.loops| - 1].end));
    case CycleStmt =>
      assert b.loops[|b.loops| - 1] in b.loops;
      Appended(names, g, b, entry, types, Br(b.loops[|b.loops| - 1].body));
  }

  lemma {:induction false} SeqFine(names: set<string>, known: set<string>, g: Gamma, b: Builder, stmts: seq<Stmt>,
                                   inLoop: bool, entry: seq<set<nat>>, types: Types)
    returns (entry': seq<set<nat>>, types': Types)
    requires Fine(names, g, b, entry, types) && TypedSeq(g, stmts, inLoop) && FragmentSeq(stmts) && WordReturns(stmts)
    requires EmitBlock(known, b, stmts).Ok?
    requires g.functions.Keys <= names && forall f | f in g.functions :: g.functions[f] == Int32
    ensures var b' := EmitBlock(known, b, stmts).value;
            Fine(names, g, b', entry', types') && Onward(b, entry, types, b', entry', types')
    decreases stmts, 0
  {
    hide FactsAfter, BlockOk, EmitStmt, TypedStmt, FragmentStmt, WordReturnsStmt;
    entry', types' := entry, types;
    if stmts != [] {
      var b1 := EmitStmt(known, b, stmts[0]).value;
      var b' := EmitBlock(known, b, stmts).value;
      var entry1, types1 := StmtFine(names, known, g, b, stmts[0], inLoop, entry, types);
      entry', types' := SeqFine(names, known, After(g, stmts[0]), b1, stmts[1..], inLoop, entry1, types1);
      OnwardTrans(b, entry, types, b1, entry1, types1, b', entry', types');
      StmtGrows(known, b, stmts[0]);
      BlockGrows(known, b1, stmts[1..]);
      FineOnward(names, g, b, entry, types, b', entry', types');
    }
  }

  /** The new loop's blocks rely on what was stored before it. */
  lemma LoopEntered(names: set<string>, g: Gamma, b: Builder, entry: seq<set<nat>>, types: Types, b1: Builder,
                    entry1: seq<set<nat>>)
    requires Fine(names, g, b, entry, types) && Fine(names, g, b1, entry1, types)
    requires Onward(b, entry, types, b1, entry1, types) && b1.loops == b.loops
    requires |entry1| == |b.blocks| + 2 && Here(b1, entry1).stored == Here(b, entry).stored
    requires entry1[|b.blocks|] == entry1[|b.blocks| + 1] == Here(b, entry).stored
    ensures var b2 := b1.(loops := b.loops + [LoopBlocks(|b.blocks|, |b.blocks| + 1)]);
            Fine(names, g, b2, entry1, types) && Onward(b, entry, types, b2, entry1, types)
  {
    hide FactsAfter, BlockOk;
    var b2 := b1.(loops := b.loops + [LoopBlocks(|b.blocks|, |b.blocks| + 1)]);
    forall x | x in g.vars
      ensures VarOk(g, b2, entry1, types, x)
    {
      assert VarOk(g, b1, entry1, types, x);
    }
  }

  lemma {:induction false} LoopFine(names: set<string>, known: set<string>, g: Gamma, b: Builder, body: seq<Stmt>,
                                    entry: seq<set<nat>>, types: Types)
    returns (entry': seq<set<nat>>, types': Types)
    requires Fine(names, g, b, entry, types) && TypedSeq(g, body, true) && FragmentSeq(body) && WordReturns(body)
    requires EmitStmt(known, b, LoopStmt(body)).Ok?
    requires g.functions.Keys <= names && forall f | f in g.functions :: g.functions[f] == Int32
    ensures var b' := EmitStmt(known, b, LoopStmt(body)).value;
            Fine(names, g, b', entry', types') && Onward(b, entry, types, b', entry', types')
    decreases body, 1
  {
    hide FactsAfter, BlockOk, ScopeOk, LoopsOk, EmitBlock, TypedSeq, FragmentSeq, WordReturns;
    var top := |b.blocks|;
    var b1 := b.OpenLoop();
    var entry1 := Opened(names, g, b, entry, types, 2, Br(top), top);
    LoopEntered(names, g, b, entry, types, b.NewBlocks(2).Add(Br(top)).MoveTo(top), entry1);
    var b2 := EmitBlock(known, b1, body).value;
    entry', types' := SeqFine(names, known, g, b1, body, true, entry1, types);
    BlockGrows(known, b1, body);
    OnwardTrans(b, entry, types, b1, entry1, types, b2, entry', types');
    Appended(names, g, b2, entry', types', Br(top));
    var b3 := b2.Add(Br(top)).(loops := b.loops);
    OnwardTrans(b, entry, types, b2, entry', types', b3, entry', types');
    Resumed(names, g, b, entry, types, b3, entry', types', top + 1);
  }

  lemma {:induction false} LinkFine(names: set<string>, known: set<string>, g: Gamma, b: Builder, link: IfLink,
                                    inLoop: bool, entry: seq<set<nat>>, types: Types)
    returns (entry': seq<set<nat>>, types': Types)
    requires Fine(names, g, b, entry, types) && TypedLink(g, link, inLoop) && FragmentLink(link)
    requires WordReturnsLink(link)
    requires EmitLink(known, b, link).Ok?
    requires g.functions.Keys <= names && forall f | f in g.functions :: g.functions[f] == Int32
    ensures var b' := EmitLink(known, b, link).value;
            Fine(names, g, b', entry', types') && Onward(b, entry, types, b', entry', types')
    decreases link
  {
    hide FactsAfter, BlockOk, ScopeOk, LoopsOk, EmitBlock, EmitExpr, TypedLink, FragmentLink, WordReturnsLink;
    var t := StagesOf(known, b, link);
    var types1, entry2, types2 := ThenFine(names, known, g, b, link, t, inLoop, entry, types);
    entry', types' := entry2, types2;
    if !link.els.NoElse? {
      ThenLeft(known, b, link);
      entry', types' := ElseFine(names, known, g, b, link, t, inLoop, entry, types1, entry2, types2);
    }
    OnwardTrans(b, entry, types, t.cond, entry, types1, EmitLink(known, b, link).value, entry', types');
  }

  /** The condition and the then part of a link, up to the start of its next block. */
  lemma {:induction false} ThenFine(names: set<string>, known: set<string>, g: Gamma, b: Builder, link: IfLink,
                                    t: Stages, inLoop: bool, entry: seq<set<nat>>, types: Types)
    returns (types1: Types, entry2: seq<set<nat>>, types2: Types)
    requires Fine(names, g, b, entry, types) && TypedLink(g, link, inLoop) && FragmentLink(link)
    requires WordReturnsLink(link)
    requires EmitLink(known, b, link).Ok? && t == StagesOf(known, b, link)
    requires g.functions.Keys <= names && forall f | f in g.functions :: g.functions[f] == Int32
    ensures Fine(names, g, t.cond, entry, types1) && Onward(b, entry, types, t.cond, entry, types1)
    ensures Fine(names, g, t.els, entry2, types2) && Onward(t.cond, entry, types1, t.els, entry2, types2)
    ensures 0 < t.end < |entry2| && entry2[t.end] == Here(t.cond, entry).stored
    decreases link, 1
  {
    hide FactsAfter, BlockOk, ScopeOk, LoopsOk, EmitBlock, EmitExpr, TypedSeq, FragmentSeq, WordReturns, HasType,
         InFragment;
    types1 := ExprFine(names, known, g, b, link.cond, TypeId.Bool, entry, types);
    var n := if link.els.NoElse? then 2 else 3;
    var k := |t.cond.blocks|;
    var entry1 := Opened(names, g, t.cond, entry, types1, n, CondBr(t.v, k, k + 1), k);
    entry2, types2 := SeqFine(names, known, g, t.thn, link.thn, inLoop, entry1, types1);
    OnwardTrans(t.cond, entry, types1, t.thn, entry1, types1, t.thnEnd, entry2, types2);
    ThenLeft(known, b, link);
    Closed(names, g, t.thnEnd, entry2, types2, t.end);
    var closed := t.thnEnd.CloseWith(t.end);
    OnwardTrans(t.cond, entry, types1, t.thnEnd, entry2, types2, closed, entry2, types2);
    Resumed(names, g, t.cond, entry, types1, closed, entry2, types2, k + 1);
  }

  /** After the then part the other blocks of the conditional are still empty. */
  lemma ThenLeft(known: set<string>, b: Builder, link: IfLink)
    requires b.Valid() && EmitLink(known, b, link).Ok?
    ensures var t := StagesOf(known, b, link);
            && t.thnEnd.loops == t.cond.loops && |t.els.blocks| >= |t.thn.blocks|
            && t.els.Here() == [] && t.els.blocks[t.end] == []
  {
    hide EmitExpr, EmitBlock;
    var t := StagesOf(known, b, link);
    OpenThenGrows(t.cond, t.v, link);
    BlockGrows(known, t.thn, link.thn);
  }

  /** The else part of a link, from its first block on. */
  lemma {:induction false} ElseFine(names: set<string>, known: set<string>, g: Gamma, b: Builder, link: IfLink,
                                    t: Stages, inLoop: bool, entry: seq<set<nat>>, types: Types,
                                    entry1: seq<set<nat>>, types1: Types)
    returns (entry': seq<set<nat>>, types': Types)
    requires b.Valid() && EmitLink(known, b, link).Ok? && t == StagesOf(known, b, link) && !link.els.NoElse?
    requires TypedLink(g, link, inLoop) && FragmentLink(link)
    requires WordReturnsLink(link)
    requires g.functions.Keys <= names && forall f | f in g.functions :: g.functions[f] == Int32
    requires Fine(names, g, t.cond, entry, types) && Fine(names, g, t.els, entry1, types1)
    requires Onward(t.cond, entry, types, t.els, entry1, types1) && t.els.loops == t.cond.loops
    requires 0 < t.end < |entry1| && entry1[t.end] == Here(t.cond, entry).stored
    requires t.els.blocks[t.end] == [] && t.els.cur != t.end
    ensures var b' := EmitLink(known, b, link).value;
            Fine(names, g, b', entry', types') && Onward(t.cond, entry, types, b', entry', types')
    decreases link, 0
  {
    hide FactsAfter, BlockOk, EmitBlock, EmitExpr, TypedSeq, FragmentSeq, WordReturns, HasType, InFragment;
    match link.els {
      case ElseBlock(stmts) =>
        entry', types' := SeqFine(names, known, g, t.els, stmts, inLoop, entry1, types1);
        BlockGrows(known, t.els, stmts);
      case ElseIfLink(next) =>
        entry', types' := LinkFine(names, known, g, t.els, next, inLoop, entry1, types1);
        LinkGrows(known, t.els, next);
    }
    OnwardTrans(t.cond, entry, types, t.els, entry1, types1, t.elsEnd, entry', types');
    Closed(names, g, t.elsEnd, entry', types', t.end);
    var closed := t.elsEnd.CloseWith(t.end);
    OnwardTrans(t.cond, entry, types, t.elsEnd, entry', types', closed, entry', types');
    Resumed(names, g, t.cond, entry, types, closed, entry', types', t.end);
  }

  // ----- the rules that can fail -----

  /** The type a value carries after a block, read off the instruction that defined it. */
  function TypeIn(block: Block, v: Operand): Option<LlvmType>
    decreases |block|
  {
    match v
    case Const(w) => Some(TypeOfWord(w))
    case FloatConst(_) => Some(DoubleTy)
    case Reg(id) =>
      if block == [] then None
      else
        var front := block[..|block| - 1];
        match block[|block| - 1]
        case Load(dst, t, _) => if dst == id then Some(t) else TypeIn(front, v)
        case CallFunction(dst, _) => if dst == id then Some(I(W32)) else TypeIn(front, v)
        case Op(dst, opcode, a, _) =>
          if dst != id then TypeIn(front, v)
          else
            var t := TypeIn(front, a);
            if t.Some? then ResultType(opcode, t.value) else None
        case _ => TypeIn(front, v)
  }

  /** The operands of an instruction have the types it asks for; what is returned is an i32. */
  predicate InstrFits(block: Block, k: nat)
    requires k < |block|
  {
    match block[k]
    case Op(_, opcode, a, b) =>
      var t := TypeIn(block[..k], a);
      t.Some? && TypeIn(block[..k], b) == t && ResultType(opcode, t.value).Some?
    case CondBr(cond, _, _) => TypeIn(block[..k], cond) == Some(I(W1))
    case Ret(src) => TypeIn(block[..k], src) == Some(I(W32))
    case _ => true
  }

  predicate TypesFit(blocks: seq<Block>) {
    forall i, k | 0 <= i < |blocks| && 0 <= k < |blocks[i]| :: InstrFits(blocks[i], k)
  }

  /** The verifier's verdict on one function, as far as it can go wrong. */
  predicate Accepts(blocks: seq<Block>) {
    WellFormed(blocks) && TypesFit(blocks)
  }

  predicate Verifies(m: Module, renamed: seq<seq<Block>>) {
    && (forall f | f in m :: Accepts(m[f]))
    && (forall i | 0 <= i < |renamed| :: Accepts(renamed[i]))
  }

  /** No assignment of types has a choice: registers have the type of what defines them. */
  lemma {:induction false} Forced(names: set<string>, entry: seq<set<nat>>, types: Types, start: set<nat>, block: Block,
                                  v: Operand)
    requires BlockOk(names, entry, types, start, block)
    ensures OperandType(types, FactsAfter(start, block), v) == TypeIn(block, v)
    decreases |block|
  {
    if block != [] && v.Reg? {
      var front, last := block[..|block| - 1], block[|block| - 1];
      Forced(names, entry, types, start, front, v);
      if last.Op? {
        Forced(names, entry, types, start, front, last.a);
      }
    }
  }

  lemma {:induction false} InstrAt(names: set<string>, entry: seq<set<nat>>, types: Types, start: set<nat>,
                                   block: Block, k: nat)
    requires BlockOk(names, entry, types, start, block) && k < |block|
    ensures BlockOk(names, entry, types, start, block[..k])
    ensures InstrOk(names, entry, types, FactsAfter(start, block[..k]), block[k])
    decreases |block|
  {
    hide InstrOk, FactsAfter;
    var front := block[..|block| - 1];
    if k < |front| {
      InstrAt(names, entry, types, start, front, k);
      assert front[..k] == block[..k];
    }
  }

  /** Where the rules can be kept at all, the types fit. */
  lemma StaticTypes(names: set<string>, blocks: seq<Block>)
    requires StaticallyOk(names, blocks)
    ensures TypesFit(blocks)
  {
    hide BlockOk, FactsAfter, TypeIn;
    var entry: seq<set<nat>>, types: Types :| |entry| > 0 && entry[0] == {} && AllOk(names, entry, types, blocks);
    forall i, k | 0 <= i < |blocks| && 0 <= k < |blocks[i]|
      ensures InstrFits(blocks[i], k)
    {
      InstrAt(names, entry, types, entry[i], blocks[i], k);
      match blocks[i][k] {
        case Op(_, _, a, b) =>
          Forced(names, entry, types, entry[i], blocks[i][..k], a);
          Forced(names, entry, types, entry[i], blocks[i][..k], b);
        case CondBr(cond, _, _) => Forced(names, entry, types, entry[i], blocks[i][..k], cond);
        case Ret(src) => Forced(names, entry, types, entry[i], blocks[i][..k], src);
        case _ =>
      }
    }
  }

  /** An operand keeps its type while other registers are defined. */
  ghost predicate KeepsTypes(part: Block, all: Block, below: nat) {
    forall v: Operand :: (v.Reg? ==> v.id < below) ==> TypeIn(all, v) == TypeIn(part, v)
  }

  lemma DefinedKeeps(part: Block, block: Block, below: nat, i: Instr)
    requires KeepsTypes(part, block, below)
    requires i.Load? || i.Op? || i.CallFunction?
    requires i.dst >= below
    ensures KeepsTypes(part, block + [i], below)
  {
    assert (block + [i])[..|block|] == block;
    forall v: Operand | v.Reg? ==> v.id < below
      ensures TypeIn(block + [i], v) == TypeIn(part, v)
    {
      assert TypeIn(block + [i], v) == TypeIn(block, v);
    }
  }

  lemma {:induction false} ExprTypeIn(known: set<string>, g: Gamma, b: Builder, e: Expr, t: TypeId)
    requires b.Valid() && HasType(g, e, t) && InFragment(e) && EmitExpr(known, b, e).Ok?
    requires forall f | f in g.functions :: g.functions[f] == Int32
    ensures var (b', v) := EmitExpr(known, b, e).value;
            && LlvmTypeOf(t).Ok? && TypeIn(b'.Here(), v) == Some(LlvmTypeOf(t).value)
            && b.next <= b'.next && (v.Reg? ==> v.id < b'.next) && KeepsTypes(b.Here(), b'.Here(), b.next)
    decreases e
  {
    match e
    case IntLit(_, _) =>
    case FloatLit(_, _) =>
    case Var(name, _) =>
      var i := Load(b.next, LlvmTypeOf(t).value, b.named[name]);
      DefinedKeeps(b.Here(), b.Here(), b.next, i);
      assert (b.Here() + [i])[..|b.Here()|] == b.Here();
    case Call(name) =>
      var i := CallFunction(b.next, name);
      DefinedKeeps(b.Here(), b.Here(), b.next, i);
      assert (b.Here() + [i])[..|b.Here()|] == b.Here();
    case Binary(_, _, _, _, _) => BinaryTypeIn(known, g, b, e, t);
  }

  lemma {:induction false} BinaryTypeIn(known: set<string>, g: Gamma, b: Builder, e: Expr, t: TypeId)
    requires e.Binary? && b.Valid() && HasType(g, e, t) && InFragment(e) && EmitExpr(known, b, e).Ok?
    requires forall f | f in g.functions :: g.functions[f] == Int32
    ensures var (b', v) := EmitExpr(known, b, e).value;
            && LlvmTypeOf(t).Ok? && TypeIn(b'.Here(), v) == Some(LlvmTypeOf(t).value)
            && b.next <= b'.next && (v.Reg? ==> v.id < b'.next) && KeepsTypes(b.Here(), b'.Here(), b.next)
    decreases e, 0
  {
    hide LlvmTypeOf, OpcodeFor, KeepsTypes;
    var l := EmitExpr(known, b, e.lhs).value;
    var r := EmitExpr(known, l.0, e.rhs).value;
    var opcode := OpcodeFor(e.op, e.operand, e.resolved).value;
    ExprTypeIn(known, g, b, e.lhs, e.operand.value);
    ExprTypeIn(known, g, l.0, e.rhs, e.operand.value);
    OpcodeTyped(e, t, opcode);
    var i := Op(r.0.next, opcode, l.1, r.1);
    var here := r.0.Here();
    KeptFurther(b.Here(), l.0.Here(), here, b.next, l.0.next, l.1);
    DefinedKeeps(b.Here(), here, b.next, i);
    assert (here + [i])[..|here|] == here;
  }

  lemma KeptFurther(a: Block, b: Block, c: Block, m: nat, n: nat, v: Operand)
    requires m <= n && KeepsTypes(a, b, m) && KeepsTypes(b, c, n) && (v.Reg? ==> v.id < n)
    ensures KeepsTypes(a, c, m) && TypeIn(c, v) == TypeIn(b, v)
  {
    forall u: Operand | u.Reg? ==> u.id < m
      ensures TypeIn(c, u) == TypeIn(a, u)
    {
      assert TypeIn(b, u) == TypeIn(a, u);
    }
  }

  lemma BadStays(part: seq<Block>, all: seq<Block>)
    requires !TypesFit(part) && Extends(part, all)
    ensures !TypesFit(all)
  {
    var i, k :| 0 <= i < |part| && 0 <= k < |part[i]| && !InstrFits(part[i], k);
    assert Prefix(part[i], all[i]);
    assert all[i][..k] == part[i][..k];
    assert !InstrFits(all[i], k);
  }

  /** A return of another width is there for good. */
  lemma {:induction false} StmtReturns(known: set<string>, g: Gamma, b: Builder, s: Stmt, inLoop: bool)
    requires b.Valid() && TypedStmt(g, s, inLoop) && FragmentStmt(s) && EmitStmt(known, b, s).Ok?
    requires forall f | f in g.functions :: g.functions[f] == Int32
    requires !WordReturnsStmt(s)
    ensures !TypesFit(EmitStmt(known, b, s).value.blocks)
    decreases s
  {
    hide TypesFit, TypeIn, InFragment, HasType, EmitExpr;
    match s
    case ReturnStmt(expr, exprType) => BadReturn(known, g, b, s, inLoop);
    case IfStmt(link) => LinkReturns(known, g, b, link, inLoop);
    case LoopStmt(body) =>
      var b2 := EmitBlock(known, b.OpenLoop(), body).value;
      SeqReturns(known, g, b.OpenLoop(), body, true);
      AddGrows(b2, b2, Br(|b.blocks|));
      BadStays(b2.blocks, EmitStmt(known, b, s).value.blocks);
    case _ =>
  }

  lemma BadReturn(known: set<string>, g: Gamma, b: Builder, s: Stmt, inLoop: bool)
    requires s.ReturnStmt? && b.Valid() && TypedStmt(g, s, inLoop) && FragmentStmt(s) && EmitStmt(known, b, s).Ok?
    requires forall f | f in g.functions :: g.functions[f] == Int32
    requires !WordReturnsStmt(s)
    ensures !TypesFit(EmitStmt(known, b, s).value.blocks)
  {
    hide TypeIn, EmitExpr;
    var t := s.exprType.value;
    ExprTypeIn(known, g, b, s.expr, t);
    FragmentTypes(g, s.expr, t);
    var v := EmitExpr(known, b, s.expr).value;
    var block := v.0.Here() + [Ret(v.1)];
    assert block[..|v.0.Here()|] == v.0.Here();
    assert EmitStmt(known, b, s).value.blocks[v.0.cur] == block;
    assert !InstrFits(block, |v.0.Here()|);
  }

  lemma FragmentTypes(g: Gamma, e: Expr, t: TypeId)
    requires HasType(g, e, t) && InFragment(e) && forall f | f in g.functions :: g.functions[f] == Int32
    ensures FragmentType(t)
  {
  }

  lemma {:induction false} SeqReturns(known: set<string>, g: Gamma, b: Builder, stmts: seq<Stmt>, inLoop: bool)
    requires b.Valid() && TypedSeq(g, stmts, inLoop) && FragmentSeq(stmts) && EmitBlock(known, b, stmts).Ok?
    requires forall f | f in g.functions :: g.functions[f] == Int32
    requires !WordReturns(stmts)
    ensures !TypesFit(EmitBlock(known, b, stmts).value.blocks)
    decreases stmts
  {
    hide TypesFit, EmitStmt, TypedStmt, FragmentStmt;
    var b1 := EmitStmt(known, b, stmts[0]).value;
    if !WordReturnsStmt(stmts[0]) {
      StmtReturns(known, g, b, stmts[0], inLoop);
      BlockGrows(known, b1, stmts[1..]);
      BadStays(b1.blocks, EmitBlock(known, b, stmts).value.blocks);
    } else {
      SeqReturns(known, After(g, stmts[0]), b1, stmts[1..], inLoop);
    }
  }

  lemma {:induction false} LinkReturns(known: set<string>, g: Gamma, b: Builder, link: IfLink, inLoop: bool)
    requires b.Valid() && TypedLink(g, link, inLoop) && FragmentLink(link) && EmitLink(known, b, link).Ok?
    requires forall f | f in g.functions :: g.functions[f] == Int32
    requires !WordReturnsLink(link)
    ensures !TypesFit(EmitLink(known, b, link).value.blocks)
    decreases link
  {
    hide TypesFit, EmitExpr, EmitBlock, TypedSeq, FragmentSeq, WordReturns, HasType, InFragment;
    var t := StagesOf(known, b, link);
    var b' := EmitLink(known, b, link).value;
    CloseExtends(t.thnEnd, t.end);
    CloseExtends(t.elsEnd, t.end);
    if !WordReturns(link.thn) {
      SeqReturns(known, g, t.thn, link.thn, inLoop);
      BadStays(t.thnEnd.blocks, t.els.blocks);
    }
    match link.els
    case NoElse =>
    case ElseBlock(stmts) =>
      BlockGrows(known, t.els, stmts);
      if WordReturns(link.thn) {
        SeqReturns(known, g, t.els, stmts, inLoop);
      } else {
        BadStays(t.els.blocks, t.elsEnd.blocks);
      }
      BadStays(t.elsEnd.blocks, b'.blocks);
    case ElseIfLink(next) =>
      LinkGrows(known, t.els, next);
      if WordReturns(link.thn) {
        LinkReturns(known, g, t.els, next, inLoop);
      } else {
        BadStays(t.els.blocks, t.elsEnd.blocks);
      }
      BadStays(t.elsEnd.blocks, b'.blocks);
  }

  // ----- functions -----

  /** The blocks of a typed function of the fragment keep the rules exactly when every return is 32 bits
      wide, whatever its control flow; and the returns are all that can fail. */
  lemma FunctionFine(names: set<string>, known: set<string>, functions: map<string, TypeId>, body: seq<Stmt>)
    requires TypedSeq(Gamma(map[], functions), body, false) && FragmentSeq(body)
    requires EmitBlock(known, START, body).Ok?
    requires functions.Keys <= names && forall f | f in functions :: functions[f] == Int32
    ensures var blocks := EmitBlock(known, START, body).value.blocks;
            && (StaticallyOk(names, blocks) <==> WordReturns(body))
            && (TypesFit(blocks) <==> WordReturns(body))
  {
    var g := Gamma(map[], functions);
    var blocks := EmitBlock(known, START, body).value.blocks;
    if WordReturns(body) {
      assert Fine(names, g, START, [{}], map[]);
      var entry, types := SeqFine(names, known, g, START, body, false, [{}], map[]);
      assert entry[0] == {};
      StaticTypes(names, blocks);
    } else {
      SeqReturns(known, g, START, body, false);
      if StaticallyOk(names, blocks) {
        StaticTypes(names, blocks);
      }
    }
  }
}
