/** The code generator as it is written: a visitor that moves an insertion point and appends to blocks
    in place.  Every visit does to the builder what the corresponding emission function says. */
module CodegenVisiting {
  import opened Results
  import opened Syntax
  import opened Ir
  import opened Codegen
  import Layout

  class LoopBlockStack {
    var loops: seq<LoopBlocks>

    constructor ()
      ensures loops == []
    {
      loops := [];
    }

    method Push(blocks: LoopBlocks)
      modifies this
      ensures loops == old(loops) + [blocks]
    {
      loops := loops + [blocks];
    }

    method Pop()
      requires loops != []
      modifies this
      ensures loops == old(loops)[..|old(loops)| - 1]
    {
      loops := loops[..|loops| - 1];
    }

    method Back() returns (r: Option<LoopBlocks>)
      ensures r == if loops == [] then None else Some(loops[|loops| - 1])
    {
      r := if |loops| > 0 then Some(loops[|loops| - 1]) else None;
    }
  }

  class CodegenVisitor {
    const loopBlockStack: LoopBlockStack
    var blocks: seq<Block>
    var insertBlock: nat
    var namedValues: map<string, nat>
    var counter: nat
    var moduleNames: set<string>
    var functions: Module
    var renamed: seq<seq<Block>> // functions whose name was taken

    ghost predicate Valid()
      reads this
    {
      insertBlock < |blocks|
    }

    /** The state of the builder, as the emission functions see it. */
    ghost function Now(): Builder
      reads this, loopBlockStack
    {
      Builder(blocks, insertBlock, namedValues, loopBlockStack.loops, counter)
    }

    constructor ()
      ensures Valid() && Now() == START
      ensures moduleNames == {PRINTF} && functions == map[] && renamed == [] && fresh(loopBlockStack)
    {
      loopBlockStack := new LoopBlockStack();
      blocks, insertBlock, namedValues, counter := [[]], 0, map[], 0;
      moduleNames, functions, renamed := {PRINTF}, map[], [];
    }

    // ----- the instruction builder -----

    method Append(i: Instr)
      requires Valid()
      modifies this`blocks
      ensures Valid() && Now() == old(Now()).Add(i)
    {
      blocks := blocks[insertBlock := blocks[insertBlock] + [i]];
    }

    method CreateBlock() returns (k: nat)
      requires Valid()
      modifies this`blocks
      ensures Valid() && k == |old(blocks)| && Now() == old(Now()).NewBlocks(1)
    {
      k := |blocks|;
      ghost var one: seq<Block> := seq(1, _ => []);
      assert one == [[]];
      blocks := blocks + [[]];
    }

    method SetInsertPoint(k: nat)
      requires Valid() && k < |blocks|
      modifies this`insertBlock
      ensures Valid() && Now() == old(Now()).MoveTo(k)
    {
      insertBlock := k;
    }

    method FreshNumber() returns (n: nat)
      modifies this`counter
      ensures n == old(counter) && counter == n + 1
    {
      n := counter;
      counter := counter + 1;
    }

    /** A branch to `end`, unless the insertion block has a terminator already. */
    method BranchUnlessTerminated(end: nat)
      requires Valid()
      modifies this`blocks
      ensures Valid() && Now() == old(Now()).CloseWith(end)
    {
      if !Terminated(blocks[insertBlock]) {
        Append(Br(end));
      }
    }

    // ----- expressions -----

    method VisitExpr(e: Expr) returns (r: Result<Operand>)
      requires Valid()
      modifies this`blocks, this`counter
      ensures Valid()
      ensures match EmitExpr(moduleNames, old(Now()), e)
              case Ok((b, v)) => r == Ok(v) && Now() == b
              case Err(error) => r == Err(error)
      decreases e
    {
      match e
      case IntLit(value, resolved) =>
        var w := LiteralWord(value, resolved);
        return if w.Ok? then Ok(Const(w.value)) else Err(w.error);
      case FloatLit(digits, _) => return Ok(FloatConst(digits));
      case Var(name, resolved) =>
        if name !in namedValues {
          return Err(UnknownValue);
        }
        if resolved.None? {
          return Err(MissingAnnotation);
        }
        var ty :- LlvmTypeOf(resolved.value);
        var n := FreshNumber();
        Append(Load(n, ty, namedValues[name]));
        return Ok(Reg(n));
      case Call(name) =>
        if name !in moduleNames {
          return Err(UnknownFunction);
        }
        var n := FreshNumber();
        Append(CallFunction(n, name));
        return Ok(Reg(n));
      case Binary(op, lhs, rhs, operand, resolved) =>
        var l :- VisitExpr(lhs);
        var r1 :- VisitExpr(rhs);
        var opcode :- OpcodeFor(op, operand, resolved);
        var n := FreshNumber();
        Append(Op(n, opcode, l, r1));
        return Ok(Reg(n));
    }

    // ----- statements -----

    method VisitStmt(s: Stmt) returns (r: Result<()>)
      requires Valid()
      modifies this, loopBlockStack
      ensures moduleNames == old(moduleNames) && functions == old(functions) && renamed == old(renamed)
      ensures match EmitStmt(moduleNames, old(Now()), s)
              case Ok(b) => r.Ok? && Valid() && Now() == b
              case Err(error) => r == Err(error)
      decreases s
    {
      match s
      case DeclStmt(name, _, value, declared) =>
        if name in namedValues {
          return Err(DuplicateVariable);
        }
        var v :- VisitExpr(value);
        if declared.None? {
          return Err(MissingAnnotation);
        }
        var ty :- LlvmTypeOf(declared.value);
        var slot := FreshNumber();
        Append(Alloca(slot, ty));
        Append(Store(v, slot));
        namedValues := namedValues[name := slot];
        return Ok(());
      case AssignStmt(name, value) =>
        if name !in namedValues {
          return Err(UnknownValue);
        }
        var v :- VisitExpr(value);
        Append(Store(v, namedValues[name]));
        return Ok(());
      case ShowStmt(expr, _) =>
        var v :- VisitExpr(expr);
        Append(CallPrintf(v));
        return Ok(());
      case ReturnStmt(expr, _) =>
        var v :- VisitExpr(expr);
        Append(Ret(v));
        return Ok(());
      case IfStmt(link) =>
        r := VisitIf(link);
      case LoopStmt(body) =>
        r := VisitLoop(body);
      case BreakStmt =>
        var loop := loopBlockStack.Back();
        if loop.None? {
          return Err(JumpWithoutLoop);
        }
        Append(Br(loop.value.end));
        return Ok(());
      case CycleStmt =>
        var loop := loopBlockStack.Back();
        if loop.None? {
          return Err(JumpWithoutLoop);
        }
        Append(Br(loop.value.body));
        return Ok(());
    }

    method VisitLoop(body: seq<Stmt>) returns (r: Result<()>)
      requires Valid()
      modifies this, loopBlockStack
      ensures moduleNames == old(moduleNames) && functions == old(functions) && renamed == old(renamed)
      ensures match EmitStmt(moduleNames, old(Now()), LoopStmt(body))
              case Ok(b) => r.Ok? && Valid() && Now() == b
              case Err(error) => r == Err(error)
      decreases body, 1
    {
      hide EmitBlock, EmitExpr, EmitLink;
      ghost var b0 := Now();
      var loopBody := CreateBlock();
      var loopEnd := CreateBlock();
      loopBlockStack.Push(LoopBlocks(loopBody, loopEnd));
      Append(Br(loopBody));
      SetInsertPoint(loopBody);
      assert Now() == b0.OpenLoop();
      var _ :- VisitBlock(body);
      Append(Br(loopBody));
      SetInsertPoint(loopEnd);
      BlockKeepsLoops(moduleNames, b0.OpenLoop(), body);
      loopBlockStack.Pop();
      return Ok(());
    }

    /** The blocks of a conditional and the branch to them: `second` is taken when the condition is
        false, and is the end block if there is no else part. */
    method BranchOn(cond: Operand, link: IfLink) returns (second: nat, end: nat)
      requires Valid()
      modifies this`blocks, this`insertBlock
      ensures Valid() && Now() == old(Now()).OpenThen(cond, link)
      ensures second == |old(blocks)| + 1 && end == old(Now()).EndOf(link)
    {
      ghost var b0 := Now();
      var ifThen := CreateBlock();
      if link.els.NoElse? {
        end := CreateBlock();
        second := end;
        Append(CondBr(cond, ifThen, end));
      } else {
        second := CreateBlock();
        end := CreateBlock();
        Append(CondBr(cond, ifThen, second));
      }
      SetInsertPoint(ifThen);
      assert blocks == b0.OpenThen(cond, link).blocks;
    }

    method VisitIf(link: IfLink) returns (r: Result<()>)
      requires Valid()
      modifies this, loopBlockStack
      ensures moduleNames == old(moduleNames) && functions == old(functions) && renamed == old(renamed)
      ensures match EmitLink(moduleNames, old(Now()), link)
              case Ok(b) => r.Ok? && Valid() && Now() == b
              case Err(error) => r == Err(error)
      decreases link
    {
      hide EmitExpr, EmitBlock, EmitStmt, Builder.OpenThen, Builder.CloseWith, Builder.MoveTo;
      var cond :- VisitExpr(link.cond);
      var second, end := BranchOn(cond, link);
      var _ :- VisitBlock(link.thn);
      BranchUnlessTerminated(end);
      SetInsertPoint(second);
      if !link.els.NoElse? {
        if link.els.ElseBlock? {
          var _ :- VisitBlock(link.els.stmts);
        } else {
          var _ :- VisitIf(link.els.next);
        }
        BranchUnlessTerminated(end);
        SetInsertPoint(end);
      }
      return Ok(());
    }

    method VisitBlock(stmts: seq<Stmt>) returns (r: Result<()>)
      requires Valid()
      modifies this, loopBlockStack
      ensures moduleNames == old(moduleNames) && functions == old(functions) && renamed == old(renamed)
      ensures match EmitBlock(moduleNames, old(Now()), stmts)
              case Ok(b) => r.Ok? && Valid() && Now() == b
              case Err(error) => r == Err(error)
      decreases stmts, 0
    {
      for i := 0 to |stmts|
        invariant Valid() && moduleNames == old(moduleNames)
        invariant functions == old(functions) && renamed == old(renamed)
        invariant EmitBlock(moduleNames, Now(), stmts[i..]) == EmitBlock(moduleNames, old(Now()), stmts)
      {
        assert stmts[i..][1..] == stmts[i + 1..];
        var _ :- VisitStmt(stmts[i]);
      }
      return Ok(());
    }

    // ----- functions and programs -----

    method VisitFunction(f: FunctionDecl) returns (r: Result<()>)
      requires Valid() && loopBlockStack.loops == []
      modifies this, loopBlockStack
      ensures match EmitFunction(old(moduleNames), f)
              case Ok(b) => r.Ok? && Valid() && Now() == b && moduleNames == old(moduleNames) + {f.name}
                            && (if f.name in old(moduleNames)
                                then functions == old(functions) && renamed == old(renamed) + [b.blocks]
                                else functions == old(functions)[f.name := b.blocks] && renamed == old(renamed))
              case Err(error) => r == Err(error)
    {
      var taken := f.name in moduleNames;
      namedValues, counter := map[], 0;
      moduleNames := moduleNames + {f.name};
      blocks, insertBlock := [[]], 0;
      var _ :- VisitBlock(f.body);
      if taken {
        renamed := renamed + [blocks];
      } else {
        functions := functions[f.name := blocks];
      }
      return Ok(());
    }

    method VisitProgram(fns: seq<FunctionDecl>) returns (r: Result<()>)
      requires Valid() && loopBlockStack.loops == []
      modifies this, loopBlockStack
      ensures match EmitProgram(old(moduleNames), old(functions), fns)
              case Ok(m) => r.Ok? && functions == m
                            && renamed == old(renamed) + RenamedBlocks(old(moduleNames), fns)
              case Err(error) => r == Err(error)
    {
      for i := 0 to |fns|
        invariant Valid() && loopBlockStack.loops == []
        invariant EmitProgram(moduleNames, functions, fns[i..])
               == EmitProgram(old(moduleNames), old(functions), fns)
        invariant renamed + RenamedBlocks(moduleNames, fns[i..])
               == old(renamed) + RenamedBlocks(old(moduleNames), fns)
      {
        hide EmitFunction;
        ghost var before := renamed;
        assert fns[i..][1..] == fns[i + 1..];
        BlockKeepsLoops(moduleNames + {fns[i].name}, START, fns[i].body);
        var _ :- VisitFunction(fns[i]);
      }
      return Ok(());
    }
  }

  /** The loop stack is balanced. */
  lemma {:induction false} BlockKeepsLoops(known: set<string>, b: Builder, stmts: seq<Stmt>)
    requires b.Valid()
    ensures EmitBlock(known, b, stmts).Ok? ==> EmitBlock(known, b, stmts).value.loops == b.loops
  {
    if EmitBlock(known, b, stmts).Ok? {
      Layout.BlockGrows(known, b, stmts);
    }
  }
}
