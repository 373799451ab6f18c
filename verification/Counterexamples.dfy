/** Programs the checker accepts and the compiler still fails on, one for each condition of the theorems. */
module Counterexamples {
  import opened Results
  import opened Syntax
  import opened Integers
  import opened Floats
  import opened Ir
  import opened Codegen
  import opened Checking
  import opened Typing
  import opened Scoping
  import opened Safety
  import opened Acceptance
  import opened Behaviour
  import opened WellFormedness
  import opened Verifying
  import opened Compiler

  function Number(n: int): Expr {
    IntLit(n, None)
  }

  function Annotated(n: int): Expr {
    IntLit(n, Some(Int32))
  }

  lemma NumberSettles(c: Context, n: int)
    requires 0 <= n < 100
    ensures InferTopLevel(c, Number(n)) == Ok((Int32, Annotated(n)))
  {
    assert InferExpr(c, Number(n)) == Ok((LiteralInt, IntLit(n, Some(LiteralInt))));
  }

  lemma OneByOne(st: State, s: Stmt, rest: seq<Stmt>)
    requires st.scopes != [] && CheckStmt(st, s).Ok? && CheckSeq(CheckStmt(st, s).value.0, rest).Ok?
    ensures var (st1, s') := CheckStmt(st, s).value;
            var (st2, rest') := CheckSeq(st1, rest).value;
            CheckSeq(st, [s] + rest) == Ok((st2, [s'] + rest'))
  {
    hide CheckStmt;
    assert ([s] + rest)[1..] == rest;
  }

  lemma JustOne(st: State, s: Stmt)
    requires st.scopes != [] && CheckStmt(st, s).Ok?
    ensures var (st1, s') := CheckStmt(st, s).value; CheckSeq(st, [s]) == Ok((st1, [s']))
  {
    hide CheckStmt;
    var (st1, s') := CheckStmt(st, s).value;
    assert CheckSeq(st1, []) == Ok((st1, []));
    OneByOne(st, s, []);
    assert [s] + [] == [s] && [s'] + [] == [s'];
  }

  lemma OneFunction(st: State, f: FunctionDecl)
    requires CheckFunction(st, f).Ok?
    ensures CheckFunctions(st, [f]) == Ok((CheckFunction(st, f).value.0, [CheckFunction(st, f).value.1]))
  {
    hide CheckFunction;
    var (st1, f') := CheckFunction(st, f).value;
    assert [f][1..] == [] && CheckFunctions(st1, []) == Ok((st1, [])) && [f'] + [] == [f'];
  }

  /** return 0, and what checking makes of it. */
  function ReturnZero(): Stmt {
    ReturnStmt(Number(0), None)
  }

  function ReturnZeroChecked(): Stmt {
    ReturnStmt(Annotated(0), Some(Int32))
  }

  lemma ReturnZeroChecks(st: State)
    requires st.scopes != []
    ensures CheckStmt(st, ReturnZero()) == Ok((st, ReturnZeroChecked()))
    ensures CheckSeq(st, [ReturnZero()]) == Ok((st, [ReturnZeroChecked()]))
  {
    NumberSettles(st.Here(), 0);
    JustOne(st, ReturnZero());
  }

  lemma PushPop(st: State)
    ensures st.Push().Pop() == st
  {
    assert (st.scopes + [map[]])[..|st.scopes|] == st.scopes;
  }

  // ----- the extra pop -----

  /** Two functions that each return 0 pass one by one, but the program check pops a scope too many. */
  lemma SecondFunctionFails(floatFits: (string, TypeId) -> bool, f: string, g: string)
    ensures var fns := [FunctionDecl(f, [ReturnZero()]), FunctionDecl(g, [ReturnZero()])];
            && CheckFunctions(InitialState(floatFits), fns).Ok?
            && CheckProgram(InitialState(floatFits), fns) == Err(EmptyScopeStack)
  {
    hide CheckSeq;
    var fns := [FunctionDecl(f, [ReturnZero()]), FunctionDecl(g, [ReturnZero()])];
    var st := InitialState(floatFits);
    FunctionChecks(st, f);
    var st1 := CheckFunction(st, fns[0]).value.0;
    FunctionChecks(st1, g);
    FunctionChecks(st1.Pop(), g);
    assert fns[1..] == [fns[1]] && fns[1..][1..] == [];
    var st2 := CheckFunction(st1, fns[1]).value.0;
    assert CheckFunctions(st2, []).Ok?;
    assert CheckFunctions(st1, fns[1..]).Ok?;
    assert CheckProgram(st1.Pop(), fns[1..]) == Err(EmptyScopeStack);
  }

  lemma FunctionChecks(st: State, f: string)
    ensures CheckFunction(st, FunctionDecl(f, [ReturnZero()]))
         == Ok((st.(functions := st.functions[f := Int32]), FunctionDecl(f, [ReturnZeroChecked()])))
  {
    ReturnZeroChecks(st.Push());
    PushPop(st);
  }

  // ----- the back edge -----

  /** loop break end return 0: accepted, clean, emitted, and rejected by the verifier for the
      back edge after the break. */
  lemma BackEdgeAfterBreak(floatFits: (string, TypeId) -> bool, f: string)
    requires f != PRINTF
    ensures var fns := [FunctionDecl(f, [LoopStmt([BreakStmt]), ReturnZero()])];
            && CheckFunctions(InitialState(floatFits), fns).Ok?
            && var fns' := CheckFunctions(InitialState(floatFits), fns).value.1;
            && CleanFunctions(fns') && DoublesOnly(fns') && FreshNames(fns', {PRINTF})
            && Compile(fns').Ok? && Generate(fns') == Err(BrokenModule)
  {
    hide CheckSeq, EmittableSeq, DoubleSeq, CleanSeq, DeclaredNames, Compile, WellCompiled;
    var body, body' := [LoopStmt([BreakStmt]), ReturnZero()], [LoopStmt([BreakStmt]), ReturnZeroChecked()];
    var fns, st := [FunctionDecl(f, body)], InitialState(floatFits);
    LoopBreakChecks(st.Push());
    PushPop(st);
    OneFunction(st, fns[0]);
    LoopBreakFits(body');
    CompilerCorrect(floatFits, fns);
    assert !TidyFunction(body) by {
      assert EndsInJump([BreakStmt]);
      assert !TidyStmt(LoopStmt([BreakStmt]));
    }
    assert !TidyFunction(fns[0].body);
  }

  lemma LoopBreakChecks(st: State)
    requires st.scopes != [] && st.loopDepth == 0
    ensures CheckSeq(st, [LoopStmt([BreakStmt]), ReturnZero()])
         == Ok((st, [LoopStmt([BreakStmt]), ReturnZeroChecked()]))
  {
    var body := [LoopStmt([BreakStmt]), ReturnZero()];
    var inner := st.(loopDepth := 1);
    PushPop(inner);
    JustOne(inner.Push(), BreakStmt);
    assert CheckStmt(st, body[0]) == Ok((st, body[0]));
    ReturnZeroChecks(st);
    OneByOne(st, body[0], [ReturnZero()]);
    assert body == [body[0]] + [ReturnZero()];
    assert [body[0]] + [ReturnZeroChecked()] == [body[0], ReturnZeroChecked()];
  }

  lemma LoopBreakFits(body: seq<Stmt>)
    requires body == [LoopStmt([BreakStmt]), ReturnZeroChecked()]
    ensures EmittableSeq(body) && DoubleSeq(body) && AllDifferent(DeclaredNames(body)) && CleanSeq(map[], body)
  {
    var inner, tail := [BreakStmt], [ReturnZeroChecked()];
    assert inner[1..] == [] && tail[1..] == [] && body[1..] == tail;
    assert EmittableSeq(inner) && DoubleSeq(inner) && CleanSeq(map[], inner);
    assert EmittableStmt(tail[0]) && EmittableSeq(tail) && DoubleStmt(tail[0]) && DoubleSeq(tail);
    assert CleanStmt(map[], tail[0]) && CleanSeq(map[], tail);
    assert DeclaredNames(inner) == NamesIn(inner[0]) + DeclaredNames([]) == [];
    assert DeclaredNames(tail) == NamesIn(tail[0]) + DeclaredNames([]) == [];
    assert DeclaredNames(body) == NamesIn(body[0]) + DeclaredNames(tail) == [];
  }

  // ----- a return of another width -----

  function ReturnsByte(x: string): seq<Stmt> {
    [DeclStmt(x, Some("Int8"), Number(1), None), ReturnStmt(Var(x, None), None)]
  }

  function ReturnsByteChecked(x: string): seq<Stmt> {
    [DeclStmt(x, Some("Int8"), IntLit(1, Some(Int8)), Some(Int8)), ReturnStmt(Var(x, Some(Int8)), Some(Int8))]
  }

  /** x: Int8 = 1 return x: accepted, clean, emitted, tidy, and rejected by the verifier since
      every function is an i32. */
  lemma ByteReturnRejected(floatFits: (string, TypeId) -> bool, f: string, x: string)
    requires f != PRINTF
    ensures var fns := [FunctionDecl(f, ReturnsByte(x))];
            && CheckFunctions(InitialState(floatFits), fns).Ok?
            && var fns' := CheckFunctions(InitialState(floatFits), fns).value.1;
            && CleanFunctions(fns') && DoublesOnly(fns') && FreshNames(fns', {PRINTF})
            && Compile(fns').Ok? && TidyFunction(fns[0].body) && Generate(fns') == Err(BrokenModule)
  {
    hide CheckSeq, EmittableSeq, DoubleSeq, CleanSeq, DeclaredNames, Compile, WellCompiled, WordReturns, Tidy;
    var body, body' := ReturnsByte(x), ReturnsByteChecked(x);
    var fns, st := [FunctionDecl(f, body)], InitialState(floatFits);
    ReturnsByteChecks(st.Push(), x);
    assert CheckBlock(st, body).value.1 == body';
    OneFunction(st, fns[0]);
    ReturnsByteFits(x);
    CompilerCorrect(floatFits, fns);
    var fns' := CheckFunctions(st, fns).value.1;
    assert fns' == [FunctionDecl(f, body')];
    assert !WordReturns(fns'[0].body);
  }

  lemma ReturnsByteChecks(st: State, x: string)
    requires st.scopes == [map[], map[]]
    ensures CheckSeq(st, ReturnsByte(x)) == Ok((st.Store(x, Int8), ReturnsByteChecked(x)))
  {
    var decl, ret := ReturnsByte(x)[0], ReturnsByte(x)[1];
    var st1 := st.Store(x, Int8);
    assert st1.scopes == [map[], map[x := Int8]];
    assert st1.scopes[1..] == [map[x := Int8]];
    assert Find(st1.scopes, x) == Some(Int8);
    assert Find(st.scopes, x).None? by {
      FindIn(st.scopes, x);
    }
    assert IsBuiltinType("Int8");
    assert CheckExpr(st.Here(), Number(1), Int8) == Ok(IntLit(1, Some(Int8)));
    assert TypeIdOf("Int8") == Int8 by {
      assert "Int8"[0] != "Bool"[0];
    }
    assert CheckStmt(st, decl) == Ok((st1, ReturnsByteChecked(x)[0]));
    assert InferExpr(st1.Here(), Var(x, None)) == Ok((Int8, Var(x, Some(Int8))));
    JustOne(st1, ret);
    OneByOne(st, decl, [ret]);
    assert ReturnsByte(x) == [decl] + [ret];
    assert ReturnsByteChecked(x) == [ReturnsByteChecked(x)[0]] + [ReturnsByteChecked(x)[1]];
  }

  lemma ReturnsByteFits(x: string)
    ensures var body := ReturnsByteChecked(x);
            && EmittableSeq(body) && DoubleSeq(body) && AllDifferent(DeclaredNames(body)) && CleanSeq(map[], body)
            && !WordReturns(body)
    ensures TidyFunction(ReturnsByte(x))
  {
    var body := ReturnsByteChecked(x);
    var tail := [body[1]];
    assert body[1..] == tail && tail[1..] == [];
    assert EmittableStmt(tail[0]) && EmittableSeq(tail) && EmittableStmt(body[0]);
    assert DoubleStmt(tail[0]) && DoubleSeq(tail) && DoubleStmt(body[0]);
    assert CleanStmt(map[x := Int8], tail[0]) && CleanSeq(map[x := Int8], tail) && CleanStmt(map[], body[0]);
    assert DeclaredNames(tail) == NamesIn(tail[0]) + DeclaredNames([]) == [];
    assert DeclaredNames(body) == NamesIn(body[0]) + DeclaredNames(tail) == [x];
    assert !WordReturnsStmt(tail[0]) && !WordReturns(tail);
    var bare := ReturnsByte(x);
    var last := [bare[1]];
    assert bare[1..] == last && last[1..] == [];
    assert TidyStmt(bare[0]) && TidyStmt(last[0]) && Tidy([]) && Tidy(last);
  }

  // ----- constructs without an instruction -----

  /** show 1 != 2 is accepted as arithmetic, and has no instruction. */
  lemma InequalityUnsupported(floatFits: (string, TypeId) -> bool, f: string)
    ensures var fns := [FunctionDecl(f, [ShowStmt(Inequality(), None)])];
            && CheckFunctions(InitialState(floatFits), fns).Ok?
            && Compile(CheckFunctions(InitialState(floatFits), fns).value.1) == Err(UnsupportedOperation)
  {
    var fns, st := [FunctionDecl(f, [ShowStmt(Inequality(), None)])], InitialState(floatFits);
    InequalityChecks(st.Push());
    OneFunction(st, fns[0]);
    var body := [ShowStmt(InequalityChecked(), Some(Int32))];
    assert CheckFunctions(st, fns).value.1 == [FunctionDecl(f, body)];
    assert EmitExpr({PRINTF} + {f}, START, Annotated(1)).Ok?;
    assert EmitExpr({PRINTF} + {f}, START, Annotated(2)).Ok?;
    assert EmitExpr({PRINTF} + {f}, START, InequalityChecked()) == Err(UnsupportedOperation);
    assert EmitStmt({PRINTF} + {f}, START, body[0]) == Err(UnsupportedOperation);
    assert EmitFunction({PRINTF}, FunctionDecl(f, body)) == Err(UnsupportedOperation);
  }

  function Inequality(): Expr {
    Binary(NotEquals, Number(1), Number(2), None, None)
  }

  function InequalityChecked(): Expr {
    Binary(NotEquals, Annotated(1), Annotated(2), Some(Int32), Some(Int32))
  }

  lemma InequalityChecks(st: State)
    requires st.scopes != []
    ensures CheckSeq(st, [ShowStmt(Inequality(), None)])
         == Ok((st, [ShowStmt(InequalityChecked(), Some(Int32))]))
  {
    var c, e := st.Here(), Inequality();
    var l, r := (LiteralInt, IntLit(1, Some(LiteralInt))), (LiteralInt, IntLit(2, Some(LiteralInt)));
    assert InferExpr(c, e.lhs) == Ok(l) && InferExpr(c, e.rhs) == Ok(r);
    assert ResolvePair(c, l, r) == Ok((LiteralInt, l.1, r.1));
    BinaryInferred(c, e);
    var e' := Binary(NotEquals, l.1, r.1, Some(LiteralInt), Some(LiteralInt));
    assert InferExpr(c, e) == Ok((LiteralInt, e'));
    BinaryChecked(c, e', Int32);
    assert CheckExpr(c, l.1, Int32) == Ok(Annotated(1)) && CheckExpr(c, r.1, Int32) == Ok(Annotated(2));
    assert InferTopLevel(c, e) == Ok((Int32, InequalityChecked()));
    JustOne(st, ShowStmt(e, None));
  }

  /** x: Float32 = 1 is accepted, and an int literal has no instruction at a float type. */
  lemma IntAsFloatUnsupported(floatFits: (string, TypeId) -> bool, f: string, x: string)
    ensures var fns := [FunctionDecl(f, [DeclStmt(x, Some("Float32"), Number(1), None)])];
            && CheckFunctions(InitialState(floatFits), fns).Ok?
            && Compile(CheckFunctions(InitialState(floatFits), fns).value.1) == Err(NotAnIntegerLiteral)
  {
    var decl := DeclStmt(x, Some("Float32"), Number(1), None);
    var decl' := DeclStmt(x, Some("Float32"), IntLit(1, Some(Float32)), Some(Float32));
    var fns, st := [FunctionDecl(f, [decl])], InitialState(floatFits);
    var inner := st.Push();
    assert Find(inner.scopes, x).None? by {
      FindIn(inner.scopes, x);
    }
    assert CheckStmt(inner, decl) == Ok((inner.Store(x, Float32), decl'));
    JustOne(inner, decl);
    OneFunction(st, fns[0]);
    assert CheckFunctions(st, fns).value.1 == [FunctionDecl(f, [decl'])];
    assert EmitStmt({PRINTF} + {f}, START, decl') == Err(NotAnIntegerLiteral);
    assert EmitFunction({PRINTF}, FunctionDecl(f, [decl'])) == Err(NotAnIntegerLiteral);
  }

  // ----- single precision -----

  function Half(resolved: Option<TypeId>): Expr {
    FloatLit("0.5", resolved)
  }

  function SingleChecked(x: string): seq<Stmt> {
    [DeclStmt(x, Some("Float32"), Half(Some(Float32)), Some(Float32)), ReturnZeroChecked()]
  }

  /** x: Float32 = 0.5 return 0: accepted, emitted and let through by the verifier.  The literal is emitted as a
      double all the same, so when run it is stored into a slot of another type. */
  lemma DoubleInFloatSlot(u: Fpu, floatFits: (string, TypeId) -> bool, f: string, x: string)
    requires f != PRINTF && floatFits("0.5", Float32)
    ensures var fns := [FunctionDecl(f, [DeclStmt(x, Some("Float32"), Half(None), None), ReturnZero()])];
            && CheckFunctions(InitialState(floatFits), fns).Ok?
            && var m := Generate(CheckFunctions(InitialState(floatFits), fns).value.1);
            && m.Ok? && Steps(u, m.value, Initial(f), 2) == Halted(Stuck, [])
  {
    hide CheckSeq, Verifies, Step;
    var decl := DeclStmt(x, Some("Float32"), Half(None), None);
    var fns, st := [FunctionDecl(f, [decl, ReturnZero()])], InitialState(floatFits);
    SingleChecks(st.Push(), x);
    assert CheckBlock(st, [decl, ReturnZero()]).value.1 == SingleChecked(x);
    OneFunction(st, fns[0]);
    var fns' := [FunctionDecl(f, SingleChecked(x))];
    assert CheckFunctions(st, fns).value.1 == fns';
    SingleEmitted({PRINTF} + {f}, x);
    assert EmitFunction({PRINTF}, fns'[0]).value.blocks == [SingleBlock()];
    assert fns'[1..] == [];
    var m := map[f := [SingleBlock()]];
    assert EmitProgram({PRINTF} + {f}, m, []) == Ok(m);
    assert Compile(fns') == Ok(m);
    assert RenamedBlocks({PRINTF} + {f}, []) == [];
    assert RenamedBlocks({PRINTF}, fns') == [];
    SingleVerifies(m, f);
    SingleStuck(u, m, f);
  }

  function SingleBlock(): Block {
    [Alloca(0, FloatTy), Store(FloatConst("0.5"), 0), Ret(Const(Word(W32, 0)))]
  }

  lemma SingleChecks(st: State, x: string)
    requires st.scopes == [map[], map[]] && st.floatFits("0.5", Float32)
    ensures CheckSeq(st, [DeclStmt(x, Some("Float32"), Half(None), None), ReturnZero()])
         == Ok((st.Store(x, Float32), SingleChecked(x)))
  {
    var decl := DeclStmt(x, Some("Float32"), Half(None), None);
    assert Find(st.scopes, x).None? by {
      FindIn(st.scopes, x);
    }
    assert CheckStmt(st, decl) == Ok((st.Store(x, Float32), SingleChecked(x)[0]));
    ReturnZeroChecks(st.Store(x, Float32));
    OneByOne(st, decl, [ReturnZero()]);
    assert [decl, ReturnZero()] == [decl] + [ReturnZero()];
    assert SingleChecked(x) == [SingleChecked(x)[0]] + [ReturnZeroChecked()];
  }

  lemma SingleEmitted(known: set<string>, x: string)
    ensures EmitBlock(known, START, SingleChecked(x)).Ok?
    ensures EmitBlock(known, START, SingleChecked(x)).value.blocks == [SingleBlock()]
  {
    var body := SingleChecked(x);
    var b1 := EmitStmt(known, START, body[0]).value;
    var a := START.Define(Alloca(0, FloatTy));
    assert |a.blocks| == 1 && a.blocks[0] == [] + [Alloca(0, FloatTy)];
    assert EmitExpr(known, START, Half(Some(Float32))) == Ok((START, FloatConst("0.5")));
    assert b1 == a.Add(Store(FloatConst("0.5"), 0)).(named := map[x := 0]);
    assert |b1.blocks| == 1 && b1.blocks[0] == [Alloca(0, FloatTy), Store(FloatConst("0.5"), 0)];
    assert body[1..] == [body[1]] && body[1..][1..] == [];
    assert LiteralWord(0, Some(Int32)) == Ok(Word(W32, 0));
    var b2 := EmitStmt(known, b1, body[1]).value;
    assert |b2.blocks| == 1 && b2.blocks[0] == SingleBlock();
    assert EmitBlock(known, b2, []) == Ok(b2);
  }

  lemma SingleVerifies(m: Module, f: string)
    requires m == map[f := [SingleBlock()]]
    ensures Verifies(m, [])
  {
    var b := SingleBlock();
    assert TypeIn(b[..2], b[2].src) == Some(I(W32));
    assert Complete(b);
    assert Accepts([b]);
  }

  lemma SingleStuck(u: Fpu, m: Module, f: string)
    requires m == map[f := [SingleBlock()]]
    ensures Steps(u, m, Initial(f), 2) == Halted(Stuck, [])
  {
    var s := Step(u, m, Initial(f));
    assert s.Running? && s.top.slots == map[0 := Cell(FloatTy, None)];
    assert Step(u, m, s) == Halted(Stuck, []);
    assert Steps(u, m, Initial(f), 2) == Steps(u, m, s, 1) == Steps(u, m, Step(u, m, s), 0);
  }

  // ----- a name that is taken -----

  /** A function called printf is renamed, and still verified: an empty one is rejected. */
  lemma RenamedIsVerified()
    ensures Compile([FunctionDecl(PRINTF, [])]).Ok?
    ensures Generate([FunctionDecl(PRINTF, [])]) == Err(BrokenModule)
  {
    var fns := [FunctionDecl(PRINTF, [])];
    assert fns[1..] == [];
    assert EmitFunction({PRINTF}, fns[0]) == Ok(START);
    assert EmitProgram({PRINTF} + {PRINTF}, map[], []) == Ok(map[]);
    assert Compile(fns) == Ok(map[]);
    assert RenamedBlocks({PRINTF} + {PRINTF}, []) == [];
    assert RenamedBlocks({PRINTF}, fns) == [START.blocks];
    assert !Complete(START.blocks[0]);
    assert !WellFormed(START.blocks) && !Accepts([START.blocks][0]);
    assert !Verifies(map[], [START.blocks]);
  }

  // ----- sibling blocks -----

  function Truth(): Expr {
    Binary(TokenKind.Equals, Number(1), Number(1), None, None)
  }

  function TruthChecked(): Expr {
    Binary(TokenKind.Equals, Annotated(1), Annotated(1), Some(Int32), Some(TypeId.Bool))
  }

  lemma TruthChecks(c: Context)
    ensures CheckExpr(c, Truth(), TypeId.Bool) == Ok(TruthChecked())
  {
    var l := (LiteralInt, IntLit(1, Some(LiteralInt)));
    assert InferExpr(c, Number(1)) == Ok(l);
    assert ResolvePair(c, l, l) == Ok((LiteralInt, l.1, l.1));
    assert CheckExpr(c, l.1, Int32) == Ok(Annotated(1));
    assert FixOperands(c, TokenKind.Equals, (LiteralInt, l.1, l.1)) == Ok((Int32, Annotated(1), Annotated(1)));
  }

  /** if 1 == 1 x = 1 end */
  function Declares(x: string): Stmt {
    IfStmt(IfLink(Truth(), [DeclStmt(x, None, Number(1), None)], NoElse))
  }

  function DeclaresChecked(x: string): Stmt {
    IfStmt(IfLink(TruthChecked(), [DeclStmt(x, None, Annotated(1), Some(Int32))], NoElse))
  }

  lemma DeclaresChecks(st: State, x: string)
    requires st.scopes != [] && Find(st.scopes, x).None?
    ensures CheckStmt(st, Declares(x)) == Ok((st, DeclaresChecked(x)))
  {
    var decl := DeclStmt(x, None, Number(1), None);
    TruthChecks(st.Here());
    var inner := st.Push();
    FindIsFlat(st.scopes, x);
    FlatPush(st.scopes, map[]);
    FindIsFlat(inner.scopes, x);
    NumberSettles(inner.Here(), 1);
    assert CheckStmt(inner, decl) == Ok((inner.Store(x, Int32), DeclStmt(x, None, Annotated(1), Some(Int32))));
    JustOne(inner, decl);
    assert inner.Store(x, Int32).Pop() == st by {
      assert inner.Store(x, Int32).scopes[..|st.scopes|] == st.scopes;
    }
    assert CheckBlock(st, [decl]) == Ok((st, DeclaresChecked(x).link.thn));
    assert CheckLink(st, Declares(x).link) == Ok((st, DeclaresChecked(x).link));
  }

  /** A name declared in two sibling blocks: accepted, and then rejected by the code generator. */
  lemma SiblingBlocksClash(floatFits: (string, TypeId) -> bool, f: string, x: string)
    ensures var fns := [FunctionDecl(f, [Declares(x), Declares(x), ReturnZero()])];
            && CheckFunctions(InitialState(floatFits), fns).Ok?
            && Compile(CheckFunctions(InitialState(floatFits), fns).value.1) == Err(DuplicateVariable)
  {
    hide CheckStmt, EmitStmt;
    var body := [Declares(x), Declares(x), ReturnZero()];
    var body' := [DeclaresChecked(x), DeclaresChecked(x), ReturnZeroChecked()];
    var fns, st := [FunctionDecl(f, body)], InitialState(floatFits);
    var inner := st.Push();
    assert Find(inner.scopes, x).None? by {
      FindIn(inner.scopes, x);
    }
    DeclaresChecks(inner, x);
    ReturnZeroChecks(inner);
    OneByOne(inner, Declares(x), [ReturnZero()]);
    OneByOne(inner, Declares(x), [Declares(x)] + [ReturnZero()]);
    assert body == [Declares(x)] + ([Declares(x)] + [ReturnZero()]);
    assert body' == [DeclaresChecked(x)] + ([DeclaresChecked(x)] + [ReturnZeroChecked()]);
    PushPop(st);
    OneFunction(st, fns[0]);
    SecondClashes({PRINTF} + {f}, body', x);
    assert EmitFunction({PRINTF}, FunctionDecl(f, body')) == Err(DuplicateVariable);
  }

  lemma SecondClashes(known: set<string>, body: seq<Stmt>, x: string)
    requires body == [DeclaresChecked(x), DeclaresChecked(x), ReturnZeroChecked()]
    ensures EmitBlock(known, START, body) == Err(DuplicateVariable)
  {
    hide EmitStmt;
    DeclaresEmitted(known, START, x);
    DeclaresEmitted(known, EmitStmt(known, START, body[0]).value, x);
    assert body[1..][0] == DeclaresChecked(x);
  }

  lemma DeclaresEmitted(known: set<string>, b: Builder, x: string)
    requires b.Valid()
    ensures var r := EmitStmt(known, b, DeclaresChecked(x));
            if x in b.named then r == Err(DuplicateVariable) else r.Ok? && x in r.value.named
  {
    var link := DeclaresChecked(x).link;
    assert LiteralWord(1, Some(Int32)).Ok?;
    assert EmitExpr(known, b, link.cond).Ok?;
    var c := EmitExpr(known, b, link.cond).value;
    var b1 := c.0.OpenThen(c.1, link);
    assert link.thn[1..] == [];
    if x !in b.named {
      var b2 := EmitStmt(known, b1, link.thn[0]).value;
      assert EmitBlock(known, b1, link.thn) == EmitBlock(known, b2, []) == Ok(b2);
    } else {
      assert EmitStmt(known, b1, link.thn[0]) == Err(DuplicateVariable);
      assert EmitBlock(known, b1, link.thn) == Err(DuplicateVariable);
      assert EmitLink(known, b, link) == Err(DuplicateVariable);
    }
  }
}
