/** The stages together: what the type checker accepts compiles to a module that behaves like the
    source program. */
module Compiler {
  import opened Results
  import opened Syntax
  import opened Floats
  import opened Ir
  import opened Semantics
  import opened Codegen
  import opened Lowering
  import opened Behaviour
  import opened Checking
  import opened Erasure
  import opened Typing
  import opened Scoping
  import opened Safety
  import opened Acceptance
  import opened WellFormedness
  import opened Verifying

  /** The functions that come before position i, with their type. */
  function Before(fns: seq<FunctionDecl>, i: nat): map<string, TypeId>
    requires i <= |fns|
    decreases i
  {
    if i == 0 then map[] else Before(fns, i - 1)[fns[i - 1].name := Int32]
  }

  lemma {:induction false} BeforeNames(fns: seq<FunctionDecl>, i: nat, k: nat)
    requires i <= k <= |fns|
    ensures forall f | f in Before(fns, i) ::
              Before(fns, i)[f] == Int32 && f in Before(fns, k) && Before(fns, k)[f] == Int32
    ensures forall f | f in Before(fns, k) :: exists j :: 0 <= j < k && fns[j].name == f
    decreases k
  {
    if i < k {
      BeforeNames(fns, i, k - 1);
      assert fns[k - 1].name in Before(fns, k);
    } else if k > 0 {
      BeforeNames(fns, k - 1, k - 1);
      assert fns[k - 1].name in Before(fns, k);
    }
  }

  /** Function i is typed against the functions before it, and against nothing else. */
  ghost predicate TypedAt(functions: map<string, TypeId>, fns: seq<FunctionDecl>, i: nat)
    requires i < |fns|
  {
    TypedSeq(Gamma(map[], functions + Before(fns, i)), fns[i].body, false)
  }

  ghost predicate CleanFunctions(fns: seq<FunctionDecl>) {
    forall i | 0 <= i < |fns| :: CleanSeq(map[], fns[i].body)
  }

  /** The checked program keeps its functions' names and order; each body is concrete, and typed
      against the functions before it exactly when it is clean. */
  lemma {:induction false} CheckedFunctions(st: State, fns: seq<FunctionDecl>)
    requires st.loopDepth == 0 && (forall i | 0 <= i < |st.scopes| :: st.scopes[i] == map[])
    requires forall f | f in st.functions :: st.functions[f] == Int32
    requires CheckFunctions(st, fns).Ok?
    ensures var fns' := CheckFunctions(st, fns).value.1;
            && |fns'| == |fns|
            && forall i | 0 <= i < |fns| ::
                 && fns'[i].name == fns[i].name && ConcreteSeq(fns'[i].body)
                 && (TypedAt(st.functions, fns', i) <==> CleanSeq(map[], fns'[i].body))
    decreases fns
  {
    if fns != [] {
      var (st1, f') := CheckFunction(st, fns[0]).value;
      FlatBlank(st.scopes);
      BlockScopes(st, fns[0].body);
      BlockSound(st, fns[0].body);
      CheckedFunctions(st1, fns[1..]);
      var rest := CheckFunctions(st1, fns[1..]).value.1;
      var fns' := [f'] + rest;
      assert st.functions + Before(fns', 0) == st.functions;
      forall i | 0 <= i < |fns|
        ensures fns'[i].name == fns[i].name && ConcreteSeq(fns'[i].body)
        ensures TypedAt(st.functions, fns', i) <==> CleanSeq(map[], fns'[i].body)
      {
        if i > 0 {
          assert fns[i] == fns[1..][i - 1] && fns'[i] == rest[i - 1];
          BeforeShift(st.functions, f', rest, i - 1);
        }
      }
    }
  }

  lemma UpdateLast(a: map<string, TypeId>, b: map<string, TypeId>, n: string)
    ensures a + b[n := Int32] == (a + b)[n := Int32]
  {
  }

  lemma {:induction false} BeforeShift(functions: map<string, TypeId>, f: FunctionDecl,
                                       rest: seq<FunctionDecl>, i: nat)
    requires i <= |rest|
    ensures functions[f.name := Int32] + Before(rest, i) == functions + Before([f] + rest, i + 1)
    decreases i
  {
    if i == 0 {
      assert Before([f] + rest, 1) == Before([f] + rest, 0)[f.name := Int32] == map[f.name := Int32];
    } else {
      BeforeShift(functions, f, rest, i - 1);
      var fns, n := [f] + rest, rest[i - 1].name;
      assert fns[i] == rest[i - 1] && Before(fns, i + 1) == Before(fns, i)[n := Int32];
      UpdateLast(functions[f.name := Int32], Before(rest, i - 1), n);
      UpdateLast(functions, Before(fns, i), n);
    }
  }

  // ----- more functions in scope do no harm -----

  ghost predicate MoreFunctions(g: Gamma, h: Gamma) {
    g.vars == h.vars && forall f | f in g.functions :: f in h.functions && h.functions[f] == g.functions[f]
  }

  lemma {:induction false} ExprWeakens(g: Gamma, h: Gamma, e: Expr, t: TypeId)
    requires MoreFunctions(g, h) && HasType(g, e, t)
    ensures HasType(h, e, t)
    decreases e
  {
    if e.Binary? {
      ExprWeakens(g, h, e.lhs, e.operand.value);
      ExprWeakens(g, h, e.rhs, e.operand.value);
    }
  }

  lemma {:induction false} StmtWeakens(g: Gamma, h: Gamma, s: Stmt, inLoop: bool)
    requires MoreFunctions(g, h) && TypedStmt(g, s, inLoop)
    ensures TypedStmt(h, s, inLoop)
    decreases s
  {
    match s
    case DeclStmt(_, _, value, declared) => ExprWeakens(g, h, value, declared.value);
    case AssignStmt(name, value) => ExprWeakens(g, h, value, g.vars[name]);
    case ShowStmt(expr, t) => ExprWeakens(g, h, expr, t.value);
    case ReturnStmt(expr, t) => ExprWeakens(g, h, expr, t.value);
    case IfStmt(link) => LinkWeakens(g, h, link, inLoop);
    case LoopStmt(body) => SeqWeakens(g, h, body, true);
    case BreakStmt =>
    case CycleStmt =>
  }

  lemma {:induction false} LinkWeakens(g: Gamma, h: Gamma, link: IfLink, inLoop: bool)
    requires MoreFunctions(g, h) && TypedLink(g, link, inLoop)
    ensures TypedLink(h, link, inLoop)
    decreases link
  {
    ExprWeakens(g, h, link.cond, TypeId.Bool);
    SeqWeakens(g, h, link.thn, inLoop);
    match link.els
    case NoElse =>
    case ElseBlock(stmts) => SeqWeakens(g, h, stmts, inLoop);
    case ElseIfLink(next) => LinkWeakens(g, h, next, inLoop);
  }

  lemma {:induction false} SeqWeakens(g: Gamma, h: Gamma, stmts: seq<Stmt>, inLoop: bool)
    requires MoreFunctions(g, h) && TypedSeq(g, stmts, inLoop)
    ensures TypedSeq(h, stmts, inLoop)
    decreases stmts
  {
    if stmts != [] {
      StmtWeakens(g, h, stmts[0], inLoop);
      SeqWeakens(After(g, stmts[0]), After(h, stmts[0]), stmts[1..], inLoop);
    }
  }

  // ----- programs -----

  lemma {:induction false} ProgramLookup(fns: seq<FunctionDecl>, i: nat, taken: set<string>)
    requires i < |fns| && FreshNames(fns, taken)
    ensures fns[i].name in ProgramOf(fns) && ProgramOf(fns)[fns[i].name] == fns[i].body
    decreases fns
  {
    if i > 0 {
      assert FreshNames(fns[1..], taken);
      ProgramLookup(fns[1..], i - 1, taken);
    }
  }

  lemma {:induction false} ProgramNames(fns: seq<FunctionDecl>, f: string) returns (i: nat)
    requires f in ProgramOf(fns)
    ensures i < |fns| && fns[i].name == f
    decreases fns
  {
    if fns[0].name == f {
      i := 0;
    } else {
      i := ProgramNames(fns[1..], f);
      i := i + 1;
    }
  }

  /** Every construct has an LLVM counterpart, and no name is declared twice in a function. */
  ghost predicate Compilable(fns: seq<FunctionDecl>) {
    forall i | 0 <= i < |fns| :: EmittableSeq(fns[i].body) && AllDifferent(DeclaredNames(fns[i].body))
  }

  /** Float literals are doubles, which is what they are emitted as. */
  ghost predicate DoublesOnly(fns: seq<FunctionDecl>) {
    forall i | 0 <= i < |fns| :: DoubleSeq(fns[i].body)
  }

  /** All of a program's functions are in the fragment and declare no name twice. */
  ghost predicate Meaningful(fns: seq<FunctionDecl>) {
    forall i | 0 <= i < |fns| :: FragmentSeq(fns[i].body) && AllDifferent(DeclaredNames(fns[i].body))
  }

  /** Every return of every function is 32 bits wide. */
  ghost predicate Returnable(fns: seq<FunctionDecl>) {
    forall i | 0 <= i < |fns| :: WordReturns(fns[i].body)
  }

  ghost predicate Accepted(fns: seq<FunctionDecl>) {
    forall i | 0 <= i < |fns| :: TypedAt(map[], fns, i)
  }

  lemma TypedProgram(fns: seq<FunctionDecl>, taken: set<string>)
    requires FreshNames(fns, taken) && Accepted(fns) && Meaningful(fns) && Returnable(fns)
    ensures ProgramTyped(ProgramOf(fns), Before(fns, |fns|))
  {
    var p, all := ProgramOf(fns), Before(fns, |fns|);
    BeforeNames(fns, 0, |fns|);
    forall f | f in p
      ensures BodyTyped(p, all, f)
    {
      var i := ProgramNames(fns, f);
      ProgramLookup(fns, i, taken);
      BodyTypedAt(fns, i, p, f);
    }
    forall f | f in all
      ensures f in p && all[f] == Int32
    {
      var i :| 0 <= i < |fns| && fns[i].name == f;
      ProgramLookup(fns, i, taken);
      BeforeNames(fns, |fns|, |fns|);
    }
  }

  lemma BodyTypedAt(fns: seq<FunctionDecl>, i: nat, p: Program, f: string)
    requires i < |fns| && f in p && p[f] == fns[i].body && Accepted(fns) && Meaningful(fns) && Returnable(fns)
    ensures BodyTyped(p, Before(fns, |fns|), f)
  {
    assert TypedAt(map[], fns, i);
    assert map[] + Before(fns, i) == Before(fns, i);
    BeforeNames(fns, i, |fns|);
    SeqWeakens(Gamma(map[], Before(fns, i)), Gamma(map[], Before(fns, |fns|)), p[f], false);
  }

  /** Emission of a run of functions, each of which sees the ones before it. */
  lemma {:induction false} ProgramEmittedIff(known: set<string>, m: Module, functions: map<string, TypeId>,
                                             fns: seq<FunctionDecl>)
    requires functions.Keys <= known
    requires forall i | 0 <= i < |fns| :: TypedAt(functions, fns, i)
    ensures EmitProgram(known, m, fns).Ok? <==> Compilable(fns)
    decreases fns
  {
    hide EmittableSeq, DeclaredNames, EmitFunction;
    if fns != [] {
      var f := fns[0];
      assert TypedAt(functions, fns, 0);
      assert functions + Before(fns, 0) == functions;
      EmissionSucceedsIff(known, functions, f);
      assert fns == [f] + fns[1..];
      forall i {:trigger TypedAt(functions[f.name := Int32], fns[1..], i)} | 0 <= i < |fns[1..]|
        ensures TypedAt(functions[f.name := Int32], fns[1..], i)
      {
        assert TypedAt(functions, fns, i + 1);
        BeforeShift(functions, f, fns[1..], i);
      }
      CompilableSplit(fns);
      if EmitFunction(known, f).Ok? {
        var m1 := if f.name in known then m else m[f.name := EmitFunction(known, f).value.blocks];
        ProgramEmittedIff(known + {f.name}, m1, functions[f.name := Int32], fns[1..]);
      }
    }
  }

  lemma CompilableSplit(fns: seq<FunctionDecl>)
    requires fns != []
    ensures Compilable(fns) <==>
            EmittableSeq(fns[0].body) && AllDifferent(DeclaredNames(fns[0].body)) && Compilable(fns[1..])
  {
    hide EmittableSeq, DeclaredNames, AllDifferent;
    forall i | 0 < i < |fns|
      ensures fns[i] == fns[1..][i - 1]
    {
    }
  }

  /** For accepted programs whose float literals are doubles, what can be emitted is what the fragment has. */
  lemma MeaningfulIff(fns: seq<FunctionDecl>)
    requires Accepted(fns) && DoublesOnly(fns)
    ensures Compilable(fns) <==> Meaningful(fns)
  {
    hide EmittableSeq, DeclaredNames, AllDifferent, FragmentSeq, DoubleSeq, TypedSeq;
    forall i | 0 <= i < |fns|
      ensures EmittableSeq(fns[i].body) <==> FragmentSeq(fns[i].body)
    {
      assert TypedAt(map[], fns, i);
      assert map[] + Before(fns, i) == Before(fns, i);
      BeforeNames(fns, i, i);
      FragmentIff(Gamma(map[], Before(fns, i)), fns[i].body, false);
    }
  }

  /** What is emitted for an accepted program is a module that does what the program does; and that never goes
      wrong if it returns 32 bits everywhere. */
  lemma AcceptedCompiles(fns: seq<FunctionDecl>)
    requires FreshNames(fns, {PRINTF}) && Accepted(fns) && Meaningful(fns)
    requires Compile(fns).Ok?
    ensures WorldOk(WorldOf(fns))
    ensures Returnable(fns) ==> forall u: Fpu, f | f in WorldOf(fns).p :: NeverWrong(u, WorldOf(fns).p, f)
  {
    CompiledWorld(fns);
    if Returnable(fns) {
      TypedProgram(fns, {PRINTF});
      forall u: Fpu, f, fuel: nat | f in WorldOf(fns).p
        ensures Run(u, WorldOf(fns).p, f, fuel) != EvalStop(Wrong)
      {
        RunNeverWrong(u, WorldOf(fns).p, Before(fns, |fns|), f, fuel);
      }
    }
  }

  /** What the machine of f shows agrees with what the source run of f shows. */
  ghost predicate SameBehaviour(u: Fpu, w: World, f: string)
    requires f in w.p
  {
    && (forall fuel: nat :: Finishes(Run(u, w.p, f, fuel)) ==>
          exists n: nat :: Steps(u, w.m, Initial(f), n) == EndingOf(Run(u, w.p, f, fuel)))
    && (forall n: nat :: Steps(u, w.m, Initial(f), n).Halted? ==>
          Finishes(Run(u, w.p, f, n + 1)) && Steps(u, w.m, Initial(f), n) == EndingOf(Run(u, w.p, f, n + 1)))
    && (RunsForever(u, w.m, Initial(f)) <==> NeverFinishes(u, w.p, f))
    && (NeverFinishes(u, w.p, f) ==> forall n: nat :: SameOutputAt(u, w, f, n))
  }

  lemma BehavesTheSame(u: Fpu, w: World, f: string)
    requires WorldOk(w) && f in w.p && NeverWrong(u, w.p, f)
    ensures SameBehaviour(u, w, f)
  {
    hide WorldOk, NeverWrong, Run, Steps, SameOutputAt;
    forall fuel: nat | Finishes(Run(u, w.p, f, fuel))
      ensures exists n: nat :: Steps(u, w.m, Initial(f), n) == EndingOf(Run(u, w.p, f, fuel))
    {
      var n := Preserved(u, w, f, fuel);
    }
    forall n: nat | Steps(u, w.m, Initial(f), n).Halted?
      ensures Finishes(Run(u, w.p, f, n + 1)) && Steps(u, w.m, Initial(f), n) == EndingOf(Run(u, w.p, f, n + 1))
    {
      Reflected(u, w, f, n);
    }
    DivergenceAgrees(u, w, f);
    if NeverFinishes(u, w.p, f) {
      forall n: nat
        ensures SameOutputAt(u, w, f, n)
      {
        DivergingOutput(u, w, f, n);
      }
    }
  }

  /** No run is ever stuck on an unallocated or unwritten slot, an unknown name or ill-typed data. */
  ghost predicate NeverGetsStuck(u: Fpu, m: Module, s: Machine) {
    forall n: nat :: Steps(u, m, s, n).Halted? ==> Steps(u, m, s, n).ending != Stuck
  }

  // ----- the verifier -----

  lemma {:induction false} SeqTidyErased(stmts: seq<Stmt>)
    ensures Tidy(EraseSeq(stmts)) == Tidy(stmts)
    decreases stmts
  {
    if stmts != [] {
      StmtTidyErased(stmts[0]);
      SeqTidyErased(stmts[1..]);
      assert EraseSeq(stmts)[1..] == EraseSeq(stmts[1..]);
    }
  }

  lemma {:induction false} StmtTidyErased(s: Stmt)
    ensures TidyStmt(EraseStmt(s)) == TidyStmt(s) && Jumps(EraseStmt(s)) == Jumps(s)
    decreases s
  {
    match s
    case IfStmt(link) => LinkTidyErased(link);
    case LoopStmt(body) => SeqTidyErased(body); LastErased(body);
    case _ =>
  }

  lemma {:induction false} LinkTidyErased(link: IfLink)
    ensures TidyLink(EraseLink(link)) == TidyLink(link)
    decreases link
  {
    SeqTidyErased(link.thn);
    match link.els
    case NoElse =>
    case ElseBlock(stmts) => SeqTidyErased(stmts);
    case ElseIfLink(next) => LinkTidyErased(next);
  }

  lemma {:induction false} LastErased(stmts: seq<Stmt>)
    ensures stmts != [] ==> EraseSeq(stmts)[|stmts| - 1] == EraseStmt(stmts[|stmts| - 1])
    ensures EndsInJump(EraseSeq(stmts)) == EndsInJump(stmts)
    decreases stmts
  {
    if |stmts| > 1 {
      LastErased(stmts[1..]);
    }
  }

  /** Whether a body is tidy does not depend on its annotations. */
  lemma TidyUnannotated(body: seq<Stmt>, body': seq<Stmt>)
    requires EraseSeq(body) == EraseSeq(body')
    ensures TidyFunction(body) == TidyFunction(body')
  {
    hide Tidy;
    SeqTidyErased(body);
    SeqTidyErased(body');
    LastErased(body);
    LastErased(body');
    assert |EraseSeq(body)| == |body| == |body'|;
  }

  /** Every function can call itself once it is being emitted. */
  lemma {:induction false} KnowsItself(known: set<string>, fns: seq<FunctionDecl>, f: string)
    requires f in KnownOf(known, fns)
    ensures f in KnownOf(known, fns)[f]
    decreases fns
  {
    if fns[0].name != f {
      KnowsItself(known + {fns[0].name}, fns[1..], f);
    }
  }

  /** The blocks of each compiled function meet the rule on terminators exactly when its body is tidy and
      ends in return; so does the module when all bodies do. */
  lemma VerifiesIffTidy(fns: seq<FunctionDecl>)
    requires Compile(fns).Ok? && FreshNames(fns, {PRINTF})
    ensures var w := WorldOf(fns);
            && (forall f | f in w.p :: f in w.m && (WellFormed(w.m[f]) <==> TidyFunction(w.p[f])))
            && ((forall f | f in w.m :: WellFormed(w.m[f])) <==> forall i | 0 <= i < |fns| :: TidyFunction(fns[i].body))
  {
    hide WellFormed, TidyFunction, EmitBlock;
    CompiledWorld(fns);
    var w := WorldOf(fns);
    forall f | f in w.p
      ensures WellFormed(w.m[f]) <==> TidyFunction(w.p[f])
    {
      assert BodyOk(w, f);
      KnowsItself({PRINTF}, fns, f);
      assert w.known[f] + {f} == w.known[f];
      WellFormedIffTidy(w.known[f], FunctionDecl(f, w.p[f]));
    }
    forall i | 0 <= i < |fns|
      ensures fns[i].name in w.p && w.p[fns[i].name] == fns[i].body
    {
      ProgramLookup(fns, i, {PRINTF});
    }
    forall f | f in w.p
      ensures exists i :: 0 <= i < |fns| && fns[i].name == f
    {
      var i := ProgramNames(fns, f);
    }
  }

  /** Emitted code keeps the verifier's other rules exactly when every return is 32 bits wide: types match,
      every slot is allocated and stored to before it is used on every path, no branch goes to the entry
      block, and every callee is a function of the module. */
  lemma EmittedIsTyped(fns: seq<FunctionDecl>)
    requires Compile(fns).Ok? && FreshNames(fns, {PRINTF}) && Accepted(fns) && Meaningful(fns)
    ensures var w := WorldOf(fns);
            forall f | f in w.p ::
              && f in w.m && (StaticallyOk(w.m.Keys, w.m[f]) <==> WordReturns(w.p[f]))
              && (TypesFit(w.m[f]) <==> WordReturns(w.p[f]))
  {
    hide StaticallyOk, TypesFit, WordReturns, Compile, FreshNames, FragmentSeq, TypedSeq, EmitBlock;
    CompiledWorld(fns);
    var w := WorldOf(fns);
    forall f | f in w.p
      ensures StaticallyOk(w.m.Keys, w.m[f]) <==> WordReturns(w.p[f])
      ensures TypesFit(w.m[f]) <==> WordReturns(w.p[f])
    {
      assert BodyOk(w, f);
      var i := ProgramNames(fns, f);
      ProgramLookup(fns, i, {PRINTF});
      assert TypedAt(map[], fns, i);
      assert map[] + Before(fns, i) == Before(fns, i);
      BeforeNames(fns, 0, i);
      BeforeNames(fns, i, i);
      forall g | g in Before(fns, i)
        ensures g in w.m && Before(fns, i)[g] == Int32
      {
        var j :| 0 <= j < i && fns[j].name == g;
        ProgramLookup(fns, j, {PRINTF});
      }
      FunctionFine(w.m.Keys, w.known[f], Before(fns, i), fns[i].body);
    }
  }

  lemma {:induction false} NoneRenamed(known: set<string>, fns: seq<FunctionDecl>)
    requires FreshNames(fns, known)
    ensures RenamedBlocks(known, fns) == []
    decreases fns
  {
    hide EmitFunction;
    if fns != [] {
      NoneRenamed(known + {fns[0].name}, fns[1..]);
    }
  }

  /** Code generation as a whole: emission, then the verifier, which rejects a misplaced or missing
      terminator and an operand of the wrong type, such as a return that is not i32, in renamed functions
      too. */
  function Generate(fns: seq<FunctionDecl>): Result<Module> {
    var m :- Compile(fns);
    if Verifies(m, RenamedBlocks({PRINTF}, fns)) then Ok(m) else Err(BrokenModule)
  }

  /** The verdict on an accepted program, from its bodies. */
  lemma GenerateIff(fns: seq<FunctionDecl>)
    requires Compile(fns).Ok? && FreshNames(fns, {PRINTF}) && Accepted(fns) && Meaningful(fns)
    ensures Generate(fns) == if Returnable(fns) && forall i | 0 <= i < |fns| :: TidyFunction(fns[i].body)
                             then Ok(WorldOf(fns).m) else Err(BrokenModule)
  {
    hide WellFormed, TidyFunction, TypesFit, WordReturns, StaticallyOk, FreshNames, Meaningful, Compile;
    NoneRenamed({PRINTF}, fns);
    VerifiesIffTidy(fns);
    EmittedIsTyped(fns);
    CompiledWorld(fns);
    var w := WorldOf(fns);
    forall i | 0 <= i < |fns|
      ensures fns[i].name in w.p && w.p[fns[i].name] == fns[i].body
    {
      ProgramLookup(fns, i, {PRINTF});
    }
    forall f | f in w.p
      ensures exists i :: 0 <= i < |fns| && fns[i].name == f
    {
      var i := ProgramNames(fns, f);
    }
  }

  // ----- the theorem -----

  /** The emitted module passes the verifier as the source bodies say, and its functions do what they do. */
  ghost predicate CorrectModule(fns: seq<FunctionDecl>, fns': seq<FunctionDecl>)
    requires Compile(fns').Ok?
  {
    && Generate(fns') == (if Returnable(fns') && forall i | 0 <= i < |fns| :: TidyFunction(fns[i].body)
                          then Ok(WorldOf(fns').m) else Err(BrokenModule))
    && (Returnable(fns') ==> forall u: Fpu, f | f in WorldOf(fns').p :: WellCompiled(u, WorldOf(fns'), f))
  }

  ghost predicate WellCompiled(u: Fpu, w: World, f: string)
    requires f in w.p
  {
    f in w.m && StaticallyOk(w.m.Keys, w.m[f]) && SameBehaviour(u, w, f) && NeverGetsStuck(u, w.m, Initial(f))
  }

  /** From the checker to the machine.  For a program the checker accepts function by function, whose
      typed declarations and assignments are clean and whose float literals are doubles, with fresh function names:
      emission raises no error exactly when every construct has an LLVM counterpart and no variable name is declared
      twice in a function; then the verifier lets the module through exactly when every source body is tidy and
      ends in return and every return is 32 bits wide; and if the returns are, then every emitted function keeps the
      verifier's rules on types and on use before definition, finishes, traps or diverges exactly as its source
      does, with the same output, also while it diverges, and the same result, and never gets stuck - whatever the
      floating-point unit computes. */
  lemma CompilerCorrect(floatFits: (string, TypeId) -> bool, fns: seq<FunctionDecl>)
    requires CheckFunctions(InitialState(floatFits), fns).Ok?
    requires var fns' := CheckFunctions(InitialState(floatFits), fns).value.1;
             CleanFunctions(fns') && DoublesOnly(fns') && FreshNames(fns', {PRINTF})
    ensures var fns' := CheckFunctions(InitialState(floatFits), fns).value.1;
            && (Compile(fns').Ok? <==> Compilable(fns'))
            && (Compile(fns').Ok? ==> CorrectModule(fns, fns'))
  {
    hide TidyFunction, Meaningful, Compilable, DoublesOnly, FreshNames, Compile, Generate, Returnable, WellCompiled;
    CheckedFunctions(InitialState(floatFits), fns);
    var fns' := CheckFunctions(InitialState(floatFits), fns).value.1;
    assert Accepted(fns');
    CompilesIff(fns');
    MeaningfulIff(fns');
    if Compile(fns').Ok? {
      GenerateIff(fns');
      FunctionsErase(InitialState(floatFits), fns);
      forall i | 0 <= i < |fns|
        ensures TidyFunction(fns[i].body) == TidyFunction(fns'[i].body)
      {
        assert EraseFunction(fns'[i]) == EraseFunction(fns[i]);
        TidyUnannotated(fns[i].body, fns'[i].body);
      }
      if Returnable(fns') {
        AllWellCompiled(fns');
      }
    }
  }

  lemma CompilesIff(fns: seq<FunctionDecl>)
    requires Accepted(fns)
    ensures Compile(fns).Ok? <==> Compilable(fns)
  {
    hide Compilable, EmitProgram, TypedAt;
    ProgramEmittedIff({PRINTF}, map[], map[], fns);
  }

  lemma AllWellCompiled(fns: seq<FunctionDecl>)
    requires Compile(fns).Ok? && FreshNames(fns, {PRINTF}) && Accepted(fns) && Meaningful(fns) && Returnable(fns)
    ensures forall u: Fpu, f | f in WorldOf(fns).p :: WellCompiled(u, WorldOf(fns), f)
  {
    hide StaticallyOk, SameBehaviour, WorldOk, Meaningful, FreshNames, NeverWrong, Compile, WordReturns, TypesFit;
    AcceptedCompiles(fns);
    EmittedIsTyped(fns);
    var w := WorldOf(fns);
    forall u: Fpu, f | f in w.p
      ensures WellCompiled(u, w, f)
    {
      var i := ProgramNames(fns, f);
      ProgramLookup(fns, i, {PRINTF});
      assert WordReturns(fns[i].body);
      BehavesTheSame(u, w, f);
      forall n: nat
        ensures Steps(u, w.m, Initial(f), n).Halted? ==> Steps(u, w.m, Initial(f), n).ending != Stuck
      {
        NeverStuck(u, w, f, n);
      }
    }
  }
}
