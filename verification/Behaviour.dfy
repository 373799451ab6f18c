/** Whole runs: what a compiled function does is what the source function does, in both directions,
    and one diverges exactly when the other does. */
module Behaviour {
  import opened Syntax
  import opened Floats
  import opened Ir
  import opened Semantics
  import opened Codegen
  import opened Arithmetic
  import opened Lowering

  function Initial(f: string): Machine {
    Running(Enter(f), Nobody, [])
  }

  /** The way the machine ends when the source run ends like r. */
  function EndingOf(r: EvalResult): Machine
    requires r.Value? || r.stop.Trap? || r.stop.FellOff?
  {
    match r
    case Value(v, out) => Halted(Returned(WordOf(v)), WordsOf(out))
    case EvalStop(Trap(out)) => Halted(DivisionTrap, WordsOf(out))
    case EvalStop(FellOff(out)) => Halted(NoTerminator, WordsOf(out))
  }

  predicate Finishes(r: EvalResult) {
    r.Value? || r.stop.Trap? || r.stop.FellOff?
  }

  ghost predicate NeverWrong(u: Fpu, p: Program, f: string)
    requires f in p
  {
    forall fuel: nat :: Run(u, p, f, fuel) != EvalStop(Wrong)
  }

  /** A source run that ends is matched by a machine run that halts the same way with the same output;
      one that is cut off by its fuel is matched by a machine still running, same output so far. */
  lemma Preserved(u: Fpu, w: World, f: string, fuel: nat)
    returns (n: nat)
    requires WorldOk(w) && f in w.p
    ensures var r := Run(u, w.p, f, fuel);
            match r
            case Value(_, _) => Steps(u, w.m, Initial(f), n) == EndingOf(r)
            case EvalStop(Trap(_)) => Steps(u, w.m, Initial(f), n) == EndingOf(r)
            case EvalStop(FellOff(_)) => Steps(u, w.m, Initial(f), n) == EndingOf(r)
            case EvalStop(OutOfFuel(out)) =>
              n >= fuel && Steps(u, w.m, Initial(f), n).Running? && Steps(u, w.m, Initial(f), n).out == WordsOf(out)
            case EvalStop(Wrong) => true
  {
    assert WordsOf([]) == [];
    n := SimBody(u, w, f, Nobody, [], fuel);
  }

  /** A machine run that halts after n steps comes from a source run that finishes within n + 1 units
      of fuel, and halts the way that run ends. */
  lemma Reflected(u: Fpu, w: World, f: string, n: nat)
    requires WorldOk(w) && f in w.p && NeverWrong(u, w.p, f)
    requires Steps(u, w.m, Initial(f), n).Halted?
    ensures var r := Run(u, w.p, f, n + 1);
            Finishes(r) && Steps(u, w.m, Initial(f), n) == EndingOf(r)
  {
    var k := Preserved(u, w, f, n + 1);
    EndingsAgree(u, w.m, Initial(f), n, k);
  }

  /** Two finishing source runs of a function, whatever their fuel, end alike up to encoding. */
  lemma FuelIrrelevant(u: Fpu, w: World, f: string, a: nat, b: nat)
    requires WorldOk(w) && f in w.p && Finishes(Run(u, w.p, f, a)) && Finishes(Run(u, w.p, f, b))
    ensures EndingOf(Run(u, w.p, f, a)) == EndingOf(Run(u, w.p, f, b))
  {
    var i := Preserved(u, w, f, a);
    var j := Preserved(u, w, f, b);
    EndingsAgree(u, w.m, Initial(f), i, j);
  }

  ghost predicate RunsForever(u: Fpu, m: Module, s: Machine) {
    forall n: nat :: Steps(u, m, s, n).Running?
  }

  ghost predicate NeverFinishes(u: Fpu, p: Program, f: string)
    requires f in p
  {
    forall fuel: nat :: !Finishes(Run(u, p, f, fuel))
  }

  /** The machine runs forever exactly when no amount of fuel lets the source run finish. */
  lemma DivergenceAgrees(u: Fpu, w: World, f: string)
    requires WorldOk(w) && f in w.p && NeverWrong(u, w.p, f)
    ensures RunsForever(u, w.m, Initial(f)) <==> NeverFinishes(u, w.p, f)
  {
    if fuel: nat :| Finishes(Run(u, w.p, f, fuel)) {
      var n := Preserved(u, w, f, fuel);
      assert !Steps(u, w.m, Initial(f), n).Running?;
    }
    if n: nat :| Steps(u, w.m, Initial(f), n).Halted? {
      Reflected(u, w, f, n);
    } else {
      assert RunsForever(u, w.m, Initial(f));
    }
  }

  /** Output is only ever appended to. */
  lemma {:induction false} OutputGrows(u: Fpu, m: Module, s: Machine, n: nat)
    ensures s.out <= Steps(u, m, s, n).out
    decreases n
  {
    if n > 0 {
      OutputGrows(u, m, Step(u, m, s), n - 1);
    }
  }

  /** What a run that never finishes shows: after n steps the machine has shown a beginning of what the
      source shows on n units of fuel, and later on it has shown exactly that. */
  ghost predicate SameOutputAt(u: Fpu, w: World, f: string, n: nat)
    requires f in w.p
  {
    var r := Run(u, w.p, f, n);
    && r.EvalStop? && r.stop.OutOfFuel?
    && Steps(u, w.m, Initial(f), n).out <= WordsOf(r.stop.out)
    && exists k: nat :: k >= n && Steps(u, w.m, Initial(f), k).out == WordsOf(r.stop.out)
  }

  lemma DivergingOutput(u: Fpu, w: World, f: string, n: nat)
    requires WorldOk(w) && f in w.p && NeverWrong(u, w.p, f) && NeverFinishes(u, w.p, f)
    ensures SameOutputAt(u, w, f, n)
  {
    hide WorldOk, Run;
    assert !Finishes(Run(u, w.p, f, n)) && Run(u, w.p, f, n) != EvalStop(Wrong);
    var k := Preserved(u, w, f, n);
    StepsAdd(u, w.m, Initial(f), n, k - n);
    OutputGrows(u, w.m, Steps(u, w.m, Initial(f), n), k - n);
  }

  /** No run touches an unallocated or uninitialised slot, an undefined register, or ill-typed data:
      all of these would leave the machine stuck. */
  lemma NeverStuck(u: Fpu, w: World, f: string, n: nat)
    requires WorldOk(w) && f in w.p && NeverWrong(u, w.p, f)
    ensures var s := Steps(u, w.m, Initial(f), n); s.Halted? ==> s.ending != Stuck
  {
    if Steps(u, w.m, Initial(f), n).Halted? {
      Reflected(u, w, f, n);
    }
  }

  // ----- the module of a whole program -----

  function ProgramOf(fns: seq<FunctionDecl>): Program
    decreases fns
  {
    if fns == [] then map[] else ProgramOf(fns[1..])[fns[0].name := fns[0].body]
  }

  /** Function names are pairwise different and none is already taken. */
  ghost predicate FreshNames(fns: seq<FunctionDecl>, taken: set<string>) {
    && (forall i | 0 <= i < |fns| :: fns[i].name !in taken)
    && (forall i, j | 0 <= i < j < |fns| :: fns[i].name != fns[j].name)
  }

  /** What each function could call when it was emitted: the earlier ones and itself. */
  function KnownOf(known: set<string>, fns: seq<FunctionDecl>): map<string, set<string>>
    decreases fns
  {
    if fns == [] then map[]
    else KnownOf(known + {fns[0].name}, fns[1..])[fns[0].name := known + {fns[0].name}]
  }

  lemma {:induction false} EmittedWorld(known: set<string>, m: Module, fns: seq<FunctionDecl>)
    requires EmitProgram(known, m, fns).Ok? && FreshNames(fns, known) && m.Keys <= known
    ensures var m' := EmitProgram(known, m, fns).value;
            var w := World(ProgramOf(fns), m', KnownOf(known, fns));
            && w.p.Keys == w.known.Keys && m'.Keys == m.Keys + w.p.Keys
            && (forall f | f in m :: m'[f] == m[f])
            && (forall f | f in w.p :: BodyOk(w, f))
            && (forall f | f in w.p :: f !in known)
    decreases fns
  {
    if fns != [] {
      var f := fns[0].name;
      var known1 := known + {f};
      var m1 := m[f := EmitFunction(known, fns[0]).value.blocks];
      assert FreshNames(fns[1..], known1);
      EmittedWorld(known1, m1, fns[1..]);
      var m' := EmitProgram(known, m, fns).value;
      var w1 := World(ProgramOf(fns[1..]), m', KnownOf(known1, fns[1..]));
      var w := World(ProgramOf(fns), m', KnownOf(known, fns));
      forall g | g in w.p
        ensures BodyOk(w, g)
      {
        if g != f {
          assert BodyOk(w1, g);
        }
      }
    }
  }

  /** The names taken before the i-th function. */
  function Taken(known: set<string>, fns: seq<FunctionDecl>, i: nat): set<string>
    requires i <= |fns|
  {
    known + set k | 0 <= k < i :: fns[k].name
  }

  /** Whatever the names: each function is emitted knowing itself and the ones before it; the first of a name has
      that name in the module, and what is emitted for a later one is kept apart, and not lost. */
  lemma {:induction false} FirstOfName(known: set<string>, m: Module, fns: seq<FunctionDecl>, i: nat)
    requires EmitProgram(known, m, fns).Ok? && i < |fns| && m.Keys <= known
    ensures var m', b := EmitProgram(known, m, fns).value, EmitFunction(Taken(known, fns, i), fns[i]);
            && b.Ok?
            && (if fns[i].name in Taken(known, fns, i) then b.value.blocks in RenamedBlocks(known, fns)
                else fns[i].name in m' && m'[fns[i].name] == b.value.blocks)
    decreases fns
  {
    hide EmitFunction;
    var f := fns[0].name;
    var m1 := if f in known then m else m[f := EmitFunction(known, fns[0]).value.blocks];
    if i == 0 {
      assert Taken(known, fns, 0) == known;
      EarlierStay(known + {f}, m1, fns[1..]);
    } else {
      FirstOfName(known + {f}, m1, fns[1..], i - 1);
      assert Taken(known + {f}, fns[1..], i - 1) == Taken(known, fns, i) by {
        assert forall k | 0 <= k < i - 1 :: fns[1..][k] == fns[k + 1];
        assert forall k | 0 < k < i :: fns[k] == fns[1..][k - 1];
      }
    }
  }

  lemma {:induction false} EarlierStay(known: set<string>, m: Module, fns: seq<FunctionDecl>)
    requires EmitProgram(known, m, fns).Ok? && m.Keys <= known
    ensures forall f | f in known && f in m ::
              f in EmitProgram(known, m, fns).value && EmitProgram(known, m, fns).value[f] == m[f]
    decreases fns
  {
    hide EmitFunction;
    if fns != [] {
      var f := fns[0].name;
      EarlierStay(known + {f}, if f in known then m else m[f := EmitFunction(known, fns[0]).value.blocks], fns[1..]);
    }
  }

  /** The world of a compiled program. */
  function WorldOf(fns: seq<FunctionDecl>): World
    requires Compile(fns).Ok?
  {
    World(ProgramOf(fns), Compile(fns).value, KnownOf({PRINTF}, fns))
  }

  lemma CompiledWorld(fns: seq<FunctionDecl>)
    requires Compile(fns).Ok? && FreshNames(fns, {PRINTF})
    ensures WorldOk(WorldOf(fns))
  {
    EmittedWorld({PRINTF}, map[], fns);
  }
}
