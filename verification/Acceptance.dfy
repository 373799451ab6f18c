/** What acceptance by the type checker means for code generation: exactly when emission raises none
    of its errors. */
module Acceptance {
  import opened Results
  import opened Syntax
  import opened Numerals
  import opened Ir
  import opened Checking
  import opened Codegen
  import opened Typing
  import opened Scoping
  import opened Safety

  // ----- names declared in a body, in order -----

  function DeclaredNames(stmts: seq<Stmt>): seq<string>
    decreases stmts
  {
    if stmts == [] then [] else NamesIn(stmts[0]) + DeclaredNames(stmts[1..])
  }

  function NamesIn(s: Stmt): seq<string>
    decreases s
  {
    match s
    case DeclStmt(name, _, _, _) => [name]
    case IfStmt(link) => NamesInLink(link)
    case LoopStmt(body) => DeclaredNames(body)
    case _ => []
  }

  function NamesInLink(link: IfLink): seq<string>
    decreases link
  {
    DeclaredNames(link.thn) + NamesInElse(link.els)
  }

  function NamesInElse(els: ElsePart): seq<string>
    decreases els
  {
    match els
    case NoElse => []
    case ElseBlock(stmts) => DeclaredNames(stmts)
    case ElseIfLink(next) => NamesInLink(next)
  }

  /** The names differ from each other and from those seen before. */
  predicate NewNames(names: seq<string>, seen: set<string>)
    decreases names
  {
    names == [] || (names[0] !in seen && NewNames(names[1..], seen + {names[0]}))
  }

  ghost predicate AllDifferent(names: seq<string>) {
    forall i, j | 0 <= i < j < |names| :: names[i] != names[j]
  }

  ghost function SetOf(names: seq<string>): set<string> {
    set x | x in names
  }

  lemma {:induction false} NewNamesSplit(a: seq<string>, b: seq<string>, seen: set<string>)
    ensures NewNames(a + b, seen) <==> NewNames(a, seen) && NewNames(b, seen + SetOf(a))
    decreases a
  {
    if a == [] {
      assert a + b == b && seen + SetOf(a) == seen;
    } else {
      assert (a + b)[0] == a[0] && (a + b)[1..] == a[1..] + b;
      NewNamesSplit(a[1..], b, seen + {a[0]});
      assert SetOf(a) == {a[0]} + SetOf(a[1..]) by {
        assert a == [a[0]] + a[1..];
      }
      assert seen + SetOf(a) == (seen + {a[0]}) + SetOf(a[1..]);
    }
  }

  lemma {:induction false} NewNamesDistinct(names: seq<string>, seen: set<string>)
    ensures NewNames(names, seen) <==> (forall i | 0 <= i < |names| :: names[i] !in seen) && AllDifferent(names)
    decreases names
  {
    if names != [] {
      NewNamesDistinct(names[1..], seen + {names[0]});
      if NewNames(names, seen) {
        forall i, j | 0 <= i < j < |names|
          ensures names[i] != names[j] && names[j] !in seen
        {
          assert names[j] == names[1..][j - 1];
          if i > 0 {
            assert names[i] == names[1..][i - 1];
          }
        }
      }
    }
  }

  // ----- what the emitter has an instruction for -----

  /** Every literal, variable and operator has an LLVM counterpart at its annotated type. */
  predicate Emittable(e: Expr) {
    match e
    case IntLit(_, resolved) => resolved.Some? && IsInteger(resolved.value)
    case FloatLit(_, _) => true
    case Var(_, resolved) => resolved.Some? && HasLlvmType(resolved.value)
    case Call(_) => true
    case Binary(op, lhs, rhs, operand, _) =>
      && SupportedOperator(op) && operand.Some? && (IsInteger(operand.value) || IsFloat(operand.value))
      && Emittable(lhs) && Emittable(rhs)
  }

  predicate HasLlvmType(t: TypeId) {
    IsInteger(t) || IsFloat(t) || t.Bool?
  }

  /** The size of a value in bits. */
  function SizeOf(ty: LlvmType): nat {
    match ty
    case I(W1) => 1
    case I(W8) => 8
    case I(W16) => 16
    case I(W32) => 32
    case I(W64) => 64
    case FloatTy => 32
    case DoubleTy => 64
  }

  /** The types with an LLVM counterpart: integers and floats of the size in their name, and Bool in one bit. */
  lemma LlvmTypes(t: TypeId)
    ensures LlvmTypeOf(t).Ok? <==> HasLlvmType(t)
    ensures HasLlvmType(t) ==>
              var ty := LlvmTypeOf(t).value;
              && (ty.I? <==> !IsFloat(t))
              && (t.Bool? ==> SizeOf(ty) == 1)
              && (!t.Bool? ==>
                    NameOf(t) == (if IsFloat(t) then "Float" else if IsSigned(t) then "Int" else "UInt")
                                 + DigitsOf(SizeOf(ty)))
  {
    hide DigitsOf;
    SizesInDigits();
    match t
    case Float32 => assert "Float" + "32" == "Float32";
    case Float64 => assert "Float" + "64" == "Float64";
    case Int8 => assert "Int" + "8" == "Int8";
    case Int16 => assert "Int" + "16" == "Int16";
    case Int32 => assert "Int" + "32" == "Int32";
    case Int64 => assert "Int" + "64" == "Int64";
    case UInt8 => assert "UInt" + "8" == "UInt8";
    case UInt16 => assert "UInt" + "16" == "UInt16";
    case UInt32 => assert "UInt" + "32" == "UInt32";
    case UInt64 => assert "UInt" + "64" == "UInt64";
    case _ =>
  }

  lemma SizesInDigits()
    ensures DigitsOf(8) == "8" && DigitsOf(16) == "16" && DigitsOf(32) == "32" && DigitsOf(64) == "64"
  {
    assert DigitsOf(16) == DigitsOf(1) + "6";
    assert DigitsOf(32) == DigitsOf(3) + "2";
    assert DigitsOf(64) == DigitsOf(6) + "4";
  }

  predicate EmittableStmt(s: Stmt)
    decreases s
  {
    match s
    case DeclStmt(_, _, value, declared) => declared.Some? && HasLlvmType(declared.value) && Emittable(value)
    case AssignStmt(_, value) => Emittable(value)
    case ShowStmt(expr, _) => Emittable(expr)
    case ReturnStmt(expr, _) => Emittable(expr)
    case IfStmt(link) => EmittableLink(link)
    case LoopStmt(body) => EmittableSeq(body)
    case BreakStmt => true
    case CycleStmt => true
  }

  predicate EmittableLink(link: IfLink)
    decreases link
  {
    Emittable(link.cond) && EmittableSeq(link.thn) && EmittableElse(link.els)
  }

  predicate EmittableElse(els: ElsePart)
    decreases els
  {
    match els
    case NoElse => true
    case ElseBlock(stmts) => EmittableSeq(stmts)
    case ElseIfLink(next) => EmittableLink(next)
  }

  predicate EmittableSeq(stmts: seq<Stmt>)
    decreases stmts
  {
    stmts == [] || (EmittableStmt(stmts[0]) && EmittableSeq(stmts[1..]))
  }

  // ----- the fragment the step machine has a meaning for -----

  /** Float literals are used as the doubles they are emitted as. */
  predicate Doubles(e: Expr) {
    match e
    case FloatLit(_, resolved) => resolved == Some(Float64)
    case Binary(_, lhs, rhs, _, _) => Doubles(lhs) && Doubles(rhs)
    case _ => true
  }

  predicate DoubleStmt(s: Stmt)
    decreases s
  {
    match s
    case DeclStmt(_, _, value, _) => Doubles(value)
    case AssignStmt(_, value) => Doubles(value)
    case ShowStmt(expr, _) => Doubles(expr)
    case ReturnStmt(expr, _) => Doubles(expr)
    case IfStmt(link) => DoubleLink(link)
    case LoopStmt(body) => DoubleSeq(body)
    case BreakStmt => true
    case CycleStmt => true
  }

  predicate DoubleLink(link: IfLink)
    decreases link
  {
    Doubles(link.cond) && DoubleSeq(link.thn) && DoubleElse(link.els)
  }

  predicate DoubleElse(els: ElsePart)
    decreases els
  {
    match els
    case NoElse => true
    case ElseBlock(stmts) => DoubleSeq(stmts)
    case ElseIfLink(next) => DoubleLink(next)
  }

  predicate DoubleSeq(stmts: seq<Stmt>)
    decreases stmts
  {
    stmts == [] || (DoubleStmt(stmts[0]) && DoubleSeq(stmts[1..]))
  }

  /** Everything in scope has a type of the fragment, and every function is an Int32. */
  ghost predicate FragmentScope(g: Gamma) {
    && (forall x | x in g.vars :: HasLlvmType(g.vars[x]) ==> FragmentType(g.vars[x]))
    && (forall f | f in g.functions :: g.functions[f] == Int32)
  }

  /** A typed expression whose float literals are doubles is emittable exactly when it is in the fragment. */
  lemma {:induction false} FragmentExpr(g: Gamma, e: Expr, t: TypeId)
    requires FragmentScope(g) && HasType(g, e, t) && Doubles(e)
    ensures Emittable(e) <==> InFragment(e)
    ensures Emittable(e) ==> FragmentType(t)
    decreases e
  {
    if e.Binary? {
      FragmentExpr(g, e.lhs, e.operand.value);
      FragmentExpr(g, e.rhs, e.operand.value);
    }
  }

  lemma {:induction false} FragmentIffStmt(g: Gamma, s: Stmt, inLoop: bool)
    requires FragmentScope(g) && TypedStmt(g, s, inLoop) && DoubleStmt(s)
    ensures EmittableStmt(s) <==> FragmentStmt(s)
    ensures EmittableStmt(s) ==> FragmentScope(After(g, s))
    decreases s
  {
    match s
    case DeclStmt(_, _, value, declared) => FragmentExpr(g, value, declared.value);
    case AssignStmt(name, value) => FragmentExpr(g, value, g.vars[name]);
    case ShowStmt(expr, exprType) => FragmentExpr(g, expr, exprType.value);
    case ReturnStmt(expr, exprType) => FragmentExpr(g, expr, exprType.value);
    case IfStmt(link) => FragmentIffLink(g, link, inLoop);
    case LoopStmt(body) => FragmentIff(g, body, true);
    case BreakStmt =>
    case CycleStmt =>
  }

  lemma {:induction false} FragmentIffLink(g: Gamma, link: IfLink, inLoop: bool)
    requires FragmentScope(g) && TypedLink(g, link, inLoop) && DoubleLink(link)
    ensures EmittableLink(link) <==> FragmentLink(link)
    decreases link
  {
    FragmentExpr(g, link.cond, TypeId.Bool);
    FragmentIff(g, link.thn, inLoop);
    match link.els
    case NoElse =>
    case ElseBlock(stmts) => FragmentIff(g, stmts, inLoop);
    case ElseIfLink(next) => FragmentIffLink(g, next, inLoop);
  }

  lemma {:induction false} FragmentIff(g: Gamma, stmts: seq<Stmt>, inLoop: bool)
    requires FragmentScope(g) && TypedSeq(g, stmts, inLoop) && DoubleSeq(stmts)
    ensures EmittableSeq(stmts) <==> FragmentSeq(stmts)
    decreases stmts
  {
    if stmts != [] {
      FragmentIffStmt(g, stmts[0], inLoop);
      if EmittableStmt(stmts[0]) {
        FragmentIff(After(g, stmts[0]), stmts[1..], inLoop);
      }
    }
  }

  // ----- emission -----

  /** The checker's view is covered by the emitter's: every name in scope has a slot, every known
      function is in the module, and inside a loop the loop stack is not empty. */
  ghost predicate Covers(known: set<string>, b: Builder, g: Gamma, inLoop: bool) {
    g.vars.Keys <= b.named.Keys && g.functions.Keys <= known && (inLoop ==> b.loops != [])
  }

  lemma OpcodeExists(op: TokenKind, operand: TypeId)
    requires !IsLiteral(operand)
    ensures OpcodeFor(op, Some(operand), Some(if IsBoolOperator(op) then TypeId.Bool else operand)).Ok?
       <==> SupportedOperator(op) && (IsInteger(operand) || IsFloat(operand))
  {
  }

  /** A typed expression is emitted without error exactly when it is emittable. */
  lemma {:induction false} ExprEmitted(known: set<string>, b: Builder, g: Gamma, e: Expr, t: TypeId)
    requires b.Valid() && HasType(g, e, t) && g.vars.Keys <= b.named.Keys && g.functions.Keys <= known
    ensures EmitExpr(known, b, e).Ok? <==> Emittable(e)
    decreases e
  {
    hide OpcodeFor;
    if e.Binary? {
      OpcodeExists(e.op, e.operand.value);
      ExprEmitted(known, b, g, e.lhs, e.operand.value);
      if EmitExpr(known, b, e.lhs).Ok? {
        ExprEmitted(known, EmitExpr(known, b, e.lhs).value.0, g, e.rhs, e.operand.value);
      }
    }
  }

  ghost predicate EmittedIff(b: Builder, r: Result<Builder>, emittable: bool, names: seq<string>) {
    && (r.Ok? <==> emittable && NewNames(names, b.named.Keys))
    && (r.Ok? ==> r.value.named.Keys == b.named.Keys + SetOf(names) && r.value.loops == b.loops)
  }

  lemma {:induction false} StmtEmitted(known: set<string>, b: Builder, g: Gamma, s: Stmt, inLoop: bool)
    requires b.Valid() && TypedStmt(g, s, inLoop) && Covers(known, b, g, inLoop)
    ensures EmittedIff(b, EmitStmt(known, b, s), EmittableStmt(s), NamesIn(s))
    decreases s
  {
    match s
    case DeclStmt(name, _, value, declared) =>
      ExprEmitted(known, b, g, value, declared.value);
      assert NewNames([name], b.named.Keys) <==> name !in b.named by {
        assert [name][1..] == [];
      }
    case AssignStmt(name, value) => ExprEmitted(known, b, g, value, g.vars[name]);
    case ShowStmt(expr, exprType) => ExprEmitted(known, b, g, expr, exprType.value);
    case ReturnStmt(expr, exprType) => ExprEmitted(known, b, g, expr, exprType.value);
    case IfStmt(link) => LinkEmitted(known, b, g, link, inLoop);
    case LoopStmt(body) => SeqEmitted(known, b.OpenLoop(), g, body, true);
    case BreakStmt =>
    case CycleStmt =>
  }

  /** The else part on its own; nothing is emitted for a missing one. */
  function EmitElse(known: set<string>, b: Builder, els: ElsePart): Result<Builder>
    requires b.Valid()
  {
    match els
    case NoElse => Ok(b)
    case ElseBlock(stmts) => EmitBlock(known, b, stmts)
    case ElseIfLink(next) => EmitLink(known, b, next)
  }

  /** A link is emitted if its three parts are, and has their names. */
  lemma LinkParts(known: set<string>, b: Builder, link: IfLink)
    requires b.Valid()
    ensures var r, c := EmitLink(known, b, link), EmitExpr(known, b, link.cond);
            if c.Err? then r.Err?
            else
              var b1 := c.value.0.OpenThen(c.value.1, link);
              b1.named == b.named && b1.loops == b.loops
              && var b2 := EmitBlock(known, b1, link.thn);
                 if b2.Err? then r.Err?
                 else
                   var b3 := b2.value.CloseWith(c.value.0.EndOf(link)).MoveTo(|c.value.0.blocks| + 1);
                   b3.named == b2.value.named && b3.loops == b2.value.loops
                   && var b4 := EmitElse(known, b3, link.els);
                      if b4.Err? then r.Err?
                      else r.Ok? && r.value.named == b4.value.named && r.value.loops == b4.value.loops
  {
    hide EmitExpr, EmitBlock;
  }

  lemma {:induction false} LinkEmitted(known: set<string>, b: Builder, g: Gamma, link: IfLink, inLoop: bool)
    requires b.Valid() && TypedLink(g, link, inLoop) && Covers(known, b, g, inLoop)
    ensures EmittedIff(b, EmitLink(known, b, link), EmittableLink(link), NamesInLink(link))
    decreases link
  {
    hide EmitExpr, EmitBlock, EmitLink, EmitElse, NewNames, HasType;
    LinkParts(known, b, link);
    var names, rest := DeclaredNames(link.thn), NamesInElse(link.els);
    NewNamesSplit(names, rest, b.named.Keys);
    assert SetOf(names + rest) == SetOf(names) + SetOf(rest);
    ExprEmitted(known, b, g, link.cond, TypeId.Bool);
    var c := EmitExpr(known, b, link.cond);
    if c.Ok? {
      var b1 := c.value.0.OpenThen(c.value.1, link);
      SeqEmitted(known, b1, g, link.thn, inLoop);
      var b2 := EmitBlock(known, b1, link.thn);
      if b2.Ok? {
        var b3 := b2.value.CloseWith(c.value.0.EndOf(link)).MoveTo(|c.value.0.blocks| + 1);
        ElseEmitted(known, b3, g, link.els, inLoop);
      }
    }
  }

  lemma {:induction false} ElseEmitted(known: set<string>, b: Builder, g: Gamma, els: ElsePart, inLoop: bool)
    requires b.Valid() && Covers(known, b, g, inLoop)
    requires match els
             case NoElse => true
             case ElseBlock(stmts) => TypedSeq(g, stmts, inLoop)
             case ElseIfLink(next) => TypedLink(g, next, inLoop)
    ensures EmittedIff(b, EmitElse(known, b, els), EmittableElse(els), NamesInElse(els))
    decreases els
  {
    match els
    case NoElse =>
    case ElseBlock(stmts) => SeqEmitted(known, b, g, stmts, inLoop);
    case ElseIfLink(next) => LinkEmitted(known, b, g, next, inLoop);
  }

  lemma {:induction false} SeqEmitted(known: set<string>, b: Builder, g: Gamma, stmts: seq<Stmt>, inLoop: bool)
    requires b.Valid() && TypedSeq(g, stmts, inLoop) && Covers(known, b, g, inLoop)
    ensures EmittedIff(b, EmitBlock(known, b, stmts), EmittableSeq(stmts), DeclaredNames(stmts))
    decreases stmts
  {
    if stmts != [] {
      var a, rest := NamesIn(stmts[0]), DeclaredNames(stmts[1..]);
      NewNamesSplit(a, rest, b.named.Keys);
      assert SetOf(a + rest) == SetOf(a) + SetOf(rest);
      StmtEmitted(known, b, g, stmts[0], inLoop);
      var b1 := EmitStmt(known, b, stmts[0]);
      if b1.Ok? {
        SeqEmitted(known, b1.value, After(g, stmts[0]), stmts[1..], inLoop);
      }
    }
  }

  /** A typed function is emitted without error if and only if every construct in it has an LLVM
      counterpart and no name is declared twice anywhere in its body, not even in sibling blocks. */
  lemma EmissionSucceedsIff(known: set<string>, functions: map<string, TypeId>, f: FunctionDecl)
    requires TypedSeq(Gamma(map[], functions), f.body, false) && functions.Keys <= known
    ensures EmitFunction(known, f).Ok? <==>
            EmittableSeq(f.body)
            && AllDifferent(DeclaredNames(f.body))
  {
    SeqEmitted(known + {f.name}, START, Gamma(map[], functions), f.body, false);
    assert START.named.Keys == {};
    NewNamesDistinct(DeclaredNames(f.body), {});
  }
}
