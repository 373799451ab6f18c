/** The bidirectional type checker on values: expressions are inferred (possibly to a literal type)
    or checked against a concrete type, and each step returns the re-annotated tree. */
module Checking {
  import opened Results
  import opened Syntax
  import opened Integers

  // ----- types -----

  function TypeIdOf(name: string): TypeId {
    if name == "Bool" then TypeId.Bool
    else if name == "Int8" then Int8
    else if name == "Int16" then Int16
    else if name == "Int32" then Int32
    else if name == "Int64" then Int64
    else if name == "UInt8" then UInt8
    else if name == "UInt16" then UInt16
    else if name == "UInt32" then UInt32
    else if name == "UInt64" then UInt64
    else if name == "Float32" then Float32
    else if name == "Float64" then Float64
    else if name == "String" then TypeId.String
    else UserDefined
  }

  /** The names the parser and the checker accept as types. */
  predicate IsBuiltinType(name: string) {
    name in {"Int8", "Int16", "Int32", "Int64", "UInt8", "UInt16", "UInt32", "UInt64",
             "Float32", "Float64", "String", "Bool"}
  }

  /** The name under which a type is written. */
  function NameOf(t: TypeId): string
    requires !IsLiteral(t) && !t.UserDefined? && !t.Sentinel?
  {
    match t
    case Bool => "Bool"
    case Int8 => "Int8"
    case Int16 => "Int16"
    case Int32 => "Int32"
    case Int64 => "Int64"
    case UInt8 => "UInt8"
    case UInt16 => "UInt16"
    case UInt32 => "UInt32"
    case UInt64 => "UInt64"
    case Float32 => "Float32"
    case Float64 => "Float64"
    case String => "String"
  }

  /** A name is built in exactly when it names a type that can be written, and then it stands for it. */
  lemma BuiltinNames(name: string)
    ensures IsBuiltinType(name) <==> !TypeIdOf(name).UserDefined?
    ensures IsBuiltinType(name) ==>
              var t := TypeIdOf(name); !IsLiteral(t) && !t.Sentinel? && NameOf(t) == name
  {
  }

  const FLOAT32_EXACT := 0x100_0000
  const FLOAT64_EXACT := 0x20_0000_0000_0000

  /** Whether an integer literal fits a type without loss. */
  predicate IntFits(value: int, t: TypeId) {
    if IsInteger(t) then InRange(t, value)
    else if t.Float32? then -FLOAT32_EXACT <= value <= FLOAT32_EXACT
    else if t.Float64? then -FLOAT64_EXACT <= value <= FLOAT64_EXACT
    else false
  }

  /** The integer literals of each type, in figures; no other type has any. */
  lemma LiteralLimits(n: int, t: TypeId)
    ensures IntFits(n, Int8) <==> -128 <= n <= 127
    ensures IntFits(n, Int16) <==> -32768 <= n <= 32767
    ensures IntFits(n, Int32) <==> -2147483648 <= n <= 2147483647
    ensures IntFits(n, Int64) <==> -9223372036854775808 <= n <= 9223372036854775807
    ensures IntFits(n, UInt8) <==> 0 <= n <= 255
    ensures IntFits(n, UInt16) <==> 0 <= n <= 65535
    ensures IntFits(n, UInt32) <==> 0 <= n <= 4294967295
    ensures IntFits(n, UInt64) <==> 0 <= n <= 18446744073709551615
    ensures IntFits(n, Float32) <==> -16777216 <= n <= 16777216
    ensures IntFits(n, Float64) <==> -9007199254740992 <= n <= 9007199254740992
    ensures IntFits(n, t) ==> IsInteger(t) || IsFloat(t)
  {
  }

  function LiteralDefault(t: TypeId): Result<TypeId> {
    match t
    case LiteralInt => Ok(Int32)
    case LiteralFloat => Ok(Float64)
    case _ => Err(NoLiteralDefault)
  }

  /** The table of pairs in which a literal type takes part: a literal adapts to a concrete type of
      its kind, an integer literal also to a float, and two literals to the wider kind. */
  function Promotion(l: TypeId, r: TypeId): Option<TypeId> {
    if l.LiteralInt? then
      (if IsInteger(r) || IsFloat(r) || IsLiteral(r) then Some(r) else None)
    else if l.LiteralFloat? then
      (if IsFloat(r) then Some(r) else if IsLiteral(r) then Some(LiteralFloat) else None)
    else if r.LiteralInt? then
      (if IsInteger(l) || IsFloat(l) then Some(l) else None)
    else if r.LiteralFloat? then
      (if IsFloat(l) then Some(l) else None)
    else None
  }

  // ----- scopes -----

  type Scopes = seq<map<string, TypeId>>

  /** Lookup from the outermost scope inwards, as the original searches. */
  function Find(scopes: Scopes, name: string): Option<TypeId>
    decreases scopes
  {
    if scopes == [] then None
    else if name in scopes[0] then Some(scopes[0][name])
    else Find(scopes[1..], name)
  }

  /** What an expression is checked against.  Whether a float literal fits a float type is a
      parameter, since it depends on binary floating point. */
  datatype Context = Context(scopes: Scopes, functions: map<string, TypeId>,
                             floatFits: (string, TypeId) -> bool)

  function Size(e: Expr): nat {
    match e
    case Binary(_, l, r, _, _) => 1 + Size(l) + Size(r)
    case _ => 0
  }

  // ----- expressions -----

  function InferExpr(c: Context, e: Expr): (r: Result<(TypeId, Expr)>)
    ensures r.Ok? ==> Size(r.value.1) == Size(e)
    decreases Size(e), 0
  {
    match e
    case IntLit(value, _) => Ok((LiteralInt, IntLit(value, Some(LiteralInt))))
    case FloatLit(_, _) => Ok((LiteralFloat, e))
    case Var(name, _) =>
      var t := Find(c.scopes, name);
      if t.None? then Err(UndefinedVariable) else Ok((t.value, Var(name, t)))
    case Call(name) =>
      if name !in c.functions then Err(UndefinedFunction) else Ok((c.functions[name], e))
    case Binary(op, lhs, rhs, _, _) =>
      var l :- InferExpr(c, lhs);
      var r :- InferExpr(c, rhs);
      var p :- ResolvePair(c, l, r);
      var q :- FixOperands(c, op, p);
      Ok((if IsBoolOperator(op) then TypeId.Bool else q.0,
          Binary(op, q.1, q.2, Some(q.0), Some(if IsBoolOperator(op) then TypeId.Bool else q.0))))
  }

  /** The common type of two inferred operands, pushed down onto a literal side if it is concrete. */
  function ResolvePair(c: Context, l: (TypeId, Expr), r: (TypeId, Expr)): (q: Result<(TypeId, Expr, Expr)>)
    ensures q.Ok? ==> Size(q.value.1) == Size(l.1) && Size(q.value.2) == Size(r.1)
    decreases Size(l.1) + Size(r.1), 2
  {
    if IsLiteral(l.0) || IsLiteral(r.0) then
      var found := Promotion(l.0, r.0);
      if found.None? then Err(IncompatibleOperands)
      else if IsLiteral(found.value) then Ok((found.value, l.1, r.1))
      else if IsLiteral(l.0) then
        var l' :- CheckExpr(c, l.1, found.value);
        Ok((found.value, l', r.1))
      else
        var r' :- CheckExpr(c, r.1, found.value);
        Ok((found.value, l.1, r'))
    else if l.0 != r.0 then Err(TypeMismatch)
    else Ok((l.0, l.1, r.1))
  }

  /** A comparison offers no more context, so literal operands take their default type now. */
  function FixOperands(c: Context, op: TokenKind, p: (TypeId, Expr, Expr)): (q: Result<(TypeId, Expr, Expr)>)
    ensures q.Ok? ==> Size(q.value.1) == Size(p.1) && Size(q.value.2) == Size(p.2)
    decreases Size(p.1) + Size(p.2), 2
  {
    if IsBoolOperator(op) && IsLiteral(p.0) then
      var t :- LiteralDefault(p.0);
      var l :- CheckExpr(c, p.1, t);
      var r :- CheckExpr(c, p.2, t);
      Ok((t, l, r))
    else Ok(p)
  }

  function CheckExpr(c: Context, e: Expr, t: TypeId): (r: Result<Expr>)
    ensures r.Ok? ==> Size(r.value) == Size(e)
    decreases Size(e), 1
  {
    match e
    case IntLit(value, _) =>
      if !(IsInteger(t) || IsFloat(t)) then Err(LiteralMismatch)
      else if !IntFits(value, t) then Err(LiteralOutOfRange)
      else Ok(IntLit(value, Some(t)))
    case FloatLit(digits, _) =>
      if !IsFloat(t) then Err(LiteralMismatch)
      else if !c.floatFits(digits, t) then Err(LiteralOutOfRange)
      else Ok(FloatLit(digits, Some(t)))
    case Var(name, _) =>
      var found := Find(c.scopes, name);
      if found.None? then Err(UndefinedVariable)
      else if found.value != t then Err(TypeMismatch)
      else Ok(Var(name, Some(t)))
    case Call(name) =>
      if name !in c.functions then Err(UndefinedFunction)
      else if c.functions[name] != t then Err(TypeMismatch)
      else Ok(e)
    case Binary(op, lhs, rhs, _, _) =>
      if IsBoolOperator(op) then
        // the expected type plays no part
        var i :- InferExpr(c, e);
        Ok(i.1)
      else
        var l :- CheckExpr(c, lhs, t);
        var r :- CheckExpr(c, rhs, t);
        Ok(Binary(op, l, r, Some(t), Some(t)))
  }

  /** How an operator node is inferred from its operands. */
  lemma BinaryInferred(c: Context, e: Expr)
    requires e.Binary?
    ensures var l, r, i := InferExpr(c, e.lhs), InferExpr(c, e.rhs), InferExpr(c, e);
            if l.Err? then i == Err(l.error)
            else if r.Err? then i == Err(r.error)
            else
              var p := ResolvePair(c, l.value, r.value);
              if p.Err? then i == Err(p.error)
              else
                var q := FixOperands(c, e.op, p.value);
                if q.Err? then i == Err(q.error)
                else
                  var t := if IsBoolOperator(e.op) then TypeId.Bool else q.value.0;
                  i == Ok((t, Binary(e.op, q.value.1, q.value.2, Some(q.value.0), Some(t))))
  {
    hide ResolvePair, FixOperands;
  }

  /** How an operator node is checked. */
  lemma BinaryChecked(c: Context, e: Expr, t: TypeId)
    requires e.Binary?
    ensures var l, r, i := CheckExpr(c, e.lhs, t), CheckExpr(c, e.rhs, t), InferExpr(c, e);
            CheckExpr(c, e, t) ==
            if IsBoolOperator(e.op) then (if i.Err? then Err(i.error) else Ok(i.value.1))
            else if l.Err? then l
            else if r.Err? then r
            else Ok(Binary(e.op, l.value, r.value, Some(t), Some(t)))
  {
    hide InferExpr;
  }

  /** Infer, and settle a literal type by its default. */
  function InferTopLevel(c: Context, e: Expr): Result<(TypeId, Expr)> {
    var i :- InferExpr(c, e);
    if IsLiteral(i.0) then
      var t :- LiteralDefault(i.0);
      var e' :- CheckExpr(c, i.1, t);
      Ok((t, e'))
    else Ok(i)
  }

  // ----- statements -----

  /** The checker's fields. */
  datatype State = State(scopes: Scopes, loopDepth: nat, functions: map<string, TypeId>,
                         floatFits: (string, TypeId) -> bool)
  {
    function Here(): Context {
      Context(scopes, functions, floatFits)
    }

    function Push(): State {
      this.(scopes := scopes + [map[]])
    }

    function Pop(): State
      requires scopes != []
    {
      this.(scopes := scopes[..|scopes| - 1])
    }

    function Store(name: string, t: TypeId): State
      requires scopes != []
    {
      var last := |scopes| - 1;
      this.(scopes := scopes[last := scopes[last][name := t]])
    }
  }

  function CheckStmt(st: State, s: Stmt): (r: Result<(State, Stmt)>)
    requires st.scopes != []
    ensures r.Ok? ==> |r.value.0.scopes| == |st.scopes| && r.value.0.loopDepth == st.loopDepth
    decreases s
  {
    match s
    case DeclStmt(name, typeName, value, _) =>
      if Find(st.scopes, name).Some? then Err(Redeclaration)
      else if typeName.Some? then
        if !IsBuiltinType(typeName.value) then Err(UnknownTypeName)
        else
          var t := TypeIdOf(typeName.value);
          var v :- CheckExpr(st.Here(), value, t);
          Ok((st.Store(name, t), DeclStmt(name, typeName, v, Some(t))))
      else
        var i :- InferTopLevel(st.Here(), value);
        Ok((st.Store(name, i.0), DeclStmt(name, typeName, i.1, Some(i.0))))
    case AssignStmt(name, value) =>
      var found := Find(st.scopes, name);
      if found.None? then Err(UndefinedVariable)
      else
        var v :- CheckExpr(st.Here(), value, found.value);
        Ok((st, AssignStmt(name, v)))
    case ShowStmt(expr, _) =>
      var i :- InferTopLevel(st.Here(), expr);
      Ok((st, ShowStmt(i.1, Some(i.0))))
    case ReturnStmt(expr, _) =>
      var i :- InferTopLevel(st.Here(), expr);
      Ok((st, ReturnStmt(i.1, Some(i.0))))
    case IfStmt(link) =>
      var l :- CheckLink(st, link);
      Ok((l.0, IfStmt(l.1)))
    case LoopStmt(body) =>
      var b :- CheckBlock(st.(loopDepth := st.loopDepth + 1), body);
      Ok((b.0.(loopDepth := b.0.loopDepth - 1), LoopStmt(b.1)))
    case BreakStmt => if st.loopDepth == 0 then Err(JumpOutsideLoop) else Ok((st, s))
    case CycleStmt => if st.loopDepth == 0 then Err(JumpOutsideLoop) else Ok((st, s))
  }

  function CheckLink(st: State, link: IfLink): (r: Result<(State, IfLink)>)
    requires st.scopes != []
    ensures r.Ok? ==> |r.value.0.scopes| == |st.scopes| && r.value.0.loopDepth == st.loopDepth
    decreases link
  {
    var cond :- CheckExpr(st.Here(), link.cond, TypeId.Bool);
    var thn :- CheckBlock(st, link.thn);
    match link.els
    case NoElse => Ok((thn.0, IfLink(cond, thn.1, NoElse)))
    case ElseBlock(stmts) =>
      var els :- CheckBlock(thn.0, stmts);
      Ok((els.0, IfLink(cond, thn.1, ElseBlock(els.1))))
    case ElseIfLink(next) =>
      var els :- CheckLink(thn.0, next);
      Ok((els.0, IfLink(cond, thn.1, ElseIfLink(els.1))))
  }

  function CheckBlock(st: State, stmts: seq<Stmt>): (r: Result<(State, seq<Stmt>)>)
    ensures r.Ok? ==> |r.value.0.scopes| == |st.scopes| && r.value.0.loopDepth == st.loopDepth
    decreases stmts, 1
  {
    var b :- CheckSeq(st.Push(), stmts);
    Ok((b.0.Pop(), b.1))
  }

  function CheckSeq(st: State, stmts: seq<Stmt>): (r: Result<(State, seq<Stmt>)>)
    requires st.scopes != []
    ensures r.Ok? ==> |r.value.0.scopes| == |st.scopes| && r.value.0.loopDepth == st.loopDepth
    decreases stmts, 0
  {
    if stmts == [] then Ok((st, []))
    else
      var s :- CheckStmt(st, stmts[0]);
      var rest :- CheckSeq(s.0, stmts[1..]);
      Ok((rest.0, [s.1] + rest.1))
  }

  // ----- functions and programs -----

  function CheckFunction(st: State, f: FunctionDecl): Result<(State, FunctionDecl)> {
    var b :- CheckBlock(st, f.body);
    Ok((b.0.(functions := b.0.functions[f.name := Int32]), FunctionDecl(f.name, b.1)))
  }

  /** Every function in turn.  After each one the original pops a scope it never pushed. */
  function CheckProgram(st: State, fns: seq<FunctionDecl>): Result<(State, seq<FunctionDecl>)>
    decreases fns
  {
    if fns == [] then Ok((st, []))
    else
      var f :- CheckFunction(st, fns[0]);
      if f.0.scopes == [] then Err(EmptyScopeStack)
      else
        var rest :- CheckProgram(f.0.Pop(), fns[1..]);
        Ok((rest.0, [f.1] + rest.1))
  }

  /** Every function in turn with the extra pop left out. */
  function CheckFunctions(st: State, fns: seq<FunctionDecl>): Result<(State, seq<FunctionDecl>)>
    decreases fns
  {
    if fns == [] then Ok((st, []))
    else
      var f :- CheckFunction(st, fns[0]);
      var rest :- CheckFunctions(f.0, fns[1..]);
      Ok((rest.0, [f.1] + rest.1))
  }

  function InitialState(floatFits: (string, TypeId) -> bool): State {
    State([map[]], 0, map[], floatFits)
  }
}
