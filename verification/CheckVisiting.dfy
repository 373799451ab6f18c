/** The type checker as it is written: a visitor with a scope stack, a loop depth and a function map that
    it updates in place, as it does the annotations of the nodes it visits.  Every visit does what the
    checking function says. */
module CheckVisiting {
  import opened Results
  import opened Syntax
  import opened Checking
  import opened Annotating

  class VariableScopeStack {
    var scopes: Scopes

    constructor ()
      ensures scopes == [map[]]
    {
      scopes := [map[]];
    }

    /** The search goes from the outermost scope inwards. */
    method Find(key: string) returns (r: Option<TypeId>)
      ensures r == Checking.Find(scopes, key)
    {
      for i := 0 to |scopes|
        invariant Checking.Find(scopes[i..], key) == Checking.Find(scopes, key)
      {
        if key in scopes[i] {
          return Some(scopes[i][key]);
        }
        assert scopes[i..][1..] == scopes[i + 1..];
      }
      return None;
    }

    method Push()
      modifies this
      ensures scopes == old(scopes) + [map[]]
    {
      scopes := scopes + [map[]];
    }

    method Pop()
      requires scopes != []
      modifies this
      ensures scopes == old(scopes)[..|old(scopes)| - 1]
    {
      scopes := scopes[..|scopes| - 1];
    }

    method Store(key: string, value: TypeId)
      requires scopes != []
      modifies this
      ensures |scopes| == |old(scopes)|
      ensures scopes == old(scopes)[|scopes| - 1 := old(scopes)[|scopes| - 1][key := value]]
    {
      var last := |scopes| - 1;
      scopes := scopes[last := scopes[last][key := value]];
    }
  }

  class TypeCheckVisitor {
    const floatFits: (string, TypeId) -> bool
    const variableScopeStack: VariableScopeStack
    var functionMap: map<string, TypeId>
    var loopDepth: nat

    ghost function Now(): State
      reads this, variableScopeStack
    {
      State(variableScopeStack.scopes, loopDepth, functionMap, floatFits)
    }

    function Here(): Context
      reads this, variableScopeStack
    {
      Context(variableScopeStack.scopes, functionMap, floatFits)
    }

    /** The original leaves the loop depth uninitialised; it has to start at 0. */
    constructor (floatFits: (string, TypeId) -> bool)
      ensures Now() == InitialState(floatFits) && fresh(variableScopeStack)
    {
      this.floatFits := floatFits;
      variableScopeStack := new VariableScopeStack();
      functionMap, loopDepth := map[], 0;
    }

    // ----- expressions -----

    /** Infer a type, possibly a literal one, and annotate the nodes with what is known so far. */
    method Infer(node: ExprNode) returns (r: Result<TypeId>)
      requires node.Valid()
      modifies node.nodes
      ensures Here() == old(Here())
      ensures match InferExpr(old(Here()), old(node.Tree()))
              case Ok((t, e)) => r == Ok(t) && node.Tree() == e
              case Err(error) => r == Err(error)
      decreases node.height, 0
    {
      match node.kind
      case IntNode(_) =>
        node.resolvedType := Some(LiteralInt);
        return Ok(LiteralInt);
      case FloatNode(_) => return Ok(LiteralFloat);
      case VarNode(name) =>
        var found := variableScopeStack.Find(name);
        if found.None? {
          return Err(UndefinedVariable);
        }
        node.resolvedType := found;
        return Ok(found.value);
      case CallNode(name) =>
        return if name in functionMap then Ok(functionMap[name]) else Err(UndefinedFunction);
      case BinaryNode(_, _, _) => r := InferBinary(node);
    }

    method InferBinary(node: ExprNode) returns (r: Result<TypeId>)
      requires node.Valid() && node.kind.BinaryNode?
      modifies node.nodes
      ensures Here() == old(Here())
      ensures match InferExpr(old(Here()), old(node.Tree()))
              case Ok((t, e)) => r == Ok(t) && node.Tree() == e
              case Err(error) => r == Err(error)
      decreases node.height, 0, 0
    {
      hide InferExpr, CheckExpr, FixOperands, Promotion, ExprNode.Valid, ExprNode.Tree;
      node.Parts();
      BinaryInferred(Here(), node.Tree());
      var op, lhs, rhs := node.kind.op, node.kind.lhs, node.kind.rhs;
      var left :- Infer(lhs);
      var right :- Infer(rhs);
      var operand := left;
      if IsLiteral(left) || IsLiteral(right) {
        operand :- ResolveLiteralPair(lhs, rhs, left, right);
      } else if left != right {
        return Err(TypeMismatch);
      }
      operand :- SettleOperands(op, lhs, rhs, operand);
      var resolved := if IsBoolOperator(op) then TypeId.Bool else operand;
      node.operandType, node.resolvedType := Some(operand), Some(resolved);
      node.Parts();
      return Ok(resolved);
    }

    /** Above a comparison there is no further context, so literal operands take their default now. */
    method SettleOperands(op: TokenKind, lhs: ExprNode, rhs: ExprNode, operand: TypeId) returns (r: Result<TypeId>)
      requires lhs.Valid() && rhs.Valid() && lhs.nodes !! rhs.nodes
      modifies lhs.nodes, rhs.nodes
      ensures Here() == old(Here())
      ensures match FixOperands(old(Here()), op, (operand, old(lhs.Tree()), old(rhs.Tree())))
              case Ok((t, l, r')) => r == Ok(t) && lhs.Tree() == l && rhs.Tree() == r'
              case Err(error) => r == Err(error)
      decreases if lhs.height > rhs.height then lhs.height else rhs.height, 2
    {
      hide CheckExpr, ExprNode.Valid, ExprNode.Tree;
      if IsBoolOperator(op) && IsLiteral(operand) {
        var t :- LiteralDefault(operand);
        var _ :- Check(lhs, t);
        var _ :- Check(rhs, t);
        return Ok(t);
      }
      return Ok(operand);
    }

    /** Two operands, one of them still a literal: what they become together.  A concrete type is pushed
        down into the literal side. */
    method ResolveLiteralPair(lhs: ExprNode, rhs: ExprNode, left: TypeId, right: TypeId) returns (r: Result<TypeId>)
      requires lhs.Valid() && rhs.Valid() && lhs.nodes !! rhs.nodes
      requires IsLiteral(left) || IsLiteral(right)
      modifies lhs.nodes, rhs.nodes
      ensures Here() == old(Here())
      ensures match ResolvePair(old(Here()), (left, old(lhs.Tree())), (right, old(rhs.Tree())))
              case Ok((t, l, r')) => r == Ok(t) && lhs.Tree() == l && rhs.Tree() == r'
              case Err(error) => r == Err(error)
      decreases if lhs.height > rhs.height then lhs.height else rhs.height, 2
    {
      hide CheckExpr, Promotion, ExprNode.Valid, ExprNode.Tree;
      var found := Promotion(left, right);
      if found.None? {
        return Err(IncompatibleOperands);
      }
      if !IsLiteral(found.value) {
        if IsLiteral(left) {
          var _ :- Check(lhs, found.value);
        } else {
          var _ :- Check(rhs, found.value);
        }
      }
      return Ok(found.value);
    }

    /** Check against an expected type, overwriting the annotations of everything on the way. */
    method Check(node: ExprNode, expected: TypeId) returns (r: Result<()>)
      requires node.Valid()
      modifies node.nodes
      ensures Here() == old(Here())
      ensures match CheckExpr(old(Here()), old(node.Tree()), expected)
              case Ok(e) => r.Ok? && node.Tree() == e
              case Err(error) => r == Err(error)
      decreases node.height, 1
    {
      match node.kind
      case IntNode(value) =>
        if !(IsInteger(expected) || IsFloat(expected)) {
          return Err(LiteralMismatch);
        }
        if !IntFits(value, expected) {
          return Err(LiteralOutOfRange);
        }
        node.resolvedType := Some(expected);
        return Ok(());
      case FloatNode(digits) =>
        if !IsFloat(expected) {
          return Err(LiteralMismatch);
        }
        if !floatFits(digits, expected) {
          return Err(LiteralOutOfRange);
        }
        node.resolvedType := Some(expected);
        return Ok(());
      case VarNode(name) =>
        var found := variableScopeStack.Find(name);
        if found.None? {
          return Err(UndefinedVariable);
        }
        if found.value != expected {
          return Err(TypeMismatch);
        }
        node.resolvedType := Some(expected);
        return Ok(());
      case CallNode(name) =>
        return if name !in functionMap then Err(UndefinedFunction)
               else if functionMap[name] != expected then Err(TypeMismatch) else Ok(());
      case BinaryNode(_, _, _) =>
        r := CheckBinary(node, expected);
    }

    method CheckBinary(node: ExprNode, expected: TypeId) returns (r: Result<()>)
      requires node.Valid() && node.kind.BinaryNode?
      modifies node.nodes
      ensures Here() == old(Here())
      ensures match CheckExpr(old(Here()), old(node.Tree()), expected)
              case Ok(e) => r.Ok? && node.Tree() == e
              case Err(error) => r == Err(error)
      decreases node.height, 1, 0
    {
      hide InferExpr, CheckExpr, ExprNode.Valid, ExprNode.Tree, IsBoolOperator;
      node.Parts();
      BinaryChecked(Here(), node.Tree(), expected);
      if IsBoolOperator(node.kind.op) {
        var _ :- InferBinary(node);
        return Ok(());
      }
      node.resolvedType, node.operandType := Some(expected), Some(expected);
      var _ :- Check(node.kind.lhs, expected);
      var _ :- Check(node.kind.rhs, expected);
      node.Parts();
      return Ok(());
    }

    /** Infer, and push the default of a literal type back down. */
    method InferTop(node: ExprNode) returns (r: Result<TypeId>)
      requires node.Valid()
      modifies node.nodes
      ensures Here() == old(Here())
      ensures match InferTopLevel(old(Here()), old(node.Tree()))
              case Ok((t, e)) => r == Ok(t) && node.Tree() == e
              case Err(error) => r == Err(error)
    {
      var t :- Infer(node);
      if IsLiteral(t) {
        t :- LiteralDefault(t);
        var _ :- Check(node, t);
      }
      return Ok(t);
    }

    // ----- statements -----

    /** The syntax tree shares nothing with the visitor. */
    ghost predicate Apart(objects: set<object>) {
      this !in objects && variableScopeStack !in objects
    }

    method VisitVarDecl(node: StmtNode) returns (r: Result<()>)
      requires node.Valid() && node.kind.DeclNode? && Apart(node.objects) && Now().scopes != []
      modifies variableScopeStack, node.objects
      ensures match CheckStmt(old(Now()), old(node.Tree()))
              case Ok((st, s)) => r.Ok? && Now() == st && node.Tree() == s
              case Err(error) => r == Err(error)
    {
      hide CheckExpr, InferTopLevel, IsBuiltinType, TypeIdOf, ExprNode.Valid, ExprNode.Tree, StmtNode.Valid,
           StmtNode.Tree;
      node.Parts();
      var name, typeName, value := node.kind.name, node.kind.typeName, node.kind.value;
      var found := variableScopeStack.Find(name);
      if found.Some? {
        return Err(Redeclaration);
      }
      var t;
      if typeName.Some? {
        if !IsBuiltinType(typeName.value) {
          return Err(UnknownTypeName);
        }
        t := TypeIdOf(typeName.value);
        node.annotation := Some(t);
        var _ :- Check(value, t);
      } else {
        t :- InferTop(value);
        node.annotation := Some(t);
      }
      variableScopeStack.Store(name, t);
      node.Parts();
      return Ok(());
    }

    method VisitVarAssign(node: StmtNode) returns (r: Result<()>)
      requires node.Valid() && node.kind.AssignNode? && Apart(node.objects) && Now().scopes != []
      modifies node.objects
      ensures Now() == old(Now())
      ensures match CheckStmt(old(Now()), old(node.Tree()))
              case Ok((st, s)) => r.Ok? && Now() == st && node.Tree() == s
              case Err(error) => r == Err(error)
    {
      hide CheckExpr, ExprNode.Valid, ExprNode.Tree, StmtNode.Valid, StmtNode.Tree;
      node.Parts();
      var found := variableScopeStack.Find(node.kind.name);
      if found.None? {
        return Err(UndefinedVariable);
      }
      var _ :- Check(node.kind.value, found.value);
      node.Parts();
      return Ok(());
    }

    method VisitStmt(node: StmtNode) returns (r: Result<()>)
      requires node.Valid() && Apart(node.objects) && Now().scopes != []
      modifies this, variableScopeStack, node.objects
      ensures match CheckStmt(old(Now()), old(node.Tree()))
              case Ok((st, s)) => r.Ok? && Now() == st && node.Tree() == s
              case Err(error) => r == Err(error)
      decreases node.height, 5
    {
      hide CheckExpr, InferTopLevel, ExprNode.Valid, ExprNode.Tree, StmtNode.Valid, StmtNode.Tree, BlockValid,
           BlockTree, BlockObjects;
      node.Parts();
      match node.kind
      case DeclNode(_, _, _) => r := VisitVarDecl(node);
      case AssignNode(_, _) => r := VisitVarAssign(node);
      case ShowNode(expr) =>
        var t :- InferTop(expr);
        node.annotation := Some(t);
        node.Parts();
        return Ok(());
      case ReturnNode(expr) =>
        var t :- InferTop(expr);
        node.annotation := Some(t);
        node.Parts();
        return Ok(());
      case IfNode(_, _, _) => r := VisitIf(node);
      case LoopNode(body) =>
        loopDepth := loopDepth + 1;
        var _ :- VisitBlock(body, node.height);
        loopDepth := loopDepth - 1;
        node.Parts();
        return Ok(());
      case BreakNode =>
        return if loopDepth == 0 then Err(JumpOutsideLoop) else Ok(());
      case CycleNode =>
        return if loopDepth == 0 then Err(JumpOutsideLoop) else Ok(());
    }

    method VisitIf(node: StmtNode) returns (r: Result<()>)
      requires node.Valid() && node.kind.IfNode? && Apart(node.objects) && Now().scopes != []
      modifies this, variableScopeStack, node.objects
      ensures match CheckStmt(old(Now()), old(node.Tree()))
              case Ok((st, s)) => r.Ok? && Now() == st && node.Tree() == s
              case Err(error) => r == Err(error)
      decreases node.height, 4
    {
      hide CheckExpr, CheckBlock, CheckLink, CheckElse, ExprNode.Valid, ExprNode.Tree, StmtNode.Valid, StmtNode.Tree,
           BlockValid, BlockTree, ElseValid, ElseTree;
      node.Parts();
      LinkInParts(Now(), node.Tree().link);
      var _ :- Check(node.kind.cond, TypeId.Bool);
      var _ :- VisitBlock(node.kind.thn, node.height);
      var _ :- VisitElse(node.kind.els, node.height);
      node.Parts();
      return Ok(());
    }

    method VisitElse(els: ElseNode, ghost h: nat) returns (r: Result<()>)
      requires ElseValid(els, h) && Apart(ElseObjects(els)) && Now().scopes != []
      modifies this, variableScopeStack, ElseObjects(els)
      ensures match CheckElse(old(Now()), old(ElseTree(els, h)))
              case Ok((st, e)) => r.Ok? && Now() == st && ElseTree(els, h) == e
              case Err(error) => r == Err(error)
      decreases h, 3
    {
      hide CheckLink, CheckBlock, StmtNode.Valid, StmtNode.Tree, BlockValid, BlockTree;
      match els
      case NoElseNode => return Ok(());
      case ElseBlockNode(stmts) => r := VisitBlock(stmts, h);
      case ElseIfNode(next) => r := VisitIf(next);
    }

    /** Visiting one statement of a block leaves the others as they are. */
    method VisitNext(stmts: seq<StmtNode>, ghost h: nat, i: nat) returns (r: Result<()>)
      requires BlockValid(stmts, h) && i < |stmts| && Apart(BlockObjects(stmts)) && Now().scopes != []
      modifies this, variableScopeStack, stmts[i].objects
      ensures match CheckStmt(old(Now()), old(BlockTree(stmts, h))[i])
              case Ok((st, s)) => r.Ok? && Now() == st && BlockTree(stmts, h) == old(BlockTree(stmts, h))[i := s]
              case Err(error) => r == Err(error)
      decreases h, 0
    {
      hide CheckStmt, StmtNode.Valid, StmtNode.Tree, BlockTree;
      ghost var before := BlockTree(stmts, h);
      var _ :- VisitStmt(stmts[i]);
      forall j | 0 <= j < |stmts| && j != i
        ensures stmts[j].Tree() == before[j]
      {
        assert stmts[j].objects !! stmts[i].objects;
      }
      return Ok(());
    }

    /** The loop over the statements of a block. */
    method VisitAll(stmts: seq<StmtNode>, ghost h: nat) returns (r: Result<()>)
      requires BlockValid(stmts, h) && Apart(BlockObjects(stmts)) && Now().scopes != []
      modifies this, variableScopeStack, BlockObjects(stmts)
      ensures match CheckSeq(old(Now()), old(BlockTree(stmts, h)))
              case Ok((st, ts)) => r.Ok? && Now() == st && BlockTree(stmts, h) == ts
              case Err(error) => r == Err(error)
      decreases h, 1
    {
      hide CheckStmt, CheckSeq, StmtNode.Valid, StmtNode.Tree, BlockValid, BlockTree, BlockObjects, Continues;
      ghost var whole := CheckSeq(Now(), BlockTree(stmts, h));
      NoneDone(whole, BlockTree(stmts, h), Now());
      for i := 0 to |stmts|
        invariant Now().scopes != [] && Continues(whole, BlockTree(stmts, h), i, Now())
      {
        InBlock(stmts, h, i);
        NextStep(whole, BlockTree(stmts, h), i, Now());
        var _ :- VisitNext(stmts, h, i);
      }
      NoneLeft(whole, BlockTree(stmts, h), Now());
      return Ok(());
    }

    method VisitBlock(stmts: seq<StmtNode>, ghost h: nat) returns (r: Result<()>)
      requires BlockValid(stmts, h) && Apart(BlockObjects(stmts))
      modifies this, variableScopeStack, BlockObjects(stmts)
      ensures match CheckBlock(old(Now()), old(BlockTree(stmts, h)))
              case Ok((st, ts)) => r.Ok? && Now() == st && BlockTree(stmts, h) == ts
              case Err(error) => r == Err(error)
      decreases h, 2
    {
      hide CheckSeq, StmtNode.Valid, StmtNode.Tree, BlockValid, BlockTree;
      variableScopeStack.Push();
      var _ :- VisitAll(stmts, h);
      variableScopeStack.Pop();
      return Ok(());
    }

    // ----- functions and programs -----

    method VisitFunction(f: FunctionNode, ghost h: nat) returns (r: Result<()>)
      requires BlockValid(f.body, h) && Apart(BlockObjects(f.body))
      modifies this, variableScopeStack, BlockObjects(f.body)
      ensures match CheckFunction(old(Now()), old(FunctionTree(f, h)))
              case Ok((st, f')) => r.Ok? && Now() == st && FunctionTree(f, h) == f'
              case Err(error) => r == Err(error)
    {
      var _ :- VisitBlock(f.body, h);
      functionMap := functionMap[f.name := Int32];
      return Ok(());
    }

    /** Popping an empty vector is undefined; the model stops there. */
    method VisitProgram(fns: seq<FunctionNode>, ghost h: nat) returns (r: Result<()>)
      requires ProgramValid(fns, h) && Apart(ProgramObjects(fns))
      modifies this, variableScopeStack, ProgramObjects(fns)
      ensures match CheckProgram(old(Now()), old(ProgramTree(fns, h)))
              case Ok((st, ts)) => r.Ok? && Now() == st && ProgramTree(fns, h) == ts
              case Err(error) => r == Err(error)
    {
      hide CheckFunction, BlockValid, BlockTree, FunctionTree, Follows, ProgramTree, ProgramValid;
      ghost var whole := CheckProgram(Now(), ProgramTree(fns, h));
      NoFunctionDone(whole, ProgramTree(fns, h), Now());
      for i := 0 to |fns|
        invariant Follows(whole, ProgramTree(fns, h), i, Now())
      {
        NextFunction(whole, ProgramTree(fns, h), i, Now());
        var _ :- VisitNextFunction(fns, h, i);
        if |variableScopeStack.scopes| == 0 {
          return Err(EmptyScopeStack);
        }
        ghost var ts := ProgramTree(fns, h);
        variableScopeStack.Pop();
        assert ProgramTree(fns, h) == ts;
      }
      NoFunctionLeft(whole, ProgramTree(fns, h), Now());
      return Ok(());
    }

    method VisitNextFunction(fns: seq<FunctionNode>, ghost h: nat, i: nat) returns (r: Result<()>)
      requires ProgramValid(fns, h) && i < |fns| && Apart(ProgramObjects(fns))
      modifies this, variableScopeStack, BlockObjects(fns[i].body)
      ensures match CheckFunction(old(Now()), old(ProgramTree(fns, h))[i])
              case Ok((st, f)) => r.Ok? && Now() == st && ProgramTree(fns, h) == old(ProgramTree(fns, h))[i := f]
              case Err(error) => r == Err(error)
    {
      hide CheckFunction, BlockValid, BlockTree, FunctionTree, ProgramTree;
      ghost var before := ProgramTree(fns, h);
      assert BlockObjects(fns[i].body) <= ProgramObjects(fns);
      var _ :- VisitFunction(fns[i], h);
      forall j | 0 <= j < |fns| && j != i
        ensures FunctionTree(fns[j], h) == before[j]
      {
        assert BlockObjects(fns[j].body) <= ProgramObjects(fns);
        assert BlockObjects(fns[j].body) !! BlockObjects(fns[i].body);
      }
      return Ok(());
    }
  }

  /** The else part of a link on its own. */
  function CheckElse(st: State, els: ElsePart): Result<(State, ElsePart)>
    requires st.scopes != []
  {
    match els
    case NoElse => Ok((st, NoElse))
    case ElseBlock(stmts) =>
      var b :- CheckBlock(st, stmts);
      Ok((b.0, ElseBlock(b.1)))
    case ElseIfLink(next) =>
      var l :- CheckLink(st, next);
      Ok((l.0, ElseIfLink(l.1)))
  }

  lemma LinkInParts(st: State, link: IfLink)
    requires st.scopes != []
    ensures var r, cond := CheckLink(st, link), CheckExpr(st.Here(), link.cond, TypeId.Bool);
            var thn := CheckBlock(st, link.thn);
            if cond.Err? then r == Err(cond.error)
            else if thn.Err? then r == Err(thn.error)
            else
              var els := CheckElse(thn.value.0, link.els);
              if els.Err? then r == Err(els.error)
              else r == Ok((els.value.0, IfLink(cond.value, thn.value.1, els.value.1)))
  {
    hide CheckExpr, CheckBlock;
  }

  /** Of the statements ts the first i are checked; the whole result is those, followed by the result for
      the rest. */
  ghost predicate Continues(whole: Result<(State, seq<Stmt>)>, ts: seq<Stmt>, i: nat, st: State)
    requires i <= |ts| && st.scopes != []
  {
    var rest := CheckSeq(st, ts[i..]);
    whole == if rest.Err? then rest else Ok((rest.value.0, ts[..i] + rest.value.1))
  }

  ghost predicate Follows(whole: Result<(State, seq<FunctionDecl>)>, ts: seq<FunctionDecl>, i: nat, st: State)
    requires i <= |ts|
  {
    var rest := CheckProgram(st, ts[i..]);
    whole == if rest.Err? then rest else Ok((rest.value.0, ts[..i] + rest.value.1))
  }

  lemma NoneDone(whole: Result<(State, seq<Stmt>)>, ts: seq<Stmt>, st: State)
    requires st.scopes != [] && whole == CheckSeq(st, ts)
    ensures Continues(whole, ts, 0, st)
  {
    hide CheckSeq;
    assert ts[0..] == ts && ts[..0] == [];
    assert whole.Ok? ==> [] + whole.value.1 == whole.value.1;
  }

  /** If the next statement fails so does the whole; otherwise it goes on with the state it leaves. */
  lemma NextStep(whole: Result<(State, seq<Stmt>)>, ts: seq<Stmt>, i: nat, st: State)
    requires i < |ts| && st.scopes != [] && Continues(whole, ts, i, st)
    ensures CheckStmt(st, ts[i]).Err? ==> whole == Err(CheckStmt(st, ts[i]).error)
    ensures CheckStmt(st, ts[i]).Ok? ==>
              var (st1, s) := CheckStmt(st, ts[i]).value; Continues(whole, ts[i := s], i + 1, st1)
  {
    hide CheckStmt;
    assert ts[i..][1..] == ts[i + 1..];
    if CheckStmt(st, ts[i]).Ok? {
      var (st1, s) := CheckStmt(st, ts[i]).value;
      assert ts[i := s][i + 1..] == ts[i + 1..] && ts[i := s][..i + 1] == ts[..i] + [s];
      var rest := CheckSeq(st1, ts[i + 1..]);
      assert rest.Ok? ==> ts[..i] + ([s] + rest.value.1) == ts[..i] + [s] + rest.value.1;
    }
  }

  lemma NoneLeft(whole: Result<(State, seq<Stmt>)>, ts: seq<Stmt>, st: State)
    requires st.scopes != [] && Continues(whole, ts, |ts|, st)
    ensures whole == Ok((st, ts))
  {
    assert ts[|ts|..] == [] && ts[..|ts|] + [] == ts;
  }

  lemma NoFunctionDone(whole: Result<(State, seq<FunctionDecl>)>, ts: seq<FunctionDecl>, st: State)
    requires whole == CheckProgram(st, ts)
    ensures Follows(whole, ts, 0, st)
  {
    hide CheckProgram;
    assert ts[0..] == ts && ts[..0] == [];
    assert whole.Ok? ==> [] + whole.value.1 == whole.value.1;
  }

  lemma NextFunction(whole: Result<(State, seq<FunctionDecl>)>, ts: seq<FunctionDecl>, i: nat, st: State)
    requires i < |ts| && Follows(whole, ts, i, st)
    ensures CheckFunction(st, ts[i]).Err? ==> whole == Err(CheckFunction(st, ts[i]).error)
    ensures CheckFunction(st, ts[i]).Ok? ==>
              var (st1, f) := CheckFunction(st, ts[i]).value;
              if st1.scopes == [] then whole == Err(EmptyScopeStack)
              else Follows(whole, ts[i := f], i + 1, st1.Pop())
  {
    hide CheckFunction;
    assert ts[i..][1..] == ts[i + 1..];
    if CheckFunction(st, ts[i]).Ok? && CheckFunction(st, ts[i]).value.0.scopes != [] {
      var (st1, f) := CheckFunction(st, ts[i]).value;
      assert ts[i := f][i + 1..] == ts[i + 1..] && ts[i := f][..i + 1] == ts[..i] + [f];
      var rest := CheckProgram(st1.Pop(), ts[i + 1..]);
      assert rest.Ok? ==> ts[..i] + ([f] + rest.value.1) == ts[..i] + [f] + rest.value.1;
    }
  }

  lemma NoFunctionLeft(whole: Result<(State, seq<FunctionDecl>)>, ts: seq<FunctionDecl>, st: State)
    requires Follows(whole, ts, |ts|, st)
    ensures whole == Ok((st, ts))
  {
    assert ts[|ts|..] == [] && ts[..|ts|] + [] == ts;
  }
}
