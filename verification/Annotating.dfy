/** Syntax tree nodes as the checker meets them: the shape is fixed by the parser, the annotations are
    written, and overwritten, in place. */
module Annotating {
  import opened Results
  import opened Syntax

  datatype NodeKind =
    | IntNode(value: int)
    | FloatNode(digits: string)
    | VarNode(name: string)
    | CallNode(name: string)
    | BinaryNode(op: TokenKind, lhs: ExprNode, rhs: ExprNode)

  class ExprNode {
    const kind: NodeKind
    var operandType: Option<TypeId>
    var resolvedType: Option<TypeId>
    ghost const nodes: set<ExprNode> // this node and all below it
    ghost const height: nat

    /** A proper tree: no node is below itself or below two others. */
    ghost predicate Valid()
      decreases height
    {
      match kind
      case BinaryNode(_, lhs, rhs) =>
        && lhs.height < height && rhs.height < height && lhs.Valid() && rhs.Valid()
        && lhs.nodes !! rhs.nodes && this !in lhs.nodes && this !in rhs.nodes
        && nodes == {this} + lhs.nodes + rhs.nodes
      case _ => nodes == {this}
    }

    /** The annotated tree these nodes hold at present. */
    function Tree(): Expr
      requires Valid()
      reads nodes
      decreases height
    {
      match kind
      case IntNode(value) => IntLit(value, resolvedType)
      case FloatNode(digits) => FloatLit(digits, resolvedType)
      case VarNode(name) => Var(name, resolvedType)
      case CallNode(name) => Call(name)
      case BinaryNode(op, lhs, rhs) => Binary(op, lhs.Tree(), rhs.Tree(), operandType, resolvedType)
    }

    /** The tree of an operator node, in terms of its operands. */
    lemma Parts()
      requires Valid() && kind.BinaryNode?
      ensures var lhs, rhs := kind.lhs, kind.rhs;
              && lhs.height < height && rhs.height < height && lhs.Valid() && rhs.Valid()
              && lhs.nodes !! rhs.nodes && this !in lhs.nodes && this !in rhs.nodes
              && nodes == {this} + lhs.nodes + rhs.nodes
              && Tree() == Binary(kind.op, lhs.Tree(), rhs.Tree(), operandType, resolvedType)
    {
    }

    constructor (kind: NodeKind, operandType: Option<TypeId>, resolvedType: Option<TypeId>)
      requires kind.BinaryNode? ==> kind.lhs.Valid() && kind.rhs.Valid() && kind.lhs.nodes !! kind.rhs.nodes
      ensures Valid() && this.kind == kind
      ensures this.operandType == operandType && this.resolvedType == resolvedType
      ensures nodes == if kind.BinaryNode? then {this} + kind.lhs.nodes + kind.rhs.nodes else {this}
    {
      this.kind, this.operandType, this.resolvedType := kind, operandType, resolvedType;
      nodes := if kind.BinaryNode? then {this} + kind.lhs.nodes + kind.rhs.nodes else {this};
      height := if kind.BinaryNode? then kind.lhs.height + kind.rhs.height + 1 else 0;
    }
  }

  /** The nodes of a tree, as the parser allocates them. */
  method NodesOf(e: Expr) returns (node: ExprNode)
    ensures node.Valid() && fresh(node.nodes) && node.Tree() == e
    decreases e
  {
    match e
    case IntLit(value, resolved) => node := new ExprNode(IntNode(value), None, resolved);
    case FloatLit(digits, resolved) => node := new ExprNode(FloatNode(digits), None, resolved);
    case Var(name, resolved) => node := new ExprNode(VarNode(name), None, resolved);
    case Call(name) => node := new ExprNode(CallNode(name), None, None);
    case Binary(op, lhs, rhs, operand, resolved) =>
      var l := NodesOf(lhs);
      var r := NodesOf(rhs);
      node := new ExprNode(BinaryNode(op, l, r), operand, resolved);
  }

  // ----- statements -----

  datatype StmtKind =
    | DeclNode(name: string, typeName: Option<string>, value: ExprNode)
    | AssignNode(name: string, value: ExprNode)
    | ShowNode(expr: ExprNode)
    | ReturnNode(expr: ExprNode)
    | IfNode(cond: ExprNode, thn: seq<StmtNode>, els: ElseNode)
    | LoopNode(body: seq<StmtNode>)
    | BreakNode
    | CycleNode

  /** An elseif is an if of its own in the else part. */
  datatype ElseNode = NoElseNode | ElseBlockNode(stmts: seq<StmtNode>) | ElseIfNode(next: StmtNode)

  datatype FunctionNode = FunctionNode(name: string, body: seq<StmtNode>)

  /** A statement; the annotation is the declared type of a declaration, the type of the expression of a
      show or return, and unused elsewhere. */
  class StmtNode {
    const kind: StmtKind
    var annotation: Option<TypeId>
    ghost const objects: set<object> // this node and all nodes below it
    ghost const height: nat

    /** What a node of this kind and height may have below it. */
    static ghost predicate Fits(kind: StmtKind, height: nat, below: set<object>)
      decreases height, 1
    {
      match kind
      case DeclNode(_, _, value) => value.Valid() && below == value.nodes
      case AssignNode(_, value) => value.Valid() && below == value.nodes
      case ShowNode(expr) => expr.Valid() && below == expr.nodes
      case ReturnNode(expr) => expr.Valid() && below == expr.nodes
      case IfNode(cond, thn, els) =>
        && cond.Valid() && BlockValid(thn, height) && ElseValid(els, height)
        && cond.nodes !! BlockObjects(thn) && cond.nodes !! ElseObjects(els) && BlockObjects(thn) !! ElseObjects(els)
        && below == cond.nodes + BlockObjects(thn) + ElseObjects(els)
      case LoopNode(body) => BlockValid(body, height) && below == BlockObjects(body)
      case BreakNode => below == {}
      case CycleNode => below == {}
    }

    ghost predicate Valid()
      decreases height, 2
    {
      this in objects && Fits(kind, height, objects - {this})
    }

    /** The annotated statement held at present. */
    function Tree(): (s: Stmt)
      requires Valid()
      reads objects
      ensures kind.IfNode? <==> s.IfStmt?
      decreases height, 2
    {
      assert Fits(kind, height, objects - {this});
      match kind
      case DeclNode(name, typeName, value) => DeclStmt(name, typeName, value.Tree(), annotation)
      case AssignNode(name, value) => AssignStmt(name, value.Tree())
      case ShowNode(expr) => ShowStmt(expr.Tree(), annotation)
      case ReturnNode(expr) => ReturnStmt(expr.Tree(), annotation)
      case IfNode(cond, thn, els) => IfStmt(IfLink(cond.Tree(), BlockTree(thn, height), ElseTree(els, height)))
      case LoopNode(body) => LoopStmt(BlockTree(body, height))
      case BreakNode => BreakStmt
      case CycleNode => CycleStmt
    }

    /** The statement of a node, in terms of what is below it. */
    lemma Parts()
      requires Valid()
      ensures this in objects && Fits(kind, height, objects - {this})
      ensures match kind
              case DeclNode(name, typeName, value) => Tree() == DeclStmt(name, typeName, value.Tree(), annotation)
              case AssignNode(name, value) => Tree() == AssignStmt(name, value.Tree())
              case ShowNode(expr) => Tree() == ShowStmt(expr.Tree(), annotation)
              case ReturnNode(expr) => Tree() == ReturnStmt(expr.Tree(), annotation)
              case IfNode(cond, thn, els) =>
                Tree() == IfStmt(IfLink(cond.Tree(), BlockTree(thn, height), ElseTree(els, height)))
              case LoopNode(body) => Tree() == LoopStmt(BlockTree(body, height))
              case BreakNode => Tree() == BreakStmt
              case CycleNode => Tree() == CycleStmt
    {
    }

    constructor (kind: StmtKind, annotation: Option<TypeId>, ghost height: nat, ghost below: set<object>)
      requires Fits(kind, height, below)
      ensures Valid() && this.kind == kind && this.annotation == annotation
      ensures this.height == height && objects == {this} + below && this !in below
    {
      this.kind, this.annotation := kind, annotation;
      objects := {this} + below;
      this.height := height;
      new;
      assert objects - {this} == below;
    }
  }

  /** Statements lower than h that share no node. */
  ghost predicate BlockValid(stmts: seq<StmtNode>, h: nat)
    decreases h, 0, stmts
  {
    && (forall i | 0 <= i < |stmts| :: stmts[i].height < h && stmts[i].Valid())
    && (forall i, j | 0 <= i < j < |stmts| :: stmts[i].objects !! stmts[j].objects)
  }

  ghost function BlockObjects(stmts: seq<StmtNode>): set<object> {
    set i, o | 0 <= i < |stmts| && o in stmts[i].objects :: o
  }

  function BlockTree(stmts: seq<StmtNode>, ghost h: nat): (r: seq<Stmt>)
    requires BlockValid(stmts, h)
    reads BlockObjects(stmts)
    ensures |r| == |stmts| && forall i | 0 <= i < |stmts| :: r[i] == stmts[i].Tree()
    decreases h, 0, stmts
  {
    if stmts == [] then [] else [stmts[0].Tree()] + BlockTree(stmts[1..], h)
  }

  /** A statement of a block: valid, lower, and among the objects of the block. */
  lemma InBlock(stmts: seq<StmtNode>, h: nat, i: nat)
    requires BlockValid(stmts, h) && i < |stmts|
    ensures stmts[i].Valid() && stmts[i].height < h && stmts[i].objects <= BlockObjects(stmts)
    ensures BlockTree(stmts, h)[i] == stmts[i].Tree()
  {
  }

  ghost predicate ElseValid(els: ElseNode, h: nat)
    decreases h, 0, els
  {
    match els
    case NoElseNode => true
    case ElseBlockNode(stmts) => BlockValid(stmts, h)
    case ElseIfNode(next) => next.kind.IfNode? && next.height < h && next.Valid()
  }

  ghost function ElseObjects(els: ElseNode): set<object> {
    match els
    case NoElseNode => {}
    case ElseBlockNode(stmts) => BlockObjects(stmts)
    case ElseIfNode(next) => next.objects
  }

  function ElseTree(els: ElseNode, ghost h: nat): ElsePart
    requires ElseValid(els, h)
    reads ElseObjects(els)
    decreases h, 0, els
  {
    match els
    case NoElseNode => NoElse
    case ElseBlockNode(stmts) => ElseBlock(BlockTree(stmts, h))
    case ElseIfNode(next) => ElseIfLink(next.Tree().link)
  }

  /** Any greater height will do, and the tree stays the same. */
  lemma BlockHigher(stmts: seq<StmtNode>, h: nat, h': nat)
    requires BlockValid(stmts, h) && h <= h'
    ensures BlockValid(stmts, h') && BlockTree(stmts, h') == BlockTree(stmts, h)
  {
  }

  lemma AddNode(nodes: seq<StmtNode>, node: StmtNode, h: nat)
    requires BlockValid(nodes, h) && node.Valid() && node.height < h && node.objects !! BlockObjects(nodes)
    ensures BlockValid(nodes + [node], h)
    ensures BlockObjects(nodes + [node]) == BlockObjects(nodes) + node.objects
    ensures BlockTree(nodes + [node], h) == BlockTree(nodes, h) + [node.Tree()]
  {
    hide StmtNode.Valid, StmtNode.Tree, BlockTree;
    var all := nodes + [node];
    assert forall i | 0 <= i < |nodes| :: all[i] == nodes[i] && nodes[i].objects <= BlockObjects(nodes);
    assert all[|nodes|] == node;
    forall o | o in BlockObjects(nodes) + node.objects
      ensures o in BlockObjects(all)
    {
      if o in BlockObjects(nodes) {
        var i :| 0 <= i < |nodes| && o in nodes[i].objects;
        assert o in all[i].objects;
      } else {
        assert o in all[|nodes|].objects;
      }
    }
  }

  /** The nodes of a statement, as the parser allocates them. */
  method StatementOf(s: Stmt) returns (node: StmtNode)
    ensures node.Valid() && fresh(node.objects) && node.Tree() == s
    decreases s
  {
    hide ExprNode.Valid, ExprNode.Tree, BlockValid, BlockTree, BlockObjects;
    match s
    case DeclStmt(name, typeName, value, declared) =>
      var v := NodesOf(value);
      node := new StmtNode(DeclNode(name, typeName, v), declared, 0, v.nodes);
    case AssignStmt(name, value) =>
      var v := NodesOf(value);
      node := new StmtNode(AssignNode(name, v), None, 0, v.nodes);
    case ShowStmt(expr, exprType) =>
      var e := NodesOf(expr);
      node := new StmtNode(ShowNode(e), exprType, 0, e.nodes);
    case ReturnStmt(expr, exprType) =>
      var e := NodesOf(expr);
      node := new StmtNode(ReturnNode(e), exprType, 0, e.nodes);
    case IfStmt(link) =>
      node := IfOf(link);
    case LoopStmt(body) =>
      var b, h := BlockOf(body);
      node := new StmtNode(LoopNode(b), None, h, BlockObjects(b));
    case BreakStmt => node := new StmtNode(BreakNode, None, 0, {});
    case CycleStmt => node := new StmtNode(CycleNode, None, 0, {});
  }

  method IfOf(link: IfLink) returns (node: StmtNode)
    ensures node.Valid() && fresh(node.objects) && node.Tree() == IfStmt(link)
    decreases link
  {
    hide ExprNode.Valid, ExprNode.Tree, BlockValid, BlockTree, ElseValid, ElseTree;
    var cond := NodesOf(link.cond);
    var thn, h1 := BlockOf(link.thn);
    var els, h := ElseOf(link.els, h1);
    BlockHigher(thn, h1, h);
    node := new StmtNode(IfNode(cond, thn, els), None, h, cond.nodes + BlockObjects(thn) + ElseObjects(els));
  }

  method ElseOf(els: ElsePart, ghost least: nat) returns (node: ElseNode, ghost h: nat)
    ensures h >= least && ElseValid(node, h) && fresh(ElseObjects(node)) && ElseTree(node, h) == els
    decreases els
  {
    hide BlockValid, BlockTree, BlockObjects, StmtNode.Valid, StmtNode.Tree;
    match els
    case NoElse => node, h := NoElseNode, least;
    case ElseBlock(stmts) =>
      var b, h1 := BlockOf(stmts);
      BlockHigher(b, h1, h1 + least);
      node, h := ElseBlockNode(b), h1 + least;
    case ElseIfLink(next) =>
      var n := IfOf(next);
      node, h := ElseIfNode(n), n.height + least + 1;
  }

  method BlockOf(stmts: seq<Stmt>) returns (nodes: seq<StmtNode>, ghost h: nat)
    ensures BlockValid(nodes, h) && fresh(BlockObjects(nodes)) && BlockTree(nodes, h) == stmts
    decreases stmts
  {
    hide ExprNode.Valid, ExprNode.Tree, StmtNode.Valid, StmtNode.Tree, BlockTree;
    nodes, h := [], 0;
    for i := 0 to |stmts|
      invariant BlockValid(nodes, h) && fresh(BlockObjects(nodes)) && BlockTree(nodes, h) == stmts[..i]
    {
      var node := StatementOf(stmts[i]);
      BlockHigher(nodes, h, h + node.height + 1);
      h := h + node.height + 1;
      AddNode(nodes, node, h);
      nodes := nodes + [node];
      assert stmts[..i + 1] == stmts[..i] + [stmts[i]];
    }
    assert stmts[..|stmts|] == stmts;
  }

  // ----- programs -----

  ghost predicate ProgramValid(fns: seq<FunctionNode>, h: nat) {
    && (forall i | 0 <= i < |fns| :: BlockValid(fns[i].body, h))
    && (forall i, j | 0 <= i < j < |fns| :: BlockObjects(fns[i].body) !! BlockObjects(fns[j].body))
  }

  ghost function ProgramObjects(fns: seq<FunctionNode>): set<object> {
    set i, o | 0 <= i < |fns| && o in BlockObjects(fns[i].body) :: o
  }

  function FunctionTree(f: FunctionNode, ghost h: nat): FunctionDecl
    requires BlockValid(f.body, h)
    reads BlockObjects(f.body)
  {
    FunctionDecl(f.name, BlockTree(f.body, h))
  }

  function ProgramTree(fns: seq<FunctionNode>, ghost h: nat): (r: seq<FunctionDecl>)
    requires ProgramValid(fns, h)
    reads ProgramObjects(fns)
    ensures |r| == |fns| && forall i | 0 <= i < |fns| :: r[i] == FunctionTree(fns[i], h)
  {
    if fns == [] then []
    else
      assert forall i | 0 < i < |fns| :: fns[i] == fns[1..][i - 1];
      [FunctionTree(fns[0], h)] + ProgramTree(fns[1..], h)
  }

  lemma AddFunction(fns: seq<FunctionNode>, f: FunctionNode)
    ensures ProgramObjects(fns + [f]) <= ProgramObjects(fns) + BlockObjects(f.body)
  {
    hide BlockObjects;
    forall o | o in ProgramObjects(fns + [f])
      ensures o in ProgramObjects(fns) + BlockObjects(f.body)
    {
      var i :| 0 <= i < |fns + [f]| && o in BlockObjects((fns + [f])[i].body);
      assert i < |fns| ==> o in BlockObjects(fns[i].body);
    }
  }

  method ProgramNodes(fns: seq<FunctionDecl>) returns (nodes: seq<FunctionNode>, ghost h: nat)
    ensures ProgramValid(nodes, h) && fresh(ProgramObjects(nodes)) && ProgramTree(nodes, h) == fns
  {
    hide BlockValid, BlockTree;
    nodes, h := [], 0;
    for i := 0 to |fns|
      invariant |nodes| == i && ProgramValid(nodes, h) && fresh(ProgramObjects(nodes))
      invariant forall j | 0 <= j < i :: FunctionTree(nodes[j], h) == fns[j]
    {
      var body, h1 := BlockOf(fns[i].body);
      forall j | 0 <= j < i
        ensures BlockValid(nodes[j].body, h + h1) && FunctionTree(nodes[j], h + h1) == fns[j]
      {
        BlockHigher(nodes[j].body, h, h + h1);
      }
      BlockHigher(body, h1, h + h1);
      AddFunction(nodes, FunctionNode(fns[i].name, body));
      nodes, h := nodes + [FunctionNode(fns[i].name, body)], h + h1;
    }
    assert ProgramTree(nodes, h) == fns;
  }
}
