/** Token kinds, type tags and the syntax tree.  Annotations that the type checker fills in are
    optional fields of the nodes; the parser leaves them empty. */
module Syntax {
  import opened Results

  datatype TokenKind =
    | Plus | Minus | Asterisk | ForwardSlash
    | FloatLiteral | IntLiteral | StringLiteral | Identifier
    | LParen | RParen | Assignment | Colon
    | LessThan | GreaterThan | LessThanEquals | GreaterThanEquals | Equals | NotEquals
    | Set | Show | Function | End | Return | And | Or | If | Else | Not | ElseIf
    | Loop | Break | In | Cycle
    | EndOfFile

  datatype Token = Token(kind: TokenKind, text: string)

  /** Operators whose result is Bool.  NotEquals is not one of them. */
  predicate IsBoolOperator(op: TokenKind) {
    op in {TokenKind.Equals, TokenKind.GreaterThan, TokenKind.GreaterThanEquals,
           TokenKind.LessThan, TokenKind.LessThanEquals}
  }

  datatype TypeId =
    | Bool
    | Int8 | Int16 | Int32 | Int64
    | UInt8 | UInt16 | UInt32 | UInt64
    | Float32 | Float64
    | String
    | LiteralInt | LiteralFloat
    | UserDefined
    | Sentinel

  predicate IsLiteral(t: TypeId) {
    t.LiteralInt? || t.LiteralFloat?
  }

  predicate IsSigned(t: TypeId) {
    t.Int8? || t.Int16? || t.Int32? || t.Int64?
  }

  predicate IsUnsigned(t: TypeId) {
    t.UInt8? || t.UInt16? || t.UInt32? || t.UInt64?
  }

  predicate IsInteger(t: TypeId) {
    IsSigned(t) || IsUnsigned(t)
  }

  predicate IsFloat(t: TypeId) {
    t.Float32? || t.Float64?
  }

  datatype Expr =
    | IntLit(value: int, resolved: Option<TypeId>)
    | FloatLit(digits: string, resolved: Option<TypeId>)
    | Var(name: string, resolved: Option<TypeId>)
    | Call(name: string)
    | Binary(op: TokenKind, lhs: Expr, rhs: Expr, operand: Option<TypeId>, resolved: Option<TypeId>)

  datatype Stmt =
    | DeclStmt(name: string, typeName: Option<string>, value: Expr, declared: Option<TypeId>)
    | AssignStmt(name: string, value: Expr)
    | ShowStmt(expr: Expr, exprType: Option<TypeId>)
    | ReturnStmt(expr: Expr, exprType: Option<TypeId>)
    | IfStmt(link: IfLink)
    | LoopStmt(body: seq<Stmt>)
    | BreakStmt
    | CycleStmt

  /** One link of an if / elseif / else chain. */
  datatype IfLink = IfLink(cond: Expr, thn: seq<Stmt>, els: ElsePart)

  datatype ElsePart = NoElse | ElseBlock(stmts: seq<Stmt>) | ElseIfLink(next: IfLink)

  datatype FunctionDecl = FunctionDecl(name: string, body: seq<Stmt>)
}
