/** The abstract syntax shared by every analysis of this project: the part of the
    compiler's `ASTNode` that the move checker, the return checker, the side-effect
    check, the constant folder and the comptime interpreter look at.  Sibling nodes,
    which the compiler chains through `next`, are linked lists here too. */
module Ast {

  type Name = string

  datatype Option<+T> = None | Some(value: T)

  datatype List<+T> = Nil | Cons(head: T, tail: List<T>)

  datatype BinOp =
    | Add | Sub | Mul | Div | Mod
    | Shl | Shr | BitAnd | BitOr | BitXor
    | Eq | Ne | Lt | Gt | Le | Ge
    | And | Or
    | Set                       // =
    | AddSet | SubSet | MulSet  // += -= *=

  datatype UnOp =
    | Neg | Not | Plus | BitNot
    | PreInc | PreDec | PostInc | PostDec

  /** `pos` is the line of the token of a variable reference (0: no line known).
      `stringArg` says that the first argument of a call has type string. */
  datatype Expr =
    | IntLit(value: int)
    | CharLit(code: int)
    | StrLit(text: string, raw: bool)
    | Var(name: Name, pos: nat)
    | Binary(op: BinOp, left: Expr, right: Expr)
    | Unary(uop: UnOp, operand: Expr)
    | Call(callee: Expr, args: List<Expr>, stringArg: bool)
    | Index(base: Expr, index: Expr)
    | Cast(expr: Expr)

  datatype Case = Case(body: Stmt, isDefault: bool)

  /** `arrayLen` is the length of the declared fixed-size array type, 0 for any other type. */
  datatype Stmt =
    | VarDecl(name: Name, init: Option<Expr>, arrayLen: nat)
    | ExprStmt(expr: Expr)
    | Block(stmts: List<Stmt>)
    | If(cond: Expr, thenBody: Stmt, elseBody: Option<Stmt>)
    | Match(scrutinee: Expr, cases: List<Case>)
    | While(tag: Option<Name>, guard: Expr, body: Stmt)
    | Loop(tag: Option<Name>, body: Stmt)
    | For(tag: Option<Name>, start: Option<Stmt>, test: Option<Expr>, step: Option<Expr>, forBody: Option<Stmt>)
    | ForRange(tag: Option<Name>, name: Name, lo: Expr, hi: Expr, inclusive: bool, body: Stmt)
    | Break(tag: Option<Name>)
    | Continue(tag: Option<Name>)
    | Return(value: Option<Expr>)
    | Assert(expr: Expr)

  predicate IsAssignment(op: BinOp) {
    op.Set? || op.AddSet? || op.SubSet? || op.MulSet?
  }

  predicate IsLogical(op: BinOp) {
    op.And? || op.Or?
  }

  predicate IsComparison(op: BinOp) {
    op.Eq? || op.Ne? || op.Lt? || op.Gt? || op.Le? || op.Ge?
  }

  predicate IsStep(op: UnOp) {
    op.PreInc? || op.PreDec? || op.PostInc? || op.PostDec?
  }

  predicate HasDefault(cases: List<Case>) {
    cases.Cons? && (cases.head.isDefault || HasDefault(cases.tail))
  }
}
