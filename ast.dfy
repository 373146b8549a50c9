/** The syntax tree the parser builds: expression and statement nodes and
    their visitors. The nodes are immutable values; a visitor is a record of
    one function per node kind, and `accept` calls the one for the node's
    kind with the node itself. */
module Ast {
  import opened Wrappers
  import opened Tokens

  /** Expression nodes. `Logical` is the node the parser builds for `or` and
      `and`. */
  datatype Expr =
    | Assign(name: Token, value: Expr)
    | Binary(left: Expr, op: Token, right: Expr)
    | Grouping(expression: Expr)
    | Literal(literal: Value)
    | Logical(left: Expr, op: Token, right: Expr)
    | Unary(op: Token, right: Expr)
    | Variable(name: Token)

  /** Statement nodes. A `null` entry of a block (a declaration that failed
      to parse), a missing else-branch and a missing initializer are None. */
  datatype Stmt =
    | Block(statements: seq<Option<Stmt>>)
    | Expression(expression: Expr)
    | If(condition: Expr, thenBranch: Stmt, elseBranch: Option<Stmt>)
    | Print(expression: Expr)
    | Var(name: Token, initializer: Option<Expr>)
    | While(condition: Expr, body: Stmt)

  /** `Expr.IVisitor<R>`: one method per expression node kind. */
  datatype ExprVisitor<R> = ExprVisitor(
    visitAssignExpr: Expr -> R,
    visitBinaryExpr: Expr -> R,
    visitGroupingExpr: Expr -> R,
    visitLiteralExpr: Expr -> R,
    visitLogicalExpr: Expr -> R,
    visitUnaryExpr: Expr -> R,
    visitVariableExpr: Expr -> R)

  /** `Stmt.IVisitor<R>`: one method per statement node kind. */
  datatype StmtVisitor<R> = StmtVisitor(
    visitBlockStmt: Stmt -> R,
    visitExpressionStmt: Stmt -> R,
    visitIfStmt: Stmt -> R,
    visitPrintStmt: Stmt -> R,
    visitVarStmt: Stmt -> R,
    visitWhileStmt: Stmt -> R)

  /** `expr.accept(visitor)`. */
  function AcceptExpr<R>(e: Expr, v: ExprVisitor<R>): R
  {
    match e
    case Assign(_, _) => v.visitAssignExpr(e)
    case Binary(_, _, _) => v.visitBinaryExpr(e)
    case Grouping(_) => v.visitGroupingExpr(e)
    case Literal(_) => v.visitLiteralExpr(e)
    case Logical(_, _, _) => v.visitLogicalExpr(e)
    case Unary(_, _) => v.visitUnaryExpr(e)
    case Variable(_) => v.visitVariableExpr(e)
  }

  /** `stmt.accept(visitor)`. */
  function AcceptStmt<R>(s: Stmt, v: StmtVisitor<R>): R
  {
    match s
    case Block(_) => v.visitBlockStmt(s)
    case Expression(_) => v.visitExpressionStmt(s)
    case If(_, _, _) => v.visitIfStmt(s)
    case Print(_) => v.visitPrintStmt(s)
    case Var(_, _) => v.visitVarStmt(s)
    case While(_, _) => v.visitWhileStmt(s)
  }

  /** The node kind's name, read off the constructor. */
  function ExprKind(e: Expr): string
  {
    if e.Assign? then "Assign"
    else if e.Binary? then "Binary"
    else if e.Grouping? then "Grouping"
    else if e.Literal? then "Literal"
    else if e.Logical? then "Logical"
    else if e.Unary? then "Unary"
    else "Variable"
  }

  function StmtKind(s: Stmt): string
  {
    if s.Block? then "Block"
    else if s.Expression? then "Expression"
    else if s.If? then "If"
    else if s.Print? then "Print"
    else if s.Var? then "Var"
    else "While"
  }

  /** A visitor each of whose methods answers with the kind it is named
      after. */
  function ExprNamer(): ExprVisitor<string>
  {
    ExprVisitor(
      _ => "Assign", _ => "Binary", _ => "Grouping", _ => "Literal",
      _ => "Logical", _ => "Unary", _ => "Variable")
  }

  function StmtNamer(): StmtVisitor<string>
  {
    StmtVisitor(
      _ => "Block", _ => "Expression", _ => "If", _ => "Print",
      _ => "Var", _ => "While")
  }

  /** `accept` calls the visitor method named after the node's kind. */
  lemma AcceptExprCallsItsKind(e: Expr)
    ensures AcceptExpr(e, ExprNamer()) == ExprKind(e)
  {
  }

  lemma AcceptStmtCallsItsKind(s: Stmt)
    ensures AcceptStmt(s, StmtNamer()) == StmtKind(s)
  {
  }

  /** `accept` hands the node itself to that method and returns what it
      returns: two visitors that agree on the node's kind's method agree on
      the node. */
  lemma AcceptExprReturnsVisitResult<R>(e: Expr, v: ExprVisitor<R>, f: Expr -> R)
    ensures e.Assign? ==> AcceptExpr(e, v.(visitAssignExpr := f)) == f(e)
    ensures e.Binary? ==> AcceptExpr(e, v.(visitBinaryExpr := f)) == f(e)
    ensures e.Grouping? ==> AcceptExpr(e, v.(visitGroupingExpr := f)) == f(e)
    ensures e.Literal? ==> AcceptExpr(e, v.(visitLiteralExpr := f)) == f(e)
    ensures e.Logical? ==> AcceptExpr(e, v.(visitLogicalExpr := f)) == f(e)
    ensures e.Unary? ==> AcceptExpr(e, v.(visitUnaryExpr := f)) == f(e)
    ensures e.Variable? ==> AcceptExpr(e, v.(visitVariableExpr := f)) == f(e)
  {
  }

  lemma AcceptStmtReturnsVisitResult<R>(s: Stmt, v: StmtVisitor<R>, f: Stmt -> R)
    ensures s.Block? ==> AcceptStmt(s, v.(visitBlockStmt := f)) == f(s)
    ensures s.Expression? ==> AcceptStmt(s, v.(visitExpressionStmt := f)) == f(s)
    ensures s.If? ==> AcceptStmt(s, v.(visitIfStmt := f)) == f(s)
    ensures s.Print? ==> AcceptStmt(s, v.(visitPrintStmt := f)) == f(s)
    ensures s.Var? ==> AcceptStmt(s, v.(visitVarStmt := f)) == f(s)
    ensures s.While? ==> AcceptStmt(s, v.(visitWhileStmt := f)) == f(s)
  {
  }
}
