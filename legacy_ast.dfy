/** The older four-kind expression tree that the evaluator and the printer
    are written against, with its visitor. */
module LegacyAst {
  import opened Tokens

  datatype Expr =
    | Binary(left: Expr, op: Token, right: Expr)
    | Grouping(expression: Expr)
    | Literal(value: Value)
    | Unary(op: Token, right: Expr)

  /** `Expr.IVisitor<R>` of this tree: four methods. */
  datatype Visitor<R> = Visitor(
    visitBinaryExpr: Expr -> R,
    visitGroupingExpr: Expr -> R,
    visitLiteralExpr: Expr -> R,
    visitUnaryExpr: Expr -> R)

  /** `expr.accept(visitor)`. */
  function Accept<R>(e: Expr, v: Visitor<R>): R
  {
    match e
    case Binary(_, _, _) => v.visitBinaryExpr(e)
    case Grouping(_) => v.visitGroupingExpr(e)
    case Literal(_) => v.visitLiteralExpr(e)
    case Unary(_, _) => v.visitUnaryExpr(e)
  }

  function Kind(e: Expr): string
  {
    if e.Binary? then "Binary"
    else if e.Grouping? then "Grouping"
    else if e.Literal? then "Literal"
    else "Unary"
  }

  function Namer(): Visitor<string>
  {
    Visitor(_ => "Binary", _ => "Grouping", _ => "Literal", _ => "Unary")
  }

  /** `accept` calls the visitor method named after the node's kind. */
  lemma AcceptCallsItsKind(e: Expr)
    ensures Accept(e, Namer()) == Kind(e)
  {
  }

  /** ... with the node itself, and returns that method's result. */
  lemma AcceptReturnsVisitResult<R>(e: Expr, v: Visitor<R>, f: Expr -> R)
    ensures e.Binary? ==> Accept(e, v.(visitBinaryExpr := f)) == f(e)
    ensures e.Grouping? ==> Accept(e, v.(visitGroupingExpr := f)) == f(e)
    ensures e.Literal? ==> Accept(e, v.(visitLiteralExpr := f)) == f(e)
    ensures e.Unary? ==> Accept(e, v.(visitUnaryExpr := f)) == f(e)
  {
  }
}
