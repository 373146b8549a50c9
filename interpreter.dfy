/** The expression evaluator, over the four-kind tree of module LegacyAst.
    Dynamic type errors are the Raised outcome. `evaluate` is a call of
    `accept`, so each call dispatches on the node's kind; a Grouping node
    is evaluated by evaluating the Grouping node itself again, so that call
    never returns. The evaluator is therefore given fuel, one unit per
    `evaluate` call, and OutOfFuel stands for the recursion that does not
    end. */
module Interpreter {
  import opened Wrappers
  import opened Tokens
  import opened LegacyAst

  /** What `evaluate` yields: a value, a thrown RuntimeError, or nothing
      within the fuel. */
  datatype Evaluation = Evaluated(value: Value) | Raised(error: RuntimeError) | OutOfFuel

  /** Double-precision arithmetic, which the model leaves abstract: the sum,
      difference, product and quotient the host computes. */
  datatype Arithmetic = Arithmetic(
    add: (real, real) -> real,
    subtract: (real, real) -> real,
    multiply: (real, real) -> real,
    divide: (real, real) -> real)

  /** `isTruthy`: nil and false are falsey, everything else is truthy. */
  predicate IsTruthy(v: Value)
    ensures IsTruthy(v) <==> v != Nil && v != Bool(false)
  {
    if v.Nil? then false
    else if v.Bool? then v.b
    else true
  }

  /** `a.Equals(b)` for a non-null `a`: a boxed value equals only a value
      of the same kind with the same contents. */
  predicate SameBoxedValue(a: Value, b: Value)
  {
    match a
    case Nil => false
    case Bool(x) => b.Bool? && b.b == x
    case Num(x) => b.Num? && b.n == x
    case Str(x) => b.Str? && b.s == x
    case TokenTypeValue(x) => b.TokenTypeValue? && b.tag == x
  }

  /** `isEqual`: nil equals only nil; values of different kinds are never
      equal. It is equality of values. */
  predicate IsEqual(a: Value, b: Value)
    ensures IsEqual(a, b) <==> a == b
  {
    if a.Nil? then b.Nil? else SameBoxedValue(a, b)
  }

  /** The messages of the evaluator's dynamic type errors. */
  const TypeErrors: set<string> := {"Operands must be numbers.", "Operands must be two numbers or two strings.", "Operand must be a number."}

  /** The operators that need two numbers. */
  const NumberOperators: set<TokenType> := {GREATER, GREATER_EQUAL, LESS, LESS_EQUAL, MINUS, SLASH, STAR}

  /** `evalDouble`: the operation on two numbers, else "Operands must be
      numbers." at the operator. */
  function NumberOperation(op: Token, left: Value, right: Value, arith: Arithmetic): (r: Evaluation)
    requires op.kind in NumberOperators
    ensures r.Raised? <==> !(left.Num? && right.Num?)
    ensures r.Raised? ==> r.error == RuntimeError(op, "Operands must be numbers.")
    ensures r.Evaluated? && op.kind in {GREATER, GREATER_EQUAL, LESS, LESS_EQUAL} ==> r.value.Bool?
    ensures r.Evaluated? && op.kind in {MINUS, SLASH, STAR} ==> r.value.Num?
    ensures left.Num? && right.Num? ==> var l, n := left.n, right.n;
      && (op.kind == GREATER ==> r == Evaluated(Bool(l > n)))
      && (op.kind == GREATER_EQUAL ==> r == Evaluated(Bool(l >= n)))
      && (op.kind == LESS ==> r == Evaluated(Bool(l < n)))
      && (op.kind == LESS_EQUAL ==> r == Evaluated(Bool(l <= n)))
      && (op.kind == MINUS ==> r == Evaluated(Num(arith.subtract(l, n))))
      && (op.kind == SLASH ==> r == Evaluated(Num(arith.divide(l, n))))
      && (op.kind == STAR ==> r == Evaluated(Num(arith.multiply(l, n))))
  {
    if !(left.Num? && right.Num?) then Raised(RuntimeError(op, "Operands must be numbers."))
    else
      var l, r := left.n, right.n;
      match op.kind
      case GREATER => Evaluated(Bool(l > r))
      case GREATER_EQUAL => Evaluated(Bool(l >= r))
      case LESS => Evaluated(Bool(l < r))
      case LESS_EQUAL => Evaluated(Bool(l <= r))
      case MINUS => Evaluated(Num(arith.subtract(l, r)))
      case SLASH => Evaluated(Num(arith.divide(l, r)))
      case STAR => Evaluated(Num(arith.multiply(l, r)))
  }

  /** The operator switch of `visitBinaryExpr`, on the two operand values.
      `==` and `!=` never fail and test equality of values; `+` adds two
      numbers or concatenates two strings and fails on anything else; an
      operator the switch does not list yields nil. */
  function ApplyBinary(op: Token, left: Value, right: Value, arith: Arithmetic): (r: Evaluation)
    ensures r != OutOfFuel
    ensures r.Raised? ==> r.error.token == op
    ensures op.kind == EQUAL_EQUAL ==> r == Evaluated(Bool(left == right))
    ensures op.kind == BANG_EQUAL ==> r == Evaluated(Bool(left != right))
    ensures op.kind == PLUS ==>
      (r.Raised? <==> !((left.Num? && right.Num?) || (left.Str? && right.Str?)))
    ensures op.kind == PLUS && left.Num? && right.Num? ==> r == Evaluated(Num(arith.add(left.n, right.n)))
    ensures op.kind == PLUS && left.Str? && right.Str? ==> r == Evaluated(Str(left.s + right.s))
    ensures op.kind in NumberOperators ==> r == NumberOperation(op, left, right, arith)
    ensures r.Raised? ==> r.error.message in TypeErrors
    ensures op.kind == PLUS && r.Raised? ==> r.error.message == "Operands must be two numbers or two strings."
    ensures op.kind in NumberOperators ==> (r.Raised? <==> !(left.Num? && right.Num?))
  {
    match op.kind
    case BANG_EQUAL => Evaluated(Bool(!IsEqual(left, right)))
    case EQUAL_EQUAL => Evaluated(Bool(IsEqual(left, right)))
    case GREATER => NumberOperation(op, left, right, arith)
    case GREATER_EQUAL => NumberOperation(op, left, right, arith)
    case LESS => NumberOperation(op, left, right, arith)
    case LESS_EQUAL => NumberOperation(op, left, right, arith)
    case MINUS => NumberOperation(op, left, right, arith)
    case SLASH => NumberOperation(op, left, right, arith)
    case STAR => NumberOperation(op, left, right, arith)
    case PLUS =>
      if left.Num? && right.Num? then Evaluated(Num(arith.add(left.n, right.n)))
      else if left.Str? && right.Str? then Evaluated(Str(left.s + right.s))
      else Raised(RuntimeError(op, "Operands must be two numbers or two strings."))
    case _ => Evaluated(Nil)
  }

  /** `checkNumberOperand`: the error it throws for a non-number. */
  function CheckNumberOperand(op: Token, operand: Value): (r: Option<RuntimeError>)
    ensures r.None? <==> operand.Num?
    ensures r.Some? ==> r.value == RuntimeError(op, "Operand must be a number.")
  {
    if operand.Num? then None else Some(RuntimeError(op, "Operand must be a number."))
  }

  /** The operator switch of `visitUnaryExpr`: `!` never fails; `-` negates
      a number and fails on anything else; another operator yields nil. */
  function ApplyUnary(op: Token, operand: Value): (r: Evaluation)
    ensures r != OutOfFuel
    ensures op.kind == BANG ==> r == Evaluated(Bool(!IsTruthy(operand)))
    ensures op.kind == MINUS ==> (r.Raised? <==> !operand.Num?)
    ensures op.kind == MINUS && operand.Num? ==> r == Evaluated(Num(-operand.n))
    ensures r.Raised? ==> r.error == RuntimeError(op, "Operand must be a number.")
  {
    match op.kind
    case BANG => Evaluated(Bool(!IsTruthy(operand)))
    case MINUS =>
      (match CheckNumberOperand(op, operand)
       case Some(error) => Raised(error)
       case None => Evaluated(Num(-operand.n)))
    case _ => Evaluated(Nil)
  }

  /** `evaluate(expr)` with `fuel` calls of it left. A Binary evaluates its
      left operand, then its right one, then applies the operator; errors
      propagate in that order. */
  function Evaluate(e: Expr, arith: Arithmetic, fuel: nat): (r: Evaluation)
    ensures fuel > 0 && e.Literal? ==> r == Evaluated(e.value)
    ensures r.Raised? ==> r.error.message in TypeErrors
    decreases fuel
  {
    if fuel == 0 then OutOfFuel
    else
      match e
      case Binary(left, op, right) =>
        (match Evaluate(left, arith, fuel - 1)
         case Evaluated(l) =>
           (match Evaluate(right, arith, fuel - 1)
            case Evaluated(r) => ApplyBinary(op, l, r, arith)
            case failed => failed)
         case failed => failed)
      // `evaluate(expr)` on the Grouping node itself.
      case Grouping(_) => Evaluate(e, arith, fuel - 1)
      case Literal(value) => Evaluated(value)
      case Unary(op, right) =>
        match Evaluate(right, arith, fuel - 1)
        case Evaluated(v) => ApplyUnary(op, v)
        case failed => failed
  }

  /** A Grouping never yields a value or an error, whatever the fuel. */
  lemma {:induction false} GroupingNeverReturns(e: Expr, arith: Arithmetic, fuel: nat)
    requires e.Grouping?
    ensures Evaluate(e, arith, fuel) == OutOfFuel
    decreases fuel
  {
    if fuel > 0 {
      GroupingNeverReturns(e, arith, fuel - 1);
    }
  }

  /** A Binary or Unary node that finishes had operands that finished:
      the left one, and the right one unless the left one raised. */
  lemma FinishedOperands(e: Expr, arith: Arithmetic, fuel: nat)
    requires (e.Binary? || e.Unary?) && Evaluate(e, arith, fuel) != OutOfFuel
    ensures fuel > 0
    ensures e.Binary? ==> Evaluate(e.left, arith, fuel - 1) != OutOfFuel
    ensures e.Unary? || Evaluate(e.left, arith, fuel - 1).Evaluated? ==> Evaluate(e.right, arith, fuel - 1) != OutOfFuel
  {
  }

  /** A Binary or Unary node yields the same with two fuels when the
      operands it evaluates do. */
  lemma SameOperandsSameOutcome(e: Expr, arith: Arithmetic, fuel: nat, more: nat)
    requires fuel > 0 && more > 0 && (e.Binary? || e.Unary?)
    requires e.Binary? ==> Evaluate(e.left, arith, more - 1) == Evaluate(e.left, arith, fuel - 1)
    requires e.Unary? || Evaluate(e.left, arith, fuel - 1).Evaluated? ==>
      Evaluate(e.right, arith, more - 1) == Evaluate(e.right, arith, fuel - 1)
    ensures Evaluate(e, arith, more) == Evaluate(e, arith, fuel)
  {
  }

  /** Fuel only decides whether evaluation finishes, never what it yields. */
  lemma {:induction false} MoreFuelSameOutcome(e: Expr, arith: Arithmetic, fuel: nat, more: nat)
    requires fuel <= more && Evaluate(e, arith, fuel) != OutOfFuel
    ensures Evaluate(e, arith, more) == Evaluate(e, arith, fuel)
    decreases fuel
  {
    match e
    case Binary(left, _, right) =>
      FinishedOperands(e, arith, fuel);
      MoreFuelSameOutcome(left, arith, fuel - 1, more - 1);
      if Evaluate(left, arith, fuel - 1).Evaluated? {
        MoreFuelSameOutcome(right, arith, fuel - 1, more - 1);
      }
      SameOperandsSameOutcome(e, arith, fuel, more);
    case Grouping(_) =>
      GroupingNeverReturns(e, arith, fuel);
    case Literal(_) =>
    case Unary(_, right) =>
      FinishedOperands(e, arith, fuel);
      MoreFuelSameOutcome(right, arith, fuel - 1, more - 1);
      SameOperandsSameOutcome(e, arith, fuel, more);
  }

  predicate GroupingFree(e: Expr)
  {
    match e
    case Binary(left, _, right) => GroupingFree(left) && GroupingFree(right)
    case Grouping(_) => false
    case Literal(_) => true
    case Unary(_, right) => GroupingFree(right)
  }

  function Height(e: Expr): nat
  {
    match e
    case Binary(left, _, right) => 1 + (if Height(left) < Height(right) then Height(right) else Height(left))
    case Grouping(inner) => 1 + Height(inner)
    case Literal(_) => 1
    case Unary(_, right) => 1 + Height(right)
  }

  /** A Binary or Unary node finishes when its operands do. */
  lemma OperandsFinish(e: Expr, arith: Arithmetic, fuel: nat)
    requires fuel > 0 && (e.Binary? || e.Unary?)
    requires e.Binary? ==> Evaluate(e.left, arith, fuel - 1) != OutOfFuel
    requires Evaluate(e.right, arith, fuel - 1) != OutOfFuel
    ensures Evaluate(e, arith, fuel) != OutOfFuel
  {
  }

  /** Every tree without a Grouping node yields a value or an error, with
      as much fuel as the tree is high. */
  lemma {:induction false} GroupingFreeFinishes(e: Expr, arith: Arithmetic)
    requires GroupingFree(e)
    ensures Evaluate(e, arith, Height(e)) != OutOfFuel
  {
    match e
    case Binary(left, _, right) =>
      var fuel := Height(e) - 1;
      assert Height(left) <= fuel && Height(right) <= fuel;
      GroupingFreeFinishes(left, arith);
      GroupingFreeFinishes(right, arith);
      MoreFuelSameOutcome(left, arith, Height(left), fuel);
      MoreFuelSameOutcome(right, arith, Height(right), fuel);
      OperandsFinish(e, arith, Height(e));
    case Literal(_) =>
    case Unary(_, right) =>
      GroupingFreeFinishes(right, arith);
      OperandsFinish(e, arith, Height(e));
  }

  /** A Binary reports the left operand's error first, then the right
      operand's, before looking at the operator. */
  lemma BinaryEvaluationOrder(left: Expr, op: Token, right: Expr, arith: Arithmetic, fuel: nat)
    requires fuel > 0
    ensures var l, r := Evaluate(left, arith, fuel - 1), Evaluate(right, arith, fuel - 1);
      && (!l.Evaluated? ==> Evaluate(Binary(left, op, right), arith, fuel) == l)
      && (l.Evaluated? && !r.Evaluated? ==> Evaluate(Binary(left, op, right), arith, fuel) == r)
      && (l.Evaluated? && r.Evaluated? ==> Evaluate(Binary(left, op, right), arith, fuel) == ApplyBinary(op, l.value, r.value, arith))
  {
  }

  /** `a != b` yields the negation of `a == b`, and the same error or
      nontermination when an operand has one. */
  lemma NotEqualNegatesEqual(left: Expr, eq: Token, ne: Token, right: Expr, arith: Arithmetic, fuel: nat)
    requires eq.kind == EQUAL_EQUAL && ne.kind == BANG_EQUAL
    ensures var a, b := Evaluate(Binary(left, eq, right), arith, fuel), Evaluate(Binary(left, ne, right), arith, fuel);
      && (a.Evaluated? <==> b.Evaluated?)
      && (a.Evaluated? ==> a.value.Bool? && b.value == Bool(!a.value.b))
      && (!a.Evaluated? ==> a == b)
  {
  }

  // ---------------------------------------------------------------------
  // The evidently intended Grouping case.

  /** `evaluate` as `visitGroupingExpr` evidently means it: a Grouping
      evaluates its inner expression. Every evaluation then ends, so no
      fuel is needed. */
  function EvaluateIntended(e: Expr, arith: Arithmetic): (r: Evaluation)
    ensures r != OutOfFuel
    decreases e
  {
    match e
    case Binary(left, op, right) =>
      var l := EvaluateIntended(left, arith);
      if !l.Evaluated? then l
      else
        var r := EvaluateIntended(right, arith);
        if !r.Evaluated? then r else ApplyBinary(op, l.value, r.value, arith)
    case Grouping(inner) => EvaluateIntended(inner, arith)
    case Literal(value) => Evaluated(value)
    case Unary(op, right) =>
      var v := EvaluateIntended(right, arith);
      if !v.Evaluated? then v else ApplyUnary(op, v.value)
  }

  /** Whenever the evaluator as written finishes, it yields what the
      intended one yields: the self-call of a Grouping is its only
      departure. */
  lemma {:induction false} FinishedAsIntended(e: Expr, arith: Arithmetic, fuel: nat)
    requires Evaluate(e, arith, fuel) != OutOfFuel
    ensures Evaluate(e, arith, fuel) == EvaluateIntended(e, arith)
    decreases fuel
  {
    match e
    case Binary(left, _, right) =>
      FinishedOperands(e, arith, fuel);
      FinishedAsIntended(left, arith, fuel - 1);
      if Evaluate(left, arith, fuel - 1).Evaluated? {
        FinishedAsIntended(right, arith, fuel - 1);
      }
    case Grouping(_) =>
      GroupingNeverReturns(e, arith, fuel);
    case Literal(_) =>
    case Unary(_, right) =>
      FinishedOperands(e, arith, fuel);
      FinishedAsIntended(right, arith, fuel - 1);
  }

  /** The two evaluators agree on every tree without a Grouping node, given
      as much fuel as the tree is high. */
  lemma GroupingFreeAsIntended(e: Expr, arith: Arithmetic)
    requires GroupingFree(e)
    ensures Evaluate(e, arith, Height(e)) == EvaluateIntended(e, arith)
  {
    GroupingFreeFinishes(e, arith);
    FinishedAsIntended(e, arith, Height(e));
  }

  /** `(1)` shows the difference: the intended evaluator yields the
      literal's value, the one as written never yields anything. */
  lemma GroupedLiteral(v: Value, arith: Arithmetic, fuel: nat)
    ensures Evaluate(Grouping(Literal(v)), arith, fuel) == OutOfFuel
    ensures EvaluateIntended(Grouping(Literal(v)), arith) == Evaluated(v)
  {
    GroupingNeverReturns(Grouping(Literal(v)), arith, fuel);
  }

  /** The condition the parser gives a `for` without one, the TokenType
      value TRUE, is truthy, but it is not equal to the boolean true. */
  lemma DefaultForConditionIsTruthyButNotTrue(arith: Arithmetic, fuel: nat)
    requires fuel > 0
    ensures Evaluate(Literal(TokenTypeValue(TRUE)), arith, fuel) == Evaluated(TokenTypeValue(TRUE))
    ensures IsTruthy(TokenTypeValue(TRUE)) && !IsEqual(TokenTypeValue(TRUE), Bool(true))
  {
  }
}
