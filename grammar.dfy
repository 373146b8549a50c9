/** What the recursive-descent parser computes, as functions of the token
    list and the parser's state (its cursor and the syntax errors reported
    so far). Each parsing method of class Parser in module Parsing is proved
    to compute the function of the same name here; the contracts and lemmas
    of this module state what the grammar promises: the cursor stays on the
    list, every successful parse consumes a token, operators bind and
    associate as the grammar's levels say, assignment nests to the right,
    `else` goes with the nearest `if`, and error recovery stops at the first
    statement boundary. */
module Grammar {
  import opened Wrappers
  import opened Tokens
  import opened Ast

  /** What the parser presumes of its token list: it is not empty and ends
      with the end-of-input token (as the scanner's always does). */
  predicate ValidTokens(toks: seq<Token>)
  {
    |toks| > 0 && toks[|toks| - 1].kind == EOF
  }

  /** The parser's state: the cursor `current` and the syntax errors
      reported so far. */
  datatype Cursor = Cursor(pos: nat, diags: seq<Diagnostic>)

  /** What a parsing method yields: a value and the state after it, or a
      ParseError thrown in the given state. */
  datatype ParseResult<+T> = Parsed(value: T, rest: Cursor) | Failed(rest: Cursor)

  predicate InBounds(toks: seq<Token>, c: Cursor)
  {
    ValidTokens(toks) && c.pos < |toks|
  }

  /** `isAtEnd()`. */
  predicate AtEnd(toks: seq<Token>, c: Cursor)
    requires InBounds(toks, c)
  {
    toks[c.pos].kind == EOF
  }

  /** `check(kind)`. */
  predicate Check(toks: seq<Token>, c: Cursor, kind: TokenType)
    requires InBounds(toks, c)
  {
    !AtEnd(toks, c) && toks[c.pos].kind == kind
  }

  /** Whether `match(kinds)` succeeds: the current token is not the end and
      is of one of the kinds. */
  predicate Matches(toks: seq<Token>, c: Cursor, kinds: seq<TokenType>)
    requires InBounds(toks, c)
  {
    !AtEnd(toks, c) && toks[c.pos].kind in kinds
  }

  /** `advance()`: one token forward, but never past the end-of-input token. */
  function Advance(toks: seq<Token>, c: Cursor): (r: Cursor)
    requires InBounds(toks, c)
    ensures InBounds(toks, r) && r.diags == c.diags
    ensures AtEnd(toks, c) ==> r == c
    ensures !AtEnd(toks, c) ==> r.pos == c.pos + 1
  {
    if AtEnd(toks, c) then c else Cursor(c.pos + 1, c.diags)
  }

  /** `error(token, message)`: the report is appended, the cursor stays. */
  function Report(c: Cursor, token: Token, message: string): Cursor
  {
    Cursor(c.pos, c.diags + [Diagnostic(token.line, message)])
  }

  /** The cursor does not go back. */
  predicate Extends(c: Cursor, d: Cursor)
  {
    c.pos <= d.pos
  }

  /** A parse that stays on the list and does not go back. */
  predicate Advances<T>(toks: seq<Token>, c: Cursor, r: ParseResult<T>)
  {
    Extends(c, r.rest) && r.rest.pos < |toks|
  }

  /** ... and that consumes at least one token whenever it succeeds. */
  predicate Progress<T>(toks: seq<Token>, c: Cursor, r: ParseResult<T>)
  {
    Advances(toks, c, r) && (r.Parsed? ==> c.pos < r.rest.pos)
  }

  /** `consume(kind, message)`: the current token when it is of that kind,
      one token forward; otherwise a ParseError after a report at the
      current token. */
  function Consume(toks: seq<Token>, c: Cursor, kind: TokenType, message: string): (r: ParseResult<Token>)
    requires InBounds(toks, c)
    ensures Progress(toks, c, r)
    ensures r.Parsed? <==> Check(toks, c, kind)
    ensures r.Parsed? ==> r.value.kind == kind && r.rest.pos == c.pos + 1 && r.rest.diags == c.diags
    ensures r.Failed? ==> r.rest.pos == c.pos && r.rest.diags == c.diags + [Diagnostic(toks[c.pos].line, message)]
  {
    if Check(toks, c, kind) then Parsed(toks[c.pos], Advance(toks, c))
    else Failed(Report(c, toks[c.pos], message))
  }

  // ---------------------------------------------------------------------
  // Expressions.

  /** The operators of the six binary levels, loosest first: or, and,
      equality, comparison, term, factor. */
  function Operators(level: nat): seq<TokenType>
    requires level < 6
  {
    match level
    case 0 => OrOperators
    case 1 => AndOperators
    case 2 => EqualityOperators
    case 3 => ComparisonOperators
    case 4 => TermOperators
    case _ => FactorOperators
  }

  const OrOperators: seq<TokenType> := [OR]
  const AndOperators: seq<TokenType> := [AND]
  const EqualityOperators: seq<TokenType> := [BANG_EQUAL, EQUAL_EQUAL]
  const ComparisonOperators: seq<TokenType> := [GREATER, GREATER_EQUAL, LESS, LESS_EQUAL]
  const TermOperators: seq<TokenType> := [MINUS, PLUS]
  const FactorOperators: seq<TokenType> := [SLASH, STAR]

  /** The node a level builds: Logical for `or` and `and`, Binary above. */
  function Node(level: nat, left: Expr, op: Token, right: Expr): Expr
  {
    if level < 2 then Logical(left, op, right) else Binary(left, op, right)
  }

  /** A node that level `level` builds. */
  predicate IsNodeAt(level: nat, e: Expr)
    requires level < 6
  {
    (if level < 2 then e.Logical? else e.Binary?) && e.op.kind in Operators(level)
  }

  /** The trees `assignment` can return: an or-level tree, or an Assign to
      an identifier whose value is again such a tree (assignment nests to
      the right). */
  predicate AssignShape(e: Expr)
    decreases e, 8
  {
    ShapeAt(0, e) || (e.Assign? && e.name.kind == IDENTIFIER && AssignShape(e.value))
  }

  /** The trees level `level` can return (level 6 is `unary`): a tree of the
      next level up, or a node of this level whose left operand is a tree of
      this level and whose right operand is a tree of the next level up. So
      operators of one level fold to the left, and an operand never has a
      looser operator at its top unless it is parenthesised. */
  predicate ShapeAt(level: nat, e: Expr)
    requires level <= 6
    decreases e, 7 - level
  {
    if level == 6 then
      (e.Unary? && e.op.kind in [BANG, MINUS] && ShapeAt(6, e.right)) || PrimaryShape(e)
    else
      ShapeAt(level + 1, e) || (IsNodeAt(level, e) && ShapeAt(level, e.left) && ShapeAt(level + 1, e.right))
  }

  /** The trees `primary` can return. */
  predicate PrimaryShape(e: Expr)
    decreases e, 0
  {
    e.Literal? || (e.Variable? && e.name.kind == IDENTIFIER) || (e.Grouping? && AssignShape(e.expression))
  }

  /** `expression()`. */
  function ExpressionSpec(toks: seq<Token>, c: Cursor): (r: ParseResult<Expr>)
    requires InBounds(toks, c)
    ensures Progress(toks, c, r)
    decreases |toks| - c.pos, 15
  {
    AssignmentSpec(toks, c)
  }

  /** `assignment()`: an or-level tree; when '=' follows, the right side is
      parsed recursively and an Assign is built when the left side is a
      Variable, else "Invalid assignment target." is reported (without a
      ParseError) and the left side is the result. */
  function AssignmentSpec(toks: seq<Token>, c: Cursor): (r: ParseResult<Expr>)
    requires InBounds(toks, c)
    ensures Progress(toks, c, r)
    decreases |toks| - c.pos, 14
  {
    match LevelSpec(toks, c, 0)
    case Failed(f) => Failed(f)
    case Parsed(target, c1) =>
      if Matches(toks, c1, [EQUAL]) then
        var equals := toks[c1.pos];
        match AssignmentSpec(toks, Advance(toks, c1))
        case Failed(f) => Failed(f)
        case Parsed(value, c2) =>
          if target.Variable? then
            Parsed(Assign(target.name, value), c2)
          else Parsed(target, Report(c2, equals, "Invalid assignment target."))
      else
        Parsed(target, c1)
  }

  /** What `assignment()` yields. Without a following '=' it is the
      or-level tree. After a '=' and a right side it is an Assign of the
      target's own name when the target is a Variable; any other target is
      returned as it is, without a ParseError, once "Invalid assignment
      target." is reported at the '='. */
  lemma AssignmentTargets(toks: seq<Token>, c: Cursor)
    requires InBounds(toks, c)
    ensures var l := LevelSpec(toks, c, 0);
      var r := AssignmentSpec(toks, c);
      && (l.Failed? ==> r == l)
      && (l.Parsed? && !Matches(toks, l.rest, [EQUAL]) ==> r == l)
      && (l.Parsed? && Matches(toks, l.rest, [EQUAL]) ==>
            var v := AssignmentSpec(toks, Advance(toks, l.rest));
            && (v.Failed? ==> r == v)
            && (v.Parsed? && l.value.Variable? ==> r == Parsed(Assign(l.value.name, v.value), v.rest))
            && (v.Parsed? && !l.value.Variable? ==>
                  && r.Parsed? && r.value == l.value && r.rest.pos == v.rest.pos
                  && r.rest.diags == v.rest.diags + [Diagnostic(toks[l.rest.pos].line, "Invalid assignment target.")]))
  {
  }

  /** `or()`, `and()`, `equality()`, `comparison()`, `term()` and `factor()`
      for level 0 to 5: an operand, then the left fold of the level's
      operators. */
  function LevelSpec(toks: seq<Token>, c: Cursor, level: nat): (r: ParseResult<Expr>)
    requires InBounds(toks, c) && level < 6
    ensures Progress(toks, c, r)
    decreases |toks| - c.pos, 13 - 2 * level
  {
    match OperandSpec(toks, c, level)
    case Failed(f) => Failed(f)
    case Parsed(left, c1) => FoldSpec(toks, level, left, c1)
  }

  /** The loop of a level: while one of its operators matches, parse the
      next operand and make the tree so far its left operand. */
  function FoldSpec(toks: seq<Token>, level: nat, left: Expr, c: Cursor): (r: ParseResult<Expr>)
    requires InBounds(toks, c) && level < 6
    ensures Advances(toks, c, r)
    decreases |toks| - c.pos, 0
  {
    if Matches(toks, c, Operators(level)) then
      var op := toks[c.pos];
      match OperandSpec(toks, Advance(toks, c), level)
      case Failed(f) => Failed(f)
      case Parsed(right, c2) => FoldSpec(toks, level, Node(level, left, op, right), c2)
    else
      Parsed(left, c)
  }

  /** One round of a level's loop: the tree so far becomes the left
      operand of the matched operator, and the loop goes on from there. */
  lemma FoldStep(toks: seq<Token>, level: nat, left: Expr, c: Cursor, right: Expr, c2: Cursor)
    requires InBounds(toks, c) && level < 6
    requires Matches(toks, c, Operators(level))
    requires OperandSpec(toks, Advance(toks, c), level) == Parsed(right, c2)
    ensures InBounds(toks, c2) && c.pos < c2.pos
    ensures FoldSpec(toks, level, left, c) == FoldSpec(toks, level, Node(level, left, toks[c.pos], right), c2)
  {
  }

  /** The operands of level `level`: the next level, or `unary()` above
      `factor`. */
  function OperandSpec(toks: seq<Token>, c: Cursor, level: nat): (r: ParseResult<Expr>)
    requires InBounds(toks, c) && level < 6
    ensures Progress(toks, c, r)
    decreases |toks| - c.pos, 12 - 2 * level
  {
    if level == 5 then UnarySpec(toks, c) else LevelSpec(toks, c, level + 1)
  }

  /** `unary()`: `!` and `-` nest to the right over a primary. */
  function UnarySpec(toks: seq<Token>, c: Cursor): (r: ParseResult<Expr>)
    requires InBounds(toks, c)
    ensures Progress(toks, c, r)
    decreases |toks| - c.pos, 1
  {
    if Matches(toks, c, [BANG, MINUS]) then
      var op := toks[c.pos];
      match UnarySpec(toks, Advance(toks, c))
      case Failed(f) => Failed(f)
      case Parsed(right, c1) => Parsed(Unary(op, right), c1)
    else
      PrimarySpec(toks, c)
  }

  /** `primary()`. */
  function PrimarySpec(toks: seq<Token>, c: Cursor): (r: ParseResult<Expr>)
    requires InBounds(toks, c)
    ensures Progress(toks, c, r)
    ensures r.Failed? && r.rest.pos == c.pos ==> !Matches(toks, c, [FALSE, TRUE, NIL, NUMBER, STRING, IDENTIFIER, LEFT_PAREN])
    decreases |toks| - c.pos, 0
  {
    var next := Advance(toks, c);
    if Matches(toks, c, [FALSE]) then Parsed(Literal(Bool(false)), next)
    else if Matches(toks, c, [TRUE]) then Parsed(Literal(Bool(true)), next)
    else if Matches(toks, c, [NIL]) then Parsed(Literal(Nil), next)
    else if Matches(toks, c, [NUMBER, STRING]) then Parsed(Literal(toks[c.pos].literal), next)
    else if Matches(toks, c, [IDENTIFIER]) then Parsed(Variable(toks[c.pos]), next)
    else if Matches(toks, c, [LEFT_PAREN]) then
      match ExpressionSpec(toks, next)
      case Failed(f) => Failed(f)
      case Parsed(e, c1) =>
        match Consume(toks, c1, RIGHT_PAREN, "Expect ')' after expression.")
        case Failed(f) => Failed(f)
        case Parsed(_, c2) => Parsed(Grouping(e), c2)
    else
      Failed(Report(c, toks[c.pos], "Expect expression."))
  }

  // ---------------------------------------------------------------------
  // The shape of what each level parses, proved by one induction over the
  // mutually recursive functions above.

  lemma {:induction false} ExpressionShaped(toks: seq<Token>, c: Cursor)
    requires InBounds(toks, c)
    ensures ExpressionSpec(toks, c).Parsed? ==> AssignShape(ExpressionSpec(toks, c).value)
    decreases |toks| - c.pos, 15
  {
    AssignmentShaped(toks, c);
  }

  /** An assignment's target is always a plain identifier, and its value
      is again an assignment-level tree. */
  lemma {:induction false} AssignmentShaped(toks: seq<Token>, c: Cursor)
    requires InBounds(toks, c)
    ensures AssignmentSpec(toks, c).Parsed? ==> AssignShape(AssignmentSpec(toks, c).value)
    decreases |toks| - c.pos, 14
  {
    LevelShaped(toks, c, 0);
    match LevelSpec(toks, c, 0)
    case Failed(_) =>
    case Parsed(target, c1) =>
      if Matches(toks, c1, [EQUAL]) {
        AssignmentShaped(toks, Advance(toks, c1));
        if target.Variable? {
          VariableNamedByIdentifier(0, target);
        }
      }
  }

  /** Level `level` parses a tree of its shape. */
  lemma {:induction false} LevelShaped(toks: seq<Token>, c: Cursor, level: nat)
    requires InBounds(toks, c) && level < 6
    ensures LevelSpec(toks, c, level).Parsed? ==> ShapeAt(level, LevelSpec(toks, c, level).value)
    decreases |toks| - c.pos, 13 - 2 * level
  {
    OperandShaped(toks, c, level);
    match OperandSpec(toks, c, level)
    case Failed(_) =>
    case Parsed(left, c1) =>
      assert ShapeAt(level, left);
      FoldShaped(toks, level, left, c1);
  }

  /** The loop of a level keeps the tree so far of the level's shape. */
  lemma {:induction false} FoldShaped(toks: seq<Token>, level: nat, left: Expr, c: Cursor)
    requires InBounds(toks, c) && level < 6 && ShapeAt(level, left)
    ensures FoldSpec(toks, level, left, c).Parsed? ==> ShapeAt(level, FoldSpec(toks, level, left, c).value)
    decreases |toks| - c.pos, 0
  {
    if Matches(toks, c, Operators(level)) {
      var op := toks[c.pos];
      OperandShaped(toks, Advance(toks, c), level);
      match OperandSpec(toks, Advance(toks, c), level)
      case Failed(_) =>
      case Parsed(right, c2) =>
        var node := Node(level, left, op, right);
        assert IsNodeAt(level, node);
        FoldShaped(toks, level, node, c2);
    }
  }

  lemma {:induction false} OperandShaped(toks: seq<Token>, c: Cursor, level: nat)
    requires InBounds(toks, c) && level < 6
    ensures OperandSpec(toks, c, level).Parsed? ==> ShapeAt(level + 1, OperandSpec(toks, c, level).value)
    decreases |toks| - c.pos, 12 - 2 * level
  {
    if level == 5 {
      UnaryShaped(toks, c);
    } else {
      LevelShaped(toks, c, level + 1);
    }
  }

  /** `unary` parses prefix operators over a primary. */
  lemma {:induction false} UnaryShaped(toks: seq<Token>, c: Cursor)
    requires InBounds(toks, c)
    ensures UnarySpec(toks, c).Parsed? ==> ShapeAt(6, UnarySpec(toks, c).value)
    decreases |toks| - c.pos, 1
  {
    if Matches(toks, c, [BANG, MINUS]) {
      UnaryShaped(toks, Advance(toks, c));
    } else {
      PrimaryShaped(toks, c);
    }
  }

  /** `primary` parses a literal, an identifier or a parenthesised
      expression. */
  lemma {:induction false} PrimaryShaped(toks: seq<Token>, c: Cursor)
    requires InBounds(toks, c)
    ensures PrimarySpec(toks, c).Parsed? ==> PrimaryShape(PrimarySpec(toks, c).value)
    decreases |toks| - c.pos, 0
  {
    var next := Advance(toks, c);
    if !Matches(toks, c, [FALSE]) && !Matches(toks, c, [TRUE]) && !Matches(toks, c, [NIL])
      && !Matches(toks, c, [NUMBER, STRING]) && !Matches(toks, c, [IDENTIFIER]) && Matches(toks, c, [LEFT_PAREN])
    {
      ExpressionShaped(toks, next);
    }
  }

  // ---------------------------------------------------------------------
  // What an expression is spelled with: a parse that reports no invalid
  // assignment target neither drops nor invents a token, and the tree's
  // names, operators and literals stand in the order they were read.

  /** What one token of an expression must be: that very token (a name or
      an operator, which the tree keeps), a token of a kind (the '=' of an
      assignment and the parentheses of a grouping, which the tree does
      not keep), or a token a literal value is read from. */
  datatype Piece = Exact(token: Token) | OfKind(kind: TokenType) | LiteralFrom(value: Value)

  predicate Fits(t: Token, p: Piece)
  {
    match p
    case Exact(x) => t == x
    case OfKind(k) => t.kind == k
    case LiteralFrom(v) =>
      || (t.kind == FALSE && v == Bool(false))
      || (t.kind == TRUE && v == Bool(true))
      || (t.kind == NIL && v == Nil)
      || ((t.kind == NUMBER || t.kind == STRING) && v == t.literal)
  }

  /** The tokens a tree is written with, in order. */
  function Spelling(e: Expr): (r: seq<Piece>)
    ensures |r| > 0
  {
    match e
    case Assign(name, value) => [Exact(name), OfKind(EQUAL)] + Spelling(value)
    case Binary(left, op, right) => Spelling(left) + [Exact(op)] + Spelling(right)
    case Grouping(inner) => [OfKind(LEFT_PAREN)] + Spelling(inner) + [OfKind(RIGHT_PAREN)]
    case Literal(v) => [LiteralFrom(v)]
    case Logical(left, op, right) => Spelling(left) + [Exact(op)] + Spelling(right)
    case Unary(op, right) => [Exact(op)] + Spelling(right)
    case Variable(name) => [Exact(name)]
  }

  /** The tokens from `a` on are the pieces `ps`. */
  predicate FitsFrom(toks: seq<Token>, a: nat, ps: seq<Piece>)
  {
    a + |ps| <= |toks| && forall i :: 0 <= i < |ps| ==> Fits(toks[a + i], ps[i])
  }

  /** `toks[a..b]` are exactly the tokens `e` is written with. */
  predicate Spells(toks: seq<Token>, a: nat, b: nat, e: Expr)
  {
    a + |Spelling(e)| == b && FitsFrom(toks, a, Spelling(e))
  }

  lemma FitsJoined(toks: seq<Token>, a: nat, ps: seq<Piece>, qs: seq<Piece>)
    requires FitsFrom(toks, a, ps) && FitsFrom(toks, a + |ps|, qs)
    ensures FitsFrom(toks, a, ps + qs)
  {
    forall i | 0 <= i < |ps + qs|
      ensures Fits(toks[a + i], (ps + qs)[i])
    {
      if i >= |ps| {
        assert toks[a + i] == toks[(a + |ps|) + (i - |ps|)];
      }
    }
  }

  /** A binary or logical node is spelled by its left operand, its
      operator token and its right operand, side by side. */
  lemma SpellsInfix(toks: seq<Token>, a: nat, m: nat, b: nat, left: Expr, op: Token, right: Expr)
    requires Spells(toks, a, m, left) && m < |toks| && toks[m] == op && Spells(toks, m + 1, b, right)
    ensures Spells(toks, a, b, Binary(left, op, right)) && Spells(toks, a, b, Logical(left, op, right))
  {
    assert FitsFrom(toks, m, [Exact(op)]);
    FitsJoined(toks, a, Spelling(left), [Exact(op)]);
    FitsJoined(toks, a, Spelling(left) + [Exact(op)], Spelling(right));
  }

  /** A node that starts with tokens of its own (`pre`) followed by the
      spelling of one sub-tree. */
  lemma SpellsAfter(toks: seq<Token>, a: nat, b: nat, pre: seq<Piece>, sub: Expr)
    requires FitsFrom(toks, a, pre) && Spells(toks, a + |pre|, b, sub)
    ensures FitsFrom(toks, a, pre + Spelling(sub)) && a + |pre + Spelling(sub)| == b
  {
    FitsJoined(toks, a, pre, Spelling(sub));
  }

  /** Diagnostics are only ever appended. */
  predicate Kept(d0: seq<Diagnostic>, d: seq<Diagnostic>)
  {
    d0 <= d
  }

  lemma {:induction false} ExpressionSpelled(toks: seq<Token>, c: Cursor)
    requires InBounds(toks, c)
    ensures var r := ExpressionSpec(toks, c);
      && Kept(c.diags, r.rest.diags)
      && (r.Parsed? && r.rest.diags == c.diags ==> Spells(toks, c.pos, r.rest.pos, r.value))
    decreases |toks| - c.pos, 15
  {
    AssignmentSpelled(toks, c);
  }

  /** The only report a successful expression parse can make is an invalid
      assignment target; without it, an Assign is spelled by its name,
      the '=' and its value. */
  lemma {:induction false} AssignmentSpelled(toks: seq<Token>, c: Cursor)
    requires InBounds(toks, c)
    ensures var r := AssignmentSpec(toks, c);
      && Kept(c.diags, r.rest.diags)
      && (r.Parsed? && r.rest.diags == c.diags ==> Spells(toks, c.pos, r.rest.pos, r.value))
    decreases |toks| - c.pos, 14
  {
    LevelSpelled(toks, c, 0);
    match LevelSpec(toks, c, 0)
    case Failed(_) =>
    case Parsed(target, c1) =>
      if Matches(toks, c1, [EQUAL]) {
        var c2 := Advance(toks, c1);
        AssignmentSpelled(toks, c2);
        match AssignmentSpec(toks, c2)
        case Failed(_) =>
        case Parsed(value, c3) =>
          if target.Variable? && c3.diags == c.diags {
            assert c1.diags == c.diags;
            assert FitsFrom(toks, c.pos, [Exact(target.name), OfKind(EQUAL)]) by {
              assert Spelling(target) == [Exact(target.name)];
            }
            SpellsAfter(toks, c.pos, c3.pos, [Exact(target.name), OfKind(EQUAL)], value);
          }
      }
  }

  lemma {:induction false} LevelSpelled(toks: seq<Token>, c: Cursor, level: nat)
    requires InBounds(toks, c) && level < 6
    ensures var r := LevelSpec(toks, c, level);
      && Kept(c.diags, r.rest.diags)
      && (r.Parsed? && r.rest.diags == c.diags ==> Spells(toks, c.pos, r.rest.pos, r.value))
    decreases |toks| - c.pos, 13 - 2 * level
  {
    OperandSpelled(toks, c, level);
    match OperandSpec(toks, c, level)
    case Failed(_) =>
    case Parsed(left, c1) =>
      FoldSpelled(toks, level, left, c.pos, c.diags, c1);
  }

  /** The loop of a level: while the reports are those from before the
      level (`d0`), the tree so far spells the tokens from `a` on. */
  lemma {:induction false} FoldSpelled(toks: seq<Token>, level: nat, left: Expr, a: nat, d0: seq<Diagnostic>, c: Cursor)
    requires InBounds(toks, c) && level < 6
    requires Kept(d0, c.diags)
    requires c.diags == d0 ==> Spells(toks, a, c.pos, left)
    ensures var r := FoldSpec(toks, level, left, c);
      && Kept(d0, r.rest.diags)
      && (r.Parsed? && r.rest.diags == d0 ==> Spells(toks, a, r.rest.pos, r.value))
    decreases |toks| - c.pos, 0
  {
    if Matches(toks, c, Operators(level)) {
      var op := toks[c.pos];
      var c1 := Advance(toks, c);
      OperandSpelled(toks, c1, level);
      match OperandSpec(toks, c1, level)
      case Failed(_) =>
      case Parsed(right, c2) =>
        var node := Node(level, left, op, right);
        if c2.diags == d0 {
          assert c.diags == d0;
          SpellsInfix(toks, a, c.pos, c2.pos, left, op, right);
        }
        FoldSpelled(toks, level, node, a, d0, c2);
    }
  }

  lemma {:induction false} OperandSpelled(toks: seq<Token>, c: Cursor, level: nat)
    requires InBounds(toks, c) && level < 6
    ensures var r := OperandSpec(toks, c, level);
      && Kept(c.diags, r.rest.diags)
      && (r.Parsed? && r.rest.diags == c.diags ==> Spells(toks, c.pos, r.rest.pos, r.value))
    decreases |toks| - c.pos, 12 - 2 * level
  {
    if level == 5 {
      UnarySpelled(toks, c);
    } else {
      LevelSpelled(toks, c, level + 1);
    }
  }

  lemma {:induction false} UnarySpelled(toks: seq<Token>, c: Cursor)
    requires InBounds(toks, c)
    ensures var r := UnarySpec(toks, c);
      && Kept(c.diags, r.rest.diags)
      && (r.Parsed? && r.rest.diags == c.diags ==> Spells(toks, c.pos, r.rest.pos, r.value))
    decreases |toks| - c.pos, 1
  {
    if Matches(toks, c, [BANG, MINUS]) {
      var c1 := Advance(toks, c);
      UnarySpelled(toks, c1);
      match UnarySpec(toks, c1)
      case Failed(_) =>
      case Parsed(right, c2) =>
        if c2.diags == c.diags {
          assert FitsFrom(toks, c.pos, [Exact(toks[c.pos])]);
          SpellsAfter(toks, c.pos, c2.pos, [Exact(toks[c.pos])], right);
        }
    } else {
      PrimarySpelled(toks, c);
    }
  }

  lemma {:induction false} PrimarySpelled(toks: seq<Token>, c: Cursor)
    requires InBounds(toks, c)
    ensures var r := PrimarySpec(toks, c);
      && Kept(c.diags, r.rest.diags)
      && (r.Parsed? && r.rest.diags == c.diags ==> Spells(toks, c.pos, r.rest.pos, r.value))
    decreases |toks| - c.pos, 0
  {
    var next := Advance(toks, c);
    if !Matches(toks, c, [FALSE]) && !Matches(toks, c, [TRUE]) && !Matches(toks, c, [NIL])
      && !Matches(toks, c, [NUMBER, STRING]) && !Matches(toks, c, [IDENTIFIER]) && Matches(toks, c, [LEFT_PAREN])
    {
      ExpressionSpelled(toks, next);
      match ExpressionSpec(toks, next)
      case Failed(_) =>
      case Parsed(e, c1) =>
        var paren := Consume(toks, c1, RIGHT_PAREN, "Expect ')' after expression.");
        if paren.Parsed? && c1.diags == c.diags {
          var pre := [OfKind(LEFT_PAREN)];
          assert FitsFrom(toks, c.pos, pre);
          SpellsAfter(toks, c.pos, c1.pos, pre, e);
          assert FitsFrom(toks, c1.pos, [OfKind(RIGHT_PAREN)]);
          FitsJoined(toks, c.pos, pre + Spelling(e), [OfKind(RIGHT_PAREN)]);
          assert Spelling(Grouping(e)) == pre + Spelling(e) + [OfKind(RIGHT_PAREN)];
        }
    }
  }

  /** `a - b - c ;` is parsed by `term()` as `(a - b) - c`, and the ';' is
      left for the statement. */
  lemma DifferenceOfThree()
    ensures var a := Token(IDENTIFIER, "a", Nil, 1);
      var b := Token(IDENTIFIER, "b", Nil, 1);
      var c := Token(IDENTIFIER, "c", Nil, 1);
      var minus := Token(MINUS, "-", Nil, 1);
      var toks := [a, minus, b, minus, c, Token(SEMICOLON, ";", Nil, 1), Token(EOF, "", Nil, 1)];
      LevelSpec(toks, Cursor(0, []), 4)
        == Parsed(Binary(Binary(Variable(a), minus, Variable(b)), minus, Variable(c)), Cursor(5, []))
  {
    var a := Token(IDENTIFIER, "a", Nil, 1);
    var b := Token(IDENTIFIER, "b", Nil, 1);
    var c := Token(IDENTIFIER, "c", Nil, 1);
    var minus := Token(MINUS, "-", Nil, 1);
    var toks := [a, minus, b, minus, c, Token(SEMICOLON, ";", Nil, 1), Token(EOF, "", Nil, 1)];
    assert ValidTokens(toks);
    forall p: nat | p in {0, 2, 4}
      ensures OperandSpec(toks, Cursor(p, []), 4) == Parsed(Variable(toks[p]), Cursor(p + 1, []))
    {
      IdentifierOperand(toks, Cursor(p, []));
    }
    var ab := Binary(Variable(a), minus, Variable(b));
    FoldStep(toks, 4, Variable(a), Cursor(1, []), Variable(b), Cursor(3, []));
    FoldStep(toks, 4, ab, Cursor(3, []), Variable(c), Cursor(5, []));
    assert !Matches(toks, Cursor(5, []), Operators(4));
  }

  /** An identifier followed by something other than a factor operator is
      a term operand on its own. */
  lemma {:induction false} IdentifierOperand(toks: seq<Token>, c: Cursor)
    requires InBounds(toks, c) && c.pos + 1 < |toks|
    requires toks[c.pos].kind == IDENTIFIER && toks[c.pos + 1].kind !in Operators(5)
    ensures OperandSpec(toks, c, 4) == Parsed(Variable(toks[c.pos]), Cursor(c.pos + 1, c.diags))
  {
    var next := Cursor(c.pos + 1, c.diags);
    assert PrimarySpec(toks, c) == Parsed(Variable(toks[c.pos]), next);
    assert OperandSpec(toks, c, 5) == Parsed(Variable(toks[c.pos]), next);
    assert FoldSpec(toks, 5, Variable(toks[c.pos]), next) == Parsed(Variable(toks[c.pos]), next);
  }

  // ---------------------------------------------------------------------
  // Statements.

  /** The token kinds `synchronize` stops in front of. */
  const StatementStarts: set<TokenType> := {CLASS, FUN, VAR, FOR, IF, WHILE, PRINT, RETURN}

  /** Where `synchronize` may stop: at the end, after a ';', or in front of
      a token that starts a statement. */
  predicate SyncPoint(toks: seq<Token>, k: nat)
    requires k < |toks|
  {
    toks[k].kind == EOF || (k > 0 && toks[k - 1].kind == SEMICOLON) || toks[k].kind in StatementStarts
  }

  /** The loop of `synchronize` from position p. */
  function SyncLoop(toks: seq<Token>, p: nat): (q: nat)
    requires ValidTokens(toks) && p < |toks|
    ensures p <= q < |toks| && SyncPoint(toks, q)
    ensures forall k :: p <= k < q ==> !SyncPoint(toks, k)
    decreases |toks| - p
  {
    if SyncPoint(toks, p) then p else SyncLoop(toks, p + 1)
  }

  /** `synchronize()`: one `advance()`, then forward to the first point
      where a new statement plausibly starts. */
  function SynchronizeSpec(toks: seq<Token>, c: Cursor): (r: Cursor)
    requires InBounds(toks, c)
    ensures InBounds(toks, r) && r.diags == c.diags
    ensures SyncPoint(toks, r.pos)
    ensures !AtEnd(toks, c) ==> c.pos < r.pos
    ensures forall k :: Advance(toks, c).pos <= k < r.pos ==> !SyncPoint(toks, k)
  {
    Cursor(SyncLoop(toks, Advance(toks, c).pos), c.diags)
  }

  /** `declaration()`: a `var` declaration or a statement; on a ParseError,
      `synchronize()` and a null entry. It never fails and always consumes
      a token. */
  function DeclarationSpec(toks: seq<Token>, c: Cursor): (r: ParseResult<Option<Stmt>>)
    requires InBounds(toks, c) && !AtEnd(toks, c)
    ensures r.Parsed? && Progress(toks, c, r)
    ensures r.value.None? ==> SyncPoint(toks, r.rest.pos)
    ensures var attempt := if Matches(toks, c, [VAR]) then VarDeclarationSpec(toks, Advance(toks, c)) else StatementSpec(toks, c);
      && (r.value.None? <==> attempt.Failed?)
      && (attempt.Parsed? ==> r.value == Some(attempt.value) && r.rest == attempt.rest)
      && (attempt.Failed? ==> r.rest == SynchronizeSpec(toks, attempt.rest))
    decreases |toks| - c.pos, 3
  {
    var attempt := if Matches(toks, c, [VAR]) then VarDeclarationSpec(toks, Advance(toks, c)) else StatementSpec(toks, c);
    match attempt
    case Parsed(s, c1) => Parsed(Some(s), c1)
    case Failed(f) => Parsed(None, SynchronizeSpec(toks, f))
  }

  /** `varDeclaration()`, after the `var`. */
  function VarDeclarationSpec(toks: seq<Token>, c: Cursor): (r: ParseResult<Stmt>)
    requires InBounds(toks, c)
    ensures Progress(toks, c, r)
    ensures r.Parsed? ==> r.value.Var? && r.value.name.kind == IDENTIFIER
  {
    match Consume(toks, c, IDENTIFIER, "Expect variable name.")
    case Failed(f) => Failed(f)
    case Parsed(name, c1) =>
      match InitializerSpec(toks, c1)
      case Failed(f) => Failed(f)
      case Parsed(initializer, c2) =>
        match Consume(toks, c2, SEMICOLON, "Expect ';' after variable declaration.")
        case Failed(f) => Failed(f)
        case Parsed(_, c3) => Parsed(Var(name, initializer), c3)
  }

  /** The optional `= expression` of a `var` declaration. */
  function InitializerSpec(toks: seq<Token>, c: Cursor): (r: ParseResult<Option<Expr>>)
    requires InBounds(toks, c)
    ensures Advances(toks, c, r)
  {
    if Matches(toks, c, [EQUAL]) then
      match ExpressionSpec(toks, Advance(toks, c))
      case Failed(f) => Failed(f)
      case Parsed(e, c1) => Parsed(Some(e), c1)
    else
      Parsed(None, c)
  }

  /** `statement()`. An If it returns without an else-branch is never
      followed by an `else`: that `else` would have been taken by the
      innermost `if`. */
  function StatementSpec(toks: seq<Token>, c: Cursor): (r: ParseResult<Stmt>)
    requires InBounds(toks, c)
    ensures Progress(toks, c, r)
    ensures r.Parsed? && r.value.If? && r.value.elseBranch.None? ==> !Check(toks, r.rest, ELSE)
    decreases |toks| - c.pos, 1
  {
    var next := Advance(toks, c);
    if Matches(toks, c, [FOR]) then ForSpec(toks, next)
    else if Matches(toks, c, [IF]) then IfSpec(toks, next)
    else if Matches(toks, c, [PRINT]) then PrintSpec(toks, next)
    else if Matches(toks, c, [WHILE]) then WhileSpec(toks, next)
    else if Matches(toks, c, [LEFT_BRACE]) then
      match BlockSpec(toks, next)
      case Failed(f) => Failed(f)
      case Parsed(statements, c1) => Parsed(Block(statements), c1)
    else
      ExpressionStatementSpec(toks, c)
  }

  /** The loop of a `for` desugared: the body followed by the increment,
      repeated while the condition holds (`true` as a TokenType value when
      it is missing), inside a block with the initializer when there is
      one. */
  function Desugar(initializer: Option<Stmt>, condition: Option<Expr>, increment: Option<Expr>, body: Stmt): Stmt
  {
    var inner := if increment.Some? then Block([Some(body), Some(Expression(increment.value))]) else body;
    var test := if condition.Some? then condition.value else Literal(TokenTypeValue(TRUE));
    var loop := While(test, inner);
    if initializer.Some? then Block([initializer, Some(loop)]) else loop
  }

  /** `forStatement()`, after the `for`: the parenthesised clauses, then
      the body. */
  function ForSpec(toks: seq<Token>, c: Cursor): (r: ParseResult<Stmt>)
    requires InBounds(toks, c)
    ensures Progress(toks, c, r)
    ensures r.Parsed? ==> r.value.While? || r.value.Block?
    decreases |toks| - c.pos, 0
  {
    match Consume(toks, c, LEFT_PAREN, "Expect '(' after 'for'.")
    case Failed(f) => Failed(f)
    case Parsed(_, c1) =>
      match ForInitializerSpec(toks, c1)
      case Failed(f) => Failed(f)
      case Parsed(initializer, c2) =>
        match ClauseSpec(toks, c2, SEMICOLON)
        case Failed(f) => Failed(f)
        case Parsed(condition, c3) =>
          match Consume(toks, c3, SEMICOLON, "Expect ';' after loop condition.")
          case Failed(f) => Failed(f)
          case Parsed(_, c4) => ForTailSpec(toks, initializer, condition, c4)
  }

  /** The rest of `forStatement()` after the condition's ';': the increment,
      the ')', the body, and the desugaring. */
  function ForTailSpec(toks: seq<Token>, initializer: Option<Stmt>, condition: Option<Expr>, c: Cursor): (r: ParseResult<Stmt>)
    requires InBounds(toks, c)
    ensures Progress(toks, c, r)
    ensures r.Parsed? ==> r.value.While? || r.value.Block?
    decreases |toks| - c.pos, 0
  {
    match ClauseSpec(toks, c, RIGHT_PAREN)
    case Failed(f) => Failed(f)
    case Parsed(increment, c1) =>
      match Consume(toks, c1, RIGHT_PAREN, "Expect ')' after 'for' clauses.")
      case Failed(f) => Failed(f)
      case Parsed(_, c2) =>
        match StatementSpec(toks, c2)
        case Failed(f) => Failed(f)
        case Parsed(body, c3) => Parsed(Desugar(initializer, condition, increment, body), c3)
  }

  /** A parsed `for` tail is the desugaring of the clauses it was given,
      the increment it parsed (none when ')' came first) and the body it
      parsed after the ')'. */
  lemma ForTailDesugars(toks: seq<Token>, initializer: Option<Stmt>, condition: Option<Expr>, c: Cursor)
    requires InBounds(toks, c)
    ensures var r := ForTailSpec(toks, initializer, condition, c);
      r.Parsed? ==>
        var increment := ClauseSpec(toks, c, RIGHT_PAREN);
        && increment.Parsed?
        && var paren := Consume(toks, increment.rest, RIGHT_PAREN, "Expect ')' after 'for' clauses.");
        && paren.Parsed?
        && var body := StatementSpec(toks, paren.rest);
        && body.Parsed?
        && r == Parsed(Desugar(initializer, condition, increment.value, body.value), body.rest)
  {
  }

  /** The initializer clause of a `for`: nothing before a ';', a `var`
      declaration, or an expression statement. */
  function ForInitializerSpec(toks: seq<Token>, c: Cursor): (r: ParseResult<Option<Stmt>>)
    requires InBounds(toks, c)
    ensures Progress(toks, c, r)
  {
    if Matches(toks, c, [SEMICOLON]) then Parsed(None, Advance(toks, c))
    else if Matches(toks, c, [VAR]) then
      match VarDeclarationSpec(toks, Advance(toks, c))
      case Failed(f) => Failed(f)
      case Parsed(s, c1) => Parsed(Some(s), c1)
    else
      match ExpressionStatementSpec(toks, c)
      case Failed(f) => Failed(f)
      case Parsed(s, c1) => Parsed(Some(s), c1)
  }

  /** The condition or increment clause of a `for`: an expression unless
      the clause's terminator comes first. */
  function ClauseSpec(toks: seq<Token>, c: Cursor, terminator: TokenType): (r: ParseResult<Option<Expr>>)
    requires InBounds(toks, c)
    ensures Advances(toks, c, r)
    ensures r.Parsed? && r.value.None? ==> r.rest == c
  {
    if !Check(toks, c, terminator) then
      match ExpressionSpec(toks, c)
      case Failed(f) => Failed(f)
      case Parsed(e, c1) => Parsed(Some(e), c1)
    else
      Parsed(None, c)
  }

  /** `whileStatement()`, after the `while`. */
  function WhileSpec(toks: seq<Token>, c: Cursor): (r: ParseResult<Stmt>)
    requires InBounds(toks, c)
    ensures Progress(toks, c, r)
    ensures r.Parsed? ==> r.value.While?
    decreases |toks| - c.pos, 0
  {
    match Consume(toks, c, LEFT_PAREN, "Expect ( after while.")
    case Failed(f) => Failed(f)
    case Parsed(_, c1) =>
      match ExpressionSpec(toks, c1)
      case Failed(f) => Failed(f)
      case Parsed(condition, c2) =>
        match Consume(toks, c2, RIGHT_PAREN, "Expect ) after condition.")
        case Failed(f) => Failed(f)
        case Parsed(_, c3) =>
          match StatementSpec(toks, c3)
          case Failed(f) => Failed(f)
          case Parsed(body, c4) => Parsed(While(condition, body), c4)
  }

  /** `ifStatement()`, after the `if`: the parenthesised condition, then
      the branches. */
  function IfSpec(toks: seq<Token>, c: Cursor): (r: ParseResult<Stmt>)
    requires InBounds(toks, c)
    ensures Progress(toks, c, r)
    ensures r.Parsed? ==> r.value.If?
    ensures r.Parsed? && r.value.elseBranch.None? ==> !Check(toks, r.rest, ELSE)
    ensures r.Parsed? && r.value.thenBranch.If? && r.value.thenBranch.elseBranch.None? ==> r.value.elseBranch.None?
    decreases |toks| - c.pos, 0
  {
    match Consume(toks, c, LEFT_PAREN, "Expect '(' after 'if'.")
    case Failed(f) => Failed(f)
    case Parsed(_, c1) =>
      match ExpressionSpec(toks, c1)
      case Failed(f) => Failed(f)
      case Parsed(condition, c2) =>
        match Consume(toks, c2, RIGHT_PAREN, "Expect ')' after if condition.")
        case Failed(f) => Failed(f)
        case Parsed(_, c3) => BranchesSpec(toks, condition, c3)
  }

  /** The branches of `ifStatement()`. An `else` after the then-branch is
      taken here, so a then-branch that is itself an If without an else is
      never followed by one: `else` belongs to the nearest `if`. */
  function BranchesSpec(toks: seq<Token>, condition: Expr, c: Cursor): (r: ParseResult<Stmt>)
    requires InBounds(toks, c)
    ensures Progress(toks, c, r)
    ensures r.Parsed? ==> r.value.If?
    ensures r.Parsed? && r.value.elseBranch.None? ==> !Check(toks, r.rest, ELSE)
    ensures r.Parsed? && r.value.thenBranch.If? && r.value.thenBranch.elseBranch.None? ==> r.value.elseBranch.None?
    decreases |toks| - c.pos, 2
  {
    match StatementSpec(toks, c)
    case Failed(f) => Failed(f)
    case Parsed(thenBranch, c1) =>
      if Matches(toks, c1, [ELSE]) then
        match StatementSpec(toks, Advance(toks, c1))
        case Failed(f) => Failed(f)
        case Parsed(elseBranch, c2) => Parsed(If(condition, thenBranch, Some(elseBranch)), c2)
      else
        Parsed(If(condition, thenBranch, None), c1)
  }

  /** `printStatement()`, after the `print`. */
  function PrintSpec(toks: seq<Token>, c: Cursor): (r: ParseResult<Stmt>)
    requires InBounds(toks, c)
    ensures Progress(toks, c, r)
    ensures r.Parsed? ==> r.value.Print?
  {
    match ExpressionSpec(toks, c)
    case Failed(f) => Failed(f)
    case Parsed(value, c1) =>
      match Consume(toks, c1, SEMICOLON, "Expect ';' after value.")
      case Failed(f) => Failed(f)
      case Parsed(_, c2) => Parsed(Print(value), c2)
  }

  /** `expressionStatement()`. */
  function ExpressionStatementSpec(toks: seq<Token>, c: Cursor): (r: ParseResult<Stmt>)
    requires InBounds(toks, c)
    ensures Progress(toks, c, r)
    ensures r.Parsed? ==> r.value.Expression?
  {
    match ExpressionSpec(toks, c)
    case Failed(f) => Failed(f)
    case Parsed(e, c1) =>
      match Consume(toks, c1, SEMICOLON, "Expect ';' after expression.")
      case Failed(f) => Failed(f)
      case Parsed(_, c2) => Parsed(Expression(e), c2)
  }

  /** `block()`, after the '{'. */
  function BlockSpec(toks: seq<Token>, c: Cursor): (r: ParseResult<seq<Option<Stmt>>>)
    requires InBounds(toks, c)
    ensures Progress(toks, c, r)
    decreases |toks| - c.pos, 5
  {
    BlockLoop(toks, c, [])
  }

  /** The loop of `block()`: declarations up to a '}' or the end, then the
      '}'. */
  function BlockLoop(toks: seq<Token>, c: Cursor, statements: seq<Option<Stmt>>): (r: ParseResult<seq<Option<Stmt>>>)
    requires InBounds(toks, c)
    ensures Progress(toks, c, r)
    ensures r.Parsed? ==> statements <= r.value
    decreases |toks| - c.pos, 4
  {
    if !Check(toks, c, RIGHT_BRACE) && !AtEnd(toks, c) then
      var d := DeclarationSpec(toks, c);
      BlockLoop(toks, d.rest, statements + [d.value])
    else
      match Consume(toks, c, RIGHT_BRACE, "Expect '}' after block.")
      case Failed(f) => Failed(f)
      case Parsed(_, c1) => Parsed(statements, c1)
  }

  /** The loop of `parse()`: one entry per declaration up to the end of
      input, where it stops. */
  function ParseLoop(toks: seq<Token>, c: Cursor, statements: seq<Option<Stmt>>): (r: (seq<Option<Stmt>>, Cursor))
    requires InBounds(toks, c)
    ensures InBounds(toks, r.1) && Extends(c, r.1) && AtEnd(toks, r.1)
    ensures statements <= r.0
    decreases |toks| - c.pos
  {
    if AtEnd(toks, c) then (statements, c)
    else
      var d := DeclarationSpec(toks, c);
      ParseLoop(toks, d.rest, statements + [d.value])
  }

  /** `parse()` on a fresh parser. */
  function ParseSpec(toks: seq<Token>): (r: (seq<Option<Stmt>>, Cursor))
    requires ValidTokens(toks)
    ensures InBounds(toks, r.1) && AtEnd(toks, r.1)
  {
    ParseLoop(toks, Cursor(0, []), [])
  }

  // ---------------------------------------------------------------------
  // Precedence and associativity, stated over the shapes.

  /** A tree of a tighter level (or a unary or primary tree) never has a
      node of a looser level at its top. */
  lemma {:induction false} NoLooserNodeOnTop(level: nat, m: nat, e: Expr)
    requires level < m <= 6 && ShapeAt(m, e)
    ensures !IsNodeAt(level, e)
    decreases 6 - m
  {
    if m < 6 && !(IsNodeAt(m, e) && ShapeAt(m, e.left) && ShapeAt(m + 1, e.right)) {
      NoLooserNodeOnTop(level, m + 1, e);
    }
  }

  /** A node built by level `level` is a left fold: its left operand is a
      tree of the same level, and its right operand has no node of this or
      a looser level at its top (so `a - b - c` is `(a - b) - c`, and
      `a * b + c` is `(a * b) + c`). */
  lemma LeftAssociative(level: nat, e: Expr)
    requires level < 6 && ShapeAt(level, e) && IsNodeAt(level, e)
    ensures ShapeAt(level, e.left) && ShapeAt(level + 1, e.right)
    ensures forall m: nat :: m <= level ==> !IsNodeAt(m, e.right)
    ensures forall m: nat :: m < level ==> !IsNodeAt(m, e.left)
  {
    if ShapeAt(level + 1, e) {
      NoLooserNodeOnTop(level, level + 1, e);
    }
    forall m: nat | m <= level
      ensures !IsNodeAt(m, e.right)
    {
      NoLooserNodeOnTop(m, level + 1, e.right);
    }
    forall m: nat | m < level
      ensures !IsNodeAt(m, e.left)
    {
      NoLooserNodeOnTop(m, level, e.left);
    }
  }

  /** A node of level `m` that is a tree of a looser level is a tree of
      level `m` itself. */
  lemma {:induction false} NodeKeepsItsLevel(level: nat, m: nat, e: Expr)
    requires level <= m < 6 && ShapeAt(level, e) && IsNodeAt(m, e)
    ensures ShapeAt(m, e)
    decreases m - level
  {
    if level < m {
      if ShapeAt(level + 1, e) {
        NodeKeepsItsLevel(level + 1, m, e);
      }
    }
  }

  /** Every tree an expression parse returns is an or-level tree, unless it
      is an assignment. */
  lemma AssignShapeOfNode(e: Expr, m: nat)
    requires m < 6 && AssignShape(e) && IsNodeAt(m, e)
    ensures ShapeAt(m, e)
  {
    NodeKeepsItsLevel(0, m, e);
  }

  /** No parse ever yields `a - (b - c)` without the parentheses. */
  lemma MinusIsNotRightNested(a: Expr, op1: Token, b: Expr, op2: Token, c: Expr)
    requires op1.kind == MINUS && op2.kind == MINUS
    ensures !AssignShape(Binary(a, op1, Binary(b, op2, c)))
  {
    var e := Binary(a, op1, Binary(b, op2, c));
    if AssignShape(e) {
      AssignShapeOfNode(e, 4);
      LeftAssociative(4, e);
      assert IsNodeAt(4, e.right);
      assert false;
    }
  }

  /** No parse ever yields `(a + b) * c` without the parentheses. */
  lemma SumIsNotAFactor(a: Expr, op1: Token, b: Expr, op2: Token, c: Expr)
    requires op1.kind == PLUS && op2.kind == STAR
    ensures !AssignShape(Binary(Binary(a, op1, b), op2, c))
  {
    var e := Binary(Binary(a, op1, b), op2, c);
    if AssignShape(e) {
      AssignShapeOfNode(e, 5);
      LeftAssociative(5, e);
      assert IsNodeAt(4, e.left);
      assert false;
    }
  }

  /** An assignment's target is always a variable named by an identifier. */
  lemma {:induction false} VariableNamedByIdentifier(level: nat, e: Expr)
    requires level <= 6 && ShapeAt(level, e) && e.Variable?
    ensures e.name.kind == IDENTIFIER
    decreases 6 - level
  {
    if level < 6 {
      VariableNamedByIdentifier(level + 1, e);
    }
  }

  // ---------------------------------------------------------------------
  // The `for` desugaring.

  /** The default `for` condition. */
  const DefaultCondition: Expr := Literal(TokenTypeValue(TRUE))

  /** What `for (init; cond; incr) body` becomes: a While directly when
      there is no initializer, else a two-statement Block of the initializer
      and that While; the While tests the condition (the default one when
      it is missing) and runs the body followed by the increment as an
      expression statement when there is one, else the bare body. */
  lemma DesugarShape(initializer: Option<Stmt>, condition: Option<Expr>, increment: Option<Expr>, body: Stmt)
    ensures var s := Desugar(initializer, condition, increment, body);
      && (initializer.None? <==> s.While?)
      && (initializer.Some? ==> s.Block? && |s.statements| == 2 && s.statements[0] == initializer && s.statements[1].Some?)
      && var loop := if s.Block? then s.statements[1].value else s;
      && loop.While?
      && loop.condition == (if condition.Some? then condition.value else DefaultCondition)
      && (increment.None? ==> loop.body == body)
      && (increment.Some? ==> loop.body == Block([Some(body), Some(Expression(increment.value))]))
  {
  }
}
