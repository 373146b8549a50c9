/** The recursive-descent parser object: a cursor over the token list that
    reports syntax errors as it goes. A ParseError thrown by a method is the
    result ParseError here. Each method is proved to compute the function of
    module Grammar that has the same name, so what the lemmas and contracts
    there say holds of the parser. */
module Parsing {
  import opened Wrappers
  import opened Tokens
  import opened Ast
  import opened Grammar

  /** A parsing method's outcome: its value, or the ParseError it throws. */
  datatype Attempt<+T> = Success(value: T) | ParseError

  /** An outcome together with the parser's state after it. */
  function Packed<T>(a: Attempt<T>, c: Cursor): (r: ParseResult<T>)
    ensures r.rest == c && (r.Parsed? <==> a.Success?)
    ensures a.Success? ==> r.value == a.value
  {
    if a.Success? then Parsed(a.value, c) else Failed(c)
  }

  class Parser {
    const tokens: seq<Token>
    var current: nat
    /** The syntax errors reported so far (what `Lox.error` prints). */
    var diagnostics: seq<Diagnostic>

    ghost predicate Valid()
      reads this
    {
      InBounds(tokens, Cur())
    }

    /** The parser's state. */
    function Cur(): Cursor
      reads this
    {
      Cursor(current, diagnostics)
    }

    constructor (tokens: seq<Token>)
      requires ValidTokens(tokens)
      ensures Valid() && this.tokens == tokens && current == 0 && diagnostics == []
    {
      this.tokens := tokens;
      current := 0;
      diagnostics := [];
    }

    /** Declarations up to the end of input, one entry each (None for one
        that did not parse). */
    method Parse() returns (statements: seq<Option<Stmt>>)
      requires Valid()
      modifies this
      ensures Valid() && (statements, Cur()) == ParseLoop(tokens, old(Cur()), [])
    {
      statements := [];
      while !IsAtEnd()
        invariant Valid()
        invariant ParseLoop(tokens, Cur(), statements) == ParseLoop(tokens, old(Cur()), [])
        decreases |tokens| - current
      {
        var s := Declaration();
        statements := statements + [s];
      }
    }

    method Declaration() returns (s: Option<Stmt>)
      requires Valid() && !IsAtEnd()
      modifies this
      ensures Valid() && Parsed(s, Cur()) == DeclarationSpec(tokens, old(Cur()))
      decreases |tokens| - current, 3
    {
      var attempt;
      var isVar := Match([VAR]);
      if isVar {
        attempt := VarDeclaration();
      } else {
        attempt := Statement();
      }
      match attempt
      case Success(stmt) =>
        return Some(stmt);
      case ParseError =>
        Synchronize();
        return None;
    }

    /** After the `var`. */
    method VarDeclaration() returns (r: Attempt<Stmt>)
      requires Valid()
      modifies this
      ensures Valid() && Packed(r, Cur()) == VarDeclarationSpec(tokens, old(Cur()))
    {
      var name := Consume(IDENTIFIER, "Expect variable name.");
      if name.ParseError? {
        return ParseError;
      }

      var initializer: Option<Expr> := None;
      var hasInitializer := Match([EQUAL]);
      if hasInitializer {
        var e := Expression();
        if e.ParseError? {
          return ParseError;
        }
        initializer := Some(e.value);
      }

      var semicolon := Consume(SEMICOLON, "Expect ';' after variable declaration.");
      if semicolon.ParseError? {
        return ParseError;
      }
      return Success(Var(name.value, initializer));
    }

    method Statement() returns (r: Attempt<Stmt>)
      requires Valid()
      modifies this
      ensures Valid() && Packed(r, Cur()) == StatementSpec(tokens, old(Cur()))
      decreases |tokens| - current, 1
    {
      var matched := Match([FOR]);
      if matched {
        r := ForStatement();
        return;
      }
      matched := Match([IF]);
      if matched {
        r := IfStatement();
        return;
      }
      matched := Match([PRINT]);
      if matched {
        r := PrintStatement();
        return;
      }
      matched := Match([WHILE]);
      if matched {
        r := WhileStatement();
        return;
      }
      matched := Match([LEFT_BRACE]);
      if matched {
        var statements := Block();
        r := if statements.Success? then Success(Stmt.Block(statements.value)) else ParseError;
        return;
      }
      r := ExpressionStatement();
    }

    /** After the `for`: the clauses, the body, and the desugaring into a
        While. */
    method ForStatement() returns (r: Attempt<Stmt>)
      requires Valid()
      modifies this
      ensures Valid() && Packed(r, Cur()) == ForSpec(tokens, old(Cur()))
      decreases |tokens| - current, 0
    {
      var paren := Consume(LEFT_PAREN, "Expect '(' after 'for'.");
      if paren.ParseError? {
        return ParseError;
      }

      var initializer := ForInitializer();
      if initializer.ParseError? {
        return ParseError;
      }

      var condition := Clause(SEMICOLON);
      if condition.ParseError? {
        return ParseError;
      }
      var semicolon := Consume(SEMICOLON, "Expect ';' after loop condition.");
      if semicolon.ParseError? {
        return ParseError;
      }
      r := ForTail(initializer.value, condition.value);
    }

    /** The increment clause, the body and the desugaring. */
    method ForTail(initializer: Option<Stmt>, condition: Option<Expr>) returns (r: Attempt<Stmt>)
      requires Valid()
      modifies this
      ensures Valid() && Packed(r, Cur()) == ForTailSpec(tokens, initializer, condition, old(Cur()))
      decreases |tokens| - current, 0
    {
      var increment := Clause(RIGHT_PAREN);
      if increment.ParseError? {
        return ParseError;
      }
      var paren := Consume(RIGHT_PAREN, "Expect ')' after 'for' clauses.");
      if paren.ParseError? {
        return ParseError;
      }

      var body := Statement();
      if body.ParseError? {
        return ParseError;
      }

      var loop := body.value;
      if increment.value.Some? {
        loop := Stmt.Block([Some(loop), Some(Stmt.Expression(increment.value.value))]);
      }
      var test := if condition.Some? then condition.value else Literal(TokenTypeValue(TRUE));
      loop := While(test, loop);
      if initializer.Some? {
        loop := Stmt.Block([initializer, Some(loop)]);
      }
      return Success(loop);
    }

    /** The initializer clause of a `for`. */
    method ForInitializer() returns (r: Attempt<Option<Stmt>>)
      requires Valid()
      modifies this
      ensures Valid() && Packed(r, Cur()) == ForInitializerSpec(tokens, old(Cur()))
    {
      var isSemicolon := Match([SEMICOLON]);
      if isSemicolon {
        return Success(None);
      }
      var isVar := Match([VAR]);
      var s;
      if isVar {
        s := VarDeclaration();
      } else {
        s := ExpressionStatement();
      }
      return if s.Success? then Success(Some(s.value)) else ParseError;
    }

    /** The condition or increment clause of a `for`. */
    method Clause(terminator: TokenType) returns (r: Attempt<Option<Expr>>)
      requires Valid()
      modifies this
      ensures Valid() && Packed(r, Cur()) == ClauseSpec(tokens, old(Cur()), terminator)
    {
      if !Check(terminator) {
        var e := Expression();
        return if e.Success? then Success(Some(e.value)) else ParseError;
      }
      return Success(None);
    }

    /** After the `while`. */
    method WhileStatement() returns (r: Attempt<Stmt>)
      requires Valid()
      modifies this
      ensures Valid() && Packed(r, Cur()) == WhileSpec(tokens, old(Cur()))
      decreases |tokens| - current, 0
    {
      var paren := Consume(LEFT_PAREN, "Expect ( after while.");
      if paren.ParseError? {
        return ParseError;
      }
      var condition := Expression();
      if condition.ParseError? {
        return ParseError;
      }
      paren := Consume(RIGHT_PAREN, "Expect ) after condition.");
      if paren.ParseError? {
        return ParseError;
      }

      var body := Statement();
      if body.ParseError? {
        return ParseError;
      }
      return Success(While(condition.value, body.value));
    }

    /** After the `if`. */
    method IfStatement() returns (r: Attempt<Stmt>)
      requires Valid()
      modifies this
      ensures Valid() && Packed(r, Cur()) == IfSpec(tokens, old(Cur()))
      decreases |tokens| - current, 0
    {
      var paren := Consume(LEFT_PAREN, "Expect '(' after 'if'.");
      if paren.ParseError? {
        return ParseError;
      }
      var condition := Expression();
      if condition.ParseError? {
        return ParseError;
      }
      paren := Consume(RIGHT_PAREN, "Expect ')' after if condition.");
      if paren.ParseError? {
        return ParseError;
      }
      r := Branches(condition.value);
    }

    /** The then-branch and the optional else-branch. */
    method Branches(condition: Expr) returns (r: Attempt<Stmt>)
      requires Valid()
      modifies this
      ensures Valid() && Packed(r, Cur()) == BranchesSpec(tokens, condition, old(Cur()))
      decreases |tokens| - current, 2
    {
      var thenBranch := Statement();
      if thenBranch.ParseError? {
        return ParseError;
      }
      var elseBranch: Option<Stmt> := None;
      var hasElse := Match([ELSE]);
      if hasElse {
        var s := Statement();
        if s.ParseError? {
          return ParseError;
        }
        elseBranch := Some(s.value);
      }
      return Success(If(condition, thenBranch.value, elseBranch));
    }

    /** After the `print`. */
    method PrintStatement() returns (r: Attempt<Stmt>)
      requires Valid()
      modifies this
      ensures Valid() && Packed(r, Cur()) == PrintSpec(tokens, old(Cur()))
    {
      var value := Expression();
      if value.ParseError? {
        return ParseError;
      }
      var semicolon := Consume(SEMICOLON, "Expect ';' after value.");
      if semicolon.ParseError? {
        return ParseError;
      }
      return Success(Print(value.value));
    }

    method ExpressionStatement() returns (r: Attempt<Stmt>)
      requires Valid()
      modifies this
      ensures Valid() && Packed(r, Cur()) == ExpressionStatementSpec(tokens, old(Cur()))
    {
      var expr := Expression();
      if expr.ParseError? {
        return ParseError;
      }
      var semicolon := Consume(SEMICOLON, "Expect ';' after expression.");
      if semicolon.ParseError? {
        return ParseError;
      }
      return Success(Stmt.Expression(expr.value));
    }

    method Expression() returns (r: Attempt<Expr>)
      requires Valid()
      modifies this
      ensures Valid() && Packed(r, Cur()) == ExpressionSpec(tokens, old(Cur()))
      decreases |tokens| - current, 15
    {
      r := Assignment();
    }

    method Assignment() returns (r: Attempt<Expr>)
      requires Valid()
      modifies this
      ensures Valid() && Packed(r, Cur()) == AssignmentSpec(tokens, old(Cur()))
      decreases |tokens| - current, 14
    {
      var expr := Or();
      if expr.ParseError? {
        return ParseError;
      }

      var isAssignment := Match([EQUAL]);
      if isAssignment {
        var equals := Previous();
        var value := Assignment();
        if value.ParseError? {
          return ParseError;
        }

        if expr.value.Variable? {
          var name := expr.value.name;
          return Success(Assign(name, value.value));
        }

        Error(equals, "Invalid assignment target.");
      }

      return expr;
    }

    method Or() returns (r: Attempt<Expr>)
      requires Valid()
      modifies this
      ensures Valid() && Packed(r, Cur()) == LevelSpec(tokens, old(Cur()), 0)
      decreases |tokens| - current, 13
    {
      var expr := And();
      if expr.ParseError? {
        return ParseError;
      }
      r := OrOperands(expr.value);
    }

    /** The `while (match(...))` loop of `or()`, folding further
        operands onto `left`. */
    method OrOperands(left: Expr) returns (r: Attempt<Expr>)
      requires Valid()
      modifies this
      ensures Valid() && Packed(r, Cur()) == FoldSpec(tokens, 0, left, old(Cur()))
      decreases |tokens| - current, 12
    {
      var expr := left;
      while true
        invariant Valid()
        invariant FoldSpec(tokens, 0, expr, Cur()) == FoldSpec(tokens, 0, left, old(Cur()))
        decreases |tokens| - current
      {
        ghost var before := Cur();
        var matched := Match(OrOperators);
        if !matched {
          return Success(expr);
        }
        var operator := Previous();
        var right := And();
        if right.ParseError? {
          return ParseError;
        }
        FoldStep(tokens, 0, expr, before, right.value, Cur());
        expr := Logical(expr, operator, right.value);
      }
    }

    method And() returns (r: Attempt<Expr>)
      requires Valid()
      modifies this
      ensures Valid() && Packed(r, Cur()) == LevelSpec(tokens, old(Cur()), 1)
      decreases |tokens| - current, 11
    {
      var expr := Equality();
      if expr.ParseError? {
        return ParseError;
      }
      r := AndOperands(expr.value);
    }

    /** The `while (match(...))` loop of `and()`, folding further
        operands onto `left`. */
    method AndOperands(left: Expr) returns (r: Attempt<Expr>)
      requires Valid()
      modifies this
      ensures Valid() && Packed(r, Cur()) == FoldSpec(tokens, 1, left, old(Cur()))
      decreases |tokens| - current, 10
    {
      var expr := left;
      while true
        invariant Valid()
        invariant FoldSpec(tokens, 1, expr, Cur()) == FoldSpec(tokens, 1, left, old(Cur()))
        decreases |tokens| - current
      {
        ghost var before := Cur();
        var matched := Match(AndOperators);
        if !matched {
          return Success(expr);
        }
        var operator := Previous();
        var right := Equality();
        if right.ParseError? {
          return ParseError;
        }
        FoldStep(tokens, 1, expr, before, right.value, Cur());
        expr := Logical(expr, operator, right.value);
      }
    }

    method Equality() returns (r: Attempt<Expr>)
      requires Valid()
      modifies this
      ensures Valid() && Packed(r, Cur()) == LevelSpec(tokens, old(Cur()), 2)
      decreases |tokens| - current, 9
    {
      var expr := Comparison();
      if expr.ParseError? {
        return ParseError;
      }
      r := EqualityOperands(expr.value);
    }

    /** The `while (match(...))` loop of `equality()`, folding further
        operands onto `left`. */
    method EqualityOperands(left: Expr) returns (r: Attempt<Expr>)
      requires Valid()
      modifies this
      ensures Valid() && Packed(r, Cur()) == FoldSpec(tokens, 2, left, old(Cur()))
      decreases |tokens| - current, 8
    {
      var expr := left;
      while true
        invariant Valid()
        invariant FoldSpec(tokens, 2, expr, Cur()) == FoldSpec(tokens, 2, left, old(Cur()))
        decreases |tokens| - current
      {
        ghost var before := Cur();
        var matched := Match(EqualityOperators);
        if !matched {
          return Success(expr);
        }
        var operator := Previous();
        var right := Comparison();
        if right.ParseError? {
          return ParseError;
        }
        FoldStep(tokens, 2, expr, before, right.value, Cur());
        expr := Binary(expr, operator, right.value);
      }
    }

    /** Consumes the current token when it is of one of the kinds. */
    method Match(kinds: seq<TokenType>) returns (matched: bool)
      requires Valid()
      modifies this`current
      ensures Valid()
      ensures matched == Matches(tokens, old(Cur()), kinds)
      ensures Cur() == if matched then Grammar.Advance(tokens, old(Cur())) else old(Cur())
    {
      for i := 0 to |kinds|
        invariant Cur() == old(Cur())
        invariant forall j :: 0 <= j < i ==> !Check(kinds[j])
      {
        if Check(kinds[i]) {
          var _ := Advance();
          return true;
        }
      }
      return false;
    }

    /** Whether the current token is of the kind (never at the end). */
    predicate Check(kind: TokenType)
      reads this
      requires Valid()
    {
      if IsAtEnd() then false else Peek().kind == kind
    }

    /** Moves one token forward unless at the end, and returns the token
        moved over (the last one before the cursor). */
    method Advance() returns (t: Token)
      requires Valid() && (current > 0 || !IsAtEnd())
      modifies this`current
      ensures Valid() && Cur() == Grammar.Advance(tokens, old(Cur()))
      ensures 0 < current && t == tokens[current - 1]
    {
      if !IsAtEnd() {
        current := current + 1;
      }
      return Previous();
    }

    predicate IsAtEnd()
      reads this
      requires Valid()
    {
      Peek().kind == EOF
    }

    function Peek(): Token
      reads this
      requires Valid()
    {
      tokens[current]
    }

    function Previous(): Token
      reads this
      requires 0 < current <= |tokens|
    {
      tokens[current - 1]
    }

    method Comparison() returns (r: Attempt<Expr>)
      requires Valid()
      modifies this
      ensures Valid() && Packed(r, Cur()) == LevelSpec(tokens, old(Cur()), 3)
      decreases |tokens| - current, 7
    {
      var expr := Term();
      if expr.ParseError? {
        return ParseError;
      }
      r := ComparisonOperands(expr.value);
    }

    /** The `while (match(...))` loop of `comparison()`, folding further
        operands onto `left`. */
    method ComparisonOperands(left: Expr) returns (r: Attempt<Expr>)
      requires Valid()
      modifies this
      ensures Valid() && Packed(r, Cur()) == FoldSpec(tokens, 3, left, old(Cur()))
      decreases |tokens| - current, 6
    {
      var expr := left;
      while true
        invariant Valid()
        invariant FoldSpec(tokens, 3, expr, Cur()) == FoldSpec(tokens, 3, left, old(Cur()))
        decreases |tokens| - current
      {
        ghost var before := Cur();
        var matched := Match(ComparisonOperators);
        if !matched {
          return Success(expr);
        }
        var operator := Previous();
        var right := Term();
        if right.ParseError? {
          return ParseError;
        }
        FoldStep(tokens, 3, expr, before, right.value, Cur());
        expr := Binary(expr, operator, right.value);
      }
    }

    method Term() returns (r: Attempt<Expr>)
      requires Valid()
      modifies this
      ensures Valid() && Packed(r, Cur()) == LevelSpec(tokens, old(Cur()), 4)
      decreases |tokens| - current, 5
    {
      var expr := Factor();
      if expr.ParseError? {
        return ParseError;
      }
      r := TermOperands(expr.value);
    }

    /** The `while (match(...))` loop of `term()`, folding further
        operands onto `left`. */
    method TermOperands(left: Expr) returns (r: Attempt<Expr>)
      requires Valid()
      modifies this
      ensures Valid() && Packed(r, Cur()) == FoldSpec(tokens, 4, left, old(Cur()))
      decreases |tokens| - current, 4
    {
      var expr := left;
      while true
        invariant Valid()
        invariant FoldSpec(tokens, 4, expr, Cur()) == FoldSpec(tokens, 4, left, old(Cur()))
        decreases |tokens| - current
      {
        ghost var before := Cur();
        var matched := Match(TermOperators);
        if !matched {
          return Success(expr);
        }
        var operator := Previous();
        var right := Factor();
        if right.ParseError? {
          return ParseError;
        }
        FoldStep(tokens, 4, expr, before, right.value, Cur());
        expr := Binary(expr, operator, right.value);
      }
    }

    method Factor() returns (r: Attempt<Expr>)
      requires Valid()
      modifies this
      ensures Valid() && Packed(r, Cur()) == LevelSpec(tokens, old(Cur()), 5)
      decreases |tokens| - current, 3
    {
      var expr := Unary();
      if expr.ParseError? {
        return ParseError;
      }
      r := FactorOperands(expr.value);
    }

    /** The `while (match(...))` loop of `factor()`, folding further
        operands onto `left`. */
    method FactorOperands(left: Expr) returns (r: Attempt<Expr>)
      requires Valid()
      modifies this
      ensures Valid() && Packed(r, Cur()) == FoldSpec(tokens, 5, left, old(Cur()))
      decreases |tokens| - current, 2
    {
      var expr := left;
      while true
        invariant Valid()
        invariant FoldSpec(tokens, 5, expr, Cur()) == FoldSpec(tokens, 5, left, old(Cur()))
        decreases |tokens| - current
      {
        ghost var before := Cur();
        var matched := Match(FactorOperators);
        if !matched {
          return Success(expr);
        }
        var operator := Previous();
        var right := Unary();
        if right.ParseError? {
          return ParseError;
        }
        FoldStep(tokens, 5, expr, before, right.value, Cur());
        expr := Binary(expr, operator, right.value);
      }
    }

    method Unary() returns (r: Attempt<Expr>)
      requires Valid()
      modifies this
      ensures Valid() && Packed(r, Cur()) == UnarySpec(tokens, old(Cur()))
      decreases |tokens| - current, 1
    {
      var matched := Match([BANG, MINUS]);
      if matched {
        var operator := Previous();
        var right := Unary();
        return if right.Success? then Success(Expr.Unary(operator, right.value)) else ParseError;
      }
      r := Primary();
    }

    method Primary() returns (r: Attempt<Expr>)
      requires Valid()
      modifies this
      ensures Valid() && Packed(r, Cur()) == PrimarySpec(tokens, old(Cur()))
      decreases |tokens| - current, 0
    {
      var matched := Match([FALSE]);
      if matched {
        return Success(Literal(Bool(false)));
      }
      matched := Match([TRUE]);
      if matched {
        return Success(Literal(Bool(true)));
      }
      matched := Match([NIL]);
      if matched {
        return Success(Literal(Nil));
      }

      matched := Match([NUMBER, STRING]);
      if matched {
        return Success(Literal(Previous().literal));
      }

      matched := Match([IDENTIFIER]);
      if matched {
        return Success(Variable(Previous()));
      }

      matched := Match([LEFT_PAREN]);
      if matched {
        var expr := Expression();
        if expr.ParseError? {
          return ParseError;
        }
        var paren := Consume(RIGHT_PAREN, "Expect ')' after expression.");
        if paren.ParseError? {
          return ParseError;
        }
        return Success(Grouping(expr.value));
      }

      Error(Peek(), "Expect expression.");
      return ParseError;
    }

    method Consume(kind: TokenType, message: string) returns (r: Attempt<Token>)
      requires Valid()
      modifies this`current, this`diagnostics
      ensures Valid() && Packed(r, Cur()) == Grammar.Consume(tokens, old(Cur()), kind, message)
    {
      if Check(kind) {
        var t := Advance();
        return Success(t);
      }

      Error(Peek(), message);
      return ParseError;
    }

    /** After the '{': declarations up to the '}'. */
    method Block() returns (r: Attempt<seq<Option<Stmt>>>)
      requires Valid()
      modifies this
      ensures Valid() && Packed(r, Cur()) == BlockSpec(tokens, old(Cur()))
      decreases |tokens| - current, 5
    {
      var statements := [];

      while !Check(RIGHT_BRACE) && !IsAtEnd()
        invariant Valid()
        invariant BlockLoop(tokens, Cur(), statements) == BlockLoop(tokens, old(Cur()), [])
        decreases |tokens| - current
      {
        var s := Declaration();
        statements := statements + [s];
      }

      var brace := Consume(RIGHT_BRACE, "Expect '}' after block.");
      if brace.ParseError? {
        return ParseError;
      }
      return Success(statements);
    }

    /** Reports a syntax error at the token (the caller decides whether to
        throw). */
    method Error(token: Token, message: string)
      modifies this`diagnostics
      ensures diagnostics == old(diagnostics) + [Diagnostic(token.line, message)]
    {
      diagnostics := diagnostics + [Diagnostic(token.line, message)];
    }

    /** Skips tokens until a statement boundary. */
    method Synchronize()
      requires Valid() && (current > 0 || !IsAtEnd())
      modifies this`current
      ensures Valid() && Cur() == SynchronizeSpec(tokens, old(Cur()))
    {
      var _ := Advance();
      ghost var first := current;

      while !IsAtEnd()
        invariant Valid() && 0 < current && first <= current
        invariant SyncLoop(tokens, current) == SyncLoop(tokens, first)
        decreases |tokens| - current
      {
        if Previous().kind == SEMICOLON {
          return;
        }

        // CLASS, FUN, VAR, FOR, IF, WHILE, PRINT or RETURN.
        if Peek().kind in StatementStarts {
          return;
        }

        var _ := Advance();
      }
    }
  }

  /** Parsing a fresh parser's token list yields ParseSpec's statements and
      reports. */
  method ParseAll(tokens: seq<Token>) returns (statements: seq<Option<Stmt>>, diagnostics: seq<Diagnostic>)
    requires ValidTokens(tokens)
    ensures statements == ParseSpec(tokens).0 && diagnostics == ParseSpec(tokens).1.diags
  {
    var parser := new Parser(tokens);
    statements := parser.Parse();
    diagnostics := parser.diagnostics;
  }
}
