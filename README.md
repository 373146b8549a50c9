# NLox core in Dafny

A model of the core of NLox, a tree-walking interpreter for the Lox language
written in C#. Source text flows through a pipeline of parts:

- **The scanner** (`Scanner`) turns the source text into tokens. Syntax
  problems go to a diagnostics log.
- **The parser** (`Parser`) is a recursive-descent parser. It turns the
  tokens into statement and expression trees, and recovers after syntax
  errors.
- **The AST node types** are modelled with their visitors. The code-generated
  `Expr`/`Stmt` files are the full tree. The older four-kind `Expr` is the
  one the evaluator and the printer visit.
- **The expression evaluator** (`Interpreter`).
- **The variable scope chain** (`Environment`).
- **The debugging printer** (`AstPrinter`).

Where the source updates state in place, the model is imperative:

- `Scanner`, `Parser` and `Environment` are classes, with the source's
  fields and methods.
- Each method is proved to have the effect of a pure function. That
  function is applied to the state before the call.
  - Scanner methods are proved against `ScanStep`, `ScanFrom` and `ScanSource`.
  - Parser methods are proved against the functions of module `Grammar`.
  - Environment methods are proved against `DefineIn`, `AssignIn` and `Find`.
- What the source promises is proved as lemmas about those functions.

Where the source is expressions and recursion, the model is datatypes,
functions and lemmas. This covers the nodes and `accept`, the evaluator, and
the printer's renderers.

Files:

| file | module | models |
|---|---|---|
| `wrappers.dfy` | `Wrappers` | Option, Result and Outcome (pass or fail with an error) |
| `tokens.dfy` | `Tokens` | token kinds, tokens, values, diagnostics and runtime errors |
| `lexical.dfy` | `Lexical` | what one `scanToken` call does (`ScanStep`), what a whole scan produces (`ScanFrom`, `ScanSource`), and the scanner's lemmas |
| `scanner.dfy` | `Scanning` | class `Scanner` |
| `ast.dfy` | `Ast` | the code-generated `Expr` and `Stmt` nodes, plus `Logical`, and their visitors |
| `legacy_ast.dfy` | `LegacyAst` | the four-kind `Expr` snapshot and its visitor |
| `grammar.dfy` | `Grammar` | what each parsing method computes, the tree shapes each precedence level yields, and the precedence, associativity, dangling-else, recovery and `for`-desugaring lemmas |
| `parser.dfy` | `Parsing` | class `Parser` |
| `interpreter.dfy` | `Interpreter` | truthiness, equality, the binary and unary operator switches, and the fuel-bounded evaluator |
| `environment.dfy` | `Environments` | the scope chain as a list of dictionaries, innermost first, and class `Environment` |
| `ast_printer.dfy` | `AstPrinting` | `print` and `parenthesize`, with rendering and balanced-parenthesis lemmas |

How the source's mechanisms are represented:

- **Diagnostics.** Every `Lox.error` report is appended to a list of
  `Diagnostic(line, message)`.
- **ParseError.** A thrown `ParseError` is the result `ParseError` (class
  `Parser`) or `Failed` (module `Grammar`).
- **RuntimeError.** A thrown `RuntimeError` is the outcome `Raised` (the
  evaluator) or `Err`/`Fail` (the environment).
- **Numbers** are real numbers.
  - The evaluator's arithmetic is a parameter (`Arithmetic`).
  - `double.Parse` of a number lexeme is its exact decimal value
    (`DecimalValue`).
  - The printer's number formatting is a parameter.

Quirks of the source are modelled as written:

- **`case 'o'` comes before the identifier case** (`NLox/Scanner.cs:89-94`).
  - `or` scans as OR with lexeme `"o"`, then IDENTIFIER `"r"`.
  - `object` scans as IDENTIFIER `"bject"`.
  - An `o` followed by anything but `r` vanishes.
- **Only `"` closes a string** (`NLox/Scanner.cs:128`), whichever quote opened
  it.
- **The default `for` condition is the token-kind value `TRUE`**
  (`NLox/Parser.cs:89`). It is truthy but not equal to the boolean `true`.
- **`visitGroupingExpr` evaluates the Grouping node itself**
  (`NLox/Interpreter.cs:80`). So evaluating a grouping never ends.
  - The evaluator carries fuel, one unit per `evaluate` call, and
    `OutOfFuel` stands for the non-terminating recursion.
  - See "Findings" for the corrected evaluator.

Where the source and the language's design documentation disagree, the model
follows the source:

- The `o` case is modelled. The documentation calls it an unintended special
  case to drop.
- The string terminator is modelled as `"` only.
- Grouping evaluation is modelled as not ending.
- Short-circuit `and`/`or` evaluation is not part of the evaluator. The
  evaluator visits only the four-kind tree, which has no `Logical` node.

## Model

| member | source | states |
|---|---|---|
| Lexical.IdentifierType | NLox/Scanner.cs:8-26 | a lexeme gets a keyword's kind exactly when it is in the reserved-word table (case-sensitive, whole lexeme), and IDENTIFIER otherwise |
| Lexical.IsDigit | NLox/Scanner.cs:149 | by definition, exactly the ASCII digits `0` to `9`; no other Unicode digit counts |
| Lexical.IsAlpha | NLox/Scanner.cs:181-186 | by definition, exactly the ASCII letters and `_` |
| Lexical.IsAlphaNumeric | NLox/Scanner.cs:188 | by definition, a letter, `_` or a digit |
| Lexical.RunEnd | NLox/Scanner.cs:172 | a scanning loop stops within the source, and at the end or at the first character outside the class it consumes |
| Lexical.RunInClass | NLox/Scanner.cs:172 | every character a scanning loop consumes is of its class, so the run is maximal together with RunEnd's stop condition |
| Lexical.RunEndAt | NLox/Scanner.cs:153 | any stop point with only class characters before it and a non-class character or the end after it is the loop's stop point (the run is unique) |
| Lexical.NumberEnd | NLox/Scanner.cs:151-162 | reading a number stays within the source |
| Lexical.NumberEndFrom | NLox/Scanner.cs:153-161 | the number ends after the first digit run, or after the second run when a '.' followed by a digit comes after the first |
| Lexical.OperatorStep | NLox/Scanner.cs:70-73 | an operator step is well-formed (as ScanStep states): it stays in the source, its lexeme is the consumed text, its line counts the consumed newlines, and it emits no EOF token |
| Lexical.OperatorType | NLox/Scanner.cs:70-73 | the kind is one of the two-character ones (`!=`, `==`, `<=`, `>=`) exactly when an `=` follows the operator character |
| Lexical.SlashStep | NLox/Scanner.cs:74-78 | a '/' step is well-formed, whether it is a comment or a SLASH token |
| Lexical.StringStep | NLox/Scanner.cs:126-147 | by definition, one string scan; what it does is stated by StringStepWellStepped and StringLiteralScanned |
| Lexical.StringStepWellStepped | NLox/Scanner.cs:126-147 | a string step is well-formed: it consumes at least the quote, its line counts the newlines inside the string, and it emits a token or reports an error but never both |
| Lexical.NumberStep | NLox/Scanner.cs:151-165 | a number step is well-formed |
| Lexical.IdentifierStep | NLox/Scanner.cs:170-179 | an identifier step is well-formed |
| Lexical.LiteralStep | NLox/Scanner.cs:87-97 | each case after the fixed characters is a well-formed step: quotes, 'o', digits, letters and unexpected characters |
| Lexical.ScanStep | NLox/Scanner.cs:55-99 | every `scanToken` call consumes at least one character and stays in the source, counts exactly the newlines it consumes, and any token it adds has the consumed text as its lexeme and the current line as its line and is not EOF |
| Lexical.ScanFrom | NLox/Scanner.cs:42-47 | the scanning loop ends with the line counter increased by the number of newlines in the rest of the source, and adds no EOF token |
| Lexical.ScanSource | NLox/Scanner.cs:40-51 | the token list ends with exactly one EOF token, with lexeme "" and line 1 plus the number of newlines in the source, and no other token is EOF |
| Lexical.OperatorMaximalMunch | NLox/Scanner.cs:70-73 | `!`, `=`, `<`, `>` give the two-character token (and consume two characters) exactly when `=` follows, and the one-character token otherwise; each character gives its own pair of kinds: BANG or BANG_EQUAL, EQUAL or EQUAL_EQUAL, LESS or LESS_EQUAL, GREATER or GREATER_EQUAL |
| Lexical.SkippedTextEmitsNothing | NLox/Scanner.cs:74-86 | whitespace, newlines and `//` comments add no token and no report; a comment stops at the next newline (not consuming it) or at the end, and contains no newline |
| Lexical.UnexpectedCharacterReported | NLox/Scanner.cs:97 | a character no case matches is consumed alone and reported as "Unexpected character." on the current line, with no token |
| Lexical.StringLiteralScanned | NLox/Scanner.cs:126-147 | a string runs to the first '"' after the opening quote, whichever quote opened it; it is a STRING token whose literal is the text between the delimiters exactly when a '"' closes it; otherwise it consumes the rest of the source, adds no token and reports "Unterminated string." |
| Lexical.NumberScanned | NLox/Scanner.cs:151-165 | a number is a maximal digit run, extended by '.' and a second maximal digit run only when a digit follows the '.'; its literal is the value of its lexeme |
| Lexical.IdentifierScanned | NLox/Scanner.cs:170-188 | an identifier is a maximal run of letters, digits and '_'; its kind is IDENTIFIER exactly when the run is not a reserved word, and the table's kind otherwise |
| Lexical.IdentifierDispatch | NLox/Scanner.cs:95-96 | a letter or '_' other than 'o' starts an identifier scan |
| Lexical.LetterOConsumedAlone | NLox/Scanner.cs:89-94 | an 'o' is consumed on its own: OR with lexeme "o" when 'r' follows, nothing otherwise |
| Lexical.OrScansAsLetterO | NLox/Scanner.cs:89-94 | the first step over `or` yields OR with lexeme "o" |
| Lexical.OrLeavesIdentifierR | NLox/Scanner.cs:89-96 | the second step over `or` yields IDENTIFIER "r" |
| Lexical.IdentifierR | NLox/Scanner.cs:170-179 | the identifier scan of the "r" left over from `or` is IDENTIFIER "r" |
| Lexical.ObjectLosesItsO | NLox/Scanner.cs:89-96 | `object` scans as a dropped 'o' followed by IDENTIFIER "bject" |
| Scanning.Scanner.constructor | NLox/Scanner.cs:35-38 | a fresh scanner is at position 0 and line 1, with no tokens and no reports |
| Scanning.Scanner.ScanTokens | NLox/Scanner.cs:40-51 | the loop reaches the end of the source; tokens, reports and line are what ScanFrom gives from the starting cursor, followed by one EOF token on the final line; the result is the token list |
| Scanning.Scanner.ScanToken | NLox/Scanner.cs:55-99 | the new cursor, line, tokens and reports are those of ScanStep applied to the old cursor and line |
| Scanning.Scanner.ScanOperator | NLox/Scanner.cs:70-73 | the operator cases have the effect of OperatorStep |
| Scanning.Scanner.ScanSlash | NLox/Scanner.cs:74-78 | the '/' case has the effect of SlashStep |
| Scanning.Scanner.ScanLiteral | NLox/Scanner.cs:87-97 | the cases after the fixed characters have the effect of LiteralStep |
| Scanning.Scanner.SkipComment | NLox/Scanner.cs:76 | the comment loop stops at the next newline or the end of the source |
| Scanning.Scanner.Advance | NLox/Scanner.cs:101-105 | returns the current character and moves forward one |
| Scanning.Scanner.AddToken | NLox/Scanner.cs:107 | appends a token whose lexeme is the text from start to current, with no literal |
| Scanning.Scanner.AddTokenWithLiteral | NLox/Scanner.cs:109-113 | appends a token whose lexeme is the text from start to current, with the given literal |
| Scanning.Scanner.Match | NLox/Scanner.cs:115-122 | consumes one character exactly when it is the expected one, and reports whether it did |
| Scanning.Scanner.Peek | NLox/Scanner.cs:124 | the current character, when not at the end ('\0' at the end) |
| Scanning.Scanner.PeekNext | NLox/Scanner.cs:167-168 | the character after the current one, when there is one |
| Scanning.Scanner.ConsumeString | NLox/Scanner.cs:126-147 | has the effect of StringStep |
| Scanning.Scanner.SkipStringBody | NLox/Scanner.cs:128-132 | stops at the first '"' or the end, and counts each newline passed |
| Scanning.Scanner.ConsumeNumber | NLox/Scanner.cs:151-165 | stops where NumberEnd says, and appends a NUMBER token with the lexeme's value |
| Scanning.Scanner.SkipDigits | NLox/Scanner.cs:153 | stops at the end of the digit run |
| Scanning.Scanner.ConsumeIdentifier | NLox/Scanner.cs:170-179 | stops at the end of the alphanumeric run, and appends a token of the lexeme's keyword-or-identifier kind |
| Scanning.ScanAll | NLox/Scanner.cs:35-51 | a fresh scanner's tokens and reports are ScanSource's |
| Ast.AcceptExprCallsItsKind | NLox/CodeGen/Expr.cs:8-16 | `accept` on each of the seven expression kinds calls the visitor method named after that kind |
| Ast.AcceptExprReturnsVisitResult | NLox/CodeGen/Expr.cs:29-113 | `accept` returns exactly what the node's own visitor method returns for the node |
| Ast.AcceptStmtCallsItsKind | NLox/CodeGen/Stmt.cs:8-16 | `accept` on each of the six statement kinds calls the visitor method named after that kind |
| Ast.AcceptStmtReturnsVisitResult | NLox/CodeGen/Stmt.cs:27-113 | `accept` returns exactly what the statement's own visitor method returns |
| LegacyAst.AcceptCallsItsKind | NLox/Expr.cs:8-14 | `accept` on each of the four kinds calls the visitor method named after that kind |
| LegacyAst.AcceptReturnsVisitResult | NLox/Expr.cs:29-79 | `accept` returns exactly what the node's own visitor method returns |
| Grammar.Advance | NLox/Parser.cs:220-224 | the cursor moves one token forward unless at EOF, where it stays; it never leaves the token list |
| Grammar.Check | NLox/Parser.cs:214-218 | by definition, the current token is not EOF and is of the kind |
| Grammar.Matches | NLox/Parser.cs:200-212 | by definition, the current token is not EOF and is of one of the kinds; Parsing.Parser.Match is proved to advance exactly then |
| Grammar.Report | NLox/Parser.cs:332-336 | by definition, the report (the token's line and the message) is appended and the cursor stays |
| Grammar.Consume | NLox/Parser.cs:312-317 | succeeds exactly when the current token is of the kind, then returns it and moves one token forward; otherwise reports the message at the current token's line and fails without moving |
| Grammar.ExpressionSpec | NLox/Parser.cs:133-136 | an expression parse never moves the cursor back or off the list, and a successful one consumes a token |
| Grammar.AssignmentSpec | NLox/Parser.cs:138-156 | the same progress guarantee for assignment |
| Grammar.AssignmentTargets | NLox/Parser.cs:138-156 | without a following `=` the result is the or-level tree; after `=` and a right side, a Variable target gives Assign of that name and the right side; any other target is returned unchanged, without a ParseError, once "Invalid assignment target." is reported at the line of the `=`; a failing side makes the whole fail |
| Grammar.LevelSpec | NLox/Parser.cs:158-272 | the same progress guarantee for each of the six binary levels |
| Grammar.FoldSpec | NLox/Parser.cs:161-167 | the operator loop of a level never moves the cursor back or off the list |
| Grammar.FoldStep | NLox/Parser.cs:161-167 | one round of the loop consumes the operator and the operand, and continues with the node built so far as the left operand |
| Grammar.OperandSpec | NLox/Parser.cs:160 | the operand of a level is parsed with the progress guarantee |
| Grammar.UnarySpec | NLox/Parser.cs:274-284 | the same progress guarantee for unary |
| Grammar.PrimarySpec | NLox/Parser.cs:286-310 | the same progress guarantee for primary; a failure without consuming happens only when the token cannot start a primary |
| Grammar.ExpressionShaped | NLox/Parser.cs:133-136 | every tree an expression parse returns has the assignment shape |
| Grammar.AssignmentShaped | NLox/Parser.cs:138-156 | assignment nests to the right, and its target is always an identifier |
| Grammar.LevelShaped | NLox/Parser.cs:158-272 | each binary level returns a left fold of its own operators over operands of the next tighter level |
| Grammar.FoldShaped | NLox/Parser.cs:161-167 | the operator loop keeps the tree built so far in the level's shape |
| Grammar.OperandShaped | NLox/Parser.cs:158-272 | a level's operand is a tree of the next tighter level |
| Grammar.UnaryShaped | NLox/Parser.cs:274-284 | `!` and `-` nest to the right over a primary |
| Grammar.PrimaryShaped | NLox/Parser.cs:286-310 | primary yields a literal, an identifier variable, or a grouping of an expression |
| Grammar.ExpressionSpelled | NLox/Parser.cs:133-136 | an expression parse only appends reports; when it succeeds without a report, the tokens it consumed are, in order, exactly the tree's names, operators, literal tokens, `=` signs and parentheses |
| Grammar.AssignmentSpelled | NLox/Parser.cs:138-156 | the same for assignment: an Assign is spelled by its name token, the `=` and its value |
| Grammar.LevelSpelled | NLox/Parser.cs:158-272 | the same for each of the six binary levels |
| Grammar.FoldSpelled | NLox/Parser.cs:161-167 | the operator loop only appends reports, and keeps the tree built so far spelled by the tokens from the level's start: left operand, operator token, right operand |
| Grammar.OperandSpelled | NLox/Parser.cs:158-272 | the same for a level's operand |
| Grammar.UnarySpelled | NLox/Parser.cs:274-284 | the same for unary: the operator token, then the operand |
| Grammar.PrimarySpelled | NLox/Parser.cs:286-310 | the same for primary: one literal or identifier token, or `(`, the expression and `)` |
| Grammar.IdentifierOperand | NLox/Parser.cs:260-300 | an identifier not followed by `/` or `*` is, on its own, a term operand: a Variable of that token, one token consumed, no report |
| Grammar.DifferenceOfThree | NLox/Parser.cs:246-258 | `a - b - c ;` parses at the term level as exactly `(a - b) - c`, stopping before the `;` with no report |
| Grammar.SyncLoop | NLox/Parser.cs:342-360 | the recovery loop stops at the first point at or after its start where it may stop: EOF, after a ';', or before a statement keyword |
| Grammar.SynchronizeSpec | NLox/Parser.cs:338-361 | after recovery the cursor is at EOF, after a ';', or before CLASS/FUN/VAR/FOR/IF/WHILE/PRINT/RETURN; it moved at least one token unless at EOF, it skipped no earlier stopping point, and no report is added |
| Grammar.DeclarationSpec | NLox/Parser.cs:26-39 | a declaration never fails and always consumes a token; it tries a `var` declaration after `var` and a statement otherwise; its entry is null exactly when that attempt threw a ParseError, and the cursor is then where synchronize takes it from the error; otherwise the entry is the attempt's result and the cursor is where the attempt left it |
| Grammar.VarDeclarationSpec | NLox/Parser.cs:41-53 | a `var` declaration names an identifier |
| Grammar.InitializerSpec | NLox/Parser.cs:46-49 | the optional initializer never moves the cursor back |
| Grammar.StatementSpec | NLox/Parser.cs:55-64 | a statement consumes a token when it succeeds, and an If without an else-branch is never followed by `else` |
| Grammar.ForSpec | NLox/Parser.cs:66-95 | a `for` parses to a While or a Block |
| Grammar.ForTailSpec | NLox/Parser.cs:79-94 | the rest of a `for` parses to a While or a Block |
| Grammar.ForTailDesugars | NLox/Parser.cs:79-94 | a parsed `for` is exactly Desugar of its initializer, condition, increment and body, with the cursor after the body |
| Grammar.ForInitializerSpec | NLox/Parser.cs:70-73 | the initializer clause consumes a token when it succeeds |
| Grammar.ClauseSpec | NLox/Parser.cs:75-81 | a missing condition or increment consumes nothing |
| Grammar.WhileSpec | NLox/Parser.cs:97-105 | a `while` parses to a While |
| Grammar.IfSpec | NLox/Parser.cs:107-117 | an `if` parses to an If; an If without an else is never followed by `else`, and a then-branch that is an else-less If forces an else-less outer If (else binds to the nearest if) |
| Grammar.BranchesSpec | NLox/Parser.cs:110-116 | the else-branch is taken by the innermost `if` |
| Grammar.PrintSpec | NLox/Parser.cs:119-124 | a `print` parses to a Print |
| Grammar.ExpressionStatementSpec | NLox/Parser.cs:126-131 | an expression statement parses to an Expression statement |
| Grammar.BlockSpec | NLox/Parser.cs:319-330 | a block consumes a token when it succeeds |
| Grammar.BlockLoop | NLox/Parser.cs:323-326 | the block loop only appends entries |
| Grammar.ParseLoop | NLox/Parser.cs:18-21 | the parse loop ends at EOF, never moves back, and only appends entries |
| Grammar.ParseSpec | NLox/Parser.cs:15-24 | `parse` consumes the token list up to EOF |
| Grammar.NoLooserNodeOnTop | NLox/Parser.cs:158-272 | a tree of a tighter level never has a looser level's operator at its top |
| Grammar.LeftAssociative | NLox/Parser.cs:158-272 | a level's node has a same-level tree on the left and, on the right, no operator of this or a looser level at the top |
| Grammar.NodeKeepsItsLevel | NLox/Parser.cs:158-272 | a node of a level, inside any looser level's tree, is a tree of its own level |
| Grammar.AssignShapeOfNode | NLox/Parser.cs:133-272 | a binary or logical node that an expression parse yields has the shape of its own level |
| Grammar.MinusIsNotRightNested | NLox/Parser.cs:246-258 | no parse yields `a - (b - c)` without the parentheses |
| Grammar.SumIsNotAFactor | NLox/Parser.cs:246-272 | no parse yields `(a + b) * c` without the parentheses |
| Grammar.VariableNamedByIdentifier | NLox/Parser.cs:297-300 | a Variable in a parsed tree is named by an IDENTIFIER token |
| Grammar.DesugarShape | NLox/Parser.cs:83-94 | `for` becomes a Block of the initializer and a While only when there is an initializer; the While tests the condition or the token-kind value TRUE; its body is a Block of the body and the increment only when there is an increment |
| Grammar.Desugar | NLox/Parser.cs:83-94 | by definition, the rewrite of a `for` into a While; its shape is stated by DesugarShape, and ForTailDesugars states that a parsed `for` is that rewrite |
| Parsing.Parser.constructor | NLox/Parser.cs:10-13 | a fresh parser is at the first token with no reports |
| Parsing.Parser.Parse | NLox/Parser.cs:15-24 | computes ParseLoop from the current state |
| Parsing.Parser.Declaration | NLox/Parser.cs:26-39 | computes DeclarationSpec |
| Parsing.Parser.VarDeclaration | NLox/Parser.cs:41-53 | computes VarDeclarationSpec |
| Parsing.Parser.Statement | NLox/Parser.cs:55-64 | computes StatementSpec |
| Parsing.Parser.ForStatement | NLox/Parser.cs:66-95 | computes ForSpec |
| Parsing.Parser.ForTail | NLox/Parser.cs:79-94 | computes ForTailSpec |
| Parsing.Parser.ForInitializer | NLox/Parser.cs:70-73 | computes ForInitializerSpec |
| Parsing.Parser.Clause | NLox/Parser.cs:75-81 | computes ClauseSpec |
| Parsing.Parser.WhileStatement | NLox/Parser.cs:97-105 | computes WhileSpec |
| Parsing.Parser.IfStatement | NLox/Parser.cs:107-117 | computes IfSpec |
| Parsing.Parser.Branches | NLox/Parser.cs:110-116 | computes BranchesSpec |
| Parsing.Parser.PrintStatement | NLox/Parser.cs:119-124 | computes PrintSpec |
| Parsing.Parser.ExpressionStatement | NLox/Parser.cs:126-131 | computes ExpressionStatementSpec |
| Parsing.Parser.Expression | NLox/Parser.cs:133-136 | computes ExpressionSpec |
| Parsing.Parser.Assignment | NLox/Parser.cs:138-156 | computes AssignmentSpec |
| Parsing.Parser.Or | NLox/Parser.cs:158-170 | computes LevelSpec at the `or` level |
| Parsing.Parser.OrOperands | NLox/Parser.cs:161-167 | computes FoldSpec at the `or` level |
| Parsing.Parser.And | NLox/Parser.cs:172-184 | computes LevelSpec at the `and` level |
| Parsing.Parser.AndOperands | NLox/Parser.cs:175-181 | computes FoldSpec at the `and` level |
| Parsing.Parser.Equality | NLox/Parser.cs:186-198 | computes LevelSpec at the equality level |
| Parsing.Parser.EqualityOperands | NLox/Parser.cs:189-195 | computes FoldSpec at the equality level |
| Parsing.Parser.Match | NLox/Parser.cs:200-212 | advances exactly one token when the current token is not EOF and is of one of the kinds, and otherwise leaves the cursor unchanged; it returns whether it advanced |
| Parsing.Parser.Advance | NLox/Parser.cs:220-224 | moves as Grammar.Advance does, and returns the token before the new cursor |
| Parsing.Parser.Comparison | NLox/Parser.cs:232-244 | computes LevelSpec at the comparison level |
| Parsing.Parser.ComparisonOperands | NLox/Parser.cs:235-241 | computes FoldSpec at the comparison level |
| Parsing.Parser.Term | NLox/Parser.cs:246-258 | computes LevelSpec at the term level |
| Parsing.Parser.TermOperands | NLox/Parser.cs:249-255 | computes FoldSpec at the term level |
| Parsing.Parser.Factor | NLox/Parser.cs:260-272 | computes LevelSpec at the factor level |
| Parsing.Parser.FactorOperands | NLox/Parser.cs:263-269 | computes FoldSpec at the factor level |
| Parsing.Parser.Unary | NLox/Parser.cs:274-284 | computes UnarySpec |
| Parsing.Parser.Primary | NLox/Parser.cs:286-310 | computes PrimarySpec |
| Parsing.Parser.Consume | NLox/Parser.cs:312-317 | computes Grammar.Consume |
| Parsing.Parser.Block | NLox/Parser.cs:319-330 | computes BlockSpec |
| Parsing.Parser.Error | NLox/Parser.cs:332-336 | appends the message at the token's line to the reports |
| Parsing.Parser.Synchronize | NLox/Parser.cs:338-361 | computes SynchronizeSpec |
| Parsing.ParseAll | NLox/Parser.cs:10-24 | a fresh parser's statements and reports are ParseSpec's |
| Interpreter.IsTruthy | NLox/Interpreter.cs:103-108 | nil and false are falsey; everything else, 0 and "" included, is truthy |
| Interpreter.IsEqual | NLox/Interpreter.cs:110-118 | equality never fails, and holds exactly for equal values (nil equals only nil, different kinds are never equal) |
| Interpreter.NumberOperation | NLox/Interpreter.cs:43-68 | fails with "Operands must be numbers." at the operator exactly when an operand is not a number; on two numbers `>`, `>=`, `<`, `<=` give the boolean of that comparison, and `-`, `/`, `*` give the subtraction, division and multiplication of the operands |
| Interpreter.ApplyBinary | NLox/Interpreter.cs:50-77 | `==` and `!=` never fail and test equality of values; `+` fails exactly when the operands are not two numbers or two strings, with "Operands must be two numbers or two strings.", adds two numbers and concatenates two strings; `>`, `>=`, `<`, `<=`, `-`, `/`, `*` do what NumberOperation states; every error is at the operator and is one of the three operand type errors |
| Interpreter.CheckNumberOperand | NLox/Interpreter.cs:120-124 | fails exactly on a non-number, with "Operand must be a number." at the operator |
| Interpreter.ApplyUnary | NLox/Interpreter.cs:86-98 | `!` never fails and negates truthiness; `-` negates a number and fails on anything else with "Operand must be a number." |
| Interpreter.Evaluate | NLox/Interpreter.cs:38-101 | a literal evaluates to its value, and every error raised is one of the three operand type errors; FinishedAsIntended and GroupingFreeAsIntended relate it to the corrected evaluator |
| Interpreter.GroupingNeverReturns | NLox/Interpreter.cs:80 | evaluating a Grouping never yields a value or an error, whatever the fuel |
| Interpreter.FinishedOperands | NLox/Interpreter.cs:40-41 | a Binary or Unary that finishes had operands that finished: the left one, and the right one unless the left one raised |
| Interpreter.SameOperandsSameOutcome | NLox/Interpreter.cs:38-99 | a node's outcome depends only on its operands' outcomes |
| Interpreter.MoreFuelSameOutcome | NLox/Interpreter.cs:101 | fuel decides only whether evaluation finishes, never what it yields |
| Interpreter.OperandsFinish | NLox/Interpreter.cs:38-99 | a Binary or Unary finishes when its operands do |
| Interpreter.GroupingFreeFinishes | NLox/Interpreter.cs:38-101 | every tree without a Grouping yields a value or an error, given fuel equal to its height |
| Interpreter.BinaryEvaluationOrder | NLox/Interpreter.cs:40-41 | a Binary reports the left operand's error first, then the right one's, and only then applies the operator |
| Interpreter.NotEqualNegatesEqual | NLox/Interpreter.cs:52-53 | `a != b` yields exactly the negation of `a == b`, and the same error or non-termination when an operand has one |
| Interpreter.DefaultForConditionIsTruthyButNotTrue | NLox/Interpreter.cs:82 | the default `for` condition evaluates to the token-kind value TRUE, which is truthy but not equal to the boolean true |
| Interpreter.EvaluateIntended | NLox/Interpreter.cs:80 | with a Grouping evaluating its inner expression, every evaluation ends |
| Interpreter.FinishedAsIntended | NLox/Interpreter.cs:80 | whenever the evaluator as written finishes, it yields what the corrected one yields |
| Interpreter.GroupingFreeAsIntended | NLox/Interpreter.cs:38-101 | the two evaluators agree on every tree without a Grouping |
| Interpreter.GroupedLiteral | NLox/Interpreter.cs:80 | `(v)` never finishes as written, but yields `v` when corrected |
| Environments.Innermost | NLox/Environment.cs:37-42 | the frame found is the first one, innermost first, that holds the name |
| Environments.InnermostIs | NLox/Environment.cs:39-42 | a frame holding the name with no inner frame holding it is the one found |
| Environments.OuterFrames | NLox/Environment.cs:22-26 | a name the innermost frame lacks is bound, found and assigned in the frames outside it |
| Environments.OuterFramesOf | NLox/Environment.cs:22-26 | the same, for a chain given as its innermost frame and the rest |
| Environments.AssignInFirst | NLox/Environment.cs:16-20 | a name the innermost frame holds is assigned in that frame only |
| Environments.Find | NLox/Environment.cs:37-45 | `get` finds a value exactly when some frame holds the name, and finds the innermost frame's binding (shadowing) |
| Environments.DefineIn | NLox/Environment.cs:32-35 | the innermost frame binds the name to the value (adding it or replacing its old value) and keeps every other entry; every outer frame is unchanged |
| Environments.AssignIn | NLox/Environment.cs:14-30 | the innermost frame holding the name binds it to the value and keeps its other entries; no frame gains or loses a name; every other frame is unchanged |
| Environments.DefineThenFind | NLox/Environment.cs:32-45 | after `define(n, v)`, `get(n)` finds `v`, and every other name finds what it found before |
| Environments.AssignThenFind | NLox/Environment.cs:14-45 | `assign` creates no binding, changes only the innermost frame holding the name and only that entry, and afterwards `get(n)` finds `v` while other names are unaffected |
| Environments.Environment.constructor | NLox/Environment.cs:10 | a global frame is one empty dictionary |
| Environments.Environment.Nested | NLox/Environment.cs:12 | a nested frame is an empty dictionary in front of the enclosing chain |
| Environments.Environment.Define | NLox/Environment.cs:32-35 | never fails; the chain becomes DefineIn of the old chain, so only this frame changes |
| Environments.Environment.Get | NLox/Environment.cs:37-45 | returns Find's value, and fails with "Undefined variable '<name>'." exactly when no frame holds the name; it modifies nothing |
| Environments.Environment.Assign | NLox/Environment.cs:14-30 | succeeds exactly when some frame holds the name, and the chain then becomes AssignIn of the old chain; otherwise it fails with "Undefined variable '<name>'." and changes nothing |
| AstPrinting.Print | NLox/AstPrinter.cs:7-10 | the printed text is Render of the tree |
| AstPrinting.Render | NLox/AstPrinter.cs:7-23 | by definition, the text a tree prints as; stated node by node by BinaryRendered, GroupingRendered, LiteralRendered and UnaryRendered |
| AstPrinting.ValueText | NLox/AstPrinter.cs:19-20 | by definition, "nil" for nil, "True" or "False" for a boolean, the number formatting parameter for a number, the string itself, and the name of a token kind |
| AstPrinting.Parenthesize | NLox/AstPrinter.cs:25-38 | the builder yields "(" + name, then each operand's text preceded by one space, in order, then ")" |
| AstPrinting.RenderAll | NLox/AstPrinter.cs:30-34 | one text per operand, in order |
| AstPrinting.BinaryRendered | NLox/AstPrinter.cs:12-13 | a Binary prints as `(op left right)`, single-spaced |
| AstPrinting.GroupingRendered | NLox/AstPrinter.cs:15-16 | a Grouping prints as `(group inner)` |
| AstPrinting.LiteralRendered | NLox/AstPrinter.cs:19-20 | a literal prints as its value's text, and nil as "nil" |
| AstPrinting.UnaryRendered | NLox/AstPrinter.cs:22-23 | a Unary prints as `(op operand)` |
| AstPrinting.ParenthesisedUnlessLiteral | NLox/AstPrinter.cs:25-38 | every non-literal prints starting with '(' and ending with ')' |
| AstPrinting.ParensBalanced | NLox/AstPrinter.cs:25-38 | a parenthesised list of balanced parts under a parenthesis-free name is balanced |
| AstPrinting.RenderBalanced | NLox/AstPrinter.cs:7-38 | the printed text's parentheses are balanced whenever no lexeme or literal text contains one |

## Left out

- `NLox/Lox.cs` is not part of this model. It is the process driver and REPL: file reading, console I/O and the static `hadError` flag. Its `error` reporting is modelled as appending a `Diagnostic(line, message)`.
- Grammar.Report: the location text that `Lox.error(token, …)` adds ("at end", "at 'x'") is not modelled, because it lives in `NLox/Lox.cs`. A parse report keeps the token's line and the message.
- `Nlox.CodeGen/Program.cs` is left out. It is a build-time file generator that only does file I/O.
- `NLox.Misc/Unit.cs` is left out: a unit struct with no behaviour.
- `NLox/RuntimeError.cs` is folded into the `RuntimeError(token, message)` datatype.
- Interpreter.Evaluate: floating-point arithmetic is a parameter (`Arithmetic`). IEEE rounding, infinities and NaN, including division by zero, are not modelled. Comparisons are exact comparisons of reals.
- Lexical.NumberScanned: `double.Parse` is modelled as the exact decimal value of the lexeme. Rounding to the nearest double is not modelled. Nor is its dependence on the current culture: under a culture whose decimal separator is `,`, `double.Parse("1.5")` does not read 1.5. The model reads every lexeme with `.` as the decimal point.
- Lexical.ScanStep: the source is modelled as a sequence of characters, while C# strings are sequences of UTF-16 code units. A character outside the Basic Multilingual Plane, such as U+1F600, is two code units in C#, so the source reports "Unexpected character." twice for it; the model consumes it as one character and reports it once.
- `stringify` and `interpret` (`NLox/Interpreter.cs:7-36`) are left out. They do console output and double-to-text formatting. The evaluator's result is modelled instead.
- Statement execution is not modelled, because the evaluator visits expressions only. Environment is modelled on its own.
- Interpreter.Evaluate: `evaluate` is modelled as a `match` on the node rather than a call through the visitor. Ast.AcceptExprCallsItsKind and LegacyAst.AcceptReturnsVisitResult state that `accept` reaches exactly that node's visitor method.
- Interpreter.Evaluate is bounded by fuel, one unit per `evaluate` call. `OutOfFuel` stands for the unending recursion of a Grouping and for evaluations cut short.
- AstPrinting.Print: `ToString` of a number is a parameter of the printer. Booleans print as "True"/"False", as the host prints them.
- Exceptions are modelled as result values. ParseError, RuntimeError and their unwinding are modelled as `Attempt`/`ParseResult`, `Evaluation` and `Result`/`Outcome`.
- Grammar.ParseSpec requires that the token list is not empty and ends with EOF. Every token list the scanner produces satisfies this (Lexical.ScanSource). The source's cursor reads assume it too.
- Grammar.Extends states only that the parser's cursor never moves back. It does not state that the reports are only ever appended to. For expressions, the *Spelled lemmas (Grammar.ExpressionSpelled and the rest) state that as well.
- The scanner's `start` field is part of class `Scanner`. The per-case helper methods `ScanOperator`, `ScanSlash`, `ScanLiteral`, `SkipComment`, `SkipStringBody` and `SkipDigits` split `scanToken` and the literal readers into pieces. Each piece is proved on its own.
- The parser's helper methods `ForTail`, `ForInitializer`, `Clause`, `Branches` and the `*Operands` loop methods split the source's longer methods into pieces. Each piece is proved on its own.
- Immutability of the AST nodes is not stated as a property. It is inherent in modelling the nodes as Dafny datatypes.

## Findings

| source | as written | input that shows it | evidently intended | confidence | as-written member | corrected member |
|---|---|---|---|---|---|---|
| NLox/Interpreter.cs:80 | `visitGroupingExpr` evaluates the Grouping node itself, so the call never returns | the expression `(1)`: evaluating it recurses on the same node forever | evaluate the grouped expression, so `(1)` yields 1 | high (not executed) | Interpreter.GroupedLiteral | Interpreter.EvaluateIntended |
