/** What one call of the scanner's `scanToken` does, and what a whole scan
    produces, as functions of the source text, the cursor and the current
    line. The class in module Scanning is proved to compute exactly these;
    the lemmas here state what the scanner promises about them. */
module Lexical {
  import opened Wrappers
  import opened Tokens

  predicate IsDigit(c: char) { '0' <= c <= '9' }

  predicate IsAlpha(c: char) { ('a' <= c <= 'z') || ('A' <= c <= 'Z') || c == '_' }

  predicate IsAlphaNumeric(c: char) { IsAlpha(c) || IsDigit(c) }

  /** The runs of characters the scanner consumes in a loop: the digits of a
      number, the rest of an identifier, the rest of a line comment (anything
      but a newline) and the body of a string literal (anything but '"'). */
  datatype CharClass = Digits | AlphaNumerics | LineRest | StringBody

  predicate InClass(c: char, cls: CharClass)
  {
    match cls
    case Digits => IsDigit(c)
    case AlphaNumerics => IsAlphaNumeric(c)
    case LineRest => c != '\n'
    case StringBody => c != '"'
  }

  /** The reserved words and the token kinds they scan to. */
  const Keywords: map<string, TokenType> := map[
    "and" := AND,
    "class" := CLASS,
    "else" := ELSE,
    "false" := FALSE,
    "for" := FOR,
    "fun" := FUN,
    "if" := IF,
    "nil" := NIL,
    "or" := OR,
    "print" := PRINT,
    "return" := RETURN,
    "super" := SUPER,
    "this" := THIS,
    "true" := TRUE,
    "var" := VAR,
    "while" := WHILE
  ]

  /** The kind of an identifier-shaped lexeme: the table's kind on an exact
      match, IDENTIFIER otherwise. */
  function IdentifierType(text: string): (t: TokenType)
    ensures text in Keywords <==> t != IDENTIFIER
    ensures text in Keywords ==> t == Keywords[text]
  {
    if text in Keywords then Keywords[text] else IDENTIFIER
  }

  /** The end of the maximal run of characters of class `cls` that starts at `i`. */
  function RunEnd(s: string, i: nat, cls: CharClass): (j: nat)
    requires i <= |s|
    ensures i <= j <= |s|
    ensures j == |s| || !InClass(s[j], cls)
    decreases |s| - i
  {
    if i < |s| && InClass(s[i], cls) then RunEnd(s, i + 1, cls) else i
  }

  /** Every character of the run is in the class. */
  lemma {:induction false} RunInClass(s: string, i: nat, cls: CharClass)
    requires i <= |s|
    ensures forall k :: i <= k < RunEnd(s, i, cls) ==> InClass(s[k], cls)
    decreases |s| - i
  {
    if i < |s| && InClass(s[i], cls) {
      RunInClass(s, i + 1, cls);
    }
  }

  /** A run that starts at `i`, stays in class `cls` up to `j` and stops
      there ends at `j`. */
  lemma {:induction false} RunEndAt(s: string, i: nat, j: nat, cls: CharClass)
    requires i <= j <= |s|
    requires forall k :: i <= k < j ==> InClass(s[k], cls)
    requires j == |s| || !InClass(s[j], cls)
    ensures RunEnd(s, i, cls) == j
    decreases j - i
  {
    if i < j {
      RunEndAt(s, i + 1, j, cls);
    }
  }

  /** The end of a number literal whose integer digits start at `i`: the
      digit run, then a '.' and a second digit run only when a digit follows
      the '.'. */
  function NumberEnd(s: string, i: nat): (j: nat)
    requires i <= |s|
    ensures i <= j <= |s|
  {
    var k := RunEnd(s, i, Digits);
    if k + 1 < |s| && s[k] == '.' && IsDigit(s[k + 1]) then RunEnd(s, k + 1, Digits) else k
  }

  /** NumberEnd as the scanner finds it: the digit run ends at `k`, and the
      number at `j`. */
  lemma NumberEndFrom(s: string, i: nat, k: nat, j: nat)
    requires i <= k <= |s| && k == RunEnd(s, i, Digits)
    requires if k + 1 < |s| && s[k] == '.' && IsDigit(s[k + 1]) then k + 1 <= |s| && j == RunEnd(s, k + 1, Digits) else j == k
    ensures NumberEnd(s, i) == j
  {
  }

  /** The number of newline characters in s[a..b]. */
  function NewlinesBetween(s: string, a: nat, b: nat): (n: nat)
    requires a <= b <= |s|
    decreases b - a
  {
    if a == b then 0 else NewlinesBetween(s, a, b - 1) + (if s[b - 1] == '\n' then 1 else 0)
  }

  lemma {:induction false} NewlinesSplit(s: string, a: nat, b: nat, c: nat)
    requires a <= b <= c <= |s|
    ensures NewlinesBetween(s, a, c) == NewlinesBetween(s, a, b) + NewlinesBetween(s, b, c)
    decreases c - b
  {
    if b < c {
      NewlinesSplit(s, a, b, c - 1);
    }
  }

  lemma {:induction false} NoNewlinesInRun(s: string, a: nat, b: nat)
    requires a <= b <= |s|
    requires forall k :: a <= k < b ==> s[k] != '\n'
    ensures NewlinesBetween(s, a, b) == 0
    decreases b - a
  {
    if a < b {
      NoNewlinesInRun(s, a, b - 1);
    }
  }

  function DigitValue(c: char): nat
  {
    if IsDigit(c) then (c as int) - ('0' as int) else 0
  }

  /** The value of a run of decimal digits. */
  function DigitsValue(d: string): nat
  {
    if d == [] then 0 else 10 * DigitsValue(d[..|d| - 1]) + DigitValue(d[|d| - 1])
  }

  function Pow10(n: nat): (p: nat)
    ensures p >= 1
  {
    if n == 0 then 1 else 10 * Pow10(n - 1)
  }

  /** The value of a number lexeme `digits` or `digits.digits`, as exact
      decimal arithmetic (the host rounds it to the nearest double). */
  function DecimalValue(text: string): real
  {
    var k := RunEnd(text, 0, Digits);
    var whole := DigitsValue(text[..k]) as real;
    if k < |text| then whole + (DigitsValue(text[k + 1..]) as real) / (Pow10(|text| - k - 1) as real)
    else whole
  }

  /** The effect of one `scanToken` call: where the cursor ends, the line
      counter afterwards, the token added (if any) and the error reported
      (if any). */
  datatype Step = Step(next: nat, line: int, token: Option<Token>, report: Option<Diagnostic>)

  function OptionSeq<T>(o: Option<T>): (s: seq<T>)
    ensures |s| <= 1
    ensures o.Some? ==> s == [o.value]
    ensures o.None? ==> s == []
  {
    match o
    case None => []
    case Some(x) => [x]
  }

  /** A step that consumed s[start..next] and adds a token of kind `kind`
      without a literal. */
  function Emit(s: string, start: nat, next: nat, line: int, kind: TokenType): Step
    requires start <= next <= |s|
  {
    Step(next, line, Some(Token(kind, s[start..next], Nil, line)), None)
  }

  /** A step that consumed s[start..next] and adds nothing. */
  function Skip(next: nat, line: int): Step
  {
    Step(next, line, None, None)
  }

  /** The characters that start a one- or two-character operator. */
  predicate IsOperatorChar(c: char) { c == '!' || c == '=' || c == '<' || c == '>' }

  /** The operator starting with `c` when the character after it is
      (`twoChar`) or is not an '='. */
  function OperatorType(c: char, twoChar: bool): (t: TokenType)
    requires IsOperatorChar(c)
    ensures twoChar <==> t in {BANG_EQUAL, EQUAL_EQUAL, LESS_EQUAL, GREATER_EQUAL}
  {
    if c == '!' then (if twoChar then BANG_EQUAL else BANG)
    else if c == '=' then (if twoChar then EQUAL_EQUAL else EQUAL)
    else if c == '<' then (if twoChar then LESS_EQUAL else LESS)
    else (if twoChar then GREATER_EQUAL else GREATER)
  }

  /** `match(expected)` at cursor p. */
  predicate NextIs(s: string, p: nat, expected: char)
  {
    p < |s| && s[p] == expected
  }

  /** What every step promises: it consumes at least one character and stays
      within the source, the line counter grows by the newlines consumed, an
      added token's lexeme is exactly the consumed text and its line is the
      line after the step, no step adds an end-of-input token, and no step
      both adds a token and reports an error. */
  ghost predicate WellStepped(s: string, start: nat, line: int, r: Step)
    requires start < |s|
  {
    && start < r.next <= |s|
    && r.line == line + NewlinesBetween(s, start, r.next)
    && (r.token.Some? ==> r.token.value.lexeme == s[start..r.next])
    && (r.token.Some? ==> r.token.value.line == r.line && r.token.value.kind != EOF)
    && (r.token.None? || r.report.None?)
  }

  /** `!`, `=`, `<`, `>`: maximal munch of a following '='. */
  function OperatorStep(s: string, start: nat, line: int): (r: Step)
    requires start < |s| && IsOperatorChar(s[start])
    ensures WellStepped(s, start, line, r)
  {
    var twoChar := NextIs(s, start + 1, '=');
    var e := if twoChar then start + 2 else start + 1;
    NoNewlinesInRun(s, start, e);
    Emit(s, start, e, line, OperatorType(s[start], twoChar))
  }

  /** `/`: a line comment when a second '/' follows, else SLASH. */
  function SlashStep(s: string, start: nat, line: int): (r: Step)
    requires start < |s| && s[start] == '/'
    ensures WellStepped(s, start, line, r)
  {
    if NextIs(s, start + 1, '/') then
      var e := RunEnd(s, start + 2, LineRest);
      RunInClass(s, start + 2, LineRest);
      NoNewlinesInRun(s, start, e);
      Skip(e, line)
    else
      NoNewlinesInRun(s, start, start + 1);
      Emit(s, start, start + 1, line, SLASH)
  }

  /** `consumeString` after the opening delimiter at `start`: everything up to
      the next '"' (whichever delimiter opened it), counting newlines. */
  function StringStep(s: string, start: nat, line: int): Step
    requires start < |s| && (s[start] == '"' || s[start] == '\'')
  {
    var e := RunEnd(s, start + 1, StringBody);
    var l := line + NewlinesBetween(s, start + 1, e);
    if e == |s| then
      Step(e, l, None, Some(Diagnostic(l, "Unterminated string.")))
    else
      Step(e + 1, l, Some(Token(STRING, s[start..e + 1], Str(s[start + 1..e]), l)), None)
  }

  /** The string step is well formed: the newlines it counts from after the
      delimiter are all the newlines it consumes. */
  lemma StringStepWellStepped(s: string, start: nat, line: int)
    requires start < |s| && (s[start] == '"' || s[start] == '\'')
    ensures WellStepped(s, start, line, StringStep(s, start, line))
  {
    var e := RunEnd(s, start + 1, StringBody);
    NewlinesSplit(s, start, start + 1, e);
    if e < |s| {
      NewlinesSplit(s, start, e, e + 1);
    }
  }

  /** `consumeNumber` after the first digit at `start`. */
  function NumberStep(s: string, start: nat, line: int): (r: Step)
    requires start < |s| && IsDigit(s[start])
    ensures WellStepped(s, start, line, r)
  {
    var e := NumberEnd(s, start + 1);
    NoNewlinesInNumber(s, start + 1);
    NoNewlinesInRun(s, start, e);
    Step(e, line, Some(Token(NUMBER, s[start..e], Num(DecimalValue(s[start..e])), line)), None)
  }

  /** The number step's cursor, line, token and report. */
  lemma NumberStepFields(s: string, start: nat, line: int)
    requires start < |s| && IsDigit(s[start])
    ensures var e := NumberEnd(s, start + 1);
      NumberStep(s, start, line) == Step(e, line, Some(Token(NUMBER, s[start..e], Num(DecimalValue(s[start..e])), line)), None)
  {
  }

  /** `consumeIdentifier` after the first letter at `start`. */
  function IdentifierStep(s: string, start: nat, line: int): (r: Step)
    requires start < |s| && IsAlpha(s[start])
    ensures WellStepped(s, start, line, r)
  {
    var e := RunEnd(s, start + 1, AlphaNumerics);
    RunInClass(s, start + 1, AlphaNumerics);
    NoNewlinesInRun(s, start, e);
    Emit(s, start, e, line, IdentifierType(s[start..e]))
  }

  /** The identifier step's cursor, line, token and report. */
  lemma IdentifierStepFields(s: string, start: nat, line: int)
    requires start < |s| && IsAlpha(s[start])
    ensures var e := RunEnd(s, start + 1, AlphaNumerics);
      IdentifierStep(s, start, line) == Step(e, line, Some(Token(IdentifierType(s[start..e]), s[start..e], Nil, line)), None)
  {
  }

  /** One `scanToken` call with the cursor at `start`. */
  function ScanStep(s: string, start: nat, line: int): (r: Step)
    requires start < |s|
    ensures WellStepped(s, start, line, r)
  {
    var p := start + 1;
    match s[start]
    case '(' => Emit(s, start, p, line, LEFT_PAREN)
    case ')' => Emit(s, start, p, line, RIGHT_PAREN)
    case '{' => Emit(s, start, p, line, LEFT_BRACE)
    case '}' => Emit(s, start, p, line, RIGHT_BRACE)
    case ',' => Emit(s, start, p, line, COMMA)
    case '.' => Emit(s, start, p, line, DOT)
    case '-' => Emit(s, start, p, line, MINUS)
    case '+' => Emit(s, start, p, line, PLUS)
    case ';' => Emit(s, start, p, line, SEMICOLON)
    case '*' => Emit(s, start, p, line, STAR)
    case '!' => OperatorStep(s, start, line)
    case '=' => OperatorStep(s, start, line)
    case '<' => OperatorStep(s, start, line)
    case '>' => OperatorStep(s, start, line)
    case '/' => SlashStep(s, start, line)
    case ' ' => Skip(p, line)
    case '\r' => Skip(p, line)
    case '\t' => Skip(p, line)
    case '\n' => Skip(p, line + 1)
    case _ => LiteralStep(s, start, line)
  }

  /** The characters `scanToken`'s switch handles before the string
      delimiters: punctuation, operators, '/' and whitespace. */
  predicate SwitchedEarlier(c: char)
  {
    || c == '(' || c == ')' || c == '{' || c == '}' || c == ',' || c == '.'
    || c == '-' || c == '+' || c == ';' || c == '*' || c == '!' || c == '='
    || c == '<' || c == '>' || c == '/' || c == ' ' || c == '\r' || c == '\t'
    || c == '\n'
  }

  /** The rest of `scanToken`'s switch, from the string delimiters on. */
  function LiteralStep(s: string, start: nat, line: int): (r: Step)
    requires start < |s| && !SwitchedEarlier(s[start])
    ensures WellStepped(s, start, line, r)
  {
    var p := start + 1;
    var c := s[start];
    if c == '"' || c == '\'' then StringStepWellStepped(s, start, line); StringStep(s, start, line)
    // Before the identifier case: the 'o' is consumed on its own.
    else if c == 'o' then (if NextIs(s, p, 'r') then Emit(s, start, p, line, OR) else Skip(p, line))
    else if IsDigit(c) then NumberStep(s, start, line)
    else if IsAlpha(c) then IdentifierStep(s, start, line)
    else Step(p, line, None, Some(Diagnostic(line, "Unexpected character.")))
  }

  lemma NoNewlinesInNumber(s: string, i: nat)
    requires i <= |s|
    ensures forall k :: i <= k < NumberEnd(s, i) ==> s[k] != '\n'
  {
    var k := RunEnd(s, i, Digits);
    RunInClass(s, i, Digits);
    if k + 1 < |s| && s[k] == '.' && IsDigit(s[k + 1]) {
      RunInClass(s, k + 1, Digits);
    }
  }

  /** What scanning from a cursor to the end of the source produces (before
      the end-of-input token is added). */
  datatype Scan = Scan(tokens: seq<Token>, reports: seq<Diagnostic>, line: int)

  function ScanFrom(s: string, pos: nat, line: int): (r: Scan)
    requires pos <= |s|
    ensures r.line == line + NewlinesBetween(s, pos, |s|)
    ensures forall k :: 0 <= k < |r.tokens| ==> r.tokens[k].kind != EOF
    decreases |s| - pos
  {
    if pos == |s| then Scan([], [], line)
    else
      var st := ScanStep(s, pos, line);
      var rest := ScanFrom(s, st.next, st.line);
      NewlinesSplit(s, pos, st.next, |s|);
      Scan(OptionSeq(st.token) + rest.tokens, OptionSeq(st.report) + rest.reports, rest.line)
  }

  /** One step of ScanFrom, as an equation. */
  lemma ScanFromStep(s: string, pos: nat, line: int)
    requires pos < |s|
    ensures var st := ScanStep(s, pos, line);
      var rest := ScanFrom(s, st.next, st.line);
      ScanFrom(s, pos, line) == Scan(OptionSeq(st.token) + rest.tokens, OptionSeq(st.report) + rest.reports, rest.line)
  {
  }

  /** The token list `ScanTokens` returns for a fresh scanner, and the
      errors it reports. */
  function ScanSource(s: string): (r: (seq<Token>, seq<Diagnostic>))
    ensures |r.0| > 0 && r.0[|r.0| - 1] == Token(EOF, "", Nil, 1 + NewlinesBetween(s, 0, |s|))
    ensures forall k :: 0 <= k < |r.0| - 1 ==> r.0[k].kind != EOF
  {
    var scan := ScanFrom(s, 0, 1);
    (scan.tokens + [Token(EOF, "", Nil, scan.line)], scan.reports)
  }

  // ---------------------------------------------------------------------
  // What the scanner promises, stated over ScanStep and ScanSource.

  /** `!`, `=`, `<` and `>` take the two-character token exactly when the
      next character is '=', and `match` consumes the '=' only then. */
  lemma OperatorMaximalMunch(s: string, start: nat, line: int)
    requires start < |s| && IsOperatorChar(s[start])
    ensures var r := ScanStep(s, start, line);
      && r.token.Some? && r.report.None?
      && (NextIs(s, start + 1, '=') ==> r.next == start + 2 && r.token.value.kind in {BANG_EQUAL, EQUAL_EQUAL, LESS_EQUAL, GREATER_EQUAL})
      && (!NextIs(s, start + 1, '=') ==> r.next == start + 1 && r.token.value.kind in {BANG, EQUAL, LESS, GREATER})
      && var two := NextIs(s, start + 1, '=');
      && (s[start] == '!' ==> r.token.value.kind == if two then BANG_EQUAL else BANG)
      && (s[start] == '=' ==> r.token.value.kind == if two then EQUAL_EQUAL else EQUAL)
      && (s[start] == '<' ==> r.token.value.kind == if two then LESS_EQUAL else LESS)
      && (s[start] == '>' ==> r.token.value.kind == if two then GREATER_EQUAL else GREATER)
  {
  }

  /** Whitespace, newlines and `//` comments add no token and report nothing;
      a comment stops before the next newline (or at the end). */
  lemma SkippedTextEmitsNothing(s: string, start: nat, line: int)
    requires start < |s|
    requires s[start] in " \r\t\n" || (s[start] == '/' && NextIs(s, start + 1, '/'))
    ensures var r := ScanStep(s, start, line);
      && r.token.None? && r.report.None?
      && (s[start] == '/' ==> (r.next == |s| || s[r.next] == '\n'))
      && (s[start] == '/' ==> forall k :: start < k < r.next ==> s[k] != '\n')
  {
    if s[start] == '/' {
      RunInClass(s, start + 2, LineRest);
    }
  }

  /** An unrecognised character is reported and skipped. */
  lemma UnexpectedCharacterReported(s: string, start: nat, line: int)
    requires start < |s|
    requires !(s[start] in "(){},.-+;*!=<>/ \r\t\n\"'o") && !IsDigit(s[start]) && !IsAlpha(s[start])
    ensures ScanStep(s, start, line) == Step(start + 1, line, None, Some(Diagnostic(line, "Unexpected character.")))
  {
  }

  /** A string literal runs to the next '"' (only that character closes it,
      whichever quote opened it): then it is a STRING token whose literal is
      the text between the delimiters; with no '"' left it is reported as
      unterminated, adds no token and consumes the rest of the source. */
  lemma StringLiteralScanned(s: string, start: nat, line: int)
    requires start < |s| && (s[start] == '"' || s[start] == '\'')
    ensures var r := StringStep(s, start, line);
      && (forall k :: start < k < r.next - 1 ==> s[k] != '"')
      && (r.token.Some? <==> s[r.next - 1] == '"' && r.next - 1 > start)
      && (r.token.Some? ==> r.token.value.kind == STRING && r.token.value.literal == Str(s[start + 1..r.next - 1]))
      && (r.token.None? ==> r.next == |s| && r.report == Some(Diagnostic(r.line, "Unterminated string.")))
  {
    var e := RunEnd(s, start + 1, StringBody);
    RunInClass(s, start + 1, StringBody);
    if e < |s| {
      assert StringStep(s, start, line).next == e + 1;
    } else {
      assert StringStep(s, start, line).next == e;
    }
  }

  /** A number is a maximal run of digits, followed by a '.' and a second
      maximal run only when a digit comes right after the '.'. */
  lemma NumberScanned(s: string, start: nat, line: int)
    requires start < |s| && IsDigit(s[start])
    ensures var r := NumberStep(s, start, line);
      var k := RunEnd(s, start, Digits);
      && r.token.Some? && r.token.value.kind == NUMBER
      && r.token.value.literal == Num(DecimalValue(s[start..r.next]))
      && (forall i :: start <= i < k ==> IsDigit(s[i]))
      && (if k + 1 < |s| && s[k] == '.' && IsDigit(s[k + 1])
          then r.next == RunEnd(s, k + 1, Digits) && r.next > k + 1
          else r.next == k)
      && (r.next == |s| || !IsDigit(s[r.next]))
  {
    assert RunEnd(s, start, Digits) == RunEnd(s, start + 1, Digits);
    RunInClass(s, start, Digits);
  }

  /** An identifier is a maximal run of letters, digits and '_' starting with
      a letter or '_'; its kind is a keyword's exactly when
      the whole run is in the table. */
  lemma IdentifierScanned(s: string, start: nat, line: int)
    requires start < |s| && IsAlpha(s[start])
    ensures var r := IdentifierStep(s, start, line);
      && r.token.Some?
      && (forall i :: start <= i < r.next ==> IsAlphaNumeric(s[i]))
      && (r.next == |s| || !IsAlphaNumeric(s[r.next]))
      && (r.token.value.kind == IDENTIFIER <==> s[start..r.next] !in Keywords)
      && (s[start..r.next] in Keywords ==> r.token.value.kind == Keywords[s[start..r.next]])
  {
    RunInClass(s, start + 1, AlphaNumerics);
  }

  /** A letter or '_' other than 'o' starts an identifier: 'o' is matched
      before the identifier rule. */
  lemma IdentifierDispatch(s: string, start: nat, line: int)
    requires start < |s| && IsAlpha(s[start]) && s[start] != 'o'
    ensures ScanStep(s, start, line) == IdentifierStep(s, start, line)
  {
  }

  /** An 'o' is always consumed on its own: it becomes an OR token with
      lexeme "o" when an 'r' follows, and vanishes otherwise. */
  lemma LetterOConsumedAlone(s: string, start: nat, line: int)
    requires start < |s| && s[start] == 'o'
    ensures var r := ScanStep(s, start, line);
      && r.next == start + 1 && r.report.None?
      && (NextIs(s, start + 1, 'r') ==> r.token == Some(Token(OR, "o", Nil, line)))
      && (!NextIs(s, start + 1, 'r') ==> r.token.None?)
  {
    assert s[start..start + 1] == "o";
  }

  /** `or` scans as an OR token "o" ... */
  lemma OrScansAsLetterO(s: string)
    requires s == "or"
    ensures ScanStep(s, 0, 1) == Step(1, 1, Some(Token(OR, "o", Nil, 1)), None)
  {
    LetterOConsumedAlone(s, 0, 1);
  }

  /** ... followed by an IDENTIFIER "r". */
  lemma OrLeavesIdentifierR(s: string)
    requires s == "or"
    ensures ScanStep(s, 1, 1) == Step(2, 1, Some(Token(IDENTIFIER, "r", Nil, 1)), None)
  {
    assert s[1] == 'r';
    IdentifierDispatch(s, 1, 1);
    IdentifierR(s);
  }

  lemma IdentifierR(s: string)
    requires s == "or"
    ensures IdentifierStep(s, 1, 1) == Step(2, 1, Some(Token(IDENTIFIER, "r", Nil, 1)), None)
  {
    assert s[1] == 'r';
    assert RunEnd(s, 2, AlphaNumerics) == 2;
    assert s[1..2] == "r";
    assert IdentifierType("r") == IDENTIFIER;
  }

  /** `object` loses its 'o': the 'o' adds nothing and the rest scans as the
      IDENTIFIER "bject". */
  lemma ObjectLosesItsO(s: string)
    requires s == "object"
    ensures ScanStep(s, 0, 1) == Step(1, 1, None, None)
    ensures ScanStep(s, 1, 1) == Step(6, 1, Some(Token(IDENTIFIER, "bject", Nil, 1)), None)
  {
    LetterOConsumedAlone(s, 0, 1);
    IdentifierDispatch(s, 1, 1);
    assert RunEnd(s, 6, AlphaNumerics) == 6;
    assert RunEnd(s, 5, AlphaNumerics) == 6;
    assert RunEnd(s, 4, AlphaNumerics) == 6;
    assert RunEnd(s, 3, AlphaNumerics) == 6;
    assert RunEnd(s, 2, AlphaNumerics) == 6;
    assert s[1..6] == "bject";
    assert IdentifierType("bject") == IDENTIFIER;
  }
}
