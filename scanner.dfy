/** The scanner object: a cursor over the source text that appends tokens to
    its list and errors to its report log. Each method is proved to do what
    the matching function of module Lexical says. */
module Scanning {
  import opened Wrappers
  import opened Tokens
  import opened Lexical

  class Scanner {
    const source: string
    /** The token list `ScanTokens` fills and returns. */
    var tokens: seq<Token>
    /** The syntax errors reported so far (what `Lox.error` prints). */
    var reports: seq<Diagnostic>
    var start: nat
    var current: nat
    var line: int

    ghost predicate Valid()
      reads this
    {
      start <= current <= |source|
    }

    constructor (source: string)
      ensures Valid()
      ensures this.source == source && tokens == [] && reports == []
      ensures start == 0 && current == 0 && line == 1
    {
      this.source := source;
      tokens := [];
      reports := [];
      start := 0;
      current := 0;
      line := 1;
    }

    /** Scans from the cursor to the end of the source and adds the
        end-of-input token. */
    method ScanTokens() returns (result: seq<Token>)
      requires Valid()
      modifies this
      ensures Valid() && current == |source|
      ensures var scan := ScanFrom(source, old(current), old(line));
        && tokens == old(tokens) + scan.tokens + [Token(EOF, "", Nil, scan.line)]
        && reports == old(reports) + scan.reports
        && line == scan.line
      ensures result == tokens
    {
      ghost var whole := ScanFrom(source, current, line);
      while !IsAtEnd()
        invariant Valid()
        invariant var rest := ScanFrom(source, current, line);
          && old(tokens) + whole.tokens == tokens + rest.tokens
          && old(reports) + whole.reports == reports + rest.reports
          && rest.line == whole.line
        decreases |source| - current
      {
        // We are at the beginning of the next lexeme.
        start := current;
        ghost var tokensBefore, reportsBefore := tokens, reports;
        ghost var st := ScanStep(source, current, line);
        ghost var rest := ScanFrom(source, st.next, st.line);
        ScanFromStep(source, current, line);
        ScanToken();
        AppendAssociative(tokensBefore, OptionSeq(st.token), rest.tokens);
        AppendAssociative(reportsBefore, OptionSeq(st.report), rest.reports);
      }
      tokens := tokens + [Token(EOF, "", Nil, line)];
      result := tokens;
    }

    /** The scanner is where one step `st` leaves it when the token list was
        `tokens0` and the report list `reports0` before the step. */
    ghost predicate Stepped(st: Step, tokens0: seq<Token>, reports0: seq<Diagnostic>)
      reads this
    {
      && current == st.next && line == st.line
      && tokens == tokens0 + OptionSeq(st.token)
      && reports == reports0 + OptionSeq(st.report)
    }

    predicate IsAtEnd()
      reads this
    {
      current >= |source|
    }

    /** Recognises one lexeme starting at `start`. */
    method ScanToken()
      requires Valid() && start == current < |source|
      modifies this
      ensures Valid() && start == old(start)
      ensures Stepped(ScanStep(source, old(current), old(line)), old(tokens), old(reports))
    {
      var c := Advance();
      match c
      case '(' => AddToken(LEFT_PAREN);
      case ')' => AddToken(RIGHT_PAREN);
      case '{' => AddToken(LEFT_BRACE);
      case '}' => AddToken(RIGHT_BRACE);
      case ',' => AddToken(COMMA);
      case '.' => AddToken(DOT);
      case '-' => AddToken(MINUS);
      case '+' => AddToken(PLUS);
      case ';' => AddToken(SEMICOLON);
      case '*' => AddToken(STAR);
      case '!' => ScanOperator(c);
      case '=' => ScanOperator(c);
      case '<' => ScanOperator(c);
      case '>' => ScanOperator(c);
      case '/' => ScanSlash();
      case ' ' =>
      case '\r' =>
      case '\t' =>
        // Ignore whitespace.
      case '\n' =>
        line := line + 1;
      case _ => ScanLiteral(c);
    }

    /** The `!`, `=`, `<` and `>` cases of `scanToken`'s switch: the
        two-character token when a '=' follows. */
    method ScanOperator(c: char)
      requires Valid() && current == start + 1 && c == source[start] && IsOperatorChar(c)
      modifies this`current, this`tokens
      ensures Valid()
      ensures Stepped(OperatorStep(source, start, line), old(tokens), reports)
    {
      var twoChar := Match('=');
      if c == '!' {
        AddToken(if twoChar then BANG_EQUAL else BANG);
      } else if c == '=' {
        AddToken(if twoChar then EQUAL_EQUAL else EQUAL);
      } else if c == '<' {
        AddToken(if twoChar then LESS_EQUAL else LESS);
      } else {
        AddToken(if twoChar then GREATER_EQUAL else GREATER);
      }
    }

    /** The two '/' cases of `scanToken`'s switch: a comment when a second
        '/' follows, else SLASH. */
    method ScanSlash()
      requires Valid() && current == start + 1 && source[start] == '/'
      modifies this`current, this`tokens
      ensures Valid()
      ensures Stepped(SlashStep(source, start, line), old(tokens), reports)
    {
      var comment := Match('/');
      if comment {
        // A comment goes until the end of the line.
        SkipComment();
      } else {
        AddToken(SLASH);
      }
    }

    /** The cases of `scanToken`'s switch from the string delimiters on:
        literals, identifiers, the lone 'o' and unexpected characters. */
    method ScanLiteral(c: char)
      requires Valid() && current == start + 1 && c == source[start] && !SwitchedEarlier(c)
      modifies this
      ensures Valid() && start == old(start)
      ensures Stepped(LiteralStep(source, start, old(line)), old(tokens), old(reports))
    {
      if c == '"' || c == '\'' {
        ConsumeString();
      } else if c == 'o' {
        if Peek() == 'r' {
          AddToken(OR);
        }
      } else if IsDigit(c) {
        ConsumeNumber();
      } else if IsAlpha(c) {
        ConsumeIdentifier();
      } else {
        reports := reports + [Diagnostic(line, "Unexpected character.")];
      }
    }

    /** Advances to the next newline or the end. */
    method SkipComment()
      requires Valid()
      modifies this`current
      ensures Valid() && current == RunEnd(source, old(current), LineRest)
    {
      while Peek() != '\n' && !IsAtEnd()
        invariant Valid() && old(current) <= current
        invariant forall k :: old(current) <= k < current ==> source[k] != '\n'
        decreases |source| - current
      {
        var _ := Advance();
      }
      RunEndAt(source, old(current), current, LineRest);
    }

    method Advance() returns (c: char)
      requires Valid() && current < |source|
      modifies this`current
      ensures Valid() && current == old(current) + 1 && c == source[old(current)]
    {
      current := current + 1;
      c := source[current - 1];
    }

    /** Adds a token of kind `kind` for the text from `start` to the cursor. */
    method AddToken(kind: TokenType)
      requires Valid()
      modifies this`tokens
      ensures tokens == old(tokens) + [Token(kind, source[start..current], Nil, line)]
    {
      AddTokenWithLiteral(kind, Nil);
    }

    method AddTokenWithLiteral(kind: TokenType, literal: Value)
      requires Valid()
      modifies this`tokens
      ensures tokens == old(tokens) + [Token(kind, source[start..current], literal, line)]
    {
      var text := source[start..current];
      tokens := tokens + [Token(kind, text, literal, line)];
    }

    /** Consumes the next character only when it is `expected`. */
    method Match(expected: char) returns (matched: bool)
      requires Valid()
      modifies this`current
      ensures Valid()
      ensures matched == NextIs(source, old(current), expected)
      ensures current == if matched then old(current) + 1 else old(current)
    {
      if IsAtEnd() {
        return false;
      }
      if source[current] != expected {
        return false;
      }
      current := current + 1;
      return true;
    }

    /** The character under the cursor, '\0' at the end. */
    function Peek(): (c: char)
      reads this
      requires Valid()
      ensures current < |source| ==> c == source[current]
    {
      if IsAtEnd() then '\0' else source[current]
    }

    /** The character after the one under the cursor, '\0' past the end. */
    function PeekNext(): (c: char)
      reads this
      requires Valid()
      ensures current + 1 < |source| ==> c == source[current + 1]
    {
      if current + 1 >= |source| then '\0' else source[current + 1]
    }

    /** The rest of a string literal whose delimiter was just consumed. */
    method ConsumeString()
      requires Valid() && current == start + 1 && (source[start] == '"' || source[start] == '\'')
      modifies this`current, this`line, this`tokens, this`reports
      ensures Valid()
      ensures Stepped(StringStep(source, start, old(line)), old(tokens), old(reports))
    {
      SkipStringBody();

      // Unterminated string.
      if IsAtEnd() {
        reports := reports + [Diagnostic(line, "Unterminated string.")];
        return;
      }

      // The closing ".
      var _ := Advance();

      // Trim the surrounding quotes.
      var value := source[start + 1..current - 1];
      AddTokenWithLiteral(STRING, Str(value));
    }

    /** Advances to the next '"' or the end, counting the newlines passed. */
    method SkipStringBody()
      requires Valid()
      modifies this`current, this`line
      ensures Valid() && current == RunEnd(source, old(current), StringBody)
      ensures line == old(line) + NewlinesBetween(source, old(current), current)
    {
      while Peek() != '"' && !IsAtEnd()
        invariant Valid() && old(current) <= current
        invariant forall k :: old(current) <= k < current ==> source[k] != '"'
        invariant line == old(line) + NewlinesBetween(source, old(current), current)
        decreases |source| - current
      {
        if Peek() == '\n' {
          line := line + 1;
        }
        var _ := Advance();
      }
      RunEndAt(source, old(current), current, StringBody);
    }

    /** The rest of a number literal whose first digit was just consumed. */
    method ConsumeNumber()
      requires Valid() && current == start + 1 && IsDigit(source[start])
      modifies this`current, this`tokens
      ensures Valid()
      ensures current == NumberEnd(source, old(current))
      ensures tokens == old(tokens) + [Token(NUMBER, source[start..current], Num(DecimalValue(source[start..current])), line)]
      ensures Stepped(NumberStep(source, start, line), old(tokens), reports)
    {
      SkipDigits();
      ghost var digitsEnd := current;

      // Look for a fractional part.
      if Peek() == '.' && IsDigit(PeekNext()) {
        // Consume the "."
        var _ := Advance();
        SkipDigits();
      }
      NumberEndFrom(source, old(current), digitsEnd, current);

      AddTokenWithLiteral(NUMBER, Num(DecimalValue(source[start..current])));
      NumberStepFields(source, start, line);
    }

    /** Advances over a run of digits. */
    method SkipDigits()
      requires Valid()
      modifies this`current
      ensures Valid() && current == RunEnd(source, old(current), Digits)
    {
      while IsDigit(Peek())
        invariant Valid() && old(current) <= current
        invariant forall k :: old(current) <= k < current ==> IsDigit(source[k])
        decreases |source| - current
      {
        var _ := Advance();
      }
      RunEndAt(source, old(current), current, Digits);
    }

    /** The rest of an identifier or keyword whose first letter was just
        consumed. */
    method ConsumeIdentifier()
      requires Valid() && current == start + 1 && IsAlpha(source[start])
      modifies this`current, this`tokens
      ensures Valid()
      ensures current == RunEnd(source, old(current), AlphaNumerics)
      ensures tokens == old(tokens) + [Token(IdentifierType(source[start..current]), source[start..current], Nil, line)]
      ensures Stepped(IdentifierStep(source, start, line), old(tokens), reports)
    {
      while IsAlphaNumeric(Peek())
        invariant Valid() && old(current) <= current
        invariant forall k :: old(current) <= k < current ==> IsAlphaNumeric(source[k])
        invariant unchanged(this`tokens)
        decreases |source| - current
      {
        var _ := Advance();
      }
      RunEndAt(source, old(current), current, AlphaNumerics);

      // See if the identifier is a reserved word.
      var text := source[start..current];
      var kind := IdentifierType(text);
      AddToken(kind);
      IdentifierStepFields(source, start, line);
    }
  }

  lemma AppendAssociative<T>(a: seq<T>, b: seq<T>, c: seq<T>)
    ensures (a + b) + c == a + (b + c)
  {
  }

  /** Scanning a fresh scanner's whole source yields ScanSource's tokens and
      reports. */
  method ScanAll(source: string) returns (tokens: seq<Token>, reports: seq<Diagnostic>)
    ensures (tokens, reports) == ScanSource(source)
  {
    var scanner := new Scanner(source);
    tokens := scanner.ScanTokens();
    reports := scanner.reports;
    ghost var scan := ScanFrom(source, 0, 1);
    assert tokens == scan.tokens + [Token(EOF, "", Nil, scan.line)];
    assert reports == scan.reports;
  }
}
