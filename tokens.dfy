/** Tokens as the scanner produces them, the values tokens and literal nodes
    carry, and the two kinds of report (syntax diagnostics and runtime
    errors) that the pipeline emits. */
module Tokens {

  /** The token kinds of the language, with the enumeration's own names. */
  datatype TokenType =
    // Single-character tokens.
    | LEFT_PAREN | RIGHT_PAREN | LEFT_BRACE | RIGHT_BRACE
    | COMMA | DOT | MINUS | PLUS | SEMICOLON | SLASH | STAR
    // One or two character tokens.
    | BANG | BANG_EQUAL | EQUAL | EQUAL_EQUAL
    | GREATER | GREATER_EQUAL | LESS | LESS_EQUAL
    // Literals.
    | IDENTIFIER | STRING | NUMBER
    // Keywords.
    | AND | CLASS | ELSE | FALSE | FUN | FOR | IF | NIL | OR
    | PRINT | RETURN | SUPER | THIS | TRUE | VAR | WHILE
    | EOF

  /** A value as the host stores it in an `object`: `null` (nil), a boolean,
      a number (a double in the source, a real here), a string, or a boxed
      TokenType (the parser's default `for` condition stores one). */
  datatype Value =
    | Nil
    | Bool(b: bool)
    | Num(n: real)
    | Str(s: string)
    | TokenTypeValue(tag: TokenType)

  /** A token: its kind, the source text it was scanned from, its decoded
      literal (Nil when it has none) and the line it ends on. */
  datatype Token = Token(kind: TokenType, lexeme: string, literal: Value, line: int)

  /** A syntax error report: the line and the message. */
  datatype Diagnostic = Diagnostic(line: int, message: string)

  /** A runtime error: the token at which it was raised and its message. */
  datatype RuntimeError = RuntimeError(token: Token, message: string)

  /** The name the host prints for a token kind. */
  function TokenTypeName(t: TokenType): string
  {
    match t
    case LEFT_PAREN => "LEFT_PAREN"
    case RIGHT_PAREN => "RIGHT_PAREN"
    case LEFT_BRACE => "LEFT_BRACE"
    case RIGHT_BRACE => "RIGHT_BRACE"
    case COMMA => "COMMA"
    case DOT => "DOT"
    case MINUS => "MINUS"
    case PLUS => "PLUS"
    case SEMICOLON => "SEMICOLON"
    case SLASH => "SLASH"
    case STAR => "STAR"
    case BANG => "BANG"
    case BANG_EQUAL => "BANG_EQUAL"
    case EQUAL => "EQUAL"
    case EQUAL_EQUAL => "EQUAL_EQUAL"
    case GREATER => "GREATER"
    case GREATER_EQUAL => "GREATER_EQUAL"
    case LESS => "LESS"
    case LESS_EQUAL => "LESS_EQUAL"
    case IDENTIFIER => "IDENTIFIER"
    case STRING => "STRING"
    case NUMBER => "NUMBER"
    case AND => "AND"
    case CLASS => "CLASS"
    case ELSE => "ELSE"
    case FALSE => "FALSE"
    case FUN => "FUN"
    case FOR => "FOR"
    case IF => "IF"
    case NIL => "NIL"
    case OR => "OR"
    case PRINT => "PRINT"
    case RETURN => "RETURN"
    case SUPER => "SUPER"
    case THIS => "THIS"
    case TRUE => "TRUE"
    case VAR => "VAR"
    case WHILE => "WHILE"
    case EOF => "EOF"
  }
}
