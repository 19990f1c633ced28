/**
 * Tokens of the Kaleidoscope lexer and the C-locale character classes it uses
 * (kaleidoscope/toy.cpp, enum Token and gettok).
 */
module Tokens {

  /** The lexer returns a keyword/class token, or the raw character it read. */
  datatype Token =
    | TokEof
    | TokDef | TokExtern
    | TokIdentifier | TokNumber
    | TokIf | TokThen | TokElse
    | TokFor | TokIn
    | TokBinary | TokUnary
    | TokVar
    | TokChar(c: char)

  /** isspace in the C locale. */
  predicate IsSpace(c: char) {
    c == ' ' || c == '\t' || c == '\n' || c == '\r' || c == '\U{0B}' || c == '\U{0C}'
  }

  /** isalpha in the C locale. */
  predicate IsAlpha(c: char) {
    ('A' <= c <= 'Z') || ('a' <= c <= 'z')
  }

  /** isdigit. */
  predicate IsDigit(c: char) {
    '0' <= c <= '9'
  }

  /** isalnum in the C locale. */
  predicate IsAlnum(c: char) {
    IsAlpha(c) || IsDigit(c)
  }

  /** A character that may continue a number literal: [0-9.] */
  predicate IsNumChar(c: char) {
    IsDigit(c) || c == '.'
  }

  /** isascii applied to a token: the keyword tokens are negative in the source, so only raw characters below 128 qualify. */
  predicate IsAsciiTok(t: Token) {
    t.TokChar? && t.c <= '\U{7F}'
  }

  /** The ten reserved words. */
  const Keywords: set<string> :=
    {"def", "extern", "if", "then", "else", "for", "in", "binary", "unary", "var"}

  /** A word the lexer reports as tok_identifier. */
  predicate IsIdentWord(w: string) {
    && |w| > 0
    && IsAlpha(w[0])
    && (forall k :: 0 <= k < |w| ==> IsAlnum(w[k]))
    && w !in Keywords
  }

  /** The token for a maximal alphanumeric run: its keyword, or tok_identifier. */
  function WordToken(w: string): (t: Token)
    ensures t == TokIdentifier <==> w !in Keywords
    ensures t != TokEof && !t.TokChar? && t != TokNumber
  {
    if w == "def" then TokDef
    else if w == "extern" then TokExtern
    else if w == "if" then TokIf
    else if w == "then" then TokThen
    else if w == "else" then TokElse
    else if w == "for" then TokFor
    else if w == "in" then TokIn
    else if w == "binary" then TokBinary
    else if w == "unary" then TokUnary
    else if w == "var" then TokVar
    else TokIdentifier
  }
}
