/**
 * Lexical tokens (include/Token.hpp, src/Token.cpp).
 *
 * Token text is a string of BYTES: every char of it stands for one byte of
 * the UTF-8 source (its code is below 256), exactly as std::string holds it.
 */
module Tokens {

  datatype TokenType =
    | StringLit
    | Number
    | Name
    | Boolean
    | Operator
    | Keyword
    | Delimiter
    | EndOfFile

  datatype Token = Token(kind: TokenType, text: string, line: int, column: int)

  /** Token::Token(t, v) with the default line and column. */
  function NewToken(kind: TokenType, text: string): (t: Token)
    ensures t.kind == kind && t.text == text
    ensures t.line == 0 && t.column == 0
  {
    Token(kind, text, 0, 0)
  }

  /** Token::toString */
  function ToString(t: Token): string {
    t.text
  }

  /** Token::operator==(const std::string&): compares the text only. */
  predicate EqualsText(t: Token, s: string) {
    t.text == s
  }

  /** Token::operator==(const Token&): compares kind and text, not the position. */
  predicate Equals(a: Token, b: Token) {
    a.kind == b.kind && a.text == b.text
  }

  /** toString gives back the text the token was built with. */
  lemma ToStringOfNewToken(kind: TokenType, text: string)
    ensures ToString(NewToken(kind, text)) == text
    ensures EqualsText(NewToken(kind, text), text)
  {
  }

  /** Neither comparison looks at the position of a token. */
  lemma EqualityIgnoresPosition(a: Token, line: int, column: int, s: string)
    ensures Equals(a, a.(line := line, column := column))
    ensures EqualsText(a, s) <==> EqualsText(a.(line := line, column := column), s)
  {
  }

  /** Token equality is an equivalence: reflexive, symmetric and transitive. */
  lemma EqualsIsEquivalence(a: Token, b: Token, c: Token)
    ensures Equals(a, a)
    ensures Equals(a, b) <==> Equals(b, a)
    ensures Equals(a, b) && Equals(b, c) ==> Equals(a, c)
  {
  }

  /** Two equal tokens agree on every string comparison; the converse needs equal kinds. */
  lemma EqualsAgreesWithText(a: Token, b: Token, s: string)
    ensures Equals(a, b) ==> (EqualsText(a, s) <==> EqualsText(b, s))
    ensures Equals(a, b) <==> a.kind == b.kind && EqualsText(a, ToString(b))
  {
  }
}
