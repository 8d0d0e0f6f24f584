/** Tokens: the kinds, their name table and the token record (include/cppexprpars/token.hpp). */
module Tokens {

  /** The kinds, in declaration order. */
  datatype TokenType =
    | End | Number | Identifier
    | Plus | Minus | Star | Slash
    | Caret
    | LeftParen | RightParen
    | Comma
    | Invalid

  /** `strOfTok`: the printable name of each kind, indexed by the kind's enum value. */
  const StrOfTok: seq<string> := [
    "End",
    "Number",
    "Identifier",
    "Plus", "Minus", "Star", "Slash",
    "Caret",
    "LeftParen", "RightParen",
    "Comma",
    "Invalid"
  ]

  /** The enum value of a kind (C++ numbers enumerators from 0 in declaration order). */
  function Ordinal(k: TokenType): (n: nat)
    ensures n < |StrOfTok|
  {
    match k
    case End => 0
    case Number => 1
    case Identifier => 2
    case Plus => 3
    case Minus => 4
    case Star => 5
    case Slash => 6
    case Caret => 7
    case LeftParen => 8
    case RightParen => 9
    case Comma => 10
    case Invalid => 11
  }

  /** The kind whose enum value is `n`: the inverse of `Ordinal`. */
  function KindAt(n: nat): (k: TokenType)
    requires n < |StrOfTok|
    ensures Ordinal(k) == n
  {
    [End, Number, Identifier, Plus, Minus, Star, Slash, Caret, LeftParen, RightParen, Comma, Invalid][n]
  }

  /** Every kind is reached by exactly one index of the table. */
  lemma OrdinalRoundTrip(k: TokenType)
    ensures KindAt(Ordinal(k)) == k
  {
  }

  /** The name `strOfTok` gives a kind. */
  function KindName(k: TokenType): string
  {
    StrOfTok[Ordinal(k)]
  }

  /** The table has one entry per kind and no two kinds share a name. */
  lemma KindNamesAreDistinct(j: TokenType, k: TokenType)
    ensures |StrOfTok| == 12
    ensures KindName(j) == KindName(k) ==> j == k
  {
  }

  /** A token: its kind, the source text it was read from, and the value of a number. */
  datatype Token = Token(kind: TokenType, text: string, numberValue: real)

  /** `Token()`: the default-constructed token. */
  function DefaultToken(): Token
  {
    Token(Invalid, "", 0.0)
  }

  /** A default-constructed token is an Invalid token with no text and value 0. */
  lemma DefaultTokenIsEmptyInvalid()
    ensures DefaultToken().kind == Invalid
    ensures DefaultToken().text == "" && DefaultToken().numberValue == 0.0
  {
  }

  /** `Token(t, txt = "", val = 0.0)`. */
  function NewToken(kind: TokenType, text: string := "", value: real := 0.0): Token
  {
    Token(kind, text, value)
  }

  /** Omitted arguments of the constructor default to empty text and value 0. */
  lemma NewTokenDefaults(kind: TokenType)
    ensures NewToken(kind) == Token(kind, "", 0.0)
    ensures NewToken(kind, "x") == Token(kind, "x", 0.0)
  {
  }
}
