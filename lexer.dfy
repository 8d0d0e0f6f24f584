/** The lexer (include/cppexprpars/tokenizer.hpp): a cursor over the input that
    produces one token per `NextToken`. The pure functions below specify a single
    step; the class `Tokenizer` performs it in place, loop by loop as the library does. */
module Lexer {
  import opened Errors
  import opened Tokens

  // ASCII character classes of <cctype>
  predicate IsDigit(c: char) { '0' <= c <= '9' }
  predicate IsAlpha(c: char) { 'a' <= c <= 'z' || 'A' <= c <= 'Z' }
  predicate IsAlnum(c: char) { IsDigit(c) || IsAlpha(c) }
  /** `isspace`: blank, and tab, newline, vertical tab, form feed, carriage return (9 to 13). */
  predicate IsSpace(c: char) { c == ' ' || '\t' <= c <= '\r' }
  predicate IsIdentStart(c: char) { IsAlpha(c) || c == '_' }
  predicate IsIdentChar(c: char) { IsAlnum(c) || c == '_' }
  predicate IsDigitOrDot(c: char) { IsDigit(c) || c == '.' }

  /** The tokenizer's state: the current token and the position after it. */
  datatype Cursor = Cursor(cur: Token, pos: nat)

  /** The end of the maximal run of characters of class `inClass` that starts at `p`. */
  function RunEnd(s: string, p: nat, inClass: char -> bool): (q: nat)
    requires p <= |s|
    ensures p <= q <= |s|
    ensures q == |s| || !inClass(s[q])
    decreases |s| - p
  {
    if p < |s| && inClass(s[p]) then RunEnd(s, p + 1, inClass) else p
  }

  /** Every character of the run is in the class. */
  lemma {:induction false} RunIsInClass(s: string, p: nat, inClass: char -> bool)
    requires p <= |s|
    ensures forall i :: p <= i < RunEnd(s, p, inClass) ==> inClass(s[i])
    decreases |s| - p
  {
    if p < |s| && inClass(s[p]) {
      RunIsInClass(s, p + 1, inClass);
    }
  }

  /** Where `skip_whitespace` stops. */
  function SkipSpace(s: string, p: nat): (q: nat)
    requires p <= |s|
    ensures p <= q <= |s|
    ensures q == |s| || !IsSpace(s[q])
  {
    RunEnd(s, p, IsSpace)
  }

  /** True if one of `s[p..q]` is a dot. */
  ghost predicate DotIn(s: string, p: nat, q: nat)
    requires p <= q <= |s|
  {
    exists i :: p <= i < q && s[i] == '.'
  }

  /** The end of the integer-and-fraction part of a number: digits and dots, stopping at a
      second dot (`hasDot` says whether one was already read). */
  function MantissaEnd(s: string, p: nat, hasDot: bool): (q: nat)
    requires p <= |s|
    ensures p <= q <= |s|
    decreases |s| - p
  {
    if p < |s| && IsDigitOrDot(s[p]) then
      if s[p] == '.' then
        if hasDot then p else MantissaEnd(s, p + 1, true)
      else MantissaEnd(s, p + 1, hasDot)
    else p
  }

  /** The mantissa is the maximal run of digits and dots holding at most one dot. */
  lemma {:induction false} MantissaIsMaximalRun(s: string, p: nat, hasDot: bool)
    requires p <= |s|
    ensures var q := MantissaEnd(s, p, hasDot);
      && (forall i :: p <= i < q ==> IsDigitOrDot(s[i]))
      && (forall i, j :: p <= i < j < q && s[i] == '.' ==> s[j] != '.')
      && (hasDot ==> forall i :: p <= i < q ==> s[i] != '.')
      && (q == |s| || !IsDigitOrDot(s[q]) || (s[q] == '.' && (hasDot || DotIn(s, p, q))))
    decreases |s| - p
  {
    var q := MantissaEnd(s, p, hasDot);
    if p < |s| && IsDigitOrDot(s[p]) {
      if s[p] == '.' {
        if !hasDot {
          MantissaIsMaximalRun(s, p + 1, true);
          assert DotIn(s, p, q) by { assert s[p] == '.'; }
        }
      } else {
        MantissaIsMaximalRun(s, p + 1, hasDot);
        assert DotIn(s, p + 1, q) ==> DotIn(s, p, q);
      }
    }
  }

  /** The end of an exponent `e`/`E`, optional sign, digits, starting at `p` (or `p` if there is none). */
  function ExponentEnd(s: string, p: nat): (q: nat)
    requires p <= |s|
    ensures p <= q <= |s|
    ensures q == p <==> (p == |s| || (s[p] != 'e' && s[p] != 'E'))
  {
    if p < |s| && (s[p] == 'e' || s[p] == 'E') then
      var p1 := p + 1;
      var p2 := if p1 < |s| && (s[p1] == '+' || s[p1] == '-') then p1 + 1 else p1;
      RunEnd(s, p2, IsDigit)
    else p
  }

  /** Where an exponent that is present ends: after the mark, the optional sign and the digits. */
  lemma ExponentEndAfterMark(s: string, p: nat, d: nat)
    requires p < |s| && (s[p] == 'e' || s[p] == 'E')
    requires d == if p + 1 < |s| && (s[p + 1] == '+' || s[p + 1] == '-') then p + 2 else p + 1
    ensures ExponentEnd(s, p) == RunEnd(s, d, IsDigit)
  {
  }

  /** A non-empty exponent is `e` or `E`, an optional sign, and the maximal run of digits after it. */
  lemma ExponentIsSignedDigitRun(s: string, p: nat)
    requires p <= |s|
    ensures var q := ExponentEnd(s, p);
      q > p ==>
        var d := if p + 1 < |s| && (s[p + 1] == '+' || s[p + 1] == '-') then p + 2 else p + 1;
        && d <= q
        && (forall i :: d <= i < q ==> IsDigit(s[i]))
        && (q == |s| || !IsDigit(s[q]))
  {
    if p < |s| && (s[p] == 'e' || s[p] == 'E') {
      var d := if p + 1 < |s| && (s[p + 1] == '+' || s[p + 1] == '-') then p + 2 else p + 1;
      RunIsInClass(s, d, IsDigit);
    }
  }

  /** The step `parse_number` takes at `p`. */
  function NumberToken(s: string, p: nat, stod: string -> Option<real>): Cursor
    requires p < |s| && IsDigitOrDot(s[p])
  {
    var q := ExponentEnd(s, MantissaEnd(s, p, false));
    var text := s[p..q];
    match stod(text)
    case Some(v) => Cursor(NewToken(Number, text, v), q)
    case None => Cursor(NewToken(Invalid, text), q)
  }

  /** The kind of a one-character operator or punctuation token. */
  function PunctKind(c: char): Option<TokenType>
  {
    match c
    case '+' => Some(Plus)
    case '-' => Some(Minus)
    case '*' => Some(Star)
    case '/' => Some(Slash)
    case '^' => Some(Caret)
    case '(' => Some(LeftParen)
    case ')' => Some(RightParen)
    case ',' => Some(Comma)
    case _ => None
  }

  /** Exactly the eight characters `+ - * / ^ ( ) ,` have a kind of their own, and none of
      them is End, Number, Identifier or Invalid. */
  lemma PunctKindCases(c: char)
    ensures PunctKind(c).Some? <==> c in "+-*/^(),"
    ensures PunctKind(c).Some? ==> PunctKind(c).value !in {End, Number, Identifier, Invalid}
  {
  }

  /** The step `next_token` takes from position `p`: skip whitespace, then read one token. */
  function NextTokenAt(s: string, p: nat, stod: string -> Option<real>): (r: Cursor)
    requires p <= |s|
    ensures SkipSpace(s, p) <= r.pos <= |s|
    ensures r.cur.text == s[SkipSpace(s, p)..r.pos]
    ensures r.cur.kind == End <==> SkipSpace(s, p) == |s|
    ensures r.cur.kind != End ==> SkipSpace(s, p) < r.pos
    ensures r.cur.text == [] || !IsSpace(r.cur.text[0])
  {
    var b := SkipSpace(s, p);
    if b >= |s| then Cursor(NewToken(End, ""), b)
    else
      var ch := s[b];
      if IsDigitOrDot(ch) then NumberToken(s, b, stod)
      else if IsIdentStart(ch) then
        var q := RunEnd(s, b, IsIdentChar);
        Cursor(NewToken(Identifier, s[b..q]), q)
      else
        match PunctKind(ch)
        case Some(k) => Cursor(NewToken(k, [ch]), b + 1)
        case None => Cursor(NewToken(Invalid, [ch]), b + 1)
  }

  /** The tokenizer's state after consuming the current token. */
  function Advance(s: string, stod: string -> Option<real>, c: Cursor): Cursor
    requires c.pos <= |s|
  {
    NextTokenAt(s, c.pos, stod)
  }

  /** The state right after construction: the first token is already current. */
  function Start(s: string, stod: string -> Option<real>): Cursor
  {
    NextTokenAt(s, 0, stod)
  }

  /** What is left to read: the characters after the cursor, plus one for a current
      token that is not End. */
  function Measure(s: string, c: Cursor): nat
    requires c.pos <= |s|
  {
    |s| - c.pos + (if c.cur.kind == End then 0 else 1)
  }

  /** Consuming a token never increases the measure, and consuming a non-End token decreases it. */
  lemma AdvanceDecreases(s: string, stod: string -> Option<real>, c: Cursor)
    requires c.pos <= |s|
    ensures Advance(s, stod, c).pos <= |s|
    ensures Measure(s, Advance(s, stod, c)) <= |s| - c.pos
    ensures c.cur.kind != End ==> Measure(s, Advance(s, stod, c)) < Measure(s, c)
  {
  }

  /** Once the input is exhausted the End token persists and the position stays at the end. */
  lemma {:induction false} EndIsSticky(s: string, p: nat, stod: string -> Option<real>)
    requires p <= |s|
    requires NextTokenAt(s, p, stod).cur.kind == End
    ensures NextTokenAt(s, p, stod) == Cursor(Token(End, "", 0.0), |s|)
    ensures NextTokenAt(s, |s|, stod) == NextTokenAt(s, p, stod)
  {
  }

  /** The End token appears exactly when only whitespace remains. */
  lemma {:induction false} EndOnlyAtBlankRest(s: string, p: nat, stod: string -> Option<real>)
    requires p <= |s|
    ensures NextTokenAt(s, p, stod).cur.kind == End <==> forall i :: p <= i < |s| ==> IsSpace(s[i])
  {
    var b := SkipSpace(s, p);
    RunIsInClass(s, p, IsSpace);
    if b < |s| {
      assert !IsSpace(s[b]);
    }
  }

  /** Each of `+ - * / ^ ( ) ,` is a token of its own kind, text the one character, one step long. */
  lemma PunctuationToken(s: string, p: nat, stod: string -> Option<real>)
    requires p <= |s|
    requires SkipSpace(s, p) < |s| && PunctKind(s[SkipSpace(s, p)]).Some?
    ensures var b := SkipSpace(s, p);
      NextTokenAt(s, p, stod) == Cursor(Token(PunctKind(s[b]).value, [s[b]], 0.0), b + 1)
  {
  }

  /** Any other character that starts neither a number nor an identifier is a one-character
      Invalid token. */
  lemma InvalidCharToken(s: string, p: nat, stod: string -> Option<real>)
    requires p <= |s|
    requires var b := SkipSpace(s, p);
      b < |s| && !IsDigitOrDot(s[b]) && !IsIdentStart(s[b]) && PunctKind(s[b]).None?
    ensures var b := SkipSpace(s, p);
      NextTokenAt(s, p, stod) == Cursor(Token(Invalid, [s[b]], 0.0), b + 1)
  {
  }

  /** An identifier is the maximal run of letters, digits and `_` that starts with a letter or `_`. */
  lemma IdentifierIsMaximalRun(s: string, p: nat, stod: string -> Option<real>)
    requires p <= |s|
    requires NextTokenAt(s, p, stod).cur.kind == Identifier
    ensures var r := NextTokenAt(s, p, stod);
      && |r.cur.text| > 0
      && IsIdentStart(r.cur.text[0])
      && (forall i :: 0 <= i < |r.cur.text| ==> IsIdentChar(r.cur.text[i]))
      && (r.pos == |s| || !IsIdentChar(s[r.pos]))
  {
    RunIsInClass(s, SkipSpace(s, p), IsIdentChar);
  }

  /** A number starting at `b` is read as the mantissa followed by the exponent; it is a
      Number exactly when `stod` converts that text, and then carries the converted value,
      and an Invalid token with the same text otherwise. */
  lemma NumberTokenShape(s: string, b: nat, stod: string -> Option<real>)
    requires b < |s| && IsDigitOrDot(s[b])
    ensures var m := MantissaEnd(s, b, false);
      var r := NumberToken(s, b, stod);
      && b < m <= r.pos
      && r.pos == ExponentEnd(s, m)
      && r.cur.text == s[b..m] + s[m..r.pos]
      && (r.cur.kind == Number <==> stod(r.cur.text).Some?)
      && (r.cur.kind == Number ==> r.cur.numberValue == stod(r.cur.text).value)
      && (r.cur.kind != Number ==> r.cur == Token(Invalid, r.cur.text, 0.0))
  {
    var m := MantissaEnd(s, b, false);
    assert s[b..ExponentEnd(s, m)] == s[b..m] + s[m..ExponentEnd(s, m)];
  }

  /** A token that starts with a digit or a dot is read by `parse_number`. */
  lemma NumberDispatch(s: string, p: nat, stod: string -> Option<real>)
    requires p <= |s|
    requires var b := SkipSpace(s, p); b < |s| && IsDigitOrDot(s[b])
    ensures NextTokenAt(s, p, stod) == NumberToken(s, SkipSpace(s, p), stod)
  {
  }

  /** The lexer: `input_`, `pos_` and `current_token_`. `stod` is the number conversion
      (`std::stod`), supplied from outside. */
  class Tokenizer {
    const input: string
    const stod: string -> Option<real>
    var pos: nat
    var current: Token

    ghost predicate Valid()
      reads this
    {
      pos <= |input|
    }

    /** The abstract state (current token, position). */
    function State(): Cursor
      reads this
    {
      Cursor(current, pos)
    }

    /** Construction reads the first token right away. */
    constructor (input: string, stod: string -> Option<real>)
      ensures Valid()
      ensures this.input == input && this.stod == stod
      ensures State() == Start(input, stod)
    {
      this.input := input;
      this.stod := stod;
      pos := 0;
      current := DefaultToken();
      new;
      NextToken();
    }

    /** `next_token`: one step of the lexer. */
    method NextToken()
      requires Valid()
      modifies this
      ensures Valid()
      ensures State() == NextTokenAt(input, old(pos), stod)
    {
      SkipWhitespace();
      if pos >= |input| {
        current := NewToken(End, "");
        return;
      }
      var ch := input[pos];
      if IsDigit(ch) || ch == '.' {
        ParseNumber();
      } else if IsAlpha(ch) || ch == '_' {
        ParseIdentifier();
      } else {
        match ch {
          case '+' => MakeToken(Plus);
          case '-' => MakeToken(Minus);
          case '*' => MakeToken(Star);
          case '/' => MakeToken(Slash);
          case '^' => MakeToken(Caret);
          case '(' => MakeToken(LeftParen);
          case ')' => MakeToken(RightParen);
          case ',' => MakeToken(Comma);
          case _ =>
            current := NewToken(Invalid, [ch]);
            pos := pos + 1;
        }
      }
    }

    method SkipWhitespace()
      requires Valid()
      modifies this
      ensures Valid()
      ensures pos == SkipSpace(input, old(pos)) && current == old(current)
    {
      while pos < |input| && IsSpace(input[pos])
        invariant old(pos) <= pos <= |input|
        invariant SkipSpace(input, pos) == SkipSpace(input, old(pos))
        invariant current == old(current)
        decreases |input| - pos
      {
        pos := pos + 1;
      }
    }

    /** The exponent's digit loop of `parse_number`: moves past a run of digits. */
    method SkipDigits()
      requires Valid()
      modifies this
      ensures Valid()
      ensures pos == RunEnd(input, old(pos), IsDigit) && current == old(current)
    {
      while pos < |input| && IsDigit(input[pos])
        invariant old(pos) <= pos <= |input|
        invariant RunEnd(input, pos, IsDigit) == RunEnd(input, old(pos), IsDigit)
        invariant current == old(current)
        decreases |input| - pos
      {
        pos := pos + 1;
      }
    }

    /** The integer and fractional loop of `parse_number`: digits, and at most one dot. */
    method SkipMantissa()
      requires Valid()
      modifies this
      ensures Valid()
      ensures pos == MantissaEnd(input, old(pos), false) && current == old(current)
    {
      var hasDot := false;
      while pos < |input| && (IsDigit(input[pos]) || input[pos] == '.')
        invariant old(pos) <= pos <= |input|
        invariant MantissaEnd(input, pos, hasDot) == MantissaEnd(input, old(pos), false)
        invariant current == old(current)
        decreases |input| - pos
      {
        if input[pos] == '.' {
          if hasDot {
            break;
          }
        }
        hasDot := hasDot || input[pos] == '.';
        pos := pos + 1;
      }
    }

    method ParseNumber()
      requires Valid() && pos < |input| && IsDigitOrDot(input[pos])
      modifies this
      ensures Valid()
      ensures State() == NumberToken(input, old(pos), stod)
    {
      var start := pos;
      SkipMantissa();
      ghost var m := pos;
      assert m == MantissaEnd(input, start, false);
      // scientific notation
      if pos < |input| && (input[pos] == 'e' || input[pos] == 'E') {
        pos := pos + 1;
        if pos < |input| && (input[pos] == '+' || input[pos] == '-') {
          pos := pos + 1;
        }
        ghost var d := pos;
        SkipDigits();
        ExponentEndAfterMark(input, m, d);
      } else {
        assert pos == m == ExponentEnd(input, m);
      }
      var numberText := input[start..pos];
      match stod(numberText) {
        case Some(value) => current := NewToken(Number, numberText, value);
        case None => current := NewToken(Invalid, numberText);
      }
    }

    method ParseIdentifier()
      requires Valid()
      modifies this
      ensures Valid()
      ensures pos == RunEnd(input, old(pos), IsIdentChar)
      ensures current == NewToken(Identifier, input[old(pos)..pos])
    {
      var start := pos;
      while pos < |input| && (IsAlnum(input[pos]) || input[pos] == '_')
        invariant start <= pos <= |input|
        invariant RunEnd(input, pos, IsIdentChar) == RunEnd(input, start, IsIdentChar)
        decreases |input| - pos
      {
        pos := pos + 1;
      }
      current := NewToken(Identifier, input[start..pos]);
    }

    method MakeToken(kind: TokenType)
      requires Valid() && pos < |input|
      modifies this
      ensures Valid()
      ensures current == NewToken(kind, [input[old(pos)]]) && pos == old(pos) + 1
    {
      current := NewToken(kind, [input[pos]]);
      pos := pos + 1;
    }
  }
}
