/** The precedence-climbing parser (include/cppexprpars/parser.hpp). The functions
    `ExprAt`, `LoopAt`, `PrimaryAt` and `ArgsAt` specify it over the tokenizer's state;
    the class `Parser` runs it on a `Tokenizer`, with the library's loops. */
module Parser {
  import opened Errors
  import opened Tokens
  import opened Lexer
  import Ast

  /** `get_precedence`: binding powers of the binary operators, -1 for every other kind. */
  function Precedence(k: TokenType): (r: int)
    ensures r == -1 || 1 <= r <= 3
    ensures r >= 0 <==> k in {Plus, Minus, Star, Slash, Caret}
  {
    match k
    case Plus => 1
    case Minus => 1
    case Star => 2
    case Slash => 2
    case Caret => 3
    case _ => -1
  }

  /** `+` and `-` bind loosest, then `*` and `/`, then `^`. */
  lemma PrecedenceOrder()
    ensures Precedence(Plus) == Precedence(Minus) < Precedence(Star)
    ensures Precedence(Star) == Precedence(Slash) < Precedence(Caret)
  {
  }

  /** `is_right_associative`. */
  function IsRightAssociative(k: TokenType): bool
  {
    k == Caret
  }

  /** The operator of the binary node built for an operator token. */
  function OperatorOf(k: TokenType): Ast.BinaryOp
    requires Precedence(k) >= 0
  {
    match k
    case Plus => Ast.Add
    case Minus => Ast.Subtract
    case Star => Ast.Multiply
    case Slash => Ast.Divide
    case Caret => Ast.Power
  }

  /** The library builds the node from the token's first character with `charToBinaryOp`;
      for every operator token the lexer produces that gives the same operator, so the
      conversion never throws. */
  lemma OperatorOfMatchesText(s: string, p: nat, stod: string -> Option<real>)
    requires p <= |s|
    requires Precedence(NextTokenAt(s, p, stod).cur.kind) >= 0
    ensures var t := NextTokenAt(s, p, stod).cur;
      |t.text| == 1 && Ast.CharToBinaryOp(t.text[0]) == Some(OperatorOf(t.kind))
  {
  }

  /** The binding power at which the right operand of an operator is parsed. */
  function RightPrecedence(k: TokenType): int
  {
    Precedence(k) + (if IsRightAssociative(k) then 0 else 1)
  }

  /** The three failures the parser itself raises. */
  predicate IsSyntaxError(e: Error)
  {
    e.UnexpectedToken? || e.ExpectedParenAfterArguments? || e.ExpectedParenAfterExpression?
  }

  /** A cursor whose token is End sits at the end of the input. */
  predicate Settled(s: string, c: Cursor)
  {
    c.cur.kind == End ==> c.pos == |s|
  }

  /** `parse_expression(prec)`: a primary followed by the operator loop. */
  function ExprAt(s: string, stod: string -> Option<real>, c: Cursor, prec: int): (r: Result<(Ast.Expr, Cursor)>)
    requires c.pos <= |s| && prec >= 0
    ensures r.Ok? ==> r.value.1.pos <= |s| && Measure(s, r.value.1) < Measure(s, c)
    ensures r.Ok? ==> Precedence(r.value.1.cur.kind) < prec && Settled(s, r.value.1)
    ensures r.Err? ==> IsSyntaxError(r.error)
    decreases Measure(s, c), 2
  {
    match PrimaryAt(s, stod, c)
    case Err(e) => Err(e)
    case Ok((lhs, c1)) => LoopAt(s, stod, lhs, c1, prec)
  }

  /** The operator loop of `parse_expression`: while the current token binds at least as
      tightly as `prec`, consume it, parse the right operand and combine. */
  function LoopAt(s: string, stod: string -> Option<real>, lhs: Ast.Expr, c: Cursor, prec: int): (r: Result<(Ast.Expr, Cursor)>)
    requires c.pos <= |s| && prec >= 0
    ensures r.Ok? ==> r.value.1.pos <= |s| && Measure(s, r.value.1) <= Measure(s, c)
    ensures r.Ok? ==> Precedence(r.value.1.cur.kind) < prec
    ensures r.Ok? && Settled(s, c) ==> Settled(s, r.value.1)
    ensures r.Err? ==> IsSyntaxError(r.error)
    decreases Measure(s, c), 0
  {
    var k := c.cur.kind;
    if Precedence(k) < prec then Ok((lhs, c))
    else
      var c1 := Advance(s, stod, c);
      AdvanceDecreases(s, stod, c);
      match ExprAt(s, stod, c1, RightPrecedence(k))
      case Err(e) => Err(e)
      case Ok((rhs, c2)) => LoopAt(s, stod, Ast.Binary(OperatorOf(k), lhs, rhs), c2, prec)
  }

  /** `parse_primary`: a number, a variable, a call, a parenthesised expression, or a unary
      minus whose operand is parsed at binding power 3. */
  function PrimaryAt(s: string, stod: string -> Option<real>, c: Cursor): (r: Result<(Ast.Expr, Cursor)>)
    requires c.pos <= |s|
    ensures r.Ok? ==> r.value.1.pos <= |s| && Measure(s, r.value.1) < Measure(s, c)
    ensures r.Ok? ==> Settled(s, r.value.1)
    ensures r.Err? ==> IsSyntaxError(r.error)
    ensures c.cur.kind !in {Number, Identifier, LeftParen, Minus} ==> r == Err(UnexpectedToken(c.cur.text))
    decreases Measure(s, c), 1
  {
    var token := c.cur;
    var c1 := Advance(s, stod, c);
    AdvanceDecreases(s, stod, c);
    match token.kind
    case Number => Ok((Ast.Constant(token.numberValue), c1))
    case Identifier =>
      if c1.cur.kind == LeftParen then
        var c2 := Advance(s, stod, c1);
        AdvanceDecreases(s, stod, c1);
        var args := if c2.cur.kind != RightParen then ArgsAt(s, stod, c2, []) else Ok(([], c2));
        (match args
         case Err(e) => Err(e)
         case Ok((list, c3)) =>
           if c3.cur.kind != RightParen then Err(ExpectedParenAfterArguments)
           else
             AdvanceDecreases(s, stod, c3);
             Ok((Ast.Call(token.text, list), Advance(s, stod, c3))))
      else Ok((Ast.Variable(token.text), c1))
    case LeftParen =>
      (match ExprAt(s, stod, c1, 0)
       case Err(e) => Err(e)
       case Ok((inner, c2)) =>
         if c2.cur.kind != RightParen then Err(ExpectedParenAfterExpression)
         else
           AdvanceDecreases(s, stod, c2);
           Ok((inner, Advance(s, stod, c2))))
    case Minus =>
      (match ExprAt(s, stod, c1, 3)
       case Err(e) => Err(e)
       case Ok((inner, c2)) => Ok((Ast.Unary(Ast.Minus, inner), c2)))
    case _ => Err(UnexpectedToken(token.text))
  }

  /** The argument loop of a call: expressions separated by commas, appended to `acc`;
      it stops at the first token after an argument that is not a comma. */
  function ArgsAt(s: string, stod: string -> Option<real>, c: Cursor, acc: seq<Ast.Expr>): (r: Result<(seq<Ast.Expr>, Cursor)>)
    requires c.pos <= |s|
    ensures r.Ok? ==> r.value.1.pos <= |s| && Measure(s, r.value.1) < Measure(s, c)
    ensures r.Ok? ==> r.value.1.cur.kind != Comma
    ensures r.Ok? ==> |r.value.0| > |acc| && r.value.0[..|acc|] == acc
    ensures r.Err? ==> IsSyntaxError(r.error)
    decreases Measure(s, c), 3
  {
    match ExprAt(s, stod, c, 0)
    case Err(e) => Err(e)
    case Ok((arg, c1)) =>
      if c1.cur.kind == Comma then
        AdvanceDecreases(s, stod, c1);
        var r := ArgsAt(s, stod, Advance(s, stod, c1), acc + [arg]);
        assert r.Ok? ==> r.value.0[..|acc|] == (acc + [arg])[..|acc|];
        r
      else Ok((acc + [arg], c1))
  }

  /** `parse`: an expression at binding power 0 that must be followed by End. */
  function ParseAt(s: string, stod: string -> Option<real>, c: Cursor): (r: Result<Ast.Expr>)
    requires c.pos <= |s|
  {
    match ExprAt(s, stod, c, 0)
    case Err(e) => Err(e)
    case Ok((e, c1)) =>
      if c1.cur.kind != End then Err(UnexpectedTokenAfterExpression(c1.cur.text)) else Ok(e)
  }

  /** A fresh tokenizer over `s` followed by `parse`. */
  function ParseText(s: string, stod: string -> Option<real>): Result<Ast.Expr>
  {
    ParseAt(s, stod, Start(s, stod))
  }

  /** `parse` succeeds exactly when the top-level expression stops at End: then all of the
      input is read and the result is that expression. */
  lemma ParseSucceedsOnlyAtEnd(s: string, stod: string -> Option<real>, c: Cursor)
    requires c.pos <= |s|
    ensures ParseAt(s, stod, c).Ok? ==>
      && ExprAt(s, stod, c, 0).Ok?
      && ParseAt(s, stod, c).value == ExprAt(s, stod, c, 0).value.0
      && ExprAt(s, stod, c, 0).value.1.cur.kind == End
      && ExprAt(s, stod, c, 0).value.1.pos == |s|
    ensures ExprAt(s, stod, c, 0).Ok? && ExprAt(s, stod, c, 0).value.1.cur.kind == End ==>
      ParseAt(s, stod, c) == Ok(ExprAt(s, stod, c, 0).value.0)
  {
  }

  /** `parse` fails with one of the three syntax errors, or with a token left over after a
      complete expression; that token is neither End nor an operator (the operator loop would
      have consumed it) and the error carries its text. Conversely, a failing expression is
      the failure of `parse`, and any stop token other than End gives the leftover-token error. */
  lemma ParseFailures(s: string, stod: string -> Option<real>, c: Cursor)
    requires c.pos <= |s|
    ensures ParseAt(s, stod, c).Err? ==>
      IsSyntaxError(ParseAt(s, stod, c).error) || ParseAt(s, stod, c).error.UnexpectedTokenAfterExpression?
    ensures ParseAt(s, stod, c).Err? && ParseAt(s, stod, c).error.UnexpectedTokenAfterExpression? ==>
      && ExprAt(s, stod, c, 0).Ok?
      && var stop := ExprAt(s, stod, c, 0).value.1.cur;
      && stop.kind != End
      && Precedence(stop.kind) < 0
      && ParseAt(s, stod, c).error.text == stop.text
    ensures ExprAt(s, stod, c, 0).Err? ==> ParseAt(s, stod, c) == Err(ExprAt(s, stod, c, 0).error)
    ensures ExprAt(s, stod, c, 0).Ok? && ExprAt(s, stod, c, 0).value.1.cur.kind != End ==>
      ParseAt(s, stod, c) == Err(UnexpectedTokenAfterExpression(ExprAt(s, stod, c, 0).value.1.cur.text))
  {
  }

  /** An identifier not followed by `(` is a variable node. */
  lemma VariablePrimary(s: string, stod: string -> Option<real>, c: Cursor)
    requires c.pos <= |s| && c.cur.kind == Identifier
    requires Advance(s, stod, c).cur.kind != LeftParen
    ensures PrimaryAt(s, stod, c) == Ok((Ast.Variable(c.cur.text), Advance(s, stod, c)))
  {
  }

  /** An identifier followed by a token that neither opens a call nor binds at `prec` is a
      whole expression at `prec`. */
  lemma SingleVariable(s: string, stod: string -> Option<real>, c: Cursor, prec: int)
    requires c.pos <= |s| && prec >= 0 && c.cur.kind == Identifier
    requires Advance(s, stod, c).cur.kind != LeftParen && Precedence(Advance(s, stod, c).cur.kind) < prec
    ensures ExprAt(s, stod, c, prec) == Ok((Ast.Variable(c.cur.text), Advance(s, stod, c)))
  {
    VariablePrimary(s, stod, c);
  }

  /** One argument of a call: after it a comma continues the list and anything else ends it. */
  lemma ArgsStep(s: string, stod: string -> Option<real>, c: Cursor, acc: seq<Ast.Expr>, a: Ast.Expr, c1: Cursor)
    requires c.pos <= |s| && ExprAt(s, stod, c, 0) == Ok((a, c1))
    ensures c1.cur.kind == Comma ==> ArgsAt(s, stod, c, acc) == ArgsAt(s, stod, Advance(s, stod, c1), acc + [a])
    ensures c1.cur.kind != Comma ==> ArgsAt(s, stod, c, acc) == Ok((acc + [a], c1))
  {
  }

  /** A call `name(args`: it is a function node when `)` follows the arguments, and an
      error otherwise. */
  lemma CallPrimary(s: string, stod: string -> Option<real>, c: Cursor, args: seq<Ast.Expr>, c3: Cursor)
    requires c.pos <= |s| && c.cur.kind == Identifier
    requires Advance(s, stod, c).cur.kind == LeftParen
    requires var c2 := Advance(s, stod, Advance(s, stod, c));
      c2.cur.kind != RightParen && ArgsAt(s, stod, c2, []) == Ok((args, c3))
    ensures c3.cur.kind == RightParen ==>
      PrimaryAt(s, stod, c) == Ok((Ast.Call(c.cur.text, args), Advance(s, stod, c3)))
    ensures c3.cur.kind != RightParen ==> PrimaryAt(s, stod, c) == Err(ExpectedParenAfterArguments)
  {
  }

  /** A parenthesised expression `( e )` is the inner tree itself, read at binding power 0
      whatever surrounds it; without the `)` it is an error. */
  lemma GroupPrimary(s: string, stod: string -> Option<real>, c: Cursor, e: Ast.Expr, c2: Cursor)
    requires c.pos <= |s| && c.cur.kind == LeftParen
    requires ExprAt(s, stod, Advance(s, stod, c), 0) == Ok((e, c2))
    ensures c2.cur.kind == RightParen ==> PrimaryAt(s, stod, c) == Ok((e, Advance(s, stod, c2)))
    ensures c2.cur.kind != RightParen ==> PrimaryAt(s, stod, c) == Err(ExpectedParenAfterExpression)
  {
  }

  /** Precedence climbing on three operands and two operators `x op1 y op2 z`: the second
      operator's node is the right operand of the first when `op2` binds tighter than `op1`,
      or as tightly with `op1` right-associative; otherwise the first operator's node is the
      left operand of the second. */
  lemma {:induction false} TwoOperators(s: string, stod: string -> Option<real>, c0: Cursor,
                                        x: Ast.Expr, c1: Cursor, y: Ast.Expr, c3: Cursor, z: Ast.Expr, c5: Cursor)
    requires c0.pos <= |s|
    requires PrimaryAt(s, stod, c0) == Ok((x, c1))
    requires Precedence(c1.cur.kind) >= 0
    requires PrimaryAt(s, stod, Advance(s, stod, c1)) == Ok((y, c3))
    requires Precedence(c3.cur.kind) >= 0
    requires PrimaryAt(s, stod, Advance(s, stod, c3)) == Ok((z, c5))
    requires Precedence(c5.cur.kind) < 0
    ensures var op1, op2 := c1.cur.kind, c3.cur.kind;
      ExprAt(s, stod, c0, 0) == Ok((
        if Precedence(op2) > Precedence(op1) || (Precedence(op2) == Precedence(op1) && IsRightAssociative(op1))
        then Ast.Binary(OperatorOf(op1), x, Ast.Binary(OperatorOf(op2), y, z))
        else Ast.Binary(OperatorOf(op2), Ast.Binary(OperatorOf(op1), x, y), z), c5))
  {
    var op1, op2 := c1.cur.kind, c3.cur.kind;
    var c2, c4 := Advance(s, stod, c1), Advance(s, stod, c3);
    var b1, b2 := OperatorOf(op1), OperatorOf(op2);
    assert ExprAt(s, stod, c4, RightPrecedence(op2)) == Ok((z, c5)) by {
      assert LoopAt(s, stod, z, c5, RightPrecedence(op2)) == Ok((z, c5));
    }
    if Precedence(op2) >= RightPrecedence(op1) {
      var yz := Ast.Binary(b2, y, z);
      assert LoopAt(s, stod, y, c3, RightPrecedence(op1)) == Ok((yz, c5)) by {
        assert LoopAt(s, stod, yz, c5, RightPrecedence(op1)) == Ok((yz, c5));
      }
      assert ExprAt(s, stod, c2, RightPrecedence(op1)) == Ok((yz, c5));
      assert LoopAt(s, stod, x, c1, 0) == Ok((Ast.Binary(b1, x, yz), c5)) by {
        assert LoopAt(s, stod, Ast.Binary(b1, x, yz), c5, 0) == Ok((Ast.Binary(b1, x, yz), c5));
      }
    } else {
      var xy := Ast.Binary(b1, x, y);
      assert ExprAt(s, stod, c2, RightPrecedence(op1)) == Ok((y, c3)) by {
        assert LoopAt(s, stod, y, c3, RightPrecedence(op1)) == Ok((y, c3));
      }
      assert LoopAt(s, stod, xy, c3, 0) == Ok((Ast.Binary(b2, xy, z), c5)) by {
        assert LoopAt(s, stod, Ast.Binary(b2, xy, z), c5, 0) == Ok((Ast.Binary(b2, xy, z), c5));
      }
      assert LoopAt(s, stod, x, c1, 0) == LoopAt(s, stod, xy, c3, 0);
    }
  }

  /** Unary minus before `x op y`: it takes the whole `x op y` as its operand when `op` is `^`,
      and only `x` for every other operator. */
  lemma {:induction false} NegationScope(s: string, stod: string -> Option<real>, c0: Cursor,
                                         x: Ast.Expr, c2: Cursor, y: Ast.Expr, c4: Cursor)
    requires c0.pos <= |s| && c0.cur.kind == Minus
    requires PrimaryAt(s, stod, Advance(s, stod, c0)) == Ok((x, c2))
    requires Precedence(c2.cur.kind) >= 0
    requires PrimaryAt(s, stod, Advance(s, stod, c2)) == Ok((y, c4))
    requires Precedence(c4.cur.kind) < 0
    ensures var op := c2.cur.kind;
      ExprAt(s, stod, c0, 0) == Ok((
        if op == Caret then Ast.Unary(Ast.Minus, Ast.Binary(Ast.Power, x, y))
        else Ast.Binary(OperatorOf(op), Ast.Unary(Ast.Minus, x), y), c4))
  {
    var op := c2.cur.kind;
    var c1, c3 := Advance(s, stod, c0), Advance(s, stod, c2);
    var b := OperatorOf(op);
    assert ExprAt(s, stod, c3, RightPrecedence(op)) == Ok((y, c4)) by {
      assert LoopAt(s, stod, y, c4, RightPrecedence(op)) == Ok((y, c4));
    }
    if op == Caret {
      var xy := Ast.Binary(Ast.Power, x, y);
      assert ExprAt(s, stod, c1, 3) == Ok((xy, c4)) by {
        assert LoopAt(s, stod, xy, c4, 3) == Ok((xy, c4));
        assert LoopAt(s, stod, x, c2, 3) == Ok((xy, c4));
      }
      assert PrimaryAt(s, stod, c0) == Ok((Ast.Unary(Ast.Minus, xy), c4));
      assert LoopAt(s, stod, Ast.Unary(Ast.Minus, xy), c4, 0) == Ok((Ast.Unary(Ast.Minus, xy), c4));
    } else {
      var nx := Ast.Unary(Ast.Minus, x);
      assert ExprAt(s, stod, c1, 3) == Ok((x, c2)) by {
        assert LoopAt(s, stod, x, c2, 3) == Ok((x, c2));
      }
      assert PrimaryAt(s, stod, c0) == Ok((nx, c2));
      assert LoopAt(s, stod, nx, c2, 0) == Ok((Ast.Binary(b, nx, y), c4)) by {
        assert LoopAt(s, stod, Ast.Binary(b, nx, y), c4, 0) == Ok((Ast.Binary(b, nx, y), c4));
      }
    }
  }

  /** A method's result and the tokenizer's new state are those the specification gives;
      after a failure the library has thrown, so the state is not constrained. */
  ghost predicate Agrees<T>(r: Result<T>, c: Cursor, spec: Result<(T, Cursor)>)
  {
    match spec
    case Ok((v, c1)) => r == Ok(v) && c == c1
    case Err(e) => r == Err(e)
  }

  /** The parser over a tokenizer it consumes. */
  class Parser {
    const tokenizer: Tokenizer

    constructor (tokenizer: Tokenizer)
      ensures this.tokenizer == tokenizer
    {
      this.tokenizer := tokenizer;
    }

    /** `parse`. */
    method Parse() returns (r: Result<Ast.Expr>)
      requires tokenizer.Valid()
      modifies tokenizer
      ensures tokenizer.Valid()
      ensures r == ParseAt(tokenizer.input, tokenizer.stod, old(tokenizer.State()))
      ensures r.Ok? ==> tokenizer.current.kind == End && tokenizer.pos == |tokenizer.input|
    {
      var expr := ParseExpression(0);
      if expr.Err? {
        return expr;
      }
      if tokenizer.current.kind != End {
        return Err(UnexpectedTokenAfterExpression(tokenizer.current.text));
      }
      return expr;
    }

    /** `parse_expression(precedence)`. */
    method ParseExpression(precedence: int) returns (r: Result<Ast.Expr>)
      requires tokenizer.Valid() && precedence >= 0
      modifies tokenizer
      ensures tokenizer.Valid()
      ensures Agrees(r, tokenizer.State(), ExprAt(tokenizer.input, tokenizer.stod, old(tokenizer.State()), precedence))
      decreases Measure(tokenizer.input, tokenizer.State()), 2
    {
      ghost var s, stod, c0 := tokenizer.input, tokenizer.stod, tokenizer.State();
      var primary := ParsePrimary();
      if primary.Err? {
        return primary;
      }
      var lhs := primary.value;
      while true
        invariant tokenizer.Valid()
        invariant Measure(s, tokenizer.State()) < Measure(s, c0)
        invariant ExprAt(s, stod, c0, precedence) == LoopAt(s, stod, lhs, tokenizer.State(), precedence)
        decreases Measure(s, tokenizer.State())
      {
        var kind := tokenizer.current.kind;
        var tokenPrec := Precedence(kind);
        if tokenPrec < precedence {
          break;
        }
        var op := tokenizer.current;
        AdvanceDecreases(s, stod, tokenizer.State());
        tokenizer.NextToken();
        var nextPrec := tokenPrec + (if IsRightAssociative(op.kind) then 0 else 1);
        var rhs := ParseExpression(nextPrec);
        if rhs.Err? {
          return rhs;
        }
        lhs := Ast.Binary(OperatorOf(op.kind), lhs, rhs.value);
      }
      r := Ok(lhs);
    }

    /** `parse_primary`. */
    method ParsePrimary() returns (r: Result<Ast.Expr>)
      requires tokenizer.Valid()
      modifies tokenizer
      ensures tokenizer.Valid()
      ensures Agrees(r, tokenizer.State(), PrimaryAt(tokenizer.input, tokenizer.stod, old(tokenizer.State())))
      decreases Measure(tokenizer.input, tokenizer.State()), 1
    {
      ghost var s, stod, c0 := tokenizer.input, tokenizer.stod, tokenizer.State();
      var token := tokenizer.current;
      AdvanceDecreases(s, stod, c0);
      tokenizer.NextToken();
      match token.kind {
        case Number =>
          r := Ok(Ast.Constant(token.numberValue));
        case Identifier =>
          if tokenizer.current.kind == LeftParen {
            // function call
            ghost var c1 := tokenizer.State();
            AdvanceDecreases(s, stod, c1);
            tokenizer.NextToken(); // consume '('
            ghost var c2 := tokenizer.State();
            var args: seq<Ast.Expr> := [];
            if tokenizer.current.kind != RightParen {
              ghost var spec := ArgsAt(s, stod, c2, []);
              while true
                invariant tokenizer.Valid()
                invariant Measure(s, tokenizer.State()) <= Measure(s, c2)
                invariant spec == ArgsAt(s, stod, tokenizer.State(), args)
                decreases Measure(s, tokenizer.State())
              {
                var arg := ParseExpression(0);
                if arg.Err? {
                  return arg;
                }
                args := args + [arg.value];
                if tokenizer.current.kind == Comma {
                  AdvanceDecreases(s, stod, tokenizer.State());
                  tokenizer.NextToken();
                } else {
                  break;
                }
              }
              assert spec == Ok((args, tokenizer.State()));
            }
            if tokenizer.current.kind != RightParen {
              return Err(ExpectedParenAfterArguments);
            }
            tokenizer.NextToken();
            return Ok(Ast.Call(token.text, args));
          }
          // just a variable
          r := Ok(Ast.Variable(token.text));
        case LeftParen =>
          var expr := ParseExpression(0);
          if expr.Err? {
            return expr;
          }
          if tokenizer.current.kind != RightParen {
            return Err(ExpectedParenAfterExpression);
          }
          tokenizer.NextToken();
          r := expr;
        case Minus =>
          var inner := ParseExpression(3); // unary minus binds at the level of '^'
          if inner.Err? {
            return inner;
          }
          r := Ok(Ast.Unary(Ast.Minus, inner.value));
        case _ =>
          r := Err(UnexpectedToken(token.text));
      }
    }
  }

  /** A tokenizer over `s`, a parser over it, and `parse`. */
  method ParseInput(s: string, stod: string -> Option<real>) returns (r: Result<Ast.Expr>)
    ensures r == ParseText(s, stod)
  {
    var tokenizer := new Tokenizer(s, stod);
    var parser := new Parser(tokenizer);
    r := parser.Parse();
  }
}
