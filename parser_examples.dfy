/** The parser on small inputs: the tree shapes precedence and associativity give, the
    argument lists of calls, and each syntax error. Identifiers are used as operands so that
    the number conversion plays no part, except in the last example. */
module ParserExamples {
  import opened Errors
  import opened Tokens
  import opened Lexer
  import opened Parser
  import Ast

  /** A letter not followed by a letter, digit or `_` is a one-character identifier. */
  lemma LetterStep(s: string, p: nat, stod: string -> Option<real>)
    requires p < |s| && IsAlpha(s[p]) && (p + 1 == |s| || !IsIdentChar(s[p + 1]))
    ensures NextTokenAt(s, p, stod) == Cursor(Token(Identifier, [s[p]], 0.0), p + 1)
  {
    assert SkipSpace(s, p) == p;
    assert RunEnd(s, p, IsIdentChar) == p + 1;
  }

  /** A digit followed by neither a digit, a dot nor an exponent mark is a one-character number. */
  lemma DigitStep(s: string, p: nat, stod: string -> Option<real>)
    requires p < |s| && IsDigit(s[p])
    requires p + 1 == |s| || (!IsDigitOrDot(s[p + 1]) && s[p + 1] != 'e' && s[p + 1] != 'E')
    requires stod([s[p]]).Some?
    ensures NextTokenAt(s, p, stod) == Cursor(Token(Number, [s[p]], stod([s[p]]).value), p + 1)
  {
    assert SkipSpace(s, p) == p;
    assert MantissaEnd(s, p, false) == p + 1;
    assert s[p..p + 1] == [s[p]];
  }

  /** An operator or punctuation character with no whitespace before it. */
  lemma PunctStep(s: string, p: nat, stod: string -> Option<real>)
    requires p < |s| && PunctKind(s[p]).Some?
    ensures NextTokenAt(s, p, stod) == Cursor(Token(PunctKind(s[p]).value, [s[p]], 0.0), p + 1)
  {
    assert SkipSpace(s, p) == p;
  }

  /** At the end of the input. */
  lemma EndStep(s: string, stod: string -> Option<real>)
    ensures NextTokenAt(s, |s|, stod) == Cursor(Token(End, "", 0.0), |s|)
  {
  }

  /** Any input `x op1 y op2 z` of three letters and two operators, without spaces, parses
      as precedence climbing says: `op2`'s node is the right operand of `op1` when `op2` binds
      tighter, or as tightly with `op1` right-associative; otherwise `op1`'s node is the left
      operand of `op2`. */
  lemma LettersAndOperators(s: string, stod: string -> Option<real>)
    requires |s| == 5 && IsAlpha(s[0]) && IsAlpha(s[2]) && IsAlpha(s[4])
    requires PunctKind(s[1]).Some? && Precedence(PunctKind(s[1]).value) >= 0
    requires PunctKind(s[3]).Some? && Precedence(PunctKind(s[3]).value) >= 0
    ensures var op1, op2 := PunctKind(s[1]).value, PunctKind(s[3]).value;
      var x, y, z := Ast.Variable([s[0]]), Ast.Variable([s[2]]), Ast.Variable([s[4]]);
      ParseText(s, stod) == Ok(
        if Precedence(op2) > Precedence(op1) || (Precedence(op2) == Precedence(op1) && IsRightAssociative(op1))
        then Ast.Binary(OperatorOf(op1), x, Ast.Binary(OperatorOf(op2), y, z))
        else Ast.Binary(OperatorOf(op2), Ast.Binary(OperatorOf(op1), x, y), z))
  {
    LetterStep(s, 0, stod); PunctStep(s, 1, stod); LetterStep(s, 2, stod);
    PunctStep(s, 3, stod); LetterStep(s, 4, stod); EndStep(s, stod);
    var c0 := Cursor(Token(Identifier, [s[0]], 0.0), 1);
    var c1 := Cursor(Token(PunctKind(s[1]).value, [s[1]], 0.0), 2);
    var c2 := Cursor(Token(Identifier, [s[2]], 0.0), 3);
    var c3 := Cursor(Token(PunctKind(s[3]).value, [s[3]], 0.0), 4);
    var c4 := Cursor(Token(Identifier, [s[4]], 0.0), 5);
    var c5 := Cursor(Token(End, "", 0.0), 5);
    VariablePrimary(s, stod, c0);
    VariablePrimary(s, stod, c2);
    VariablePrimary(s, stod, c4);
    TwoOperators(s, stod, c0, Ast.Variable([s[0]]), c1, Ast.Variable([s[2]]), c3, Ast.Variable([s[4]]), c5);
  }

  /** Any input `-x op y` of a minus, two letters and an operator, without spaces: the minus
      takes `x op y` as its operand when `op` is `^`, and only `x` otherwise. */
  lemma NegatedLetters(s: string, stod: string -> Option<real>)
    requires |s| == 4 && s[0] == '-' && IsAlpha(s[1]) && IsAlpha(s[3])
    requires PunctKind(s[2]).Some? && Precedence(PunctKind(s[2]).value) >= 0
    ensures var op := PunctKind(s[2]).value;
      var x, y := Ast.Variable([s[1]]), Ast.Variable([s[3]]);
      ParseText(s, stod) == Ok(
        if op == Caret then Ast.Unary(Ast.Minus, Ast.Binary(Ast.Power, x, y))
        else Ast.Binary(OperatorOf(op), Ast.Unary(Ast.Minus, x), y))
  {
    PunctStep(s, 0, stod); LetterStep(s, 1, stod); PunctStep(s, 2, stod);
    LetterStep(s, 3, stod); EndStep(s, stod);
    var c0 := Cursor(Token(Minus, "-", 0.0), 1);
    var c1 := Cursor(Token(Identifier, [s[1]], 0.0), 2);
    var c2 := Cursor(Token(PunctKind(s[2]).value, [s[2]], 0.0), 3);
    var c3 := Cursor(Token(Identifier, [s[3]], 0.0), 4);
    var c4 := Cursor(Token(End, "", 0.0), 4);
    VariablePrimary(s, stod, c1);
    VariablePrimary(s, stod, c3);
    NegationScope(s, stod, c0, Ast.Variable([s[1]]), c2, Ast.Variable([s[3]]), c4);
  }

  /** `-` is left-associative: `a-b-c` is `(a-b)-c`. */
  lemma SubtractionIsLeftAssociative(stod: string -> Option<real>)
    ensures ParseText("a-b-c", stod) == Ok(Ast.Binary(Ast.Subtract, Ast.Binary(Ast.Subtract, Ast.Variable("a"), Ast.Variable("b")), Ast.Variable("c")))
  {
    LettersAndOperators("a-b-c", stod);
  }

  /** `^` is right-associative: `a^b^c` is `a^(b^c)`. */
  lemma PowerIsRightAssociative(stod: string -> Option<real>)
    ensures ParseText("a^b^c", stod) == Ok(Ast.Binary(Ast.Power, Ast.Variable("a"), Ast.Binary(Ast.Power, Ast.Variable("b"), Ast.Variable("c"))))
  {
    LettersAndOperators("a^b^c", stod);
  }

  /** `*` binds tighter than `+`: `a+b*c` is `a+(b*c)`. */
  lemma ProductBindsTighterThanSum(stod: string -> Option<real>)
    ensures ParseText("a+b*c", stod) == Ok(Ast.Binary(Ast.Add, Ast.Variable("a"), Ast.Binary(Ast.Multiply, Ast.Variable("b"), Ast.Variable("c"))))
  {
    LettersAndOperators("a+b*c", stod);
  }

  /** `/` binds tighter than `-` on the left too: `a/b-c` is `(a/b)-c`. */
  lemma QuotientBeforeDifference(stod: string -> Option<real>)
    ensures ParseText("a/b-c", stod) == Ok(Ast.Binary(Ast.Subtract, Ast.Binary(Ast.Divide, Ast.Variable("a"), Ast.Variable("b")), Ast.Variable("c")))
  {
    LettersAndOperators("a/b-c", stod);
  }

  /** Unary minus takes a whole power as its operand: `-a^b` is `-(a^b)`. */
  lemma NegationTakesPower(stod: string -> Option<real>)
    ensures ParseText("-a^b", stod) == Ok(Ast.Unary(Ast.Minus, Ast.Binary(Ast.Power, Ast.Variable("a"), Ast.Variable("b"))))
  {
    NegatedLetters("-a^b", stod);
  }

  /** Unary minus does not take a product: `-a*b` is `(-a)*b`. */
  lemma NegationStopsBeforeProduct(stod: string -> Option<real>)
    ensures ParseText("-a*b", stod) == Ok(Ast.Binary(Ast.Multiply, Ast.Unary(Ast.Minus, Ast.Variable("a")), Ast.Variable("b")))
  {
    NegatedLetters("-a*b", stod);
  }

  /** The group `(x op y)` of two letters and an operator, read from the `(`: its primary is
      the inner binary node, followed by the token after the `)`. */
  lemma GroupOfLetters(s: string, stod: string -> Option<real>)
    requires |s| >= 6 && s[0] == '(' && IsAlpha(s[1]) && IsAlpha(s[3]) && s[4] == ')'
    requires PunctKind(s[2]).Some? && Precedence(PunctKind(s[2]).value) >= 0
    requires PunctKind(s[5]).Some?
    ensures var op := PunctKind(s[2]).value;
      PrimaryAt(s, stod, Cursor(Token(LeftParen, "(", 0.0), 1)) ==
        Ok((Ast.Binary(OperatorOf(op), Ast.Variable([s[1]]), Ast.Variable([s[3]])),
            Cursor(Token(PunctKind(s[5]).value, [s[5]], 0.0), 6)))
  {
    LetterStep(s, 1, stod); PunctStep(s, 2, stod); LetterStep(s, 3, stod);
    PunctStep(s, 4, stod); PunctStep(s, 5, stod);
    var op := PunctKind(s[2]).value;
    var xy := Ast.Binary(OperatorOf(op), Ast.Variable([s[1]]), Ast.Variable([s[3]]));
    var c0 := Cursor(Token(LeftParen, "(", 0.0), 1);
    var c1 := Cursor(Token(Identifier, [s[1]], 0.0), 2);
    var c3 := Cursor(Token(Identifier, [s[3]], 0.0), 4);
    var c4 := Cursor(Token(RightParen, ")", 0.0), 5);
    VariablePrimary(s, stod, c1);
    SingleVariable(s, stod, c3, RightPrecedence(op));
    assert ExprAt(s, stod, c1, 0) == Ok((xy, c4)) by {
      assert LoopAt(s, stod, xy, c4, 0) == Ok((xy, c4));
    }
    GroupPrimary(s, stod, c0, xy, c4);
  }

  /** Any input `(x op1 y) op2 z` of three letters and two operators, without spaces: the
      parenthesised node is the left operand of `op2`, whichever operator binds tighter. */
  lemma GroupedLetters(s: string, stod: string -> Option<real>)
    requires |s| == 7 && s[0] == '(' && IsAlpha(s[1]) && IsAlpha(s[3]) && s[4] == ')' && IsAlpha(s[6])
    requires PunctKind(s[2]).Some? && Precedence(PunctKind(s[2]).value) >= 0
    requires PunctKind(s[5]).Some? && Precedence(PunctKind(s[5]).value) >= 0
    ensures var op1, op2 := PunctKind(s[2]).value, PunctKind(s[5]).value;
      var x, y, z := Ast.Variable([s[1]]), Ast.Variable([s[3]]), Ast.Variable([s[6]]);
      ParseText(s, stod) == Ok(Ast.Binary(OperatorOf(op2), Ast.Binary(OperatorOf(op1), x, y), z))
  {
    PunctStep(s, 0, stod); LetterStep(s, 6, stod); EndStep(s, stod);
    GroupOfLetters(s, stod);
    var op1, op2 := PunctKind(s[2]).value, PunctKind(s[5]).value;
    var xy := Ast.Binary(OperatorOf(op1), Ast.Variable([s[1]]), Ast.Variable([s[3]]));
    var xyz := Ast.Binary(OperatorOf(op2), xy, Ast.Variable([s[6]]));
    var c0 := Cursor(Token(LeftParen, "(", 0.0), 1);
    var c5 := Cursor(Token(op2, [s[5]], 0.0), 6);
    var c6 := Cursor(Token(Identifier, [s[6]], 0.0), 7);
    var c7 := Cursor(Token(End, "", 0.0), 7);
    SingleVariable(s, stod, c6, RightPrecedence(op2));
    assert LoopAt(s, stod, xy, c5, 0) == Ok((xyz, c7)) by {
      assert LoopAt(s, stod, xyz, c7, 0) == Ok((xyz, c7));
    }
    assert Start(s, stod) == c0;
  }

  /** Parentheses override precedence: `(a+b)*c` is `(a+b)*c`, not `a+(b*c)`. */
  lemma GroupingOverridesPrecedence(stod: string -> Option<real>)
    ensures ParseText("(a+b)*c", stod) == Ok(Ast.Binary(Ast.Multiply, Ast.Binary(Ast.Add, Ast.Variable("a"), Ast.Variable("b")), Ast.Variable("c")))
  {
    GroupedLetters("(a+b)*c", stod);
  }

  /** `f()` is a call with no arguments. */
  lemma EmptyCall(stod: string -> Option<real>)
    ensures ParseText("f()", stod) == Ok(Ast.Call("f", []))
  {
    var s := "f()";
    LetterStep(s, 0, stod); PunctStep(s, 1, stod); PunctStep(s, 2, stod); EndStep(s, stod);
    var c0 := Cursor(Token(Identifier, "f", 0.0), 1);
    var c3 := Cursor(Token(End, "", 0.0), 3);
    assert Start(s, stod) == c0;
    assert PrimaryAt(s, stod, c0) == Ok((Ast.Call("f", []), c3));
  }

  /** The argument list `x,y)` of single letters, read from position 2. */
  lemma TwoLetterArguments(s: string, stod: string -> Option<real>)
    requires |s| == 6 && IsAlpha(s[2]) && s[3] == ',' && IsAlpha(s[4]) && s[5] == ')'
    ensures ArgsAt(s, stod, Cursor(Token(Identifier, [s[2]], 0.0), 3), []) ==
      Ok(([Ast.Variable([s[2]]), Ast.Variable([s[4]])], Cursor(Token(RightParen, ")", 0.0), 6)))
  {
    PunctStep(s, 3, stod); LetterStep(s, 4, stod); PunctStep(s, 5, stod);
    var a, b := Ast.Variable([s[2]]), Ast.Variable([s[4]]);
    var c2 := Cursor(Token(Identifier, [s[2]], 0.0), 3);
    var c3 := Cursor(Token(Comma, ",", 0.0), 4);
    var c4 := Cursor(Token(Identifier, [s[4]], 0.0), 5);
    var c5 := Cursor(Token(RightParen, ")", 0.0), 6);
    SingleVariable(s, stod, c2, 0);
    ArgsStep(s, stod, c2, [], a, c3);
    SingleVariable(s, stod, c4, 0);
    ArgsStep(s, stod, c4, [a], b, c5);
    assert [] + [a] == [a] && [a] + [b] == [a, b];
  }

  /** Any input `f(x,y)` of single letters is a call of `f` with the arguments `x` and `y`,
      in that order. */
  lemma CallOfTwoLetters(s: string, stod: string -> Option<real>)
    requires |s| == 6 && IsAlpha(s[0]) && s[1] == '(' && IsAlpha(s[2]) && s[3] == ',' && IsAlpha(s[4]) && s[5] == ')'
    ensures ParseText(s, stod) == Ok(Ast.Call([s[0]], [Ast.Variable([s[2]]), Ast.Variable([s[4]])]))
  {
    LetterStep(s, 0, stod); PunctStep(s, 1, stod); LetterStep(s, 2, stod); EndStep(s, stod);
    TwoLetterArguments(s, stod);
    var call := Ast.Call([s[0]], [Ast.Variable([s[2]]), Ast.Variable([s[4]])]);
    var c0 := Cursor(Token(Identifier, [s[0]], 0.0), 1);
    var c6 := Cursor(Token(End, "", 0.0), 6);
    CallPrimary(s, stod, c0, [Ast.Variable([s[2]]), Ast.Variable([s[4]])], Cursor(Token(RightParen, ")", 0.0), 6));
    assert LoopAt(s, stod, call, c6, 0) == Ok((call, c6));
  }

  /** `f(a,b)` is a call whose arguments keep their order. */
  lemma CallArgumentsInOrder(stod: string -> Option<real>)
    ensures ParseText("f(a,b)", stod) == Ok(Ast.Call("f", [Ast.Variable("a"), Ast.Variable("b")]))
  {
    CallOfTwoLetters("f(a,b)", stod);
  }

  /** An argument list `x,)` fails at the `)`. */
  lemma DanglingCommaArguments(s: string, stod: string -> Option<real>)
    requires |s| == 5 && IsAlpha(s[2]) && s[3] == ',' && s[4] == ')'
    ensures ArgsAt(s, stod, Cursor(Token(Identifier, [s[2]], 0.0), 3), []) == Err(UnexpectedToken(")"))
  {
    PunctStep(s, 3, stod); PunctStep(s, 4, stod);
    var c2 := Cursor(Token(Identifier, [s[2]], 0.0), 3);
    var c4 := Cursor(Token(RightParen, ")", 0.0), 5);
    SingleVariable(s, stod, c2, 0);
    ArgsStep(s, stod, c2, [], Ast.Variable([s[2]]), Cursor(Token(Comma, ",", 0.0), 4));
    assert ExprAt(s, stod, c4, 0) == Err(UnexpectedToken(")"));
  }

  /** Any input `f(x,)` fails: after a comma `)` is not a valid primary. */
  lemma TrailingCommaFails(s: string, stod: string -> Option<real>)
    requires |s| == 5 && IsAlpha(s[0]) && s[1] == '(' && IsAlpha(s[2]) && s[3] == ',' && s[4] == ')'
    ensures ParseText(s, stod) == Err(UnexpectedToken(")"))
  {
    LetterStep(s, 0, stod); PunctStep(s, 1, stod); LetterStep(s, 2, stod);
    DanglingCommaArguments(s, stod);
    assert PrimaryAt(s, stod, Cursor(Token(Identifier, [s[0]], 0.0), 1)) == Err(UnexpectedToken(")"));
  }

  /** `f(a,)` fails with the `)` as the unexpected token. */
  lemma TrailingCommaExample(stod: string -> Option<real>)
    ensures ParseText("f(a,)", stod) == Err(UnexpectedToken(")"))
  {
    TrailingCommaFails("f(a,)", stod);
  }

  /** `f(a` fails for want of the closing parenthesis of the argument list. */
  lemma UnclosedCallFails(stod: string -> Option<real>)
    ensures ParseText("f(a", stod) == Err(ExpectedParenAfterArguments)
  {
    var s := "f(a";
    LetterStep(s, 0, stod); PunctStep(s, 1, stod); LetterStep(s, 2, stod); EndStep(s, stod);
    var a := Ast.Variable("a");
    var c0 := Cursor(Token(Identifier, "f", 0.0), 1);
    var c2 := Cursor(Token(Identifier, "a", 0.0), 3);
    var c3 := Cursor(Token(End, "", 0.0), 3);
    SingleVariable(s, stod, c2, 0);
    ArgsStep(s, stod, c2, [], a, c3);
    CallPrimary(s, stod, c0, [a], c3);
  }

  /** `(a` fails for want of the closing parenthesis of the group. */
  lemma UnclosedGroupFails(stod: string -> Option<real>)
    ensures ParseText("(a", stod) == Err(ExpectedParenAfterExpression)
  {
    var s := "(a";
    PunctStep(s, 0, stod); LetterStep(s, 1, stod); EndStep(s, stod);
    var a := Ast.Variable("a");
    var c0 := Cursor(Token(LeftParen, "(", 0.0), 1);
    var c1 := Cursor(Token(Identifier, "a", 0.0), 2);
    var c2 := Cursor(Token(End, "", 0.0), 2);
    assert Start(s, stod) == c0;
    assert ExprAt(s, stod, c1, 0) == Ok((a, c2)) by {
      assert PrimaryAt(s, stod, c1) == Ok((a, c2));
    }
  }

  /** `a)` fails: the `)` is left over after a complete expression. */
  lemma LeftoverTokenFails(stod: string -> Option<real>)
    ensures ParseText("a)", stod) == Err(UnexpectedTokenAfterExpression(")"))
  {
    var s := "a)";
    LetterStep(s, 0, stod); PunctStep(s, 1, stod);
    var a := Ast.Variable("a");
    var c0 := Cursor(Token(Identifier, "a", 0.0), 1);
    var c1 := Cursor(Token(RightParen, ")", 0.0), 2);
    assert Start(s, stod) == c0;
    assert PrimaryAt(s, stod, c0) == Ok((a, c1));
  }

  /** `a+` fails: End is not a valid right operand, and its text is empty. */
  lemma MissingOperandFails(stod: string -> Option<real>)
    ensures ParseText("a+", stod) == Err(UnexpectedToken(""))
  {
    var s := "a+";
    LetterStep(s, 0, stod); PunctStep(s, 1, stod); EndStep(s, stod);
    var a := Ast.Variable("a");
    var c0 := Cursor(Token(Identifier, "a", 0.0), 1);
    var c1 := Cursor(Token(Plus, "+", 0.0), 2);
    var c2 := Cursor(Token(End, "", 0.0), 2);
    assert Start(s, stod) == c0;
    assert PrimaryAt(s, stod, c0) == Ok((a, c1));
    assert ExprAt(s, stod, c2, 2) == Err(UnexpectedToken(""));
  }

  /** `+a` fails: the parser has no unary plus. */
  lemma UnaryPlusFails(stod: string -> Option<real>)
    ensures ParseText("+a", stod) == Err(UnexpectedToken("+"))
  {
    var s := "+a";
    PunctStep(s, 0, stod);
    assert Start(s, stod) == Cursor(Token(Plus, "+", 0.0), 1);
  }

  /** The tokens of `2+3*4`, given a number conversion that reads the three digits. */
  lemma SumOfProductTokens(stod: string -> Option<real>)
    requires stod("2") == Some(2.0) && stod("3") == Some(3.0) && stod("4") == Some(4.0)
    ensures var s := "2+3*4";
      && Start(s, stod) == Cursor(Token(Number, "2", 2.0), 1)
      && NextTokenAt(s, 1, stod) == Cursor(Token(Plus, "+", 0.0), 2)
      && NextTokenAt(s, 2, stod) == Cursor(Token(Number, "3", 3.0), 3)
      && NextTokenAt(s, 3, stod) == Cursor(Token(Star, "*", 0.0), 4)
      && NextTokenAt(s, 4, stod) == Cursor(Token(Number, "4", 4.0), 5)
      && NextTokenAt(s, 5, stod) == Cursor(Token(End, "", 0.0), 5)
  {
    var s := "2+3*4";
    assert [s[0]] == "2" && [s[2]] == "3" && [s[4]] == "4";
    DigitStep(s, 0, stod); PunctStep(s, 1, stod); DigitStep(s, 2, stod);
    PunctStep(s, 3, stod); DigitStep(s, 4, stod); EndStep(s, stod);
  }

  /** `2+3*4` parses as `2+(3*4)`, given the same number conversion. */
  lemma SumOfProductParses(stod: string -> Option<real>)
    requires stod("2") == Some(2.0) && stod("3") == Some(3.0) && stod("4") == Some(4.0)
    ensures ParseText("2+3*4", stod) ==
      Ok(Ast.Binary(Ast.Add, Ast.Constant(2.0), Ast.Binary(Ast.Multiply, Ast.Constant(3.0), Ast.Constant(4.0))))
  {
    var s := "2+3*4";
    SumOfProductTokens(stod);
    var two, three, four := Ast.Constant(2.0), Ast.Constant(3.0), Ast.Constant(4.0);
    var prod := Ast.Binary(Ast.Multiply, three, four);
    var sum := Ast.Binary(Ast.Add, two, prod);
    var c0 := Cursor(Token(Number, "2", 2.0), 1);
    var c1 := Cursor(Token(Plus, "+", 0.0), 2);
    var c2 := Cursor(Token(Number, "3", 3.0), 3);
    var c3 := Cursor(Token(Star, "*", 0.0), 4);
    var c4 := Cursor(Token(Number, "4", 4.0), 5);
    var c5 := Cursor(Token(End, "", 0.0), 5);
    assert Start(s, stod) == c0;
    assert PrimaryAt(s, stod, c0) == Ok((two, c1));
    assert PrimaryAt(s, stod, c2) == Ok((three, c3));
    assert ExprAt(s, stod, c4, 3) == Ok((four, c5)) by {
      assert PrimaryAt(s, stod, c4) == Ok((four, c5));
    }
    assert LoopAt(s, stod, three, c3, 2) == Ok((prod, c5)) by {
      assert RightPrecedence(Star) == 3;
      assert LoopAt(s, stod, prod, c5, 2) == Ok((prod, c5));
    }
    assert ExprAt(s, stod, c2, 2) == Ok((prod, c5));
    assert LoopAt(s, stod, two, c1, 0) == Ok((sum, c5)) by {
      assert RightPrecedence(Plus) == 2;
      assert LoopAt(s, stod, sum, c5, 0) == Ok((sum, c5));
    }
    assert ExprAt(s, stod, c0, 0) == Ok((sum, c5));
  }

  /** `2+3*4` evaluates to 14 in any environment, given the same number conversion. */
  lemma SumOfProductEvaluates(stod: string -> Option<real>, env: Ast.Env)
    requires stod("2") == Some(2.0) && stod("3") == Some(3.0) && stod("4") == Some(4.0)
    ensures ParseText("2+3*4", stod).Ok? && Ast.Eval(ParseText("2+3*4", stod).value, env) == Ok(14.0)
  {
    SumOfProductParses(stod);
    var prod := Ast.Binary(Ast.Multiply, Ast.Constant(3.0), Ast.Constant(4.0));
    assert Ast.Eval(prod, env) == Ok(12.0);
  }
}
