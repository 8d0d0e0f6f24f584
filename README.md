# cppexprpars in Dafny

This project models cppexprpars, a small C++ library that reads arithmetic expressions.
The library works in three stages:

- The **tokenizer** scans a string into tokens: numbers, identifiers, the operators
  `+ - * / ^`, parentheses, commas, `Invalid` and a final `End`.
- The **parser** uses precedence climbing to build an expression tree. It handles
  binding powers, right-associative `^`, unary minus, function calls and grouping.
- The **tree** evaluates itself. Variables come from an `EvaluationContext` and
  functions from a `FunctionRegistry`.

The model keeps the library's structure.

- `Errors` (`errors.dfy`): one `Error` for each `throw`. `Message` gives the exact text
  the library throws. `Result` and `Option` are also defined here.
- `Tokens` (`tokens.dfy`): the token kinds, the `strOfTok` name table and the `Token` record.
- `Lexer` (`lexer.dfy`):
  - pure functions specify one step of `next_token`: `NextTokenAt` maps a position to a
    `Cursor` (the token and the position after it);
  - the class `Tokenizer` keeps `pos` and `current` as fields and runs the library's
    `while` loops, each proved against those functions.
- `Parser` (`parser.dfy`):
  - `ExprAt`, `LoopAt`, `PrimaryAt` and `ArgsAt` are the parser as functions over the
    tokenizer state; they recurse mutually and terminate on a measure of the input still
    unread;
  - the class `Parser` runs `parse`, `parse_expression` and `parse_primary` on a
    `Tokenizer` with the library's `while(true)` loops, and is proved to give the same
    tree (or error) and the same tokenizer state.
- `ParserExamples` (`parser_examples.dfy`): tree shapes and error cases.
  - Lemmas over every input of a shape: `x op1 y op2 z` (`LettersAndOperators`), `-x op y`
    (`NegatedLetters`), `(x op1 y) op2 z` (`GroupedLetters`), `f(x,y)` (`CallOfTwoLetters`)
    and `f(x,)` (`TrailingCommaFails`).
  - The associativity, precedence, grouping, `f(a,b)` and `f(a,)` examples are instances
    of those lemmas.
  - The other examples are proved on their one literal input: `f()`, `f(a`, `(a`, `a)`,
    `a+`, `+a` and `2+3*4`.
- `Ast` (`ast.dfy`):
  - the operator enums and the five node kinds form one datatype;
  - `Eval` is `evaluate`, with the environment (`Env`: variable resolver, function
    registry, numeric library) passed explicitly;
  - `EvaluateCall` is the argument loop of `FuncExprNode::evaluate`.
- `Context` (`context.dfy`) and `Functions` (`functions.dfy`): the two environments, as
  classes over a `map`, plus `EvaluationContext::default_context`.
- `DefaultEnvironment` (`defaults.dfy`): the static default context and default registry
  of the nodes, and their setters.

Numbers are `real`. Three operations are parameters, because the model does not define
them:

- `std::stod`, held by the tokenizer as `stod: string -> Option<real>`;
- `std::pow`;
- the integer remainder of the modulo operator.

## Model

| member | source | states |
|---|---|---|
| Errors.Message | include/cppexprpars/parser.hpp:28 | the `what()` text of each failure: also parser.hpp:93, 107 and 119, context.hpp:18, function.hpp:23 and src/expr_node.cpp:55 and 58 |
| Tokens.Ordinal | include/cppexprpars/token.hpp:10-19 | every kind's enum value indexes the name table |
| Tokens.KindAt | include/cppexprpars/token.hpp:10-30 | the kind at each table index has that index as its enum value |
| Tokens.OrdinalRoundTrip | include/cppexprpars/token.hpp:10-30 | enum value and table index are inverse, so index `k` names kind `k` |
| Tokens.KindNamesAreDistinct | include/cppexprpars/token.hpp:21-30 | the table has 12 entries, one per kind, and no two kinds share a name |
| Tokens.KindName | include/cppexprpars/token.hpp:21-30 | the `strOfTok` entry of a kind; `KindNamesAreDistinct` shows no two kinds share one |
| Tokens.DefaultToken | include/cppexprpars/token.hpp:37 | `Token()`; `DefaultTokenIsEmptyInvalid` states its fields |
| Tokens.NewToken | include/cppexprpars/token.hpp:39-40 | `Token(t, txt, val)`; `NewTokenDefaults` states its default arguments |
| Tokens.DefaultTokenIsEmptyInvalid | include/cppexprpars/token.hpp:37 | a default token is `Invalid`, with empty text and value 0 |
| Tokens.NewTokenDefaults | include/cppexprpars/token.hpp:39-40 | omitted constructor arguments default to empty text and value 0 |
| Lexer.RunEnd | include/cppexprpars/tokenizer.hpp:53-56 | a scan of a character class stops inside the input, at the end or at the first character outside the class |
| Lexer.RunIsInClass | include/cppexprpars/tokenizer.hpp:91-94 | every character passed over by such a scan is in the class |
| Lexer.SkipSpace | include/cppexprpars/tokenizer.hpp:53-56 | where `skip_whitespace` stops: inside the input, at its end or at the first non-blank character |
| Lexer.MantissaEnd | include/cppexprpars/tokenizer.hpp:62-69 | the integer-and-fraction scan ends inside the input and not before its start |
| Lexer.MantissaIsMaximalRun | include/cppexprpars/tokenizer.hpp:62-69 | the mantissa holds only digits and dots, at most one dot, and stops at a non-digit-or-dot or a second dot |
| Lexer.ExponentEnd | include/cppexprpars/tokenizer.hpp:71-80 | the exponent is empty exactly when no `e`/`E` follows the mantissa |
| Lexer.ExponentEndAfterMark | include/cppexprpars/tokenizer.hpp:72-79 | a present exponent ends where the digit run after the mark and the optional sign ends |
| Lexer.ExponentIsSignedDigitRun | include/cppexprpars/tokenizer.hpp:71-80 | a non-empty exponent is `e`/`E`, an optional sign, then the maximal run of digits |
| Lexer.NumberToken | include/cppexprpars/tokenizer.hpp:58-89 | the token and position `parse_number` produces; `NumberTokenShape` states the text's parts, its kind and its value |
| Lexer.NumberTokenShape | include/cppexprpars/tokenizer.hpp:58-89 | a number's text is a non-empty mantissa followed by the exponent; the token is `Number` with the converted value exactly when `stod` converts the text, and `Invalid` with the same text otherwise |
| Lexer.NumberDispatch | include/cppexprpars/tokenizer.hpp:26-27 | a token that starts with a digit or a dot is read as a number |
| Lexer.PunctKind | include/cppexprpars/tokenizer.hpp:31-39 | the kind the switch gives each operator or punctuation character; `PunctKindCases` says which characters have one |
| Lexer.PunctKindCases | include/cppexprpars/tokenizer.hpp:31-43 | exactly `+ - * / ^ ( ) ,` have a kind of their own, and it is never End, Number, Identifier or Invalid |
| Lexer.NextTokenAt | include/cppexprpars/tokenizer.hpp:18-46 | a token's text is exactly the input slice from the first non-blank character to the new position; the new position is within the input; the token is `End` exactly when only whitespace remains; every other token has non-empty text; no token text starts with whitespace |
| Lexer.Advance | include/cppexprpars/tokenizer.hpp:18-46 | `next_token` from the position after the current token; `AdvanceDecreases` states its progress |
| Lexer.Start | include/cppexprpars/tokenizer.hpp:12-14 | the state after construction: the token read from position 0 |
| Lexer.AdvanceDecreases | include/cppexprpars/tokenizer.hpp:18-46 | reading a token never goes past the input and strictly shrinks what is left to read, unless the token is `End` |
| Lexer.EndIsSticky | include/cppexprpars/tokenizer.hpp:19-23 | an `End` token has empty text and sits at the input's end, and reading again gives `End` at the same place |
| Lexer.EndOnlyAtBlankRest | include/cppexprpars/tokenizer.hpp:19-23 | `End` appears exactly when every remaining character is whitespace |
| Lexer.PunctuationToken | include/cppexprpars/tokenizer.hpp:31-39 | each of `+ - * / ^ ( ) ,` gives its own kind, text the one character, and moves one past it |
| Lexer.InvalidCharToken | include/cppexprpars/tokenizer.hpp:40-43 | any other character that starts neither a number nor an identifier (`%` included) gives a one-character `Invalid` token and moves one past it |
| Lexer.IdentifierIsMaximalRun | include/cppexprpars/tokenizer.hpp:91-96 | an identifier starts with a letter or `_`, holds only letters, digits and `_`, and is followed by none of them |
| Lexer.Tokenizer.constructor | include/cppexprpars/tokenizer.hpp:12-14 | after construction the current token is already the first token of the input |
| Lexer.Tokenizer.NextToken | include/cppexprpars/tokenizer.hpp:18-46 | the new token and position are the step `NextTokenAt` gives from the old position |
| Lexer.Tokenizer.SkipWhitespace | include/cppexprpars/tokenizer.hpp:53-56 | moves to the end of the whitespace run and leaves the token as it was |
| Lexer.Tokenizer.SkipMantissa | include/cppexprpars/tokenizer.hpp:62-69 | the integer-and-fraction loop moves to the end of the mantissa |
| Lexer.Tokenizer.SkipDigits | include/cppexprpars/tokenizer.hpp:77-79 | the exponent's digit loop moves to the end of the digit run |
| Lexer.Tokenizer.ParseNumber | include/cppexprpars/tokenizer.hpp:58-89 | the token and position after `parse_number` are those of the number that starts there |
| Lexer.Tokenizer.ParseIdentifier | include/cppexprpars/tokenizer.hpp:91-96 | moves to the end of the identifier run; the token is an `Identifier` whose text is the slice read |
| Lexer.Tokenizer.MakeToken | include/cppexprpars/tokenizer.hpp:98-101 | the token is the current character with the given kind, and the position moves by exactly one |
| Parser.Precedence | include/cppexprpars/parser.hpp:123-132 | an operator token binds at 1 to 3; every other kind gets -1, below every level the loop is called with |
| Parser.PrecedenceOrder | include/cppexprpars/parser.hpp:123-132 | `+` and `-` bind loosest, then `*` and `/`, then `^` |
| Parser.IsRightAssociative | include/cppexprpars/parser.hpp:134-136 | only `^` is right-associative; `TwoOperators`, `PowerIsRightAssociative` and `SubtractionIsLeftAssociative` show the trees this gives |
| Parser.RightPrecedence | include/cppexprpars/parser.hpp:58 | the level of an operator's right operand: its precedence, plus one unless it is right-associative; `TwoOperators` states its effect on tree shape |
| Parser.OperatorOf | include/cppexprpars/parser.hpp:61 | the operator of the binary node built for an operator token; `OperatorOfMatchesText` shows it is `charToBinaryOp` of the token's text |
| Parser.OperatorOfMatchesText | include/cppexprpars/parser.hpp:61 | every operator token has one character, and `charToBinaryOp` of it is the node's operator, so building the node never throws |
| Parser.ExprAt | include/cppexprpars/parser.hpp:47-65 | on success: input consumed, the stop token binds below the requested level, and an `End` stop sits at the input's end; on failure: one of the parser's three syntax errors |
| Parser.LoopAt | include/cppexprpars/parser.hpp:50-62 | the operator loop stops at the first token binding below the level; it never raises anything but a syntax error |
| Parser.PrimaryAt | include/cppexprpars/parser.hpp:67-121 | a primary consumes at least one token; a token other than a number, an identifier, `(` or `-` is an "Unexpected token" error carrying its text |
| Parser.ArgsAt | include/cppexprpars/parser.hpp:81-90 | the argument loop keeps the arguments already read, in order, adds at least one, and stops at a token that is not a comma |
| Parser.ParseAt | include/cppexprpars/parser.hpp:25-31 | `parse` from a tokenizer state; `ParseSucceedsOnlyAtEnd` and `ParseFailures` state its outcomes |
| Parser.ParseText | include/cppexprpars/parser.hpp:25-31 | `parse` on a fresh tokenizer over the text; the examples state its results |
| Parser.ParseSucceedsOnlyAtEnd | include/cppexprpars/parser.hpp:25-31 | `parse` succeeds exactly when the top-level expression stops at `End`: a success has read all the input and returns that expression, and an `End` stop always returns it |
| Parser.ParseFailures | include/cppexprpars/parser.hpp:25-31 | `parse` fails with a syntax error, or with "Unexpected token after expression" carrying the text of a leftover token that is neither `End` nor an operator; conversely a failing expression is the failure of `parse`, and every stop token other than `End` gives that error with its text |
| Parser.VariablePrimary | include/cppexprpars/parser.hpp:100-101 | an identifier not followed by `(` is a variable node of that name |
| Parser.SingleVariable | include/cppexprpars/parser.hpp:100-101 | such an identifier, followed by a token that does not bind at the level, is the whole expression |
| Parser.ArgsStep | include/cppexprpars/parser.hpp:82-89 | after an argument, a comma continues the list and anything else ends it |
| Parser.CallPrimary | include/cppexprpars/parser.hpp:76-98 | `name(args` is a call node of `name` with those arguments when `)` follows, and "Expected ')' after function arguments" otherwise |
| Parser.GroupPrimary | include/cppexprpars/parser.hpp:104-111 | `( e )` is the inner tree itself, read at level 0 whatever surrounds it, followed by the token after the `)`; without the `)` it is "Expected ')' after expression" |
| Parser.TwoOperators | include/cppexprpars/parser.hpp:47-65 | for `x op1 y op2 z`, `op2` nests to the right when it binds tighter, or as tightly with `op1` right-associative; otherwise `op1` nests to the left |
| Parser.NegationScope | include/cppexprpars/parser.hpp:113-116 | unary minus before `x op y` takes `x^y` as its operand when `op` is `^`, and only `x` for every other operator |
| Parser.Parser.constructor | include/cppexprpars/parser.hpp:13-17 | the parser works on the given tokenizer |
| Parser.Parser.Parse | include/cppexprpars/parser.hpp:25-31 | the result is `parse` as specified, from the tokenizer's state; after a success the tokenizer sits at End with all the input read |
| Parser.Parser.ParseExpression | include/cppexprpars/parser.hpp:47-65 | the tree (or error) and the tokenizer's new state are those `ExprAt` gives |
| Parser.Parser.ParsePrimary | include/cppexprpars/parser.hpp:67-121 | the tree (or error) and the tokenizer's new state are those `PrimaryAt` gives |
| Parser.ParseInput | include/cppexprpars/parser.hpp:13-31 | a fresh tokenizer, a parser over it and `parse` give the parse of the whole text |
| ParserExamples.LetterStep | include/cppexprpars/tokenizer.hpp:91-96 | a letter followed by no identifier character is a one-character identifier |
| ParserExamples.DigitStep | include/cppexprpars/tokenizer.hpp:58-89 | a lone digit is a one-character number holding its converted value |
| ParserExamples.PunctStep | include/cppexprpars/tokenizer.hpp:98-101 | an operator character with no blank before it is its own token |
| ParserExamples.EndStep | include/cppexprpars/tokenizer.hpp:19-23 | at the input's end the token is `End` |
| ParserExamples.LettersAndOperators | include/cppexprpars/parser.hpp:47-65 | every `x op1 y op2 z` over letters parses to the tree precedence climbing gives |
| ParserExamples.NegatedLetters | include/cppexprpars/parser.hpp:113-116 | every `-x op y` over letters puts the minus around `x^y` for `^` and around `x` otherwise |
| ParserExamples.SubtractionIsLeftAssociative | include/cppexprpars/parser.hpp:58 | `a-b-c` parses as `(a-b)-c` |
| ParserExamples.PowerIsRightAssociative | include/cppexprpars/parser.hpp:134-136 | `a^b^c` parses as `a^(b^c)` |
| ParserExamples.ProductBindsTighterThanSum | include/cppexprpars/parser.hpp:47-65 | `a+b*c` parses as `a+(b*c)` |
| ParserExamples.QuotientBeforeDifference | include/cppexprpars/parser.hpp:47-65 | `a/b-c` parses as `(a/b)-c` |
| ParserExamples.NegationTakesPower | include/cppexprpars/parser.hpp:113-116 | `-a^b` parses as `-(a^b)` |
| ParserExamples.NegationStopsBeforeProduct | include/cppexprpars/parser.hpp:113-116 | `-a*b` parses as `(-a)*b` |
| ParserExamples.GroupOfLetters | include/cppexprpars/parser.hpp:104-111 | the group `(x op y)` is the primary `x op y`, followed by the token after the `)` |
| ParserExamples.GroupedLetters | include/cppexprpars/parser.hpp:104-111 | every `(x op1 y) op2 z` over letters makes the group the left operand of `op2`, whichever operator binds tighter |
| ParserExamples.GroupingOverridesPrecedence | include/cppexprpars/parser.hpp:104-111 | `(a+b)*c` parses as `(a+b)*c`, not `a+(b*c)` |
| ParserExamples.EmptyCall | include/cppexprpars/parser.hpp:81 | `f()` is a call with no arguments |
| ParserExamples.TwoLetterArguments | include/cppexprpars/parser.hpp:81-90 | the argument list `x,y)` yields `x` then `y` and stops at `)` |
| ParserExamples.CallOfTwoLetters | include/cppexprpars/parser.hpp:76-98 | every `f(x,y)` over letters is a call of `f` on `x` then `y` |
| ParserExamples.CallArgumentsInOrder | include/cppexprpars/parser.hpp:82-83 | `f(a,b)` keeps its arguments in source order |
| ParserExamples.DanglingCommaArguments | include/cppexprpars/parser.hpp:82-85 | after a comma the argument list fails at `)` |
| ParserExamples.TrailingCommaFails | include/cppexprpars/parser.hpp:118-119 | every `f(x,)` fails with "Unexpected token" on `)` |
| ParserExamples.TrailingCommaExample | include/cppexprpars/parser.hpp:118-119 | `f(a,)` fails with "Unexpected token" on `)` |
| ParserExamples.UnclosedCallFails | include/cppexprpars/parser.hpp:92-94 | `f(a` fails with "Expected ')' after function arguments" |
| ParserExamples.UnclosedGroupFails | include/cppexprpars/parser.hpp:106-108 | `(a` fails with "Expected ')' after expression" |
| ParserExamples.LeftoverTokenFails | include/cppexprpars/parser.hpp:27-29 | `a)` fails with "Unexpected token after expression" on `)` |
| ParserExamples.MissingOperandFails | include/cppexprpars/parser.hpp:118-119 | `a+` fails because `End` is not a primary; the error carries the empty text |
| ParserExamples.UnaryPlusFails | include/cppexprpars/parser.hpp:118-119 | `+a` fails, since there is no unary plus in the grammar |
| ParserExamples.SumOfProductTokens | include/cppexprpars/tokenizer.hpp:18-46 | `2+3*4` scans into the five expected tokens |
| ParserExamples.SumOfProductParses | include/cppexprpars/parser.hpp:47-65 | `2+3*4` parses as `2+(3*4)` |
| ParserExamples.SumOfProductEvaluates | src/expr_node.cpp:46-64 | `2+3*4` evaluates to 14 |
| Ast.CharToBinaryOp | include/cppexprpars/expr_node.hpp:43-60 | accepts exactly `+ - * / % ^` and rejects every other character |
| Ast.CharToBinaryOpRoundTrip | include/cppexprpars/expr_node.hpp:43-60 | each operator's character maps back to it, and each accepted character names exactly one operator |
| Ast.CharToUnaryOp | include/cppexprpars/expr_node.hpp:79-88 | accepts exactly `+` and `-` |
| Ast.CharToUnaryOpRoundTrip | include/cppexprpars/expr_node.hpp:79-88 | `+` is Plus, `-` is Minus, and nothing else maps to either |
| Ast.ContextEnv | include/cppexprpars/expr_node.hpp:100-104 | the environment of a parser bound to a context: variables resolve through `get_variable`; `VariableUsesContext` states it |
| Ast.ApplyUnary | src/expr_node.cpp:35-44 | Plus returns the value unchanged; Minus returns its negation |
| Ast.ApplyBinary | src/expr_node.cpp:46-64 | fails exactly for Divide or Modulo by zero, with "Division by zero"; a quotient times the divisor gives the dividend |
| Ast.ArithmeticIsExact | src/expr_node.cpp:51-53 | Add, Subtract and Multiply give `lhs+rhs`, `lhs-rhs` and `lhs*rhs` |
| Ast.Eval | src/expr_node.cpp:35-64 | `evaluate` of the five node kinds (also include/cppexprpars/expr_node.hpp:110-112, 134-142 and 158-160); `ConstantAndUnary`, `LeftOperandFirst`, `CallFailsOnlyAfterArguments`, `VariableUsesContext` and `EvalDependsOnlyOnNamesUsed` state it node by node |
| Ast.EvalAll | include/cppexprpars/expr_node.hpp:135-138 | the arguments of a function node, evaluated in order; `EvalAllValues`, `EvalAllFirstFailure` and `EvalAllSucceedsIffEach` state it |
| Ast.EvalAllValues | include/cppexprpars/expr_node.hpp:134-138 | when every argument evaluates, the list has one value per argument, in argument order |
| Ast.EvalAllFirstFailure | include/cppexprpars/expr_node.hpp:134-138 | the first argument that fails is the failure of the whole list |
| Ast.EvalAllSucceedsIffEach | include/cppexprpars/expr_node.hpp:134-138 | the argument list evaluates exactly when every argument does |
| Ast.EvaluateCall | include/cppexprpars/expr_node.hpp:134-142 | the argument loop, then the lookup and the call, give what `Eval` gives for a function node |
| Ast.CallFailsOnlyAfterArguments | include/cppexprpars/expr_node.hpp:134-142 | a failing argument is the call's failure; an unregistered name fails with "Unknown function" only after every argument has evaluated; otherwise the registered function gets the values |
| Ast.LeftOperandFirst | src/expr_node.cpp:46-48 | the left operand's failure comes first, then the right operand's, before the operator is applied |
| Ast.ConstantAndUnary | include/cppexprpars/expr_node.hpp:154-160 | a constant evaluates to its value; a unary node evaluates its operand first and then keeps it or negates it |
| Ast.VariableUsesContext | include/cppexprpars/expr_node.hpp:100-112 | a variable bound to a context evaluates to `get_variable` of its own name; an unbound name is "Unknown variable", never a default |
| Ast.EvalDependsOnlyOnNamesUsed | include/cppexprpars/expr_node.hpp:27 | evaluation is `const`: two environments that agree on the names a tree uses give the same result, so re-evaluating gives the same value |
| Ast.EvalAllDependsOnlyOnNamesUsed | include/cppexprpars/expr_node.hpp:134-138 | the same for the argument list of a call |
| Context.Lookup | include/cppexprpars/context.hpp:15-21 | finds the bound value exactly when the name is bound, and fails with "Unknown variable" on that name otherwise |
| Context.LookupAfterSet | include/cppexprpars/context.hpp:11-21 | after a set, the name gives the new value whatever it held before, and every other name keeps its binding |
| Context.EvaluationContext.constructor | include/cppexprpars/context.hpp:26 | a new context binds nothing |
| Context.EvaluationContext.SetVariable | include/cppexprpars/context.hpp:11-13 | the store becomes the old store with the one name rebound |
| Context.EvaluationContext.GetVariable | include/cppexprpars/context.hpp:15-21 | returns the lookup and changes nothing |
| Context.DefaultContext | src/expr_node.cpp:17-33 | the default context binds each of `a`..`z` and `A`..`Z` to its character code, and nothing else |
| Functions.Find | include/cppexprpars/function.hpp:20-26 | finds the registered function exactly when the name is registered, and fails with "Unknown function" on that name otherwise |
| Functions.FindAfterRegister | include/cppexprpars/function.hpp:16-26 | after a registration the name gives the new function, replacing the old one, and every other name keeps its function |
| Functions.FunctionRegistry.constructor | include/cppexprpars/function.hpp:31 | a new registry holds no function |
| Functions.FunctionRegistry.RegisterFunction | include/cppexprpars/function.hpp:16-18 | the registry becomes the old one with the one name rebound |
| Functions.FunctionRegistry.GetFunction | include/cppexprpars/function.hpp:20-26 | returns the lookup and changes nothing |
| DefaultEnvironment.Defaults.constructor | src/expr_node.cpp:5-11 | the default context starts as `default_context`; the default registry starts as the built-ins |
| DefaultEnvironment.Defaults.SetDefaultContext | src/expr_node.cpp:13-15 | the stored context becomes a copy of the argument's bindings; the registry is untouched |
| DefaultEnvironment.Defaults.SetDefaultRegistry | src/expr_node.cpp:7-9 | the stored registry becomes a copy of the argument's functions; the context is untouched |
| DefaultEnvironment.Defaults.Environment | include/cppexprpars/expr_node.hpp:100-104 | a node built with the defaults resolves variables by lookup in the stored context and calls through the stored registry |
| DefaultEnvironment.DefaultVariables | src/expr_node.cpp:17-33 | in the default context `x` is 120, `Z` is 90, every single letter is its code, and every other name is unknown |

## Left out

- Floating point: numbers are exact `real`s. There is no IEEE rounding, overflow, infinity or NaN.
- `std::stod` is the tokenizer's `stod` parameter, left uninterpreted. It may accept a
  prefix of the text, such as `1e`.
- `std::pow` is the `Numerics.pow` parameter.
- Modulo: `(uint64_t)lhs % (uint64_t)rhs` is the `Numerics.truncMod` parameter.
  - Only its zero check is modelled.
  - Converting a negative or out-of-range double to `uint64_t` is undefined behaviour in C++.
  - A non-zero right operand below 1 truncates to 0 and passes the check.
  - The parser cannot produce Modulo, because the lexer has no `%` token.
- The built-in functions (src/function.cpp) and `FunctionRegistry::default_registry` are
  not part of this model. The default registry's built-ins are a constructor parameter
  of `Defaults`.
- The `ExprParser` facade (include/cppexprpars.hpp, src/cppexprpars.cpp), the
  commented-out copy in parser.hpp, and the test drivers are outside the core.
- The context and registry pointers are replaced by the explicit `Env` given to `Eval`.
  - This covers the `context_`/`registry_` pointers held by `Parser`, `set_context` and
    `set_registry`.
  - `get_default_context`/`get_default_registry` are called by the parser constructor but
    defined nowhere; the free `set_default_context` is declared but never defined.
  - `ContextEnv` gives a tree the environment of a parser bound to a context and a registry.
  - `Defaults.Environment` gives the environment of the statics.
- A custom `VariableResolver` is any `Env.resolve` function. Its exceptions are `Raised` errors.
- Exceptions thrown by registered functions are `Err` results of the `Callable`.
- `Callable` and `Env.resolve` are pure functions. A registered `std::function` or a custom
  resolver could keep state or have side effects; the model does not capture that, and
  `EvalDependsOnlyOnNamesUsed` (same result on re-evaluation) relies on it.
- The "Unknown unary/binary operation" defaults of the evaluators are unreachable over
  a closed enum and are not modelled.
- `charToBinaryOp`/`charToUnaryOp` throwing `std::invalid_argument` is modelled as `None`.
- The parser builds a binary node's operator from the token kind (`OperatorOf`), not
  from `op.text[0]`. `OperatorOfMatchesText` shows the two agree on every operator token
  the lexer produces.
- The C++ parser takes its tokenizer by value. Here it holds a reference to a
  `Tokenizer` object, which it alone changes.
- Parser.Parser.ParseExpression: requires a non-negative level. Every call in the library
  passes 0, 3, or an operator's precedence (plus one).
- Parser.Parser.Parse: after a failure the tokenizer's state is not stated. The library
  has thrown at that point and the object is not used again. After a success it is
  stated: End, with all the input read.
- Parser.Parser.ParseExpression: the tokenizer's state after a failure is not stated, for
  the same reason.
- Parser.Parser.ParsePrimary: the tokenizer's state after a failure is not stated, for
  the same reason.
- Unary plus in the parser: the grammar has none, and `+a` is a syntax error (see `UnaryPlusFails`).
- Arity checking: the library has none.
- Recursion depth and stack exhaustion are not modelled.
- Character classes are ASCII. Locales and negative `char` values passed to `<cctype>`
  are not modelled.
- `Tokenizer::current()` is the field `current` itself.
- The tree is a datatype, so ownership through `unique_ptr` is not modelled.
