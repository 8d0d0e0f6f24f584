/** Failures of the expression pipeline. Every `throw` of the library becomes an
    `Err` carrying one of these; `Message` gives the text the library throws. */
module Errors {

  datatype Error =
    | UnexpectedToken(text: string)                  // a token that cannot start a primary
    | UnexpectedTokenAfterExpression(text: string)   // trailing input after the top-level expression
    | ExpectedParenAfterArguments                    // `f(a, b` without `)`
    | ExpectedParenAfterExpression                   // `(a` without `)`
    | UnknownVariable(name: string)
    | UnknownFunction(name: string)
    | DivisionByZero
    | Raised(message: string)                        // thrown by a registered function or a custom resolver

  /** The message of the `std::runtime_error` the library throws. */
  function Message(e: Error): string
  {
    match e
    case UnexpectedToken(t) => "Unexpected token: '" + t + "'"
    case UnexpectedTokenAfterExpression(t) => "Unexpected token after expression: '" + t + "'"
    case ExpectedParenAfterArguments => "Expected ')' after function arguments"
    case ExpectedParenAfterExpression => "Expected ')' after expression"
    case UnknownVariable(n) => "Unknown variable: " + n
    case UnknownFunction(n) => "Unknown function: " + n
    case DivisionByZero => "Division by zero"
    case Raised(m) => m
  }

  datatype Option<+T> = None | Some(value: T)

  datatype Result<+T> = Ok(value: T) | Err(error: Error)
}
