/**
 * The calculator tool of the agent (`calculator` in src/agents/tools.py):
 * a character allow-list in front of Python's `eval`, with every failure
 * turned into an "Error: ..." string. The evaluation itself is a
 * parameter: `eval` gives what Python makes of an allow-listed text.
 */
module Calculator {
  import opened Text

  /** The only characters an expression may contain once stripped: digits, the four operators, parentheses, dot, comma and space. */
  predicate IsAllowed(c: char) {
    IsDigit(c) || c == '+' || c == '-' || c == '*' || c == '/'
    || c == '(' || c == ')' || c == '.' || c == ',' || c == ' '
  }

  /** Every failure of a tool is reported as text starting with this prefix. */
  const ERROR_PREFIX := "Error: "

  /** An error report: the prefix, then the message. */
  function Error(message: string): (r: string)
    ensures StartsWith(r, ERROR_PREFIX)
    ensures r[|ERROR_PREFIX|..] == message
  {
    ERROR_PREFIX + message
  }

  const INVALID_CHARACTERS :=
    Error("Invalid characters in expression. Only numbers and operators (+, -, *, /) are allowed.")
  const DIVISION_BY_ZERO := Error("Division by zero")
  const INVALID_EXPRESSION := "Invalid mathematical expression: "
  const NOT_EVALUATED := "Could not evaluate expression: "

  /** What evaluating an allow-listed expression gives: `str(result)` or the exception raised. */
  datatype EvalOutcome =
    | Value(rendered: string)
    | ZeroDivision
    | SyntaxError
    | OtherError(message: string)

  predicate AllAllowed(s: string) {
    forall i :: 0 <= i < |s| ==> IsAllowed(s[i])
  }

  /** `calculator(expression)`: total, so it never raises; every failure is an error string. */
  function Calculate(expression: string, eval: string -> EvalOutcome): (r: string)
    ensures !AllAllowed(Strip(expression)) ==> r == INVALID_CHARACTERS
    ensures AllAllowed(Strip(expression)) && eval(Strip(expression)).Value? ==> r == eval(Strip(expression)).rendered
    ensures AllAllowed(Strip(expression)) && !eval(Strip(expression)).Value? ==> StartsWith(r, ERROR_PREFIX)
  {
    var e := Strip(expression);
    if !AllAllowed(e) then INVALID_CHARACTERS
    else match eval(e)
      case Value(text) => text
      case ZeroDivision => DIVISION_BY_ZERO
      case SyntaxError => Error(INVALID_EXPRESSION + e)
      case OtherError(m) => Error(NOT_EVALUATED + m)
  }

  /**
   * A character outside the allow-list anywhere in the stripped text gives the
   * invalid-characters error, and the text is never evaluated: no evaluator
   * can change the answer.
   */
  lemma RejectionIgnoresEvaluator(expression: string, eval1: string -> EvalOutcome, eval2: string -> EvalOutcome)
    requires exists i :: 0 <= i < |Strip(expression)| && !IsAllowed(Strip(expression)[i])
    ensures Calculate(expression, eval1) == Calculate(expression, eval2) == INVALID_CHARACTERS
  {
  }

  /** Each kind of evaluation failure has its own message; a syntax error quotes the stripped text. */
  lemma FailureMessages(expression: string, eval: string -> EvalOutcome)
    requires AllAllowed(Strip(expression))
    ensures eval(Strip(expression)) == ZeroDivision ==> Calculate(expression, eval) == DIVISION_BY_ZERO
    ensures eval(Strip(expression)) == SyntaxError ==>
      Calculate(expression, eval) == Error(INVALID_EXPRESSION + Strip(expression))
    ensures eval(Strip(expression)).OtherError? ==>
      Calculate(expression, eval) == Error(NOT_EVALUATED + eval(Strip(expression)).message)
  {
  }

  /** Every failure, rejected or not evaluated, comes back as an "Error: " string. */
  lemma FailureIsErrorString(expression: string, eval: string -> EvalOutcome)
    requires !AllAllowed(Strip(expression)) || !eval(Strip(expression)).Value?
    ensures StartsWith(Calculate(expression, eval), ERROR_PREFIX)
  {
  }

  /** An allow-listed expression is answered by its rendered value, e.g. `15 + 7` by `22`. */
  lemma AllowedAnswersWithValue(expression: string, eval: string -> EvalOutcome, value: string)
    requires AllAllowed(Strip(expression))
    requires eval(Strip(expression)) == Value(value)
    ensures Calculate(expression, eval) == value
  {
  }

  /**
   * `15 + 7` is already stripped and passes the gate, as the phase-3 check
   * expects, so the answer is whatever `eval` makes of it.
   */
  lemma FifteenPlusSevenAccepted(expression: string, eval: string -> EvalOutcome)
    requires expression == "15 + 7"
    ensures Strip(expression) == expression && AllAllowed(Strip(expression))
    ensures eval("15 + 7").Value? ==> Calculate(expression, eval) == eval("15 + 7").rendered
  {
    StripNoSpace(expression);
    assert AllAllowed(expression);
  }
}
