/**
 * The body of `handleCalculate`'s try block: the ordered checks on the equation, the sanitiser,
 * the dynamic evaluation, the finiteness check and the result formatting, as one function from the
 * equation to the formatted result or the error that was thrown.
 */
module Evaluator {
  import opened Wrappers
  import opened Text
  import opened JsNumber

  /** The reasons a calculation fails, in the order they are checked. */
  datatype CalcError =
    | EmptyExpression
    | DivisionByZero
    | EvaluationThrew(thrown: Thrown)
    | InfiniteResult

  /** The text the catch block shows for an error: its message, or a fallback for a non-Error. */
  function Message(e: CalcError): string
  {
    match e
    case EmptyExpression => "Empty expression"
    case DivisionByZero => "Division by zero"
    case InfiniteResult => "Result is infinity"
    case EvaluationThrew(ErrorObject(m)) => m
    case EvaluationThrew(OtherValue) => "Invalid Expression"
  }

  /** The raw text the division-by-zero check looks for. */
  const DivZeroText: string := "/0"

  /**
   * Evaluates an equation. Blank input fails first; then any raw `/0`, before anything is
   * sanitised; then the sanitised text is run, and a throw or a non-finite value fails; a
   * finite value is formatted.
   */
  function Evaluate(rt: Runtime, equation: string): (r: Result<string, CalcError>)
    ensures r == Failure(EmptyExpression) <==> IsBlank(equation)
    ensures r == Failure(DivisionByZero) <==> !IsBlank(equation) && Contains(equation, DivZeroText)
    ensures r.Failure? && r.error.EvaluationThrew? <==>
              !IsBlank(equation) && !Contains(equation, DivZeroText) &&
              rt.run(Sanitize(equation)).Threw?
    ensures r.Failure? && r.error.EvaluationThrew? ==> r.error.thrown == rt.run(Sanitize(equation)).thrown
    ensures r == Failure(InfiniteResult) <==>
              !IsBlank(equation) && !Contains(equation, DivZeroText) &&
              rt.run(Sanitize(equation)).Returned? && !IsFinite(rt.run(Sanitize(equation)).value)
    ensures r.Success? <==>
              !IsBlank(equation) && !Contains(equation, DivZeroText) &&
              rt.run(Sanitize(equation)).Returned? && IsFinite(rt.run(Sanitize(equation)).value)
    ensures r.Success? ==> r.value == FormatResult(rt, rt.run(Sanitize(equation)).value)
  {
    if IsBlank(equation) then Failure(EmptyExpression)
    else if Contains(equation, DivZeroText) then Failure(DivisionByZero)
    else
      match rt.run(Sanitize(equation))
      case Threw(thrown) => Failure(EvaluationThrew(thrown))
      case Returned(value) =>
        if !IsFinite(value) then Failure(InfiniteResult) else Success(FormatResult(rt, value))
  }

  /** The history line for a calculation: the equation, its result, and a heart in love mode. */
  function Entry(equation: string, result: string, loveMode: bool): string
  {
    equation + " = " + result + (if loveMode then " \U{1F49D}" else "")
  }

  /**
   * An equation whose slashes are each followed by a space (which is how the operator handler
   * writes `/`) never trips the division-by-zero check: dividing by zero typed on the keypad
   * reaches the evaluator, and surfaces as an infinite result or an evaluation error.
   */
  lemma SpacedEquationNeverDivisionByZero(rt: Runtime, equation: string)
    requires SlashesSpaced(equation)
    ensures Evaluate(rt, equation) != Failure(DivisionByZero)
  {
    SlashesSpacedExcludesDivZero(equation);
  }

  /** The check is on raw text: `10/05` is refused although it divides by five. */
  lemma RawCheckRefusesLeadingZeroDivisor(rt: Runtime)
    ensures Evaluate(rt, "10/05") == Failure(DivisionByZero)
  {
    assert !IsBlank("10/05") by { BlankIffAllWhitespace("10/05"); assert !IsJsWhitespace("10/05"[0]); }
    ContainsAt("10/05", DivZeroText);
    assert OccursAt("10/05", DivZeroText, 2);
  }

  /**
   * The keypad's `%` operator does not survive the sanitiser: `5 % 3` is evaluated as `53`.
   * The spaces the operator handler writes are dropped the same way.
   */
  lemma PercentOperatorIsDropped(rt: Runtime)
    ensures Evaluate(rt, "5 % 3") == Evaluate(rt, "53")
  {
    SanitizePercent();
    NotBlankOrDivZero("5 % 3");
    NotBlankOrDivZero("53");
  }

  lemma SanitizePercent()
    ensures Sanitize("5 % 3") == "53" && Sanitize("53") == "53"
  {
    var s := "5 % 3";
    assert s[4..] == "3" && Sanitize(s[4..]) == "3";
    assert s[3..] == " 3" && Sanitize(s[3..]) == "3";
    assert s[2..] == "% 3" && Sanitize(s[2..]) == "3";
    assert s[1..] == " % 3" && Sanitize(s[1..]) == "3";
    SanitizeKeepsAllowed("53");
  }

  lemma NotBlankOrDivZero(s: string)
    requires s != [] && '0' <= s[0] <= '9' && '/' !in s
    ensures !IsBlank(s) && !Contains(s, DivZeroText)
  {
    BlankIffAllWhitespace(s);
    ContainsAt(s, DivZeroText);
  }

  /** `8 / 0`, as the keypad writes it, passes both checks and fails only as an infinite result. */
  lemma KeypadDivisionByZeroIsInfinite(rt: Runtime)
    requires rt.run("8/0") == Returned(PosInf)
    ensures Evaluate(rt, "8 / 0") == Failure(InfiniteResult)
  {
    SanitizeKeypadDivision();
    KeypadDivisionPassesChecks();
  }

  lemma SanitizeKeypadDivision()
    ensures Sanitize("8 / 0") == "8/0"
  {
    var s := "8 / 0";
    assert s[4..] == "0" && Sanitize(s[4..]) == "0";
    assert s[3..] == " 0" && Sanitize(s[3..]) == "0";
    assert s[2..] == "/ 0" && Sanitize(s[2..]) == "/0";
    assert s[1..] == " / 0" && Sanitize(s[1..]) == "/0";
  }

  lemma KeypadDivisionPassesChecks()
    ensures !IsBlank("8 / 0") && !Contains("8 / 0", DivZeroText)
  {
    var s := "8 / 0";
    BlankIffAllWhitespace(s);
    assert !IsJsWhitespace(s[0]);
    assert SlashesSpaced(s);
    SlashesSpacedExcludesDivZero(s);
  }

  /** `a + b` with one-digit operands is run as `a+b`, and an integral sum is shown as it is. */
  lemma SmallSumEvaluates(rt: Runtime, typed: string, run: string, sum: real, shown: string)
    requires |typed| == 5 && typed[1..4] == " + " && run == [typed[0], '+', typed[4]]
    requires '0' <= typed[0] <= '9' && '0' <= typed[4] <= '9'
    requires rt.run(run) == Returned(Finite(sum)) && sum.Floor as real == sum
    requires rt.toString(Finite(sum)) == shown
    ensures Evaluate(rt, typed) == Success(shown)
  {
    SanitizeSmallSum(typed);
    assert '/' !in typed by { assert typed == [typed[0], ' ', '+', ' ', typed[4]]; }
    NotBlankOrDivZero(typed);
  }

  lemma SanitizeSmallSum(s: string)
    requires |s| == 5 && s[1..4] == " + "
    requires '0' <= s[0] <= '9' && '0' <= s[4] <= '9'
    ensures Sanitize(s) == [s[0], '+', s[4]]
  {
    assert s[4..] == [s[4]] && Sanitize(s[4..]) == [s[4]];
    assert s[3..] == [' ', s[4]] && Sanitize(s[3..]) == [s[4]];
    assert s[2..] == ['+', ' ', s[4]] && Sanitize(s[2..]) == ['+', s[4]];
    assert s[1..] == [' ', '+', ' ', s[4]] && Sanitize(s[1..]) == ['+', s[4]];
  }

  /** A literal of digits is run as it is typed. */
  lemma LiteralEvaluates(rt: Runtime, digits: string, value: real)
    requires digits != [] && forall i :: 0 <= i < |digits| ==> '0' <= digits[i] <= '9'
    requires rt.run(digits) == Returned(Finite(value)) && value.Floor as real == value
    ensures Evaluate(rt, digits) == Success(rt.toString(Finite(value)))
  {
    SanitizeKeepsAllowed(digits);
    NotBlankOrDivZero(digits);
  }
}
