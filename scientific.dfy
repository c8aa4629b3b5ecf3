/**
 * The body of `handleScientific`'s try block: the switch on the operation name with its domain
 * guards, and the text written to the display, the equation and the history on success.
 */
module Scientific {
  import opened Wrappers
  import opened Text
  import opened JsNumber

  /** The reasons a scientific operation fails. */
  datatype SciError = NegativeSquareRoot | NonPositiveLogarithm | InvalidOperation

  /** The message each failure is thrown with. */
  function Message(e: SciError): string
  {
    match e
    case NegativeSquareRoot => "Cannot calculate square root of negative number"
    case NonPositiveLogarithm => "Cannot calculate log of zero or negative number"
    case InvalidOperation => "Invalid operation"
  }

  /** The operation names the switch knows; the scientific panel's buttons send exactly these. */
  const Operations: seq<string> := ["sin", "cos", "tan", "sqrt", "log", "pow2"]

  /**
   * Applies a named operation to the current value. Square root refuses a negative value and
   * the logarithm a value that is not positive; the trigonometric functions and squaring accept
   * every value, NaN included, and any other name is refused.
   */
  function Apply(rt: Runtime, op: string, x: Num): (r: Result<Num, SciError>)
    ensures r == Failure(InvalidOperation) <==> op !in Operations
    ensures r == Failure(NegativeSquareRoot) <==> op == "sqrt" && IsNegative(x)
    ensures r == Failure(NonPositiveLogarithm) <==> op == "log" && IsNonPositive(x)
    ensures op in ["sin", "cos", "tan", "pow2"] ==> r.Success?
    ensures r.Success? ==> op in Operations && r.value == rt.math(op, x)
  {
    if op == "sin" || op == "cos" || op == "tan" || op == "pow2" then Success(rt.math(op, x))
    else if op == "sqrt" then
      if IsNegative(x) then Failure(NegativeSquareRoot) else Success(rt.math(op, x))
    else if op == "log" then
      if IsNonPositive(x) then Failure(NonPositiveLogarithm) else Success(rt.math(op, x))
    else Failure(InvalidOperation)
  }

  /** The text `<op>(<input>) = <result>` written to the equation and the history. */
  function Entry(rt: Runtime, op: string, x: Num, result: Num): string
  {
    op + "(" + rt.toString(x) + ") = " + FormatScientific(rt, result)
  }

  /** A known operation's entry has no `/`, so it keeps the equation free of a raw `/0`. */
  lemma EntrySlashesSpaced(rt: Runtime, op: string, x: Num, result: Num)
    requires op in Operations && NumeralsSlashFree(rt)
    ensures '/' !in Entry(rt, op, x, result)
    ensures SlashesSpaced(Entry(rt, op, x, result))
  {
    FormattedSlashFree(rt, result);
    var e := Entry(rt, op, x, result);
    assert '/' !in op;
    assert '/' !in e by {
      assert e == op + "(" + rt.toString(x) + ") = " + FormatScientific(rt, result);
    }
    SlashFreeIsSpaced(e);
  }
}
