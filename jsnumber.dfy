/**
 * The JavaScript number values the calculator computes with, and the parts of the JavaScript
 * runtime it calls (dynamic evaluation, `parseFloat`, number-to-string conversions and the `Math`
 * functions). Those calls are kept abstract: a `Runtime` value holds them as functions, and every
 * handler that needs one takes it as a parameter.
 */
module JsNumber {

  /** An IEEE-754 double as JavaScript sees it: a finite value, an infinity, or NaN. */
  datatype Num = Finite(r: real) | PosInf | NegInf | NaN

  /** `isFinite(x)`. */
  predicate IsFinite(x: Num)
  {
    x.Finite?
  }

  /** `Number.isInteger(x)`: finite with no fractional part. */
  predicate IsInteger(x: Num)
  {
    x.Finite? && x.r.Floor as real == x.r
  }

  /** `x < 0` (false for NaN). */
  predicate IsNegative(x: Num)
  {
    x.NegInf? || (x.Finite? && x.r < 0.0)
  }

  /** `x <= 0` (false for NaN). */
  predicate IsNonPositive(x: Num)
  {
    x.NegInf? || (x.Finite? && x.r <= 0.0)
  }

  /** What a thrown JavaScript value is: an `Error` object with its message, or anything else. */
  datatype Thrown = ErrorObject(message: string) | OtherValue

  /**
   * How `new Function('return ' + s)()` completes: it returns a value (recorded as the number
   * `isFinite` coerces it to, so an empty body's `undefined` is NaN) or it throws.
   */
  datatype Completion = Returned(value: Num) | Threw(thrown: Thrown)

  /** The runtime services the calculator calls, left abstract. */
  datatype Runtime = Runtime(
    run: string -> Completion,    // new Function('return ' + s)()
    parseFloat: string -> Num,    // parseFloat(s)
    toString: Num -> string,      // x.toString(), and `${x}` in a template literal
    toFixed6: Num -> string,      // x.toFixed(6)
    math: (string, Num) -> Num    // the Math call a scientific operation makes on its input
  )

  /** The calculation result's text: integers as they are, others rounded to 6 places and re-read. */
  function FormatResult(rt: Runtime, x: Num): string
  {
    if IsInteger(x) then rt.toString(x) else rt.toString(rt.parseFloat(rt.toFixed6(x)))
  }

  /** The scientific result's text: integers as they are, others with exactly 6 decimal places. */
  function FormatScientific(rt: Runtime, x: Num): string
  {
    if IsInteger(x) then rt.toString(x) else rt.toFixed6(x)
  }

  /**
   * The runtime writes numbers without a `/`, as JavaScript does: its numerals are made of
   * digits, `.`, `-`, `+`, `e`, or spell `Infinity` and `NaN`.
   */
  ghost predicate NumeralsSlashFree(rt: Runtime)
  {
    forall x :: '/' !in rt.toString(x) && '/' !in rt.toFixed6(x)
  }

  /** Both formatters then produce text without a `/`. */
  lemma FormattedSlashFree(rt: Runtime, x: Num)
    requires NumeralsSlashFree(rt)
    ensures '/' !in FormatResult(rt, x) && '/' !in FormatScientific(rt, x)
  {
  }
}
