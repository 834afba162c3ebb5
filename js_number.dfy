/**
  The JavaScript number operations the calculator relies on, kept abstract.

  The calculator never does arithmetic on its own strings: it hands them to
  `parseFloat`, to the operators `+ - * /` on doubles, and renders the double
  it gets back with `toString()` or `toFixed(8)`. None of that is modelled
  here. A calculator is instead given an `Arithmetic` value, three total
  functions standing for those operations, and this module states the few
  facts about their results that the calculator's own logic depends on.
 */
module JsNumber {

  /** The four operators, shown on the keys and stored by the calculator as `+`, `-`, `×`, `÷`. */
  datatype Op = Add | Subtract | Multiply | Divide

  /**
    What the calculator reads off a computed double: whether `result % 1 === 0`,
    the text of `result.toString()`, and the text of `result.toFixed(8)`.
   */
  datatype Number = Number(isInteger: bool, shortest: string, fixed: string)

  /**
    The number semantics a calculator works with:
    - `parses(s)`: `parseFloat(s)` is not NaN;
    - `isZero(s)`: `parseFloat(s) === 0`;
    - `apply(x, op, y)`: `parseFloat(x) op parseFloat(y)`, as a `Number`.
   */
  datatype Arithmetic = Arithmetic(
    parses: string -> bool,
    isZero: string -> bool,
    apply: (string, Op, string) -> Number)
  {
    /** Every result the operators can produce is rendered the way JavaScript renders doubles. */
    ghost predicate Valid() {
      forall x, op, y :: WellFormed(apply(x, op, y))
    }
  }

  predicate IsDigit(c: char) {
    '0' <= c <= '9'
  }

  predicate AllDigits(s: string) {
    forall i | 0 <= i < |s| :: IsDigit(s[i])
  }

  /** No two `.` characters in `s`. */
  predicate AtMostOneDot(s: string) {
    forall i, j | 0 <= i < j < |s| && s[i] == '.' :: s[j] != '.'
  }

  /** An optional `-` and then decimal digits without a leading zero (a lone `0` excepted). */
  predicate IntegerText(u: string) {
    var d := if |u| > 0 && u[0] == '-' then u[1..] else u;
    d != "" && AllDigits(d) && (d[0] == '0' ==> |d| == 1)
  }

  /** An integer part, a `.` and exactly eight fraction digits, as `toFixed(8)` writes a finite double below 1e21. */
  predicate FixedDecimal(t: string) {
    |t| >= 10 && t[|t| - 9] == '.' && AllDigits(t[|t| - 8..]) && IntegerText(t[..|t| - 9])
  }

  /**
    The possible texts of `toFixed(8)` for a result that is not an integer:
    such a result is NaN, an infinity, or a finite double below 2^53 in magnitude.
   */
  predicate FixedText(t: string) {
    t == "NaN" || t == "Infinity" || t == "-Infinity" || FixedDecimal(t)
  }

  /**
    What the calculator relies on of a rendered result: `toString()` never gives
    an empty text nor one with two points, and `toFixed(8)` has the shape above
    whenever it is the text that gets used.
   */
  predicate WellFormed(n: Number) {
    n.shortest != "" && AtMostOneDot(n.shortest) && (!n.isInteger ==> FixedText(n.fixed))
  }
}
