/**
  Key sequences played on a freshly constructed calculator, and what they
  leave as the entry. These are the behaviours the calculator promises its
  user: digits show as typed, operators chain left to right without
  precedence, a second operator in a row replaces the first, and dividing
  by zero leaves the entry alone.
 */
module Sessions {
  import opened JsNumber
  import opened Format
  import opened Accumulator

  /** `n` zero digits. */
  function Zeros(n: nat): string {
    if n == 0 then "" else "0" + Zeros(n - 1)
  }

  /** `ds` without its leading zeros. */
  function Significant(ds: string): (r: string)
    ensures r == "" || r[0] != '0'
    ensures |r| <= |ds| && ds == Zeros(|ds| - |r|) + r
  {
    if ds == "" then "" else if ds[0] == '0' then Significant(ds[1..]) else ds
  }

  /** What the entry reads after the digits `ds` are typed on a cleared calculator. */
  function TypedEntry(ds: string): string {
    var s := Significant(ds);
    if s == "" then "0" else s
  }

  /** Typing one more digit: a lone `0` is replaced, anything else is extended. */
  lemma {:induction false} TypedEntryAppend(ds: string, d: char)
    ensures TypedEntry(ds + [d]) == if TypedEntry(ds) == "0" then [d] else TypedEntry(ds) + [d]
  {
    if ds == "" {
      assert ds + [d] == [d];
      assert [d][1..] == "";
    } else {
      assert (ds + [d])[1..] == ds[1..] + [d];
      if ds[0] == '0' {
        TypedEntryAppend(ds[1..], d);
      }
    }
  }

  /** Digits that do not start with `0` are their own typed entry. */
  lemma TypedEntryVerbatim(ds: string)
    requires ds != "" && ds[0] != '0'
    ensures TypedEntry(ds) == ds
  {
  }

  /**
    Typing the digits `digits` on a new calculator leaves them in the entry
    without their leading zeros, and verbatim when the first is not `0`.
   */
  method TypeDigits(arith: Arithmetic, digits: string) returns (entry: string)
    requires arith.Valid() && AllDigits(digits)
    ensures entry == TypedEntry(digits)
    ensures digits != "" && digits[0] != '0' ==> entry == digits
  {
    var calculator := new Calculator(arith);
    ghost var typed := "";
    var i := 0;
    while i < |digits|
      invariant 0 <= i <= |digits| && typed == digits[..i]
      invariant calculator.Valid() && calculator.arith == arith && !calculator.shouldResetDisplay
      invariant calculator.currentValue == TypedEntry(typed)
    {
      var d := digits[i];
      calculator.AppendNumber(d);
      assert calculator.currentValue == TypedEntry(typed + [d]) by {
        TypedEntryAppend(typed, d);
      }
      typed := typed + [d];
      i := i + 1;
    }
    assert typed == digits;
    entry := calculator.currentValue;
    if digits != "" && digits[0] != '0' {
      TypedEntryVerbatim(digits);
    }
  }

  /**
    `a op1 b op2 c =` with single digits on a new calculator evaluates `(a op1 b) op2 c`: the
    first operation is evaluated when the second operator is pressed, with
    no operator precedence.
   */
  method Chain(arith: Arithmetic, a: char, op1: Op, b: char, op2: Op, c: char) returns (entry: string)
    requires arith.Valid() && IsDigit(a) && IsDigit(b) && IsDigit(c)
    requires arith.parses([a]) && arith.parses([b]) && arith.parses([c])
    requires !(op1 == Divide && arith.isZero([b]))
    requires arith.parses(FormatResult(arith.apply([a], op1, [b])))
    requires !(op2 == Divide && arith.isZero([c]))
    ensures entry == FormatResult(arith.apply(FormatResult(arith.apply([a], op1, [b])), op2, [c]))
  {
    var calculator := new Calculator(arith);
    calculator.AppendNumber(a);
    var _ := calculator.SetOperation(op1);
    calculator.AppendNumber(b);
    var _ := calculator.SetOperation(op2);
    calculator.AppendNumber(c);
    var outcome := calculator.Calculate();
    entry := calculator.currentValue;
  }

  /**
    `a op1 op2 b =` with single digits on a new calculator evaluates `a op2 b`: the second
    operator replaces the first without evaluating anything.
   */
  method ReplaceOperator(arith: Arithmetic, a: char, op1: Op, op2: Op, b: char) returns (entry: string)
    requires arith.Valid() && IsDigit(a) && IsDigit(b)
    requires arith.parses([a]) && arith.parses([b])
    requires !(op2 == Divide && arith.isZero([b]))
    ensures entry == FormatResult(arith.apply([a], op2, [b]))
  {
    var calculator := new Calculator(arith);
    calculator.AppendNumber(a);
    var _ := calculator.SetOperation(op1);
    var _ := calculator.SetOperation(op2);
    calculator.AppendNumber(b);
    var outcome := calculator.Calculate();
    entry := calculator.currentValue;
  }

  /**
    `a ÷ 0 =` on a new calculator reports division by zero and leaves the
    entry at `0`, with the division of `a` still pending.
   */
  method DivideByZeroSession(arith: Arithmetic, a: char)
    returns (outcome: Outcome, entry: string, operand: string, pending: Option<Op>)
    requires arith.Valid() && IsDigit(a)
    requires arith.parses([a]) && arith.parses("0") && arith.isZero("0")
    ensures outcome == DivideByZero && entry == "0" && operand == [a] && pending == Some(Divide)
  {
    var calculator := new Calculator(arith);
    calculator.AppendNumber(a);
    var _ := calculator.SetOperation(Divide);
    calculator.AppendNumber('0');
    outcome := calculator.Calculate();
    entry := calculator.currentValue;
    operand := calculator.previousValue;
    pending := calculator.operation;
  }

  /**
    `a ÷ 0 op` on a new calculator: the chained division fails, is reported
    and changes nothing, yet `setOperation` still makes the entry `0` the
    pending operand of `op`, so the left operand `a` is lost.
   */
  method DivideByZeroInChain(arith: Arithmetic, a: char, op: Op)
    returns (outcome: Outcome, entry: string, operand: string, pending: Option<Op>)
    requires arith.Valid() && IsDigit(a)
    requires arith.parses([a]) && arith.parses("0") && arith.isZero("0")
    ensures outcome == DivideByZero && entry == "0" && operand == "0" && pending == Some(op)
  {
    var calculator := new Calculator(arith);
    calculator.AppendNumber(a);
    var _ := calculator.SetOperation(Divide);
    calculator.AppendNumber('0');
    outcome := calculator.SetOperation(op);
    entry := calculator.currentValue;
    operand := calculator.previousValue;
    pending := calculator.operation;
  }

  /** A second `addDecimal` in a row changes nothing. */
  method AddDecimalTwice(calculator: Calculator)
    requires calculator.Valid()
    modifies calculator
    ensures calculator.Valid() && '.' in calculator.currentValue && !calculator.shouldResetDisplay
    ensures calculator.currentValue ==
      (if old(calculator.shouldResetDisplay) then "0."
       else if '.' in old(calculator.currentValue) then old(calculator.currentValue)
       else old(calculator.currentValue) + ".")
    ensures calculator.previousValue == old(calculator.previousValue)
    ensures calculator.operation == old(calculator.operation)
  {
    calculator.AddDecimal();
    ghost var once := calculator.currentValue;
    calculator.AddDecimal();
    assert calculator.currentValue == once;
  }
}
