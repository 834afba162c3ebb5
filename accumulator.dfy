/**
  The calculator's input accumulator (script.js, class `Calculator`): the
  entry being typed, the pending left operand, the pending operator and the
  flag that makes the next digit start a fresh entry. Operators are chained
  left to right without precedence: pressing an operator while another one
  is pending, after a second operand was typed, evaluates the pending one
  first.
 */
module Accumulator {
  import opened JsNumber
  import opened Format

  datatype Option<T> = None | Some(value: T)

  /**
    What a call of `calculate` did. `DivideByZero` stands for the call of
    `showError`; both other silent returns of `calculate` are `Skipped`.
    `setOperation` reports the outcome of the `calculate` it chains, and
    `Skipped` when it chains none.
   */
  datatype Outcome = Skipped | DivideByZero | Evaluated

  /** The names of the actions `handleAction` dispatches on. */
  const ACTIONS: set<string> :=
    {"clear", "backspace", "decimal", "add", "subtract", "multiply", "divide", "equals"}

  /** The operator each operator action selects. */
  const OPERATOR_ACTIONS: map<string, Op> :=
    map["add" := Add, "subtract" := Subtract, "multiply" := Multiply, "divide" := Divide]

  /** A well-formed entry: never empty, at most one decimal point. */
  predicate EntryShaped(s: string) {
    s != "" && AtMostOneDot(s)
  }

  class Calculator {
    /** The number semantics; stands for JavaScript's `parseFloat`, operators and renderings. */
    const arith: Arithmetic
    var currentValue: string
    var previousValue: string
    var operation: Option<Op>
    var shouldResetDisplay: bool

    ghost predicate Valid()
      reads this
    {
      arith.Valid() && EntryShaped(currentValue)
    }

    /** The state the constructor and `clear` leave. */
    predicate Initial()
      reads this
    {
      currentValue == "0" && previousValue == "" && operation == None && !shouldResetDisplay
    }

    /**
      `calculate` gets past its guards: an operator is pending, an operand was
      typed after it, and both operands parse as numbers.
     */
    predicate Ready()
      reads this
    {
      operation.Some? && !shouldResetDisplay && arith.parses(previousValue) && arith.parses(currentValue)
    }

    /** `calculate` would divide by an entry that is zero. */
    predicate DividesByZero()
      reads this
    {
      Ready() && operation.value == Divide && arith.isZero(currentValue)
    }

    /** The formatted result of the pending operation. */
    function PendingResult(): string
      reads this
      requires Valid() && Ready()
    {
      FormatResult(arith.apply(previousValue, operation.value, currentValue))
    }

    constructor(arith: Arithmetic)
      requires arith.Valid()
      ensures Valid() && Initial() && this.arith == arith
    {
      this.arith := arith;
      currentValue := "0";
      previousValue := "";
      operation := None;
      shouldResetDisplay := false;
    }

    /** `appendNumber`: a digit key. */
    method AppendNumber(number: char)
      requires Valid() && IsDigit(number)
      modifies this
      ensures Valid()
      ensures old(shouldResetDisplay) ==> currentValue == [number]
      ensures !old(shouldResetDisplay) && old(currentValue) == "0" ==> currentValue == [number]
      ensures !old(shouldResetDisplay) && old(currentValue) != "0" ==> currentValue == old(currentValue) + [number]
      ensures !shouldResetDisplay
      ensures previousValue == old(previousValue) && operation == old(operation)
    {
      if shouldResetDisplay {
        currentValue := [number];
        shouldResetDisplay := false;
      } else {
        if currentValue == "0" {
          currentValue := [number];
        } else {
          currentValue := currentValue + [number];
        }
      }
    }

    /** `handleAction`: dispatch of a button or key action by name; other names do nothing. */
    method HandleAction(action: string) returns (outcome: Outcome)
      requires Valid()
      modifies this
      ensures Valid()
      ensures action !in ACTIONS ==> unchanged(this)
      ensures action != "equals" && action !in OPERATOR_ACTIONS ==> outcome == Skipped
      ensures action == "clear" ==> Initial()
      ensures action == "backspace" ==>
        && currentValue == (if |old(currentValue)| > 1 then old(currentValue)[..|old(currentValue)| - 1] else "0")
        && previousValue == old(previousValue) && operation == old(operation)
        && shouldResetDisplay == old(shouldResetDisplay)
      ensures action == "decimal" ==>
        && currentValue ==
          (if old(shouldResetDisplay) then "0."
           else if '.' in old(currentValue) then old(currentValue)
           else old(currentValue) + ".")
        && !shouldResetDisplay
        && previousValue == old(previousValue) && operation == old(operation)
      ensures action in OPERATOR_ACTIONS ==>
        && outcome == (if !old(Ready()) then Skipped else if old(DividesByZero()) then DivideByZero else Evaluated)
        && currentValue ==
          (if old(Ready()) && !old(DividesByZero()) then old(PendingResult()) else old(currentValue))
        && operation == Some(OPERATOR_ACTIONS[action])
        && previousValue == currentValue && shouldResetDisplay
      ensures action == "equals" ==>
        && outcome == (if !old(Ready()) then Skipped else if old(DividesByZero()) then DivideByZero else Evaluated)
        && (outcome == Evaluated ==>
              && currentValue == old(PendingResult())
              && operation == None && previousValue == "" && shouldResetDisplay)
        && (outcome != Evaluated ==> unchanged(this))
    {
      outcome := Skipped;
      match action {
        case "clear" => Clear();
        case "backspace" => Backspace();
        case "decimal" => AddDecimal();
        case "add" => outcome := SetOperation(Add);
        case "subtract" => outcome := SetOperation(Subtract);
        case "multiply" => outcome := SetOperation(Multiply);
        case "divide" => outcome := SetOperation(Divide);
        case "equals" => outcome := Calculate();
        case _ =>
      }
    }

    /** `clear`: back to the state the constructor sets up, whatever the state was. */
    method Clear()
      requires Valid()
      modifies this
      ensures Valid() && Initial()
    {
      currentValue := "0";
      previousValue := "";
      operation := None;
      shouldResetDisplay := false;
    }

    /** `backspace`: drop the last character, and never leave the entry empty. */
    method Backspace()
      requires Valid()
      modifies this
      ensures Valid()
      ensures |old(currentValue)| > 1 ==> currentValue == old(currentValue)[..|old(currentValue)| - 1]
      ensures |old(currentValue)| <= 1 ==> currentValue == "0"
      ensures previousValue == old(previousValue) && operation == old(operation)
      ensures shouldResetDisplay == old(shouldResetDisplay)
    {
      if |currentValue| > 1 {
        currentValue := currentValue[..|currentValue| - 1];
      } else {
        currentValue := "0";
      }
    }

    /** `addDecimal`: a point starts `0.` after an operator or result, and is never added twice. */
    method AddDecimal()
      requires Valid()
      modifies this
      ensures Valid()
      ensures old(shouldResetDisplay) ==> currentValue == "0."
      ensures !old(shouldResetDisplay) && '.' in old(currentValue) ==> currentValue == old(currentValue)
      ensures !old(shouldResetDisplay) && '.' !in old(currentValue) ==> currentValue == old(currentValue) + "."
      ensures '.' in currentValue && !shouldResetDisplay
      ensures previousValue == old(previousValue) && operation == old(operation)
    {
      if shouldResetDisplay {
        currentValue := "0.";
        shouldResetDisplay := false;
      } else if '.' !in currentValue {
        currentValue := currentValue + ".";
      }
    }

    /**
      `setOperation`: evaluate the pending operation if an operand was typed
      after it, then make the entry the pending operand of `op`. The operator
      and operand are overwritten even when that evaluation divided by zero.
      The outcome of the chained evaluation is reported, `Skipped` when there
      was none.
     */
    method SetOperation(op: Op) returns (outcome: Outcome)
      requires Valid()
      modifies this
      ensures Valid()
      ensures outcome == (if !old(Ready()) then Skipped else if old(DividesByZero()) then DivideByZero else Evaluated)
      ensures currentValue ==
        if old(Ready()) && !old(DividesByZero()) then old(PendingResult()) else old(currentValue)
      ensures old(shouldResetDisplay) ==> currentValue == old(currentValue)
      ensures operation == Some(op) && previousValue == currentValue && shouldResetDisplay
    {
      outcome := Skipped;
      if operation.Some? && !shouldResetDisplay {
        outcome := Calculate();
      }
      operation := Some(op);
      previousValue := currentValue;
      shouldResetDisplay := true;
    }

    /**
      `calculate`: combine the pending operand and the entry with the pending
      operator. Nothing changes when no operator is pending, when no operand
      was typed since it, when an operand does not parse, or on division by
      zero; otherwise the formatted result becomes the entry and the pending
      operation is cleared.
     */
    method Calculate() returns (outcome: Outcome)
      requires Valid()
      modifies this
      ensures Valid()
      ensures outcome == (if !old(Ready()) then Skipped else if old(DividesByZero()) then DivideByZero else Evaluated)
      ensures outcome != Evaluated ==> unchanged(this)
      ensures outcome == Evaluated ==>
        && currentValue == old(PendingResult())
        && previousValue == "" && operation == None && shouldResetDisplay
    {
      if operation.None? || shouldResetDisplay {
        return Skipped;
      }
      var prev := previousValue;
      var current := currentValue;
      if !arith.parses(prev) || !arith.parses(current) {
        return Skipped;
      }
      var result: Number;
      match operation.value {
        case Add => result := arith.apply(prev, Add, current);
        case Subtract => result := arith.apply(prev, Subtract, current);
        case Multiply => result := arith.apply(prev, Multiply, current);
        case Divide =>
          if arith.isZero(current) {
            return DivideByZero;
          }
          result := arith.apply(prev, Divide, current);
      }
      currentValue := FormatResult(result);
      operation := None;
      previousValue := "";
      shouldResetDisplay := true;
      outcome := Evaluated;
    }
  }
}
