# Calculator input accumulator, modelled in Dafny

This project models the browser calculator's `Calculator` class (`script.js`),
minus its DOM and timer wiring. Four fields make up the state:
- `currentValue`: the entry being typed.
- `previousValue`: the pending left operand.
- `operation`: the pending operator.
- `shouldResetDisplay`: when set, the next digit starts a fresh entry.

The class has six operations on that state: `appendNumber`, `addDecimal`,
`backspace`, `clear`, `setOperation` and `calculate`. It also has
`handleAction`, which dispatches action names to them.

Operators chain left to right with no precedence. If an operand was typed
after a pending operator, the next operator press evaluates the pending
operation first.

Files:
- `js_number.dfy` (module `JsNumber`): the JavaScript number operations the
  class uses, kept abstract.
  - An `Arithmetic` value bundles three total functions:
    - `parses`: `parseFloat` is not NaN;
    - `isZero`: `parseFloat(s) === 0`;
    - `apply`: the double operation.
  - `apply` returns a `Number`: whether `result % 1 === 0`, plus the texts of
    `toString()` and `toFixed(8)`.
  - `Arithmetic.Valid` states the only facts the calculator depends on:
    - `toString()` text is non-empty and has at most one point;
    - `toFixed(8)` text of a non-integer result has JavaScript's fixed-point
      shape (`FixedText`).
  - The calculator receives this value in its constructor.
- `format.dfy` (module `Format`): the result formatting, written out
  concretely. `StripTrailingZeros` is `replace(/\.?0+$/, '')` and is proved
  to remove exactly the leftmost match of that pattern.
- `accumulator.dfy` (module `Accumulator`): class `Calculator`.
  - It has the four fields and one method per source method. Each method
    states its whole new state.
  - The object invariant `Valid()` says the entry is never empty and never
    holds two decimal points.
- `sessions.dfy` (module `Sessions`): key sequences played on a new
  calculator, with what they leave in the entry:
  - typed digits;
  - left-to-right chaining;
  - a replaced operator;
  - division by zero, alone and inside a chain.

`calculate` returns an `Outcome`. `DivideByZero` is returned where the source
calls `showError`. `Skipped` covers the other silent returns. `setOperation`
returns the outcome of the `calculate` it chains, so a division by zero inside
a chain (`a ÷ 0 op`) is reported too; it returns `Skipped` when it chains no
evaluation.

Behaviours of script.js that the model keeps:
- `setOperation` overwrites the pending operator and operand, and sets the
  flag, even when its chained `calculate` hits a division by zero. In
  `a ÷ 0 op` the entry `0` becomes the pending operand of `op`, so `a` is lost.
- The entry is not always a non-negative decimal literal. It can hold any
  rendered result, such as `-5`, `Infinity`, `NaN`, `1e+21` or `-0` (the
  strip of `-0.00000000`). It can also hold a bare `-` after `backspace`.
  `parseFloat('-')` is NaN, so with such an operand `calculate` returns early. The model's
  invariant keeps only what holds for all of these: the entry is non-empty
  and has at most one point.
- On division by zero, `showError` itself calls `clear` 1500 ms later. That
  timer is not modelled.

## Model

| member | source | states |
|---|---|---|
| `Accumulator.Calculator.constructor` | script.js:2-11 | a new calculator has entry `0`, no pending operand (`''`), no operator and the reset flag off |
| `Accumulator.Calculator.AppendNumber` | script.js:95-107 | after an operator or result the digit replaces the entry and clears the flag; otherwise a lone `0` is replaced and any other entry is extended by the digit; operand and operator are untouched; the entry stays non-empty with at most one point |
| `Accumulator.Calculator.HandleAction` | script.js:109-136 | each of the eight action names has the full effect of the operation it names: the four operator names select `+ - × ÷`, report skipped, division by zero or evaluated for the chained `calculate` under its guards, and make the entry the chained result exactly when the pending operation evaluates; `equals` reports skipped, division by zero or evaluated under the same guards as `calculate`, with the formatted result as the new entry on success; any other name leaves the state unchanged |
| `Accumulator.Calculator.Clear` | script.js:138-144 | from any state, restores exactly the constructor's state, so a second clear changes nothing |
| `Accumulator.Calculator.Backspace` | script.js:146-153 | an entry longer than one character loses exactly its last character, a one-character entry becomes `0`, so the entry is never empty; the other three fields are unchanged |
| `Accumulator.Calculator.AddDecimal` | script.js:155-163 | after an operator or result the entry becomes `0.` and the flag clears; an entry that already has a point is unchanged; otherwise one point is appended; afterwards the entry always contains a point, and never two |
| `Accumulator.Calculator.SetOperation` | script.js:165-172 | reports the chained evaluation as skipped (no operator pending, or the flag set, or an operand that does not parse), division by zero, or evaluated; always ends with the new operator pending, the entry as pending operand and the flag set; the entry is the chained result when a pending operation was evaluated, and unchanged when the flag was already set or the evaluation was skipped or divided by zero |
| `Accumulator.Calculator.Calculate` | script.js:174-220 | evaluates exactly when an operator is pending, the flag is off and both operands parse, and the operation is not a division by a zero entry; on every other path all four fields are unchanged (division by zero is reported); on success the formatted result is the entry, the operator and operand are cleared and the flag is set |
| `Format.DropZeros` | script.js:213 | the result is a prefix of the text, the cut-off part is all zeros, and the result does not end with `0` |
| `Format.StripTrailingZeros` | script.js:213 | the replacement only ever cuts a suffix off the text |
| `Format.StripRemovesLeftmostMatch` | script.js:213 | the strip removes precisely the leftmost suffix matched by `\.?0+`, and nothing when no suffix matches |
| `Format.StripFixedText` | script.js:210-214 | on any `toFixed(8)` text the strip leaves a non-empty text with at most one point, no bare trailing point, no trailing `0` after the point, and the whole integer part |
| `Format.FormatResult` | script.js:209-214 | a formatted result is never empty and has at most one point; a non-integer result has no trailing `0` after its point and no trailing bare point |
| `Sessions.Significant` | script.js:100-104 | the typed digits are a run of zeros followed by the result, and the result does not start with `0`: exactly the leading zeros are dropped |
| `Sessions.TypedEntryAppend` | script.js:100-104 | typing one more digit on a cleared calculator replaces a lone `0` and otherwise extends the entry |
| `Sessions.TypedEntryVerbatim` | script.js:100-104 | digits that do not start with `0` are exactly what the entry shows once they are typed |
| `Sessions.TypeDigits` | script.js:95-107 | digits typed on a new calculator leave them in the entry without leading zeros (`0` if all are zeros), and verbatim when the first is not `0` |
| `Sessions.Chain` | script.js:165-172 | for single-digit operands, `a op1 b op2 c =` yields `(a op1 b) op2 c`, evaluated left to right without precedence |
| `Sessions.ReplaceOperator` | script.js:165-172 | for single-digit operands, `a op1 op2 b =` yields `a op2 b`: a second operator replaces the first without evaluating |
| `Sessions.DivideByZeroSession` | script.js:198-202 | `a ÷ 0 =` reports division by zero and leaves the entry `0`, with `a` still the pending operand and `÷` still the pending operator |
| `Sessions.DivideByZeroInChain` | script.js:165-172 | `a ÷ 0 op` reports division by zero from the chained `calculate`, and leaves entry `0`, pending operand `0` and operator `op`: the failed chained division does not stop the overwrite |
| `Sessions.AddDecimalTwice` | script.js:155-163 | two decimal-point presses in a row leave the same state as one: the entry as after one press, the flag off, and the pending operand and operator untouched |

## Left out

- The DOM and event wiring:
  - the constructor's `getElementById`;
  - `initializeButtons` and `initializeKeyboard`, including the key-to-action mapping;
  - `animateButton` and its timer;
  - the `DOMContentLoaded` start-up.
- `showError`: writing "Error" to the display and calling `clear` after 1500 ms are presentation and timing. The model only reports `DivideByZero`, from `calculate` and from the `calculate` that `setOperation` chains, and leaves the state as `calculate` left it.
- `updateDisplay`: it renders long entries through `parseFloat(...).toExponential(6)` and writes to the DOM. It only reads `currentValue`.
- JavaScript double arithmetic and rendering: `parseFloat`, `+ - * /`, `% 1`, `toString`, `toFixed(8)`. These are parameters of the calculator (`Arithmetic`), constrained only by `Arithmetic.Valid`. No exact decimal results are claimed.
- The `default: return` branch of the operator switch in `calculate` does not appear. Operators are a four-valued datatype, and `handleAction` only ever passes those four.
- `Accumulator.Calculator.AppendNumber` requires a digit. Its callers only pass the `data-number` attribute of a digit button or a key between `0` and `9`.
- `Accumulator.Calculator.HandleAction` returns the outcome of `calculate` for `equals` and of `setOperation` for the operator actions; the source discards it.
- `Accumulator.Calculator.SetOperation` returns the outcome of the `calculate` it chains; the source returns nothing, and the returned value only makes the `showError` call visible.
- `Sessions.Chain` and `Sessions.ReplaceOperator` type each operand as one digit; multi-digit operands follow from `Sessions.TypeDigits` but are not chained in a session.
- app.py: a Flask server with static routes and a JSON endpoint that repeats the arithmetic in Python floats.
