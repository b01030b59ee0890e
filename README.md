# CalculatorModel in Dafny

A model of the reverse-Polish calculator engine `CalculatorModel` of SwiftCalculator.
The engine keeps a stack of tokens (operands, variable references, the constant π and
unary and binary operators) in the order the user entered them. It evaluates the stack
from its end, renders it as infix text, and offers push, operate, undo and clear.

- `Ops.dfy` (module `Ops`) holds the token type `Op` and the operator kinds. It also holds
  the `Numerics` record of floating-point primitives the engine takes from the platform,
  what each operator kind computes, the initializer's `learnOp` as the map update
  `Learn`, and the nine-entry operator registry.
- `Reducers.dfy` (module `Reducers`) holds the two recursive reducers `evaluate(ops:)` and
  `expression(ops:)` as functions, and the pieces of the `description` getter
  (`Subexpressions`, `Reversed`, `Join`). It also holds lemmas about operand order,
  variable lookup and the description.
- `Trees.dfy` (module `Trees`) gives a reference meaning. Expression trees have a postfix
  token sequence, a value in the usual infix reading and an infix text. Lemmas show
  that each reducer takes exactly one tree off the end of a stack, and that whatever it
  takes off is one tree.
- `Engine.dfy` (module `Engine`) holds the class `CalculatorModel`. It has the fields
  `opStack`, `knownOps` and `variableValues`. The constructor fills `knownOps` with nine
  `Learn` updates. The push, operate, undo and clear methods update `opStack` in place;
  no method writes `variableValues`, which the user interface assigns directly, as in
  the source. Each stack-changing method's contract gives the new stack in terms of the
  old one (`Clear` empties it), and every returned value is tied to
  `Reducers.Evaluate` of the new stack. `Description` keeps the source's do-while and for
  loops and is tied to `Reducers.Join` of `Reducers.Subexpressions`.
- `Scenarios.dfy` (module `Scenarios`) holds call sequences, each on a fresh engine: 8, 2, ÷;
  5, 3, −; undo on an empty stack, and evaluate after clear; an unknown symbol; √ on an
  empty stack; a variable set and then removed; the text of 3, 4, +.

Numbers are `real`. `+`, `×`, `−` and `±` are exact real arithmetic. Division, `sqrt`,
`cos`, `sin`, `M_PI` and the text of a number (`"\(operand)"`) are fields of a
`Numerics` value given to the engine's constructor. The model assumes nothing about
them.

Three points of the code that are easy to misread, and that the model follows exactly:
- A unary or binary operator that lacks an operand makes `evaluate(ops:)` return nil
  with its whole input as remainder (CalculatorModel.swift:149). The remainder is not
  the sub-evaluation's.
- An unset variable yields nil but is still consumed: its remainder is the input
  without the variable (CalculatorModel.swift:131).
- `description` reverses the list of extracted texts (newest first) and then joins it
  with ", ". It never reverses the joined string.

## Model

| member | source | states |
|---|---|---|
| `Ops.Lookup` | CalculatorModel.swift:131 | the dictionary subscript `variableValues[symbol]`: the entry, or nil when the key is absent (a plain definition, no contract) |
| `Ops.Describe` | CalculatorModel.swift:21-36 | `Op.description`: the interpolated number for an operand, the symbol for every other token (a plain definition, no contract) |
| `Ops.ConstantValue` | CalculatorModel.swift:57 | the closure registered for π returns the platform's `M_PI` (a plain definition, no contract) |
| `Ops.ApplyUnary` | CalculatorModel.swift:53-56 | the closures registered for √, cos, sin and ±: the platform's sqrt, cos, sin, and negation (a plain definition, no contract) |
| `Ops.ApplyBinary` | CalculatorModel.swift:49-52 | the closures registered for ×, ÷, +, −, called as (operand1, operand2): ÷ is operand2 / operand1 and − is operand2 − operand1 (a plain definition; `Trees.SwappedOperands` states what it means) |
| `Ops.Learn` | CalculatorModel.swift:44-46 | `knownOps[op.description] = op` as a map update (a plain definition; `Ops.LearnEntry` states what it means) |
| `Ops.LearnEntry` | CalculatorModel.swift:44-46 | learning a token adds or replaces exactly the entry keyed by its description; every other entry is kept, and no other key appears |
| `Ops.Registry` | CalculatorModel.swift:49-57 | the nine tokens the initializer learns, keyed by their symbols (a map literal; `Ops.LearnedRegistry` and `Ops.RegistryShape` state what it holds) |
| `Ops.LearnedRegistry` | CalculatorModel.swift:48-57 | learning the nine tokens one after another, in the initializer's order, starting from the empty table, yields exactly the registry |
| `Ops.RegistryShape` | CalculatorModel.swift:43-58 | the registry has exactly the keys ×, ÷, +, −, √, cos, sin, ±, π; each entry is an operator or constant token whose own symbol and description are its key |
| `Reducers.Evaluate` | CalculatorModel.swift:122-150 | the remainder is never longer than the input, and strictly shorter on success, which is what makes the recursion on the second operand's remainder terminate |
| `Reducers.EvaluateRemainder` | CalculatorModel.swift:122-150 | the remainder is always a prefix of the input; a failure hands back the whole input unless the last token is a variable missing from the table, which is then consumed alone |
| `Reducers.Expression` | CalculatorModel.swift:86-120 | the remainder is never longer than the input; a text is produced exactly when the input is non-empty, and then at least one token is consumed |
| `Reducers.ExpressionRemainder` | CalculatorModel.swift:86-120 | the remainder is always a prefix of the input |
| `Reducers.Subexpressions` | CalculatorModel.swift:62-72 | the extracted texts are empty exactly for the empty stack and are never more than the tokens |
| `Reducers.Reversed` | CalculatorModel.swift:75 | `desc.reverse()` keeps the length |
| `Reducers.ReversedAt` | CalculatorModel.swift:75 | element i of the reversed list is element n-1-i of the input |
| `Reducers.SubexpressionsStep` | CalculatorModel.swift:64-72 | one round of the do-while loop (extract the last expression, append its text, continue on the remainder) keeps "texts of what is left, then the collected texts reversed" equal |
| `Reducers.Join` | CalculatorModel.swift:74-81 | the texts separated by ", ", and "" for none: what the joining loop builds (a plain definition; `Reducers.JoinStep` and `Engine.CalculatorModel.Description` connect it to the loop) |
| `Reducers.JoinStep` | CalculatorModel.swift:74-81 | one round of the joining loop appends the next text, preceded by ", " unless it is the first |
| `Reducers.EvaluateReadsOnlyItsVariables` | CalculatorModel.swift:122-150 | two variable tables that agree on every variable the stack mentions give the same evaluation, result and remainder |
| `Reducers.EvaluateOperandOnTop` | CalculatorModel.swift:128-129 | an operand on top of any stack evaluates to itself and leaves exactly the stack below it |
| `Reducers.EvaluateVariableOnTop` | CalculatorModel.swift:130-131 | a variable on top of any stack evaluates to its table entry, or nil when the key is absent |
| `Reducers.BinaryOperandOrder` | CalculatorModel.swift:139-145 | a binary operator calls its closure as (operand1, operand2), operand1 being the expression nearer the end, with operand2's remainder; if either operand is missing the result is nil and the whole input is handed back |
| `Reducers.OperandOrderExamples` | CalculatorModel.swift:49-52 | 8, 2, ÷ is the platform's 8 / 2 and 5, 3, − is 2 |
| `Reducers.UnaryWithoutOperand` | CalculatorModel.swift:134-149 | √ alone on the stack evaluates to nil and hands back the one-token stack |
| `Reducers.DescriptionOfSum` | CalculatorModel.swift:105-110 | with numbers printed as 3.0 and 4.0, the stack 3, 4, + is described as "(3.0+4.0)" |
| `Reducers.DescriptionOfTwoOperands` | CalculatorModel.swift:60-84 | the stack 3, 4 is described as "3.0, 4.0", oldest first |
| `Trees.SwappedOperands` | CalculatorModel.swift:49-52 | the registered closure with operand1 nearer the end equals the usual infix operation with the operands swapped: ÷ and − take the earlier-pushed operand as dividend and minuend |
| `Trees.EvaluatePostfix` | CalculatorModel.swift:122-150 | on any stack ending with the postfix tokens of a complete tree, the evaluation result is the tree's infix value; when that value exists, exactly the tokens before the tree remain |
| `Trees.ExpressionPostfix` | CalculatorModel.swift:86-120 | on any stack ending with the postfix tokens of a complete tree, the text is the tree's infix rendering, binary as "(left symbol right)" and unary as "symbol(arg)", and exactly the tokens before the tree remain |
| `Trees.EvaluateParses` | CalculatorModel.swift:122-150 | conversely, a successful evaluation consumed exactly the postfix tokens of one complete tree whose value is the result |
| `Trees.ExpressionParses` | CalculatorModel.swift:86-120 | conversely, on a non-empty stack the text is the rendering of one tree whose tokens were consumed; missing operands are "?" holes, and a hole means the stack ran out, so nothing remains |
| `Trees.UnaryText` | CalculatorModel.swift:98-104 | a unary operator over a known operand tree renders as "symbol(arg)", with "?" for a missing operand, leaving the operand's remainder |
| `Trees.BinaryText` | CalculatorModel.swift:105-117 | a binary operator over known operand trees renders as "(left symbol right)", with "?" for each missing operand, leaving the left operand's remainder |
| `Trees.SubexpressionsAppendTree` | CalculatorModel.swift:62-72 | a complete tree entered on top of any stack adds exactly its infix text after the texts of the stack |
| `Trees.SubexpressionsOfTrees` | CalculatorModel.swift:60-84 | a stack holding several complete trees entered one after another yields their infix texts in entry order, oldest first |
| `Engine.CalculatorModel.constructor` | CalculatorModel.swift:43-58 | after the nine `Learn` updates of `knownOps`, a new engine has an empty stack, an empty variable table and exactly the nine-operator registry |
| `Engine.CalculatorModel.Evaluate` | CalculatorModel.swift:165-169 | the result is that of reducing the whole stack once from its end, nil on the empty stack; nothing changes |
| `Engine.CalculatorModel.Clear` | CalculatorModel.swift:152-155 | the stack becomes empty and the variable table is unchanged |
| `Engine.CalculatorModel.Undo` | CalculatorModel.swift:157-163 | a non-empty stack loses exactly its last token and keeps the rest; an empty one stays empty and yields nil; the result is the new stack's evaluation |
| `Engine.CalculatorModel.PushOperand` | CalculatorModel.swift:171-175 | the stack grows by exactly one Operand token and the result is exactly the pushed number, whatever was below it |
| `Engine.CalculatorModel.PushVariable` | CalculatorModel.swift:179-183 | the stack grows by exactly one Variable token and the result is the table's value for the symbol, or nil when absent |
| `Engine.CalculatorModel.PerformOperation` | CalculatorModel.swift:185-191 | a registered symbol appends exactly its registry token; any other symbol leaves the stack unchanged; the result is the new stack's evaluation |
| `Engine.CalculatorModel.Description` | CalculatorModel.swift:60-84 | the text is the stack's extracted sub-expressions, oldest first, joined by ", "; "" for the empty stack |
| `Scenarios.DivisionScenario` | CalculatorModel.swift:50 | through the engine, 8, 2, ÷ yields the platform's 8 / 2 |
| `Scenarios.SubtractionScenario` | CalculatorModel.swift:52 | through the engine, 5, 3, − yields 2 |
| `Scenarios.UndoAndClearScenario` | CalculatorModel.swift:152-169 | undo on a new engine yields nil, and evaluate after clear yields nil |
| `Scenarios.UnknownSymbolScenario` | CalculatorModel.swift:185-191 | an unknown symbol leaves the value 3 unchanged |
| `Scenarios.MissingOperandScenario` | CalculatorModel.swift:185-191 | √ on an empty stack leaves one token and yields nil |
| `Scenarios.VariableScenario` | CalculatorModel.swift:177-183 | with M set to 10 pushing M yields 10; after M is removed from the table, re-evaluating the same stack yields nil |
| `Scenarios.DescriptionScenario` | CalculatorModel.swift:60-120 | through the engine, 3, 4, + is described as "(3.0+4.0)" when numbers print with one decimal |

## Left out

- Calculator/ViewController.swift is not part of this model. It is the UIKit layer:
  outlets, actions, digit entry, backspace, display-text parsing with
  `NSNumberFormatter`, and the flag for a number being typed. It only calls into the engine.
- IEEE-754 `Double` semantics are not modelled. `+`, `×`, `−` and `±` are exact on
  `real`, with no rounding, overflow, infinities or NaN.
- Division, `sqrt`, `cos`, `sin`, `M_PI` and the text of a number are parameters with no
  properties assumed. So the model says nothing about NaN from `sqrt` of a negative
  number, about division by zero, or about the digits `"\(operand)"` prints.
- The closures stored in tokens are replaced by operator kinds, so tokens can be
  compared. `ApplyUnary`, `ApplyBinary` and `ConstantValue` give each kind the closure
  registered for it.
- `Printable` conformance and `keepCapacity` on `removeAll` are not modelled; they change
  nothing observable.
- Access control is not modelled: `opStack` and `knownOps` are private in the source and
  are public fields here. No method writes `knownOps` after the constructor, which is
  true of the source, where `learnOp` is nested in `init`. A client of the model could
  still assign the field directly, so `PerformOperation` requires the invariant
  `Valid()`, that `knownOps` still equals the registry.
- String comparison is code point by code point. Swift's `String` equality and
  dictionary keys use Unicode canonical equivalence. The nine registry symbols have no
  decomposed forms, so only variable names typed in two equivalent forms would behave
  differently.
