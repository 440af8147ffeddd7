# History calculator: session, history and undo/redo in Dafny

This project models the core of a command-line calculator. The calculator evaluates `add`, `sub`, `mul` and `div` on two numbers and keeps an ordered history of rows `(operation, a, b, result)`. It can undo and redo any change to that history, and it saves the history to a CSV file and loads it back.

The model has one module per source file:

- `Arithmetic` holds the four operations, as a closed datatype over `real`.
- `Models` holds `Calculation`.
- `Factory` holds the registry and `create`.
- `History` holds the `CalculationHistory` class. It has a `rows: seq<Row>` field, and its `load` works over an already-read table.
- `Facade` holds the undo/redo controller, which is the `Calculator` class.
- `Memento` holds `MementoCaretaker`.
- `InputValidators`, `Config` and `Cli` cover `input_validators.py`, `calculator_config.py` and `cli.py`.
- `Text` defines Python's `strip`, `lower`, `split` and `join` as the core uses them.
- `Errors` gives the exceptions as values.
- `Numbers` supplies the float parser and renderer as parameters.

Imperative source is modelled as classes, and each of those classes is proved against functions on values:

- Each `Calculator` method is proved to perform one step function on a `Session` value. A `Session` holds the rows and the two snapshot stacks. The step functions are `ExecuteStep`, `UndoStep`, `RedoStep`, `ClearStep`, `LoadStep` and `AutoLoadStep`.
- `Cli.HandleLine` is proved to perform `Cli.Respond`.
- `CalculationHistory.FormatLines` is a loop proved to produce `History.Listing`.

The properties about whole runs of actions are lemmas over these functions:

- undo followed by redo is the identity;
- `n` undos take back `n` recorded changes;
- `k` redos then replay the first `k` of them.

`execute` records its undo entry after the factory lookup but before it computes the result (facade.py:61-64). So a division by zero fails and adds no row, yet it still pushes an undo entry and empties the redo stack. `Facade.FailedDivisionTakesAnUndo` works through a concrete sequence: after `add 2 3` and a failed `div 1 0`, the first undo leaves the one row in place. Under a transactional reading (compute first, record only on success), that undo would empty the history. The model follows the code. In the same way, `load` records before it reads the file, once the file is known to exist. A load that then fails on its contents keeps the rows, but it still pushes an undo entry.

The tests in tests/test_cli.py:60-73 expect `pow` and `root`. The registry in calculation/factory.py:14-20 registers only four operations, and the model follows the registry (`Factory.CreateRejectsPow`).

## Model

| member | source | states |
|---|---|---|
| Errors.Error.Message | calculator-app/app/calculation/factory.py:29 | Every exception text is non-empty; both operand parsers say `Inputs must be numbers.` (cli.py:29, input_validators.py:12); the unsupported-operation text ends with the name, the file-not-found text with the path (history.py:79) and the non-numeric text with the column |
| Arithmetic.Operation.Compute | calculator-app/app/operation/arithmetic.py:6-34 | Fails exactly for `div` with a zero divisor, and then with the divide-by-zero error; the other operations never fail |
| Arithmetic.NamesDistinct | calculator-app/app/operation/arithmetic.py:7-28 | The four operation names `add`, `sub`, `mul`, `div` are pairwise distinct, so a name identifies its operation |
| Models.Calculation.Result | calculator-app/app/calculation/models.py:16-17 | `result()` fails exactly when the operation is division and `b` is zero, passing on the operation's error |
| Models.Calculation.Format | calculator-app/app/calculation/models.py:19-20 | `format()` fails exactly when `result()` fails; otherwise it is the line `<name> <a> <b> = <result>` |
| Models.FormatLineWords | calculator-app/app/calculation/models.py:19-20 | A display line splits back into its operation, two operands, `=` and result when each is one blank-free word |
| Factory.Supported | calculator-app/app/calculation/factory.py:22-24 | `supported` is exactly `add, sub, mul, div`, in registration order |
| Factory.LookupMatchesNames | calculator-app/app/calculation/factory.py:14-20 | Each operation is registered under its own name; a key is found iff it is a supported name, and the operation found has that key as its name |
| Factory.Create | calculator-app/app/calculation/factory.py:26-30 | Succeeds iff the stripped, lower-cased name is supported, whatever the operands (division by zero included); the calculation carries that operation and `a`, `b` unchanged; otherwise it fails with `Unsupported operation: <normalised name>` |
| Factory.CreateNormalizes | calculator-app/app/calculation/factory.py:27 | Only the normalised name matters: `create(name)` equals `create(name.strip().lower())` |
| Factory.CreateByName | calculator-app/app/calculation/factory.py:26-30 | Creating by an operation's own name always yields that operation with the operands unchanged |
| Factory.CreatePaddedUpperCase | calculator-app/app/calculation/factory.py:27 | `" ADD "` resolves to addition |
| Factory.CreateRejectsPow | calculator-app/app/calculation/factory.py:28-29 | `pow` is rejected as `Unsupported operation: pow` |
| History.Listing | calculator-app/app/calculation/history.py:45-56 | `format_lines` is never empty; it is exactly `["(no history)"]` iff there are no rows; otherwise one line `<op> <a> <b> = <result>` per row, in row order |
| History.RowLineIsNotSentinel | calculator-app/app/calculation/history.py:45-56 | No row's line can be mistaken for the `(no history)` sentinel |
| History.DecodeTable | calculator-app/app/calculation/history.py:83-95 | Missing required columns fail with exactly the missing names, in canonical order; with all of them present, decoding succeeds iff every `a`, `b` and `result` cell is a number, and otherwise fails naming the first of `a`, `b`, `result` (in that order) with a bad cell; on success, row `i` takes its operation and numbers from record `i`'s cells under the required columns, the stored result kept as is |
| History.DecodeNamesMissingColumn | calculator-app/app/calculation/history.py:83-85 | A table lacking one required column fails, and the error names that column |
| History.DecodeRejectsNonNumeric | calculator-app/app/calculation/history.py:90-95 | A table with all required columns and one unparseable `a`, `b` or `result` cell fails with a non-numeric-column error, naming `a` when the bad cell is under `a` |
| History.DecodeEncode | calculator-app/app/calculation/history.py:66-95 | Saving rows and loading the saved table gives back the same rows in the same order, whenever the float reader reads back each number the rows hold as the renderer writes it |
| History.EncodeTable | calculator-app/app/calculation/history.py:66-71 | The written table has exactly the four required columns in canonical order and one full record per row |
| History.DecodeIgnoresExtraColumn | calculator-app/app/calculation/history.py:87-88 | A non-required column appended at the end of the header (and of every record) changes nothing about what a table decodes to |
| History.LoadFile | calculator-app/app/calculation/history.py:73-95 | An absent file fails with `History file not found: <path>`; an unreadable one fails as malformed; a present one gives exactly what its table decodes to, so success means the file held a table with every required column and one row per record |
| History.CalculationHistory.constructor | calculator-app/app/calculation/history.py:23-27 | A new history has no rows |
| History.CalculationHistory.Add | calculator-app/app/calculation/history.py:29-36 | Appends exactly the row `(name, a, b, result)` and keeps the earlier rows; a failing `result()` changes nothing |
| History.CalculationHistory.Clear | calculator-app/app/calculation/history.py:42-43 | Leaves no rows |
| History.CalculationHistory.FormatLines | calculator-app/app/calculation/history.py:45-56 | The listing loop produces exactly `Listing(rows)` |
| History.CalculationHistory.Snapshot | calculator-app/app/calculation/history.py:58-60 | The snapshot holds the current rows, as a value that later changes cannot reach |
| History.CalculationHistory.Restore | calculator-app/app/calculation/history.py:62-64 | The rows become the snapshot's rows |
| History.CalculationHistory.Save | calculator-app/app/calculation/history.py:66-71 | Writes the table with the four required columns, one record per row |
| History.CalculationHistory.Load | calculator-app/app/calculation/history.py:73-95 | All or nothing: on success the rows are the decoded table, and on any failure the rows are unchanged |
| Facade.ClearStep | calculator-app/app/calculator/facade.py:52-58 | `clear()` pushes the pre-change rows on the undo stack, empties the redo stack and leaves no rows |
| Facade.ExecuteStep | calculator-app/app/calculator/facade.py:60-65 | Unknown name: session untouched, unsupported-operation error. Past the factory: undo entry pushed and redo emptied. Division by zero: error, no row. Succeeds iff the normalised name is supported and is not `div` with `b = 0`, and then gives the result plus exactly one row `(name, a, b, result)` appended |
| Facade.UndoStep | calculator-app/app/calculator/facade.py:67-73 | False and nothing changed iff the undo stack is empty; otherwise the rows become the top undo snapshot, the current rows go on the redo stack, and the stacks' total size is kept |
| Facade.RedoStep | calculator-app/app/calculator/facade.py:75-81 | The mirror image of undo |
| Facade.LoadStep | calculator-app/app/calculator/facade.py:86-91 | A missing file fails before the stacks are touched; otherwise undo entry pushed and redo emptied, rows replaced iff the file decodes, and a failed load reports exactly the error the history load raised |
| Facade.AutoLoadStep | calculator-app/app/calculator/facade.py:93-98 | Never touches either stack; false iff the file is absent; a present file is loaded: true with the rows replaced by the decoded rows when the load succeeds, otherwise the load's error with the rows unchanged |
| Facade.UndoThenRedo | calculator-app/app/calculator/facade.py:67-81 | An undo followed by a redo restores the rows and both stacks |
| Facade.RedoThenUndo | calculator-app/app/calculator/facade.py:67-81 | A redo followed by an undo restores the rows and both stacks |
| Facade.ChangesAreRecorded | calculator-app/app/calculator/facade.py:52-64 | `clear`, a supported `execute` (even one that fails in the arithmetic) and a `load` of an existing file are all recorded changes, so a redo right after any of them fails |
| Facade.FailedDivisionTakesAnUndo | calculator-app/app/calculator/facade.py:60-73 | From an empty session, `add 2 3` gives 5 with one row and one undo entry; a failed `div 1 0` keeps that row but pushes a second undo entry; the first undo then leaves the one row in place, and only a second undo empties the history |
| Facade.ExecuteOperation | calculator-app/app/calculator/facade.py:60-65 | Executing a registered operation by its own name always records an undo entry, then appends its row unless the arithmetic fails |
| Facade.ChangeAllShape | calculator-app/app/calculator/facade.py:52-54 | After a run of changes the rows are the last version, and each change has pushed exactly one undo entry |
| Facade.UndoTimesIgnoresRedo | calculator-app/app/calculator/facade.py:67-73 | What undo does to the rows and the undo stack does not depend on the redo stack |
| Facade.UndoReversesChanges | calculator-app/app/calculator/facade.py:52-73 | After `n` recorded changes, `n - k` undos give back the rows and undo stack as they stood after the first `k` changes |
| Facade.UndoTimesAdd | calculator-app/app/calculator/facade.py:67-73 | `m + n` undos are `m` undos followed by `n` more |
| Facade.RedoTimesUndoesUndoTimes | calculator-app/app/calculator/facade.py:67-81 | `k` undos followed by `k` redos restore the rows and both stacks, when there were `k` entries to undo |
| Facade.RedoReplaysChanges | calculator-app/app/calculator/facade.py:52-81 | After `n` changes and `n` undos the rows are as before the changes; `k ≤ n` redos then bring back the rows the `k`-th change left |
| Facade.Calculator.CreateDefault | calculator-app/app/calculator/facade.py:18-26 | A fresh history with no rows, the given path, and two empty stacks |
| Facade.Calculator.RecordUndoBeforeChange | calculator-app/app/calculator/facade.py:52-54 | The pre-change rows are pushed on the undo stack and the redo stack is emptied |
| Facade.Calculator.Clear | calculator-app/app/calculator/facade.py:56-58 | Performs `ClearStep` on the session |
| Facade.Calculator.Execute | calculator-app/app/calculator/facade.py:60-65 | Performs `ExecuteStep`: same new session, same result or error |
| Facade.Calculator.Undo | calculator-app/app/calculator/facade.py:67-73 | Performs `UndoStep` |
| Facade.Calculator.Redo | calculator-app/app/calculator/facade.py:75-81 | Performs `RedoStep` |
| Facade.Calculator.HistoryLines | calculator-app/app/calculator/facade.py:49-50 | The history's listing |
| Facade.Calculator.Save | calculator-app/app/calculator/facade.py:83-84 | The table written for the current rows |
| Facade.Calculator.Load | calculator-app/app/calculator/facade.py:86-91 | Performs `LoadStep` with the calculator's own path |
| Facade.Calculator.AutoLoadIfExists | calculator-app/app/calculator/facade.py:93-98 | Performs `AutoLoadStep` with the calculator's own path |
| Memento.MementoCaretaker.constructor | calculator-app/app/calculator_memento.py:13-15 | Both stacks start empty |
| Memento.MementoCaretaker.ClearRedo | calculator-app/app/calculator_memento.py:17-18 | The redo stack ends empty and the undo stack is untouched, so a second call changes nothing |
| InputValidators.SplitCommand | calculator-app/app/input_validators.py:16-17 | Every word is non-empty and free of whitespace |
| InputValidators.SplitCommandWords | calculator-app/app/input_validators.py:16-17 | Stripping first changes nothing about the words; blanks around the line are ignored; words joined by single spaces split back into the same words |
| InputValidators.ParsePair | calculator-app/app/input_validators.py:6-13 | Succeeds iff both texts are numbers, with the pair in argument order; otherwise fails with the given error |
| InputValidators.ParsePairReadsRendered | calculator-app/app/input_validators.py:6-13 | Two numbers whose rendered text the parser reads back are recovered exactly, in argument order |
| InputValidators.ParseTwoNumbers | calculator-app/app/input_validators.py:6-13 | As `ParsePair`, failing with `Inputs must be numbers.` as a validation error, not a `ValueError` |
| Config.ParseBool | calculator-app/app/calculator_config.py:12-18 | True exactly for `1/true/yes/y/on` and false exactly for `0/false/no/n/off`, after strip and lower; anything else fails naming the value as given |
| Config.ParseBoolNormalizes | calculator-app/app/calculator_config.py:13 | Only the stripped, lower-cased value matters to the answer |
| Config.ParseBoolWords | calculator-app/app/calculator_config.py:13-17 | Each listed word, with any surrounding whitespace, reads as the side it is listed on |
| Config.Getenv | calculator-app/app/calculator_config.py:32-37 | A set variable gives its value, an unset one the default |
| Config.LoadConfig | calculator-app/app/calculator_config.py:28-46 | The stripped path is used and must be non-empty (checked first); with a valid path an invalid auto-load value fails with its own error, and only then an invalid auto-save value with its own; the result carries exactly those values |
| Config.LoadConfigDefaults | calculator-app/app/calculator_config.py:32-40 | With nothing set: `history.csv`, auto-load on, auto-save off |
| Config.LoadConfigRejectsBlankPath | calculator-app/app/calculator_config.py:32-34 | An all-whitespace path fails with `CALC_HISTORY_PATH cannot be empty.` |
| Cli.HelpText | calculator-app/app/calculator/cli.py:9-20 | Starts with the fixed command summary and usage lines |
| Cli.HelpListsOperations | calculator-app/app/calculator/cli.py:9-20 | Ends with `Supported ops: add, sub, mul, div` |
| Cli.ParseNumbers | calculator-app/app/calculator/cli.py:23-30 | Succeeds iff both texts are numbers, in argument order; otherwise a `ValueError` `Inputs must be numbers.` |
| Cli.Classify | calculator-app/app/calculator/cli.py:38-57 | Blank iff the stripped line is empty; `help`, `history` and `exit` recognised after strip and lower-case; otherwise a calculation iff the line has exactly three words, and those words are its operands |
| Cli.Evaluate | calculator-app/app/calculator/cli.py:57-63 | Operand errors come first, then unknown names, then division by zero; success iff all three checks pass, with the factory's calculation and its result; every failure is one the handler catches |
| Cli.Respond | calculator-app/app/calculator/cli.py:33-67 | None iff the line is `exit`; the rows are unchanged or gain exactly one row, and then the reply is `Result: <that row's result>`; blank, help, history and bad-format replies keep the rows; a failed calculation replies `Error: <message>` and keeps the rows |
| Cli.RespondIgnoresPadding | calculator-app/app/calculator/cli.py:38 | Whitespace around a line changes neither the reply nor the rows |
| Cli.ResultThenHistory | calculator-app/app/calculator/cli.py:47-63 | After a successful calculation, a `history` listing ends with that calculation's line |
| Cli.ClassifyThreeWords | calculator-app/app/calculator/cli.py:53-57 | Three blank-free words joined by single spaces are read as a calculation with those words |
| Cli.RespondToFailure | calculator-app/app/calculator/cli.py:58-67 | A failing calculation replies `Error: <message>` and adds no row |
| Cli.RespondToSuccess | calculator-app/app/calculator/cli.py:58-63 | A successful calculation replies `Result: <rendered value>` and appends the calculation's row |
| Cli.EvaluateOperation | calculator-app/app/calculator/cli.py:57-65 | With readable operands, a registered operation's own name evaluates to that operation's result, or to its division-by-zero error |
| Cli.AddTwoThree | calculator-app/app/calculator/cli.py:58-63 | `add 2 3` replies `Result: 5.0` (as rendered) and appends the row `add 2 3 = 5` |
| Cli.DivideOneByZero | calculator-app/app/calculator/cli.py:64-65 | `div 1 0` replies `Error: Cannot divide by zero.` and adds no row |
| Cli.UnknownOperationReply | calculator-app/app/calculator/cli.py:66-67 | `nope 2 3` replies `Error: Unsupported operation: nope` and adds no row |
| Cli.HandleLine | calculator-app/app/calculator/cli.py:33-67 | The reply and the history's new rows are exactly `Respond` of the line and the old rows |
| Text.Strip | calculator-app/app/input_validators.py:17 | `strip()` leaves no whitespace at either end |
| Text.StripIgnoresPadding | calculator-app/app/input_validators.py:17 | Whitespace added around a string does not change its `strip()` |
| Text.NormalizeIdempotent | calculator-app/app/calculation/factory.py:27 | `strip().lower()` applied twice is applied once |
| Text.Split | calculator-app/app/input_validators.py:17 | Every word `split()` returns is non-empty and free of whitespace |
| Text.SplitJoin | calculator-app/app/input_validators.py:17 | Non-empty, blank-free words joined by single spaces split back into the same words |
| Text.SplitThreeWords | calculator-app/app/calculator/cli.py:53 | Three blank-free words with single spaces between them split back into those three words |
| Text.StripParts | calculator-app/app/input_validators.py:17 | Every string is its `strip()` with whitespace only before and after it |

## Left out

- The REPL loop `run_repl` (cli.py:70-84) is console I/O through injected callables.
- CSV text and the filesystem are not modelled. A file is what the CSV reader hands over: the header and every cell's text. `Path.exists` becomes the `Missing` case of `StoredFile`. pandas' quoting rules, `to_csv` write errors and `read_csv` failures other than "unreadable" are not modelled.
- `Path(...)` normalisation of the history path (for example, collapsing `a//b`) is not modelled. The path is kept as the stripped text.
- IEEE-754 floats are not modelled: operands and results are `real`, with no rounding, infinities or NaN. `float(text)` and pandas' `to_numeric` are one abstract parser, and the float repr in `Result: ...`, `format()` and `format_lines()` is an abstract renderer. The save-and-load round trip assumes that the parser reads back each number the rows hold, as the renderer writes it.
- pandas' type inference on the `operation` column is not modelled. For example, a cell `1` would load as a number. Here the operation cell is always text.
- `lower()` is modelled for ASCII letters only, while whitespace is Python's full `isspace` set.
- The `repr` escaping in `Invalid boolean value: ...` and in the missing-columns list is not modelled: values are wrapped in single quotes as they are.
- Errors.Error.Message: the texts for an unreadable CSV and for a non-numeric column stand in for pandas' own messages, which are not visible.
- The observer and strategy hooks, `pow`/`root`, and `can_undo`/`can_redo` are not part of this model: they are absent from the modelled classes.
- `Calculator.help_text` and `supported_ops_text` are fixed display strings and are left out. `CalculationHistory.all` is the rows themselves (`History.CalculationHistory.All`).
- `CalculationFactory` keeps no state of its own: the registry is the constant `Factory.Registry`, and the calculator's `factory` field is not modelled.
