# FlashyCalculator input core, in Dafny

This project models the input-state machine of the FlashyCalculator widget (`src/App.tsx`): the
component state (display, equation, history, secret-code buffer, love mode, error and the panel
toggles) and the handlers that update it — digits and operators accumulating a textual equation,
clear, equals (blank check, raw `/0` check, sanitiser, evaluation, finiteness, formatting,
bounded history), the scientific operations with their domain guards, the secret-code effect that
turns love mode on for `1314`, and the keyboard and keypad dispatch maps.

Layout, one module per concern:

- `wrappers.dfy` — `Option` and `Result`.
- `text.dfy` — JavaScript `trim()` and `includes()`, the sanitising replace, and the shape of
  handler-built equations (every `/` followed by a space).
- `jsnumber.dfy` — JavaScript numbers (`Finite`, `PosInf`, `NegInf`, `NaN`), `isFinite`,
  `Number.isInteger`, the comparisons the domain guards make, and the two result formatters. The
  runtime calls the code makes (dynamic evaluation, `parseFloat`, `toString`, `toFixed(6)`, the
  `Math` functions) are the function fields of a `Runtime` value that the handlers take as a
  parameter.
- `ledger.dfy` — the history push `[x, ...prev].slice(0, 10)`.
- `secretcode.dfy` — the secret-code buffer and its grouping in fours.
- `evaluator.dfy` — the try block of `handleCalculate` as a function to a `Result`.
- `scientific.dfy` — the switch of `handleScientific` as a function to a `Result`.
- `dispatch.dfy` — the key map and the keypad click handler as total functions to a `Command`.
- `app.dfy` — class `Calculator`: one field per state variable, one method per handler, plus
  client methods that replay short sessions (`8 ÷ 0 =`, `2 + 3 = + 4 =`, typing `1314`, `√`/`log`).

The main property: every `/` enters the equation through the operator handler, which writes it as
` / `, so an equation built by the handlers never contains `/0` and the raw division-by-zero check
never fires on typed input; dividing by zero typed on the keypad reaches the evaluator and is
reported as "Result is infinity" (`Evaluator.SpacedEquationNeverDivisionByZero`,
`App.Calculator.Press`, `App.SessionNeverDivisionByZero`, `App.KeypadDivisionByZero`). This rests on JavaScript numerals containing
no `/` (`JsNumber.NumeralsSlashFree`), which holds of every string `Number.prototype.toString` and
`toFixed` produce.

## Model

| member | source | states |
|---|---|---|
| `Text.Trim` | src/App.tsx:87 | `trim()`: the text with JavaScript whitespace and line terminators removed from both ends |
| `Text.IsBlank` | src/App.tsx:87 | `!equation.trim()`: the equation trims to the empty text |
| `Text.BlankIffAllWhitespace` | src/App.tsx:87-89 | the `!equation.trim()` test holds exactly when every character is JavaScript whitespace |
| `Text.Contains` | src/App.tsx:92 | `includes`: the text is a prefix of the string or occurs in its tail |
| `Text.ContainsAt` | src/App.tsx:92 | `includes` is true exactly when the text occurs at some index |
| `Text.Sanitize` | src/App.tsx:96 | the global replace: keeps each character of `- ( ) 0-9 / * + .` in order and deletes every other character |
| `Text.SanitizeSpec` | src/App.tsx:96 | the sanitised text is a subsequence of the equation, holds only `- ( ) 0-9 / * + .`, and keeps every copy of each allowed character |
| `Text.SanitizeIsUnique` | src/App.tsx:96 | any subsequence of allowed characters that keeps every allowed character is the sanitiser's result: it deletes exactly the disallowed characters, in order |
| `Text.SanitizeIdempotent` | src/App.tsx:96 | sanitising twice equals sanitising once |
| `Text.SanitizeKeepsAllowed` | src/App.tsx:96 | a string of allowed characters passes unchanged |
| `Text.SlashesSpacedExcludesDivZero` | src/App.tsx:92 | an equation whose every `/` is followed by a space never includes `/0` |
| `JsNumber.FormatResult` | src/App.tsx:103-105 | an integral value by `toString`, any other by `toString` of `parseFloat` of `toFixed(6)` |
| `JsNumber.FormatScientific` | src/App.tsx:192 | an integral value by `toString`, any other by `toFixed(6)` |
| `JsNumber.FormattedSlashFree` | src/App.tsx:103-105 | both result formats (calculation and scientific) contain no `/` when the runtime's numerals do not |
| `Ledger.Push` | src/App.tsx:109 | the new entry is first, the length is one more but at most 10, and the rest are the first entries of the old history in order |
| `Ledger.PushAllKeepsMostRecent` | src/App.tsx:109 | after any run of pushes the history is the newest entries, newest first, cut to 10: the oldest are evicted first |
| `Ledger.HistoryHoldsTenNewest` | src/App.tsx:109 | starting empty, after n calculations the history holds min(n, 10) entries and entry i is the (i+1)-th most recent |
| `SecretCode.Settle` | src/App.tsx:36-38 | the effect leaves a buffer shorter than four, unchanged exactly when it was shorter than four, and otherwise empty |
| `SecretCode.Typed` | src/App.tsx:65 | the buffer after typing keys one at a time from empty: each key is appended and the effect's reset of lines 36-38 applied |
| `SecretCode.TypedGroupsInFours` | src/App.tsx:26-39 | after typing any keys one by one the buffer holds the unfinished last group of four |
| `SecretCode.TypedAfterGroups` | src/App.tsx:36-38 | after `4g + r` keys (r < 4) the buffer holds exactly the last r keys |
| `SecretCode.FiresOnAlignedCode` | src/App.tsx:27-28 | the k-th key turns love mode on exactly when it completes a group of four that reads `1314` |
| `SecretCode.GroupingExamples` | src/App.tsx:26-39 | typing `1314` fires; typing `21314` never fires |
| `Evaluator.Evaluate` | src/App.tsx:86-105 | the checks in their order: blank fails with "Empty expression"; otherwise a raw `/0` fails with "Division by zero", before sanitising; otherwise a throw of the evaluator fails carrying the thrown value, a non-finite value fails with "Result is infinity", and a finite value succeeds with its formatted text |
| `Evaluator.Message` | src/App.tsx:88-111 | the text shown: `Empty expression`, `Division by zero`, `Result is infinity`, a thrown Error's message, or `Invalid Expression` for any other thrown value |
| `Evaluator.Entry` | src/App.tsx:109 | the history line `equation = result`, with ` 💝` appended in love mode |
| `Evaluator.SpacedEquationNeverDivisionByZero` | src/App.tsx:92 | an equation shaped as the handlers build it never fails the raw `/0` check |
| `Evaluator.RawCheckRefusesLeadingZeroDivisor` | src/App.tsx:92 | the check is textual: `10/05` is refused as a division by zero |
| `Evaluator.PercentOperatorIsDropped` | src/App.tsx:96 | the keypad's `%` and the spaces around it are removed, so `5 % 3` evaluates as `53` |
| `Evaluator.KeypadDivisionByZeroIsInfinite` | src/App.tsx:92-100 | `8 / 0` as the keypad writes it passes both checks and fails as an infinite result |
| `Evaluator.SmallSumEvaluates` | src/App.tsx:96-108 | a one-digit sum `a + b` is run as `a+b` and an integral result is shown by `toString` |
| `Evaluator.LiteralEvaluates` | src/App.tsx:96-108 | a string of digits is run unchanged |
| `Scientific.Apply` | src/App.tsx:167-190 | an unknown name fails with "Invalid operation"; `sqrt` fails exactly on a value < 0 and `log` exactly on a value <= 0; `sin`, `cos`, `tan`, `pow2` never fail; a success is the runtime's `Math` result |
| `Scientific.Message` | src/App.tsx:178-189 | the three thrown messages: negative square root, logarithm of zero or a negative number, invalid operation |
| `Scientific.Entry` | src/App.tsx:194-195 | the equation and history text `op(x) = result`, with `x` by `toString` and the result formatted |
| `Scientific.EntrySlashesSpaced` | src/App.tsx:192-195 | when the runtime's numerals have no `/`, the `op(x) = result` text of a known operation has no `/`, so every `/` in it is followed by a space |
| `Dispatch.KeyCommand` | src/App.tsx:124-150 | a single digit or `.` is a number; `+ - * /` are operators as themselves and `x`/`X` as `*`; `Enter` and `=` calculate; `Backspace`, `Delete` and `Escape` all clear; any other key does nothing |
| `Dispatch.ButtonCommand` | src/App.tsx:335-341 | `C` clears, `=` calculates, `+ - × ÷ %` are operators with `×` as `*` and `÷` as `/`, and any other label is a number |
| `Dispatch.PadCommandsAreUiCommands` | src/App.tsx:332-341 | every keypad button gives a one-character number or a known operator |
| `App.Calculator.constructor` | src/App.tsx:5-17 | the initial state: display `0`, empty equation, empty history and buffer, every flag off but the dark theme, which follows the colour-scheme preference |
| `App.Calculator.SecretCodeEffect` | src/App.tsx:26-39 | love mode and the note turn on when the buffer is `1314`; a buffer of four or more characters is emptied |
| `App.Calculator.HandleNumber` | src/App.tsx:63-68 | a display of exactly `0` becomes the token, any other display gets it appended; the equation gets it appended; the buffer and love mode follow the effect; nothing else changes |
| `App.Calculator.HandleOperator` | src/App.tsx:70-74 | the equation becomes old + ` op `, the display `0`; a one-character operator keeps every `/` followed by a space |
| `App.Calculator.HandleClear` | src/App.tsx:76-81 | display `0`, equation empty, love mode off; history and buffer untouched |
| `App.Calculator.HandleCalculate` | src/App.tsx:84-116 | on success display and equation become the result and `equation = result` (with a heart in love mode) goes to the front of the history, cut to 10; on failure the message is shown, display and equation reset, history untouched |
| `App.Calculator.HandleScientific` | src/App.tsx:161-200 | on success display, equation and history take the formatted result and `op(x) = result`; on failure only the error changes |
| `App.Calculator.DismissError` | src/App.tsx:112 | the error timer clears the error |
| `App.Calculator.DismissLoveNote` | src/App.tsx:31-34 | the note timer hides the love note |
| `App.Calculator.ToggleDarkMode` | src/App.tsx:225 | flips the theme |
| `App.Calculator.ToggleScientificMode` | src/App.tsx:234 | flips the scientific panel |
| `App.Calculator.ToggleHistory` | src/App.tsx:244 | flips the history panel |
| `App.Calculator.CloseHistory` | src/App.tsx:269 | closes the history panel |
| `App.Calculator.ToggleLoveMode` | src/App.tsx:250 | flips love mode |
| `App.Calculator.Press` | src/App.tsx:335-341 | runs the named handler; `Ignore` changes no field; key and keypad commands keep every `/` of the equation followed by a space |
| `App.CalculateSucceeds` | src/App.tsx:107-109 | equals on an accepted equation writes the result and pushes the entry |
| `App.CalculateFails` | src/App.tsx:110-115 | equals on a refused equation resets display and equation and shows the message |
| `App.SessionNeverDivisionByZero` | src/App.tsx:63-200 | from a fresh calculator, after any key presses, keypad clicks and scientific-button clicks, equals never fails with "Division by zero", and the display shows the result or `0` |
| `App.KeypadDivisionByZero` | src/App.tsx:92-100 | pressing `8 ÷ 0 =` ends with display `0`, error "Result is infinity" and no history |
| `App.ChainedCalculation` | src/App.tsx:107-109 | `2 + 3 =` then `+ 4 =` shows `9` with history `5 + 4 = 9`, `2 + 3 = 5` |
| `App.SecretCodeMarksHistory` | src/App.tsx:26-39 | typing `1314` turns love mode on, empties the buffer, and the next entry ends with a heart |
| `App.ScientificOnDisplay` | src/App.tsx:177-189 | `√` of a displayed 4 shows `2` and `sqrt(4) = 2`; `log` of a displayed 0 fails and leaves the display |

## Left out

- Floating point: the value of an evaluation, `parseFloat`, `toString`, `toFixed(6)` and the `Math` functions are the fields of `JsNumber.Runtime`; only the branches around them (finiteness, `Number.isInteger`, the domain comparisons with NaN comparing false) are modelled.
- The evaluator's completion records the number `isFinite` coerces the returned value to. The evaluated text need not return a number: an empty sanitised text returns `undefined`, and a leading `/` starts a regular-expression literal (the keypad's `÷ 2 ÷ + 3` sanitises to `/2/+3`, which returns the string `"/2/3"`). Every such value coerces to NaN, fails `isFinite` and is refused as "Result is infinity" before `Number.isInteger` is reached, so recording the coerced number loses nothing.
- `playSound` (Web Audio) has no effect on state and is not modelled.
- Loading the history from `localStorage` (lines 19-24) is browser I/O and is not modelled; the model starts from an empty history. Nothing in the source writes the history back.
- The initial theme from `matchMedia` is the constructor's `prefersDark` parameter.
- Timers: the dismissal of the error and of the love note are the methods `DismissError` and `DismissLoveNote`, called when the timer fires; when the timers fire, and the race between overlapping timers, are not modelled. The `animation` class name the effect sets is presentation and is not modelled.
- The keyboard listener is registered once, with empty dependencies, so its `handleCalculate` sees the first render's empty equation and every Enter or `=` key fails with "Empty expression"; this React closure behaviour is not modelled, only the key-to-command map.
- `key in operatorMap` is also true for inherited object property names such as `toString`; no browser produces such a key value, and the model treats the map as its six listed keys.
- React applies a handler's setter calls together before the next render; the methods apply them in sequence, which gives the same final state because every setter either writes a constant or updates its own variable.
- Strings are sequences of Unicode code points, not UTF-16 code units; only the heart marker of love-mode entries lies outside the basic plane, and no length is taken of it.
- The 'Calculation Error' fallback of `handleScientific` is unreachable (only `Error` objects are thrown there) and is not modelled; the 'Invalid Expression' fallback of `handleCalculate` is, as `Thrown.OtherValue`.
- Rendering, theming and the scientific button table (lines 202-387) are not modelled; `ScientificOnDisplay` passes the operation names those buttons pass.
- `App.Calculator.Press`: states the state invariant, that `Ignore` changes no field, and the slash invariant, not the full new state of each command; the called handler's contract gives that.
- Backspace, Delete and Escape all call `handleClear`; there is no single-character delete, and the model follows the code.
