# Seal bioreactor table: formula columns

The bioreactor table of Seal lets a user type a line such as
`Total Cells = Cell Density × Volume`. The line is turned into a new
computed column of the table (src/Table.tsx:82-85). Two pure functions split the line:

- `extract_name` gives the column name: the trimmed text before the first `=`.
- `extract_formula` gives the formula text: the trimmed text after the first `=`
  that has something after it on its line. When the line is malformed it gives a
  sentinel string instead: `'No equal sign found'` or `'nonsense'`.

`evaluateFormula` then materialises the column in place. It walks the rows in
order and pushes onto each row's `fields` list fields named after the column. It
recognises a closed list of formulas by exact comparison:

- the two sentinels, which get an error message;
- `Cell Density × Volume`, which gets the product where both fields exist;
- the lag formula `if(Density > 5, (Density - lag(Density)) / Δt, null)`, which
  gets the rate of change of the density since the previous row, or `'null'`;
- anything else, which gets a "not in predefined list" message.

The project has four modules:

- `Wrappers` (wrappers.dfy): `Option`, standing for JavaScript's `undefined`.
- `JsString` (js_string.dfy): ECMAScript's WhiteSpace and LineTerminator
  classes, the `.` of a regular expression, and `String.prototype.trim`.
- `Extract` (extract.dfy): the splitter.
  - `ExtractName` models `extract_name`.
  - `SplitParts` models `input.split(/=(.+)/)`. A match is an `=` followed by at
    least one character that is not a line terminator. The capture runs greedily to
    the end of that line. Split gives 2k+1 parts for k matches, and `pop()` leaves 2k.
  - `ExtractFormula` models `extract_formula`.
- `Evaluate` (evaluate.dfy): the materialiser.
  - A `Row` is a class whose `fields` sequence the methods extend in place.
  - `EvaluateFormula` is a method over an `array<Row>`. The source has five `for`
    loops (src/Table.tsx:99, 104, 109, 121, 143). `PushToEach` models the three that
    push one fixed field: the two sentinel loops and the fallback loop.
    `PushProducts` models the product loop and `PushLagColumn` the lag loop.
  - `EvaluateFormula` is proved against the specification function `Materialize`.
    `Materialize` extends every row by `NewFields`, and the properties of the
    materialiser are lemmas about `NewFields`.

Two behaviours of the code are easy to misread, and the model keeps them as written:

- A second `=` on the same line does not make the formula `'nonsense'`. The greedy
  capture keeps it, so `X = A = B` gives the formula `A = B`. Only matches on two
  different lines give `'nonsense'`.
- A sentinel does not stop materialisation. The handler passes it to
  `evaluateFormula` (src/Table.tsx:85), and every row gets an error field followed
  by the fallback field.

## Model

| member | source | states |
|---|---|---|
| JsString.Trim | src/Table.tsx:151 | `trim` leaves a string no longer than its input whose first and last characters are not WhiteSpace or LineTerminator |
| JsString.TrimIsInfix | src/Table.tsx:151 | the result of `trim` is an infix of the input, and everything around it is trimmable |
| JsString.TrimUnique | src/Table.tsx:163 | an infix with non-trimmable ends and only trimmable characters around it is exactly what `trim` returns |
| JsString.TrimKeepsCharacters | src/Table.tsx:163 | every character `trim` returns comes from its input |
| JsString.TrimStartDropsPrefix | src/Table.tsx:151 | the leading part that `trim` removes consists only of trimmable characters |
| JsString.TrimEndDropsSuffix | src/Table.tsx:151 | the trailing part that `trim` removes consists only of trimmable characters |
| JsString.TrimNoop | src/Table.tsx:163 | a string with non-trimmable ends is returned unchanged by `trim` |
| JsString.TrimSpaceAfter | src/Table.tsx:151 | a space after a trimmed name is removed by `trim` |
| JsString.TrimSpaceBefore | src/Table.tsx:163 | a space before a trimmed formula is removed by `trim` |
| Extract.IndexOf | src/Table.tsx:150 | the first element of `split(/=/)` ends at the first `=`, or at the end when there is none |
| Extract.ExtractName | src/Table.tsx:149-152 | with no `=` in the input, the name is the whole input trimmed |
| Extract.ExtractNameIsPrefix | src/Table.tsx:149-152 | the name is the trimmed text before the first `=`, and it contains no `=` |
| Extract.LineEnd | src/Table.tsx:155 | the greedy `.+` stops at the first line terminator or at the end of the input |
| Extract.FirstMatch | src/Table.tsx:155 | the split finds the leftmost `=` that is followed by a non-line-terminator; none means no such `=` at or after the position |
| Extract.Capture | src/Table.tsx:155 | the captured group is non-empty, contains no line terminator, and runs to the end of its line |
| Extract.SplitParts | src/Table.tsx:155 | `split(/=(.+)/)` returns an odd number of parts, and a single part exactly when there is no match |
| Extract.SecondMatchIffTwoLines | src/Table.tsx:155-162 | a second match exists after the first capture if and only if two different lines each hold a match |
| Extract.FormulaWithoutMatch | src/Table.tsx:155-159 | with no match, the input has no matching line at all and the result is `'No equal sign found'` |
| Extract.FirstMatchUnique | src/Table.tsx:155 | the match the split finds first is the only leftmost match |
| Extract.FormulaAfterFirstMatch | src/Table.tsx:155-163 | after the first match, the result is `'nonsense'` if the rest of the input matches again, and otherwise the trimmed capture |
| Extract.FormulaWithMatch | src/Table.tsx:155-163 | with a first match, the result is `'nonsense'` exactly when two lines match, and otherwise the trimmed capture |
| Extract.ExtractFormulaCases | src/Table.tsx:154-164 | no match gives `'No equal sign found'`; matches on two lines give `'nonsense'`; otherwise the result is the trimmed rest of the first matching line |
| Extract.NoMatchMeansNoEqualSign | src/Table.tsx:155-159 | when no `=` is followed by a character on its line, the result is `'No equal sign found'` |
| Extract.SentinelFromSingleLine | src/Table.tsx:155-163 | with a single-line match, a sentinel result can only come from a user formula that is literally a sentinel |
| Extract.SplitSingleLine | src/Table.tsx:149-164 | for a name without `=` and a non-empty one-line formula, `name=formula` splits back into the trimmed name and the trimmed formula |
| Extract.SplitSpacedLine | src/Table.tsx:149-164 | `name = formula` with trimmed parts splits back into exactly `name` and `formula` |
| Extract.ExampleTotalCells | src/Table.tsx:149-164 | `Total Cells = Cell Density × Volume` splits into `Total Cells` and `Cell Density × Volume` |
| Extract.ExampleSecondEqualSignKept | src/Table.tsx:155-163 | `X = A = B` gives the formula `A = B` |
| Extract.ExampleSentinelCollision | src/Table.tsx:155-163 | `X = nonsense` gives a formula equal to the `'nonsense'` sentinel |
| Extract.ExampleNoEqualSign | src/Table.tsx:149-159 | `abc` and `a=` give `'No equal sign found'`, and the name of `abc` is `abc` |
| Extract.ExampleTwoLines | src/Table.tsx:155-162 | `a=1` and `b=2` on two lines give `'nonsense'` |
| Extract.ExampleBareEqualSignLine | src/Table.tsx:155-163 | a bare `a=` line does not match, so `a=` then `b=2` gives the formula `2` |
| Evaluate.FindIsFirst | src/Table.tsx:110-111 | `find` returns the value of the first field with the name |
| Evaluate.FindNone | src/Table.tsx:110-112 | `find` gives `undefined` exactly when no field has the name |
| Evaluate.FindAppend | src/Table.tsx:123-124 | appending fields never hides a field that is already in the row |
| Evaluate.RecognisedFormulasDistinct | src/Table.tsx:98-118 | the four formula texts compared against are pairwise different, so at most one of the four comparisons succeeds |
| Evaluate.AsciiProductNotRecognised | src/Table.tsx:108 | `Cell Density * Volume`, written with an ASCII `*`, is none of the four recognised formula texts |
| Evaluate.ExampleHelpDialogLine | src/components/menu.tsx:28 | the help dialog's example `Total Cells = Cell Density * Volume` splits into `Total Cells` and `Cell Density * Volume`; that formula is not the product formula, so every row gets only the fallback field |
| Evaluate.MaterializeAppendsOnly | src/Table.tsx:97-147 | rows keep their number and their existing fields as a prefix, and gain only fields named `colName`: two for a sentinel, two or one for the product formula, one otherwise |
| Evaluate.FallbackEndsOtherFormulas | src/Table.tsx:98-146 | for every formula but the lag formula, the last new field of each row is the "not in predefined list" message; each sentinel appends its error and then the fallback; any other unknown text appends only the fallback |
| Evaluate.LagNullUnlessDense | src/Table.tsx:118-137 | the lag formula appends one field: `'null'` exactly when the density is not above 5 (missing included), otherwise a number field |
| Evaluate.LagIsRateOfChange | src/Table.tsx:125-130 | for a row whose density d is a number above 5, whose time t is a number, whose previous density d′ and previous time t′ are numbers (0 and 0 for the first row) and where t ≠ t′, the lag value is the number (d − d′)/(t − t′); a zero Δt gives a non-finite value instead, which this lemma does not cover |
| Evaluate.LagAfterMissingDensity | src/Table.tsx:123-139 | a row with no density still becomes the previous row, so the next dense row's value is non-finite |
| Evaluate.RerunAppendsSameFields | src/Table.tsx:97-147 | evaluating the same formula again under a column name the formulas do not read appends the same fields again |
| Evaluate.ExampleLagColumn | src/Table.tsx:118-141 | densities 3, 6, 9 at times 0, 1, 2 give `'null'`, 3, 3 |
| Evaluate.ExampleProductColumn | src/Table.tsx:108-117 | densities 2 and 3 with volumes 10 and 5 give 20 and 15; a row without a density gets no product; every row also gets the fallback |
| Evaluate.PushToEach | src/Table.tsx:98-146 | each of the two sentinel loops (99-101, 104-106) and the fallback loop (143-145) appends its one field to every row and changes nothing else |
| Evaluate.PushProducts | src/Table.tsx:108-117 | the product loop appends `density × volume` to exactly the rows that have both fields |
| Evaluate.PushLagColumn | src/Table.tsx:118-141 | the lag loop appends each row's lag field; its invariant keeps `previousDensity` and `previousTime` equal to the previous row's own density and time, starting at 0 |
| Evaluate.EvaluateFormula | src/Table.tsx:97-147 | after the call, the table's field lists are `Materialize` of the old ones: each row extended by `NewFields`, with the four `if`s falling through as written |

## Left out

- The `BioreactorTable` React component (state hooks, dialog, table widgets) and
  `cellRenderer`'s two-decimal display are user interface. They are not part of this model.
- src/components/menu.tsx is not part of this model, apart from its example line
  (`ExampleHelpDialogLine`). Its help text lists operators that no code implements.
- The `./data` module (`entitiesFromView`, `columnsForThisRun`, `viewContext`) is
  not part of this model. The table is a parameter of `EvaluateFormula`.
- IEEE arithmetic: numbers are reals, and NaN, `Infinity` and `-Infinity` are all
  the single value `NonFinite`. This loses two results of JavaScript:
  - `GreaterThanFive` treats `NonFinite` as not above 5, although `Infinity > 5` is true.
  - `Divide(Num(x), NonFinite)` gives `NonFinite`, although a finite value divided by
    ±`Infinity` is ±0. This matters when a time field holds `Infinity`, which makes
    `deltaTime` infinite.
  Rounding and overflow of finite numbers are not modelled either.
- String-to-number coercion: a string operand of `*`, `-`, `/` or `> 5` is
  treated as non-numeric, so a numeric string such as `"7"` is not read as 7.
- The `try`/`catch` around the lag arithmetic (src/Table.tsx:126-133) is not
  modelled. JavaScript division does not throw, so the catch branch and its
  `'number'` tag on a string value cannot occur.
- The unused `rowIndex` parameter and `const i = 0` (src/Table.tsx:97, 122).
- Evaluate.EvaluateFormula: requires that no row object occurs twice in the
  table (`DistinctRows`). The source does not exclude aliased rows, and an aliased
  row would receive its fields twice.
- Evaluate.PushToEach: requires `DistinctRows` too, for the same reason.
- Evaluate.PushProducts: requires `DistinctRows` too, for the same reason.
- Evaluate.PushLagColumn: requires `DistinctRows` too. With an aliased row it would
  also read fields that an earlier iteration had already appended.
- Only the split rule `/=(.+)/` is modelled, not a general regular-expression engine.
