/**
  * The column materialiser of src/Table.tsx, `evaluateFormula`: it recognises the
  * formula text by exact comparison against a closed list and appends fields named
  * after the new column to every row of the table, in place and in row order.
  *
  * The four `if` statements of the source are independent except that only the
  * last one (the lag formula) has an `else`; every formula other than the lag
  * formula therefore also receives the "not in predefined list" field after
  * whatever its own branch appended. This fall-through is modelled as written.
  */
module Evaluate {
  import opened Wrappers
  import Extract

  /**
    * A field value. JavaScript numbers that are NaN or infinite (a division by zero,
    * arithmetic on `undefined`) are all represented by `NonFinite`.
    */
  datatype Value = Num(x: real) | Str(s: string) | NonFinite

  /** A field of a row: its name, its type tag (`'number'`, `'string'`) and its value. */
  datatype Field = Field(name: string, tag: string, value: Value)

  /** A row object; `evaluateFormula` pushes onto its `fields` list in place. */
  class Row {
    var fields: seq<Field>

    constructor (fields: seq<Field>)
      ensures this.fields == fields
    {
      this.fields := fields;
    }
  }

  const DensityName: string := "Cell Density"
  const VolumeName: string := "Volume"
  const TimeName: string := "time"

  /** The two formulas the materialiser recognises besides the splitter's sentinels. */
  const ProductFormula: string := "Cell Density × Volume"
  const LagFormula: string := "if(Density > 5, (Density - lag(Density)) / Δt, null)"

  const InvalidFormulaMessage: string := "Error: Invalid formula"
  const NoEqualSignMessage: string := "Error: No equal sign found"
  const NotInListMessage: string := "Parser not designed, formula not in predefined list"
  const NullText: string := "null"

  /* ---------- reading a row ---------- */

  /** `fields.find(f => f.name === name)?.value`: the value of the first field so named. */
  function Find(fields: seq<Field>, name: string): (value: Option<Value>)
  {
    if fields == [] then None
    else if fields[0].name == name then Some(fields[0].value)
    else Find(fields[1..], name)
  }

  /** `Find` returns the value of the first field with the name, and `None` only when there is none. */
  lemma {:induction false} FindIsFirst(fields: seq<Field>, name: string, k: nat)
    requires k < |fields| && fields[k].name == name
    requires forall j :: 0 <= j < k ==> fields[j].name != name
    ensures Find(fields, name) == Some(fields[k].value)
  {
    if k > 0 {
      FindIsFirst(fields[1..], name, k - 1);
    }
  }

  /** `Find` yields `None` exactly when no field has the name. */
  lemma {:induction false} FindNone(fields: seq<Field>, name: string)
    ensures Find(fields, name).None? <==> forall j :: 0 <= j < |fields| ==> fields[j].name != name
  {
    if fields != [] && fields[0].name != name {
      FindNone(fields[1..], name);
      assert forall j :: 1 <= j < |fields| ==> fields[j] == fields[1..][j - 1];
    }
  }

  /** Appending fields never hides a field that is already there. */
  lemma {:induction false} FindAppend(fields: seq<Field>, extra: seq<Field>, name: string)
    ensures Find(fields + extra, name) == if Find(fields, name).Some? then Find(fields, name) else Find(extra, name)
  {
    if fields != [] {
      assert (fields + extra)[1..] == fields[1..] + extra;
      FindAppend(fields[1..], extra, name);
    } else {
      assert fields + extra == extra;
    }
  }

  /* ---------- JavaScript arithmetic on field values ---------- */

  /** `a - b`; `undefined`, a string or a non-finite operand gives a non-finite result. */
  function Minus(a: Option<Value>, b: Option<Value>): Value
  {
    if a.Some? && a.value.Num? && b.Some? && b.value.Num? then Num(a.value.x - b.value.x) else NonFinite
  }

  /** `a / b`; division by zero gives a non-finite result rather than an exception. */
  function Divide(a: Value, b: Value): Value
  {
    if a.Num? && b.Num? && b.x != 0.0 then Num(a.x / b.x) else NonFinite
  }

  /** `a * b`. */
  function Times(a: Value, b: Value): Value
  {
    if a.Num? && b.Num? then Num(a.x * b.x) else NonFinite
  }

  /** `density > 5`, which is false for `undefined`. */
  predicate GreaterThanFive(v: Option<Value>) {
    v.Some? && v.value.Num? && v.value.x > 5.0
  }

  /* ---------- what each formula appends to one row ---------- */

  function FallbackField(colName: string): Field {
    Field(colName, "string", Str(NotInListMessage))
  }

  function NullField(colName: string): Field {
    Field(colName, "string", Str(NullText))
  }

  /** The product branch: one number field when both operands are present, else nothing. */
  function ProductFields(colName: string, fields: seq<Field>): (added: seq<Field>)
  {
    var density := Find(fields, DensityName);
    var volume := Find(fields, VolumeName);
    if density.Some? && volume.Some? then [Field(colName, "number", Times(density.value, volume.value))] else []
  }

  /** The lag branch for one row, given the previous row's density and time. */
  function LagField(colName: string, fields: seq<Field>, previousDensity: Option<Value>, previousTime: Option<Value>): (field: Field)
  {
    var density := Find(fields, DensityName);
    var time := Find(fields, TimeName);
    if GreaterThanFive(density) then
      Field(colName, "number", Divide(Minus(density, previousDensity), Minus(time, previousTime)))
    else
      NullField(colName)
  }

  /** `previousDensity` when row `i` is reached: 0 at first, then the previous row's own density. */
  function PreviousDensity(table: seq<seq<Field>>, i: nat): Option<Value>
    requires i <= |table|
  {
    if i == 0 then Some(Num(0.0)) else Find(table[i - 1], DensityName)
  }

  /** `previousTime` when row `i` is reached: 0 at first, then the previous row's own time. */
  function PreviousTime(table: seq<seq<Field>>, i: nat): Option<Value>
    requires i <= |table|
  {
    if i == 0 then Some(Num(0.0)) else Find(table[i - 1], TimeName)
  }

  /** The fields the first three `if`s, which have no `else`, append to a row. */
  function LeadingFields(formula: string, colName: string, fields: seq<Field>): (added: seq<Field>)
  {
    (if formula == Extract.Nonsense then [Field(colName, "string", Str(InvalidFormulaMessage))] else []) +
    (if formula == Extract.NoEqualSign then [Field(colName, "string", Str(NoEqualSignMessage))] else []) +
    (if formula == ProductFormula then ProductFields(colName, fields) else [])
  }

  /**
    * The fields `evaluateFormula` appends to row `i`, in the order the four `if`s push
    * them: the lag `if` is the only one with an `else`.
    */
  function NewFields(formula: string, colName: string, table: seq<seq<Field>>, i: nat): (added: seq<Field>)
    requires i < |table|
  {
    LeadingFields(formula, colName, table[i]) +
    (if formula == LagFormula then [LagField(colName, table[i], PreviousDensity(table, i), PreviousTime(table, i))]
     else [FallbackField(colName)])
  }

  /** The whole table after `evaluateFormula`: every row extended by its new fields. */
  function Materialize(formula: string, colName: string, table: seq<seq<Field>>): (after: seq<seq<Field>>)
  {
    seq(|table|, i requires 0 <= i < |table| => table[i] + NewFields(formula, colName, table, i))
  }

  /** The four texts `evaluateFormula` recognises are pairwise different, so at most one branch runs its own loop. */
  lemma RecognisedFormulasDistinct()
    ensures Extract.Nonsense != Extract.NoEqualSign && Extract.Nonsense != ProductFormula && Extract.Nonsense != LagFormula
    ensures Extract.NoEqualSign != ProductFormula && Extract.NoEqualSign != LagFormula
    ensures ProductFormula != LagFormula
  {
    assert |Extract.Nonsense| == 8 && |Extract.NoEqualSign| == 19;
    assert |ProductFormula| == 21 && |LagFormula| == 52;
  }

  /* ---------- properties of the specification ---------- */

  /**
    * Rows keep their number, order and existing fields; each row only gains fields
    * named `colName`: two for the sentinels, one or two for the product formula,
    * exactly one for the lag formula and for any other text.
    */
  lemma MaterializeAppendsOnly(formula: string, colName: string, table: seq<seq<Field>>)
    ensures |Materialize(formula, colName, table)| == |table|
    ensures forall i :: 0 <= i < |table| ==>
      var row := Materialize(formula, colName, table)[i];
      |table[i]| < |row| && row[..|table[i]|] == table[i] &&
      (forall k :: |table[i]| <= k < |row| ==> row[k].name == colName) &&
      |row| - |table[i]| == (
        if formula == Extract.Nonsense || formula == Extract.NoEqualSign then 2
        else if formula == ProductFormula then
          (if Find(table[i], DensityName).Some? && Find(table[i], VolumeName).Some? then 2 else 1)
        else 1)
  {
    forall i | 0 <= i < |table| ensures
      var row := Materialize(formula, colName, table)[i];
      |table[i]| < |row| && row[..|table[i]|] == table[i] &&
      (forall k :: |table[i]| <= k < |row| ==> row[k].name == colName)
    {
      var row := Materialize(formula, colName, table)[i];
      var added := NewFields(formula, colName, table, i);
      assert row == table[i] + added;
      assert forall k :: 0 <= k < |added| ==> added[k].name == colName;
      assert forall k :: |table[i]| <= k < |row| ==> row[k] == added[k - |table[i]|];
    }
  }

  /** Every formula except the lag formula ends each row with the fallback message field. */
  lemma FallbackEndsOtherFormulas(formula: string, colName: string, table: seq<seq<Field>>, i: nat)
    requires i < |table| && formula != LagFormula
    ensures var added := NewFields(formula, colName, table, i);
      added != [] && added[|added| - 1] == FallbackField(colName) &&
      (formula == Extract.Nonsense ==>
        added == [Field(colName, "string", Str(InvalidFormulaMessage)), FallbackField(colName)]) &&
      (formula == Extract.NoEqualSign ==>
        added == [Field(colName, "string", Str(NoEqualSignMessage)), FallbackField(colName)]) &&
      (formula !in {Extract.Nonsense, Extract.NoEqualSign, ProductFormula} ==> added == [FallbackField(colName)])
  {
  }

  /**
    * The lag formula appends exactly one field: the string `'null'` exactly when the
    * row's density is not greater than 5 (missing included), otherwise a number field.
    */
  lemma LagNullUnlessDense(colName: string, table: seq<seq<Field>>, i: nat)
    requires i < |table|
    ensures var added := NewFields(LagFormula, colName, table, i);
      |added| == 1 &&
      (added[0] == NullField(colName) <==> !GreaterThanFive(Find(table[i], DensityName))) &&
      (GreaterThanFive(Find(table[i], DensityName)) ==> added[0].tag == "number")
  {
  }

  /**
    * For a dense row whose density and time and whose previous row's density and time
    * are numbers with distinct times, the lag field is the rate of change
    * (d - d') / (t - t'); for the first row d' and t' are 0.
    */
  lemma LagIsRateOfChange(colName: string, table: seq<seq<Field>>, i: nat, d: real, t: real, d': real, t': real)
    requires i < |table|
    requires Find(table[i], DensityName) == Some(Num(d)) && d > 5.0
    requires Find(table[i], TimeName) == Some(Num(t))
    requires PreviousDensity(table, i) == Some(Num(d')) && PreviousTime(table, i) == Some(Num(t'))
    requires t != t'
    ensures NewFields(LagFormula, colName, table, i) == [Field(colName, "number", Num((d - d') / (t - t')))]
  {
  }

  /**
    * A row without a density still becomes the previous row: the next dense row's
    * lag value is then non-finite, whatever its own data.
    */
  lemma LagAfterMissingDensity(colName: string, table: seq<seq<Field>>, i: nat)
    requires 0 < i < |table|
    requires Find(table[i - 1], DensityName).None?
    requires GreaterThanFive(Find(table[i], DensityName))
    ensures NewFields(LagFormula, colName, table, i) == [Field(colName, "number", NonFinite)]
  {
  }

  /**
    * Materialising the same formula again under a column name the formulas do not
    * read appends the same fields again: the first `find` still sees the original data.
    */
  lemma {:induction false} RerunAppendsSameFields(formula: string, colName: string, table: seq<seq<Field>>, i: nat)
    requires i < |table|
    requires colName != DensityName && colName != VolumeName && colName != TimeName
    ensures NewFields(formula, colName, Materialize(formula, colName, table), i) == NewFields(formula, colName, table, i)
  {
    var after := Materialize(formula, colName, table);
    forall j, name | 0 <= j < |table| && name in {DensityName, VolumeName, TimeName}
      ensures Find(after[j], name) == Find(table[j], name)
    {
      var added := NewFields(formula, colName, table, j);
      FindAppend(table[j], added, name);
      assert forall k :: 0 <= k < |added| ==> added[k].name == colName;
      FindNone(added, name);
    }
  }

  /* ---------- worked tables ---------- */

  /** A row with a density and a time reading. */
  function Reading(density: real, time: real): seq<Field> {
    [Field(DensityName, "number", Num(density)), Field(TimeName, "number", Num(time))]
  }

  /** A row with a density and a volume. */
  function Culture(density: real, volume: real): seq<Field> {
    [Field(DensityName, "number", Num(density)), Field(VolumeName, "number", Num(volume))]
  }

  /**
    * Densities 3, 6, 9 at times 0, 1, 2: the first row is not dense and gets `'null'`,
    * the next two get (6 - 3) / (1 - 0) and (9 - 6) / (2 - 1).
    */
  lemma ExampleLagColumn(colName: string, table: seq<seq<Field>>)
    requires table == [Reading(3.0, 0.0), Reading(6.0, 1.0), Reading(9.0, 2.0)]
    ensures Materialize(LagFormula, colName, table) ==
      [table[0] + [NullField(colName)],
       table[1] + [Field(colName, "number", Num(3.0))],
       table[2] + [Field(colName, "number", Num(3.0))]]
  {
    assert |DensityName| != |TimeName|;
    var after := Materialize(LagFormula, colName, table);
    forall i | 0 <= i < 3
      ensures Find(table[i], DensityName) == Some(table[i][0].value)
      ensures Find(table[i], TimeName) == Some(table[i][1].value)
    {
      FindIsFirst(table[i], TimeName, 1);
    }
    LagNullUnlessDense(colName, table, 0);
    LagIsRateOfChange(colName, table, 1, 6.0, 1.0, 3.0, 0.0);
    LagIsRateOfChange(colName, table, 2, 9.0, 2.0, 6.0, 1.0);
    assert NewFields(LagFormula, colName, table, 0) == [NullField(colName)];
    assert NewFields(LagFormula, colName, table, 1) == [Field(colName, "number", Num(3.0))];
    assert NewFields(LagFormula, colName, table, 2) == [Field(colName, "number", Num(3.0))];
    assert |after| == 3;
    assert after[0] == table[0] + NewFields(LagFormula, colName, table, 0);
    assert after[1] == table[1] + NewFields(LagFormula, colName, table, 1);
    assert after[2] == table[2] + NewFields(LagFormula, colName, table, 2);
  }

  /**
    * The product formula multiplies density by volume where both are present, skips
    * the row that lacks a density, and every row still gets the fallback field.
    */
  lemma ExampleProductColumn(colName: string, table: seq<seq<Field>>)
    requires table == [Culture(2.0, 10.0), Culture(3.0, 5.0), [Field(VolumeName, "number", Num(4.0))]]
    ensures Materialize(ProductFormula, colName, table) ==
      [table[0] + [Field(colName, "number", Num(20.0)), FallbackField(colName)],
       table[1] + [Field(colName, "number", Num(15.0)), FallbackField(colName)],
       table[2] + [FallbackField(colName)]]
  {
    assert |DensityName| != |VolumeName|;
    forall i | 0 <= i < 2
      ensures Find(table[i], VolumeName) == Some(table[i][1].value)
    {
      FindIsFirst(table[i], VolumeName, 1);
    }
    FindNone(table[2], DensityName);
    var after := Materialize(ProductFormula, colName, table);
    assert NewFields(ProductFormula, colName, table, 0) == [Field(colName, "number", Num(20.0)), FallbackField(colName)];
    assert NewFields(ProductFormula, colName, table, 1) == [Field(colName, "number", Num(15.0)), FallbackField(colName)];
    assert NewFields(ProductFormula, colName, table, 2) == [FallbackField(colName)];
    assert |after| == 3;
    assert after[0] == table[0] + NewFields(ProductFormula, colName, table, 0);
    assert after[1] == table[1] + NewFields(ProductFormula, colName, table, 1);
    assert after[2] == table[2] + NewFields(ProductFormula, colName, table, 2);
  }

  /** The formula of the help dialog's example, with an ASCII `*`, is none of the recognised texts. */
  lemma AsciiProductNotRecognised(formula: string)
    requires formula == "Cell Density * Volume"
    ensures formula !in {Extract.Nonsense, Extract.NoEqualSign, ProductFormula, LagFormula}
  {
    assert formula[13] != ProductFormula[13];
    assert |formula| == 21 && |LagFormula| == 52 && |Extract.Nonsense| == 8 && |Extract.NoEqualSign| == 19;
  }

  /**
    * The help dialog's own example line uses an ASCII `*`. Its formula is therefore
    * not the product formula, and every row gets only the fallback field.
    */
  lemma ExampleHelpDialogLine(name: string, formula: string, table: seq<seq<Field>>, i: nat)
    requires name == "Total Cells" && formula == "Cell Density * Volume"
    requires i < |table|
    ensures Extract.ExtractName(name + " = " + formula) == name
    ensures Extract.ExtractFormula(name + " = " + formula) == formula
    ensures formula != ProductFormula
    ensures NewFields(Extract.ExtractFormula(name + " = " + formula), name, table, i) == [FallbackField(name)]
  {
    Extract.SplitSpacedLine(name, formula);
    AsciiProductNotRecognised(formula);
    FallbackEndsOtherFormulas(formula, name, table, i);
  }

  /* ---------- the materialiser ---------- */

  /** No row object occurs twice in the table. */
  predicate DistinctRows(data: array<Row>)
    reads data
  {
    forall i, j :: 0 <= i < j < data.Length ==> data[i] != data[j]
  }

  /** The field lists of all rows, in table order. */
  ghost function Snapshot(data: array<Row>): (table: seq<seq<Field>>)
    reads data, set i | 0 <= i < data.Length :: data[i]
    ensures |table| == data.Length
    ensures forall i :: 0 <= i < data.Length ==> table[i] == data[i].fields
  {
    seq(data.Length, i requires 0 <= i < data.Length reads data, data[..] => data[i].fields)
  }

  /** `for (const dataRow of data) dataRow.fields.push(field)`. */
  method PushToEach(data: array<Row>, field: Field)
    requires DistinctRows(data)
    modifies set i | 0 <= i < data.Length :: data[i]
    ensures forall i :: 0 <= i < data.Length ==> data[i].fields == old(data[i].fields) + [field]
  {
    var i := 0;
    while i < data.Length
      invariant 0 <= i <= data.Length
      invariant forall j :: 0 <= j < i ==> data[j].fields == old(data[j].fields) + [field]
      invariant forall j :: i <= j < data.Length ==> data[j].fields == old(data[j].fields)
    {
      data[i].fields := data[i].fields + [field];
      i := i + 1;
    }
  }

  /** The product loop: `Cell Density × Volume` for each row that has both fields. */
  method PushProducts(data: array<Row>, colName: string)
    requires DistinctRows(data)
    modifies set i | 0 <= i < data.Length :: data[i]
    ensures forall i :: 0 <= i < data.Length ==>
      data[i].fields == old(data[i].fields) + ProductFields(colName, old(data[i].fields))
  {
    var i := 0;
    while i < data.Length
      invariant 0 <= i <= data.Length
      invariant forall j :: 0 <= j < i ==>
        data[j].fields == old(data[j].fields) + ProductFields(colName, old(data[j].fields))
      invariant forall j :: i <= j < data.Length ==> data[j].fields == old(data[j].fields)
    {
      var row := data[i];
      var density := Find(row.fields, DensityName);
      var volume := Find(row.fields, VolumeName);
      if density.Some? && volume.Some? {
        row.fields := row.fields + [Field(colName, "number", Times(density.value, volume.value))];
      }
      i := i + 1;
    }
  }

  /**
    * The lag loop: `previousDensity` and `previousTime` start at 0 and, after each row,
    * hold that row's own density and time, whichever branch the row took.
    */
  method PushLagColumn(data: array<Row>, colName: string, ghost table: seq<seq<Field>>)
    requires DistinctRows(data)
    requires |table| == data.Length
    requires forall j {:trigger data[j]} :: 0 <= j < data.Length ==> data[j].fields == table[j]
    modifies set i | 0 <= i < data.Length :: data[i]
    ensures forall i {:trigger data[i]} :: 0 <= i < data.Length ==>
      data[i].fields == table[i] + [LagField(colName, table[i], PreviousDensity(table, i), PreviousTime(table, i))]
  {
    var previousDensity: Option<Value> := Some(Num(0.0));
    var previousTime: Option<Value> := Some(Num(0.0));
    var i := 0;
    while i < data.Length
      invariant 0 <= i <= data.Length
      invariant forall j {:trigger data[j]} :: 0 <= j < i ==>
        data[j].fields == table[j] + [LagField(colName, table[j], PreviousDensity(table, j), PreviousTime(table, j))]
      invariant forall j {:trigger data[j]} :: i <= j < data.Length ==> data[j].fields == table[j]
      invariant previousDensity == PreviousDensity(table, i)
      invariant previousTime == PreviousTime(table, i)
    {
      var row := data[i];
      var density := Find(row.fields, DensityName);
      var currentTime := Find(row.fields, TimeName);
      if GreaterThanFive(density) {
        var result := Divide(Minus(density, previousDensity), Minus(currentTime, previousTime));
        row.fields := row.fields + [Field(colName, "number", result)];
      } else {
        row.fields := row.fields + [NullField(colName)];
      }
      previousTime := currentTime;
      previousDensity := density;
      i := i + 1;
    }
  }

  /**
    * `evaluateFormula(formula, data, colName)`: the rows stay the same objects in the
    * same order, and each row's fields become its old fields followed by the fields
    * `NewFields` gives for it.
    */
  method EvaluateFormula(formula: string, data: array<Row>, colName: string)
    requires DistinctRows(data)
    modifies set i | 0 <= i < data.Length :: data[i]
    ensures Snapshot(data) == Materialize(formula, colName, old(Snapshot(data)))
  {
    ghost var table := Snapshot(data);
    RecognisedFormulasDistinct();
    if formula == Extract.Nonsense {
      PushToEach(data, Field(colName, "string", Str(InvalidFormulaMessage)));
    }
    if formula == Extract.NoEqualSign {
      PushToEach(data, Field(colName, "string", Str(NoEqualSignMessage)));
    }
    if formula == ProductFormula {
      PushProducts(data, colName);
    }
    if formula == LagFormula {
      PushLagColumn(data, colName, table);
    } else {
      PushToEach(data, FallbackField(colName));
    }
    assert forall i :: 0 <= i < data.Length ==> data[i].fields == table[i] + NewFields(formula, colName, table, i);
  }
}
