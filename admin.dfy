/** `django_measurement/admin.py`: the admin form for models with
    three-column measurements. For every measurement it offers a choice of
    measure name and a text input of the form `<number> <unit>`, and `clean`
    turns each such pair into a measurement. */
module Admin {
  import opened Outcomes
  import opened Text
  import opened Dicts
  import opened Values
  import opened Utils
  import Fields
  import Forms

  // ---------------------------------------------------------------------
  // The two regular expressions
  // ---------------------------------------------------------------------

  /** Where a pattern ending in `$` can stop: before one final newline,
      when there is one (none of the patterns here can match a newline). */
  function BeforeFinalNewline(s: string): (r: string)
    ensures s == r || s == r + "\n"
    ensures |s| > 0 && s[|s| - 1] == '\n' ==> s == r + "\n"
    ensures (|s| == 0 || s[|s| - 1] != '\n') ==> r == s
  {
    if |s| > 0 && s[|s| - 1] == '\n' then s[..|s| - 1] else s
  }

  /** `MEASURE_FIELD_NAME_RE.match(name).group(1)`: the name of a `_value`
      column without that suffix (`.` does not match a newline). */
  function FieldAttrName(name: string): (r: Option<string>)
  {
    var b := BeforeFinalNewline(name);
    if |b| >= 6 && b[|b| - 6..] == "_value" && '\n' !in b[..|b| - 6] then
      Some(b[..|b| - 6])
    else None
  }

  /** A stripped name has no newline and is the column name without its
      `_value` suffix and the final newline `$` lets through. */
  lemma FieldAttrNameShape(name: string)
    ensures var r := FieldAttrName(name);
      r.Some? ==> '\n' !in r.value && (name == r.value + "_value" || name == r.value + "_value\n")
  {
    var b := BeforeFinalNewline(name);
    if |b| >= 6 && b[|b| - 6..] == "_value" {
      assert b == b[..|b| - 6] + "_value";
    }
  }

  /** The value column of a measurement named `a` gives `a` back. */
  lemma FieldAttrNameOfColumn(a: string)
    requires '\n' !in a
    ensures FieldAttrName(Fields.MeasurementFieldName(a)) == Some(a)
  {
    var s := Fields.MeasurementFieldName(a);
    assert s[|s| - 1] == 'e';
    assert s[|s| - 6..] == "_value" && s[..|s| - 6] == a;
  }

  /** `[0-9.-]` */
  predicate IsNumberChar(ch: char) { IsDigit(ch) || ch == '.' || ch == '-' }

  /** `[a-zA-Z_/]` */
  predicate IsUnitChar(ch: char) { IsLetter(ch) || ch == '_' || ch == '/' }

  predicate AllNumber(s: string) { forall i :: 0 <= i < |s| ==> IsNumberChar(s[i]) }

  predicate AllUnit(s: string) { forall i :: 0 <= i < |s| ==> IsUnitChar(s[i]) }

  /** The length of the longest prefix of `[0-9.-]` characters. */
  function NumberPrefix(s: string): (n: nat)
    ensures n <= |s|
    ensures forall i :: 0 <= i < n ==> IsNumberChar(s[i])
    ensures n < |s| ==> !IsNumberChar(s[n])
  {
    if s == [] || !IsNumberChar(s[0]) then 0
    else 1 + NumberPrefix(s[1..])
  }

  /** What `MEASURE_VALUE_SPLIT_RE` accepts: a non-empty run of `[0-9.-]`,
      one space, a non-empty run of `[a-zA-Z_/]`, and the end of the text
      or one final newline. */
  predicate SplitForm(s: string, number: string, unit: string) {
    && number != [] && unit != [] && AllNumber(number) && AllUnit(unit)
    && (s == number + " " + unit || s == number + " " + unit + "\n")
  }

  /** `MEASURE_VALUE_SPLIT_RE.match(s)` and its two groups. */
  function SplitValue(s: string): (r: Option<(string, string)>)
    ensures r.Some? ==> SplitForm(s, r.value.0, r.value.1)
  {
    var b := BeforeFinalNewline(s);
    var n := NumberPrefix(b);
    if 0 < n && n + 1 < |b| && b[n] == ' ' && AllUnit(b[n + 1..]) then
      assert b == b[..n] + " " + b[n + 1..];
      Some((b[..n], b[n + 1..]))
    else None
  }

  /** The prefix of number characters of `a + b` is `a` when `b` does not
      start with one. */
  lemma NumberPrefixOf(a: string, b: string)
    requires AllNumber(a) && b != [] && !IsNumberChar(b[0])
    ensures NumberPrefix(a + b) == |a|
  {
    var s := a + b;
    assert s[|a|] == b[0];
    assert forall i :: 0 <= i < |a| ==> s[i] == a[i];
  }

  /** Every text of the accepted form is split into exactly its number and
      its unit, so together with `SplitValue`'s own contract the pattern
      matches exactly the texts of that form. */
  lemma SplitValueFindsTheParts(s: string, number: string, unit: string)
    requires SplitForm(s, number, unit)
    ensures SplitValue(s) == Some((number, unit))
  {
    var b := number + " " + unit;
    assert b[|b| - 1] == unit[|unit| - 1];
    assert BeforeFinalNewline(s) == b;
    NumberPrefixOf(number, " " + unit);
    assert number + (" " + unit) == b;
    assert b[|number|] == ' ' && b[|number| + 1..] == unit && b[..|number|] == number;
  }

  /** The unit looked up is the second group with every `/` as `__`, so
      it never holds a `/`. */
  function LookupUnit(unit: string): (r: string)
    ensures '/' !in r
    ensures '/' !in unit ==> r == unit
  {
    ReplaceChar(unit, '/', "__")
  }

  /** A ratio unit written `primary/reference` in the admin text is looked
      up under the key `primary__reference` of the bidimensional choices. */
  lemma LookupRatioUnit(primary: string, reference: string)
    requires '/' !in primary && '/' !in reference
    ensures LookupUnit(primary + "/" + reference) == Forms.PairKey(primary, reference)
  {
    ReplaceCharAppend(primary + "/", reference, '/', "__");
    ReplaceCharAppend(primary, "/", '/', "__");
    ReplaceCharSingle('/', '/', "__");
  }

  // ---------------------------------------------------------------------
  // The measure fields and the form's inputs
  // ---------------------------------------------------------------------

  /** A field of the model: its name, whether it is a measurement value
      column (`MeasurementValueField`), and its `blank` option. */
  datatype ModelField = ModelField(name: string, isValueColumn: bool, blank: bool)

  /** `MEASURE_FIELDS` as `__init__` fills it: every value column, in
      model order, adds or replaces the entry of its stripped name with
      `required = not blank`; a value column whose name does not match the
      pattern fails on `None.group` (`AttributeError`). */
  function MeasureFieldsOf(fields: seq<ModelField>): (r: Result<Dict<bool>>)
    ensures r.Ok? ==> r.value.Valid()
    decreases |fields|
  {
    if fields == [] then Ok(Empty())
    else
      match MeasureFieldsOf(fields[..|fields| - 1])
      case Err(e) => Err(e)
      case Ok(d) =>
        var f := fields[|fields| - 1];
        if !f.isValueColumn then Ok(d)
        else match FieldAttrName(f.name)
          case None => Err(AttributeError)
          case Some(a) => Ok(Put(d, a, !f.blank))
  }

  /** A value column whose stripped name is `a`. */
  predicate ColumnOf(f: ModelField, a: string) {
    f.isValueColumn && FieldAttrName(f.name) == Some(a)
  }

  /** A value column whose name does not match the pattern. */
  predicate BadColumn(f: ModelField) {
    f.isValueColumn && FieldAttrName(f.name).None?
  }

  /** Deriving the measure fields fails, with `AttributeError`, exactly
      when some value column's name does not match. */
  lemma {:induction false} MeasureFieldsFail(fields: seq<ModelField>)
    ensures MeasureFieldsOf(fields).Err? <==> exists i :: 0 <= i < |fields| && BadColumn(fields[i])
    ensures MeasureFieldsOf(fields).Err? ==> MeasureFieldsOf(fields).error == AttributeError
    decreases |fields|
  {
    if fields != [] {
      var n := |fields|;
      var init := fields[..n - 1];
      MeasureFieldsFail(init);
      if exists i :: 0 <= i < n - 1 && BadColumn(init[i]) {
        var i :| 0 <= i < n - 1 && BadColumn(init[i]);
        assert fields[i] == init[i];
      }
      if exists i :: 0 <= i < n && BadColumn(fields[i]) {
        var i :| 0 <= i < n && BadColumn(fields[i]);
        if i < n - 1 {
          assert init[i] == fields[i];
        }
      }
    }
  }

  /** The measure fields are exactly the stripped names of the value
      columns. */
  lemma MeasureFieldNames(fields: seq<ModelField>)
    requires MeasureFieldsOf(fields).Ok?
    ensures forall a :: a in MeasureFieldsOf(fields).value.entries <==>
      exists i :: 0 <= i < |fields| && ColumnOf(fields[i], a)
  {
    forall a
      ensures a in MeasureFieldsOf(fields).value.entries <==> exists i :: 0 <= i < |fields| && ColumnOf(fields[i], a)
    {
      MeasureFieldNamed(fields, a);
    }
  }

  /** `a` is a measure field exactly when some value column strips to it. */
  lemma {:induction false} MeasureFieldNamed(fields: seq<ModelField>, a: string)
    requires MeasureFieldsOf(fields).Ok?
    ensures a in MeasureFieldsOf(fields).value.entries <==> HasColumn(fields, a)
    decreases |fields|
  {
    if fields != [] {
      var n := |fields|;
      var init := fields[..n - 1];
      MeasureFieldKeyStep(fields, a);
      MeasureFieldNamed(init, a);
      SomeColumnStep(fields, a);
    }
  }

  /** Some field is a column of `a`. */
  predicate HasColumn(fields: seq<ModelField>, a: string) {
    exists i :: 0 <= i < |fields| && ColumnOf(fields[i], a)
  }

  /** Some field is a column of `a` exactly when some field before the last
      is, or the last one is. */
  lemma SomeColumnStep(fields: seq<ModelField>, a: string)
    requires fields != []
    ensures HasColumn(fields, a) <==> HasColumn(fields[..|fields| - 1], a) || ColumnOf(fields[|fields| - 1], a)
  {
    if HasColumn(fields[..|fields| - 1], a) {
      EarlierColumn(fields, a);
    }
    if HasColumn(fields, a) && !ColumnOf(fields[|fields| - 1], a) {
      NotLastColumn(fields, a);
    }
  }

  /** A column before the last is a column of the whole list. */
  lemma EarlierColumn(fields: seq<ModelField>, a: string)
    requires fields != [] && HasColumn(fields[..|fields| - 1], a)
    ensures HasColumn(fields, a)
  {
    var init := fields[..|fields| - 1];
    var i :| 0 <= i < |init| && ColumnOf(init[i], a);
    assert init[i] == fields[i];
  }

  /** A column that is not the last one lies before it. */
  lemma NotLastColumn(fields: seq<ModelField>, a: string)
    requires fields != [] && HasColumn(fields, a) && !ColumnOf(fields[|fields| - 1], a)
    ensures HasColumn(fields[..|fields| - 1], a)
  {
    var i :| 0 <= i < |fields| && ColumnOf(fields[i], a);
    assert i != |fields| - 1;
    assert fields[..|fields| - 1][i] == fields[i];
  }

  /** One more field adds at most the name its own column strips to. */
  lemma MeasureFieldKeyStep(fields: seq<ModelField>, a: string)
    requires fields != [] && MeasureFieldsOf(fields).Ok?
    ensures MeasureFieldsOf(fields[..|fields| - 1]).Ok?
    ensures a in MeasureFieldsOf(fields).value.entries <==>
      a in MeasureFieldsOf(fields[..|fields| - 1]).value.entries || ColumnOf(fields[|fields| - 1], a)
  {
    MeasureFieldsStep(fields);
  }

  /** A measure field is required exactly when the last value column of
      its name is not blank: later columns replace earlier entries. */
  lemma {:induction false} MeasureFieldRequired(fields: seq<ModelField>, a: string)
    requires MeasureFieldsOf(fields).Ok? && a in MeasureFieldsOf(fields).value.entries
    ensures exists i ::
      0 <= i < |fields| && LastColumn(fields, i, a) && MeasureFieldsOf(fields).value.entries[a] == !fields[i].blank
    decreases |fields|
  {
    var n := |fields|;
    var init := fields[..n - 1];
    MeasureFieldsStep(fields);
    if ColumnOf(fields[n - 1], a) {
      assert LastColumn(fields, n - 1, a);
    } else {
      MeasureFieldRequired(init, a);
      var i :| 0 <= i < n - 1 && LastColumn(init, i, a) && MeasureFieldsOf(init).value.entries[a] == !init[i].blank;
      LastColumnExtends(fields, i, a);
    }
  }

  /** One more column: the entries before it, updated by it when it is a
      value column. */
  lemma MeasureFieldsStep(fields: seq<ModelField>)
    requires fields != [] && MeasureFieldsOf(fields).Ok?
    ensures MeasureFieldsOf(fields[..|fields| - 1]).Ok?
    ensures var d := MeasureFieldsOf(fields[..|fields| - 1]).value;
      var f := fields[|fields| - 1];
      && (!f.isValueColumn ==> MeasureFieldsOf(fields).value == d)
      && (f.isValueColumn ==>
            FieldAttrName(f.name).Some? && MeasureFieldsOf(fields).value == Put(d, FieldAttrName(f.name).value, !f.blank))
  {
  }

  /** The last column of `a` among all but the last column stays the last
      one when the last column is not one of `a`. */
  lemma LastColumnExtends(fields: seq<ModelField>, i: nat, a: string)
    requires i < |fields| - 1 && LastColumn(fields[..|fields| - 1], i, a) && !ColumnOf(fields[|fields| - 1], a)
    ensures LastColumn(fields, i, a)
  {
    var init := fields[..|fields| - 1];
    assert fields[i] == init[i];
    forall j | i < j < |fields| ensures !ColumnOf(fields[j], a) {
      if j < |fields| - 1 {
        assert fields[j] == init[j];
      }
    }
  }

  /** Column `i` is a value column of `a` and no later column is. */
  predicate LastColumn(fields: seq<ModelField>, i: nat, a: string)
    requires i < |fields|
  {
    ColumnOf(fields[i], a) && forall j :: i < j < |fields| ==> !ColumnOf(fields[j], a)
  }

  /** The inputs of the form: those the model form made itself, and for
      each measure field a choice of measure name and a text input. */
  datatype Input =
    | ModelInput(kind: string)
    | MeasureChoice(choices: seq<(PyValue, string)>, required: bool)
    | MeasureText(required: bool)

  /** The measure choices: `(None, '')` first, then `(k, k)` for every name
      of the measure registry in its order. */
  function MeasureChoices(reg: Dict<ClassRef>): (r: seq<(PyValue, string)>)
    ensures |r| == |reg.keys| + 1
    ensures r[0] == (PyNone, "")
    ensures forall i :: 0 <= i < |reg.keys| ==> r[i + 1] == (Str(reg.keys[i]), reg.keys[i])
  {
    [(PyNone, "")] + seq(|reg.keys|, i requires 0 <= i < |reg.keys| => (Str(reg.keys[i]), reg.keys[i]))
  }

  /** The inputs after the second loop of `__init__` has visited the
      measure fields `ks`. */
  function InputsOf(base: Dict<Input>, mf: Dict<bool>, ks: seq<string>, choices: seq<(PyValue, string)>): (r: Dict<Input>)
    requires base.Valid()
    requires forall i :: 0 <= i < |ks| ==> ks[i] in mf.entries
    ensures r.Valid()
    decreases |ks|
  {
    if ks == [] then base
    else
      var k := ks[|ks| - 1];
      var req := mf.entries[k];
      var F := InputsOf(base, mf, ks[..|ks| - 1], choices);
      Put(Put(F, Fields.MeasureFieldName(k), MeasureChoice(choices, req)), k, MeasureText(req))
  }

  /** No measure field is named like the choice input of another. */
  predicate NoClash(ks: seq<string>) {
    forall i, j :: 0 <= i < |ks| && 0 <= j < |ks| ==> ks[i] != Fields.MeasureFieldName(ks[j])
  }

  lemma SuffixCancels(a: string, b: string, suffix: string)
    requires a + suffix == b + suffix
    ensures a == b
  {
    assert a == (a + suffix)[..|a|];
    assert b == (b + suffix)[..|b|];
  }

  /** One visit of the second loop changes only the two inputs of its
      measure field. */
  lemma InputsStepKeeps(F: Dict<Input>, k: string, choice: Input, text: Input, x: string)
    requires F.Valid() && x in F.entries && x != k && x != Fields.MeasureFieldName(k)
    ensures var R := Put(Put(F, Fields.MeasureFieldName(k), choice), k, text);
      x in R.entries && R.entries[x] == F.entries[x]
  {
  }

  /** Every other input of the model form is kept. */
  lemma {:induction false} InputsOfKeepModelInputs(
    base: Dict<Input>, mf: Dict<bool>, ks: seq<string>, choices: seq<(PyValue, string)>, x: string)
    requires base.Valid() && forall i :: 0 <= i < |ks| ==> ks[i] in mf.entries
    requires x in base.entries && forall i :: 0 <= i < |ks| ==> x != ks[i] && x != Fields.MeasureFieldName(ks[i])
    ensures x in InputsOf(base, mf, ks, choices).entries && InputsOf(base, mf, ks, choices).entries[x] == base.entries[x]
    decreases |ks|
  {
    if ks != [] {
      var n := |ks|;
      var init := ks[..n - 1];
      forall i | 0 <= i < n - 1 ensures init[i] == ks[i] { }
      InputsOfKeepModelInputs(base, mf, init, choices, x);
      var k := ks[n - 1];
      InputsStepKeeps(InputsOf(base, mf, init, choices), k, MeasureChoice(choices, mf.entries[k]), MeasureText(mf.entries[k]), x);
    }
  }

  /** Every measure field gets its text input under its own name and its
      measure choice under `<name>_measure`, both required exactly when
      the field is, as long as no measure field is named like the choice
      input of another. */
  lemma {:induction false} InputsOfMeasureFields(
    base: Dict<Input>, mf: Dict<bool>, ks: seq<string>, choices: seq<(PyValue, string)>, i: nat)
    requires base.Valid() && Distinct(ks) && NoClash(ks)
    requires forall j :: 0 <= j < |ks| ==> ks[j] in mf.entries
    requires i < |ks|
    ensures var R := InputsOf(base, mf, ks, choices);
      && ks[i] in R.entries && R.entries[ks[i]] == MeasureText(mf.entries[ks[i]])
      && Fields.MeasureFieldName(ks[i]) in R.entries
      && R.entries[Fields.MeasureFieldName(ks[i])] == MeasureChoice(choices, mf.entries[ks[i]])
    decreases |ks|
  {
    var n := |ks|;
    var k := ks[n - 1];
    if i < n - 1 {
      var init := ks[..n - 1];
      assert Distinct(init) && NoClash(init) by {
        forall j | 0 <= j < n - 1 ensures init[j] == ks[j] { }
      }
      InputsOfMeasureFields(base, mf, init, choices, i);
      var F := InputsOf(base, mf, init, choices);
      assert init[i] == ks[i];
      assert ks[i] != k && ks[i] != Fields.MeasureFieldName(k) && Fields.MeasureFieldName(ks[i]) != k;
      if Fields.MeasureFieldName(ks[i]) == Fields.MeasureFieldName(k) {
        SuffixCancels(ks[i], k, "_measure");
      }
      InputsStepKeeps(F, k, MeasureChoice(choices, mf.entries[k]), MeasureText(mf.entries[k]), ks[i]);
      InputsStepKeeps(F, k, MeasureChoice(choices, mf.entries[k]), MeasureText(mf.entries[k]), Fields.MeasureFieldName(ks[i]));
    } else {
      assert k != Fields.MeasureFieldName(k);
    }
  }

  // ---------------------------------------------------------------------
  // The form
  // ---------------------------------------------------------------------

  /** `guess_measurement(number, unit, measures=[measure])` of the
      measurement library, which is not part of this model. */
  type Guess = (string, string, ClassRef) -> Result<PyValue>

  const NotValidText := " is not a valid measurement of "

  /** The first loop of `__init__`: `MEASURE_FIELDS` filled field by
      field, stopping at the first value column whose name does not match. */
  method CollectMeasureFields(modelFields: seq<ModelField>) returns (r: Result<Dict<bool>>)
    ensures r == MeasureFieldsOf(modelFields)
  {
    var mf := Empty<bool>();
    for i := 0 to |modelFields|
      invariant MeasureFieldsOf(modelFields[..i]) == Ok(mf)
    {
      var f := modelFields[i];
      assert modelFields[..i + 1][..i] == modelFields[..i];
      if f.isValueColumn {
        var a := FieldAttrName(f.name);
        if a.None? {
          MeasureFieldsFailurePersists(modelFields, i + 1);
          return Err(AttributeError);
        }
        mf := Put(mf, a.value, !f.blank);
      }
    }
    assert modelFields[..|modelFields|] == modelFields;
    return Ok(mf);
  }

  /** The second loop of `__init__`: for each measure field in order, its
      unit choice input and then its magnitude input. */
  method AddMeasureInputs(base: Dict<Input>, mf: Dict<bool>, choices: seq<(PyValue, string)>) returns (inputs: Dict<Input>)
    requires base.Valid() && mf.Valid()
    ensures inputs == InputsOf(base, mf, mf.keys, choices)
  {
    inputs := base;
    for j := 0 to |mf.keys|
      invariant inputs == InputsOf(base, mf, mf.keys[..j], choices)
    {
      var k := mf.keys[j];
      assert mf.keys[..j + 1][..j] == mf.keys[..j];
      inputs := Put(inputs, Fields.MeasureFieldName(k), MeasureChoice(choices, mf.entries[k]));
      inputs := Put(inputs, k, MeasureText(mf.entries[k]));
    }
    assert mf.keys[..|mf.keys|] == mf.keys;
  }

  class AdminForm {
    /** `MEASURE_FIELDS`: measure field name to `required`. */
    var measureFields: Dict<bool>
    /** `self.fields`. */
    var inputs: Dict<Input>
    /** `self.cleaned_data`, which the framework fills from the inputs
        before `clean` runs. */
    var cleaned: Dict<PyValue>

    constructor Init(measureFields: Dict<bool>, inputs: Dict<Input>)
      ensures this.measureFields == measureFields && this.inputs == inputs && cleaned == Empty()
    {
      this.measureFields := measureFields;
      this.inputs := inputs;
      cleaned := Empty();
    }

    /** `__init__`: the measure fields from the model's value columns, then
        for each of them its two inputs; `base` holds the inputs the model
        form made and `reg` the measure registry. The initial values drawn
        from an instance are not modelled. */
    static method New(modelFields: seq<ModelField>, reg: Dict<ClassRef>, base: Dict<Input>) returns (r: Result<AdminForm>)
      requires base.Valid()
      ensures MeasureFieldsOf(modelFields).Err? ==> r == Err(MeasureFieldsOf(modelFields).error)
      ensures MeasureFieldsOf(modelFields).Ok? ==> r.Ok?
      ensures r.Ok? ==>
        var mf := MeasureFieldsOf(modelFields).value;
        && fresh(r.value)
        && r.value.measureFields == mf
        && r.value.inputs == InputsOf(base, mf, mf.keys, MeasureChoices(reg))
        && r.value.cleaned == Empty()
    {
      var fields := CollectMeasureFields(modelFields);
      if fields.Err? {
        return Err(fields.error);
      }
      var mf := fields.value;
      var inputs := AddMeasureInputs(base, mf, MeasureChoices(reg));
      var form := new AdminForm.Init(mf, inputs);
      return Ok(form);
    }

    /** `clean`: for each measure field in order, as `CleanFold` states.
        An exception leaves the changes already made to `cleaned_data`
        in place. */
    method Clean(reg: Dict<ClassRef>, guess: Guess) returns (r: Result<Dict<PyValue>>)
      requires cleaned.Valid()
      modifies this
      ensures var outcome := old(CleanFold(cleaned, measureFields.keys, reg, guess));
        && cleaned == outcome.0
        && (outcome.1.None? ==> r == Ok(cleaned))
        && (outcome.1.Some? ==> r == Err(outcome.1.value))
      ensures measureFields == old(measureFields) && inputs == old(inputs)
    {
      var ks := measureFields.keys;
      var d := cleaned;
      ghost var outcome := CleanFold(d, ks, reg, guess);
      var i := 0;
      while i < |ks|
        invariant 0 <= i <= |ks| && d.Valid()
        invariant CleanFold(d, ks[i..], reg, guess) == outcome
      {
        assert ks[i..][1..] == ks[i + 1..];
        var step := CleanStep(d, ks[i], reg, guess);
        if step.Err? {
          cleaned := d;
          return Err(step.error);
        }
        d := step.value;
        i := i + 1;
      }
      cleaned := d;
      return Ok(d);
    }
  }

  lemma {:induction false} MeasureFieldsFailurePersists(fields: seq<ModelField>, i: nat)
    requires i <= |fields| && MeasureFieldsOf(fields[..i]).Err?
    ensures MeasureFieldsOf(fields) == MeasureFieldsOf(fields[..i])
    decreases |fields| - i
  {
    if i < |fields| {
      assert fields[..i + 1][..i] == fields[..i];
      MeasureFieldsFailurePersists(fields, i + 1);
    } else {
      assert fields[..i] == fields;
    }
  }

  /** One iteration of `clean` for the measure field `field`: it is
      skipped when there is no cleaned `<field>_measure`, or when the text
      or the measure name is falsy; the name is looked up in the registry
      (`KeyError` when it is not there) and the text matched (`TypeError`
      for a non-string). A text of the wrong form, or one the library
      refuses with `ValueError` or `AttributeError`, is the validation
      error naming the text and the lower-cased measure; other errors pass
      through. Success drops `<field>_measure` and stores the measurement
      under `field`. */
  function CleanStep(d: Dict<PyValue>, field: string, reg: Dict<ClassRef>, guess: Guess): (r: Result<Dict<PyValue>>)
    requires d.Valid()
    reads *
    ensures r.Ok? ==> r.value.Valid()
  {
    var mk := Fields.MeasureFieldName(field);
    if mk !in d.entries then Ok(d)
    else
      var name := d.entries[mk];
      var value := if field in d.entries then d.entries[field] else Str("");
      if !Truthy(value) || !Truthy(name) then Ok(d)
      else match CleanMeasure(name, value, reg, guess)
        case Err(e) => Err(e)
        case Ok(v) => Ok(Put(Remove(d, mk), field, v))
  }

  /** What one iteration of `clean` stores for a truthy measure name and
      text, or the error it raises. */
  function CleanMeasure(name: PyValue, value: PyValue, reg: Dict<ClassRef>, guess: Guess): Result<PyValue> {
    if !name.Str? || name.s !in reg.entries then Err(KeyError)
    else if !value.Str? then Err(TypeError)
    else
      var invalid := ValidationError("", value.s + NotValidText + Lower(name.s));
      match SplitValue(value.s)
      case None => Err(invalid)
      case Some(parts) =>
        match guess(parts.0, LookupUnit(parts.1), reg.entries[name.s])
        case Err(e) => if e == ValueError || e == AttributeError then Err(invalid) else Err(e)
        case Ok(v) => Ok(v)
  }

  /** The loop of `clean` over the measure fields `ks`: the cleaned data
      it leaves and the exception that stopped it, if any. */
  function CleanFold(d: Dict<PyValue>, ks: seq<string>, reg: Dict<ClassRef>, guess: Guess): (r: (Dict<PyValue>, Option<Error>))
    requires d.Valid()
    reads *
    ensures r.0.Valid()
    decreases |ks|
  {
    if ks == [] then (d, None)
    else
      match CleanStep(d, ks[0], reg, guess)
      case Err(e) => (d, Some(e))
      case Ok(next) => CleanFold(next, ks[1..], reg, guess)
  }

  /** A text that is not `<number> <unit>` under a known measure name is
      rejected with the message naming the text and the lower-cased name. */
  lemma MalformedTextIsRejected(d: Dict<PyValue>, field: string, reg: Dict<ClassRef>, guess: Guess, text: string, name: string)
    requires d.Valid()
    requires Fields.MeasureFieldName(field) in d.entries && d.entries[Fields.MeasureFieldName(field)] == Str(name)
    requires field in d.entries && d.entries[field] == Str(text)
    requires name != "" && name in reg.entries && text != ""
    requires forall number, unit :: !SplitForm(text, number, unit)
    ensures CleanStep(d, field, reg, guess) == Err(ValidationError("", text + NotValidText + Lower(name)))
  {
  }

  /** A measure field is left as it is when its measure choice was not
      cleaned, or when its text (missing counts as `''`) or its measure
      name is falsy. */
  lemma CleanStepSkips(d: Dict<PyValue>, field: string, reg: Dict<ClassRef>, guess: Guess)
    requires d.Valid()
    requires var mk := Fields.MeasureFieldName(field);
      || mk !in d.entries || !Truthy(d.entries[mk])
      || field !in d.entries || !Truthy(d.entries[field])
    ensures CleanStep(d, field, reg, guess) == Ok(d)
  {
  }

  /** A successful step removes `<field>_measure`, stores what the library
      built under `field`, and leaves every other entry as it was. */
  lemma CleanStepStores(d: Dict<PyValue>, field: string, reg: Dict<ClassRef>, guess: Guess)
    requires d.Valid()
    requires Fields.MeasureFieldName(field) in d.entries
    requires CleanStep(d, field, reg, guess).Ok? && CleanStep(d, field, reg, guess) != Ok(d)
    ensures var name := d.entries[Fields.MeasureFieldName(field)];
      && name.Str? && name.s in reg.entries && field in d.entries && d.entries[field].Str?
      && SplitValue(d.entries[field].s).Some?
      && var parts := SplitValue(d.entries[field].s).value;
      && guess(parts.0, LookupUnit(parts.1), reg.entries[name.s]).Ok?
      && CleanStep(d, field, reg, guess).value.entries ==
           (d.entries - {Fields.MeasureFieldName(field)})[field := guess(parts.0, LookupUnit(parts.1), reg.entries[name.s]).value]
  {
  }

  /** One step keeps every entry other than `field` and
      `<field>_measure`, and adds no name but `field`. */
  lemma CleanStepKeepsOthers(d: Dict<PyValue>, field: string, reg: Dict<ClassRef>, guess: Guess)
    requires d.Valid() && CleanStep(d, field, reg, guess).Ok?
    ensures var next := CleanStep(d, field, reg, guess).value;
      && (forall x :: x in d.entries && x != field && x != Fields.MeasureFieldName(field) ==>
            x in next.entries && next.entries[x] == d.entries[x])
      && (forall x :: x in next.entries ==> x in d.entries || x == field)
  {
    var mk := Fields.MeasureFieldName(field);
    if CleanStep(d, field, reg, guess) != Ok(d) {
      var value := if field in d.entries then d.entries[field] else Str("");
      var v := CleanMeasure(d.entries[mk], value, reg, guess).value;
      assert CleanStep(d, field, reg, guess) == Ok(Put(Remove(d, mk), field, v));
      ReplaceKeepsOthers(d, mk, field, v);
    }
  }

  /** Dropping `mk` and storing under `field` keeps every other entry and
      adds no other name. */
  lemma ReplaceKeepsOthers<V>(d: Dict<V>, mk: string, field: string, v: V)
    requires d.Valid()
    ensures var next := Put(Remove(d, mk), field, v);
      && (forall x :: x in d.entries && x != field && x != mk ==> x in next.entries && next.entries[x] == d.entries[x])
      && (forall x :: x in next.entries ==> x in d.entries || x == field)
  {
  }

  /** Whether `clean` finishes or stops on an exception, the entries that
      are neither a measure field nor its `_measure` companion keep their
      values, and no new names appear besides the measure fields. */
  lemma {:induction false} CleanFoldKeepsOthers(d: Dict<PyValue>, ks: seq<string>, reg: Dict<ClassRef>, guess: Guess, x: string)
    requires d.Valid()
    ensures x in d.entries && (forall i :: 0 <= i < |ks| ==> x != ks[i] && x != Fields.MeasureFieldName(ks[i])) ==>
      x in CleanFold(d, ks, reg, guess).0.entries && CleanFold(d, ks, reg, guess).0.entries[x] == d.entries[x]
    ensures x in CleanFold(d, ks, reg, guess).0.entries ==> x in d.entries || x in ks
    decreases |ks|
  {
    if ks != [] {
      var step := CleanStep(d, ks[0], reg, guess);
      if step.Ok? {
        CleanStepKeepsOthers(d, ks[0], reg, guess);
        CleanFoldKeepsOthers(step.value, ks[1..], reg, guess, x);
        assert forall i :: 0 <= i < |ks[1..]| ==> ks[1..][i] == ks[i + 1];
      }
    }
  }
}
