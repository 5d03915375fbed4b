/** `django_measurement/models.py`: the single-column model field. It stores a
    measure as one float, the magnitude in the class's standard unit, and
    turns floats read back into measures of its configured class. */
module Models {
  import opened Outcomes
  import opened Backports
  import opened Values
  import opened Utils

  // ---------------------------------------------------------------------
  // The field and its construction
  // ---------------------------------------------------------------------

  /** One entry of a field's `choices`: a plain `(key, label)` option, or a
      named group whose second element is a list of options (an optgroup). */
  datatype Choice =
    | Single(key: PyValue, text: string)
    | Group(name: string, items: seq<(PyValue, string)>)

  /** What the base float field keeps and reports back from `deconstruct`. */
  datatype Options = Options(verboseName: string, blank: bool, nullable: bool, editable: bool, choices: seq<Choice>)

  /** A constructed `MeasurementField`. An absent `unit_choices` (`None`) is
      the empty sequence, and an absent bound is `PyNone`. */
  datatype Field = Field(
    name: string,
    measurement: MeasureClass,
    measurementClass: string,
    minValue: PyValue,
    maxValue: PyValue,
    unitChoices: seq<(string, string)>,
    options: Options)

  /** `__init__`: a falsy `measurement` is looked up by `measurement_class`
      ("" when not given) in the measures module, where a missing name is
      an `AttributeError`; no measurement at all, or anything that is not a
      measure class, is a `TypeError`. `measurement_class` is then the
      class's own name, whatever name was passed. */
  function Construct(
    measures: map<string, ClassRef>, name: string, measurement: Option<ClassRef>, measurementClass: string,
    unitChoices: seq<(string, string)>, minValue: PyValue, maxValue: PyValue, options: Options): (r: Result<Field>)
    ensures measurement.None? && measurementClass != "" && measurementClass !in measures ==>
      r == Err(AttributeError)
    ensures measurement.Some? ==> (r.Ok? <==> measurement.value.MeasureRef?)
    ensures measurement.None? ==>
      (r.Ok? <==> measurementClass != "" && measurementClass in measures && measures[measurementClass].MeasureRef?)
    ensures r.Err? && !(measurement.None? && measurementClass != "" && measurementClass !in measures) ==>
      r.error == TypeError
    ensures r.Ok? ==>
      && MeasureRef(r.value.measurement) == (if measurement.Some? then measurement.value else measures[measurementClass])
      && r.value.measurementClass == r.value.measurement.name
      && r.value.name == name && r.value.options == options && r.value.unitChoices == unitChoices
      && r.value.minValue == minValue && r.value.maxValue == maxValue
  {
    var resolved :-
      if measurement.Some? then Ok(Some(measurement.value))
      else if measurementClass == "" then Ok(None)
      else if measurementClass in measures then Ok(Some(measures[measurementClass]))
      else Err(AttributeError);
    if resolved.None? then Err(TypeError)
    else if !resolved.value.MeasureRef? then Err(TypeError)
    else
      var c := resolved.value.c;
      Ok(Field(name, c, c.name, minValue, maxValue, unitChoices, options))
  }

  /** The import path `deconstruct` reports. */
  const FieldPath := "django_measurement.models.MeasurementField"

  /** `deconstruct`'s `(name, path, args, kwargs)`: the base field's keyword
      arguments plus `measurement_class`. */
  datatype Deconstructed = Deconstructed(
    name: string, path: string, args: seq<PyValue>, kwargs: Options, measurementClass: string)

  function Deconstruct(f: Field): (r: Deconstructed)
    ensures r.path == FieldPath && r.args == []
  {
    Deconstructed(f.name, FieldPath, [], f.options, f.measurementClass)
  }

  /** Rebuilding a field from what `deconstruct` reports, with the measures
      module that named its class, gives a field of the same class that
      deconstructs to the same tuple. The unit choices and bounds are not
      part of that tuple, so the rebuilt field has none. */
  lemma RebuildFromDeconstruct(
    measures: map<string, ClassRef>, name: string, measurement: Option<ClassRef>, measurementClass: string,
    unitChoices: seq<(string, string)>, minValue: PyValue, maxValue: PyValue, options: Options, f: Field)
    requires Construct(measures, name, measurement, measurementClass, unitChoices, minValue, maxValue, options) == Ok(f)
    requires f.measurement.name != "" && f.measurement.name in measures
    requires measures[f.measurement.name] == MeasureRef(f.measurement)
    ensures var d := Deconstruct(f);
      var g := Construct(measures, d.name, None, d.measurementClass, [], PyNone, PyNone, d.kwargs);
      && g.Ok? && g.value.measurement == f.measurement && Deconstruct(g.value) == d
      && g.value.unitChoices == [] && g.value.minValue == PyNone && g.value.maxValue == PyNone
  {
  }

  // ---------------------------------------------------------------------
  // Storage: `get_prep_value` and `to_python`
  // ---------------------------------------------------------------------

  /** `get_prep_value`: `None` stays `None`, a measure of any class is its
      standard magnitude, anything else goes to the float field's
      `float(value)`. */
  function GetPrepValue(value: PyValue, parse: string -> Option<real>): (r: Result<PyValue>)
    reads ObjectsOf(value)
    ensures value.PyNone? ==> r == Ok(PyNone)
    ensures value.Meas? ==> r == Ok(Num(value.m.standard))
    ensures !value.PyNone? && !value.Meas? ==>
      var x := ToFloat(value, parse);
      (r.Ok? <==> x.Ok?) && (r.Ok? ==> r.value == Num(x.value)) && (r.Err? ==> r.error == x.error)
  {
    if value.PyNone? then Ok(PyNone)
    else if value.Meas? then Ok(Num(value.m.standard))
    else
      var x := ToFloat(value, parse);
      if x.Ok? then Ok(Num(x.value)) else Err(x.error)
  }

  const InvalidFloat := ValidationError("invalid", "")
  const InvalidType := ValidationError("invalid_type", "")

  /** The model float field's `to_python`: `None` stays `None`, a number or
      a numeric string is that float, and anything else (the empty string,
      a non-numeric string, a placeholder) fails in `float()` and becomes
      the `invalid` validation error; empty strings are not allowed. */
  function FloatToPython(value: PyValue, parse: string -> Option<real>): (r: Result<Option<real>>)
    ensures value.PyNone? ==> r == Ok(None)
    ensures value.Num? ==> r == Ok(Some(value.x))
    ensures value == Str("") ==> r == Err(InvalidFloat)
    ensures value.Str? && value.s != "" ==>
      (r.Ok? <==> parse(value.s).Some?) && (r.Ok? ==> r.value == parse(value.s))
    ensures r.Err? ==> r.error == InvalidFloat
    ensures r.Ok? ==> value.PyNone? || value.Num? || value.Str?
    ensures r.Ok? && r.value.None? ==> value.PyNone?
  {
    if value.PyNone? then Ok(None)
    else match ToFloat(value, parse)
      case Ok(x) => Ok(Some(x))
      case Err(_) => Err(InvalidFloat)
  }

  /** The original unit `to_python` restores: the key of the first unit
      choice when there are any, and none ("") otherwise. */
  function OriginalUnit(f: Field): string {
    if f.unitChoices != [] then f.unitChoices[0].0 else ""
  }

  /** `to_python` as written: it calls `get_measurement` without its
      required `unit` argument, so every raw value the float field accepts
      ends in a `TypeError`. */
  function ToPythonAsWritten(f: Field, value: PyValue, parse: string -> Option<real>): (r: Result<PyValue>)
    reads ObjectsOf(value)
    ensures value.PyNone? ==> r == Ok(PyNone)
    ensures value.Meas? && value.m.cls == f.measurement ==> r == Ok(value)
    ensures value.Meas? && value.m.cls != f.measurement ==> r == Err(InvalidType)
    ensures !value.PyNone? && !value.Meas? ==>
      r.Err? && (FloatToPython(value, parse).Ok? ==> r.error == TypeError)
    ensures !value.PyNone? && !value.Meas? && FloatToPython(value, parse).Err? ==>
      r == Err(FloatToPython(value, parse).error)
  {
    match value
    case PyNone => Ok(PyNone)
    case Meas(m) => if m.cls == f.measurement then Ok(value) else Err(InvalidType)
    case _ =>
      match FloatToPython(value, parse)
      case Err(e) => Err(e)
      case Ok(_) => Err(TypeError)
  }

  /** The floats a field stores are never read back by `to_python` as
      written: the stored standard magnitude of any measure of the field's
      class fails with `TypeError`. */
  lemma StoredValueFailsAsWritten(f: Field, m: Measure, parse: string -> Option<real>)
    requires m.cls == f.measurement
    ensures GetPrepValue(Meas(m), parse) == Ok(Num(m.standard))
    ensures ToPythonAsWritten(f, Num(m.standard), parse) == Err(TypeError)
  {
  }

  /** The state the corrected `to_python` gives the measure it builds from
      a float `x`: `get_measurement(measurement, x, STANDARD_UNIT,
      first unit choice)`. */
  function Restore(f: Field, x: real): Result<(real, string)> {
    InitState(f.measurement, OriginalUnit(f), [(f.measurement.standardUnit, x)])
  }

  /** `to_python` with the standard unit passed to `get_measurement`:
      `None` and measures of the field's class pass through unchanged, a
      measure of another class is the `invalid_type` validation error, and
      a raw value is read by the float field and rebuilt as a measure in
      the standard unit that shows the first unit choice. */
  method ToPython(f: Field, value: PyValue, parse: string -> Option<real>) returns (r: Result<PyValue>)
    ensures value.PyNone? ==> r == Ok(PyNone)
    ensures value.Meas? && value.m.cls == f.measurement ==> r == Ok(value)
    ensures value.Meas? && value.m.cls != f.measurement ==> r == Err(InvalidType)
    ensures !value.PyNone? && !value.Meas? ==>
      var x := FloatToPython(value, parse);
      && (x.Err? ==> r == Err(x.error))
      && (x.Ok? ==>
            var st := Restore(f, x.value.value);
            && (r.Ok? <==> st.Ok?) && (r.Err? ==> r.error == st.error)
            && (r.Ok? ==>
                  && r.value.Meas? && fresh(r.value.m) && r.value.m.cls == f.measurement
                  && r.value.m.standard == st.value.0 && r.value.m.unit == st.value.1
                  && (f.measurement.IsBidimensional() ==> r.value.m.referenceValue == 1.0)))
  {
    if value.PyNone? {
      return Ok(PyNone);
    }
    if value.Meas? {
      if value.m.cls == f.measurement {
        return Ok(value);
      }
      return Err(InvalidType);
    }
    var x := FloatToPython(value, parse);
    if x.Err? {
      return Err(x.error);
    }
    var m := GetMeasurement(f.measurement, x.value.value, f.measurement.standardUnit, OriginalUnit(f));
    if m.Err? {
      return Err(m.error);
    }
    return Ok(Meas(m.value));
  }

  /** Storing a measure of the field's class and reading the float back
      with the corrected `to_python` keeps its standard magnitude; the
      unit shown is the first unit choice, or the standard unit when the
      field has none. */
  lemma StorageRoundTrip(f: Field, m: Measure, parse: string -> Option<real>)
    requires WellFormed(f.measurement) && m.cls == f.measurement
    ensures GetPrepValue(Meas(m), parse) == Ok(Num(m.standard))
    ensures FloatToPython(Num(m.standard), parse) == Ok(Some(m.standard))
    ensures Restore(f, m.standard) ==
      Ok((m.standard, if OriginalUnit(f) != "" then OriginalUnit(f) else f.measurement.standardUnit))
  {
    RebuildFromStandard(f.measurement, OriginalUnit(f), m.standard);
  }

  // ---------------------------------------------------------------------
  // Validation: `validate` and `min_max_validation`
  // ---------------------------------------------------------------------

  function ChoiceObjects(c: Choice): set<object> {
    match c
    case Single(k, _) => ObjectsOf(k)
    case Group(_, items) => set j | 0 <= j < |items| && items[j].0.Meas? :: items[j].0.m
  }

  function ChoicesObjects(cs: seq<Choice>): set<object> {
    set i, o | 0 <= i < |cs| && o in ChoiceObjects(cs[i]) :: o
  }

  /** `value == key` for the key of an option, or for one of a group's keys. */
  predicate MatchesChoice(value: PyValue, c: Choice)
    reads ObjectsOf(value), ChoiceObjects(c)
  {
    match c
    case Single(k, _) => PyEq(value, k)
    case Group(_, items) => exists j :: 0 <= j < |items| && PyEq(value, items[j].0)
  }

  predicate InChoices(value: PyValue, cs: seq<Choice>)
    reads ObjectsOf(value), ChoicesObjects(cs)
  {
    exists i :: 0 <= i < |cs| && MatchesChoice(value, cs[i])
  }

  /** `value.value`: a measure's magnitude in its own unit, a placeholder's
      stored value; anything else has no such attribute. */
  function ValueOf(v: PyValue): (r: Result<real>)
    reads ObjectsOf(v)
    ensures v.Meas? ==> r == v.m.Value()
    ensures v.Unknown? ==> r == Ok(v.u.value)
    ensures !v.Meas? && !v.Unknown? ==> r == Err(AttributeError)
  {
    match v
    case Meas(m) => m.Value()
    case Unknown(u) => Ok(u.value)
    case _ => Err(AttributeError)
  }

  const MinMessage := "Ensure this value is greater than or equal to %(min_value)."
  const MaxMessage := "Ensure this value is less than or equal to %(max_value)."

  /** One bound of `min_max_validation`: a falsy bound is skipped; a truthy
      one is compared with `value.value` (`atLeast` for the minimum).
      Only a number compares with a float; any other bound leaves both
      sides answering `NotImplemented`, a `TypeError`. */
  function CheckBound(value: PyValue, bound: PyValue, atLeast: bool): (r: Result<()>)
    reads ObjectsOf(value), ObjectsOf(bound)
  {
    if !Truthy(bound) then Ok(())
    else
      match ValueOf(value)
      case Err(e) => Err(e)
      case Ok(x) =>
        if !bound.Num? then Err(TypeError)
        else if atLeast then (if x >= bound.x then Ok(()) else Err(ValidationError("", MinMessage)))
        else (if x <= bound.x then Ok(()) else Err(ValidationError("", MaxMessage)))
  }

  function BoundObjects(f: Field): set<object> {
    ObjectsOf(f.minValue) + ObjectsOf(f.maxValue)
  }

  /** `min_max_validation`: the minimum first, then the maximum. With
      numeric bounds and a readable magnitude, the value passes exactly
      when it lies within every truthy bound; a failing minimum is
      reported before the maximum is looked at. */
  function MinMax(f: Field, value: PyValue): (r: Result<()>)
    reads ObjectsOf(value), BoundObjects(f)
    ensures !Truthy(f.minValue) && !Truthy(f.maxValue) ==> r == Ok(())
    ensures ValueOf(value).Ok? && (Truthy(f.minValue) ==> f.minValue.Num?) && (Truthy(f.maxValue) ==> f.maxValue.Num?) ==>
      (r.Ok? <==>
        (Truthy(f.minValue) ==> ValueOf(value).value >= f.minValue.x) &&
        (Truthy(f.maxValue) ==> ValueOf(value).value <= f.maxValue.x))
    ensures r == Err(ValidationError("", MinMessage)) ==>
      Truthy(f.minValue) && f.minValue.Num? && ValueOf(value).Ok? && ValueOf(value).value < f.minValue.x
    ensures r == Err(ValidationError("", MaxMessage)) ==>
      Truthy(f.maxValue) && f.maxValue.Num? && ValueOf(value).Ok? && ValueOf(value).value > f.maxValue.x
    ensures (Truthy(f.minValue) || Truthy(f.maxValue)) && ValueOf(value).Err? ==> r == Err(ValueOf(value).error)
  {
    match CheckBound(value, f.minValue, true)
    case Err(e) => Err(e)
    case Ok(_) => CheckBound(value, f.maxValue, false)
  }

  const InvalidChoice := ValidationError("invalid_choice", "")
  const NullError := ValidationError("null", "")
  const BlankError := ValidationError("blank", "")

  /** What `validate` decides, check by check: a non-editable field accepts
      everything; with choices, a non-empty value is accepted as soon as it
      equals a key (skipping the remaining checks) and rejected otherwise;
      then `None` on a non-null field, then an empty value on a non-blank
      field, then the bounds. */
  function Verdict(f: Field, value: PyValue): Result<()>
    reads ObjectsOf(value), ChoicesObjects(f.options.choices), BoundObjects(f)
  {
    if !f.options.editable then Ok(())
    else if f.options.choices != [] && !IsEmpty(value) then
      (if InChoices(value, f.options.choices) then Ok(()) else Err(InvalidChoice))
    else if value.PyNone? && !f.options.nullable then Err(NullError)
    else if !f.options.blank && IsEmpty(value) then Err(BlankError)
    else MinMax(f, value)
  }

  /** `validate`, with its loops over the choices and the options of each
      group and its early returns. */
  method Validate(f: Field, value: PyValue) returns (r: Result<()>)
    ensures r == Verdict(f, value)
  {
    if !f.options.editable {
      return Ok(());
    }
    var choices := f.options.choices;
    if choices != [] && !IsEmpty(value) {
      for i := 0 to |choices|
        invariant forall i' :: 0 <= i' < i ==> !MatchesChoice(value, choices[i'])
      {
        match choices[i]
        case Single(k, _) =>
          if PyEq(value, k) {
            return Ok(());
          }
        case Group(_, items) =>
          for j := 0 to |items|
            invariant forall j' :: 0 <= j' < j ==> !PyEq(value, items[j'].0)
          {
            if PyEq(value, items[j].0) {
              assert MatchesChoice(value, choices[i]);
              return Ok(());
            }
          }
      }
      return Err(InvalidChoice);
    }
    if value.PyNone? && !f.options.nullable {
      return Err(NullError);
    }
    if !f.options.blank && IsEmpty(value) {
      return Err(BlankError);
    }
    r := MinMax(f, value);
  }

  /** A non-null editable field rejects `None` with the `null` error,
      before choices, blankness or bounds are looked at. */
  lemma NullRejectedFirst(f: Field)
    requires f.options.editable && !f.options.nullable
    ensures Verdict(f, PyNone) == Err(NullError)
  {
  }

  /** A value equal to one of the choices is accepted whatever the bounds
      say: the choice check returns before `min_max_validation`. */
  lemma ChoiceSkipsBounds(f: Field, value: PyValue, i: nat)
    requires f.options.editable && !IsEmpty(value)
    requires i < |f.options.choices| && MatchesChoice(value, f.options.choices[i])
    ensures Verdict(f, value) == Ok(())
  {
  }

  /** Without choices, an editable field accepts a measure exactly when it
      is not rejected as `None` or empty and its magnitude lies within the
      truthy numeric bounds. */
  lemma AcceptedMeasureIsWithinBounds(f: Field, m: Measure)
    requires f.options.editable && f.options.choices == []
    requires m.Value().Ok?
    requires (Truthy(f.minValue) ==> f.minValue.Num?) && (Truthy(f.maxValue) ==> f.maxValue.Num?)
    ensures Verdict(f, Meas(m)).Ok? <==>
      (Truthy(f.minValue) ==> m.Value().value >= f.minValue.x) &&
      (Truthy(f.maxValue) ==> m.Value().value <= f.maxValue.x)
  {
    assert !IsEmpty(Meas(m));
    assert Verdict(f, Meas(m)) == MinMax(f, Meas(m));
  }

  /** A bound of zero is falsy and so never enforced: with `min_value`
      0.0 a measure of negative magnitude passes. */
  lemma ZeroBoundIsIgnored(f: Field, value: PyValue)
    requires f.minValue == Num(0.0) && !Truthy(f.maxValue)
    ensures MinMax(f, value) == Ok(())
  {
  }
}
