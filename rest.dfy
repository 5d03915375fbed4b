/** `django_measurement/rest_framework.py`: the REST serializer field. It
    shows a measure as its unit and its magnitude in that unit, and builds
    a measure back from such a pair after checking the unit and then the
    value. */
module Rest {
  import opened Outcomes
  import opened Backports
  import opened Values
  import opened Dicts

  /** `is_valid_unit`: whether the unit is one of `get_units()` of the
      class, which `units` stands for (a call into the measurement
      library). Only a string can equal a unit name. */
  predicate IsValidUnit(unit: PyValue, units: seq<string>) {
    unit.Str? && unit.s in units
  }

  /** `is_valid_decimal`: `Decimal(v)`. A number converts exactly; a
      string is read by `parse`, the decimal syntax of the library, and
      one it refuses raises `InvalidOperation`; anything else is a
      `TypeError`. */
  function ToDecimal(v: PyValue, parse: string -> Option<real>): (r: Result<real>)
    ensures v.Str? && parse(v.s).None? ==> r == Err(InvalidOperation)
    ensures !v.Num? && !v.Str? ==> r == Err(TypeError)
  {
    if v.Num? then Ok(v.x)
    else if !v.Str? then Err(TypeError)
    else if parse(v.s).None? then Err(InvalidOperation)
    else Ok(parse(v.s).value)
  }

  /** The two messages of `default_error_messages`; `show` stands for the
      `str()` that `format` applies to the offending value. */
  function UnitMessage(c: MeasureClass, unit: PyValue, show: PyValue -> string): string {
    "Invalid unit. " + show(unit) + " is not a valid " + c.name + " unit"
  }

  function ValueMessage(c: MeasureClass, value: PyValue, show: PyValue -> string): string {
    "Invalid value. " + show(value) + " is not a valid " + c.name + " value"
  }

  /** `to_internal_value(data)` up to the construction: the state
      `measurement_class(**{unit: value})` starts in, or the exception
      raised first. The unit is read and checked before the value is
      looked at; a missing key is a `KeyError`, and a value whose decimal
      is zero is falsy and so refused like an invalid one. */
  function InternalValueOf(c: MeasureClass, units: seq<string>, data: Dict<PyValue>,
                           parse: string -> Option<real>, show: PyValue -> string): (r: Result<(real, string)>)
    ensures "unit" !in data.entries ==> r == Err(KeyError)
    ensures "unit" in data.entries && !IsValidUnit(data.entries["unit"], units) ==>
      r == Err(ValidationError("invalid_unit", UnitMessage(c, data.entries["unit"], show)))
    ensures r.Ok? ==>
      && "unit" in data.entries && IsValidUnit(data.entries["unit"], units)
      && "value" in data.entries && ToDecimal(data.entries["value"], parse).Ok?
      && ToDecimal(data.entries["value"], parse).value != 0.0
      && r == InitState(c, "", [(data.entries["unit"].s, ToDecimal(data.entries["value"], parse).value)])
  {
    if "unit" !in data.entries then Err(KeyError)
    else
      var unit := data.entries["unit"];
      if !IsValidUnit(unit, units) then Err(ValidationError("invalid_unit", UnitMessage(c, unit, show)))
      else if "value" !in data.entries then Err(KeyError)
      else
        var value := data.entries["value"];
        match ToDecimal(value, parse)
        case Err(e) => Err(e)
        case Ok(x) =>
          if x == 0.0 then Err(ValidationError("invalid_value", ValueMessage(c, value, show)))
          else InitState(c, "", [(unit.s, x)])
  }

  /** `MeasurementSerializerField` with its `measurement_class`. */
  datatype SerializerField = SerializerField(measurementClass: MeasureClass)

  /** `to_internal_value`: the checks of `InternalValueOf`, then a new
      measure of the field's class. */
  method ToInternalValue(f: SerializerField, units: seq<string>, data: Dict<PyValue>,
                         parse: string -> Option<real>, show: PyValue -> string) returns (r: Result<Measure>)
    ensures Produced(r, f.measurementClass, InternalValueOf(f.measurementClass, units, data, parse, show))
    ensures r.Ok? ==> fresh(r.value)
  {
    var c := f.measurementClass;
    if "unit" !in data.entries {
      return Err(KeyError);
    }
    var unit := data.entries["unit"];
    if !IsValidUnit(unit, units) {
      return Err(ValidationError("invalid_unit", UnitMessage(c, unit, show)));
    }
    if "value" !in data.entries {
      return Err(KeyError);
    }
    var value := data.entries["value"];
    var x := ToDecimal(value, parse);
    if x.Err? {
      return Err(x.error);
    }
    if x.value == 0.0 {
      return Err(ValidationError("invalid_value", ValueMessage(c, value, show)));
    }
    r := Measure.New(c, "", [(unit.s, x.value)]);
  }

  /** `to_representation`: a dict with exactly `unit` and `value`, the
      measure's unit and its magnitude read in that unit (which fails as
      `getattr` does when the unit is not one of the class). */
  function ToRepresentation(m: Measure): (r: Result<Dict<PyValue>>)
    reads m
    ensures r.Ok? <==> m.Value().Ok?
    ensures r.Err? ==> r.error == m.Value().error
    ensures r.Ok? ==> r.value.Valid() && r.value.keys == ["unit", "value"]
    ensures r.Ok? ==> r.value.entries == map["unit" := Str(m.unit), "value" := Num(m.Value().value)]
  {
    match m.Value()
    case Err(e) => Err(e)
    case Ok(x) => Ok(Dict(["unit", "value"], map["unit" := Str(m.unit), "value" := Num(x)]))
  }

  /** Sending a representation back builds the measure it came from (same
      class, standard magnitude and unit), except that a zero measure is
      refused with `invalid_value`. */
  lemma RepresentationRoundTrip(m: Measure, units: seq<string>, parse: string -> Option<real>, show: PyValue -> string)
    requires WellFormed(m.cls) && m.unit in m.cls.units && m.unit in units
    ensures ToRepresentation(m).Ok?
    ensures var back := InternalValueOf(m.cls, units, ToRepresentation(m).value, parse, show);
      && (m.standard != 0.0 ==> back == Ok((m.standard, m.unit)))
      && (m.standard == 0.0 ==> back.Err? && back.error.ValidationError? && back.error.code == "invalid_value")
  {
    BuildFromReading(m.cls, m.standard, m.unit);
    var x := ReadUnit(m.cls, m.standard, m.unit).value;
    var f := m.cls.units[m.unit];
    if m.unit != m.cls.standardUnit {
      assert x == m.standard / f;
      if x == 0.0 {
        DivideBack(f, m.standard / f);
        assert m.standard == f * x;
      }
    }
  }

  /** The unit is checked before the value: two payloads with the same
      invalid unit fail alike, whatever else they hold. */
  lemma UnitCheckedFirst(c: MeasureClass, units: seq<string>, d1: Dict<PyValue>, d2: Dict<PyValue>,
                         parse: string -> Option<real>, show: PyValue -> string)
    requires "unit" in d1.entries && "unit" in d2.entries && d1.entries["unit"] == d2.entries["unit"]
    requires !IsValidUnit(d1.entries["unit"], units)
    ensures InternalValueOf(c, units, d1, parse, show) == InternalValueOf(c, units, d2, parse, show)
    ensures InternalValueOf(c, units, d1, parse, show).Err?
  {
  }

  /** A valid unit with a value whose decimal is zero is refused with
      `invalid_value`, even though a zero measure is well defined. */
  lemma ZeroValueIsRefused(c: MeasureClass, units: seq<string>, data: Dict<PyValue>,
                           parse: string -> Option<real>, show: PyValue -> string)
    requires "unit" in data.entries && IsValidUnit(data.entries["unit"], units)
    requires "value" in data.entries && ToDecimal(data.entries["value"], parse) == Ok(0.0)
    ensures InternalValueOf(c, units, data, parse, show) ==
      Err(ValidationError("invalid_value", ValueMessage(c, data.entries["value"], show)))
  {
  }
}
