/** `django_measurement/forms.py`: the two-part form field (a float and a
    unit choice). It shows a measure as a magnitude and a unit, and it
    rebuilds a measure from what was entered. */
module Forms {
  import opened Outcomes
  import opened Backports
  import opened Values
  import opened Utils
  import Dicts

  // ---------------------------------------------------------------------
  // Unit choices
  // ---------------------------------------------------------------------

  /** The keys of a choice list, in order. */
  function Keys(choices: seq<(string, string)>): (r: seq<string>)
    ensures |r| == |choices|
    ensures forall i :: 0 <= i < |choices| ==> r[i] == choices[i].0
  {
    seq(|choices|, i requires 0 <= i < |choices| => choices[i].0)
  }

  /** The key of a bidimensional choice: `'{0}__{1}'.format(primary, reference)`. */
  function PairKey(primary: string, reference: string): string {
    primary + "__" + reference
  }

  /** The default choices of a linear measure: `(u, u)` for every unit, in
      the order `UNITS` iterates. */
  function LinearChoices(c: MeasureClass): (r: seq<(string, string)>)
    ensures |r| == |c.unitOrder|
    ensures forall i :: 0 <= i < |r| ==> r[i] == (c.unitOrder[i], c.unitOrder[i])
  {
    seq(|c.unitOrder|, i requires 0 <= i < |c.unitOrder| => (c.unitOrder[i], c.unitOrder[i]))
  }

  /** A choice whose key and label are the same string. */
  function Both(s: string): (string, string) {
    (s, s)
  }

  /** The default choices of a bidimensional measure: `p__r` for every pair
      of a primary unit `p` and a reference unit `r`, in the order
      `itertools.product` yields them (primary units outermost), with the
      same string as key and label. */
  function ProductChoices(primary: seq<string>, reference: seq<string>): (r: seq<(string, string)>)
    ensures |r| == |primary| * |reference|
    ensures forall k :: 0 <= k < |r| ==> r[k].0 == r[k].1
  {
    var n := |reference|;
    seq(|primary| * n, k requires 0 <= k < |primary| * n =>
      ProductIndex(|primary|, n, k);
      Both(PairKey(primary[k / n], reference[k % n])))
  }

  /** The pair of the `i`-th primary unit and the `j`-th reference unit is
      choice number `i * |reference| + j`. */
  lemma ProductChoicesOfferEveryPair(primary: seq<string>, reference: seq<string>, i: nat, j: nat)
    requires i < |primary| && j < |reference|
    ensures i * |reference| + j < |ProductChoices(primary, reference)|
    ensures ProductChoices(primary, reference)[i * |reference| + j] == Both(PairKey(primary[i], reference[j]))
  {
    ProductPosition(|primary|, |reference|, i, j);
  }

  lemma MulMono(x: int, y: int, b: nat)
    requires x >= y
    ensures x * b >= y * b
  {
  }

  /** Position `k` of an `a` by `b` product lies at row `k / b`, column `k % b`. */
  lemma ProductIndex(a: nat, b: nat, k: int)
    requires 0 <= k < a * b
    ensures b > 0 && 0 <= k / b < a && 0 <= k % b < b
  {
    if b == 0 {
    } else if k / b >= a {
      MulMono(k / b, a, b);
    }
  }

  /** Row `i`, column `j` of an `a` by `b` product is position `i * b + j`. */
  lemma ProductPosition(a: nat, b: nat, i: nat, j: nat)
    requires i < a && j < b
    ensures i * b + j < a * b
    ensures (i * b + j) / b == i && (i * b + j) % b == j
  {
    MulMono(a, i + 1, b);
    assert (i + 1) * b == i * b + b;
    DivUnique(i * b + j, b, i, j);
  }

  /** Euclidean division has one quotient and remainder. */
  lemma DivUnique(k: int, b: nat, q: int, r: int)
    requires b > 0 && 0 <= r < b && k == q * b + r
    ensures k / b == q && k % b == r
  {
    var q', r' := k / b, k % b;
    assert q' * b + r' == k;
    if q > q' {
      MulMono(q, q' + 1, b);
    } else if q < q' {
      MulMono(q', q + 1, b);
    }
  }

  /** The unit choices of a measure class when the caller gives none. */
  function DefaultChoices(c: MeasureClass): seq<(string, string)> {
    match c.dimensions
    case Linear => LinearChoices(c)
    case Ratio(p, ref) => ProductChoices(p.unitOrder, ref.unitOrder)
  }

  /** For a linear measure whose unit order lists `UNITS`, the default
      choices offer every unit exactly once, as key and label. */
  lemma LinearChoicesOfferEveryUnit(c: MeasureClass)
    requires !c.IsBidimensional() && Listed(c)
    ensures Dicts.Distinct(Keys(DefaultChoices(c)))
    ensures forall u :: u in c.units <==> u in Keys(DefaultChoices(c))
    ensures forall i :: 0 <= i < |DefaultChoices(c)| ==> DefaultChoices(c)[i].0 == DefaultChoices(c)[i].1
  {
    var ks := Keys(DefaultChoices(c));
    assert ks == c.unitOrder;
  }

  // ---------------------------------------------------------------------
  // The form field and its widget
  // ---------------------------------------------------------------------

  /** A constructed form field: its measure class and the unit choices its
      widget offers. */
  datatype FormField = FormField(measurement: MeasureClass, unitChoices: seq<(string, string)>)

  /** `MeasurementField.__init__`: anything but a measure class is a
      `ValueError`; falsy `unit_choices` (`None` or empty, both the empty
      sequence here) are replaced by the class's default choices, and given
      ones are kept as they are. */
  function NewFormField(measurement: ClassRef, unitChoices: seq<(string, string)>): (r: Result<FormField>)
    ensures !measurement.MeasureRef? ==> r == Err(ValueError)
    ensures measurement.MeasureRef? ==> r.Ok? && r.value.measurement == measurement.c
    ensures r.Ok? && unitChoices != [] ==> r.value.unitChoices == unitChoices
    ensures r.Ok? && unitChoices == [] ==> r.value.unitChoices == DefaultChoices(measurement.c)
  {
    if !measurement.MeasureRef? then Err(ValueError)
    else Ok(FormField(measurement.c, if unitChoices != [] then unitChoices else DefaultChoices(measurement.c)))
  }

  /** What `decompress` shows: both parts empty, or a magnitude and a unit. */
  datatype Decompressed = Blank | Shown(magnitude: real, unit: string)

  /** `MeasurementWidget.decompress`: a falsy value shows nothing; a measure
      is shown in its standard unit when that is a choice key, and
      otherwise in whichever key `set.pop` yields (`KeyError` when there is
      none); the magnitude is read in that unit. Only a measure has
      `STANDARD_UNIT`: any other truthy value is an `AttributeError`. */
  method Decompress(value: PyValue, unitChoices: seq<(string, string)>) returns (r: Result<Decompressed>)
    ensures !Truthy(value) ==> r == Ok(Blank)
    ensures Truthy(value) && !value.Meas? ==> r == Err(AttributeError)
    ensures Truthy(value) && value.Meas? && value.m.cls.standardUnit in Keys(unitChoices) ==>
      r == Ok(Shown(value.m.standard, value.m.cls.standardUnit))
    ensures Truthy(value) && value.Meas? && unitChoices == [] ==> r == Err(KeyError)
    ensures r.Ok? && r.value.Shown? ==>
      && value.Meas? && r.value.unit in Keys(unitChoices)
      && ReadUnit(value.m.cls, value.m.standard, r.value.unit) == Ok(r.value.magnitude)
    ensures r.Err? && value.Meas? && unitChoices != [] ==>
      exists u :: u in Keys(unitChoices) && ReadUnit(value.m.cls, value.m.standard, u) == Err(r.error)
  {
    if !Truthy(value) {
      return Ok(Blank);
    }
    var choiceUnits := set i | 0 <= i < |unitChoices| :: unitChoices[i].0;
    assert forall u :: u in choiceUnits <==> u in Keys(unitChoices);
    if !value.Meas? {
      return Err(AttributeError);
    }
    var m := value.m;
    var unit := m.cls.standardUnit;
    if unit !in choiceUnits {
      if unitChoices == [] {
        return Err(KeyError);
      }
      assert unitChoices[0].0 in choiceUnits;
      unit :| unit in choiceUnits;
    }
    var magnitude := ReadUnit(m.cls, m.standard, unit);
    if magnitude.Err? {
      return Err(magnitude.error);
    }
    return Ok(Shown(magnitude.value, unit));
  }

  /** Entering what `decompress` shows rebuilds the same magnitude: the
      shown magnitude in the shown unit constructs back the measure's
      standard magnitude, with that unit as the default. */
  lemma CompressUndoesDecompress(c: MeasureClass, standard: real, unit: string, magnitude: real)
    requires WellFormed(c) && ReadUnit(c, standard, unit) == Ok(magnitude)
    ensures DefaultUnitsOf(c, [(unit, magnitude)]) == Ok((standard, unit))
  {
    BuildFromReading(c, standard, unit);
  }

  /** `compress`: an empty list is `None`; anything but a pair is a
      `ValueError` (the unpacking); an empty magnitude is `None`; otherwise
      `get_measurement(measurement, value, unit)`. The unit must be a
      string to be a keyword name (`TypeError`), and the constructor reads
      the magnitude with `float()`, which `parse` stands for on strings. */
  method Compress(f: FormField, data: seq<PyValue>, parse: string -> Option<real>) returns (r: Result<PyValue>)
    ensures data == [] ==> r == Ok(PyNone)
    ensures data != [] && |data| != 2 ==> r == Err(ValueError)
    ensures |data| == 2 && IsEmpty(data[0]) ==> r == Ok(PyNone)
    ensures |data| == 2 && !IsEmpty(data[0]) && !data[1].Str? ==> r == Err(TypeError)
    ensures |data| == 2 && !IsEmpty(data[0]) && data[1].Str? && ToFloat(data[0], parse).Err? ==>
      r == Err(ToFloat(data[0], parse).error)
    ensures |data| == 2 && !IsEmpty(data[0]) && data[1].Str? && ToFloat(data[0], parse).Ok? ==>
      var st := DefaultUnitsOf(f.measurement, [(data[1].s, ToFloat(data[0], parse).value)]);
      && (r.Ok? <==> st.Ok?) && (r.Err? ==> r.error == st.error)
      && (r.Ok? ==>
            && r.value.Meas? && fresh(r.value.m) && r.value.m.cls == f.measurement
            && r.value.m.standard == st.value.0 && r.value.m.unit == st.value.1)
  {
    if data == [] {
      return Ok(PyNone);
    }
    if |data| != 2 {
      return Err(ValueError);
    }
    var value, unit := data[0], data[1];
    if IsEmpty(value) {
      return Ok(PyNone);
    }
    if !unit.Str? {
      return Err(TypeError);
    }
    var x := ToFloat(value, parse);
    if x.Err? {
      return Err(x.error);
    }
    var m := GetMeasurement(f.measurement, x.value, unit.s, "");
    if m.Err? {
      return Err(m.error);
    }
    return Ok(Meas(m.value));
  }
}
