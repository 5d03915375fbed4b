/** The measure value object of `django_measurement/backports.py`: a class
    of measures is a fixed table of linear unit factors, a measure stores one
    magnitude in the class's standard unit, keyword construction resolves
    unit names through a fixed chain of tables, reading a unit divides by
    its factor, and arithmetic and comparison work on the standard
    magnitudes. Numbers are exact reals. */
module Backports {
  import opened Outcomes
  import Text
  import Dicts

  /** A measure class: `__name__`, `STANDARD_UNIT`, `UNITS` (unit name to
      its factor, the number of standard units in one such unit) together
      with the order iterating `UNITS` yields its keys in, `ALIAS` and
      `LALIAS` (alternative names to a `UNITS` key), and, for a
      bidimensional measure, the two measures it is the ratio of. */
  datatype MeasureClass = MeasureClass(
    name: string,
    standardUnit: string,
    units: map<string, real>,
    unitOrder: seq<string>,
    alias: map<string, string>,
    lalias: map<string, string>,
    dimensions: Dimensions)
  {
    predicate IsBidimensional() { dimensions.Ratio? }
  }

  /** `Ratio(p, r)` stands for a `BidimensionalMeasure` with
      `PRIMARY_DIMENSION` p and `REFERENCE_DIMENSION` r. */
  datatype Dimensions = Linear | Ratio(primary: MeasureClass, reference: MeasureClass)

  /** `unitOrder` is an iteration order of `UNITS`. */
  predicate Listed(c: MeasureClass) {
    Dicts.Enumerates(c.unitOrder, c.units.Keys)
  }

  /** What the measure classes of a units library look like: the standard
      unit is a unit of factor 1, every factor is positive and every alias
      names a unit. No operation requires it; lemmas do. */

  predicate WellFormed(c: MeasureClass) {
    && c.standardUnit in c.units
    && c.units[c.standardUnit] == 1.0
    && (forall u :: u in c.units ==> c.units[u] > 0.0)
    && (forall a :: a in c.alias ==> c.alias[a] in c.units)
    && (forall a :: a in c.lalias ==> c.lalias[a] in c.units)
  }

  // ---------------------------------------------------------------------
  // Unit resolution and keyword construction (`default_units`)
  // ---------------------------------------------------------------------

  /** The unit a keyword name stands for: exact `UNITS`, then `ALIAS`, then
      the lower-cased name in `UNITS`, then in `LALIAS`. */
  function Resolve(c: MeasureClass, name: string): (r: Option<string>)
    ensures name in c.units ==> r == Some(name)
    ensures r.None? <==>
      name !in c.units && name !in c.alias &&
      Text.Lower(name) !in c.units && Text.Lower(name) !in c.lalias
    ensures WellFormed(c) && r.Some? ==> r.value in c.units
  {
    if name in c.units then Some(name)
    else if name in c.alias then Some(c.alias[name])
    else if Text.Lower(name) in c.units then Some(Text.Lower(name))
    else if Text.Lower(name) in c.lalias then Some(c.lalias[Text.Lower(name)])
    else None
  }

  /** A keyword name that resolves to a unit whose factor exists. */
  predicate Known(c: MeasureClass, name: string) {
    Resolve(c, name).Some? && Resolve(c, name).value in c.units
  }

  /** One iteration of the `default_units` loop: add factor times value to
      the running magnitude and make the resolved unit the default. */
  function Accumulate(c: MeasureClass, acc: (real, string), kw: (string, real)): Result<(real, string)>
  {
    var u := Resolve(c, kw.0);
    if u.None? then Err(AttributeError)
    else if u.value !in c.units then Err(KeyError)
    else Ok((acc.0 + c.units[u.value] * kw.1, u.value))
  }

  /** `default_units(kwargs)`: the keywords are folded in dict order, from
      magnitude 0.0 and default unit `STANDARD_UNIT`; the first keyword
      that does not resolve stops the fold. */
  function DefaultUnitsOf(c: MeasureClass, kwargs: seq<(string, real)>): Result<(real, string)>
    decreases |kwargs|
  {
    if kwargs == [] then Ok((0.0, c.standardUnit))
    else
      match DefaultUnitsOf(c, kwargs[..|kwargs| - 1])
      case Err(e) => Err(e)
      case Ok(acc) => Accumulate(c, acc, kwargs[|kwargs| - 1])
  }

  /** Once a prefix of the keywords fails, the whole fold fails with the
      same error. */
  lemma {:induction false} FailurePersists(c: MeasureClass, kwargs: seq<(string, real)>, i: nat)
    requires i <= |kwargs|
    requires DefaultUnitsOf(c, kwargs[..i]).Err?
    ensures DefaultUnitsOf(c, kwargs) == DefaultUnitsOf(c, kwargs[..i])
    decreases |kwargs| - i
  {
    if i < |kwargs| {
      assert kwargs[..i + 1][..i] == kwargs[..i];
      assert DefaultUnitsOf(c, kwargs[..i + 1]) == DefaultUnitsOf(c, kwargs[..i]);
      FailurePersists(c, kwargs, i + 1);
    } else {
      assert kwargs[..i] == kwargs;
    }
  }

  /** `MeasureBase.default_units`, the loop as the source writes it. */
  method DefaultUnits(c: MeasureClass, kwargs: seq<(string, real)>) returns (r: Result<(real, string)>)
    ensures r == DefaultUnitsOf(c, kwargs)
  {
    var val := 0.0;
    var defaultUnit := c.standardUnit;
    for i := 0 to |kwargs|
      invariant DefaultUnitsOf(c, kwargs[..i]) == Ok((val, defaultUnit))
    {
      assert kwargs[..i + 1][..i] == kwargs[..i];
      var (unit, value) := kwargs[i];
      var u: string;
      if unit in c.units {
        u := unit;
      } else if unit in c.alias {
        u := c.alias[unit];
      } else {
        var lower := Text.Lower(unit);
        if lower in c.units {
          u := lower;
        } else if lower in c.lalias {
          u := c.lalias[lower];
        } else {
          FailurePersists(c, kwargs, i + 1);
          return Err(AttributeError);
        }
      }
      if u !in c.units {
        FailurePersists(c, kwargs, i + 1);
        return Err(KeyError);
      }
      assert Resolve(c, unit) == Some(u);
      ghost var next := Accumulate(c, (val, defaultUnit), kwargs[i]);
      assert next.value.0 == val + c.units[u] * value && next.value.1 == u;
      assert DefaultUnitsOf(c, kwargs[..i + 1]) == next;
      val := val + c.units[u] * value;
      defaultUnit := u;
    }
    assert kwargs[..|kwargs|] == kwargs;
    return Ok((val, defaultUnit));
  }

  /** The factor a known keyword name contributes with. */
  function FactorOf(c: MeasureClass, name: string): real
    requires Known(c, name)
  {
    c.units[Resolve(c, name).value]
  }

  predicate AllKnown(c: MeasureClass, kwargs: seq<(string, real)>) {
    forall i :: 0 <= i < |kwargs| ==> Known(c, kwargs[i].0)
  }

  /** Factor times value summed over the keywords, first to last. */
  function WeightedSum(c: MeasureClass, kwargs: seq<(string, real)>): real
    requires AllKnown(c, kwargs)
  {
    if kwargs == [] then 0.0
    else FactorOf(c, kwargs[0].0) * kwargs[0].1 + WeightedSum(c, kwargs[1..])
  }

  lemma {:induction false} WeightedSumSnoc(c: MeasureClass, kwargs: seq<(string, real)>)
    requires kwargs != [] && AllKnown(c, kwargs)
    ensures AllKnown(c, kwargs[..|kwargs| - 1])
    ensures WeightedSum(c, kwargs) ==
      WeightedSum(c, kwargs[..|kwargs| - 1]) + FactorOf(c, kwargs[|kwargs| - 1].0) * kwargs[|kwargs| - 1].1
  {
    var n := |kwargs|;
    var init := kwargs[..n - 1];
    assert AllKnown(c, init) by {
      forall i | 0 <= i < |init| ensures Known(c, init[i].0) {
        assert init[i] == kwargs[i];
      }
    }
    if n > 1 {
      var tail := kwargs[1..];
      assert AllKnown(c, tail) by {
        forall i | 0 <= i < |tail| ensures Known(c, tail[i].0) { assert tail[i] == kwargs[i + 1]; }
      }
      WeightedSumSnoc(c, tail);
      assert tail[..|tail| - 1] == kwargs[..n - 1][1..];
      assert tail[|tail| - 1] == kwargs[n - 1];
    } else {
      assert kwargs[..n - 1] == [];
    }
  }

  /** With every keyword known, construction stores the sum of factor times
      value over all keywords, and the default unit is the unit of the last
      keyword, or `STANDARD_UNIT` when there is none. */
  lemma {:induction false} DefaultUnitsIsWeightedSum(c: MeasureClass, kwargs: seq<(string, real)>)
    requires AllKnown(c, kwargs)
    ensures DefaultUnitsOf(c, kwargs) ==
      Ok((WeightedSum(c, kwargs),
          if kwargs == [] then c.standardUnit else Resolve(c, kwargs[|kwargs| - 1].0).value))
    decreases |kwargs|
  {
    if kwargs != [] {
      var n := |kwargs|;
      WeightedSumSnoc(c, kwargs);
      DefaultUnitsIsWeightedSum(c, kwargs[..n - 1]);
      var step := Accumulate(c, DefaultUnitsOf(c, kwargs[..n - 1]).value, kwargs[n - 1]);
      assert step.value.0 == WeightedSum(c, kwargs[..n - 1]) + FactorOf(c, kwargs[n - 1].0) * kwargs[n - 1].1;
      assert step.value.1 == Resolve(c, kwargs[n - 1].0).value;
      assert DefaultUnitsOf(c, kwargs) == step;
      assert step.value.0 == WeightedSum(c, kwargs);
      assert step == Ok((WeightedSum(c, kwargs), Resolve(c, kwargs[n - 1].0).value));
    }
  }

  /** Construction fails exactly when some keyword is not known. */
  lemma {:induction false} DefaultUnitsFailsIffUnknown(c: MeasureClass, kwargs: seq<(string, real)>)
    ensures DefaultUnitsOf(c, kwargs).Err? <==> exists i :: 0 <= i < |kwargs| && !Known(c, kwargs[i].0)
    decreases |kwargs|
  {
    if kwargs != [] {
      var n := |kwargs|;
      var init := kwargs[..n - 1];
      DefaultUnitsFailsIffUnknown(c, init);
      if exists i :: 0 <= i < n - 1 && !Known(c, init[i].0) {
        var i :| 0 <= i < n - 1 && !Known(c, init[i].0);
        assert init[i] == kwargs[i];
      }
      if exists i :: 0 <= i < n && !Known(c, kwargs[i].0) {
        var i :| 0 <= i < n && !Known(c, kwargs[i].0);
        if i < n - 1 { assert init[i] == kwargs[i]; }
      }
    }
  }

  /** For a well-formed class the default unit construction settles on is
      always a key of `UNITS`. */
  lemma {:induction false} DefaultUnitIsAUnit(c: MeasureClass, kwargs: seq<(string, real)>)
    requires WellFormed(c)
    requires DefaultUnitsOf(c, kwargs).Ok?
    ensures DefaultUnitsOf(c, kwargs).value.1 in c.units
    decreases |kwargs|
  {
    if kwargs != [] {
      DefaultUnitIsAUnit(c, kwargs[..|kwargs| - 1]);
    }
  }

  /** Building from one known keyword `u=v` stores factor times `v` and
      takes the resolved unit as the default. */
  lemma SingleKeyword(c: MeasureClass, u: string, v: real)
    requires Known(c, u)
    ensures DefaultUnitsOf(c, [(u, v)]) == Ok((FactorOf(c, u) * v, Resolve(c, u).value))
  {
    var kw := [(u, v)];
    assert kw[..0] == [];
    var step := Accumulate(c, (0.0, c.standardUnit), (u, v));
    assert step.value.0 == FactorOf(c, u) * v && step.value.1 == Resolve(c, u).value;
    assert DefaultUnitsOf(c, kw) == step;
  }

  /** What `__init__` leaves in the object: the magnitude `default_units`
      computed and its default unit, unless a non-empty `default_unit`
      string was passed (the empty string stands for None and non-strings). */
  function InitState(c: MeasureClass, defaultUnit: string, kwargs: seq<(string, real)>): Result<(real, string)>
  {
    match DefaultUnitsOf(c, kwargs)
    case Err(e) => Err(e)
    case Ok(st) => Ok((st.0, if defaultUnit != "" then defaultUnit else st.1))
  }

  /** Rebuilding from a magnitude in the standard unit, as `+ - * /` do,
      stores exactly that magnitude in a well-formed class. */
  lemma RebuildFromStandard(c: MeasureClass, defaultUnit: string, s: real)
    requires WellFormed(c)
    ensures InitState(c, defaultUnit, [(c.standardUnit, s)]) ==
      Ok((s, if defaultUnit != "" then defaultUnit else c.standardUnit))
  {
    SingleKeyword(c, c.standardUnit, s);
  }

  // ---------------------------------------------------------------------
  // Reading units (`__getattr__`) and `unit_attname`
  // ---------------------------------------------------------------------

  /** Reading attribute `name` of a measure with standard magnitude
      `standard`: the standard unit is a real attribute holding the
      magnitude; any other `UNITS` key divides by its factor; anything else
      raises `AttributeError`. */
  function ReadUnit(c: MeasureClass, standard: real, name: string): (r: Result<real>)
    ensures r.Ok? <==> name == c.standardUnit || (name in c.units && c.units[name] != 0.0)
    ensures r.Err? && name in c.units ==> r.error == ZeroDivisionError
    ensures r.Err? && name !in c.units ==> r.error == AttributeError
  {
    if name == c.standardUnit then Ok(standard)
    else if name !in c.units then Err(AttributeError)
    else if c.units[name] == 0.0 then Err(ZeroDivisionError)
    else Ok(standard / c.units[name])
  }

  lemma DivideBack(f: real, v: real)
    requires f != 0.0
    ensures (f * v) / f == v
  {
  }

  /** Building with `u=v` for a unit `u` and reading `u` back gives `v`. */
  lemma ReadBack(c: MeasureClass, u: string, v: real)
    requires WellFormed(c) && u in c.units
    ensures DefaultUnitsOf(c, [(u, v)]) == Ok((c.units[u] * v, u))
    ensures ReadUnit(c, c.units[u] * v, u) == Ok(v)
  {
    SingleKeyword(c, u, v);
    assert FactorOf(c, u) == c.units[u] && Resolve(c, u).value == u;
    var st := DefaultUnitsOf(c, [(u, v)]).value;
    assert st.0 == c.units[u] * v && st.1 == u;
    if u != c.standardUnit {
      var f := c.units[u];
      assert f > 0.0;
      DivideBack(f, v);
      var r := ReadUnit(c, c.units[u] * v, u);
      assert r.Ok? && r.value == (f * v) / f == v;
    } else {
      assert c.units[u] * v == v;
    }
  }

  /** The other direction: reading a unit and building from the reading
      gives back the same standard magnitude and that unit. */
  lemma BuildFromReading(c: MeasureClass, s: real, u: string)
    requires WellFormed(c) && u in c.units
    ensures ReadUnit(c, s, u).Ok?
    ensures DefaultUnitsOf(c, [(u, ReadUnit(c, s, u).value)]) == Ok((s, u))
  {
    var x := ReadUnit(c, s, u).value;
    SingleKeyword(c, u, x);
    assert FactorOf(c, u) == c.units[u] && Resolve(c, u).value == u;
    var f := c.units[u];
    if u != c.standardUnit {
      assert f * (s / f) == s;
    }
    var st := DefaultUnitsOf(c, [(u, x)]).value;
    assert st.0 == f * x && st.1 == u;
    assert st.0 == s;
  }

  /** `MeasureBase.unit_attname`: exact `UNITS`, then the lower-cased name in
      `UNITS`, then in `LALIAS`; `ALIAS` is never consulted, and a name
      none of them knows raises a bare `Exception`. */
  function UnitAttname(c: MeasureClass, unitStr: string): (r: Result<string>)
    ensures r.Err? ==> r.error == PlainException
    ensures r.Err? <==>
      unitStr !in c.units && Text.Lower(unitStr) !in c.units && Text.Lower(unitStr) !in c.lalias
    ensures WellFormed(c) && r.Ok? ==> r.value in c.units
  {
    var lower := Text.Lower(unitStr);
    if unitStr in c.units then Ok(unitStr)
    else if lower in c.units then Ok(lower)
    else if lower in c.lalias then Ok(c.lalias[lower])
    else Err(PlainException)
  }

  /** `unit_attname` gives the same answer whatever `ALIAS` holds. */
  lemma UnitAttnameIgnoresAlias(c: MeasureClass, alias: map<string, string>, unitStr: string)
    ensures UnitAttname(c.(alias := alias), unitStr) == UnitAttname(c, unitStr)
  {
  }

  /** `unit_attname` and keyword resolution agree on every name that is not
      an `ALIAS` key (or is a unit outright); they differ only by `ALIAS`. */
  lemma {:induction false} UnitAttnameAgreesWithResolve(c: MeasureClass, unitStr: string)
    requires unitStr in c.units || unitStr !in c.alias
    ensures UnitAttname(c, unitStr).Ok? <==> Resolve(c, unitStr).Some?
    ensures UnitAttname(c, unitStr).Ok? ==> UnitAttname(c, unitStr).value == Resolve(c, unitStr).value
  {
  }

  // ---------------------------------------------------------------------
  // The measure object
  // ---------------------------------------------------------------------

  /** The right operand of a comparison or an arithmetic operator: a number
      (`int` or `float`, or a `Decimal` when `isDecimal`), a measure, or any
      other object. A standard magnitude is always a `float`, which Python
      does not multiply or divide by a `Decimal` (`TypeError`). */
  datatype Operand = Number(x: real, isDecimal: bool) | MeasureOperand(m: Measure) | OtherObject

  function OperandObjects(o: Operand): set<object> {
    if o.MeasureOperand? then {o.m} else {}
  }

  /** The result of `__truediv__`: a plain ratio or a scaled measure. */
  datatype Quotient = PlainRatio(ratio: real) | Scaled(m: Measure)

  /** How `Produced` ties a method's new measure to the state `__init__`
      would give it. */
  predicate Produced(r: Result<Measure>, c: MeasureClass, st: Result<(real, string)>)
    reads if r.Ok? then {r.value} else {}
  {
    && (r.Ok? <==> st.Ok?)
    && (r.Err? ==> st.Err? && r.error == st.error)
    && (r.Ok? ==> r.value.cls == c && r.value.standard == st.value.0 && r.value.unit == st.value.1)
  }

  class Measure {
    /** The class of the measure (`self.__class__`). */
    const cls: MeasureClass
    /** The magnitude in `STANDARD_UNIT` (the `standard` property). */
    var standard: real
    /** `_default_unit`, which the measurement library exposes as `unit`. */
    var unit: string
    /** For a bidimensional measure, the magnitude of its reference
        dimension; the measurement library sets it on construction (not
        modelled), and it means nothing for a linear measure. */
    var referenceValue: real

    constructor Init(c: MeasureClass, standard: real, unit: string)
      ensures cls == c && this.standard == standard && this.unit == unit
    {
      cls := c;
      this.standard := standard;
      this.unit := unit;
    }

    /** `MeasureBase.__init__(default_unit, **kwargs)`. */
    static method New(c: MeasureClass, defaultUnit: string, kwargs: seq<(string, real)>) returns (r: Result<Measure>)
      ensures Produced(r, c, InitState(c, defaultUnit, kwargs))
      ensures r.Ok? ==> fresh(r.value)
    {
      var st := DefaultUnits(c, kwargs);
      if st.Err? {
        return Err(st.error);
      }
      var u := if defaultUnit != "" then defaultUnit else st.value.1;
      var m := new Measure.Init(c, st.value.0, u);
      return Ok(m);
    }

    /** `getattr(self, name)` for a unit name. */
    function Get(name: string): Result<real>
      reads this
    {
      ReadUnit(cls, standard, name)
    }

    /** The magnitude in the default unit (the library's `value`). */
    function Value(): Result<real>
      reads this
    {
      ReadUnit(cls, standard, unit)
    }

    /** `__bool__`. */
    predicate Truthy()
      reads this
    {
      standard != 0.0
    }

    predicate SameClass(other: Operand)
      reads OperandObjects(other)
    {
      other.MeasureOperand? && other.m.cls == cls
    }

    /** `__eq__`: compares standards of same-class operands. */
    function Eq(other: Operand): (r: Cmp)
      reads this, OperandObjects(other)
      ensures r.NotImplemented? <==> !SameClass(other)
      ensures r.Answer? ==> (r.b <==> standard == other.m.standard)
    {
      if SameClass(other) then Answer(standard == other.m.standard) else NotImplemented
    }

    /** `__lt__`: compares standards of same-class operands. */
    function Lt(other: Operand): (r: Cmp)
      reads this, OperandObjects(other)
      ensures r.NotImplemented? <==> !SameClass(other)
      ensures r.Answer? ==> (r.b <==> standard < other.m.standard)
    {
      if SameClass(other) then Answer(standard < other.m.standard) else NotImplemented
    }

    /** `__le__` as Python 3's `functools.total_ordering` derives it from
        `__lt__`: `self < other or self == other`, passing `NotImplemented`
        on. */
    function Le(other: Operand): (r: Cmp)
      reads this, OperandObjects(other)
      ensures r.NotImplemented? <==> !SameClass(other)
      ensures r.Answer? ==> (r.b <==> standard <= other.m.standard)
    {
      match Lt(other)
      case NotImplemented => NotImplemented
      case Answer(lt) => Answer(lt || Eq(other).b)
    }

    /** `__gt__` as `total_ordering` derives it from `__lt__`:
        `not self < other and self != other`, passing `NotImplemented` on. */
    function Gt(other: Operand): (r: Cmp)
      reads this, OperandObjects(other)
      ensures r.NotImplemented? <==> !SameClass(other)
      ensures r.Answer? ==> (r.b <==> standard > other.m.standard)
    {
      match Lt(other)
      case NotImplemented => NotImplemented
      case Answer(lt) => Answer(!lt && !Eq(other).b)
    }

    /** `__ge__` as `total_ordering` derives it from `__lt__`:
        `not self < other`, passing `NotImplemented` on. */
    function Ge(other: Operand): (r: Cmp)
      reads this, OperandObjects(other)
      ensures r.NotImplemented? <==> !SameClass(other)
      ensures r.Answer? ==> (r.b <==> standard >= other.m.standard)
    {
      match Lt(other)
      case NotImplemented => NotImplemented
      case Answer(lt) => Answer(!lt)
    }

    /** `__add__`: a new measure of the same class holding the sum of the
        standards, keeping the left operand's default unit. */
    method Add(other: Operand) returns (r: Result<Measure>)
      ensures !SameClass(other) ==> r == Err(TypeError)
      ensures SameClass(other) ==>
        Produced(r, cls, InitState(cls, unit, [(cls.standardUnit, standard + other.m.standard)]))
      ensures SameClass(other) && WellFormed(cls) ==>
        r.Ok? && r.value.standard == standard + other.m.standard &&
        r.value.unit == (if unit != "" then unit else cls.standardUnit)
      ensures r.Ok? ==> fresh(r.value)
    {
      if !SameClass(other) {
        return Err(TypeError);
      }
      var sum := standard + other.m.standard;
      if WellFormed(cls) { RebuildFromStandard(cls, unit, sum); }
      r := New(cls, unit, [(cls.standardUnit, sum)]);
    }

    /** `__sub__`: as `__add__` with the difference of the standards. */
    method Sub(other: Operand) returns (r: Result<Measure>)
      ensures !SameClass(other) ==> r == Err(TypeError)
      ensures SameClass(other) ==>
        Produced(r, cls, InitState(cls, unit, [(cls.standardUnit, standard - other.m.standard)]))
      ensures SameClass(other) && WellFormed(cls) ==>
        r.Ok? && r.value.standard == standard - other.m.standard &&
        r.value.unit == (if unit != "" then unit else cls.standardUnit)
      ensures r.Ok? ==> fresh(r.value)
    {
      if !SameClass(other) {
        return Err(TypeError);
      }
      var diff := standard - other.m.standard;
      if WellFormed(cls) { RebuildFromStandard(cls, unit, diff); }
      r := New(cls, unit, [(cls.standardUnit, diff)]);
    }

    /** `__mul__` (and `__rmul__`): scales by an `int` or a `float`; a
        `Decimal` passes the `NUMERIC_TYPES` test but cannot multiply the
        float standard, and anything else is refused: both `TypeError`. */
    method Mul(other: Operand) returns (r: Result<Measure>)
      ensures !other.Number? || other.isDecimal ==> r == Err(TypeError)
      ensures other.Number? && !other.isDecimal ==>
        Produced(r, cls, InitState(cls, unit, [(cls.standardUnit, standard * other.x)]))
      ensures other.Number? && !other.isDecimal && WellFormed(cls) ==>
        r.Ok? && r.value.standard == standard * other.x &&
        r.value.unit == (if unit != "" then unit else cls.standardUnit)
      ensures r.Ok? ==> fresh(r.value)
    {
      if !other.Number? {
        return Err(TypeError);
      }
      if other.isDecimal {
        return Err(TypeError);
      }
      var product := standard * other.x;
      if WellFormed(cls) { RebuildFromStandard(cls, unit, product); }
      r := New(cls, unit, [(cls.standardUnit, product)]);
    }

    /** `__truediv__`: a same-class measure gives the plain ratio of the
        standards; an `int` or a `float` gives a scaled measure (zero is a
        `ZeroDivisionError`); a `Decimal`, which cannot divide the float
        standard, and anything else are a `TypeError`. */
    method TrueDiv(other: Operand) returns (r: Result<Quotient>)
      ensures SameClass(other) ==>
        if other.m.standard == 0.0 then r == Err(ZeroDivisionError)
        else r == Ok(PlainRatio(standard / other.m.standard))
      ensures other.Number? && other.isDecimal ==> r == Err(TypeError)
      ensures other.Number? && !other.isDecimal && other.x == 0.0 ==> r == Err(ZeroDivisionError)
      ensures other.Number? && !other.isDecimal && other.x != 0.0 ==>
        (var st := InitState(cls, unit, [(cls.standardUnit, standard / other.x)]);
         (r.Ok? <==> st.Ok?) && (r.Err? ==> r.error == st.error) &&
         (r.Ok? ==> r.value.Scaled? && fresh(r.value.m) && r.value.m.cls == cls &&
                    r.value.m.standard == st.value.0 && r.value.m.unit == st.value.1))
      ensures other.Number? && !other.isDecimal && other.x != 0.0 && WellFormed(cls) ==>
        r.Ok? && r.value.Scaled? && r.value.m.standard * other.x == standard
      ensures !SameClass(other) && !other.Number? ==> r == Err(TypeError)
    {
      if SameClass(other) {
        if other.m.standard == 0.0 {
          return Err(ZeroDivisionError);
        }
        return Ok(PlainRatio(standard / other.m.standard));
      }
      if !other.Number? || other.isDecimal {
        return Err(TypeError);
      }
      if other.x == 0.0 {
        return Err(ZeroDivisionError);
      }
      var quotient := standard / other.x;
      if WellFormed(cls) { RebuildFromStandard(cls, unit, quotient); }
      var m := New(cls, unit, [(cls.standardUnit, quotient)]);
      if m.Err? {
        return Err(m.error);
      }
      return Ok(Scaled(m.value));
    }

    /** `__iadd__`: adds the other standard to this one in place and
        returns this object. */
    method IAdd(other: Operand) returns (r: Result<Measure>)
      modifies this
      ensures old(SameClass(other)) ==>
        r == Ok(this) && standard == old(standard) + old(other.m.standard)
      ensures !old(SameClass(other)) ==> r == Err(TypeError) && standard == old(standard)
      ensures unit == old(unit) && referenceValue == old(referenceValue)
    {
      if !SameClass(other) {
        return Err(TypeError);
      }
      standard := standard + other.m.standard;
      return Ok(this);
    }

    /** `__isub__`: subtracts the other standard in place. */
    method ISub(other: Operand) returns (r: Result<Measure>)
      modifies this
      ensures old(SameClass(other)) ==>
        r == Ok(this) && standard == old(standard) - old(other.m.standard)
      ensures !old(SameClass(other)) ==> r == Err(TypeError) && standard == old(standard)
      ensures unit == old(unit) && referenceValue == old(referenceValue)
    {
      if !SameClass(other) {
        return Err(TypeError);
      }
      standard := standard - other.m.standard;
      return Ok(this);
    }

    /** `__imul__`: scales the standard by a number in place. */
    method IMul(other: Operand) returns (r: Result<Measure>)
      modifies this
      ensures other.Number? ==> r == Ok(this) && standard == old(standard) * other.x
      ensures !other.Number? ==> r == Err(TypeError) && standard == old(standard)
      ensures unit == old(unit) && referenceValue == old(referenceValue)
    {
      if !other.Number? {
        return Err(TypeError);
      }
      standard := standard * other.x;
      return Ok(this);
    }

    /** `__itruediv__`: divides the standard by a number in place; unlike
        `__truediv__` it refuses a measure operand. */
    method ITrueDiv(other: Operand) returns (r: Result<Measure>)
      modifies this
      ensures other.Number? && other.x != 0.0 ==>
        r == Ok(this) && standard * other.x == old(standard)
      ensures other.Number? && other.x == 0.0 ==> r == Err(ZeroDivisionError) && standard == old(standard)
      ensures !other.Number? ==> r == Err(TypeError) && standard == old(standard)
      ensures unit == old(unit) && referenceValue == old(referenceValue)
    {
      if !other.Number? {
        return Err(TypeError);
      }
      if other.x == 0.0 {
        return Err(ZeroDivisionError);
      }
      standard := standard / other.x;
      return Ok(this);
    }
  }
}
