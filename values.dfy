/** The Python values the field, form and admin code pass around, with the
    three built-in behaviours they rely on: truthiness, `==` and `float()`. */
module Values {
  import opened Outcomes
  import opened Backports
  import opened UnknownMeasures

  /** `None`, a number, a string, a measure object or a placeholder. */
  datatype PyValue =
    | PyNone
    | Num(x: real)
    | Str(s: string)
    | Meas(m: Measure)
    | Unknown(u: UnknownMeasure)

  /** The heap objects a value refers to. */
  function ObjectsOf(v: PyValue): set<object> {
    if v.Meas? then {v.m} else {}
  }

  /** `bool(v)`: `None`, zero, the empty string and a zero measure are
      false. A placeholder has no `__bool__` on its type (its
      `__getattr__` is only reached for instance attributes), so it is
      always true. */
  predicate Truthy(v: PyValue)
    reads ObjectsOf(v)
  {
    match v
    case PyNone => false
    case Num(x) => x != 0.0
    case Str(s) => s != ""
    case Meas(m) => m.Truthy()
    case Unknown(_) => true
  }

  /** The operand `v` is, seen from the comparison methods of a measure. */
  function AsOperand(v: PyValue): Operand {
    match v
    case Num(x) => Number(x, false)
    case Meas(m) => MeasureOperand(m)
    case _ => OtherObject
  }

  /** The operand `v` is, seen from the comparison methods of a placeholder. */
  function AsOther(v: PyValue): Other {
    if v.Unknown? then Placeholder(v.u) else NotPlaceholder
  }

  /** `a == b`: the left operand's `__eq__`, then the reflected one when it
      answers `NotImplemented`, then identity. A measure equals only a
      measure of its own class with the same standard magnitude; a
      placeholder equals only a placeholder. */
  predicate PyEq(a: PyValue, b: PyValue)
    reads ObjectsOf(a), ObjectsOf(b)
  {
    match a
    case PyNone => b.PyNone?
    case Num(x) => b.Num? && b.x == x
    case Str(s) => b.Str? && b.s == s
    case Meas(m) =>
      var c := m.Eq(AsOperand(b));
      if c.Answer? then c.b else b.Meas? && b.m == m
    case Unknown(u) => UnknownMeasures.Eq(u, AsOther(b))
  }

  /** Python's `==` between these values is symmetric, even though each
      side runs a different method first. */
  lemma PyEqSymmetric(a: PyValue, b: PyValue)
    ensures PyEq(a, b) == PyEq(b, a)
  {
  }

  /** `float(v)` for a number or a numeric string; `parse` stands for
      Python's reading of a non-empty string as a float (`None` when the
      string is not one). The empty string is never a float. */
  function ToFloat(v: PyValue, parse: string -> Option<real>): (r: Result<real>)
    ensures v.Num? ==> r == Ok(v.x)
    ensures v.Str? ==> (r.Ok? <==> v.s != "" && parse(v.s).Some?)
    ensures v.Str? && r.Ok? ==> r.value == parse(v.s).value
    ensures v.Str? && r.Err? ==> r.error == ValueError
    ensures !v.Num? && !v.Str? ==> r == Err(TypeError)
  {
    match v
    case Num(x) => Ok(x)
    case Str(s) => if s != "" && parse(s).Some? then Ok(parse(s).value) else Err(ValueError)
    case _ => Err(TypeError)
  }

  /** The framework's `EMPTY_VALUES` test `v in (None, '', [], (), {})` on
      these values: `None` and the empty string. */
  predicate IsEmpty(v: PyValue) {
    v == PyNone || v == Str("")
  }

  /** An empty value is never truthy. */
  lemma EmptyIsFalsy(v: PyValue)
    requires IsEmpty(v)
    ensures !Truthy(v)
  {
  }
}
