/** `django_measurement/measure.py`: the placeholder standing for a stored
    measurement whose measure class cannot be found. It keeps the stored
    measure name, original unit and magnitude, compares on name and
    magnitude only, and refuses every unit conversion. */
module UnknownMeasures {
  import opened Outcomes

  datatype UnknownMeasure = UnknownMeasure(measure: string, originalUnit: string, value: real)

  /** The right operand of a comparison: another placeholder or any other
      object (a measure, a number, `None`, ...). */
  datatype Other = Placeholder(u: UnknownMeasure) | NotPlaceholder

  /** `get_measurement_parts`: the constructor's three arguments in order. */
  function Parts(u: UnknownMeasure): (r: (string, string, real))
    ensures UnknownMeasure(r.0, r.1, r.2) == u
  {
    (u.measure, u.originalUnit, u.value)
  }

  /** `__eq__`: equal measure names and equal values; the original unit
      plays no part, and any other object is unequal. */
  function Eq(u: UnknownMeasure, other: Other): (r: bool)
    ensures r <==> other.Placeholder? && other.u.measure == u.measure && other.u.value == u.value
  {
    match other
    case Placeholder(o) => o.measure == u.measure && o.value == u.value
    case NotPlaceholder => false
  }

  /** `__lt__`: with equal measure names, whether the value is smaller;
      with different names the method falls off its end and answers
      `NotImplemented`, as it does for any other object. */
  function Lt(u: UnknownMeasure, other: Other): (r: Cmp)
    ensures r.Answer? <==> other.Placeholder? && other.u.measure == u.measure
    ensures r.Answer? ==> (r.b <==> u.value < other.u.value)
  {
    match other
    case Placeholder(o) => if o.measure == u.measure then Answer(u.value < o.value) else NotImplemented
    case NotPlaceholder => NotImplemented
  }

  /** `__le__` as `total_ordering` derives it from `__lt__` and `__eq__`. */
  function Le(u: UnknownMeasure, other: Other): (r: Cmp)
    ensures r.Answer? <==> other.Placeholder? && other.u.measure == u.measure
    ensures r.Answer? ==> (r.b <==> u.value <= other.u.value)
  {
    match Lt(u, other)
    case NotImplemented => NotImplemented
    case Answer(lt) => Answer(lt || Eq(u, other))
  }

  /** `__gt__` derived as "neither smaller nor equal". */
  function Gt(u: UnknownMeasure, other: Other): (r: Cmp)
    ensures r.Answer? <==> other.Placeholder? && other.u.measure == u.measure
    ensures r.Answer? ==> (r.b <==> u.value > other.u.value)
  {
    match Lt(u, other)
    case NotImplemented => NotImplemented
    case Answer(lt) => Answer(!(lt || Eq(u, other)))
  }

  /** `__ge__` derived as "not smaller". */
  function Ge(u: UnknownMeasure, other: Other): (r: Cmp)
    ensures r.Answer? <==> other.Placeholder? && other.u.measure == u.measure
    ensures r.Answer? ==> (r.b <==> u.value >= other.u.value)
  {
    match Lt(u, other)
    case NotImplemented => NotImplemented
    case Answer(lt) => Answer(!lt)
  }

  /** Equality is an equivalence on placeholders, and two placeholders that
      differ only in their original unit are equal. */
  lemma EqIsEquivalence(a: UnknownMeasure, b: UnknownMeasure, c: UnknownMeasure, unit: string)
    ensures Eq(a, Placeholder(a))
    ensures Eq(a, Placeholder(b)) == Eq(b, Placeholder(a))
    ensures Eq(a, Placeholder(b)) && Eq(b, Placeholder(c)) ==> Eq(a, Placeholder(c))
    ensures Eq(a, Placeholder(a.(originalUnit := unit)))
  {
  }

  /** Among placeholders of one measure, exactly one of smaller, equal and
      greater holds. */
  lemma Trichotomy(a: UnknownMeasure, b: UnknownMeasure)
    requires a.measure == b.measure
    ensures Lt(a, Placeholder(b)).Answer? && Gt(a, Placeholder(b)).Answer?
    ensures (if Lt(a, Placeholder(b)).b then 1 else 0) + (if Eq(a, Placeholder(b)) then 1 else 0)
          + (if Gt(a, Placeholder(b)).b then 1 else 0) == 1
  {
  }
}
