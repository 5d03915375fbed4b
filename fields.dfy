/** `django_measurement/fields.py`: a measurement attribute of a record is
    persisted in three columns, the packed measure name `Name(STD)`, the
    original unit and the magnitude in the standard unit; a descriptor
    writes the three columns and rebuilds (and caches) the measurement
    from them, falling back to an `UnknownMeasure` placeholder. */
module Fields {
  import opened Outcomes
  import opened Text
  import opened Dicts
  import opened Backports
  import opened UnknownMeasures
  import opened Values
  import opened Utils

  // ---------------------------------------------------------------------
  // get_measurement_parts and the packed measure name
  // ---------------------------------------------------------------------

  /** `'%s(%s)' % (value.__class__.__name__, value.STANDARD_UNIT)` */
  function PackName(c: MeasureClass): string {
    c.name + "(" + c.standardUnit + ")"
  }

  /** `get_measurement_parts(value)`: a placeholder gives back its own
      parts; a measure gives its packed class name, its unit and its
      standard magnitude; anything else has no `STANDARD_UNIT`. */
  function MeasurementParts(v: PyValue): (r: Result<(string, string, real)>)
    reads ObjectsOf(v)
    ensures r.Ok? <==> v.Meas? || v.Unknown?
    ensures r.Err? ==> r.error == AttributeError
    ensures v.Unknown? ==> r.Ok? && UnknownMeasure(r.value.0, r.value.1, r.value.2) == v.u
    ensures v.Meas? ==> r.Ok? && r.value.1 == v.m.unit && r.value.2 == v.m.standard
  {
    match v
    case Unknown(u) => Ok(UnknownMeasures.Parts(u))
    case Meas(m) => Ok((PackName(m.cls), m.unit, m.standard))
    case _ => Err(AttributeError)
  }

  // ---------------------------------------------------------------------
  // MEASUREMENT_NAME_RE = ([a-zA-Z0-9]+)(?:\(([a-zA-Z0-9_]+)\))?, searched
  // ---------------------------------------------------------------------

  /** Length of the longest prefix of `s` in `[a-zA-Z0-9]`. */
  function AlnumPrefix(s: string): (n: nat)
    ensures n <= |s| && AllAlnum(s[..n])
    ensures n < |s| ==> !IsAlnum(s[n])
  {
    if s == [] || !IsAlnum(s[0]) then 0
    else
      var n := 1 + AlnumPrefix(s[1..]);
      assert s[..n] == [s[0]] + s[1..][..n - 1];
      n
  }

  /** Length of the longest prefix of `s` in `[a-zA-Z0-9_]`. */
  function WordPrefix(s: string): (n: nat)
    ensures n <= |s| && AllWord(s[..n])
    ensures n < |s| ==> !IsWord(s[n])
  {
    if s == [] || !IsWord(s[0]) then 0
    else
      var n := 1 + WordPrefix(s[1..]);
      assert s[..n] == [s[0]] + s[1..][..n - 1];
      n
  }

  /** Index of the first character of `s` in `[a-zA-Z0-9]`, or `|s|`. */
  function FirstAlnum(s: string): (i: nat)
    ensures i <= |s|
    ensures forall j :: 0 <= j < i ==> !IsAlnum(s[j])
    ensures i < |s| ==> IsAlnum(s[i])
  {
    if s == [] || IsAlnum(s[0]) then 0
    else 1 + FirstAlnum(s[1..])
  }

  /** The optional group `(?:\(([a-zA-Z0-9_]+)\))?` at the start of `rest`. */
  function ParseStdUnit(rest: string): (r: Option<string>)
    ensures r.Some? ==> r.value != "" && AllWord(r.value)
  {
    if rest != [] && rest[0] == '(' then
      var w := WordPrefix(rest[1..]);
      if w > 0 && w + 1 < |rest| && rest[w + 1] == ')' then Some(rest[1..][..w])
      else None
    else None
  }

  /** `MEASUREMENT_NAME_RE.search(s).groups()`: the leftmost match starts at
      the first alphanumeric character, takes the longest alphanumeric run
      as the name and then the parenthesised standard unit if one follows;
      with no alphanumeric character there is no match (`None`). */
  function ParseName(s: string): (r: Option<(string, Option<string>)>)
    ensures r.None? <==> forall j :: 0 <= j < |s| ==> !IsAlnum(s[j])
    ensures r.Some? ==> r.value.0 != "" && AllAlnum(r.value.0)
    ensures r.Some? && r.value.1.Some? ==> r.value.1.value != "" && AllWord(r.value.1.value)
  {
    var i := FirstAlnum(s);
    if i == |s| then None
    else
      var t := s[i..];
      var n := AlnumPrefix(t);
      Some((t[..n], ParseStdUnit(t[n..])))
  }

  lemma {:induction false} AlnumPrefixOf(a: string, b: string)
    requires AllAlnum(a)
    requires b == [] || !IsAlnum(b[0])
    ensures AlnumPrefix(a + b) == |a|
    decreases |a|
  {
    if a != [] {
      assert (a + b)[1..] == a[1..] + b;
      AlnumPrefixOf(a[1..], b);
    } else {
      assert a + b == b;
    }
  }

  lemma {:induction false} WordPrefixOf(a: string, b: string)
    requires AllWord(a)
    requires b == [] || !IsWord(b[0])
    ensures WordPrefix(a + b) == |a|
    decreases |a|
  {
    if a != [] {
      assert (a + b)[1..] == a[1..] + b;
      WordPrefixOf(a[1..], b);
    } else {
      assert a + b == b;
    }
  }

  /** Parsing a packed name gives back the class name and standard unit,
      for the names measure classes have. */
  lemma ParsePacked(name: string, std: string)
    requires name != "" && AllAlnum(name)
    requires std != "" && AllWord(std)
    ensures ParseName(name + "(" + std + ")") == Some((name, Some(std)))
  {
    var s := name + "(" + std + ")";
    assert s == name + ("(" + std + ")");
    assert FirstAlnum(s) == 0;
    assert s[0..] == s;
    AlnumPrefixOf(name, "(" + std + ")");
    var rest := s[|name|..];
    assert rest == "(" + std + ")";
    assert rest[1..] == std + ")";
    WordPrefixOf(std, ")");
    assert (std + ")")[..|std|] == std;
  }

  /** A bare alphanumeric name parses to itself with no standard unit. */
  lemma ParseBare(name: string)
    requires name != "" && AllAlnum(name)
    ensures ParseName(name) == Some((name, None))
  {
    assert FirstAlnum(name) == 0;
    assert name[0..] == name;
    AlnumPrefixOf(name, "");
    assert name + "" == name;
  }

  // ---------------------------------------------------------------------
  // MeasurementFieldDescriptor.__get__, as a decision on the columns
  // ---------------------------------------------------------------------

  /** What `__get__` does with the three stored columns: return the cached
      attribute, rebuild a measurement of a class, store a placeholder, or
      let an exception escape. */
  datatype Decoded = FromCache | Build(c: MeasureClass) | AsUnknown(u: UnknownMeasure) | Raise(e: Error)

  /** The lookup-and-build part of `__get__`, inside its `try`: the class by
      name (`KeyError` if absent), the stored standard unit checked against
      the class (a mismatch is a `ValueError`, which is not caught), then
      the measurement built in the standard unit. `AttributeError` (a
      registry entry without `STANDARD_UNIT`, a unit the class cannot
      resolve) and `KeyError` turn into a placeholder. */
  function Lookup(reg: Dict<ClassRef>, name: string, std: Option<string>, unit: string, value: real): (r: Decoded)
    ensures r.Build? || r.AsUnknown? || r == Raise(ValueError)
    ensures r.AsUnknown? ==> r.u == UnknownMeasure(name, unit, value)
    ensures r.Build? ==> name in reg.entries && reg.entries[name] == MeasureRef(r.c)
  {
    if name !in reg.entries then AsUnknown(UnknownMeasure(name, unit, value))
    else match reg.entries[name]
      case MeasureRef(c) =>
        if std.Some? && c.standardUnit != std.value then Raise(ValueError)
        else if DefaultUnitsOf(c, [(c.standardUnit, value)]).Err? then AsUnknown(UnknownMeasure(name, unit, value))
        else Build(c)
      case _ => AsUnknown(UnknownMeasure(name, unit, value))
  }

  /** `__get__` on a record whose columns hold `packed`, `unit` and
      `value`. A non-empty packed name without any alphanumeric character
      does not match, and reading its groups raises `AttributeError`. */
  function Decode(reg: Dict<ClassRef>, packed: string, unit: string, value: real): (r: Decoded)
    ensures r == Raise(AttributeError) <==> packed != "" && ParseName(packed).None?
    ensures r == FromCache <==> packed == "" || (ParseName(packed).Some? && unit == "")
    ensures r == Raise(ValueError) <==>
      && ParseName(packed).Some? && unit != ""
      && var (name, std) := ParseName(packed).value;
         name in reg.entries && reg.entries[name].MeasureRef? &&
         std.Some? && reg.entries[name].c.standardUnit != std.value
  {
    if packed == "" then FromCache
    else match ParseName(packed)
      case None => Raise(AttributeError)
      case Some((name, std)) =>
        if unit == "" then FromCache
        else Lookup(reg, name, std, unit, value)
  }

  /** Storing a measure of a registered, well-formed class and reading the
      columns back rebuilds a measure of that class with the same standard
      magnitude, keeping the original unit. */
  lemma {:induction false} SetThenGet(reg: Dict<ClassRef>, c: MeasureClass, unit: string, standard: real)
    requires WellFormed(c)
    requires c.name != "" && AllAlnum(c.name) && c.standardUnit != "" && AllWord(c.standardUnit)
    requires c.name in reg.entries && reg.entries[c.name] == MeasureRef(c)
    requires unit != ""
    ensures Decode(reg, PackName(c), unit, standard) == Build(c)
    ensures DefaultUnitsOf(c, [(c.standardUnit, standard)]) == Ok((standard, c.standardUnit))
  {
    ParsePacked(c.name, c.standardUnit);
    RebuildFromStandard(c, "", standard);
  }

  /** A placeholder written back to the columns reads back as the very same
      placeholder: its measure name is stored bare, which parses to itself,
      and whatever made the first read fall back makes the second fall back
      too. */
  lemma {:induction false} UnknownRestores(reg: Dict<ClassRef>, packed: string, unit: string, value: real)
    requires Decode(reg, packed, unit, value).AsUnknown?
    ensures var u := Decode(reg, packed, unit, value).u;
      Decode(reg, u.measure, u.originalUnit, u.value) == AsUnknown(u)
  {
    var (name, std) := ParseName(packed).value;
    ParseBare(name);
  }

  /** Empty measure-name columns (and a falsy write leaves them empty)
      make `__get__` return the cached attribute. */
  lemma EmptyColumnsReadCache(reg: Dict<ClassRef>, unit: string, value: real)
    ensures Decode(reg, "", unit, value) == FromCache
  {
  }

  // ---------------------------------------------------------------------
  // The record and the descriptor
  // ---------------------------------------------------------------------

  /** A model instance as far as one measurement field is concerned: its
      three columns and its `__dict__`, where `__get__` caches. */
  class Record {
    var measure: string
    var originalUnit: string
    var measurementValue: real
    var cache: map<string, PyValue>

    constructor (measure: string, originalUnit: string, measurementValue: real, cache: map<string, PyValue>)
      ensures this.measure == measure && this.originalUnit == originalUnit
      ensures this.measurementValue == measurementValue && this.cache == cache
    {
      this.measure := measure;
      this.originalUnit := originalUnit;
      this.measurementValue := measurementValue;
      this.cache := cache;
    }
  }

  /** `MeasurementFieldDescriptor`, identified by the field name it caches
      under; the column names come from the templates below. */
  datatype Descriptor = Descriptor(fieldName: string)

  /** What `__get__` returns: the descriptor itself (class access) or the
      attribute value. */
  datatype Got = TheDescriptor | Attribute(v: PyValue)

  /** `__get__(obj)`. */
  method Get(d: Descriptor, obj: Record?, reg: Dict<ClassRef>) returns (r: Result<Got>)
    modifies obj
    ensures obj == null ==> r == Ok(TheDescriptor)
    ensures obj != null ==>
      && obj.measure == old(obj.measure) && obj.originalUnit == old(obj.originalUnit)
      && obj.measurementValue == old(obj.measurementValue)
      && match Decode(reg, old(obj.measure), old(obj.originalUnit), old(obj.measurementValue))
         case FromCache =>
           && obj.cache == old(obj.cache)
           && r == if d.fieldName in old(obj.cache) then Ok(Attribute(old(obj.cache)[d.fieldName])) else Err(KeyError)
         case Raise(e) => obj.cache == old(obj.cache) && r == Err(e)
         case AsUnknown(u) => obj.cache == old(obj.cache)[d.fieldName := Unknown(u)] && r == Ok(Attribute(Unknown(u)))
         case Build(c) =>
           && r.Ok? && r.value.Attribute? && r.value.v.Meas?
           && obj.cache == old(obj.cache)[d.fieldName := r.value.v]
           && var m := r.value.v.m;
              && fresh(m) && m.cls == c && m.unit == old(obj.originalUnit)
              && m.standard == DefaultUnitsOf(c, [(c.standardUnit, old(obj.measurementValue))]).value.0
              && (c.IsBidimensional() ==> m.referenceValue == 1.0)
  {
    if obj == null {
      return Ok(TheDescriptor);
    }
    var packed := obj.measure;
    var name: string, std: Option<string>;
    if packed != "" {
      var parsed := ParseName(packed);
      if parsed.None? {
        return Err(AttributeError);
      }
      name, std := parsed.value.0, parsed.value.1;
    } else {
      name, std := "", None;
    }
    var value := obj.measurementValue;
    var unit := obj.originalUnit;
    if name == "" || unit == "" {
      if d.fieldName !in obj.cache {
        return Err(KeyError);
      }
      return Ok(Attribute(obj.cache[d.fieldName]));
    }
    var outcome := Lookup(reg, name, std, unit, value);
    if outcome.Raise? {
      return Err(outcome.e);
    }
    if outcome.AsUnknown? {
      obj.cache := obj.cache[d.fieldName := Unknown(outcome.u)];
      return Ok(Attribute(Unknown(outcome.u)));
    }
    var c := outcome.c;
    var m := GetMeasurement(c, value, c.standardUnit, unit);
    obj.cache := obj.cache[d.fieldName := Meas(m.value)];
    return Ok(Attribute(Meas(m.value)));
  }

  /** `__set__(obj, value)`: a truthy value writes its parts to the three
      columns, a falsy one writes `''`, `''` and `0`; class access raises
      `AttributeError`, and so does a truthy value that is not a measure
      (then nothing is written). */
  method Set(d: Descriptor, obj: Record?, value: PyValue) returns (r: Result<()>)
    modifies obj
    ensures obj == null ==> r == Err(AttributeError)
    ensures obj != null ==> obj.cache == old(obj.cache)
    ensures obj != null && old(Truthy(value)) ==>
      var parts := old(MeasurementParts(value));
      if parts.Err? then
        r == Err(AttributeError) &&
        obj.measure == old(obj.measure) && obj.originalUnit == old(obj.originalUnit) &&
        obj.measurementValue == old(obj.measurementValue)
      else
        r == Ok(()) && obj.measure == parts.value.0 && obj.originalUnit == parts.value.1 &&
        obj.measurementValue == parts.value.2
    ensures obj != null && !old(Truthy(value)) ==>
      r == Ok(()) && obj.measure == "" && obj.originalUnit == "" && obj.measurementValue == 0.0
  {
    if obj == null {
      return Err(AttributeError);
    }
    var measure: string, originalUnit: string, standardValue: real;
    if Truthy(value) {
      var parts := MeasurementParts(value);
      if parts.Err? {
        return Err(parts.error);
      }
      measure, originalUnit, standardValue := parts.value.0, parts.value.1, parts.value.2;
    } else {
      measure, originalUnit, standardValue := "", "", 0.0;
    }
    obj.measure := measure;
    obj.originalUnit := originalUnit;
    obj.measurementValue := standardValue;
    return Ok(());
  }

  /** A measure whose standard magnitude is zero is falsy, so storing it
      writes the empty columns, and reading back returns whatever was cached
      before rather than the zero measure. */
  lemma ZeroMeasureIsNotStored(m: Measure, reg: Dict<ClassRef>, value: real)
    requires m.standard == 0.0
    ensures !Truthy(Meas(m))
    ensures Decode(reg, "", "", value) == FromCache
  {
  }

  // ---------------------------------------------------------------------
  // MeasurementField: column-name templates, default parts, pre_init
  // ---------------------------------------------------------------------

  /** `'%s_unit' % name`, `'%s_measure' % name`, `'%s_value' % name` */
  function OriginalUnitFieldName(name: string): string { name + "_unit" }
  function MeasureFieldName(name: string): string { name + "_measure" }
  function MeasurementFieldName(name: string): string { name + "_value" }

  /** The default column values `contribute_to_class` gives the three
      columns: the parts of the field's default, or `''`, `''`, `0.0` when
      there is none, which are the columns a falsy write leaves. */
  function DefaultParts(default: Option<PyValue>): (r: Result<(string, string, real)>)
    reads if default.Some? then ObjectsOf(default.value) else {}
    ensures default.None? ==> r == Ok(("", "", 0.0))
    ensures default.Some? ==> (r.Ok? <==> default.value.Meas? || default.value.Unknown?)
    ensures default.Some? && default.value.Unknown? ==>
      r.Ok? && UnknownMeasure(r.value.0, r.value.1, r.value.2) == default.value.u
  {
    if default.None? then Ok(("", "", 0.0)) else MeasurementParts(default.value)
  }

  /** The keyword arguments a model is being constructed with, which the
      `pre_init` handler edits in place. */
  class KeywordArguments {
    var d: Dict<PyValue>

    constructor (d: Dict<PyValue>)
      ensures this.d == d
    {
      this.d := d;
    }
  }

  /** `instance_pre_init`: when the field's name is among the keyword
      arguments, pop it and put its three parts under the column names. A
      value that is not a measure raises `AttributeError` after the pop. */
  method InstancePreInit(fieldName: string, kwargs: KeywordArguments) returns (r: Result<()>)
    requires kwargs.d.Valid()
    modifies kwargs
    ensures kwargs.d.Valid()
    ensures fieldName !in old(kwargs.d.entries) ==> r == Ok(()) && kwargs.d == old(kwargs.d)
    ensures fieldName in old(kwargs.d.entries) ==>
      var value := old(kwargs.d.entries[fieldName]);
      var parts := old(MeasurementParts(value));
      var popped := old(kwargs.d.entries) - {fieldName};
      if parts.Err? then r == Err(AttributeError) && kwargs.d.entries == popped
      else
        && r == Ok(())
        && kwargs.d.entries == popped[MeasureFieldName(fieldName) := Str(parts.value.0)]
                                     [OriginalUnitFieldName(fieldName) := Str(parts.value.1)]
                                     [MeasurementFieldName(fieldName) := Num(parts.value.2)]
  {
    if fieldName !in kwargs.d.entries {
      return Ok(());
    }
    var value := kwargs.d.entries[fieldName];
    kwargs.d := Remove(kwargs.d, fieldName);
    var parts := MeasurementParts(value);
    if parts.Err? {
      return Err(parts.error);
    }
    var (measureName, originalUnit, standardValue) := parts.value;
    kwargs.d := Put(kwargs.d, MeasureFieldName(fieldName), Str(measureName));
    kwargs.d := Put(kwargs.d, OriginalUnitFieldName(fieldName), Str(originalUnit));
    kwargs.d := Put(kwargs.d, MeasurementFieldName(fieldName), Num(standardValue));
    return Ok(());
  }

  // ---------------------------------------------------------------------
  // MeasurementQuerySet._fix_fields
  // ---------------------------------------------------------------------

  /** The objects the values of a keyword dict refer to. */
  function DictObjects(d: Dict<PyValue>): set<object> {
    set k | k in d.entries && d.entries[k].Meas? :: d.entries[k].m
  }

  /** `issubclass(val.__class__, MeasureBase)`: a measure that is not
      bidimensional (a bidimensional measure and a placeholder are not
      `MeasureBase` subclasses). */
  predicate IsMeasureBase(v: PyValue) {
    v.Meas? && !v.m.cls.IsBidimensional()
  }

  /** One iteration of the `_fix_fields` loop on `copy`, for key `k` of the
      original keyword dict holding `v`. */
  function FixOne(copy: Dict<PyValue>, k: string, v: PyValue): (r: Dict<PyValue>)
    requires copy.Valid()
    reads ObjectsOf(v)
    ensures r.Valid()
  {
    if IsMeasureBase(v) then
      var c1 := Put(copy, k + "_measure", Str(PackName(v.m.cls)));
      var c2 := Put(c1, k + "_unit", Str(v.m.unit));
      var c3 := Put(c2, k + "_value", Num(v.m.standard));
      Remove(c3, k)
    else copy
  }

  /** The loop of `_fix_fields` run over the keys `ks` of `kwargs`, in
      order, starting from the copy. */
  function FixFold(kwargs: Dict<PyValue>, ks: seq<string>): (r: Dict<PyValue>)
    requires kwargs.Valid()
    requires forall i :: 0 <= i < |ks| ==> ks[i] in kwargs.entries
    reads DictObjects(kwargs)
    ensures r.Valid()
    decreases |ks|
  {
    if ks == [] then kwargs
    else
      var k := ks[|ks| - 1];
      assert forall o :: o in ObjectsOf(kwargs.entries[k]) ==> o in DictObjects(kwargs);
      FixOne(FixFold(kwargs, ks[..|ks| - 1]), k, kwargs.entries[k])
  }

  /** `_fix_fields(kwargs)`, the loop as the source writes it, over a copy;
      the argument is a value, so it is not changed. Every key still to be
      visited is present in the copy, so the `del` never fails. */
  method FixFields(kwargs: Dict<PyValue>) returns (r: Dict<PyValue>)
    requires kwargs.Valid()
    ensures r == FixFold(kwargs, kwargs.keys)
  {
    var copy := kwargs;
    for i := 0 to |kwargs.keys|
      invariant copy == FixFold(kwargs, kwargs.keys[..i])
      invariant forall j :: i <= j < |kwargs.keys| ==> kwargs.keys[j] in copy.entries
    {
      var key := kwargs.keys[i];
      var val := kwargs.entries[key];
      FoldStep(kwargs, i);
      DistinctAt(kwargs.keys, i);
      ghost var before := copy;
      if IsMeasureBase(val) {
        var (name, unit, value) := (PackName(val.m.cls), val.m.unit, val.m.standard);
        copy := Put(copy, key + "_measure", Str(name));
        copy := Put(copy, key + "_unit", Str(unit));
        copy := Put(copy, key + "_value", Num(value));
        assert key in copy.entries;
        copy := Remove(copy, key);
      }
      assert copy == FixOne(before, key, val);
      forall j | i + 1 <= j < |kwargs.keys| ensures kwargs.keys[j] in copy.entries {
        FixOneKeeps(before, key, val, kwargs.keys[j]);
      }
    }
    assert kwargs.keys[..|kwargs.keys|] == kwargs.keys;
    r := copy;
  }

  /** A step removes no key but its own. */
  lemma FixOneKeeps(F: Dict<PyValue>, key: string, v: PyValue, x: string)
    requires F.Valid() && x in F.entries && x != key
    ensures x in FixOne(F, key, v).entries
  {
  }

  lemma FoldStep(kwargs: Dict<PyValue>, i: nat)
    requires kwargs.Valid() && i < |kwargs.keys|
    ensures FixFold(kwargs, kwargs.keys[..i + 1]) ==
      FixOne(FixFold(kwargs, kwargs.keys[..i]), kwargs.keys[i], kwargs.entries[kwargs.keys[i]])
  {
    assert kwargs.keys[..i + 1][..i] == kwargs.keys[..i];
  }

  lemma DistinctAt(s: seq<string>, i: nat)
    requires Distinct(s) && i < |s|
    ensures forall j :: 0 <= j < |s| && j != i ==> s[j] != s[i]
  {
  }

  /** The three column keys `_fix_fields` derives from `b`. */
  predicate Derived(k: string, b: string) {
    k == b + "_measure" || k == b + "_unit" || k == b + "_value"
  }

  /** No key of the keyword dict is a column key derived from another. */
  predicate NoCollisions(kwargs: Dict<PyValue>) {
    forall a, b :: a in kwargs.entries && b in kwargs.entries ==> !Derived(a, b)
  }

  /** Keys derived from different keys, or with different suffixes, differ,
      and a derived key differs from its origin. */
  lemma SuffixesDiffer(a: string, b: string)
    ensures a + "_measure" != b + "_unit" && a + "_measure" != b + "_value" && a + "_unit" != b + "_value"
    ensures a + "_measure" == b + "_measure" ==> a == b
    ensures a + "_unit" == b + "_unit" ==> a == b
    ensures a + "_value" == b + "_value" ==> a == b
    ensures !Derived(a, a)
  {
    var am, au, av := a + "_measure", a + "_unit", a + "_value";
    var bu, bv := b + "_unit", b + "_value";
    assert am[|am| - 1] == 'e' && bu[|bu| - 1] == 't';
    assert am[|am| - 2] == 'r' && bv[|bv| - 2] == 'u';
    assert au[|au| - 1] == 't' && bv[|bv| - 1] == 'e';
    assert am[..|a|] == a && (b + "_measure")[..|b|] == b;
    assert au[..|a|] == a && bu[..|b|] == b;
    assert av[..|a|] == a && bv[..|b|] == b;
  }

  /** `F` holds the three column keys of measure `m` in place of `b`. */
  predicate SplitInto(F: Dict<PyValue>, b: string, m: Measure)
    reads m
  {
    && b !in F.entries
    && b + "_measure" in F.entries && F.entries[b + "_measure"] == Str(PackName(m.cls))
    && b + "_unit" in F.entries && F.entries[b + "_unit"] == Str(m.unit)
    && b + "_value" in F.entries && F.entries[b + "_value"] == Num(m.standard)
  }

  /** After the first `i` keys, the keys not yet visited and the visited
      non-measure keys keep their values. */
  predicate KeptUpTo(kwargs: Dict<PyValue>, F: Dict<PyValue>, i: nat)
    requires kwargs.Valid()
    reads DictObjects(kwargs)
  {
    forall j :: 0 <= j < |kwargs.keys| && (i <= j || !IsMeasureBase(kwargs.entries[kwargs.keys[j]])) ==>
      kwargs.keys[j] in F.entries && F.entries[kwargs.keys[j]] == kwargs.entries[kwargs.keys[j]]
  }

  /** After the first `i` keys, every visited measure key is split. */
  predicate SplitUpTo(kwargs: Dict<PyValue>, F: Dict<PyValue>, i: nat)
    requires kwargs.Valid()
    reads DictObjects(kwargs)
  {
    forall j :: 0 <= j < i && j < |kwargs.keys| && IsMeasureBase(kwargs.entries[kwargs.keys[j]]) ==>
      SplitInto(F, kwargs.keys[j], kwargs.entries[kwargs.keys[j]].m)
  }

  /** After the first `i` keys, nothing but kept keys and the column keys
      of visited measure keys is present. */
  predicate OnlyUpTo(kwargs: Dict<PyValue>, F: Dict<PyValue>, i: nat)
    requires kwargs.Valid() && i <= |kwargs.keys|
    reads DictObjects(kwargs)
  {
    forall k :: k in F.entries ==> OnlyAt(kwargs, k, i)
  }

  /** After the first `i` keys, `k` may be present: a key not yet visited
      or not a measure, or a column key of a visited measure key. */
  predicate OnlyAt(kwargs: Dict<PyValue>, k: string, i: nat)
    requires kwargs.Valid() && i <= |kwargs.keys|
    reads DictObjects(kwargs)
  {
    || (k in kwargs.entries && (k in kwargs.keys[i..] || !IsMeasureBase(kwargs.entries[k])))
    || exists j :: 0 <= j < i && IsMeasureBase(kwargs.entries[kwargs.keys[j]]) && Derived(k, kwargs.keys[j])
  }

  predicate FixedUpTo(kwargs: Dict<PyValue>, F: Dict<PyValue>, i: nat)
    requires kwargs.Valid() && i <= |kwargs.keys|
    reads DictObjects(kwargs)
  {
    KeptUpTo(kwargs, F, i) && SplitUpTo(kwargs, F, i) && OnlyUpTo(kwargs, F, i)
  }

  /** What one measure step does to the entries. */
  lemma SplitStepEntries(F: Dict<PyValue>, key: string, v: PyValue)
    requires F.Valid() && IsMeasureBase(v)
    ensures FixOne(F, key, v).entries ==
      F.entries[key + "_measure" := Str(PackName(v.m.cls))][key + "_unit" := Str(v.m.unit)]
               [key + "_value" := Num(v.m.standard)] - {key}
  {
  }

  lemma KeptStep(kwargs: Dict<PyValue>, F: Dict<PyValue>, i: nat)
    requires kwargs.Valid() && NoCollisions(kwargs) && F.Valid()
    requires i < |kwargs.keys| && KeptUpTo(kwargs, F, i)
    ensures KeptUpTo(kwargs, FixOne(F, kwargs.keys[i], kwargs.entries[kwargs.keys[i]]), i + 1)
  {
    var keys := kwargs.keys;
    var key := keys[i];
    var v := kwargs.entries[key];
    var G := FixOne(F, key, v);
    if IsMeasureBase(v) {
      DistinctAt(keys, i);
      forall j | 0 <= j < |keys| && (i + 1 <= j || !IsMeasureBase(kwargs.entries[keys[j]]))
        ensures keys[j] in G.entries && G.entries[keys[j]] == kwargs.entries[keys[j]]
      {
        var b := keys[j];
        assert b != key;
        assert !Derived(b, key);
        Untouched(F, key, v, b);
      }
    }
  }

  /** A measure step splits its own key. */
  lemma SplitsOwnKey(F: Dict<PyValue>, key: string, v: PyValue)
    requires F.Valid() && IsMeasureBase(v)
    ensures SplitInto(FixOne(F, key, v), key, v.m)
  {
    var km, ku, kv := key + "_measure", key + "_unit", key + "_value";
    SuffixesDiffer(key, key);
    assert km != ku && km != kv && ku != kv && km != key && ku != key && kv != key;
    var e := F.entries[km := Str(PackName(v.m.cls))][ku := Str(v.m.unit)][kv := Num(v.m.standard)];
    SplitStepEntries(F, key, v);
    assert FixOne(F, key, v).entries == e - {key};
    assert e[km] == Str(PackName(v.m.cls)) && e[ku] == Str(v.m.unit) && e[kv] == Num(v.m.standard);
  }

  /** A measure step on `key` leaves the split of another key `b` alone
      when neither is a column key of the other. */
  lemma SplitSurvives(F: Dict<PyValue>, key: string, v: PyValue, b: string, m: Measure)
    requires F.Valid() && IsMeasureBase(v)
    requires b != key && !Derived(b, key) && !Derived(key, b)
    requires SplitInto(F, b, m)
    ensures SplitInto(FixOne(F, key, v), b, m)
  {
    SuffixesDiffer(b, key);
    SuffixesDiffer(key, b);
    Untouched(F, key, v, b);
    Untouched(F, key, v, b + "_measure");
    Untouched(F, key, v, b + "_unit");
    Untouched(F, key, v, b + "_value");
  }

  /** A measure step on `key` changes no key other than `key` and its
      column keys. */
  lemma Untouched(F: Dict<PyValue>, key: string, v: PyValue, x: string)
    requires F.Valid() && IsMeasureBase(v)
    requires x != key && !Derived(x, key)
    ensures x in FixOne(F, key, v).entries <==> x in F.entries
    ensures x in F.entries ==> FixOne(F, key, v).entries[x] == F.entries[x]
  {
    SplitStepEntries(F, key, v);
  }

  lemma SplitStep(kwargs: Dict<PyValue>, F: Dict<PyValue>, i: nat)
    requires kwargs.Valid() && NoCollisions(kwargs) && F.Valid()
    requires i < |kwargs.keys| && SplitUpTo(kwargs, F, i)
    ensures SplitUpTo(kwargs, FixOne(F, kwargs.keys[i], kwargs.entries[kwargs.keys[i]]), i + 1)
  {
    var keys := kwargs.keys;
    var key := keys[i];
    var v := kwargs.entries[key];
    if IsMeasureBase(v) {
      var G := FixOne(F, key, v);
      SplitsOwnKey(F, key, v);
      forall j | 0 <= j < i && IsMeasureBase(kwargs.entries[keys[j]])
        ensures SplitInto(G, keys[j], kwargs.entries[keys[j]].m)
      {
        var b := keys[j];
        assert b in kwargs.entries && b != key;
        SplitSurvives(F, key, v, b, kwargs.entries[b].m);
      }
    }
  }

  lemma OnlyStep(kwargs: Dict<PyValue>, F: Dict<PyValue>, i: nat)
    requires kwargs.Valid() && F.Valid()
    requires i < |kwargs.keys| && OnlyUpTo(kwargs, F, i)
    ensures OnlyUpTo(kwargs, FixOne(F, kwargs.keys[i], kwargs.entries[kwargs.keys[i]]), i + 1)
  {
    var G := FixOne(F, kwargs.keys[i], kwargs.entries[kwargs.keys[i]]);
    forall k | k in G.entries
      ensures OnlyAt(kwargs, k, i + 1)
    {
      OnlyStepAt(kwargs, F, i, k);
    }
  }

  /** The step at `i` for one key of its result. */
  lemma OnlyStepAt(kwargs: Dict<PyValue>, F: Dict<PyValue>, i: nat, k: string)
    requires kwargs.Valid() && F.Valid()
    requires i < |kwargs.keys| && OnlyUpTo(kwargs, F, i)
    requires k in FixOne(F, kwargs.keys[i], kwargs.entries[kwargs.keys[i]]).entries
    ensures OnlyAt(kwargs, k, i + 1)
  {
    var key := kwargs.keys[i];
    var v := kwargs.entries[key];
    if IsMeasureBase(v) && Derived(k, key) {
      assert 0 <= i < i + 1 && IsMeasureBase(kwargs.entries[kwargs.keys[i]]) && Derived(k, kwargs.keys[i]);
    } else {
      if IsMeasureBase(v) {
        SplitLeavesOthers(F, key, v, k);
      }
      OnlyAtStep(kwargs, k, i);
    }
  }

  /** After a measure step, a key other than the new columns was there
      before and is not the split key. */
  lemma SplitLeavesOthers(F: Dict<PyValue>, key: string, v: PyValue, k: string)
    requires F.Valid() && IsMeasureBase(v)
    requires k in FixOne(F, key, v).entries && !Derived(k, key)
    ensures k != key && k in F.entries
  {
    SplitStepEntries(F, key, v);
  }

  /** A key allowed after `i` keys stays allowed after `i + 1`, unless it
      is the measure key visited at `i`. */
  lemma OnlyAtStep(kwargs: Dict<PyValue>, k: string, i: nat)
    requires kwargs.Valid() && i < |kwargs.keys| && OnlyAt(kwargs, k, i)
    requires IsMeasureBase(kwargs.entries[kwargs.keys[i]]) ==> k != kwargs.keys[i]
    ensures OnlyAt(kwargs, k, i + 1)
  {
    var keys := kwargs.keys;
    assert keys[i..] == [keys[i]] + keys[i + 1..];
    if exists j :: 0 <= j < i && IsMeasureBase(kwargs.entries[keys[j]]) && Derived(k, keys[j]) {
      var j :| 0 <= j < i && IsMeasureBase(kwargs.entries[keys[j]]) && Derived(k, keys[j]);
      assert 0 <= j < i + 1;
    }
  }

  /** With no colliding keys, `_fix_fields` replaces every measure key `k`
      by `k_measure`, `k_unit` and `k_value` holding its parts, keeps every
      other key with its value, and adds nothing else. */
  lemma {:induction false} FixFoldSplitsMeasures(kwargs: Dict<PyValue>, i: nat)
    requires kwargs.Valid() && NoCollisions(kwargs) && i <= |kwargs.keys|
    ensures FixedUpTo(kwargs, FixFold(kwargs, kwargs.keys[..i]), i)
  {
    if i == 0 {
      assert kwargs.keys[0..] == kwargs.keys;
    } else {
      FixFoldSplitsMeasures(kwargs, i - 1);
      var F := FixFold(kwargs, kwargs.keys[..i - 1]);
      FixedStep(kwargs, F, i - 1);
      FoldStep(kwargs, i - 1);
    }
  }

  /** The three facts, carried over one step. */
  lemma FixedStep(kwargs: Dict<PyValue>, F: Dict<PyValue>, i: nat)
    requires kwargs.Valid() && NoCollisions(kwargs) && F.Valid()
    requires i < |kwargs.keys| && FixedUpTo(kwargs, F, i)
    ensures FixedUpTo(kwargs, FixOne(F, kwargs.keys[i], kwargs.entries[kwargs.keys[i]]), i + 1)
  {
    KeptStep(kwargs, F, i);
    SplitStep(kwargs, F, i);
    OnlyStep(kwargs, F, i);
  }

  /** The whole of `_fix_fields`, key by key: with no colliding keys every
      non-measure key keeps its value, every measure key `k` is replaced
      by `k_measure`, `k_unit` and `k_value` holding its parts, and no
      other key appears. */
  lemma FixFieldsResult(kwargs: Dict<PyValue>)
    requires kwargs.Valid() && NoCollisions(kwargs)
    ensures forall k :: k in kwargs.entries && !IsMeasureBase(kwargs.entries[k]) ==>
      k in FixFold(kwargs, kwargs.keys).entries && FixFold(kwargs, kwargs.keys).entries[k] == kwargs.entries[k]
    ensures forall k :: k in kwargs.entries && IsMeasureBase(kwargs.entries[k]) ==>
      SplitInto(FixFold(kwargs, kwargs.keys), k, kwargs.entries[k].m)
    ensures forall k :: k in FixFold(kwargs, kwargs.keys).entries ==>
      (k in kwargs.entries && !IsMeasureBase(kwargs.entries[k])) ||
      exists b :: b in kwargs.entries && IsMeasureBase(kwargs.entries[b]) && Derived(k, b)
  {
    var n := |kwargs.keys|;
    FixFoldSplitsMeasures(kwargs, n);
    assert kwargs.keys[..n] == kwargs.keys;
    var r := FixFold(kwargs, kwargs.keys);
    KeptAtEnd(kwargs, r);
    SplitAtEnd(kwargs, r);
    OnlyAtEnd(kwargs, r);
  }

  lemma KeptAtEnd(kwargs: Dict<PyValue>, r: Dict<PyValue>)
    requires kwargs.Valid() && KeptUpTo(kwargs, r, |kwargs.keys|)
    ensures forall k :: k in kwargs.entries && !IsMeasureBase(kwargs.entries[k]) ==>
      k in r.entries && r.entries[k] == kwargs.entries[k]
  {
    forall k | k in kwargs.entries && !IsMeasureBase(kwargs.entries[k])
      ensures k in r.entries && r.entries[k] == kwargs.entries[k]
    {
      var j :| 0 <= j < |kwargs.keys| && kwargs.keys[j] == k;
    }
  }

  lemma SplitAtEnd(kwargs: Dict<PyValue>, r: Dict<PyValue>)
    requires kwargs.Valid() && SplitUpTo(kwargs, r, |kwargs.keys|)
    ensures forall k :: k in kwargs.entries && IsMeasureBase(kwargs.entries[k]) ==>
      SplitInto(r, k, kwargs.entries[k].m)
  {
    forall k | k in kwargs.entries && IsMeasureBase(kwargs.entries[k])
      ensures SplitInto(r, k, kwargs.entries[k].m)
    {
      var j :| 0 <= j < |kwargs.keys| && kwargs.keys[j] == k;
    }
  }

  lemma OnlyAtEnd(kwargs: Dict<PyValue>, r: Dict<PyValue>)
    requires kwargs.Valid() && OnlyUpTo(kwargs, r, |kwargs.keys|)
    ensures forall k :: k in r.entries ==>
      (k in kwargs.entries && !IsMeasureBase(kwargs.entries[k])) ||
      exists b :: b in kwargs.entries && IsMeasureBase(kwargs.entries[b]) && Derived(k, b)
  {
    var n := |kwargs.keys|;
    assert kwargs.keys[n..] == [];
    forall k | k in r.entries && !(k in kwargs.entries && !IsMeasureBase(kwargs.entries[k]))
      ensures exists b :: b in kwargs.entries && IsMeasureBase(kwargs.entries[b]) && Derived(k, b)
    {
      var j :| 0 <= j < n && IsMeasureBase(kwargs.entries[kwargs.keys[j]]) && Derived(k, kwargs.keys[j]);
      assert kwargs.keys[j] in kwargs.entries;
    }
  }
}
