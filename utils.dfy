/** `django_measurement/utils.py`: the registry of measure classes by
    name, the grouped unit choice lists built from it, and the helper that
    builds a measure from a magnitude and a unit. */
module Utils {
  import opened Outcomes
  import opened Backports
  import opened Dicts

  /** What a registry name or a class argument refers to: a measure class,
      the `UnknownMeasure` placeholder class, or some other class (one
      without the measure attributes). */
  datatype ClassRef = MeasureRef(c: MeasureClass) | UnknownMeasureClass | OtherClass(name: string)

  const UnknownName := "UnknownMeasure"

  // ---------------------------------------------------------------------
  // build_measure_list
  // ---------------------------------------------------------------------

  /** `dict((m.__name__, m) for m in all_measures)`: later classes of the
      same name replace earlier ones. */
  function NameMap(all: seq<MeasureClass>): map<string, ClassRef>
    decreases |all|
  {
    if all == [] then map[]
    else NameMap(all[..|all| - 1])[all[|all| - 1].name := MeasureRef(all[|all| - 1])]
  }

  /** Every class of the list appears under its own name, bound to a class
      of that name from the list. */
  lemma {:induction false} NameMapHasEvery(all: seq<MeasureClass>, i: nat)
    requires i < |all|
    ensures all[i].name in NameMap(all)
    ensures NameMap(all)[all[i].name].MeasureRef?
    ensures NameMap(all)[all[i].name].c.name == all[i].name
    ensures NameMap(all)[all[i].name].c in all
    decreases |all|
  {
    var n := |all|;
    if i < n - 1 {
      NameMapHasEvery(all[..n - 1], i);
      assert all[..n - 1][i] == all[i];
      var e := NameMap(all[..n - 1])[all[i].name];
      assert e.c in all[..n - 1];
    }
  }

  /** `NameMap` holds nothing but the names of listed classes. */
  lemma {:induction false} NameMapOnlyNames(all: seq<MeasureClass>, k: string)
    requires k in NameMap(all)
    ensures exists i :: 0 <= i < |all| && all[i].name == k
    decreases |all|
  {
    var n := |all|;
    if all[n - 1].name != k {
      NameMapOnlyNames(all[..n - 1], k);
      var i :| 0 <= i < n - 1 && all[..n - 1][i].name == k;
      assert all[i] == all[..n - 1][i];
    }
  }

  /** When class names are unique, every class is bound to exactly itself. */
  lemma {:induction false} NameMapUnique(all: seq<MeasureClass>, i: nat)
    requires i < |all|
    requires forall a, b :: 0 <= a < b < |all| ==> all[a].name != all[b].name
    ensures all[i].name in NameMap(all)
    ensures NameMap(all)[all[i].name] == MeasureRef(all[i])
    decreases |all|
  {
    var n := |all|;
    if i < n - 1 {
      assert all[n - 1].name != all[i].name;
      NameMapUnique(all[..n - 1], i);
      assert all[..n - 1][i] == all[i];
    }
  }

  /** The name map as the ordered dict the comprehension builds: names in
      order of first occurrence. */
  function NameDict(all: seq<MeasureClass>): (r: Dict<ClassRef>)
    ensures r.Valid() && r.entries == NameMap(all)
    decreases |all|
  {
    if all == [] then Empty()
    else Put(NameDict(all[..|all| - 1]), all[|all| - 1].name, MeasureRef(all[|all| - 1]))
  }

  /** `m` updated by the entries of `e` under the keys `ks`, in order. */
  function Override(m: map<string, ClassRef>, e: map<string, ClassRef>, ks: seq<string>): map<string, ClassRef>
    requires forall i :: 0 <= i < |ks| ==> ks[i] in e
    decreases |ks|
  {
    if ks == [] then m
    else Override(m, e, ks[..|ks| - 1])[ks[|ks| - 1] := e[ks[|ks| - 1]]]
  }

  /** Applying every override in turn is the dict union `m | e` restricted
      to the keys applied. */
  lemma {:induction false} OverrideIsUnion(m: map<string, ClassRef>, e: map<string, ClassRef>, ks: seq<string>)
    requires forall i :: 0 <= i < |ks| ==> ks[i] in e
    ensures forall k :: k in Override(m, e, ks) <==> k in m || k in ks
    ensures forall k :: k in ks ==> Override(m, e, ks)[k] == e[k]
    ensures forall k :: k in m && k !in ks ==> Override(m, e, ks)[k] == m[k]
    decreases |ks|
  {
    if ks != [] {
      var init := ks[..|ks| - 1];
      OverrideIsUnion(m, e, init);
      assert forall k :: k in ks <==> k in init || k == ks[|ks| - 1];
    }
  }

  /** One more key of the overrides replaces or adds its own entry. */
  lemma OverrideStep(m: map<string, ClassRef>, overrides: Dict<ClassRef>, j: nat)
    requires overrides.Valid() && j < |overrides.keys|
    ensures Override(m, overrides.entries, overrides.keys[..j + 1]) ==
      Override(m, overrides.entries, overrides.keys[..j])[overrides.keys[j] := overrides.entries[overrides.keys[j]]]
  {
    assert overrides.keys[..j + 1][..j] == overrides.keys[..j];
  }

  /** Applying the overrides under all their keys is the dict union. */
  lemma OverrideAll(m: map<string, ClassRef>, e: map<string, ClassRef>, ks: seq<string>)
    requires Enumerates(ks, e.Keys)
    ensures Override(m, e, ks) == m + e
  {
    OverrideIsUnion(m, e, ks);
    var o := Override(m, e, ks);
    assert forall k :: k in o <==> k in m + e;
    assert forall k :: k in o ==> o[k] == (m + e)[k];
  }

  /** `build_measure_list`: the name map of all measures, then every
      override under its name, then `'UnknownMeasure'` bound to the
      placeholder class whatever came before. The overriding classes are
      passed already imported. */
  method BuildMeasureList(all: seq<MeasureClass>, overrides: Dict<ClassRef>) returns (r: Dict<ClassRef>)
    requires overrides.Valid()
    ensures r.Valid()
    ensures r.entries == (NameMap(all) + overrides.entries)[UnknownName := UnknownMeasureClass]
  {
    var measures := NameDict(all);
    for j := 0 to |overrides.keys|
      invariant measures.Valid()
      invariant measures.entries == Override(NameMap(all), overrides.entries, overrides.keys[..j])
    {
      var name := overrides.keys[j];
      OverrideStep(NameMap(all), overrides, j);
      measures := Put(measures, name, overrides.entries[name]);
    }
    assert overrides.keys[..|overrides.keys|] == overrides.keys;
    OverrideAll(NameMap(all), overrides.entries, overrides.keys);
    r := Put(measures, UnknownName, UnknownMeasureClass);
  }

  /** What `build_measure_list` promises, name by name: the placeholder
      under `'UnknownMeasure'`, an override under its own name, and
      otherwise a listed class of that name; and no other names. */
  lemma RegistryEntries(all: seq<MeasureClass>, overrides: Dict<ClassRef>, k: string)
    ensures var reg := (NameMap(all) + overrides.entries)[UnknownName := UnknownMeasureClass];
      && (k in reg <==> k == UnknownName || k in overrides.entries || exists i :: 0 <= i < |all| && all[i].name == k)
      && (k == UnknownName ==> reg[k] == UnknownMeasureClass)
      && (k != UnknownName && k in overrides.entries ==> reg[k] == overrides.entries[k])
      && (k != UnknownName && k !in overrides.entries && k in reg ==>
            reg[k].MeasureRef? && reg[k].c.name == k && reg[k].c in all)
  {
    if k in NameMap(all) {
      NameMapOnlyNames(all, k);
    }
    if exists i :: 0 <= i < |all| && all[i].name == k {
      var i :| 0 <= i < |all| && all[i].name == k;
      NameMapHasEvery(all, i);
    }
  }

  // ---------------------------------------------------------------------
  // get_measure_unit_choices
  // ---------------------------------------------------------------------

  /** A registry entry that yields a group: a measure that is neither the
      placeholder nor bidimensional. */
  predicate Grouped(e: ClassRef) {
    e.MeasureRef? && !e.c.IsBidimensional()
  }

  /** `k` is a registry name whose entry yields a group. */
  predicate GroupedIn(reg: Dict<ClassRef>, k: string) {
    k in reg.entries && Grouped(reg.entries[k])
  }

  /** The registry names, in order, whose entries yield a group. */
  function GroupedNames(reg: Dict<ClassRef>, ks: seq<string>): (r: seq<string>)
    ensures forall i :: 0 <= i < |r| ==> GroupedIn(reg, r[i])
    ensures forall k :: k in ks && GroupedIn(reg, k) ==> k in r
    decreases |ks|
  {
    if ks == [] then []
    else
      var init := GroupedNames(reg, ks[..|ks| - 1]);
      var k := ks[|ks| - 1];
      assert forall x :: x in ks ==> x in ks[..|ks| - 1] || x == k;
      if GroupedIn(reg, k) then init + [k] else init
  }

  /** The key a unit is offered under. */
  function ChoiceKey(measureName: string, unit: string, includeMeasure: bool): string {
    if includeMeasure then measureName + "." + unit else unit
  }

  /** The items of the group of measure `name` of class `c`: one
      `(key, unit)` item per unit, in `UNITS` order. */
  predicate IsGroup(name: string, c: MeasureClass, items: seq<(string, string)>, includeMeasure: bool) {
    && |items| == |c.unitOrder|
    && forall j :: 0 <= j < |items| ==> items[j] == (ChoiceKey(name, c.unitOrder[j], includeMeasure), c.unitOrder[j])
  }

  /** `groups` holds one group per name of `names`, in order. */
  predicate AreGroups(reg: Dict<ClassRef>, names: seq<string>, groups: seq<(string, seq<(string, string)>)>, includeMeasure: bool)
    requires forall i :: 0 <= i < |names| ==> GroupedIn(reg, names[i])
  {
    && |groups| == |names|
    && forall g :: 0 <= g < |names| ==> GroupAt(reg, names[g], groups[g], includeMeasure)
  }

  /** `group` is the group of registry name `name`. */
  predicate GroupAt(reg: Dict<ClassRef>, name: string, group: (string, seq<(string, string)>), includeMeasure: bool)
    requires GroupedIn(reg, name)
  {
    group.0 == name && IsGroup(name, reg.entries[name].c, group.1, includeMeasure)
  }

  /** One more registry key adds its own name when its entry yields a group. */
  lemma GroupedNamesStep(reg: Dict<ClassRef>, ks: seq<string>, i: nat)
    requires i < |ks|
    ensures GroupedNames(reg, ks[..i + 1]) == GroupedNames(reg, ks[..i]) + (if GroupedIn(reg, ks[i]) then [ks[i]] else [])
  {
    assert ks[..i + 1][..i] == ks[..i];
  }

  /** Appending the group of the next name keeps the list of groups. */
  lemma AreGroupsAppend(reg: Dict<ClassRef>, names: seq<string>, groups: seq<(string, seq<(string, string)>)>,
                        name: string, items: seq<(string, string)>, includeMeasure: bool)
    requires forall i :: 0 <= i < |names| ==> GroupedIn(reg, names[i])
    requires GroupedIn(reg, name)
    requires AreGroups(reg, names, groups, includeMeasure)
    requires IsGroup(name, reg.entries[name].c, items, includeMeasure)
    ensures AreGroups(reg, names + [name], groups + [(name, items)], includeMeasure)
  {
    var names', groups' := names + [name], groups + [(name, items)];
    forall g | 0 <= g < |names'|
      ensures GroupAt(reg, names'[g], groups'[g], includeMeasure)
    {
      if g < |groups| {
        assert groups'[g] == groups[g] && names'[g] == names[g];
      }
    }
  }

  /** The inner loop of `get_measure_unit_choices`: the items of one
      measure's group. */
  method GroupItems(measureName: string, c: MeasureClass, includeMeasure: bool) returns (items: seq<(string, string)>)
    ensures IsGroup(measureName, c, items, includeMeasure)
  {
    var units := c.unitOrder;
    items := [];
    for j := 0 to |units|
      invariant |items| == j
      invariant forall t :: 0 <= t < j ==> items[t] == (ChoiceKey(measureName, units[t], includeMeasure), units[t])
    {
      var unitName := units[j];
      items := items + [(if includeMeasure then measureName + "." + unitName else unitName, unitName)];
    }
  }

  /** `get_measure_unit_choices`: one `(name, items)` group per grouped
      registry entry in registry order, with one `(key, unit)` item per unit
      in `UNITS` order; an entry that is neither a measure nor the
      placeholder has no `UNITS` and raises `AttributeError`. */
  method GetMeasureUnitChoices(reg: Dict<ClassRef>, includeMeasure: bool)
    returns (r: Result<seq<(string, seq<(string, string)>)>>)
    requires reg.Valid()
    ensures r.Err? <==> exists k :: k in reg.entries && reg.entries[k].OtherClass?
    ensures r.Err? ==> r.error == AttributeError
    ensures r.Ok? ==> AreGroups(reg, GroupedNames(reg, reg.keys), r.value, includeMeasure)
  {
    var finalList: seq<(string, seq<(string, string)>)> := [];
    for i := 0 to |reg.keys|
      invariant forall j :: 0 <= j < i ==> !reg.entries[reg.keys[j]].OtherClass?
      invariant AreGroups(reg, GroupedNames(reg, reg.keys[..i]), finalList, includeMeasure)
    {
      var measureName := reg.keys[i];
      var measure := reg.entries[measureName];
      if measure.UnknownMeasureClass? {
        SkipStep(reg, i, finalList, includeMeasure);
        continue;
      }
      if measure.OtherClass? {
        return Err(AttributeError);
      }
      if measure.c.IsBidimensional() {
        SkipStep(reg, i, finalList, includeMeasure);
        continue;
      }
      var measureItems := GroupItems(measureName, measure.c, includeMeasure);
      AppendStep(reg, i, finalList, measureItems, includeMeasure);
      finalList := finalList + [(measureName, measureItems)];
    }
    AllKeysVisited(reg, finalList, includeMeasure);
    NoOtherClass(reg);
    return Ok(finalList);
  }

  /** Once every registry key is visited, the groups are those of the whole registry. */
  lemma AllKeysVisited(reg: Dict<ClassRef>, groups: seq<(string, seq<(string, string)>)>, includeMeasure: bool)
    requires AreGroups(reg, GroupedNames(reg, reg.keys[..|reg.keys|]), groups, includeMeasure)
    ensures AreGroups(reg, GroupedNames(reg, reg.keys), groups, includeMeasure)
  {
    assert reg.keys[..|reg.keys|] == reg.keys;
  }

  /** A registry key whose entry yields no group leaves the groups as they are. */
  lemma SkipStep(reg: Dict<ClassRef>, i: nat, groups: seq<(string, seq<(string, string)>)>, includeMeasure: bool)
    requires i < |reg.keys| && !GroupedIn(reg, reg.keys[i])
    requires AreGroups(reg, GroupedNames(reg, reg.keys[..i]), groups, includeMeasure)
    ensures AreGroups(reg, GroupedNames(reg, reg.keys[..i + 1]), groups, includeMeasure)
  {
    GroupedNamesStep(reg, reg.keys, i);
  }

  /** A registry key whose entry yields a group adds that group last. */
  lemma AppendStep(reg: Dict<ClassRef>, i: nat, groups: seq<(string, seq<(string, string)>)>,
                   items: seq<(string, string)>, includeMeasure: bool)
    requires i < |reg.keys| && GroupedIn(reg, reg.keys[i])
    requires AreGroups(reg, GroupedNames(reg, reg.keys[..i]), groups, includeMeasure)
    requires IsGroup(reg.keys[i], reg.entries[reg.keys[i]].c, items, includeMeasure)
    ensures AreGroups(reg, GroupedNames(reg, reg.keys[..i + 1]), groups + [(reg.keys[i], items)], includeMeasure)
  {
    GroupedNamesStep(reg, reg.keys, i);
    AreGroupsAppend(reg, GroupedNames(reg, reg.keys[..i]), groups, reg.keys[i], items, includeMeasure);
  }

  /** A registry whose keys, in order, name no other class has no entry
      for one. */
  lemma NoOtherClass(reg: Dict<ClassRef>)
    requires reg.Valid() && forall j :: 0 <= j < |reg.keys| ==> !reg.entries[reg.keys[j]].OtherClass?
    ensures !exists k :: k in reg.entries && reg.entries[k].OtherClass?
  {
    forall k | k in reg.entries ensures !reg.entries[k].OtherClass? {
      assert k in reg.keys;
      var j :| 0 <= j < |reg.keys| && reg.keys[j] == k;
    }
  }

  /** In a group of a listed measure every unit is offered exactly once,
      under the bare unit name when the measure is not included. */
  lemma GroupOffersEveryUnitOnce(c: MeasureClass, items: seq<(string, string)>, name: string, includeMeasure: bool, u: string)
    requires Listed(c)
    requires IsGroup(name, c, items, includeMeasure)
    requires u in c.units
    ensures exists j :: 0 <= j < |items| && items[j].1 == u
    ensures forall j, t :: 0 <= j < t < |items| ==> items[j].1 != items[t].1
    ensures forall j :: 0 <= j < |items| ==> items[j].1 in c.units
    ensures !includeMeasure ==> forall j :: 0 <= j < |items| ==> items[j].0 == items[j].1
  {
    var j :| 0 <= j < |c.unitOrder| && c.unitOrder[j] == u;
    assert items[j].1 == u;
  }

  // ---------------------------------------------------------------------
  // get_measurement
  // ---------------------------------------------------------------------

  /** `get_measurement(measure, value, unit, original_unit)`: builds
      `measure(**{unit: value})`, sets its unit to a non-empty
      `original_unit` ("" stands for `None`), and for a bidimensional
      measure sets the reference magnitude to 1. */
  method GetMeasurement(c: MeasureClass, value: real, unit: string, originalUnit: string)
    returns (r: Result<Measure>)
    ensures var st := DefaultUnitsOf(c, [(unit, value)]);
      && (r.Ok? <==> st.Ok?)
      && (r.Err? ==> r.error == st.error)
      && (r.Ok? ==>
            && fresh(r.value)
            && r.value.cls == c
            && r.value.standard == st.value.0
            && r.value.unit == (if originalUnit != "" then originalUnit else st.value.1)
            && (c.IsBidimensional() ==> r.value.referenceValue == 1.0))
  {
    r := Measure.New(c, "", [(unit, value)]);
    if r.Err? {
      return;
    }
    var m := r.value;
    if originalUnit != "" {
      m.unit := originalUnit;
    }
    if c.IsBidimensional() {
      m.referenceValue := 1.0;
    }
  }
}
