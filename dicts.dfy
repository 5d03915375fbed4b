/** Python's `dict`, which remembers the order its keys were first
    inserted in: a key sequence without repetitions beside the map itself.
    Assigning to a present key keeps its position; a new key goes last;
    deleting a key removes it from the order. */
module Dicts {

  /** No key occurs twice in `s`. */
  predicate Distinct(s: seq<string>) {
    forall i, j :: 0 <= i < j < |s| ==> s[i] != s[j]
  }

  /** `s` lists every element of `keys` exactly once: a Python iteration
      order for that key set. */
  predicate Enumerates(s: seq<string>, keys: set<string>) {
    && Distinct(s)
    && (forall k :: k in keys ==> k in s)
    && (forall i :: 0 <= i < |s| ==> s[i] in keys)
  }

  datatype Dict<V> = Dict(keys: seq<string>, entries: map<string, V>)
  {
    predicate Valid() { Enumerates(keys, entries.Keys) }
  }

  function Empty<V>(): (r: Dict<V>)
    ensures r.Valid() && r.entries == map[] && r.keys == []
  {
    Dict([], map[])
  }

  /** `d[k] = v`. */
  function Put<V>(d: Dict<V>, k: string, v: V): (r: Dict<V>)
    requires d.Valid()
    ensures r.Valid()
    ensures r.entries == d.entries[k := v]
    ensures k in d.entries ==> r.keys == d.keys
    ensures k !in d.entries ==> r.keys == d.keys + [k]
  {
    if k in d.entries then Dict(d.keys, d.entries[k := v])
    else Dict(d.keys + [k], d.entries[k := v])
  }

  /** `s` without the element `k`, others in their order. */
  function Without(s: seq<string>, k: string): (r: seq<string>)
    ensures forall x :: x in r <==> x in s && x != k
    ensures Distinct(s) ==> Distinct(r)
    ensures |r| <= |s|
  {
    if s == [] then []
    else
      var rest := Without(s[1..], k);
      if Distinct(s) then DistinctTail(s); if s[0] == k then rest else [s[0]] + rest
      else if s[0] == k then rest else [s[0]] + rest
  }

  lemma DistinctTail(s: seq<string>)
    requires s != [] && Distinct(s)
    ensures Distinct(s[1..]) && s[0] !in s[1..]
  {
    var t := s[1..];
    forall i, j | 0 <= i < j < |t| ensures t[i] != t[j] {
      assert t[i] == s[i + 1] && t[j] == s[j + 1];
    }
    forall j | 0 <= j < |t| ensures t[j] != s[0] {
      assert t[j] == s[j + 1];
    }
  }

  /** `del d[k]` (and the removal half of `d.pop(k)`); the caller has
      checked that `k` is present, as Python raises `KeyError` otherwise. */
  function Remove<V>(d: Dict<V>, k: string): (r: Dict<V>)
    requires d.Valid()
    ensures r.Valid()
    ensures r.entries == d.entries - {k}
    ensures r.keys == Without(d.keys, k)
  {
    var rest := Without(d.keys, k);
    assert forall i :: 0 <= i < |rest| ==> rest[i] in rest;
    Dict(rest, d.entries - {k})
  }
}
