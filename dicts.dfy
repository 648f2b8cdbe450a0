/**
 * Python's `dict`: a finite map that also remembers the order in which keys
 * were first inserted. Iteration (`values()`, `items()`) follows that order,
 * assigning to an existing key keeps its place, and `del` drops the key.
 */
module Dicts {

  datatype Dict<K(==,!new), V> = Dict(keys: seq<K>, entries: map<K, V>)

  predicate Distinct<K(==,!new)>(s: seq<K>) {
    forall i, j :: 0 <= i < j < |s| ==> s[i] != s[j]
  }

  /** The key order lists every key of the map exactly once. */
  ghost predicate Valid<K(!new), V>(d: Dict<K, V>) {
    Distinct(d.keys) && forall k :: k in d.keys <==> k in d.entries
  }

  function Empty<K(==,!new), V>(): (d: Dict<K, V>)
    ensures Valid(d) && d.keys == [] && d.entries == map[]
  {
    Dict([], map[])
  }

  /** `d[k] = v`: a new key is appended to the order, an existing key keeps its place. */
  function Put<K(==,!new), V>(d: Dict<K, V>, k: K, v: V): (r: Dict<K, V>)
    requires Valid(d)
    ensures Valid(r)
    ensures r.entries == d.entries[k := v]
    ensures r.keys == if k in d.entries then d.keys else d.keys + [k]
  {
    if k in d.entries then Dict(d.keys, d.entries[k := v]) else Dict(d.keys + [k], d.entries[k := v])
  }

  /** `s` with every occurrence of `k` dropped, the rest in order. */
  function Without<K(==,!new)>(s: seq<K>, k: K): (r: seq<K>)
    ensures forall x :: x in r <==> x in s && x != k
    ensures Distinct(s) ==> Distinct(r)
    ensures k !in s ==> r == s
  {
    if s == [] then []
    else if s[0] == k then Without(s[1..], k)
    else
      var rest := Without(s[1..], k);
      if Distinct(s) then DistinctTail(s); [s[0]] + rest else
      [s[0]] + rest
  }

  /** In a sequence without repetitions, dropping the element at `p` keeps the others in their order. */
  lemma {:induction false} WithoutKeepsOrder<K(!new)>(s: seq<K>, p: nat)
    requires Distinct(s) && p < |s|
    ensures Without(s, s[p]) == s[..p] + s[p + 1..]
  {
    DistinctTail(s);
    if p == 0 {
      assert s[p] !in s[1..];
    } else {
      WithoutKeepsOrder(s[1..], p - 1);
      assert s[1..][p - 1] == s[p];
      assert s[0] != s[p];
      assert s[..p] + s[p + 1..] == [s[0]] + (s[1..][..p - 1] + s[1..][p..]);
    }
  }

  /** `del d[k]` keeps the insertion order of the remaining keys. */
  lemma RemoveKeepsOrder<K(!new), V>(d: Dict<K, V>, p: nat)
    requires Valid(d) && p < |d.keys|
    ensures Remove(d, d.keys[p]).keys == d.keys[..p] + d.keys[p + 1..]
  {
    WithoutKeepsOrder(d.keys, p);
  }

  /** Dropping the head of a sequence without repetitions leaves one, and the head is not repeated. */
  lemma DistinctTail<K(!new)>(s: seq<K>)
    requires s != [] && Distinct(s)
    ensures Distinct(s[1..]) && s[0] !in s[1..]
  {
    assert forall j :: 0 <= j < |s[1..]| ==> s[1..][j] == s[j + 1];
  }

  /** `del d[k]` (when `k` is present; otherwise nothing changes). */
  function Remove<K(==,!new), V>(d: Dict<K, V>, k: K): (r: Dict<K, V>)
    requires Valid(d)
    ensures Valid(r)
    ensures r.entries == d.entries - {k}
    ensures r.keys == Without(d.keys, k)
  {
    Dict(Without(d.keys, k), d.entries - {k})
  }

  /** `list(d.values())`, in key order. */
  function Values<K(==,!new), V>(d: Dict<K, V>): (r: seq<V>)
    requires Valid(d)
    ensures |r| == |d.keys|
    ensures forall i :: 0 <= i < |d.keys| ==> r[i] == d.entries[d.keys[i]]
  {
    seq(|d.keys|, i requires 0 <= i < |d.keys| => d.entries[d.keys[i]])
  }

  /** A sequence without repetitions has as many elements as the set of its elements. */
  lemma {:induction false} DistinctCard<K(!new)>(s: seq<K>)
    requires Distinct(s)
    ensures |set x | x in s| == |s|
  {
    if s != [] {
      DistinctTail(s);
      DistinctCard(s[1..]);
      assert (set x | x in s) == (set x | x in s[1..]) + {s[0]};
    }
  }

  /** `len(d)`: the key order is exactly as long as the map is large. */
  lemma SizeOfKeys<K(!new), V>(d: Dict<K, V>)
    requires Valid(d)
    ensures |d.keys| == |d.entries|
  {
    DistinctCard(d.keys);
    assert (set x | x in d.keys) == d.entries.Keys;
  }

  /** `del` of a key that is absent changes nothing. */
  lemma RemoveAbsent<K(!new), V>(d: Dict<K, V>, k: K)
    requires Valid(d) && k !in d.entries
    ensures Remove(d, k) == d
  {
    assert d.entries - {k} == d.entries;
  }

  /** Removing the same key twice is removing it once. */
  lemma RemoveIdempotent<K(!new), V>(d: Dict<K, V>, k: K)
    requires Valid(d)
    ensures Remove(Remove(d, k), k) == Remove(d, k)
  {
    RemoveAbsent(Remove(d, k), k);
  }
}
