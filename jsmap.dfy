/** A JavaScript `Map`: a finite map that remembers the order in which its
    keys were first inserted.  `set` on a present key overwrites the value in
    place, `set` on a new key appends it, `delete` removes it, and
    `Array.from(m.values())` lists the values in key order. */
module JsMap {

  datatype Option<T> = None | Some(value: T)

  /** Map keys are strings: uuids and connection ids. */
  type Key = string

  datatype OMap<V> = OMap(keys: seq<Key>, vals: map<Key, V>)

  /** No key occurs twice. */
  predicate Distinct(s: seq<Key>) {
    forall i, j | 0 <= i < j < |s| :: s[i] != s[j]
  }

  /** The insertion-order list names every key of the map exactly once. */
  predicate WellFormed<V>(m: OMap<V>) {
    && Distinct(m.keys)
    && (forall k | k in m.vals :: k in m.keys)
    && (forall k | k in m.keys :: k in m.vals)
  }

  type JsMap<V> = m: OMap<V> | WellFormed(m) witness OMap([], map[])

  /** `new Map()` */
  function Empty<V>(): (m: JsMap<V>)
    ensures m.vals == map[] && m.keys == []
  {
    OMap([], map[])
  }

  /** `m.get(k)` */
  function Get<V>(m: JsMap<V>, k: Key): (r: Option<V>)
    ensures r.Some? <==> k in m.keys
    ensures r.Some? ==> k in m.vals && r.value == m.vals[k]
  {
    if k in m.vals then Some(m.vals[k]) else None
  }

  /** `m.size` */
  function Size<V>(m: JsMap<V>): (n: nat)
    ensures n == |m.vals.Keys|
  {
    DistinctCardinality(m.keys);
    assert m.vals.Keys == set k | k in m.keys;
    |m.keys|
  }

  /** `m.set(k, v)`: overwrite in place when `k` is present, append otherwise. */
  function Set<V>(m: JsMap<V>, k: Key, v: V): (r: JsMap<V>)
    ensures Get(r, k) == Some(v)
    ensures forall j :: j != k ==> Get(r, j) == Get(m, j)
    ensures k in m.vals ==> r.keys == m.keys
    ensures k !in m.vals ==> r.keys == m.keys + [k]
  {
    if k in m.vals then OMap(m.keys, m.vals[k := v])
    else OMap(m.keys + [k], m.vals[k := v])
  }

  /** The key list with `k` taken out, the other keys in their order. */
  function Without(s: seq<Key>, k: Key): (r: seq<Key>)
    ensures forall j :: j in r <==> j in s && j != k
  {
    if s == [] then []
    else if s[0] == k then Without(s[1..], k)
    else [s[0]] + Without(s[1..], k)
  }

  lemma {:induction false} WithoutDistinct(s: seq<Key>, k: Key)
    requires Distinct(s)
    ensures Distinct(Without(s, k))
  {
    if s != [] {
      var tail := s[1..];
      assert forall i, j | 0 <= i < j < |tail| :: tail[i] == s[i + 1] && tail[j] == s[j + 1];
      WithoutDistinct(tail, k);
      var t := Without(tail, k);
      assert s[0] !in tail by {
        forall m | 0 <= m < |tail| ensures tail[m] != s[0] { assert tail[m] == s[m + 1]; }
      }
      if s[0] != k {
        var r := [s[0]] + t;
        forall i, j | 0 <= i < j < |r| ensures r[i] != r[j] {
          if i == 0 {
            assert r[j] == t[j - 1] && t[j - 1] in t;
          } else {
            assert r[i] == t[i - 1] && r[j] == t[j - 1];
          }
        }
        assert Without(s, k) == r;
      }
    }
  }

  lemma {:induction false} WithoutAbsent(s: seq<Key>, k: Key)
    ensures k !in s ==> Without(s, k) == s
  {
    if s != [] {
      WithoutAbsent(s[1..], k);
    }
  }

  /** `m.delete(k)`: the map without `k`, and whether `k` was present. */
  function Delete<V>(m: JsMap<V>, k: Key): (r: (JsMap<V>, bool))
    ensures r.1 <==> k in m.keys
    ensures Get(r.0, k) == None
    ensures forall j :: j != k ==> Get(r.0, j) == Get(m, j)
    ensures r.0.keys == Without(m.keys, k)
    ensures !r.1 ==> r.0 == m
  {
    WithoutDistinct(m.keys, k);
    WithoutAbsent(m.keys, k);
    (OMap(Without(m.keys, k), m.vals - {k}), k in m.vals)
  }

  /** The values listed along a sequence of keys. */
  function Project<V>(keys: seq<Key>, vals: map<Key, V>): (r: seq<V>)
    requires forall k | k in keys :: k in vals
    ensures |r| == |keys|
    ensures forall i | 0 <= i < |keys| :: r[i] == vals[keys[i]]
  {
    if keys == [] then [] else [vals[keys[0]]] + Project(keys[1..], vals)
  }

  /** `Array.from(m.values())` */
  function Values<V>(m: JsMap<V>): (r: seq<V>)
    ensures |r| == |m.keys|
    ensures forall i | 0 <= i < |m.keys| :: r[i] == m.vals[m.keys[i]]
  {
    Project(m.keys, m.vals)
  }

  /** A sequence without repetitions has as many elements as its set. */
  lemma {:induction false} DistinctCardinality(s: seq<Key>)
    requires Distinct(s)
    ensures |set k | k in s| == |s|
  {
    if s != [] {
      DistinctCardinality(s[1..]);
      assert s[0] !in s[1..];
      assert (set k | k in s) == (set k | k in s[1..]) + {s[0]};
    }
  }

  /** Setting a new key appends its value to the value list. */
  lemma ValuesSetNew<V>(m: JsMap<V>, k: Key, v: V)
    requires k !in m.vals
    ensures Values(Set(m, k, v)) == Values(m) + [v]
  {
  }

  /** Setting a present key replaces its value where it stands. */
  lemma ValuesSetPresent<V>(m: JsMap<V>, k: Key, v: V)
    requires k in m.vals
    ensures var r := Values(Set(m, k, v));
      && |r| == |Values(m)|
      && forall i | 0 <= i < |r| :: r[i] == if m.keys[i] == k then v else Values(m)[i]
  {
  }

  /** Once `k` is gone from the key list, dropping it from the value map
      does not change the value list. */
  lemma {:induction false} ProjectWithout<V>(keys: seq<Key>, vals: map<Key, V>, k: Key)
    requires forall j | j in keys :: j in vals
    ensures Project(Without(keys, k), vals - {k}) == Project(Without(keys, k), vals)
  {
    if keys != [] {
      ProjectWithout(keys[1..], vals, k);
    }
  }
}
