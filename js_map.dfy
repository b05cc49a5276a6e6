/** The JavaScript `Map` as the store uses it: a finite map that also
    remembers the order in which its keys were first inserted. `set` on a
    present key replaces the value in place, `set` on a new key appends it,
    `delete` removes the key, and `values()` lists the values in key order. */
module JsMap {
  import opened Wrappers

  datatype OrderedMap<K, V> = OrderedMap(keys: seq<K>, entries: map<K, V>)

  /** The keys are listed once each, and they are exactly the map's keys. */
  ghost predicate Valid<K, V>(m: OrderedMap<K, V>) {
    && Distinct(m.keys)
    && m.entries.Keys == (set k | k in m.keys)
  }

  /** No key is listed twice. */
  ghost predicate Distinct<K>(s: seq<K>) {
    forall i, j :: 0 <= i < j < |s| ==> s[i] != s[j]
  }

  /** Removing one position from a list without repetitions. */
  lemma RemoveIndex<K>(s: seq<K>, i: nat)
    requires Distinct(s) && i < |s|
    ensures var t := s[..i] + s[i + 1..];
            && Distinct(t)
            && (set k | k in t) == (set k | k in s) - {s[i]}
            && forall a :: 0 <= a < |t| ==> t[a] == s[if a < i then a else a + 1]
  {
  }

  /** `new Map()` */
  function Empty<K(==), V>(): (r: OrderedMap<K, V>)
    ensures Valid(r) && r.entries == map[] && r.keys == []
  {
    OrderedMap([], map[])
  }

  /** `m.get(k)` */
  function Get<K(==), V>(m: OrderedMap<K, V>, k: K): (r: Option<V>)
    ensures r.Some? <==> k in m.entries
    ensures r.Some? ==> r.value == m.entries[k]
  {
    if k in m.entries then Some(m.entries[k]) else None
  }

  /** Position of a key in the insertion order. */
  function IndexOf<K(==)>(s: seq<K>, k: K): (i: nat)
    requires k in s
    ensures i < |s| && s[i] == k
    ensures forall j :: 0 <= j < i ==> s[j] != k
  {
    if s[0] == k then 0 else 1 + IndexOf(s[1..], k)
  }

  /** `m.set(k, v)` */
  function Set<K(==), V>(m: OrderedMap<K, V>, k: K, v: V): (r: OrderedMap<K, V>)
    requires Valid(m)
    ensures Valid(r)
    ensures r.entries == m.entries[k := v]
    ensures k in m.entries ==> r.keys == m.keys
    ensures k !in m.entries ==> r.keys == m.keys + [k]
  {
    if k in m.entries then OrderedMap(m.keys, m.entries[k := v])
    else OrderedMap(m.keys + [k], m.entries[k := v])
  }

  /** `m.delete(k)`; the boolean `delete` returns is `k in m.entries`. */
  function Delete<K(==), V>(m: OrderedMap<K, V>, k: K): (r: OrderedMap<K, V>)
    requires Valid(m)
    ensures Valid(r)
    ensures r.entries == m.entries - {k}
    ensures k !in m.entries ==> r == m
    ensures k in m.entries ==> r.keys == m.keys[..IndexOf(m.keys, k)] + m.keys[IndexOf(m.keys, k) + 1..]
  {
    if k !in m.entries then m
    else
      var i := IndexOf(m.keys, k);
      var keys := m.keys[..i] + m.keys[i + 1..];
      RemoveIndex(m.keys, i);
      OrderedMap(keys, m.entries - {k})
  }

  /** `Array.from(m.values())`: the values, in insertion order of their keys. */
  function Values<K(==), V>(m: OrderedMap<K, V>): (r: seq<V>)
    requires Valid(m)
    ensures |r| == |m.keys| == |m.entries|
  {
    KeysAreTheMap(m);
    seq(|m.keys|, i requires 0 <= i < |m.keys| => m.entries[m.keys[i]])
  }

  /** The key list has exactly as many elements as the map. */
  lemma KeysAreTheMap<K, V>(m: OrderedMap<K, V>)
    requires Valid(m)
    ensures |m.keys| == |m.entries|
  {
    DistinctCard(m.keys);
    assert (set k | k in m.keys) == m.entries.Keys;
  }

  lemma {:induction false} DistinctCard<K>(s: seq<K>)
    requires Distinct(s)
    ensures |set k | k in s| == |s|
  {
    if s != [] {
      DistinctCard(s[1..]);
      assert (set k | k in s) == (set k | k in s[1..]) + {s[0]};
      assert s[0] !in s[1..] by {
        forall j | 0 <= j < |s[1..]| ensures s[1..][j] != s[0] {
          assert s[1..][j] == s[j + 1];
        }
      }
    }
  }

  /** A value is listed exactly when some key maps to it. */
  lemma ValuesMembership<K, V>(m: OrderedMap<K, V>, v: V)
    requires Valid(m)
    ensures v in Values(m) <==> v in m.entries.Values
  {
    var vs := Values(m);
    if v in m.entries.Values {
      var k :| k in m.entries && m.entries[k] == v;
      var i := IndexOf(m.keys, k);
      assert vs[i] == v;
    }
  }

  lemma ValuesMembershipAll<K, V>(m: OrderedMap<K, V>)
    requires Valid(m)
    ensures forall v :: v in Values(m) <==> v in m.entries.Values
  {
    forall v ensures v in Values(m) <==> v in m.entries.Values {
      ValuesMembership(m, v);
    }
  }

  /** Inserting a new key appends its value to the listing. */
  lemma ValuesSetNew<K, V>(m: OrderedMap<K, V>, k: K, v: V)
    requires Valid(m) && k !in m.entries
    ensures Values(Set(m, k, v)) == Values(m) + [v]
  {
  }

  /** Setting a present key replaces its value at the same position. */
  lemma ValuesSetExisting<K, V>(m: OrderedMap<K, V>, k: K, v: V)
    requires Valid(m) && k in m.entries
    ensures Values(Set(m, k, v)) == Values(m)[IndexOf(m.keys, k) := v]
  {
  }

  /** Deleting a present key removes its value and keeps the others in order. */
  lemma ValuesDelete<K, V>(m: OrderedMap<K, V>, k: K)
    requires Valid(m) && k in m.entries
    ensures var i := IndexOf(m.keys, k);
            Values(Delete(m, k)) == Values(m)[..i] + Values(m)[i + 1..]
  {
    var i := IndexOf(m.keys, k);
    var rs := Values(Delete(m, k));
    var vs := Values(m);
    var want := vs[..i] + vs[i + 1..];
    assert |rs| == |m.keys| - 1 == |want|;
    forall a | 0 <= a < |want| ensures rs[a] == want[a] {
      ValuesDeleteAt(m, k, a);
    }
    assert rs == want;
  }

  /** One position of `ValuesDelete`. */
  lemma ValuesDeleteAt<K, V>(m: OrderedMap<K, V>, k: K, a: nat)
    requires Valid(m) && k in m.entries
    requires a < |m.keys| - 1
    ensures var i := IndexOf(m.keys, k);
            Values(Delete(m, k))[a] == Values(m)[if a < i then a else a + 1]
  {
    var i := IndexOf(m.keys, k);
    var d := Delete(m, k);
    RemoveIndex(m.keys, i);
    var b := if a < i then a else a + 1;
    assert d.keys[a] == m.keys[b];
    assert m.keys[b] != k;
    ValuesAt(d, a);
    ValuesAt(m, b);
  }

  /** The value listed at a position is the one stored under that position's key. */
  lemma ValuesAt<K, V>(m: OrderedMap<K, V>, j: nat)
    requires Valid(m) && j < |m.keys|
    ensures m.keys[j] in m.entries && Values(m)[j] == m.entries[m.keys[j]]
  {
  }
}
