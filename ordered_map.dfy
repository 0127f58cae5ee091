/** Insertion-ordered maps from strings, with the behaviour of the JavaScript `Map`:
    setting a present key replaces its value where it stands, setting a new
    key appends it, deleting a key drops it, and iteration follows the order
    in which the keys were first set. */
module OrderedMaps {

  /** Every element of `s` occurs once. */
  ghost predicate Distinct(s: seq<string>) {
    forall i, j :: 0 <= i < j < |s| ==> s[i] != s[j]
  }

  /** `keys` is the iteration order, `entries` the lookup table. */
  datatype OrderedMap<V> = OrderedMap(keys: seq<string>, entries: map<string, V>) {

    /** The key order lists every key of the table once, and nothing else. */
    ghost predicate Valid() {
      Distinct(keys) && (forall k :: k in entries <==> k in keys)
    }

    /** Number of entries, `Map.prototype.size`. */
    function Size(): (n: nat)
      requires Valid()
      ensures n == |entries|
      ensures n == 0 <==> entries == map[]
    {
      DistinctCardinality(keys, entries.Keys);
      |keys|
    }

    /** The values in iteration order, `[...m.values()]`. */
    function Values(): (vs: seq<V>)
      requires Valid()
      ensures |vs| == |keys|
      ensures forall i :: 0 <= i < |keys| ==> vs[i] == entries[keys[i]]
    {
      seq(|keys|, i requires 0 <= i < |keys| => entries[keys[i]])
    }
  }

  /** A map with no entries, `new Map()`. */
  function Empty<V>(): (m: OrderedMap<V>)
    ensures m.Valid() && m.entries == map[] && m.keys == []
  {
    OrderedMap([], map[])
  }

  /** `m.set(k, v)`: the value of `k` becomes `v`, every other key keeps its
      value, and `k` keeps its place if present or goes last if not. */
  function Set<V>(m: OrderedMap<V>, k: string, v: V): (r: OrderedMap<V>)
    ensures m.Valid() ==> r.Valid()
    ensures k in r.entries && r.entries[k] == v
    ensures forall k' :: k' != k ==> (k' in r.entries <==> k' in m.entries)
    ensures forall k' :: k' != k && k' in m.entries ==> r.entries[k'] == m.entries[k']
    ensures k in m.entries ==> r.keys == m.keys
    ensures k !in m.entries ==> r.keys == m.keys + [k]
  {
    OrderedMap(if k in m.entries then m.keys else m.keys + [k], m.entries[k := v])
  }

  /** `s` with every occurrence of `k` taken out, the rest in order. */
  function Without(s: seq<string>, k: string): (r: seq<string>)
    ensures forall x :: x in r <==> x in s && x != k
    ensures |r| <= |s|
  {
    if s == [] then []
    else if s[0] == k then Without(s[1..], k)
    else [s[0]] + Without(s[1..], k)
  }

  /** `m.delete(k)`: `k` is gone, every other key keeps its value and its place. */
  function Delete<V>(m: OrderedMap<V>, k: string): (r: OrderedMap<V>)
    ensures m.Valid() ==> r.Valid()
    ensures k !in r.entries
    ensures forall k' :: k' != k ==> (k' in r.entries <==> k' in m.entries)
    ensures forall k' :: k' != k && k' in m.entries ==> r.entries[k'] == m.entries[k']
    ensures r.keys == Without(m.keys, k)
  {
    WithoutKeepsDistinct(m.keys, k);
    OrderedMap(Without(m.keys, k), m.entries - {k})
  }

  /** Taking a key out of a sequence without repetitions leaves none. */
  lemma {:induction false} WithoutKeepsDistinct(s: seq<string>, k: string)
    ensures Distinct(s) ==> Distinct(Without(s, k))
  {
    if s != [] && Distinct(s) {
      var t := s[1..];
      assert Distinct(t) by {
        forall i, j | 0 <= i < j < |t| ensures t[i] != t[j] {
          assert t[i] == s[i + 1] && t[j] == s[j + 1];
        }
      }
      WithoutKeepsDistinct(t, k);
      if s[0] != k {
        var w := Without(t, k);
        assert s[0] !in t by {
          forall i | 0 <= i < |t| ensures t[i] != s[0] {
            assert t[i] == s[i + 1];
          }
        }
        var r := [s[0]] + w;
        forall i, j | 0 <= i < j < |r| ensures r[i] != r[j] {
          if i == 0 {
            assert r[j] == w[j - 1];
          } else {
            assert r[i] == w[i - 1] && r[j] == w[j - 1];
          }
        }
      }
    }
  }

  /** A sequence without repetitions has as many elements as the set it lists. */
  lemma {:induction false} DistinctCardinality(s: seq<string>, ks: set<string>)
    requires Distinct(s)
    requires forall k :: k in ks <==> k in s
    ensures |s| == |ks|
  {
    if s != [] {
      var t := s[1..];
      assert Distinct(t) by {
        forall i, j | 0 <= i < j < |t| ensures t[i] != t[j] {
          assert t[i] == s[i + 1] && t[j] == s[j + 1];
        }
      }
      assert s[0] !in t by {
        forall i | 0 <= i < |t| ensures t[i] != s[0] {
          assert t[i] == s[i + 1];
        }
      }
      assert forall k :: k in ks - {s[0]} <==> k in t by {
        assert forall k :: k in s <==> k == s[0] || k in t by {
          assert s == [s[0]] + t;
        }
      }
      DistinctCardinality(t, ks - {s[0]});
    }
  }
}
