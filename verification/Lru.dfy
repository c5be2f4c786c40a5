// A small model of the k8s.io/utils/lru cache used by the event correlator: a bounded association
// list, most recently used entry first.  As in the library, capacity 0 means "no limit".
module Lru {
  import opened Wrappers

  datatype Entry<K, V> = Entry(key: K, value: V)

  ghost predicate DistinctKeys<K, V>(s: seq<Entry<K, V>>) {
    forall i, j :: 0 <= i < j < |s| ==> s[i].key != s[j].key
  }

  function Lookup<K(==), V>(s: seq<Entry<K, V>>, k: K): Option<V> {
    if s == [] then None
    else if s[0].key == k then Some(s[0].value)
    else Lookup(s[1..], k)
  }

  function Without<K(==), V>(s: seq<Entry<K, V>>, k: K): seq<Entry<K, V>> {
    if s == [] then []
    else if s[0].key == k then Without(s[1..], k)
    else [s[0]] + Without(s[1..], k)
  }

  // Get moves a found entry to the front.
  function Promoted<K(==), V>(s: seq<Entry<K, V>>, k: K): seq<Entry<K, V>> {
    match Lookup(s, k)
    case None => s
    case Some(v) => [Entry(k, v)] + Without(s, k)
  }

  function Capped<T>(t: seq<T>, capacity: nat): seq<T> {
    if capacity != 0 && |t| > capacity then t[..|t| - 1] else t
  }

  // Add puts the entry at the front and drops the last one when the limit is exceeded.
  function Added<K(==), V>(s: seq<Entry<K, V>>, k: K, v: V, capacity: nat): seq<Entry<K, V>> {
    Capped([Entry(k, v)] + Without(s, k), capacity)
  }

  // The plain map a cache stands for.
  ghost function Contents<K, V>(s: seq<Entry<K, V>>): map<K, V> {
    if s == [] then map[] else Contents(s[1..])[s[0].key := s[0].value]
  }

  ghost function MapLookup<K, V>(m: map<K, V>, k: K): Option<V> {
    if k in m then Some(m[k]) else None
  }

  // ---- Facts about the specification ----

  lemma {:induction false} WithoutMembers<K, V>(s: seq<Entry<K, V>>, k: K)
    ensures |Without(s, k)| <= |s|
    ensures forall x :: x in Without(s, k) ==> x in s && x.key != k
    ensures DistinctKeys(s) ==> DistinctKeys(Without(s, k))
  {
    if s != [] {
      WithoutMembers(s[1..], k);
      var rest := Without(s[1..], k);
      if DistinctKeys(s) {
        assert DistinctKeys(s[1..]);
        forall j | 0 <= j < |rest| ensures rest[j].key != s[0].key {
          assert rest[j] in s[1..];
        }
      }
    }
  }

  lemma {:induction false} LookupIsContents<K, V>(s: seq<Entry<K, V>>, k: K)
    ensures Lookup(s, k) == MapLookup(Contents(s), k)
  {
    if s != [] { LookupIsContents(s[1..], k); }
  }

  lemma {:induction false} LookupMember<K, V>(s: seq<Entry<K, V>>, k: K)
    requires Lookup(s, k).Some?
    ensures Entry(k, Lookup(s, k).value) in s
  {
    if s[0].key != k { LookupMember(s[1..], k); }
  }

  lemma {:induction false} WithoutContents<K, V>(s: seq<Entry<K, V>>, k: K)
    ensures Contents(Without(s, k)) == Contents(s) - {k}
  {
    if s != [] {
      WithoutContents(s[1..], k);
      if s[0].key != k {
        var rest := Without(s[1..], k);
        assert ([s[0]] + rest)[1..] == rest;
      }
    }
  }

  lemma {:induction false} WithoutAbsent<K, V>(s: seq<Entry<K, V>>, k: K)
    requires forall x :: x in s ==> x.key != k
    ensures Without(s, k) == s
  {
    if s != [] { WithoutAbsent(s[1..], k); }
  }

  // Touching an entry before adding it makes no difference to the result of the Add.
  lemma {:induction false} WithoutPromoted<K, V>(s: seq<Entry<K, V>>, k: K)
    ensures Without(Promoted(s, k), k) == Without(s, k)
    ensures Lookup(Promoted(s, k), k) == Lookup(s, k)
  {
    match Lookup(s, k)
    case None =>
    case Some(v) =>
      var rest := Without(s, k);
      assert ([Entry(k, v)] + rest)[1..] == rest;
      WithoutMembers(s, k);
      WithoutAbsent(rest, k);
  }

  lemma {:induction false} ContentsSize<K, V>(s: seq<Entry<K, V>>)
    requires DistinctKeys(s)
    ensures |Contents(s)| == |s|
    ensures forall k :: k in Contents(s) <==> exists x :: x in s && x.key == k
  {
    if s != [] {
      ContentsSize(s[1..]);
      assert DistinctKeys(s[1..]);
      assert s[0].key !in Contents(s[1..]);
      assert s == [s[0]] + s[1..];
      assert Contents(s).Keys == Contents(s[1..]).Keys + {s[0].key};
      assert |Contents(s)| == |Contents(s).Keys|;
      assert |Contents(s[1..])| == |Contents(s[1..]).Keys|;
    }
  }

  // As long as the keys fit, a bounded cache behaves like a map.
  lemma {:induction false} AddedContents<K, V>(s: seq<Entry<K, V>>, k: K, v: V, capacity: nat)
    requires DistinctKeys(s)
    requires capacity == 0 || |Contents(s)[k := v]| <= capacity
    ensures DistinctKeys(Added(s, k, v, capacity))
    ensures Contents(Added(s, k, v, capacity)) == Contents(s)[k := v]
  {
    var t := [Entry(k, v)] + Without(s, k);
    assert t[1..] == Without(s, k);
    WithoutContents(s, k);
    WithoutMembers(s, k);
    assert Contents(t) == Contents(s)[k := v];
    ContentsSize(t);
  }

  lemma SubsetSize<T>(a: set<T>, b: set<T>)
    requires a <= b
    ensures |a| <= |b|
  {
    assert b == a + (b - a);
  }

  // The same, for keys drawn from a set that fits.
  lemma {:induction false} AddedFits<K, V>(s: seq<Entry<K, V>>, k: K, v: V, capacity: nat, universe: set<K>)
    requires DistinctKeys(s) && Contents(s).Keys <= universe && k in universe
    requires capacity == 0 || |universe| <= capacity
    ensures DistinctKeys(Added(s, k, v, capacity))
    ensures Contents(Added(s, k, v, capacity)) == Contents(s)[k := v]
    ensures Contents(Added(s, k, v, capacity)).Keys == Contents(s).Keys + {k}
    ensures Lookup(Added(s, k, v, capacity), k) == Some(v)
    ensures forall j :: j != k ==> Lookup(Added(s, k, v, capacity), j) == Lookup(s, j)
  {
    var m := Contents(s)[k := v];
    assert m.Keys == Contents(s).Keys + {k};
    assert |m| == |m.Keys|;
    SubsetSize(m.Keys, universe);
    AddedContents(s, k, v, capacity);
    forall j
      ensures Lookup(Added(s, k, v, capacity), j) == MapLookup(m, j) && Lookup(s, j) == MapLookup(Contents(s), j)
    {
      LookupIsContents(Added(s, k, v, capacity), j);
      LookupIsContents(s, j);
    }
  }

  // With or without evictions, an Add never changes what other keys hold: it may only drop them.
  lemma {:induction false} LookupAdded<K, V>(s: seq<Entry<K, V>>, k: K, v: V, capacity: nat, j: K)
    ensures j == k ==> Lookup(Added(s, k, v, capacity), j) == Some(v)
    ensures j != k && Lookup(Added(s, k, v, capacity), j).Some? ==>
      Lookup(Added(s, k, v, capacity), j) == Lookup(s, j)
  {
    var t := [Entry(k, v)] + Without(s, k);
    assert t[1..] == Without(s, k);
    LookupIsContents(s, j);
    LookupIsContents(t, j);
    WithoutContents(s, k);
    if capacity != 0 && |t| > capacity { LookupPrefix(t, |t| - 1, j); }
  }

  lemma {:induction false} LookupPrefix<K, V>(t: seq<Entry<K, V>>, n: nat, j: K)
    requires n <= |t|
    ensures Lookup(t[..n], j).Some? ==> Lookup(t[..n], j) == Lookup(t, j)
  {
    if n > 0 {
      assert t[..n][1..] == t[1..][..n - 1];
      LookupPrefix(t[1..], n - 1, j);
    }
  }

  // ---- What both operations keep ----

  ghost predicate Bounded<K, V>(s: seq<Entry<K, V>>, capacity: nat) {
    DistinctKeys(s) && (capacity != 0 ==> |s| <= capacity)
  }

  lemma AddedBounded<K, V>(s: seq<Entry<K, V>>, k: K, v: V, capacity: nat)
    requires Bounded(s, capacity)
    ensures Bounded(Added(s, k, v, capacity), capacity)
  {
    WithoutMembers(s, k);
    var rest := Without(s, k);
    forall i | 0 <= i < |rest| ensures rest[i].key != k { assert rest[i] in rest; }
  }

  lemma AddedIsFound<K, V>(s: seq<Entry<K, V>>, k: K, v: V, capacity: nat)
    ensures Lookup(Added(s, k, v, capacity), k) == Some(v)
  {
    assert Added(s, k, v, capacity)[0] == Entry(k, v);
  }

  // The correlator always adds under the key it has just looked up.
  lemma TouchedThenAdded<K, V>(s: seq<Entry<K, V>>, k: K, v: V, capacity: nat)
    requires Bounded(s, capacity)
    ensures Added(Promoted(s, k), k, v, capacity) == Added(s, k, v, capacity)
    ensures Bounded(Added(s, k, v, capacity), capacity)
    ensures Lookup(Added(s, k, v, capacity), k) == Some(v)
  {
    WithoutPromoted(s, k);
    AddedBounded(s, k, v, capacity);
    AddedIsFound(s, k, v, capacity);
  }
}
