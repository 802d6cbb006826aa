/**
 * JavaScript's `Set` and `Map` as the browser utilities use them: keyed
 * collections that remember the order in which their keys were first
 * added, which is the order `forEach`, `keys()` and `Array.from` report.
 */
module JsCollections {
  import opened Wrappers

  /** No element occurs twice. */
  predicate Distinct<T(==)>(s: seq<T>)
  {
    forall i, j :: 0 <= i < j < |s| ==> s[i] != s[j]
  }

  /** `s` with every occurrence of `x` removed, the rest in order. */
  function Without<T(==)>(s: seq<T>, x: T): (r: seq<T>)
    ensures x !in r && |r| <= |s|
    ensures forall i :: 0 <= i < |r| ==> r[i] in s
    ensures forall i :: 0 <= i < |s| && s[i] != x ==> s[i] in r
  {
    if |s| == 0 then []
    else if s[0] == x then Without(s[1..], x)
    else [s[0]] + Without(s[1..], x)
  }

  /** Removing an absent element changes nothing. */
  lemma {:induction false} WithoutAbsent<T>(s: seq<T>, x: T)
    requires x !in s
    ensures Without(s, x) == s
  {
    if |s| > 0 {
      WithoutAbsent(s[1..], x);
      assert s == [s[0]] + s[1..];
    }
  }

  /** Removing from a concatenation removes from each part. */
  lemma {:induction false} WithoutConcat<T>(a: seq<T>, b: seq<T>, x: T)
    ensures Without(a + b, x) == Without(a, x) + Without(b, x)
  {
    if |a| == 0 {
      assert a + b == b;
    } else {
      assert (a + b)[1..] == a[1..] + b;
      WithoutConcat(a[1..], b, x);
    }
  }

  /** In a sequence without repeats, removing an element takes out just its one occurrence. */
  lemma WithoutOne<T>(a: seq<T>, x: T, b: seq<T>)
    requires x !in a && x !in b
    ensures Without(a + [x] + b, x) == a + b
  {
    WithoutConcat(a + [x], b, x);
    WithoutAppended(a, x);
    WithoutAbsent(b, x);
  }

  /** Removing keeps the elements distinct and, for a present element, removes exactly one. */
  lemma {:induction false} WithoutDistinct<T>(s: seq<T>, x: T)
    requires Distinct(s)
    ensures Distinct(Without(s, x))
    ensures x in s ==> |Without(s, x)| == |s| - 1
    ensures x !in s ==> |Without(s, x)| == |s|
  {
    if |s| > 0 {
      assert Distinct(s[1..]);
      WithoutDistinct(s[1..], x);
      if s[0] == x {
        WithoutAbsent(s[1..], x);
      } else {
        assert s[0] !in Without(s[1..], x);
      }
    }
  }

  /** Removing what was just appended gives the sequence back. */
  lemma WithoutAppended<T>(s: seq<T>, x: T)
    requires x !in s
    ensures Without(s + [x], x) == s
  {
    WithoutAppendedAux(s, x);
  }

  lemma {:induction false} WithoutAppendedAux<T>(s: seq<T>, x: T)
    requires x !in s
    ensures Without(s + [x], x) == s
  {
    if |s| == 0 {
      assert s + [x] == [x];
    } else {
      assert (s + [x])[1..] == s[1..] + [x];
      WithoutAppendedAux(s[1..], x);
      assert s == [s[0]] + s[1..];
    }
  }

  // -----------------------------------------------------------------------
  // Set

  /** `Set.prototype.add`: a new element goes last, a present one stays where it is. */
  function SetAdd<T(==)>(s: seq<T>, x: T): (r: seq<T>)
    ensures Distinct(s) ==> Distinct(r)
    ensures x in r && forall i :: 0 <= i < |s| ==> s[i] in r
    ensures forall i :: 0 <= i < |r| ==> r[i] in s || r[i] == x
    ensures x in s ==> r == s
    ensures x !in s ==> r == s + [x]
  {
    if x in s then s else s + [x]
  }

  /** Adding twice is adding once. */
  lemma SetAddIdempotent<T>(s: seq<T>, x: T)
    ensures SetAdd(SetAdd(s, x), x) == SetAdd(s, x)
  {
  }

  /** Deleting what was just added to a set that lacked it gives the set back. */
  lemma SetAddDelete<T>(s: seq<T>, x: T)
    requires x !in s
    ensures Without(SetAdd(s, x), x) == s
  {
    WithoutAppended(s, x);
  }

  // -----------------------------------------------------------------------
  // Map

  /** A `Map` with string keys: its keys in insertion order and the value stored under each. */
  datatype JsMap<V> = JsMap(order: seq<string>, entries: map<string, V>)
  {
    /** The keys are distinct and are exactly the keys with a value. */
    predicate Valid()
    {
      Distinct(order) && (forall k :: k in order ==> k in entries) && (forall k :: k in entries ==> k in order)
    }

    /** `map.get(k)`; `undefined` is `None`. */
    function Get(k: string): Option<V>
    {
      if k in entries then Some(entries[k]) else None
    }

    /** `map.has(k)`. */
    predicate Has(k: string)
    {
      k in entries
    }

    /** `map.size`. */
    function Size(): nat
    {
      |order|
    }
  }

  /** `new Map()`. */
  function EmptyMap<V>(): (m: JsMap<V>)
    ensures m.Valid() && m.Size() == 0
    ensures forall k :: !m.Has(k)
  {
    JsMap([], map[])
  }

  /** `map.set(k, v)`: a new key goes last, an existing key keeps its place and gets the new value. */
  function Put<V>(m: JsMap<V>, k: string, v: V): (r: JsMap<V>)
    requires m.Valid()
    ensures r.Valid()
    ensures r.Get(k) == Some(v)
    ensures forall j :: j != k ==> r.Get(j) == m.Get(j)
    ensures m.Has(k) ==> r.order == m.order
    ensures !m.Has(k) ==> r.order == m.order + [k]
  {
    JsMap(SetAdd(m.order, k), m.entries[k := v])
  }

  /** `map.delete(k)`: the key and its value go; the other keys keep their order. */
  function Delete<V>(m: JsMap<V>, k: string): (r: JsMap<V>)
    requires m.Valid()
    ensures r.Valid()
    ensures !r.Has(k)
    ensures forall j :: j != k ==> r.Get(j) == m.Get(j)
    ensures r.Size() == if m.Has(k) then m.Size() - 1 else m.Size()
  {
    WithoutDistinct(m.order, k);
    JsMap(Without(m.order, k), m.entries - {k})
  }

  /** Deleting a key that was just set, when it was new, gives the map back. */
  lemma PutThenDelete<V>(m: JsMap<V>, k: string, v: V)
    requires m.Valid() && !m.Has(k)
    ensures Delete(Put(m, k, v), k) == m
  {
    WithoutAppended(m.order, k);
    assert m.entries[k := v] - {k} == m.entries;
  }

  /** Setting a key twice keeps only the second value. */
  lemma PutTwice<V>(m: JsMap<V>, k: string, v: V, w: V)
    requires m.Valid()
    ensures Put(Put(m, k, v), k, w) == Put(m, k, w)
  {
  }
}
