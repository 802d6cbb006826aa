/**
 * Optional values, results with an error, and the "first element that
 * satisfies a test" search that every lookup of the scripts is built on
 * (a `for x in rows: if test(x): return x` loop).
 */
module Wrappers {

  datatype Option<T> = None | Some(value: T)
  {
    /** Python's `value or default` for a value that may be missing. */
    function GetOr(default: T): T
    {
      match this
      case None => default
      case Some(v) => v
    }
  }

  datatype Result<T, E> = Success(value: T) | Failure(error: E)
  {
    predicate IsFailure()
    {
      Failure?
    }
  }

  /** Index of the first element of `s` that passes `p`, if any. */
  function Find<T>(s: seq<T>, p: T -> bool): (r: Option<nat>)
    ensures r.Some? ==> r.value < |s| && p(s[r.value])
    ensures r.Some? ==> forall j :: 0 <= j < r.value ==> !p(s[j])
    ensures r.None? <==> forall j :: 0 <= j < |s| ==> !p(s[j])
  {
    if |s| == 0 then None
    else if p(s[0]) then Some(0)
    else
      match Find(s[1..], p)
      case None => None
      case Some(k) => Some(k + 1)
  }

  /** The first element of `s` that passes `p`, if any. */
  function First<T>(s: seq<T>, p: T -> bool): (r: Option<T>)
    ensures r.Some? ==> r.value in s && p(r.value)
    ensures r.Some? ==> exists k :: 0 <= k < |s| && s[k] == r.value && forall j :: 0 <= j < k ==> !p(s[j])
    ensures r.None? <==> forall j :: 0 <= j < |s| ==> !p(s[j])
  {
    match Find(s, p)
    case None => None
    case Some(k) => Some(s[k])
  }

  /** Two tests that agree on every element find the same first element. */
  lemma {:induction false} FirstAgrees<T>(s: seq<T>, p: T -> bool, q: T -> bool)
    requires forall x :: x in s ==> p(x) == q(x)
    ensures First(s, p) == First(s, q)
  {
    if |s| > 0 {
      assert forall x :: x in s[1..] ==> x in s;
      FirstAgrees(s[1..], p, q);
    }
  }

  /** The elements of `s` that pass `p`, in their original order. */
  function Filter<T>(s: seq<T>, p: T -> bool): (r: seq<T>)
    ensures |r| <= |s|
    ensures forall i :: 0 <= i < |r| ==> r[i] in s && p(r[i])
    ensures forall i :: 0 <= i < |s| && p(s[i]) ==> s[i] in r
  {
    if |s| == 0 then []
    else if p(s[0]) then [s[0]] + Filter(s[1..], p)
    else Filter(s[1..], p)
  }

  /** Filtering keeps the order of the kept elements: filtering a concatenation filters each part. */
  lemma {:induction false} FilterConcat<T>(a: seq<T>, b: seq<T>, p: T -> bool)
    ensures Filter(a + b, p) == Filter(a, p) + Filter(b, p)
  {
    if |a| == 0 {
      assert a + b == b;
    } else {
      assert (a + b)[1..] == a[1..] + b;
      FilterConcat(a[1..], b, p);
    }
  }

  /** Filtering twice by the same test is filtering once. */
  lemma {:induction false} FilterIdempotent<T>(s: seq<T>, p: T -> bool)
    ensures Filter(Filter(s, p), p) == Filter(s, p)
  {
    if |s| > 0 {
      FilterIdempotent(s[1..], p);
      if p(s[0]) {
        assert ([s[0]] + Filter(s[1..], p))[1..] == Filter(s[1..], p);
      }
    }
  }

  /** A search that succeeds on a prefix is not affected by what is appended after it. */
  lemma {:induction false} FindConcat<T>(s: seq<T>, more: seq<T>, p: T -> bool)
    requires Find(s, p).Some?
    ensures Find(s + more, p) == Find(s, p)
  {
    if !p(s[0]) {
      assert (s + more)[1..] == s[1..] + more;
      FindConcat(s[1..], more, p);
    }
  }

  lemma FirstConcat<T>(s: seq<T>, more: seq<T>, p: T -> bool)
    requires First(s, p).Some?
    ensures First(s + more, p) == First(s, p)
  {
    FindConcat(s, more, p);
  }

  /**
   * Filtering first does not change which element a search finds, when
   * every element the search accepts also passes the filter.
   */
  lemma {:induction false} FilterKeepsFirst<T>(s: seq<T>, p: T -> bool, q: T -> bool)
    requires forall x :: q(x) ==> p(x)
    ensures First(Filter(s, p), q) == First(s, q)
  {
    if |s| > 0 {
      FilterKeepsFirst(s[1..], p, q);
      FirstCons(s, q);
      var f := Filter(s, p);
      if p(s[0]) {
        assert f == [s[0]] + Filter(s[1..], p);
        assert f[1..] == Filter(s[1..], p);
        FirstCons(f, q);
      }
    }
  }

  /** The first element passing `p` is the head when it passes, and otherwise the first of the tail. */
  lemma FirstCons<T>(s: seq<T>, p: T -> bool)
    requires |s| > 0
    ensures First(s, p) == if p(s[0]) then Some(s[0]) else First(s[1..], p)
  {
    if !p(s[0]) {
      match Find(s[1..], p)
      case None =>
      case Some(k) => assert s[k + 1] == s[1..][k];
    }
  }
}
