/**
 * "Collect the candidates with their priority, sort by priority in
 * descending order, take the first": Python's `list.sort` is stable, so the
 * result is the earliest item of highest priority.
 */
module Ranking {
  import opened Wrappers

  datatype Candidate<T> = Candidate(item: T, priority: int, position: nat)

  /** The items of `xs[from..]` that have a score, in list order, each with its score and position. */
  function Scored<T>(xs: seq<T>, score: T -> Option<int>, from: nat): seq<Candidate<T>>
    requires from <= |xs|
    decreases |xs| - from
  {
    if from == |xs| then []
    else
      match score(xs[from])
      case None => Scored(xs, score, from + 1)
      case Some(p) => [Candidate(xs[from], p, from)] + Scored(xs, score, from + 1)
  }

  /** Every candidate is a scored item of `xs[from..]`, with its score and position. */
  ghost predicate SoundCandidates<T>(xs: seq<T>, score: T -> Option<int>, from: nat, r: seq<Candidate<T>>)
  {
    forall m :: 0 <= m < |r| ==>
      from <= r[m].position < |xs| && xs[r[m].position] == r[m].item && score(r[m].item) == Some(r[m].priority)
  }

  /** Candidates appear in list order. */
  ghost predicate OrderedCandidates<T>(r: seq<Candidate<T>>)
  {
    forall m, n :: 0 <= m < n < |r| ==> r[m].position < r[n].position
  }

  /** Every scored item of `xs[from..]` is a candidate. */
  ghost predicate CompleteCandidates<T>(xs: seq<T>, score: T -> Option<int>, from: nat, r: seq<Candidate<T>>)
  {
    forall j :: from <= j < |xs| && score(xs[j]).Some? ==> exists m :: 0 <= m < |r| && r[m].position == j
  }

  /** What `Scored` keeps: exactly the scored items, with their score and position, in list order. */
  ghost predicate ScoredFrom<T>(xs: seq<T>, score: T -> Option<int>, from: nat, r: seq<Candidate<T>>)
  {
    SoundCandidates(xs, score, from, r) && OrderedCandidates(r) && CompleteCandidates(xs, score, from, r)
  }

  lemma {:induction false} ScoredSound<T>(xs: seq<T>, score: T -> Option<int>, from: nat)
    requires from <= |xs|
    ensures SoundCandidates(xs, score, from, Scored(xs, score, from))
    decreases |xs| - from
  {
    if from < |xs| {
      ScoredSound(xs, score, from + 1);
      var rest := Scored(xs, score, from + 1);
      match score(xs[from])
      case None =>
        assert Scored(xs, score, from) == rest;
      case Some(p) =>
        var r := [Candidate(xs[from], p, from)] + rest;
        assert Scored(xs, score, from) == r;
        forall m | 0 <= m < |r|
          ensures from <= r[m].position < |xs| && xs[r[m].position] == r[m].item && score(r[m].item) == Some(r[m].priority)
        {
          if m > 0 {
            assert r[m] == rest[m - 1];
          }
        }
    }
  }

  lemma {:induction false} ScoredOrdered<T>(xs: seq<T>, score: T -> Option<int>, from: nat)
    requires from <= |xs|
    ensures OrderedCandidates(Scored(xs, score, from))
    decreases |xs| - from
  {
    if from < |xs| {
      ScoredOrdered(xs, score, from + 1);
      ScoredSound(xs, score, from + 1);
      var rest := Scored(xs, score, from + 1);
      match score(xs[from])
      case None =>
        assert Scored(xs, score, from) == rest;
      case Some(p) =>
        var r := [Candidate(xs[from], p, from)] + rest;
        assert Scored(xs, score, from) == r;
        forall m, n | 0 <= m < n < |r|
          ensures r[m].position < r[n].position
        {
          assert r[n] == rest[n - 1];
          if m > 0 {
            assert r[m] == rest[m - 1];
          }
        }
    }
  }

  lemma {:induction false} ScoredComplete<T>(xs: seq<T>, score: T -> Option<int>, from: nat)
    requires from <= |xs|
    ensures CompleteCandidates(xs, score, from, Scored(xs, score, from))
    decreases |xs| - from
  {
    if from < |xs| {
      ScoredComplete(xs, score, from + 1);
      var rest := Scored(xs, score, from + 1);
      var r := Scored(xs, score, from);
      forall j | from <= j < |xs| && score(xs[j]).Some?
        ensures exists m :: 0 <= m < |r| && r[m].position == j
      {
        if score(xs[from]).Some? {
          assert r == [Candidate(xs[from], score(xs[from]).value, from)] + rest;
          if j == from {
            assert r[0].position == j;
          } else {
            var m :| 0 <= m < |rest| && rest[m].position == j;
            assert r[m + 1] == rest[m];
          }
        } else {
          assert r == rest;
        }
      }
    }
  }

  lemma ScoredKeepsScored<T>(xs: seq<T>, score: T -> Option<int>, from: nat)
    requires from <= |xs|
    ensures ScoredFrom(xs, score, from, Scored(xs, score, from))
  {
    ScoredSound(xs, score, from);
    ScoredOrdered(xs, score, from);
    ScoredComplete(xs, score, from);
  }

  /** Index of the first candidate of highest priority. */
  function FirstBest<T>(cs: seq<Candidate<T>>): (k: nat)
    requires |cs| > 0
    ensures k < |cs|
    ensures forall j :: 0 <= j < |cs| ==> cs[j].priority <= cs[k].priority
    ensures forall j :: 0 <= j < k ==> cs[j].priority < cs[k].priority
  {
    if |cs| == 1 then 0
    else
      var k := FirstBest(cs[1..]);
      if cs[0].priority >= cs[k + 1].priority then 0 else k + 1
  }

  /**
   * The earliest item of highest score, or None when no item has a score.
   * `k` in the second postcondition is the position of the result.
   */
  function BestOf<T>(xs: seq<T>, score: T -> Option<int>): (r: Option<T>)
    ensures r.None? <==> forall j :: 0 <= j < |xs| ==> score(xs[j]).None?
    ensures r.Some? ==> exists k :: 0 <= k < |xs| && xs[k] == r.value && IsFirstBest(xs, score, k)
  {
    var cs := Scored(xs, score, 0);
    ScoredKeepsScored(xs, score, 0);
    if |cs| == 0 then
      NoCandidates(xs, score, cs);
      None
    else
      var b := FirstBest(cs);
      BestCandidate(xs, score, cs, b);
      Some(cs[b].item)
  }

  lemma NoCandidates<T>(xs: seq<T>, score: T -> Option<int>, cs: seq<Candidate<T>>)
    requires ScoredFrom(xs, score, 0, cs) && |cs| == 0
    ensures forall j :: 0 <= j < |xs| ==> score(xs[j]).None?
  {
  }

  lemma BestCandidate<T>(xs: seq<T>, score: T -> Option<int>, cs: seq<Candidate<T>>, b: nat)
    requires ScoredFrom(xs, score, 0, cs) && |cs| > 0 && b == FirstBest(cs)
    ensures IsFirstBest(xs, score, cs[b].position) && xs[cs[b].position] == cs[b].item
  {
    var k := cs[b].position;
    forall j | 0 <= j < |xs| && score(xs[j]).Some?
      ensures score(xs[j]).value <= score(xs[k]).value
      ensures j < k ==> score(xs[j]).value < score(xs[k]).value
    {
      var m :| 0 <= m < |cs| && cs[m].position == j;
      if j < k {
        assert m < b;
      }
    }
  }

  /** Item `k` has a score, no item scores higher, and every earlier item scores lower. */
  ghost predicate IsFirstBest<T>(xs: seq<T>, score: T -> Option<int>, k: nat)
  {
    && k < |xs| && score(xs[k]).Some?
    && (forall j :: 0 <= j < |xs| && score(xs[j]).Some? ==> score(xs[j]).value <= score(xs[k]).value)
    && (forall j :: 0 <= j < k && score(xs[j]).Some? ==> score(xs[j]).value < score(xs[k]).value)
  }

  /** The earliest best item is unique: the result does not depend on how the proof finds it. */
  lemma FirstBestUnique<T>(xs: seq<T>, score: T -> Option<int>, k1: nat, k2: nat)
    requires IsFirstBest(xs, score, k1) && IsFirstBest(xs, score, k2)
    ensures k1 == k2
  {
  }

  /** Two scorings that agree on every item pick the same best item. */
  lemma BestOfAgrees<T>(xs: seq<T>, f: T -> Option<int>, g: T -> Option<int>)
    requires forall j :: 0 <= j < |xs| ==> f(xs[j]) == g(xs[j])
    ensures BestOf(xs, f) == BestOf(xs, g)
  {
    if BestOf(xs, f).Some? {
      var k :| 0 <= k < |xs| && xs[k] == BestOf(xs, f).value && IsFirstBest(xs, f, k);
      assert IsFirstBest(xs, g, k);
      var k2 :| 0 <= k2 < |xs| && xs[k2] == BestOf(xs, g).value && IsFirstBest(xs, g, k2);
      FirstBestUnique(xs, g, k, k2);
    }
  }
}
