/**
 * The language polyfills of the browser client (src/js/utils/polyfills.js):
 * `Array.prototype.at`, `String.prototype.replaceAll` and
 * `Object.fromEntries`, installed when the browser lacks them.
 */
module Polyfills {
  import opened Wrappers
  import opened Text

  // -----------------------------------------------------------------------
  // Array.prototype.at

  /** `array.at(index)` for an integer index; `undefined` is `None`. */
  function At<T>(s: seq<T>, index: int): (r: Option<T>)
    ensures r.Some? <==> -|s| <= index < |s|
    ensures r.Some? && index >= 0 ==> r.value == s[index]
    ensures r.Some? && index < 0 ==> r.value == s[|s| + index]
  {
    var relative := if index < 0 then |s| + index else index;
    if relative < 0 || relative >= |s| then None else Some(s[relative])
  }

  /** The sequence back to front. */
  function Reverse<T>(s: seq<T>): (r: seq<T>)
    ensures |r| == |s|
  {
    if |s| == 0 then [] else Reverse(s[1..]) + [s[0]]
  }

  lemma {:induction false} ReverseIndex<T>(s: seq<T>, i: nat)
    requires i < |s|
    ensures Reverse(s)[i] == s[|s| - 1 - i]
  {
    if i < |s| - 1 {
      ReverseIndex(s[1..], i);
    }
  }

  /** A negative index counts from the end: `at(-k)` is the k-th element of the reversed array. */
  lemma {:induction false} AtNegativeIsReversed<T>(s: seq<T>, k: nat)
    requires 1 <= k <= |s|
    ensures At(s, -(k as int)) == Some(Reverse(s)[k - 1])
  {
    ReverseIndex(s, k - 1);
    var idx: int := -(k as int);
    assert At(s, idx) == Some(s[|s| - k]);
  }

  /** An element can be reached from the front or from the back. */
  lemma AtFromBothEnds<T>(s: seq<T>, i: nat)
    requires i < |s|
    ensures At(s, i) == At(s, i - |s|)
  {
  }

  // -----------------------------------------------------------------------
  // String.prototype.replaceAll

  /** `s.split(sep)` for a string separator; the empty separator splits into characters, and "" into nothing. */
  function JsSplit(s: string, sep: string): (r: seq<string>)
    ensures |sep| == 0 ==> |r| == |s| && forall i :: 0 <= i < |s| ==> r[i] == [s[i]]
  {
    if |sep| > 0 then SplitOn(s, sep)
    else seq(|s|, i requires 0 <= i < |s| => [s[i]])
  }

  /** The polyfilled `s.replaceAll(search, replace)`: split at the search string, join with the replacement. */
  function ReplaceAll(s: string, search: string, rep: string): string
  {
    Join(JsSplit(s, search), rep)
  }

  /** For a non-empty search string, every non-overlapping occurrence is replaced, left to right. */
  lemma ReplaceAllReplacesEveryOccurrence(s: string, search: string, rep: string)
    requires |search| > 0
    ensures ReplaceAll(s, search, rep) == Replace(s, search, rep)
  {
    ReplaceIsSplitJoin(s, search, rep);
  }

  /** Replacing a non-empty string by itself changes nothing. */
  lemma ReplaceAllSameIsIdentity(s: string, search: string)
    requires |search| > 0
    ensures ReplaceAll(s, search, search) == s
  {
    SplitJoinRoundTrip(s, search);
  }

  /**
   * The replacement placed at every position of `s`, before the first
   * character, between any two and after the last: what the language's
   * own `replaceAll` does for an empty search string (every empty match).
   */
  function InsertEverywhere(s: string, rep: string): (r: string)
    ensures |r| == |s| + (|s| + 1) * |rep|
  {
    if |s| == 0 then rep else rep + [s[0]] + InsertEverywhere(s[1..], rep)
  }

  /** `replaceAll` as the language defines it (see `Findings.EmptySearchAsWritten`). */
  function ReplaceAllCorrected(s: string, search: string, rep: string): (r: string)
  {
    if |search| > 0 then ReplaceAll(s, search, rep) else InsertEverywhere(s, rep)
  }

  /** With an empty search string, the k-th character of `s` sits after k + 1 copies of the replacement. */
  lemma InsertEverywhereLayout(s: string, rep: string, k: nat)
    requires k <= |s|
    ensures var r := ReplaceAllCorrected(s, "", rep);
            var at := k * (|rep| + 1);
            at + |rep| <= |r| && r[at..at + |rep|] == rep && (k < |s| ==> r[at + |rep|] == s[k])
  {
    Layout(s, rep, k, |rep| + 1, k * (|rep| + 1));
  }

  lemma {:induction false} Layout(s: string, rep: string, k: nat, w: nat, at: nat)
    requires k <= |s| && w == |rep| + 1 && at == k * w
    ensures var r := InsertEverywhere(s, rep);
            at + |rep| <= |r| && r[at..at + |rep|] == rep && (k < |s| ==> r[at + |rep|] == s[k])
    decreases k
  {
    var r := InsertEverywhere(s, rep);
    assert |r| == |s| * w + |rep| by {
      assert |r| == |s| + (|s| + 1) * |rep|;
      MulDistributes(|s|, |rep|);
    }
    if k > 0 {
      var tail := InsertEverywhere(s[1..], rep);
      assert r == rep + [s[0]] + tail;
      var before := (k - 1) * w;
      assert at == before + w by {
        MulDistributes(k - 1, |rep|);
        MulDistributes(k, |rep|);
      }
      Layout(s[1..], rep, k - 1, w, before);
      assert r[at..at + |rep|] == tail[before..before + |rep|];
    }
  }

  lemma MulDistributes(n: nat, m: nat)
    ensures n * (m + 1) == n * m + n
    ensures (n + 1) * m == n * m + m
  {
  }

  // -----------------------------------------------------------------------
  // Object.fromEntries

  /** `Object.fromEntries(entries)`: each entry assigned in turn, so a later duplicate key overwrites an earlier one. */
  function FromEntries<V>(entries: seq<(string, V)>): (r: map<string, V>)
    ensures forall i :: 0 <= i < |entries| ==> entries[i].0 in r
    ensures forall k :: k in r ==> exists i :: 0 <= i < |entries| && entries[i].0 == k
  {
    if |entries| == 0 then map[]
    else
      var last := entries[|entries| - 1];
      FromEntries(entries[..|entries| - 1])[last.0 := last.1]
  }

  /** The value under a key is the one from its last entry. */
  lemma {:induction false} FromEntriesLastWins<V>(entries: seq<(string, V)>, i: nat)
    requires i < |entries|
    requires forall j :: i < j < |entries| ==> entries[j].0 != entries[i].0
    ensures FromEntries(entries)[entries[i].0] == entries[i].1
  {
    if i < |entries| - 1 {
      var init := entries[..|entries| - 1];
      assert init[i] == entries[i];
      FromEntriesLastWins(init, i);
    }
  }
}
