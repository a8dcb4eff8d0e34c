/** Specification functions for the scans in main.py: the minimum and maximum of a
    non-empty sequence, the flag-selected choice between them, and the running total.

    Min, Max and Sum are written as left-to-right folds, the same shape as the
    source's loops (a priming read of element 0, then one step per further
    element), so that a loop invariant "the accumulator is the fold of the prefix
    scanned so far" is preserved step by step; their contracts and the lemmas
    below connect the folds to the order-theoretic meaning. */
module Extremes {

  /** The smallest element of s: a value of s bounding every element from below.
      An element replaces the accumulator only when it is strictly smaller. */
  function Min(s: seq<int>): (m: int)
    requires |s| > 0
    ensures m in s
    ensures forall k :: 0 <= k < |s| ==> m <= s[k]
  {
    if |s| == 1 then s[0]
    else
      var acc := Min(s[..|s| - 1]);
      if s[|s| - 1] < acc then s[|s| - 1] else acc
  }

  /** The largest element of s: a value of s bounding every element from above.
      An element replaces the accumulator only when it is strictly greater. */
  function Max(s: seq<int>): (m: int)
    requires |s| > 0
    ensures m in s
    ensures forall k :: 0 <= k < |s| ==> s[k] <= m
  {
    if |s| == 1 then s[0]
    else
      var acc := Max(s[..|s| - 1]);
      if s[|s| - 1] > acc then s[|s| - 1] else acc
  }

  /** The value a flag-controlled reducer returns: the minimum when mini holds,
      the maximum otherwise. */
  function Extreme(s: seq<int>, mini: bool): (r: int)
    requires |s| > 0
  {
    if mini then Min(s) else Max(s)
  }

  /** The two bounding properties determine the minimum uniquely. */
  lemma MinCharacterized(s: seq<int>, m: int)
    requires |s| > 0
    ensures m == Min(s) <==> (m in s && forall k :: 0 <= k < |s| ==> m <= s[k])
  {
  }

  /** The two bounding properties determine the maximum uniquely. */
  lemma MaxCharacterized(s: seq<int>, m: int)
    requires |s| > 0
    ensures m == Max(s) <==> (m in s && forall k :: 0 <= k < |s| ==> s[k] <= m)
  {
  }

  /** On a one-element sequence both modes return that element. */
  lemma ExtremeSingleton(x: int)
    ensures Extreme([x], true) == x && Extreme([x], false) == x
  {
  }

  /** The minimum never exceeds the maximum. */
  lemma MinAtMostMax(s: seq<int>)
    requires |s| > 0
    ensures Min(s) <= Max(s)
  {
  }

  /** The total of s, accumulated left to right from 0; the same total is obtained
      by peeling elements off the front. */
  function Sum(s: seq<int>): (r: int)
    ensures s != [] ==> r == s[0] + Sum(s[1..])
  {
    if s == [] then 0
    else
      assert |s| > 1 ==> s[..|s| - 1][1..] == s[1..][..|s| - 2];
      Sum(s[..|s| - 1]) + s[|s| - 1]
  }

  /** If every element lies in [lo, hi], the total lies in [|s| * lo, |s| * hi]. */
  lemma {:induction false} SumBounds(s: seq<int>, lo: int, hi: int)
    requires forall k :: 0 <= k < |s| ==> lo <= s[k] <= hi
    ensures |s| * lo <= Sum(s) <= |s| * hi
  {
    if s != [] {
      var rest := s[1..];
      assert forall k :: 0 <= k < |rest| ==> lo <= rest[k] <= hi by {
        forall k | 0 <= k < |rest| ensures lo <= rest[k] <= hi {
          assert rest[k] == s[k + 1];
        }
      }
      SumBounds(rest, lo, hi);
      assert Sum(s) == s[0] + Sum(rest);
      ScaleStep(|rest|, lo);
      ScaleStep(|rest|, hi);
    }
  }

  /** (n + 1) * c == n * c + c, kept apart from the inductions above. */
  lemma ScaleStep(n: nat, c: int)
    ensures (n + 1) * c == n * c + c
  {
  }

  /** The total lies between |s| times the minimum and |s| times the maximum, that
      is, the average lies between the minimum and the maximum. */
  lemma SumWithinExtremes(s: seq<int>)
    requires |s| > 0
    ensures |s| * Min(s) <= Sum(s) <= |s| * Max(s)
  {
    SumBounds(s, Min(s), Max(s));
  }
}
