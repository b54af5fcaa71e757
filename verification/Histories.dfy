/** What a mapping's few fields have to agree with: functions of the whole history of events. */
module Histories {
  import opened Wrappers

  /** `a` happened, and `b` has not happened since. Both look at what came before the event, and
      at the event. */
  ghost predicate Since<E(!new)>(h: seq<E>, a: (seq<E>, E) -> bool, b: (seq<E>, E) -> bool) {
    exists i | 0 <= i < |h| :: a(h[..i], h[i]) && NotAfter(h, i, b)
  }

  ghost predicate NotAfter<E(!new)>(h: seq<E>, i: int, b: (seq<E>, E) -> bool)
    requires 0 <= i < |h|
  {
    forall j | i < j < |h| :: !b(h[..j], h[j])
  }

  /** How one more event changes it. */
  lemma SinceStep<E(!new)>(h: seq<E>, e: E, a: (seq<E>, E) -> bool, b: (seq<E>, E) -> bool)
    ensures Since(h + [e], a, b) <==> a(h, e) || (Since(h, a, b) && !b(h, e))
  {
    var g, n := h + [e], |h|;
    assert g[..n] == h;
    assert forall i | 0 <= i < n :: g[..i] == h[..i];
    assert forall i | 0 <= i < n :: g[i] == h[i];
    if a(h, e) {
      assert a(g[..n], g[n]) && NotAfter(g, n, b);
    } else if Since(h, a, b) && !b(h, e) {
      var i :| 0 <= i < n && a(h[..i], h[i]) && NotAfter(h, i, b);
      assert a(g[..i], g[i]) && NotAfter(g, i, b);
    }
  }

  lemma SplitLast<E>(h: seq<E>)
    requires h != []
    ensures h == h[..|h| - 1] + [h[|h| - 1]]
  {}

  // --- What was told last -----------------------------------------------------------------

  /** `v` is what was told last, or `start` when nothing was. */
  ghost predicate IsLast<E, T>(h: seq<E>, told: (seq<E>, E) -> Option<T>, start: T, v: T) {
    || (exists i | 0 <= i < |h| :: told(h[..i], h[i]) == Some(v) && NoneTold(h, told, i + 1))
    || (v == start && NoneTold(h, told, 0))
  }

  ghost predicate NoneTold<E, T>(h: seq<E>, told: (seq<E>, E) -> Option<T>, from: nat) {
    forall j | from <= j < |h| :: told(h[..j], h[j]) == None
  }

  lemma IsLastStep<E, T>(h: seq<E>, e: E, told: (seq<E>, E) -> Option<T>, start: T, v: T)
    requires IsLast(h, told, start, v)
    ensures IsLast(h + [e], told, start, told(h, e).GetOr(v))
  {
    var g, n := h + [e], |h|;
    assert g[..n] == h && g[n] == e;
    assert forall i | 0 <= i < n :: g[..i] == h[..i] && g[i] == h[i];
    if told(h, e).Some? {
      assert told(g[..n], g[n]) == Some(told(h, e).value) && NoneTold(g, told, n + 1);
    } else if i :| 0 <= i < n && told(h[..i], h[i]) == Some(v) && NoneTold(h, told, i + 1) {
      assert told(g[..i], g[i]) == Some(v) && NoneTold(g, told, i + 1);
    }
  }

  // --- A counter with a floor at zero ---------------------------------------------------

  function Sum(d: seq<int>): int {
    if d == [] then 0 else Sum(d[..|d| - 1]) + d[|d| - 1]
  }

  function Max(a: int, b: int): int { if a < b then b else a }

  /** Add one by one, never going below zero. */
  function Floored(d: seq<int>): nat {
    if d == [] then 0 else Max(0, Floored(d[..|d| - 1]) + d[|d| - 1])
  }

  /** `m` is the greatest sum of a suffix. */
  ghost predicate IsGreatestSuffixSum(d: seq<int>, m: int) {
    && (forall k | 0 <= k <= |d| :: Sum(d[k..]) <= m)
    && (exists k | 0 <= k <= |d| :: Sum(d[k..]) == m)
  }

  /** The floored counter is the maximum, over all suffixes, of what the suffix adds up to. */
  lemma {:induction false} FlooredIsGreatestSuffixSum(d: seq<int>)
    ensures IsGreatestSuffixSum(d, Floored(d))
  {
    var n := |d|;
    assert d[n..] == [];
    if d != [] {
      var c, x := d[..n - 1], d[n - 1];
      FlooredIsGreatestSuffixSum(c);
      forall k | 0 <= k <= n
        ensures Sum(d[k..]) == if k == n then 0 else Sum(c[k..]) + x
      {
        if k < n {
          assert d[k..][..n - k - 1] == c[k..] && d[k..][n - k - 1] == x;
        }
      }
      var k :| 0 <= k <= |c| && Sum(c[k..]) == Floored(c);
      assert Sum(d[k..]) == Floored(c) + x;
    }
  }
}
