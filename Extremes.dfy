/** Smallest and largest element of a list of integers, as Math.min(...xs)
    and Math.max(...xs) compute them for a non-empty list, and the same
    extremes seen as a running minimum and maximum that start at +Infinity
    and -Infinity (here None) and are improved one element at a time. */
module Extremes {
  import opened Wrappers

  function Min(a: int, b: int): int { if a <= b then a else b }
  function Max(a: int, b: int): int { if a >= b then a else b }

  /** The smallest element: one of the elements, and no larger than any. */
  function MinOf(s: seq<int>): (m: int)
    requires |s| > 0
    ensures m in s
    ensures forall i :: 0 <= i < |s| ==> m <= s[i]
  {
    if |s| == 1 then s[0] else Min(MinOf(s[..|s| - 1]), s[|s| - 1])
  }

  /** The largest element: one of the elements, and no smaller than any. */
  function MaxOf(s: seq<int>): (m: int)
    requires |s| > 0
    ensures m in s
    ensures forall i :: 0 <= i < |s| ==> s[i] <= m
  {
    if |s| == 1 then s[0] else Max(MaxOf(s[..|s| - 1]), s[|s| - 1])
  }

  predicate Uniform(s: seq<int>) {
    forall i, j :: 0 <= i < |s| && 0 <= j < |s| ==> s[i] == s[j]
  }

  /** The two extremes meet exactly when every element is the same. */
  lemma MinMaxMeet(s: seq<int>)
    requires |s| > 0
    ensures MinOf(s) == MaxOf(s) <==> Uniform(s)
    ensures MinOf(s) <= MaxOf(s)
  {
    if Uniform(s) {
      var i :| 0 <= i < |s| && s[i] == MinOf(s);
      var j :| 0 <= j < |s| && s[j] == MaxOf(s);
      assert s[i] == s[j];
    }
  }

  /** A list whose elements all equal n has n at both ends. */
  lemma UniformExtremes(s: seq<int>, n: int)
    requires |s| > 0
    requires forall i :: 0 <= i < |s| ==> s[i] == n
    ensures MinOf(s) == n && MaxOf(s) == n
  {
    var i :| 0 <= i < |s| && s[i] == MinOf(s);
    var j :| 0 <= j < |s| && s[j] == MaxOf(s);
  }

  /** The extremes depend only on which values occur, not on their order
      or how often they occur. */
  lemma ExtremesSetOnly(s: seq<int>, t: seq<int>)
    requires |s| > 0 && |t| > 0
    requires forall x :: x in s <==> x in t
    ensures MinOf(s) == MinOf(t) && MaxOf(s) == MaxOf(t)
  {
    assert MinOf(s) in t && MinOf(t) in s;
    assert MaxOf(s) in t && MaxOf(t) in s;
  }

  /** Running minimum: None (+Infinity) for no elements. */
  function MinSoFar(s: seq<int>): Option<int> {
    if |s| == 0 then None else Some(MinOf(s))
  }

  /** Running maximum: None (-Infinity) for no elements. */
  function MaxSoFar(s: seq<int>): Option<int> {
    if |s| == 0 then None else Some(MaxOf(s))
  }

  /** One step of `if (x < min) min = x`, starting from +Infinity. */
  lemma {:induction false} MinStep(s: seq<int>, x: int)
    ensures MinSoFar(s + [x]) ==
      if MinSoFar(s).None? || x < MinSoFar(s).value then Some(x) else MinSoFar(s)
  {
    var t := s + [x];
    assert t[..|t| - 1] == s;
  }

  /** One step of `if (x > max) max = x`, starting from -Infinity. */
  lemma {:induction false} MaxStep(s: seq<int>, x: int)
    ensures MaxSoFar(s + [x]) ==
      if MaxSoFar(s).None? || x > MaxSoFar(s).value then Some(x) else MaxSoFar(s)
  {
    var t := s + [x];
    assert t[..|t| - 1] == s;
  }
}
