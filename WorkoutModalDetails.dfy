/** The summary figures of the workout details dialog: the total number of
    sets, and the RPE range over every set of every exercise. */
module WorkoutModalDetails {
  import opened Wrappers
  import opened Text
  import opened Extremes
  import opened WorkoutModels

  /** The `reduce` callback: the running total plus this exercise's sets. */
  function TotalSetsFrom(total: int, exercises: seq<ExerciseDto>): int
    decreases exercises
  {
    if |exercises| == 0 then total
    else TotalSetsFrom(total + |SetsOf(exercises[0])|, exercises[1..])
  }

  /** getTotalSets: `reduce` from 0; the default argument is []. */
  function TotalSets(exercises: seq<ExerciseDto>): int {
    TotalSetsFrom(0, exercises)
  }

  lemma {:induction false} TotalSetsFromCounts(total: int, exercises: seq<ExerciseDto>)
    ensures TotalSetsFrom(total, exercises) == total + |AllSets(exercises)|
    decreases exercises
  {
    if |exercises| > 0 {
      TotalSetsFromCounts(total + |SetsOf(exercises[0])|, exercises[1..]);
    }
  }

  /** The total is the number of sets across all exercises. */
  lemma TotalSetsCountsAll(exercises: seq<ExerciseDto>)
    ensures TotalSets(exercises) == |AllSets(exercises)|
  {
    TotalSetsFromCounts(0, exercises);
  }

  /** The total over two lists joined is the sum of their totals. */
  lemma TotalSetsAdditive(a: seq<ExerciseDto>, b: seq<ExerciseDto>)
    ensures TotalSets(a + b) == TotalSets(a) + TotalSets(b)
  {
    TotalSetsCountsAll(a + b);
    TotalSetsCountsAll(a);
    TotalSetsCountsAll(b);
    AllSetsConcat(a, b);
  }

  /** An exercise without a list of sets adds nothing to the total. */
  lemma MissingSeriesAddsNothing(exercises: seq<ExerciseDto>, e: ExerciseDto)
    requires e.series.None?
    ensures TotalSets(exercises + [e]) == TotalSets(exercises)
  {
    TotalSetsAdditive(exercises, [e]);
    TotalSetsCountsAll([e]);
    assert AllSets([e]) == SetsOf(e) + AllSets([]);
  }

  /** The label once the running extremes are known: "N/A" while either is
      still at its infinite start, one number when they meet, else "min-max". */
  function RangeLabel(lo: Option<int>, hi: Option<int>): string {
    if lo.None? || hi.None? then "N/A"
    else if lo.value == hi.value then IntToString(lo.value)
    else IntToString(lo.value) + "-" + IntToString(hi.value)
  }

  /** The RPE of every set of every exercise, in order. */
  function AllRpes(exercises: seq<ExerciseDto>): seq<int> {
    Rpes(AllSets(exercises))
  }

  /** The label that getRPERange computes for these exercises. */
  function RpeLabel(exercises: seq<ExerciseDto>): string {
    var rpes := AllRpes(exercises);
    RangeLabel(MinSoFar(rpes), MaxSoFar(rpes))
  }

  lemma AllRpesSnoc(exercises: seq<ExerciseDto>, i: nat)
    requires i < |exercises|
    ensures AllRpes(exercises[..i + 1]) == AllRpes(exercises[..i]) + Rpes(SetsOf(exercises[i]))
  {
    assert exercises[..i + 1] == exercises[..i] + [exercises[i]];
    AllSetsConcat(exercises[..i], [exercises[i]]);
    assert AllSets([exercises[i]]) == SetsOf(exercises[i]) + AllSets([]);
    RpesConcat(AllSets(exercises[..i]), SetsOf(exercises[i]));
  }

  lemma RpesSnoc(sets: seq<SeriesDto>, j: nat)
    requires j < |sets|
    ensures Rpes(sets[..j + 1]) == Rpes(sets[..j]) + [sets[j].rpe]
  {
    assert sets[..j + 1] == sets[..j] + [sets[j]];
    RpesConcat(sets[..j], [sets[j]]);
  }

  /** getRPERange: two nested loops keep a running minimum and maximum that
      start at +Infinity and -Infinity. */
  method RpeRange(exercises: seq<ExerciseDto>) returns (r: string)
    ensures r == RpeLabel(exercises)
  {
    var lo: Option<int> := None;
    var hi: Option<int> := None;
    ghost var seen: seq<int> := [];
    var i := 0;
    while i < |exercises|
      invariant 0 <= i <= |exercises|
      invariant seen == AllRpes(exercises[..i])
      invariant lo == MinSoFar(seen) && hi == MaxSoFar(seen)
    {
      AllRpesSnoc(exercises, i);
      if exercises[i].series.Some? {
        var sets := exercises[i].series.value;
        ghost var before := seen;
        var j := 0;
        while j < |sets|
          invariant 0 <= j <= |sets|
          invariant seen == before + Rpes(sets[..j])
          invariant lo == MinSoFar(seen) && hi == MaxSoFar(seen)
        {
          var x := sets[j].rpe;
          MinStep(seen, x);
          MaxStep(seen, x);
          if lo.None? || x < lo.value {
            lo := Some(x);
          }
          if hi.None? || x > hi.value {
            hi := Some(x);
          }
          RpesSnoc(sets, j);
          seen := seen + [x];
          j := j + 1;
        }
        assert sets[..j] == sets;
      }
      i := i + 1;
    }
    assert exercises[..i] == exercises;
    r := RangeLabel(lo, hi);
  }

  /** "N/A" exactly when no exercise has a set, counting a missing list as
      none. */
  lemma NotApplicableIffNoSets(exercises: seq<ExerciseDto>)
    ensures RpeLabel(exercises) == "N/A" <==> TotalSets(exercises) == 0
  {
    TotalSetsCountsAll(exercises);
    var rpes := AllRpes(exercises);
    if |rpes| > 0 {
      var s := IntToString(MinOf(rpes));
      assert RpeLabel(exercises)[0] == s[0];
      assert s[0] != 'N';
    }
  }

  /** Sets that all have RPE n read "n". */
  lemma RpeUniform(exercises: seq<ExerciseDto>, n: int)
    requires |AllSets(exercises)| > 0
    requires forall k :: 0 <= k < |AllSets(exercises)| ==> AllSets(exercises)[k].rpe == n
    ensures RpeLabel(exercises) == IntToString(n)
  {
    UniformExtremes(AllRpes(exercises), n);
  }

  /** Sets with differing RPEs read "min-max" with min < max, each attained
      by a set and bounding every set. */
  lemma RpeSpread(exercises: seq<ExerciseDto>)
    requires !Uniform(AllRpes(exercises))
    ensures |AllRpes(exercises)| > 0
    ensures MinOf(AllRpes(exercises)) < MaxOf(AllRpes(exercises))
    ensures exists i :: 0 <= i < |AllSets(exercises)| && AllSets(exercises)[i].rpe == MinOf(AllRpes(exercises))
    ensures exists j :: 0 <= j < |AllSets(exercises)| && AllSets(exercises)[j].rpe == MaxOf(AllRpes(exercises))
    ensures forall k :: 0 <= k < |AllSets(exercises)| ==>
      MinOf(AllRpes(exercises)) <= AllSets(exercises)[k].rpe <= MaxOf(AllRpes(exercises))
    ensures RpeLabel(exercises) ==
      IntToString(MinOf(AllRpes(exercises))) + "-" + IntToString(MaxOf(AllRpes(exercises)))
  {
    var sets := AllSets(exercises);
    var rpes := AllRpes(exercises);
    MinMaxMeet(rpes);
    var a :| 0 <= a < |rpes| && rpes[a] == MinOf(rpes);
    var b :| 0 <= b < |rpes| && rpes[b] == MaxOf(rpes);
    assert sets[a].rpe == MinOf(rpes);
    assert sets[b].rpe == MaxOf(rpes);
  }
}
