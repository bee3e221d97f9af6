/** The rep-range label of the workout list card: "0 reps" for no sets,
    "n reps" when every set has n repetitions, "min-max reps" otherwise. */
module WorkoutList {
  import opened Wrappers
  import opened Text
  import opened Extremes
  import opened WorkoutModels

  /** getRepRange; None is a null or undefined list. */
  function RepRange(series: Option<seq<SeriesDto>>): string {
    if series.None? || |series.value| == 0 then "0 reps"
    else
      var reps := Repetitions(series.value);
      var lo := MinOf(reps);
      var hi := MaxOf(reps);
      if lo == hi then IntToString(lo) + " reps"
      else IntToString(lo) + "-" + IntToString(hi) + " reps"
  }

  /** All sets with n repetitions read "n reps". */
  lemma RepRangeUniform(series: seq<SeriesDto>, n: int)
    requires |series| > 0
    requires forall i :: 0 <= i < |series| ==> series[i].repetitions == n
    ensures RepRange(Some(series)) == IntToString(n) + " reps"
  {
    UniformExtremes(Repetitions(series), n);
  }

  /** Sets with differing repetitions read "min-max reps" with min < max,
      each attained by a set and bounding every set. */
  lemma RepRangeSpread(series: seq<SeriesDto>)
    requires |series| > 0
    requires exists i, j :: (0 <= i < |series| && 0 <= j < |series| &&
      series[i].repetitions != series[j].repetitions)
    ensures var reps := Repetitions(series);
      var lo := MinOf(reps);
      var hi := MaxOf(reps);
      lo < hi &&
      (exists i :: 0 <= i < |series| && series[i].repetitions == lo) &&
      (exists j :: 0 <= j < |series| && series[j].repetitions == hi) &&
      (forall k :: 0 <= k < |series| ==> lo <= series[k].repetitions <= hi) &&
      RepRange(Some(series)) == IntToString(lo) + "-" + IntToString(hi) + " reps"
  {
    var reps := Repetitions(series);
    var i, j :| 0 <= i < |series| && 0 <= j < |series| &&
      series[i].repetitions != series[j].repetitions;
    assert reps[i] != reps[j];
    MinMaxMeet(reps);
    var a :| 0 <= a < |reps| && reps[a] == MinOf(reps);
    var b :| 0 <= b < |reps| && reps[b] == MaxOf(reps);
    assert series[a].repetitions == MinOf(reps);
    assert series[b].repetitions == MaxOf(reps);
  }

  /** "0 reps" means no sets or only sets of zero repetitions. */
  lemma ZeroRepsMeansNone(series: Option<seq<SeriesDto>>)
    ensures RepRange(series) == "0 reps" <==>
      series.None? || forall i :: 0 <= i < |series.value| ==> series.value[i].repetitions == 0
  {
    if series.Some? && |series.value| > 0 {
      var reps := Repetitions(series.value);
      var lo := MinOf(reps);
      var hi := MaxOf(reps);
      if lo == hi {
        MinMaxMeet(reps);
        var t := IntToString(lo) + " reps";
        if t == "0 reps" {
          assert IntToString(lo) == t[..|t| - 5] == "0";
          assert IntToString(0) == "0";
          IntToStringInjective(lo, 0);
          assert forall i :: 0 <= i < |reps| ==> reps[i] == reps[0];
        } else {
          assert IntToString(lo) != "0";
          var a :| 0 <= a < |reps| && reps[a] == lo;
          assert series.value[a].repetitions != 0;
        }
      } else {
        var a :| 0 <= a < |reps| && reps[a] == hi;
        var b :| 0 <= b < |reps| && reps[b] == lo;
        assert series.value[a].repetitions != 0 || series.value[b].repetitions != 0;
        assert |RepRange(series)| >= 8;
      }
    }
  }

  /** Reordering or repeating the sets does not change the label: it
      depends only on which repetition counts occur. */
  lemma RepRangeOrderFree(a: seq<SeriesDto>, b: seq<SeriesDto>)
    requires forall n :: n in Repetitions(a) <==> n in Repetitions(b)
    ensures RepRange(Some(a)) == RepRange(Some(b))
  {
    var ra, rb := Repetitions(a), Repetitions(b);
    if |a| > 0 && |b| > 0 {
      ExtremesSetOnly(ra, rb);
    }
  }
}
