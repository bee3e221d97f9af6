/** The client-side shapes of a logged workout: an exercise carries an
    optional list of sets, each set its repetitions and RPE. The weight is
    a floating-point number and is not part of this model. */
module WorkoutModels {
  import opened Wrappers

  datatype SeriesDto = SeriesDto(repetitions: int, rpe: int)

  datatype ExerciseDto = ExerciseDto(name: string, series: Option<seq<SeriesDto>>)

  /** `exercise.series ?? []`: a missing list of sets reads as no sets. */
  function SetsOf(e: ExerciseDto): seq<SeriesDto> {
    if e.series.Some? then e.series.value else []
  }

  function Repetitions(series: seq<SeriesDto>): (r: seq<int>)
    ensures |r| == |series|
    ensures forall i :: 0 <= i < |series| ==> r[i] == series[i].repetitions
  {
    seq(|series|, i requires 0 <= i < |series| => series[i].repetitions)
  }

  function Rpes(series: seq<SeriesDto>): (r: seq<int>)
    ensures |r| == |series|
    ensures forall i :: 0 <= i < |series| ==> r[i] == series[i].rpe
  {
    seq(|series|, i requires 0 <= i < |series| => series[i].rpe)
  }

  /** Every set of every exercise, in order. */
  function AllSets(exercises: seq<ExerciseDto>): seq<SeriesDto> {
    if |exercises| == 0 then [] else SetsOf(exercises[0]) + AllSets(exercises[1..])
  }

  lemma {:induction false} AllSetsConcat(a: seq<ExerciseDto>, b: seq<ExerciseDto>)
    ensures AllSets(a + b) == AllSets(a) + AllSets(b)
  {
    if |a| > 0 {
      assert (a + b)[1..] == a[1..] + b;
      AllSetsConcat(a[1..], b);
    } else {
      assert a + b == b;
    }
  }

  lemma RpesConcat(a: seq<SeriesDto>, b: seq<SeriesDto>)
    ensures Rpes(a + b) == Rpes(a) + Rpes(b)
  {
  }
}
