/** The ownership chain user -> workout -> exercise -> series the plain
    logging services check, by comparing each child's parent id with the id in
    the request (lookups are by id only, IWorkoutRepository.GetWorkoutByIdAsync),
    and the cascades the schema applies when a parent row is deleted. */
module Ownership {
  import opened Guids
  import opened Wrappers
  import opened Entities
  import opened Tables

  /** The workout exists and its UserId is `userId`. */
  predicate WorkoutOwned(workouts: Table<WorkoutFields>, workoutId: Guid, userId: Guid) {
    match Lookup(workouts, workoutId)
    case None => false
    case Some(w) => w.val.userId == userId
  }

  /** The exercise exists and its WorkoutId is `workoutId`. */
  predicate ExerciseInWorkout(exercises: Table<ExerciseFields>, exerciseId: Guid, workoutId: Guid) {
    match Lookup(exercises, exerciseId)
    case None => false
    case Some(e) => e.val.workoutId == workoutId
  }

  /** The series exists and its ExerciseId is `exerciseId`. */
  predicate SeriesInExercise(series: Table<SeriesFields>, seriesId: Guid, exerciseId: Guid) {
    match Lookup(series, seriesId)
    case None => false
    case Some(s) => s.val.exerciseId == exerciseId
  }

  function OfUser(userId: Guid): Row<WorkoutFields> -> bool {
    (w: Row<WorkoutFields>) => w.val.userId == userId
  }

  function UnderWorkout(workoutId: Guid): Row<ExerciseFields> -> bool {
    (e: Row<ExerciseFields>) => e.val.workoutId == workoutId
  }

  function NotUnderWorkout(workoutId: Guid): Row<ExerciseFields> -> bool {
    (e: Row<ExerciseFields>) => e.val.workoutId != workoutId
  }

  function UnderExercise(exerciseId: Guid): Row<SeriesFields> -> bool {
    (s: Row<SeriesFields>) => s.val.exerciseId == exerciseId
  }

  function NotUnderExercises(gone: set<Guid>): Row<SeriesFields> -> bool {
    (s: Row<SeriesFields>) => s.val.exerciseId !in gone
  }

  /** Exercises left once a workout is deleted (their foreign key is required, so they cascade). */
  function ExercisesAfterWorkoutDelete(exercises: Table<ExerciseFields>, workoutId: Guid): (r: Table<ExerciseFields>)
    ensures forall i :: 0 <= i < |r| ==> r[i] in exercises && r[i].val.workoutId != workoutId
    ensures forall i :: 0 <= i < |exercises| && exercises[i].val.workoutId != workoutId ==> exercises[i] in r
  {
    Where(exercises, NotUnderWorkout(workoutId))
  }

  /** Series left once the exercises with ids in `gone` are deleted. */
  function SeriesAfterExerciseDelete(series: Table<SeriesFields>, gone: set<Guid>): (r: Table<SeriesFields>)
    ensures forall i :: 0 <= i < |r| ==> r[i] in series && r[i].val.exerciseId !in gone
    ensures forall i :: 0 <= i < |series| && series[i].val.exerciseId !in gone ==> series[i] in r
  {
    Where(series, NotUnderExercises(gone))
  }

  /** The ids of a workout's exercises: what its deletion cascades to. */
  function ExerciseIdsOf(exercises: Table<ExerciseFields>, workoutId: Guid): (r: set<Guid>)
    ensures forall i :: 0 <= i < |exercises| ==> (exercises[i].id in r <== exercises[i].val.workoutId == workoutId)
    ensures forall id :: id in r ==>
      exists i :: 0 <= i < |exercises| && exercises[i].id == id && exercises[i].val.workoutId == workoutId
  {
    var under := Where(exercises, UnderWorkout(workoutId));
    forall id | id in Ids(under)
      ensures exists i :: 0 <= i < |exercises| && exercises[i].id == id && exercises[i].val.workoutId == workoutId
    {
      var j :| 0 <= j < |under| && under[j].id == id;
      assert under[j] in exercises;
      var i :| 0 <= i < |exercises| && exercises[i] == under[j];
      assert exercises[i].val.workoutId == workoutId;
    }
    Ids(under)
  }
}
