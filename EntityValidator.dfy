/** EntityValidator: the null and parent-id checks shared by the logging services.
    Each takes the row a repository lookup returned (None for null). */
module EntityValidator {
  import opened Guids
  import opened Errors
  import opened Wrappers
  import opened Entities

  function EnsureWorkoutExists(workout: Option<Row<WorkoutFields>>, workoutId: Guid): (r: Outcome<Error>)
    ensures r.Fail? <==> workout.None?
    ensures r.Fail? ==> r.error == WorkoutNotFound("Workout with ID " + GuidText(workoutId) + " not found for this user.")
  {
    if workout.None? then Fail(WorkoutNotFound("Workout with ID " + GuidText(workoutId) + " not found for this user."))
    else Pass
  }

  function EnsureExerciseExists(exercise: Option<Row<ExerciseFields>>, exerciseId: Guid, workoutId: Guid): (r: Outcome<Error>)
    ensures r.Fail? <==> exercise.None? || exercise.value.val.workoutId != workoutId
    ensures r.Fail? ==> r.error == ExerciseNotFound("Exercise with ID " + GuidText(exerciseId) + " not found for this workout.")
  {
    if exercise.None? || exercise.value.val.workoutId != workoutId then
      Fail(ExerciseNotFound("Exercise with ID " + GuidText(exerciseId) + " not found for this workout."))
    else Pass
  }

  function EnsureSeriesExists(series: Option<Row<SeriesFields>>, seriesId: Guid, exerciseId: Guid): (r: Outcome<Error>)
    ensures r.Fail? <==> series.None? || series.value.val.exerciseId != exerciseId
    ensures r.Fail? ==> r.error == SeriesNotFound("Series with ID " + GuidText(seriesId) + " not found for this exercise.")
  {
    if series.None? || series.value.val.exerciseId != exerciseId then
      Fail(SeriesNotFound("Series with ID " + GuidText(seriesId) + " not found for this exercise."))
    else Pass
  }

  /** The user row carries no fields the check reads; only its presence matters. */
  function EnsureUserExists(user: Option<Guid>, userId: Guid): (r: Outcome<Error>)
    ensures r.Fail? <==> user.None?
    ensures r.Fail? ==> r.error == UserNotFoundError(userId)
  {
    if user.None? then Fail(UserNotFoundError(userId)) else Pass
  }
}
