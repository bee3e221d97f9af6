/** The persisted entities. Every table is a sequence of keyed rows; a row's
    foreign keys live in its field record. */
module Entities {
  import opened Guids
  import opened Wrappers

  /** DateTime values (start dates, completion stamps) as ticks. */
  type DateTime = int

  datatype Row<T> = Row(id: Guid, val: T)

  type Table<T> = seq<Row<T>>

  // Template catalog: WorkoutTemplate -> TemplateWeek -> TemplateWorkout -> TemplateExercise

  datatype TemplateFields = TemplateFields(name: string, description: string, durationWeeks: int)

  datatype WeekFields = WeekFields(templateId: Guid, weekNumber: int)

  datatype TemplateWorkoutFields = TemplateWorkoutFields(weekId: Guid, name: string)

  /** The optional prescription columns of a TemplateExercise. */
  datatype Prescription = Prescription(
    lastSetIntensity: Option<string>,
    warmupSets: Option<string>,
    workingSets: Option<string>,
    reps: Option<string>,
    rpe: Option<string>,
    rest: Option<string>,
    substitution1: Option<string>,
    substitution2: Option<string>,
    notes: Option<string>)

  datatype TemplateExerciseFields = TemplateExerciseFields(workoutId: Guid, exerciseName: string, prescription: Prescription)

  // Subscriptions (UserWorkoutTemplate) and per-exercise progress

  datatype SubscriptionFields = SubscriptionFields(userId: Guid, templateId: Guid, startDate: DateTime)

  datatype ProgressFields = ProgressFields(
    subscriptionId: Guid,
    templateExerciseId: Guid,
    set1Reps: Option<int>,
    set2Reps: Option<int>,
    set3Reps: Option<int>,
    set4Reps: Option<int>,
    workoutCompleted: bool,
    completionDate: Option<DateTime>)

  // The plain logging path: Workout -> Exercise -> Series

  /** Notes is a nullable column: a workout may have none. */
  datatype WorkoutFields = WorkoutFields(userId: Guid, notes: Option<string>, date: DateTime)

  datatype ExerciseFields = ExerciseFields(workoutId: Guid, name: string)

  /** A set: its repetitions and RPE (the entity has no weight column). */
  datatype SeriesFields = SeriesFields(exerciseId: Guid, repetitions: int, rpe: int)
}
