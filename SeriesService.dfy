/** SeriesService: sets inside an exercise inside a workout the caller owns.
    The three-level check throws UnauthorizedAccess on create and on both
    reads, answers false on update and delete, and the single read answers
    null when only the series link fails. */
module SeriesService {
  import opened Guids
  import opened Wrappers
  import opened Errors
  import opened Entities
  import opened Tables
  import opened Ownership
  import opened TemplateCatalog
  import opened Store

  /** SeriesCreateDto / SeriesUpdateDto: the integer columns of a set. The entity has no weight;
      the Weight of SeriesResponseDto is not modelled. */
  datatype SeriesDraft = SeriesDraft(repetitions: int, rpe: int)

  const CreateWorkoutDenied := UnauthorizedAccess("Cannot create a series for a workout that does not belong to the user.")
  const CreateExerciseDenied := UnauthorizedAccess("Cannot create a series for an exercise that does not belong to the workout.")
  const ListWorkoutDenied := UnauthorizedAccess("Cannot access series for a workout that does not belong to the user.")
  const ListExerciseDenied := UnauthorizedAccess("Cannot access series for an exercise that does not belong to the workout.")
  const ReadWorkoutDenied := UnauthorizedAccess("Cannot access a series for a workout that does not belong to the user.")
  const ReadExerciseDenied := UnauthorizedAccess("Cannot access a series for an exercise that does not belong to the workout.")

  /** The two upper links, checked in order: the workout's owner, then the exercise's workout. */
  function CheckChain(workouts: Table<WorkoutFields>, exercises: Table<ExerciseFields>,
                      userId: Guid, workoutId: Guid, exerciseId: Guid,
                      workoutDenied: Error, exerciseDenied: Error): (r: Outcome<Error>)
    ensures r.Pass? <==> WorkoutOwned(workouts, workoutId, userId) && ExerciseInWorkout(exercises, exerciseId, workoutId)
    ensures !WorkoutOwned(workouts, workoutId, userId) ==> r == Fail(workoutDenied)
    ensures WorkoutOwned(workouts, workoutId, userId) && !ExerciseInWorkout(exercises, exerciseId, workoutId) ==>
      r == Fail(exerciseDenied)
  {
    if !WorkoutOwned(workouts, workoutId, userId) then Fail(workoutDenied)
    else if !ExerciseInWorkout(exercises, exerciseId, workoutId) then Fail(exerciseDenied)
    else Pass
  }

  /** CreateSeriesAsync: the new set hangs off the checked exercise. */
  method CreateSeries(db: Db, userId: Guid, workoutId: Guid, exerciseId: Guid, draft: SeriesDraft)
    returns (r: Result<Row<SeriesFields>, Error>)
    requires db.Valid()
    modifies db`series, db`nextId
    ensures db.Valid()
    ensures var check := CheckChain(old(db.workouts), old(db.exercises), userId, workoutId, exerciseId,
                                    CreateWorkoutDenied, CreateExerciseDenied);
      (check.Fail? ==> r == Failure(check.error) && db.series == old(db.series) && db.nextId == old(db.nextId)) &&
      (check.Pass? ==>
         r == Success(Row(old(db.nextId), SeriesFields(exerciseId, draft.repetitions, draft.rpe))) &&
         db.series == old(db.series) + [r.value] && db.nextId == old(db.nextId) + 1)
  {
    var check := CheckChain(db.workouts, db.exercises, userId, workoutId, exerciseId, CreateWorkoutDenied, CreateExerciseDenied);
    if check.Fail? {
      return Failure(check.error);
    }
    var row := InsertSeries(db, SeriesFields(exerciseId, draft.repetitions, draft.rpe));
    r := Success(row);
  }

  /** The repository's Add + SaveChanges of a set under an existing exercise. */
  method InsertSeries(db: Db, v: SeriesFields) returns (row: Row<SeriesFields>)
    requires db.Valid() && HasKey(db.exercises, v.exerciseId)
    modifies db`series, db`nextId
    ensures db.Valid()
    ensures row == Row(old(db.nextId), v) && db.series == old(db.series) + [row] && db.nextId == old(db.nextId) + 1
  {
    row := Row(db.nextId, v);
    ghost var users, c, subscriptions, progress, workouts, exercises, series :=
      db.users, db.TemplateState(), db.subscriptions, db.progress, db.workouts, db.exercises, db.series;
    var s := db.series + [row];
    SeriesInsertValid(users, c, subscriptions, progress, workouts, exercises, series, v);
    db.series, db.nextId := s, db.nextId + 1;
    db.ValidFrom(users, c.(nextId := c.nextId + 1), subscriptions, progress, workouts, exercises, s);
  }

  /** A new set under an existing exercise keeps the store valid. */
  lemma SeriesInsertValid(users: set<Guid>, c: Catalog, subscriptions: Table<SubscriptionFields>,
                          progress: Table<ProgressFields>, workouts: Table<WorkoutFields>,
                          exercises: Table<ExerciseFields>, series: Table<SeriesFields>, v: SeriesFields)
    requires TablesValid(users, c, subscriptions, progress, workouts, exercises, series)
    requires HasKey(exercises, v.exerciseId)
    ensures TablesValid(users, c.(nextId := c.nextId + 1), subscriptions, progress, workouts, exercises,
                        series + [Row(c.nextId, v)])
  {
    TablesGrow(users, c, subscriptions, progress, workouts, exercises, series);
    KeyedAppend(series, c.nextId, v);
    var s := series + [Row(c.nextId, v)];
    forall i | 0 <= i < |s| ensures HasKey(exercises, s[i].val.exerciseId) {
      if i < |series| {
        assert s[i] == series[i];
      }
    }
  }

  /** UpdateSeriesAsync: false unless all three links hold; then both counts are overwritten. */
  method UpdateSeries(db: Db, userId: Guid, workoutId: Guid, exerciseId: Guid, seriesId: Guid, draft: SeriesDraft)
    returns (ok: bool)
    requires db.Valid()
    modifies db`series
    ensures db.Valid()
    ensures ok <==>
      WorkoutOwned(old(db.workouts), workoutId, userId) && ExerciseInWorkout(old(db.exercises), exerciseId, workoutId) &&
      SeriesInExercise(old(db.series), seriesId, exerciseId)
    ensures !ok ==> db.series == old(db.series)
    ensures ok ==> db.series == SetVal(old(db.series), seriesId, SeriesFields(exerciseId, draft.repetitions, draft.rpe))
  {
    if !WorkoutOwned(db.workouts, workoutId, userId) || !ExerciseInWorkout(db.exercises, exerciseId, workoutId) ||
       !SeriesInExercise(db.series, seriesId, exerciseId) {
      return false;
    }
    var v := SeriesFields(exerciseId, draft.repetitions, draft.rpe);
    var s := SetVal(db.series, seriesId, v);
    assert TablesValid(db.users, db.TemplateState(), db.subscriptions, db.progress, db.workouts, db.exercises, s) by {
      SeriesSetValid(db.users, db.TemplateState(), db.subscriptions, db.progress, db.workouts, db.exercises,
                     db.series, seriesId, v);
    }
    db.series := s;
    ok := true;
  }

  /** Overwriting an existing set, still under an existing exercise, keeps the store valid. */
  lemma SeriesSetValid(users: set<Guid>, c: Catalog, subscriptions: Table<SubscriptionFields>,
                       progress: Table<ProgressFields>, workouts: Table<WorkoutFields>,
                       exercises: Table<ExerciseFields>, series: Table<SeriesFields>, seriesId: Guid, v: SeriesFields)
    requires TablesValid(users, c, subscriptions, progress, workouts, exercises, series)
    requires HasKey(series, seriesId) && HasKey(exercises, v.exerciseId)
    ensures TablesValid(users, c, subscriptions, progress, workouts, exercises, SetVal(series, seriesId, v))
  {
    LookupSetVal(series, c.nextId, seriesId, v);
    var s := SetVal(series, seriesId, v);
    forall i | 0 <= i < |s| ensures HasKey(exercises, s[i].val.exerciseId) {
      if i != Find(series, seriesId).value {
        assert s[i] == series[i];
      }
    }
  }

  /** DeleteSeriesAsync: false unless all three links hold; then exactly that set goes. */
  method DeleteSeries(db: Db, userId: Guid, workoutId: Guid, exerciseId: Guid, seriesId: Guid) returns (ok: bool)
    requires db.Valid()
    modifies db`series
    ensures db.Valid()
    ensures ok <==>
      WorkoutOwned(old(db.workouts), workoutId, userId) && ExerciseInWorkout(old(db.exercises), exerciseId, workoutId) &&
      SeriesInExercise(old(db.series), seriesId, exerciseId)
    ensures !ok ==> db.series == old(db.series)
    ensures ok ==>
      var k := Find(old(db.series), seriesId).value;
      db.series == old(db.series)[..k] + old(db.series)[k + 1..]
  {
    if !WorkoutOwned(db.workouts, workoutId, userId) || !ExerciseInWorkout(db.exercises, exerciseId, workoutId) ||
       !SeriesInExercise(db.series, seriesId, exerciseId) {
      return false;
    }
    RemoveSeriesRow(db, seriesId);
    ok := true;
  }

  /** The repository's Remove + SaveChanges of one existing set. */
  method RemoveSeriesRow(db: Db, seriesId: Guid)
    requires db.Valid() && HasKey(db.series, seriesId)
    modifies db`series
    ensures db.Valid()
    ensures var k := Find(old(db.series), seriesId).value;
      db.series == old(db.series)[..k] + old(db.series)[k + 1..]
  {
    ghost var users, c, subscriptions, progress, workouts, exercises, series :=
      db.users, db.TemplateState(), db.subscriptions, db.progress, db.workouts, db.exercises, db.series;
    var s := RemoveKey(db.series, seriesId);
    SeriesRemoveValid(users, c, subscriptions, progress, workouts, exercises, series, seriesId);
    db.series := s;
    db.ValidFrom(users, c, subscriptions, progress, workouts, exercises, s);
  }

  /** Removing one existing set keeps the store valid; no other table refers to sets. */
  lemma SeriesRemoveValid(users: set<Guid>, c: Catalog, subscriptions: Table<SubscriptionFields>,
                          progress: Table<ProgressFields>, workouts: Table<WorkoutFields>,
                          exercises: Table<ExerciseFields>, series: Table<SeriesFields>, seriesId: Guid)
    requires TablesValid(users, c, subscriptions, progress, workouts, exercises, series)
    requires HasKey(series, seriesId)
    ensures var k := Find(series, seriesId).value;
      RemoveKey(series, seriesId) == series[..k] + series[k + 1..]
    ensures TablesValid(users, c, subscriptions, progress, workouts, exercises, RemoveKey(series, seriesId))
  {
    var keep := (x: Row<SeriesFields>) => x.id != seriesId;
    RemoveKeyed(series, c.nextId, Find(series, seriesId).value);
    WhereKeyed(series, keep, c.nextId);
    WhereAllHold(series, keep, (x: Row<SeriesFields>) => HasKey(exercises, x.val.exerciseId));
  }

  /** GetAllSeriesForExerciseAsync: the exercise's sets, once both upper links hold. */
  function GetAllSeriesForExercise(workouts: Table<WorkoutFields>, exercises: Table<ExerciseFields>, series: Table<SeriesFields>,
                                   userId: Guid, workoutId: Guid, exerciseId: Guid): (r: Result<Table<SeriesFields>, Error>)
    ensures var check := CheckChain(workouts, exercises, userId, workoutId, exerciseId, ListWorkoutDenied, ListExerciseDenied);
      (check.Fail? <==> r.Failure?) && (check.Fail? ==> r.error == check.error)
    ensures r.Success? ==>
      (forall i :: 0 <= i < |r.value| ==> r.value[i] in series && r.value[i].val.exerciseId == exerciseId) &&
      (forall i :: 0 <= i < |series| && series[i].val.exerciseId == exerciseId ==> series[i] in r.value)
  {
    var check := CheckChain(workouts, exercises, userId, workoutId, exerciseId, ListWorkoutDenied, ListExerciseDenied);
    if check.Fail? then Failure(check.error)
    else Success(Where(series, UnderExercise(exerciseId)))
  }

  /** GetSeriesByIdAsync: throws on a workout or exercise mismatch, but answers null on a series mismatch. */
  function GetSeriesById(workouts: Table<WorkoutFields>, exercises: Table<ExerciseFields>, series: Table<SeriesFields>,
                         userId: Guid, workoutId: Guid, exerciseId: Guid, seriesId: Guid): (r: Result<Option<Row<SeriesFields>>, Error>)
    ensures var check := CheckChain(workouts, exercises, userId, workoutId, exerciseId, ReadWorkoutDenied, ReadExerciseDenied);
      (check.Fail? <==> r.Failure?) && (check.Fail? ==> r.error == check.error)
    ensures r.Success? ==> (r.value.Some? <==> SeriesInExercise(series, seriesId, exerciseId))
    ensures r.Success? && r.value.Some? ==> r.value.value in series && r.value.value.id == seriesId
  {
    var check := CheckChain(workouts, exercises, userId, workoutId, exerciseId, ReadWorkoutDenied, ReadExerciseDenied);
    if check.Fail? then Failure(check.error)
    else if !SeriesInExercise(series, seriesId, exerciseId) then Success(None)
    else Success(Lookup(series, seriesId))
  }
}
