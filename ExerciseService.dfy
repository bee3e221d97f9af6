/** ExerciseService: exercises inside a workout the caller owns. Create and
    the list throw UnauthorizedAccess, update and delete answer false, and the
    single read answers null, when a link of the chain does not hold. */
module ExerciseService {
  import opened Guids
  import opened Wrappers
  import opened Errors
  import opened Entities
  import opened Tables
  import opened Columns
  import opened Ownership
  import opened TemplateCatalog
  import opened Store

  const CreateDenied := UnauthorizedAccess("Cannot create an exercise for a workout that does not belong to the user.")
  const ListDenied := UnauthorizedAccess("Cannot access exercises for a workout that does not belong to the user.")

  /** CreateExerciseAsync (the DTO's nested series are not modelled). */
  method CreateExercise(db: Db, userId: Guid, workoutId: Guid, name: Option<string>) returns (r: Result<Row<ExerciseFields>, Error>)
    requires db.Valid()
    modifies db`exercises, db`nextId
    ensures db.Valid()
    ensures !WorkoutOwned(old(db.workouts), workoutId, userId) ==> r == Failure(CreateDenied)
    ensures WorkoutOwned(old(db.workouts), workoutId, userId) && RequiredColumn(name, ExerciseNameLength).Failure? ==>
      r == Failure(SaveFailed)
    ensures r.Failure? ==> db.exercises == old(db.exercises) && db.nextId == old(db.nextId)
    ensures r.Success? <==> WorkoutOwned(old(db.workouts), workoutId, userId) && RequiredColumn(name, ExerciseNameLength).Success?
    ensures r.Success? ==>
      r.value == Row(old(db.nextId), ExerciseFields(workoutId, name.value)) &&
      db.exercises == old(db.exercises) + [r.value] && db.nextId == old(db.nextId) + 1
  {
    if !WorkoutOwned(db.workouts, workoutId, userId) {
      return Failure(CreateDenied);
    }
    var checked := RequiredColumn(name, ExerciseNameLength);
    if checked.Failure? {
      return Failure(SaveFailed);
    }
    var row := InsertExercise(db, ExerciseFields(workoutId, checked.value));
    r := Success(row);
  }

  /** The repository's Add + SaveChanges of an exercise under an existing workout. */
  method InsertExercise(db: Db, v: ExerciseFields) returns (row: Row<ExerciseFields>)
    requires db.Valid() && HasKey(db.workouts, v.workoutId) && Utf16Length(v.name) <= ExerciseNameLength
    modifies db`exercises, db`nextId
    ensures db.Valid()
    ensures row == Row(old(db.nextId), v) && db.exercises == old(db.exercises) + [row] && db.nextId == old(db.nextId) + 1
  {
    row := Row(db.nextId, v);
    ghost var users, c, subscriptions, progress, workouts, exercises, series :=
      db.users, db.TemplateState(), db.subscriptions, db.progress, db.workouts, db.exercises, db.series;
    var e := db.exercises + [row];
    ExerciseInsertValid(users, c, subscriptions, progress, workouts, exercises, series, v);
    db.exercises, db.nextId := e, db.nextId + 1;
    db.ValidFrom(users, c.(nextId := c.nextId + 1), subscriptions, progress, workouts, e, series);
  }

  /** A new exercise with a short enough name under an existing workout keeps the store valid. */
  lemma ExerciseInsertValid(users: set<Guid>, c: Catalog, subscriptions: Table<SubscriptionFields>,
                            progress: Table<ProgressFields>, workouts: Table<WorkoutFields>,
                            exercises: Table<ExerciseFields>, series: Table<SeriesFields>, v: ExerciseFields)
    requires TablesValid(users, c, subscriptions, progress, workouts, exercises, series)
    requires HasKey(workouts, v.workoutId) && Utf16Length(v.name) <= ExerciseNameLength
    ensures TablesValid(users, c.(nextId := c.nextId + 1), subscriptions, progress, workouts,
                        exercises + [Row(c.nextId, v)], series)
  {
    TablesGrow(users, c, subscriptions, progress, workouts, exercises, series);
    KeyedAppend(exercises, c.nextId, v);
    var e := exercises + [Row(c.nextId, v)];
    forall i | 0 <= i < |e| ensures HasKey(workouts, e[i].val.workoutId) && Utf16Length(e[i].val.name) <= ExerciseNameLength {
      if i < |exercises| {
        assert e[i] == exercises[i];
      }
    }
    forall i | 0 <= i < |series| ensures HasKey(e, series[i].val.exerciseId) {
      HasKeyExtends(exercises, e, series[i].val.exerciseId);
    }
  }

  /** ExerciseUpdateDto applied to an exercise: a null Name leaves the column as it is
      (its nested series list is not modelled). */
  function Renamed(e: ExerciseFields, name: Option<string>): (r: ExerciseFields)
    ensures r.workoutId == e.workoutId
    ensures r.name == (if name.Some? then name.value else e.name)
  {
    if name.Some? then e.(name := name.value) else e
  }

  /** UpdateExerciseAsync: false unless both links hold; a new name over the column limit makes SaveChanges throw. */
  method UpdateExercise(db: Db, userId: Guid, workoutId: Guid, exerciseId: Guid, name: Option<string>) returns (r: Result<bool, Error>)
    requires db.Valid()
    modifies db`exercises
    ensures db.Valid()
    ensures r == Success(false) <==>
      !(WorkoutOwned(old(db.workouts), workoutId, userId) && ExerciseInWorkout(old(db.exercises), exerciseId, workoutId))
    ensures r.Failure? <==>
      WorkoutOwned(old(db.workouts), workoutId, userId) && ExerciseInWorkout(old(db.exercises), exerciseId, workoutId) &&
      !Fits(name, ExerciseNameLength)
    ensures r.Failure? ==> r.error == SaveFailed
    ensures r != Success(true) ==> db.exercises == old(db.exercises)
    ensures r == Success(true) ==>
      db.exercises == SetVal(old(db.exercises), exerciseId, Renamed(Lookup(old(db.exercises), exerciseId).value.val, name))
  {
    if !WorkoutOwned(db.workouts, workoutId, userId) || !ExerciseInWorkout(db.exercises, exerciseId, workoutId) {
      return Success(false);
    }
    if !Fits(name, ExerciseNameLength) {
      return Failure(SaveFailed);
    }
    ReplaceExercise(db, exerciseId, Renamed(Lookup(db.exercises, exerciseId).value.val, name));
    r := Success(true);
  }

  /** The repository's update of an existing exercise that keeps its workout. */
  method ReplaceExercise(db: Db, exerciseId: Guid, v: ExerciseFields)
    requires db.Valid() && HasKey(db.exercises, exerciseId)
    requires v.workoutId == Lookup(db.exercises, exerciseId).value.val.workoutId && Utf16Length(v.name) <= ExerciseNameLength
    modifies db`exercises
    ensures db.Valid()
    ensures db.exercises == SetVal(old(db.exercises), exerciseId, v)
  {
    var before := db.exercises;
    LookupSetVal(before, db.nextId, exerciseId, v);
    db.exercises := SetVal(before, exerciseId, v);
    forall i | 0 <= i < |db.series| ensures HasKey(db.exercises, db.series[i].val.exerciseId) {
      SameIdsHasKey(before, db.exercises, db.series[i].val.exerciseId);
    }
    forall i | 0 <= i < |db.exercises|
      ensures HasKey(db.workouts, db.exercises[i].val.workoutId) && Utf16Length(db.exercises[i].val.name) <= ExerciseNameLength
    {
      if i != Find(before, exerciseId).value {
        assert db.exercises[i] == before[i];
      }
    }
  }

  /** DeleteExerciseAsync: false unless both links hold; then the exercise and (cascade) its series go. */
  method DeleteExercise(db: Db, userId: Guid, workoutId: Guid, exerciseId: Guid) returns (ok: bool)
    requires db.Valid()
    modifies db`exercises, db`series
    ensures db.Valid()
    ensures ok <==> WorkoutOwned(old(db.workouts), workoutId, userId) && ExerciseInWorkout(old(db.exercises), exerciseId, workoutId)
    ensures !ok ==> db.exercises == old(db.exercises) && db.series == old(db.series)
    ensures ok ==>
      var k := Find(old(db.exercises), exerciseId).value;
      db.exercises == old(db.exercises)[..k] + old(db.exercises)[k + 1..] &&
      db.series == SeriesAfterExerciseDelete(old(db.series), {exerciseId})
  {
    if !WorkoutOwned(db.workouts, workoutId, userId) || !ExerciseInWorkout(db.exercises, exerciseId, workoutId) {
      return false;
    }
    RemoveExercise(db, exerciseId);
    ok := true;
  }

  /** The repository's delete of an existing exercise, with the schema's cascade to its series. */
  method RemoveExercise(db: Db, exerciseId: Guid)
    requires db.Valid() && HasKey(db.exercises, exerciseId)
    modifies db`exercises, db`series
    ensures db.Valid()
    ensures var k := Find(old(db.exercises), exerciseId).value;
      db.exercises == old(db.exercises)[..k] + old(db.exercises)[k + 1..] &&
      db.series == SeriesAfterExerciseDelete(old(db.series), {exerciseId})
  {
    var exercises0, series0 := db.exercises, db.series;
    var k := Find(exercises0, exerciseId).value;
    var e, s := RemoveKey(exercises0, exerciseId), SeriesAfterExerciseDelete(series0, {exerciseId});
    assert e == exercises0[..k] + exercises0[k + 1..] by {
      RemoveKeyed(exercises0, db.nextId, k);
    }
    assert ExercisesValid(db.workouts, e, db.nextId) && SeriesValid(e, s, db.nextId) by {
      ExerciseCascadeValid(db.workouts, exercises0, series0, exerciseId, db.nextId);
    }
    db.exercises, db.series := e, s;
  }

  lemma ExerciseCascadeValid(workouts: Table<WorkoutFields>, exercises: Table<ExerciseFields>,
                             series: Table<SeriesFields>, exerciseId: Guid, n: nat)
    requires ExercisesValid(workouts, exercises, n) && SeriesValid(exercises, series, n)
    ensures var e := RemoveKey(exercises, exerciseId);
      ExercisesValid(workouts, e, n) && SeriesValid(e, SeriesAfterExerciseDelete(series, {exerciseId}), n)
  {
    var keep := (x: Row<ExerciseFields>) => x.id != exerciseId;
    var e := RemoveKey(exercises, exerciseId);
    var s := SeriesAfterExerciseDelete(series, {exerciseId});
    WhereKeyed(exercises, keep, n);
    WhereKeyed(series, NotUnderExercises({exerciseId}), n);
    WhereAllHold(exercises, keep,
      (x: Row<ExerciseFields>) => HasKey(workouts, x.val.workoutId) && Utf16Length(x.val.name) <= ExerciseNameLength);
    forall i | 0 <= i < |s| ensures HasKey(e, s[i].val.exerciseId) {
      var j :| 0 <= j < |series| && series[j] == s[i];
      HasKeyWhere(exercises, keep, s[i].val.exerciseId);
    }
  }

  /** GetAllExercisesForWorkoutAsync: the workout's exercises, once the caller owns it. */
  function GetAllExercisesForWorkout(workouts: Table<WorkoutFields>, exercises: Table<ExerciseFields>,
                                     userId: Guid, workoutId: Guid): (r: Result<Table<ExerciseFields>, Error>)
    ensures r.Failure? <==> !WorkoutOwned(workouts, workoutId, userId)
    ensures r.Failure? ==> r.error == ListDenied
    ensures r.Success? ==>
      (forall i :: 0 <= i < |r.value| ==> r.value[i] in exercises && r.value[i].val.workoutId == workoutId) &&
      (forall i :: 0 <= i < |exercises| && exercises[i].val.workoutId == workoutId ==> exercises[i] in r.value)
  {
    if !WorkoutOwned(workouts, workoutId, userId) then Failure(ListDenied)
    else Success(Where(exercises, UnderWorkout(workoutId)))
  }

  /** GetExerciseByIdAsync: the exercise, or null when either link fails. */
  function GetExerciseById(workouts: Table<WorkoutFields>, exercises: Table<ExerciseFields>,
                           userId: Guid, workoutId: Guid, exerciseId: Guid): (r: Option<Row<ExerciseFields>>)
    ensures r.Some? <==> WorkoutOwned(workouts, workoutId, userId) && ExerciseInWorkout(exercises, exerciseId, workoutId)
    ensures r.Some? ==> r.value in exercises && r.value.id == exerciseId && r.value.val.workoutId == workoutId
  {
    if !WorkoutOwned(workouts, workoutId, userId) || !ExerciseInWorkout(exercises, exerciseId, workoutId) then None
    else Lookup(exercises, exerciseId)
  }
}
