/** WorkoutService: a user's own workouts. Create stamps the caller as owner;
    update and delete answer false unless the workout exists and belongs to
    the caller; reads filter by owner. */
module WorkoutService {
  import opened Guids
  import opened Wrappers
  import opened Errors
  import opened Entities
  import opened Tables
  import opened Columns
  import opened Ownership
  import opened TemplateCatalog
  import opened Store

  /** WorkoutCreateDto (its nested exercise list is not modelled); a null Notes is stored as null. */
  datatype WorkoutDraft = WorkoutDraft(notes: Option<string>, date: DateTime)

  /** WorkoutUpdateDto: a null Notes leaves the column as it is; Date is always copied. */
  datatype WorkoutPatch = WorkoutPatch(notes: Option<string>, date: DateTime)

  function Patched(w: WorkoutFields, p: WorkoutPatch): (r: WorkoutFields)
    ensures r.userId == w.userId && r.date == p.date
    ensures p.notes.None? ==> r.notes == w.notes
    ensures p.notes.Some? ==> r.notes == p.notes
  {
    w.(notes := if p.notes.Some? then p.notes else w.notes, date := p.date)
  }

  /** CreateWorkoutAsync: the new row carries the caller's id; an unknown user
      violates the UserId foreign key and SaveChanges fails. */
  method CreateWorkout(db: Db, userId: Guid, draft: WorkoutDraft) returns (r: Result<Row<WorkoutFields>, Error>)
    requires db.Valid()
    modifies db`workouts, db`nextId
    ensures db.Valid()
    ensures r.Success? <==> userId in db.users
    ensures r.Success? ==>
      r.value == Row(old(db.nextId), WorkoutFields(userId, draft.notes, draft.date)) &&
      db.workouts == old(db.workouts) + [r.value] && db.nextId == old(db.nextId) + 1
    ensures r.Failure? ==>
      r.error == SaveFailed && db.workouts == old(db.workouts) && db.nextId == old(db.nextId)
  {
    if userId !in db.users {
      return Failure(SaveFailed);
    }
    var row := InsertWorkout(db, WorkoutFields(userId, draft.notes, draft.date));
    r := Success(row);
  }

  /** The repository's Add + SaveChanges of a workout owned by a known user. */
  method InsertWorkout(db: Db, v: WorkoutFields) returns (row: Row<WorkoutFields>)
    requires db.Valid() && v.userId in db.users
    modifies db`workouts, db`nextId
    ensures db.Valid()
    ensures row == Row(old(db.nextId), v) && db.workouts == old(db.workouts) + [row] && db.nextId == old(db.nextId) + 1
  {
    row := Row(db.nextId, v);
    ghost var users, c, subscriptions, progress, workouts, exercises, series :=
      db.users, db.TemplateState(), db.subscriptions, db.progress, db.workouts, db.exercises, db.series;
    var w := db.workouts + [row];
    WorkoutInsertValid(users, c, subscriptions, progress, workouts, exercises, series, v);
    db.workouts, db.nextId := w, db.nextId + 1;
    db.ValidFrom(users, c.(nextId := c.nextId + 1), subscriptions, progress, w, exercises, series);
  }

  /** A new workout owned by a known user keeps the store valid. */
  lemma WorkoutInsertValid(users: set<Guid>, c: Catalog, subscriptions: Table<SubscriptionFields>,
                           progress: Table<ProgressFields>, workouts: Table<WorkoutFields>,
                           exercises: Table<ExerciseFields>, series: Table<SeriesFields>, v: WorkoutFields)
    requires TablesValid(users, c, subscriptions, progress, workouts, exercises, series)
    requires v.userId in users
    ensures TablesValid(users, c.(nextId := c.nextId + 1), subscriptions, progress,
                        workouts + [Row(c.nextId, v)], exercises, series)
  {
    TablesGrow(users, c, subscriptions, progress, workouts, exercises, series);
    KeyedAppend(workouts, c.nextId, v);
    var w := workouts + [Row(c.nextId, v)];
    forall i | 0 <= i < |w| ensures w[i].val.userId in users {
      if i < |workouts| {
        assert w[i] == workouts[i];
      }
    }
    forall i | 0 <= i < |exercises| ensures HasKey(w, exercises[i].val.workoutId) {
      HasKeyExtends(workouts, w, exercises[i].val.workoutId);
    }
  }

  /** UpdateWorkoutAsync. */
  method UpdateWorkout(db: Db, userId: Guid, workoutId: Guid, patch: WorkoutPatch) returns (ok: bool)
    requires db.Valid()
    modifies db`workouts
    ensures db.Valid()
    ensures ok <==> WorkoutOwned(old(db.workouts), workoutId, userId)
    ensures !ok ==> db.workouts == old(db.workouts)
    ensures ok ==> db.workouts == SetVal(old(db.workouts), workoutId, Patched(Lookup(old(db.workouts), workoutId).value.val, patch))
  {
    var workout := Lookup(db.workouts, workoutId);
    if workout.None? || workout.value.val.userId != userId {
      return false;
    }
    var before := db.workouts;
    db.workouts := SetVal(before, workoutId, Patched(workout.value.val, patch));
    LookupSetVal(before, db.nextId, workoutId, Patched(workout.value.val, patch));
    forall i | 0 <= i < |db.exercises| ensures HasKey(db.workouts, db.exercises[i].val.workoutId) {
      SameIdsHasKey(before, db.workouts, db.exercises[i].val.workoutId);
    }
    ok := true;
  }

  /** DeleteWorkoutAsync: the workout goes, and with it (cascade) its exercises and their series. */
  method DeleteWorkout(db: Db, userId: Guid, workoutId: Guid) returns (ok: bool)
    requires db.Valid()
    modifies db`workouts, db`exercises, db`series
    ensures db.Valid()
    ensures ok <==> WorkoutOwned(old(db.workouts), workoutId, userId)
    ensures !ok ==> db.workouts == old(db.workouts) && db.exercises == old(db.exercises) && db.series == old(db.series)
    ensures ok ==>
      var k := Find(old(db.workouts), workoutId).value;
      db.workouts == old(db.workouts)[..k] + old(db.workouts)[k + 1..] &&
      db.exercises == ExercisesAfterWorkoutDelete(old(db.exercises), workoutId) &&
      db.series == SeriesAfterExerciseDelete(old(db.series), ExerciseIdsOf(old(db.exercises), workoutId))
  {
    var workout := Lookup(db.workouts, workoutId);
    if workout.None? || workout.value.val.userId != userId {
      return false;
    }
    RemoveWorkout(db, workoutId);
    ok := true;
  }

  /** The repository's delete of an existing workout, with the schema's cascade. */
  method RemoveWorkout(db: Db, workoutId: Guid)
    requires db.Valid() && HasKey(db.workouts, workoutId)
    modifies db`workouts, db`exercises, db`series
    ensures db.Valid()
    ensures var k := Find(old(db.workouts), workoutId).value;
      db.workouts == old(db.workouts)[..k] + old(db.workouts)[k + 1..] &&
      db.exercises == ExercisesAfterWorkoutDelete(old(db.exercises), workoutId) &&
      db.series == SeriesAfterExerciseDelete(old(db.series), ExerciseIdsOf(old(db.exercises), workoutId))
  {
    ghost var users, c, subscriptions, progress, workouts, exercises, series :=
      db.users, db.TemplateState(), db.subscriptions, db.progress, db.workouts, db.exercises, db.series;
    var w, e, s :=
      RemoveKey(db.workouts, workoutId),
      ExercisesAfterWorkoutDelete(db.exercises, workoutId),
      SeriesAfterExerciseDelete(db.series, ExerciseIdsOf(db.exercises, workoutId));
    RemoveWorkoutValid(users, c, subscriptions, progress, workouts, exercises, series, workoutId);
    db.workouts, db.exercises, db.series := w, e, s;
    db.ValidFrom(users, c, subscriptions, progress, w, e, s);
  }

  lemma RemoveWorkoutValid(users: set<Guid>, c: Catalog, subscriptions: Table<SubscriptionFields>,
                           progress: Table<ProgressFields>, workouts: Table<WorkoutFields>,
                           exercises: Table<ExerciseFields>, series: Table<SeriesFields>, workoutId: Guid)
    requires TablesValid(users, c, subscriptions, progress, workouts, exercises, series) && HasKey(workouts, workoutId)
    ensures TablesValid(users, c, subscriptions, progress, RemoveKey(workouts, workoutId),
      ExercisesAfterWorkoutDelete(exercises, workoutId), SeriesAfterExerciseDelete(series, ExerciseIdsOf(exercises, workoutId)))
    ensures var k := Find(workouts, workoutId).value;
      RemoveKey(workouts, workoutId) == workouts[..k] + workouts[k + 1..]
  {
    RemoveKeyed(workouts, c.nextId, Find(workouts, workoutId).value);
    CascadeValid(users, workouts, exercises, series, workoutId, c.nextId);
  }

  /** Deleting a workout with its cascade keeps the three tables' keys and foreign keys. */
  lemma CascadeValid(users: set<Guid>, workouts: Table<WorkoutFields>, exercises: Table<ExerciseFields>,
                     series: Table<SeriesFields>, workoutId: Guid, n: nat)
    requires WorkoutsValid(users, workouts, n) && ExercisesValid(workouts, exercises, n) && SeriesValid(exercises, series, n)
    ensures var w := RemoveKey(workouts, workoutId);
      var e := ExercisesAfterWorkoutDelete(exercises, workoutId);
      WorkoutsValid(users, w, n) && ExercisesValid(w, e, n) &&
      SeriesValid(e, SeriesAfterExerciseDelete(series, ExerciseIdsOf(exercises, workoutId)), n)
  {
    var w := RemoveKey(workouts, workoutId);
    var e := ExercisesAfterWorkoutDelete(exercises, workoutId);
    var gone := ExerciseIdsOf(exercises, workoutId);
    var s := SeriesAfterExerciseDelete(series, gone);
    WhereKeyed(workouts, (x: Row<WorkoutFields>) => x.id != workoutId, n);
    WhereKeyed(exercises, NotUnderWorkout(workoutId), n);
    WhereKeyed(series, NotUnderExercises(gone), n);
    forall i | 0 <= i < |e| ensures HasKey(w, e[i].val.workoutId) {
      var j :| 0 <= j < |exercises| && exercises[j] == e[i];
      HasKeyWhere(workouts, (x: Row<WorkoutFields>) => x.id != workoutId, e[i].val.workoutId);
    }
    forall i | 0 <= i < |s| ensures HasKey(e, s[i].val.exerciseId) {
      var j :| 0 <= j < |series| && series[j] == s[i];
      var x := Lookup(exercises, s[i].val.exerciseId).value;
      assert exercises[Find(exercises, s[i].val.exerciseId).value] == x;
      HasKeyWhere(exercises, NotUnderWorkout(workoutId), s[i].val.exerciseId);
    }
  }

  /** GetAllWorkoutsForUserAsync: exactly the caller's workouts (listed in insertion order). */
  function GetAllWorkoutsForUser(workouts: Table<WorkoutFields>, userId: Guid): (r: Table<WorkoutFields>)
    ensures forall i :: 0 <= i < |r| ==> r[i] in workouts && r[i].val.userId == userId
    ensures forall i :: 0 <= i < |workouts| && workouts[i].val.userId == userId ==> workouts[i] in r
  {
    Where(workouts, OfUser(userId))
  }

  /** GetWorkoutByIdForUserAsync: the workout, or null when it is missing or someone else's. */
  function GetWorkoutByIdForUser(workouts: Table<WorkoutFields>, workoutId: Guid, userId: Guid): (r: Option<Row<WorkoutFields>>)
    ensures r.Some? <==> WorkoutOwned(workouts, workoutId, userId)
    ensures r.Some? ==> r.value in workouts && r.value.id == workoutId && r.value.val.userId == userId
  {
    var w := Lookup(workouts, workoutId);
    if w.Some? && w.value.val.userId == userId then w else None
  }
}
