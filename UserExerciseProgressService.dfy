/** UserExerciseProgressService: one progress record per (subscription,
    template exercise) pair, holding four set counts, a completed flag and a
    completion date. The clock is a parameter. */
module UserExerciseProgressService {
  import opened Guids
  import opened Wrappers
  import opened Errors
  import opened Entities
  import opened Tables
  import opened Columns
  import opened TemplateCatalog
  import opened Store

  /** UserExerciseProgressUpdateDto; the mapper copies every one of its members. */
  datatype ProgressUpdate = ProgressUpdate(
    set1Reps: Option<int>,
    set2Reps: Option<int>,
    set3Reps: Option<int>,
    set4Reps: Option<int>,
    workoutCompleted: bool,
    completionDate: Option<DateTime>)

  /** A record is consistent when it carries a completion date exactly when it is completed. */
  predicate CompletionConsistent(p: ProgressFields) {
    p.workoutCompleted <==> p.completionDate.Some?
  }

  /** The counts and completion columns of a record, as a DTO would carry them. */
  function Recorded(p: ProgressFields): ProgressUpdate {
    ProgressUpdate(p.set1Reps, p.set2Reps, p.set3Reps, p.set4Reps, p.workoutCompleted, p.completionDate)
  }

  /** The DTO copied onto a record: every DTO column is overwritten, the two foreign ids are kept. */
  function Applied(p: ProgressFields, d: ProgressUpdate): (r: ProgressFields)
    ensures ProgressPair(Row(0, r)) == ProgressPair(Row(0, p))
    ensures Recorded(r) == d
  {
    p.(set1Reps := d.set1Reps, set2Reps := d.set2Reps, set3Reps := d.set3Reps, set4Reps := d.set4Reps,
       workoutCompleted := d.workoutCompleted, completionDate := d.completionDate)
  }

  /** Completing stamps the clock, un-completing clears the date; the counts stay. */
  function Marked(p: ProgressFields, completed: bool, now: DateTime): (r: ProgressFields)
    ensures ProgressPair(Row(0, r)) == ProgressPair(Row(0, p))
    ensures r.workoutCompleted == completed && CompletionConsistent(r)
    ensures completed ==> r.completionDate == Some(now)
    ensures (r.set1Reps, r.set2Reps, r.set3Reps, r.set4Reps) == (p.set1Reps, p.set2Reps, p.set3Reps, p.set4Reps)
  {
    p.(workoutCompleted := completed, completionDate := if completed then Some(now) else None)
  }

  /** Every count cleared, not completed, no date. */
  function Cleared(p: ProgressFields): (r: ProgressFields)
    ensures ProgressPair(Row(0, r)) == ProgressPair(Row(0, p))
    ensures Recorded(r) == ProgressUpdate(None, None, None, None, false, None)
    ensures CompletionConsistent(r)
  {
    p.(set1Reps := None, set2Reps := None, set3Reps := None, set4Reps := None,
       workoutCompleted := false, completionDate := None)
  }

  /** Resetting twice is resetting once. */
  lemma ResetIdempotent(p: ProgressFields)
    ensures Cleared(Cleared(p)) == Cleared(p)
  {
  }

  /** Update and Log copy the flag and the date independently, so they can leave a record inconsistent. */
  lemma UpdateMayBreakConsistency(p: ProgressFields)
    ensures !CompletionConsistent(Applied(p, ProgressUpdate(None, None, None, None, true, None)))
  {
  }

  function OfSubscription(subscriptionId: Guid): Row<ProgressFields> -> bool {
    (x: Row<ProgressFields>) => x.val.subscriptionId == subscriptionId
  }

  function ForTemplateExercise(templateExerciseId: Guid): Row<ProgressFields> -> bool {
    (x: Row<ProgressFields>) => x.val.templateExerciseId == templateExerciseId
  }

  /** The subscription's records, then the first of them for the template exercise. */
  function PairRecord(progress: Table<ProgressFields>, subscriptionId: Guid, templateExerciseId: Guid)
    : (r: Option<Row<ProgressFields>>)
    ensures r.None? <==> forall i :: 0 <= i < |progress| ==> ProgressPair(progress[i]) != (subscriptionId, templateExerciseId)
    ensures r.Some? ==> r.value in progress && ProgressPair(r.value) == (subscriptionId, templateExerciseId)
  {
    var matches := Where(Where(progress, OfSubscription(subscriptionId)), ForTemplateExercise(templateExerciseId));
    if matches == [] then None else Some(matches[0])
  }

  /** LogExerciseProgressAsync: find the pair's record and overwrite it, or create it. */
  method LogProgress(db: Db, subscriptionId: Guid, templateExerciseId: Guid, d: ProgressUpdate)
    returns (r: Result<Row<ProgressFields>, Error>)
    requires db.Valid()
    modifies db`progress, db`nextId
    ensures db.Valid()
    ensures !HasKey(old(db.subscriptions), subscriptionId) ==>
      r == Failure(UserWorkoutTemplateNotFoundError(subscriptionId)) &&
      db.progress == old(db.progress) && db.nextId == old(db.nextId)
    ensures HasKey(old(db.subscriptions), subscriptionId) ==>
      match PairRecord(old(db.progress), subscriptionId, templateExerciseId)
      case Some(row) =>
        r == Success(Row(row.id, Applied(row.val, d))) &&
        db.progress == SetVal(old(db.progress), row.id, Applied(row.val, d)) && db.nextId == old(db.nextId)
      case None =>
        if HasKey(old(db.templateExercises), templateExerciseId) then
          r == Success(Row(old(db.nextId), Applied(ProgressFields(subscriptionId, templateExerciseId,
                                                                  None, None, None, None, false, None), d))) &&
          db.progress == old(db.progress) + [r.value] && db.nextId == old(db.nextId) + 1
        else
          r == Failure(SaveFailed) && db.progress == old(db.progress) && db.nextId == old(db.nextId)
  {
    if !HasKey(db.subscriptions, subscriptionId) {
      return Failure(UserWorkoutTemplateNotFoundError(subscriptionId));
    }
    var found := PairRecord(db.progress, subscriptionId, templateExerciseId);
    if found.Some? {
      var row := found.value;
      r := OverwriteRecord(db, row, d);
      return;
    }
    if !HasKey(db.templateExercises, templateExerciseId) {
      return Failure(SaveFailed);
    }
    var v := Applied(ProgressFields(subscriptionId, templateExerciseId, None, None, None, None, false, None), d);
    r := InsertRecord(db, v);
  }

  /** LogExerciseProgressAsync's branch for a pair that already has a record. */
  method OverwriteRecord(db: Db, row: Row<ProgressFields>, d: ProgressUpdate) returns (r: Result<Row<ProgressFields>, Error>)
    requires db.Valid() && row in db.progress
    modifies db`progress
    ensures db.Valid()
    ensures r == Success(Row(row.id, Applied(row.val, d))) && db.progress == SetVal(old(db.progress), row.id, Applied(row.val, d))
  {
    assert Lookup(db.progress, row.id) == Some(row) by {
      var k :| 0 <= k < |db.progress| && db.progress[k] == row;
      FindKeyed(db.progress, db.nextId, k);
    }
    r := UpdateRecord(db, row.id, Applied(row.val, d));
  }

  /** The repository's insert of a record for a fresh pair with existing parents. */
  method InsertRecord(db: Db, v: ProgressFields) returns (r: Result<Row<ProgressFields>, Error>)
    requires db.Valid()
    requires HasKey(db.subscriptions, v.subscriptionId) && HasKey(db.templateExercises, v.templateExerciseId)
    requires forall i :: 0 <= i < |db.progress| ==> ProgressPair(db.progress[i]) != (v.subscriptionId, v.templateExerciseId)
    modifies db`progress, db`nextId
    ensures db.Valid()
    ensures r == Success(Row(old(db.nextId), v))
    ensures db.progress == old(db.progress) + [Row(old(db.nextId), v)] && db.nextId == old(db.nextId) + 1
  {
    var row := Row(db.nextId, v);
    ghost var users, c, subscriptions, progress, workouts, exercises, series :=
      db.users, db.TemplateState(), db.subscriptions, db.progress, db.workouts, db.exercises, db.series;
    ghost var c' := c.(nextId := c.nextId + 1);
    var p := db.progress + [row];
    ProgressInsertValid(users, c, subscriptions, progress, workouts, exercises, series, v, c', p);
    db.progress, db.nextId := p, db.nextId + 1;
    db.ValidFrom(users, c', subscriptions, p, workouts, exercises, series);
    r := Success(row);
  }

  lemma ProgressInsertValid(users: set<Guid>, c: Catalog, subscriptions: Table<SubscriptionFields>,
                            progress: Table<ProgressFields>, workouts: Table<WorkoutFields>,
                            exercises: Table<ExerciseFields>, series: Table<SeriesFields>, v: ProgressFields,
                            c': Catalog, progress': Table<ProgressFields>)
    requires TablesValid(users, c, subscriptions, progress, workouts, exercises, series)
    requires HasKey(subscriptions, v.subscriptionId) && HasKey(c.exercises, v.templateExerciseId)
    requires forall i :: 0 <= i < |progress| ==> ProgressPair(progress[i]) != (v.subscriptionId, v.templateExerciseId)
    requires c' == c.(nextId := c.nextId + 1) && progress' == progress + [Row(c.nextId, v)]
    ensures TablesValid(users, c', subscriptions, progress', workouts, exercises, series)
  {
    TablesGrow(users, c, subscriptions, progress, workouts, exercises, series);
    ProgressAppendValid(subscriptions, c.exercises, progress, c.nextId, v);
  }

  /** A new record for a fresh pair with existing parents keeps the progress table valid. */
  lemma ProgressAppendValid(subscriptions: Table<SubscriptionFields>, templateExercises: Table<TemplateExerciseFields>,
                            progress: Table<ProgressFields>, n: nat, v: ProgressFields)
    requires ProgressValid(subscriptions, templateExercises, progress, n) && n > Empty
    requires HasKey(subscriptions, v.subscriptionId) && HasKey(templateExercises, v.templateExerciseId)
    requires forall i :: 0 <= i < |progress| ==> ProgressPair(progress[i]) != ProgressPair(Row(n, v))
    ensures ProgressValid(subscriptions, templateExercises, progress + [Row(n, v)], n + 1)
  {
    var p := progress + [Row(n, v)];
    KeyedAppend(progress, n, v);
    DistinctByAppend(progress, ProgressPair, Row(n, v));
    forall i | 0 <= i < |p|
      ensures HasKey(subscriptions, p[i].val.subscriptionId) && HasKey(templateExercises, p[i].val.templateExerciseId)
    {
      if i < |progress| {
        assert p[i] == progress[i];
      }
    }
  }

  /** The repository's update of an existing record whose pair is unchanged. */
  method UpdateRecord(db: Db, progressId: Guid, v: ProgressFields) returns (r: Result<Row<ProgressFields>, Error>)
    requires db.Valid() && HasKey(db.progress, progressId)
    requires ProgressPair(Row(progressId, v)) == ProgressPair(Lookup(db.progress, progressId).value)
    modifies db`progress
    ensures db.Valid()
    ensures r == Success(Row(progressId, v)) && db.progress == SetVal(old(db.progress), progressId, v)
  {
    assert TablesValid(db.users, db.TemplateState(), db.subscriptions, SetVal(db.progress, progressId, v),
                       db.workouts, db.exercises, db.series) by {
      ProgressSetValid(db.subscriptions, db.templateExercises, db.progress, db.nextId, progressId, v);
    }
    db.progress := SetVal(db.progress, progressId, v);
    r := Success(Row(progressId, v));
  }

  /** Overwriting a record without touching its pair keeps the progress table valid. */
  lemma ProgressSetValid(subscriptions: Table<SubscriptionFields>, templateExercises: Table<TemplateExerciseFields>,
                         progress: Table<ProgressFields>, n: nat, progressId: Guid, v: ProgressFields)
    requires ProgressValid(subscriptions, templateExercises, progress, n) && HasKey(progress, progressId)
    requires ProgressPair(Row(progressId, v)) == ProgressPair(Lookup(progress, progressId).value)
    ensures ProgressValid(subscriptions, templateExercises, SetVal(progress, progressId, v), n)
  {
    var p := SetVal(progress, progressId, v);
    var k := Find(progress, progressId).value;
    LookupSetVal(progress, n, progressId, v);
    DistinctBySetVal(progress, ProgressPair, progressId, v);
    forall i | 0 <= i < |p|
      ensures HasKey(subscriptions, p[i].val.subscriptionId) && HasKey(templateExercises, p[i].val.templateExerciseId)
    {
      if i != k {
        assert p[i] == progress[i];
      }
    }
  }

  /** UpdateExerciseProgressAsync: the DTO copied onto an existing record. */
  method UpdateProgress(db: Db, progressId: Guid, d: ProgressUpdate) returns (r: Result<Row<ProgressFields>, Error>)
    requires db.Valid()
    modifies db`progress
    ensures db.Valid()
    ensures r.Failure? <==> !HasKey(old(db.progress), progressId)
    ensures r.Failure? ==> r.error == UserExerciseProgressNotFoundError(progressId) && db.progress == old(db.progress)
    ensures r.Success? ==>
      var v := Applied(Lookup(old(db.progress), progressId).value.val, d);
      r.value == Row(progressId, v) && db.progress == SetVal(old(db.progress), progressId, v)
  {
    var found := Lookup(db.progress, progressId);
    if found.None? {
      return Failure(UserExerciseProgressNotFoundError(progressId));
    }
    r := UpdateRecord(db, progressId, Applied(found.value.val, d));
  }

  /** MarkWorkoutCompletedAsync: set the flag and stamp or clear the date. */
  method MarkCompleted(db: Db, progressId: Guid, completed: bool, now: DateTime)
    returns (r: Result<Row<ProgressFields>, Error>)
    requires db.Valid()
    modifies db`progress
    ensures db.Valid()
    ensures r.Failure? <==> !HasKey(old(db.progress), progressId)
    ensures r.Failure? ==> r.error == UserExerciseProgressNotFoundError(progressId) && db.progress == old(db.progress)
    ensures r.Success? ==>
      var v := Marked(Lookup(old(db.progress), progressId).value.val, completed, now);
      r.value == Row(progressId, v) && db.progress == SetVal(old(db.progress), progressId, v)
  {
    var found := Lookup(db.progress, progressId);
    if found.None? {
      return Failure(UserExerciseProgressNotFoundError(progressId));
    }
    r := UpdateRecord(db, progressId, Marked(found.value.val, completed, now));
  }

  /** ResetExerciseProgressAsync: clear every count, the flag and the date. */
  method ResetProgress(db: Db, progressId: Guid) returns (r: Outcome<Error>)
    requires db.Valid()
    modifies db`progress
    ensures db.Valid()
    ensures r.Fail? <==> !HasKey(old(db.progress), progressId)
    ensures r.Fail? ==> r.error == UserExerciseProgressNotFoundError(progressId) && db.progress == old(db.progress)
    ensures r.Pass? ==>
      db.progress == SetVal(old(db.progress), progressId, Cleared(Lookup(old(db.progress), progressId).value.val))
  {
    var found := Lookup(db.progress, progressId);
    if found.None? {
      return Fail(UserExerciseProgressNotFoundError(progressId));
    }
    var _ := UpdateRecord(db, progressId, Cleared(found.value.val));
    r := Pass;
  }

  /** GetUserExerciseProgressByUserWorkoutTemplateIdAsync: the subscription's records (none for an unknown one). */
  function GetProgressBySubscription(progress: Table<ProgressFields>, subscriptionId: Guid): (r: Table<ProgressFields>)
    ensures forall i :: 0 <= i < |r| ==> r[i] in progress && r[i].val.subscriptionId == subscriptionId
    ensures forall i :: 0 <= i < |progress| && progress[i].val.subscriptionId == subscriptionId ==> progress[i] in r
  {
    Where(progress, OfSubscription(subscriptionId))
  }

  /** GetUserExerciseProgressByIdAsync. */
  function GetProgressById(progress: Table<ProgressFields>, progressId: Guid): (r: Result<Row<ProgressFields>, Error>)
    ensures r.Failure? <==> !HasKey(progress, progressId)
    ensures r.Failure? ==> r.error == UserExerciseProgressNotFoundError(progressId)
    ensures r.Success? ==> r.value in progress && r.value.id == progressId
  {
    match Lookup(progress, progressId)
    case None => Failure(UserExerciseProgressNotFoundError(progressId))
    case Some(row) => Success(row)
  }
}
