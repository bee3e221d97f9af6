/** CreateWorkoutTemplateFromJsonFileAsync, as values: the rows an import
    writes (each insert takes the next fresh id, children carry the id just
    given to their parent), the importer's three nested loops as folds over
    the document, and what the imported template reads back as. */
module TemplateImport {
  import opened Guids
  import opened Wrappers
  import opened Errors
  import opened Entities
  import opened Tables
  import opened TemplateCatalog
  import opened TemplateDocument

  // One insert each; the new row's id is the catalog's next fresh id.

  function InsertTemplate(c: Catalog, h: TemplateFields): Catalog {
    c.(templates := c.templates + [Row(c.nextId, h)], nextId := c.nextId + 1)
  }

  function InsertWeek(c: Catalog, templateId: Guid, weekNumber: int): Catalog {
    c.(weeks := c.weeks + [Row(c.nextId, WeekFields(templateId, weekNumber))], nextId := c.nextId + 1)
  }

  function InsertWorkout(c: Catalog, weekId: Guid, name: string): Catalog {
    c.(workouts := c.workouts + [Row(c.nextId, TemplateWorkoutFields(weekId, name))], nextId := c.nextId + 1)
  }

  function InsertExercise(c: Catalog, workoutId: Guid, x: ExerciseContent): Catalog {
    c.(exercises := c.exercises + [Row(c.nextId, TemplateExerciseFields(workoutId, x.exerciseName, x.prescription))], nextId := c.nextId + 1)
  }

  // Writing parsed content, depth first in document order.

  function AddExercises(c: Catalog, workoutId: Guid, xs: seq<ExerciseContent>): Catalog
    decreases |xs|
  {
    if xs == [] then c
    else AddExercises(InsertExercise(c, workoutId, xs[0]), workoutId, xs[1..])
  }

  function AddWorkouts(c: Catalog, weekId: Guid, ws: seq<WorkoutContent>): Catalog
    decreases |ws|
  {
    if ws == [] then c
    else
      var c1 := InsertWorkout(c, weekId, ws[0].name);
      AddWorkouts(AddExercises(c1, c.nextId, ws[0].exercises), weekId, ws[1..])
  }

  function AddWeeks(c: Catalog, templateId: Guid, wks: seq<WeekContent>): Catalog
    decreases |wks|
  {
    if wks == [] then c
    else
      var c1 := InsertWeek(c, templateId, wks[0].weekNumber);
      AddWeeks(AddWorkouts(c1, c.nextId, wks[0].workouts), templateId, wks[1..])
  }

  /** The catalog once a template's content is written; the template's id is `c.nextId`. */
  function Materialize(c: Catalog, t: TemplateContent): Catalog {
    AddWeeks(InsertTemplate(c, t.header), c.nextId, t.weeks)
  }

  // The importer's loops: read an element, insert its row, descend into its
  // children, and stop at the first exception.

  function ImportExercises(c: Catalog, workoutId: Guid, items: seq<Json>): Result<Catalog, Error>
    decreases |items|
  {
    if items == [] then Success(c)
    else
      var x :- ParseExercise(items[0]);
      ImportExercises(InsertExercise(c, workoutId, x), workoutId, items[1..])
  }

  function ImportWorkouts(c: Catalog, weekId: Guid, items: seq<Json>): Result<Catalog, Error>
    decreases |items|
  {
    if items == [] then Success(c)
    else
      var name :- ParseWorkoutName(items[0]);
      var exercises :- ReadArray(items[0], "TemplateExercises");
      var c2 :- ImportExercises(InsertWorkout(c, weekId, name), c.nextId, exercises);
      ImportWorkouts(c2, weekId, items[1..])
  }

  function ImportWeeks(c: Catalog, templateId: Guid, items: seq<Json>): Result<Catalog, Error>
    decreases |items|
  {
    if items == [] then Success(c)
    else
      var n :- ReadInt32(items[0], "WeekNumber");
      var workouts :- ReadArray(items[0], "TemplateWorkouts");
      var c2 :- ImportWorkouts(InsertWeek(c, templateId, n), c.nextId, workouts);
      ImportWeeks(c2, templateId, items[1..])
  }

  /** The transaction's body, given the "WorkoutTemplate" element. */
  function ImportTemplate(c: Catalog, root: Json): Result<Catalog, Error> {
    var h :- ParseHeader(root);
    var weeks :- ReadArray(root, "TemplateWeeks");
    ImportWeeks(InsertTemplate(c, h), c.nextId, weeks)
  }

  // The folds read exactly what the parser reads and write exactly what
  // Materialize writes.

  lemma {:induction false} ImportExercisesSplit(c: Catalog, workoutId: Guid, items: seq<Json>)
    ensures ImportExercises(c, workoutId, items) ==
      match ParseExercises(items)
      case Failure(e) => Failure(e)
      case Success(xs) => Success(AddExercises(c, workoutId, xs))
    decreases |items|
  {
    if items != [] {
      var x := ParseExercise(items[0]);
      if x.Success? {
        ImportExercisesSplit(InsertExercise(c, workoutId, x.value), workoutId, items[1..]);
        var rest := ParseExercises(items[1..]);
        if rest.Success? {
          var xs := [x.value] + rest.value;
          assert xs[0] == x.value && xs[1..] == rest.value;
        }
      }
    }
  }

  lemma {:induction false} ImportWorkoutsSplit(c: Catalog, weekId: Guid, items: seq<Json>)
    ensures ImportWorkouts(c, weekId, items) ==
      match ParseWorkouts(items)
      case Failure(e) => Failure(e)
      case Success(ws) => Success(AddWorkouts(c, weekId, ws))
    decreases |items|
  {
    if items != [] {
      var name := ParseWorkoutName(items[0]);
      var exercises := ReadArray(items[0], "TemplateExercises");
      if name.Success? && exercises.Success? {
        var c1 := InsertWorkout(c, weekId, name.value);
        ImportExercisesSplit(c1, c.nextId, exercises.value);
        var xs := ParseExercises(exercises.value);
        if xs.Success? {
          var c2 := AddExercises(c1, c.nextId, xs.value);
          ImportWorkoutsSplit(c2, weekId, items[1..]);
          var w := WorkoutContent(name.value, xs.value);
          var rest := ParseWorkouts(items[1..]);
          if rest.Success? {
            var ws := [w] + rest.value;
            assert ws[0] == w && ws[1..] == rest.value;
          }
        }
      }
    }
  }

  lemma {:induction false} ImportWeeksSplit(c: Catalog, templateId: Guid, items: seq<Json>)
    ensures ImportWeeks(c, templateId, items) ==
      match ParseWeeks(items)
      case Failure(e) => Failure(e)
      case Success(wks) => Success(AddWeeks(c, templateId, wks))
    decreases |items|
  {
    if items != [] {
      var n := ReadInt32(items[0], "WeekNumber");
      var workouts := ReadArray(items[0], "TemplateWorkouts");
      if n.Success? && workouts.Success? {
        var c1 := InsertWeek(c, templateId, n.value);
        ImportWorkoutsSplit(c1, c.nextId, workouts.value);
        var ws := ParseWorkouts(workouts.value);
        if ws.Success? {
          var c2 := AddWorkouts(c1, c.nextId, ws.value);
          ImportWeeksSplit(c2, templateId, items[1..]);
          var w := WeekContent(n.value, ws.value);
          var rest := ParseWeeks(items[1..]);
          if rest.Success? {
            var wks := [w] + rest.value;
            assert wks[0] == w && wks[1..] == rest.value;
          }
        }
      }
    }
  }

  /** An import succeeds exactly when the document parses, and then writes
      exactly the parsed content; otherwise it fails with the parser's error. */
  lemma ImportIsParseThenMaterialize(c: Catalog, root: Json)
    ensures ImportTemplate(c, root) ==
      match ParseTemplate(root)
      case Failure(e) => Failure(e)
      case Success(t) => Success(Materialize(c, t))
  {
    var h := ParseHeader(root);
    var weeks := ReadArray(root, "TemplateWeeks");
    if h.Success? && weeks.Success? {
      ImportWeeksSplit(InsertTemplate(c, h.value), c.nextId, weeks.value);
    }
  }

  // What an import leaves behind: the rows each level appends, where their
  // parents point, and what the new template reads back as.

  function ExerciseRows(n: Guid, workoutId: Guid, xs: seq<ExerciseContent>): Table<TemplateExerciseFields> {
    seq(|xs|, k requires 0 <= k < |xs| => Row(n + k, TemplateExerciseFields(workoutId, xs[k].exerciseName, xs[k].prescription)))
  }

  lemma {:induction false} AddExercisesShape(c: Catalog, workoutId: Guid, xs: seq<ExerciseContent>)
    ensures AddExercises(c, workoutId, xs) ==
      c.(exercises := c.exercises + ExerciseRows(c.nextId, workoutId, xs), nextId := c.nextId + |xs|)
    decreases |xs|
  {
    if xs != [] {
      var c1 := InsertExercise(c, workoutId, xs[0]);
      AddExercisesShape(c1, workoutId, xs[1..]);
      var rows := ExerciseRows(c.nextId, workoutId, xs);
      var tail := ExerciseRows(c1.nextId, workoutId, xs[1..]);
      assert rows == [rows[0]] + tail;
      assert c1.exercises + tail == c.exercises + rows;
    }
  }

  lemma ExerciseRowsContent(n: Guid, workoutId: Guid, xs: seq<ExerciseContent>)
    ensures ExerciseContents(ExerciseRows(n, workoutId, xs)) == xs
  {
  }

  lemma WhereAppendNone<T>(a: Table<T>, b: Table<T>, keep: Row<T> -> bool)
    requires forall i :: 0 <= i < |b| ==> !keep(b[i])
    ensures Where(a + b, keep) == Where(a, keep)
  {
    WhereAppend(a, b, keep);
    WhereNone(b, keep);
  }

  lemma WhereNoneAppendAll<T>(a: Table<T>, b: Table<T>, keep: Row<T> -> bool)
    requires forall i :: 0 <= i < |a| ==> !keep(a[i])
    requires forall i :: 0 <= i < |b| ==> keep(b[i])
    ensures Where(a + b, keep) == b
  {
    WhereAppend(a, b, keep);
    WhereNone(a, keep);
    WhereAll(b, keep);
  }

  lemma WorkoutViewsCons(c: Catalog, a: Row<TemplateWorkoutFields>, b: Table<TemplateWorkoutFields>)
    ensures WorkoutViews(c, [a] + b) == [WorkoutView(a, ExercisesOf(c, a.id))] + WorkoutViews(c, b)
  {
  }

  lemma WeekViewsCons(c: Catalog, a: Row<WeekFields>, b: Table<WeekFields>)
    ensures WeekViews(c, [a] + b) == [WeekView(a, WorkoutViews(c, WorkoutRowsOf(c, a.id)))] + WeekViews(c, b)
  {
  }

  lemma WorkoutContentsCons(v: WorkoutView, vs: seq<WorkoutView>)
    ensures WorkoutContents([v] + vs) == [WorkoutContent(v.workout.val.name, ExerciseContents(v.exercises))] + WorkoutContents(vs)
  {
  }

  lemma WeekContentsCons(v: WeekView, vs: seq<WeekView>)
    ensures WeekContents([v] + vs) == [WeekContent(v.week.val.weekNumber, WorkoutContents(v.workouts))] + WeekContents(vs)
  {
  }

  /** Exercises appended under parents at or above `m` do not change the
      exercise lists of workouts below `m`. */
  lemma WorkoutViewsFrame(c: Catalog, r: Catalog, m: Guid, rows: Table<TemplateWorkoutFields>)
    requires |c.exercises| <= |r.exercises| && r.exercises[..|c.exercises|] == c.exercises
    requires forall i :: |c.exercises| <= i < |r.exercises| ==> m <= r.exercises[i].val.workoutId
    requires forall j :: 0 <= j < |rows| ==> rows[j].id < m
    ensures WorkoutViews(r, rows) == WorkoutViews(c, rows)
  {
    var tail := r.exercises[|c.exercises|..];
    assert r.exercises == c.exercises + tail;
    forall j | 0 <= j < |rows| ensures ExercisesOf(r, rows[j].id) == ExercisesOf(c, rows[j].id) {
      WhereAppendNone(c.exercises, tail, InWorkout(rows[j].id));
    }
  }
  /** A week's workouts, with their exercises, read the same once rows with larger parents are appended. */
  lemma WeekWorkoutsFrame(c: Catalog, r: Catalog, m: Guid, weekId: Guid)
    requires Keyed(c.workouts, m) && weekId < m
    requires Extends(c.workouts, r.workouts) && Extends(c.exercises, r.exercises)
    requires forall i :: |c.workouts| <= i < |r.workouts| ==> m <= r.workouts[i].val.weekId
    requires forall i :: |c.exercises| <= i < |r.exercises| ==> m <= r.exercises[i].val.workoutId
    ensures WorkoutViews(r, WorkoutRowsOf(r, weekId)) == WorkoutViews(c, WorkoutRowsOf(c, weekId))
  {
    var tail := r.workouts[|c.workouts|..];
    assert r.workouts == c.workouts + tail;
    WhereAppendNone(c.workouts, tail, InWeek(weekId));
    WorkoutViewsFrame(c, r, m, WorkoutRowsOf(c, weekId));
  }


  lemma ParentsBelowInsertWorkout(c: Catalog, weekId: Guid, name: string)
    requires ParentsBelow(c) && weekId < c.nextId
    ensures ParentsBelow(InsertWorkout(c, weekId, name))
  {
  }

  lemma ParentsBelowAddExercises(c: Catalog, workoutId: Guid, xs: seq<ExerciseContent>)
    requires ParentsBelow(c) && workoutId < c.nextId
    ensures ParentsBelow(AddExercises(c, workoutId, xs))
  {
    AddExercisesShape(c, workoutId, xs);
  }

  /** One workout step: its row, then its exercises. */
  lemma WorkoutStep(c: Catalog, weekId: Guid, w: WorkoutContent)
    requires ParentsBelow(c) && weekId < c.nextId
    ensures var c2 := AddExercises(InsertWorkout(c, weekId, w.name), c.nextId, w.exercises);
      c2.templates == c.templates && c2.weeks == c.weeks && c2.nextId == c.nextId + 1 + |w.exercises| &&
      c2.workouts == c.workouts + [Row(c.nextId, TemplateWorkoutFields(weekId, w.name))] &&
      c2.exercises == c.exercises + ExerciseRows(c.nextId + 1, c.nextId, w.exercises) &&
      ParentsBelow(c2)
  {
    var c1 := InsertWorkout(c, weekId, w.name);
    ParentsBelowInsertWorkout(c, weekId, w.name);
    AddExercisesShape(c1, c.nextId, w.exercises);
    ParentsBelowAddExercises(c1, c.nextId, w.exercises);
  }

  /** The rows AddWorkouts appends: workouts under `weekId`, exercises under those new workouts. */
  lemma {:induction false} AddWorkoutsRows(c: Catalog, weekId: Guid, ws: seq<WorkoutContent>)
    requires ParentsBelow(c) && weekId < c.nextId
    ensures var r := AddWorkouts(c, weekId, ws);
      r.templates == c.templates && r.weeks == c.weeks && c.nextId <= r.nextId && ParentsBelow(r) &&
      Extends(c.workouts, r.workouts) && Extends(c.exercises, r.exercises) &&
      (forall i :: |c.workouts| <= i < |r.workouts| ==>
         r.workouts[i].val.weekId == weekId && c.nextId <= r.workouts[i].id < r.nextId) &&
      (forall i :: |c.exercises| <= i < |r.exercises| ==> c.nextId <= r.exercises[i].val.workoutId)
    decreases |ws|
  {
    if ws != [] {
      var n := c.nextId;
      var row := Row(n, TemplateWorkoutFields(weekId, ws[0].name));
      var added := ExerciseRows(n + 1, n, ws[0].exercises);
      WorkoutStep(c, weekId, ws[0]);
      var c2 := AddExercises(InsertWorkout(c, weekId, ws[0].name), n, ws[0].exercises);
      AddWorkoutsRows(c2, weekId, ws[1..]);
      var r := AddWorkouts(c2, weekId, ws[1..]);
      assert r == AddWorkouts(c, weekId, ws);
      assert Extends(c.workouts, c2.workouts);
      ExtendsTrans(c.workouts, c2.workouts, r.workouts);
      assert Extends(c.exercises, c2.exercises);
      ExtendsTrans(c.exercises, c2.exercises, r.exercises);
      forall i | |c.exercises| <= i < |r.exercises| ensures n <= r.exercises[i].val.workoutId {
        if i < |c2.exercises| {
          assert r.exercises[i] == c2.exercises[i] == added[i - |c.exercises|];
        }
      }
      forall i | |c.workouts| <= i < |r.workouts|
        ensures r.workouts[i].val.weekId == weekId && n <= r.workouts[i].id < r.nextId
      {
        if i == |c.workouts| {
          assert r.workouts[i] == c2.workouts[i] == row;
        }
      }
    }
  }

  /** A new workout's exercises are exactly the rows written right after it. */
  lemma NewWorkoutExercises(c: Catalog, c2: Catalog, r: Catalog, n: Guid, added: Table<TemplateExerciseFields>)
    requires c2.exercises == c.exercises + added
    requires Extends(c2.exercises, r.exercises)
    requires forall i :: |c2.exercises| <= i < |r.exercises| ==> n < r.exercises[i].val.workoutId
    requires forall i :: 0 <= i < |c.exercises| ==> c.exercises[i].val.workoutId < n
    requires forall i :: 0 <= i < |added| ==> added[i].val.workoutId == n
    ensures ExercisesOf(r, n) == added
  {
    var exTail := r.exercises[|c2.exercises|..];
    assert r.exercises == c2.exercises + exTail;
    WhereAppendNone(c2.exercises, exTail, InWorkout(n));
    WhereNoneAppendAll(c.exercises, added, InWorkout(n));
  }

  lemma WorkoutsReadBack(r: Catalog, row: Row<TemplateWorkoutFields>, later: Table<TemplateWorkoutFields>,
                         xs: seq<ExerciseContent>, rest: seq<WorkoutContent>)
    requires ExerciseContents(ExercisesOf(r, row.id)) == xs
    requires WorkoutContents(WorkoutViews(r, later)) == rest
    ensures WorkoutContents(WorkoutViews(r, [row] + later)) == [WorkoutContent(row.val.name, xs)] + rest
  {
    WorkoutViewsCons(r, row, later);
    WorkoutContentsCons(WorkoutView(row, ExercisesOf(r, row.id)), WorkoutViews(r, later));
  }

  /** One step of the read-back: the workout written first, then the ones after it. */
  lemma WorkoutContentStep(c: Catalog, c2: Catalog, r: Catalog, weekId: Guid, w: WorkoutContent, rest: seq<WorkoutContent>)
    requires forall i :: 0 <= i < |c.exercises| ==> c.exercises[i].val.workoutId < c.nextId
    requires c2.workouts == c.workouts + [Row(c.nextId, TemplateWorkoutFields(weekId, w.name))]
    requires c2.exercises == c.exercises + ExerciseRows(c.nextId + 1, c.nextId, w.exercises)
    requires Extends(c2.workouts, r.workouts) && Extends(c2.exercises, r.exercises)
    requires forall i :: |c2.exercises| <= i < |r.exercises| ==> c.nextId < r.exercises[i].val.workoutId
    requires WorkoutContents(WorkoutViews(r, r.workouts[|c2.workouts|..])) == rest
    ensures |c.workouts| <= |r.workouts|
    ensures WorkoutContents(WorkoutViews(r, r.workouts[|c.workouts|..])) == [w] + rest
  {
    var n := c.nextId;
    var row := Row(n, TemplateWorkoutFields(weekId, w.name));
    var added := ExerciseRows(n + 1, n, w.exercises);
    var later := r.workouts[|c2.workouts|..];
    assert r.workouts[|c.workouts|..] == [row] + later by {
      assert r.workouts[..|c2.workouts|] == c2.workouts;
    }
    NewWorkoutExercises(c, c2, r, n, added);
    ExerciseRowsContent(n + 1, n, w.exercises);
    WorkoutsReadBack(r, row, later, w.exercises, rest);
  }

  /** The workouts AddWorkouts appends read back, with their exercises, as the content written. */
  lemma {:induction false} AddWorkoutsContent(c: Catalog, weekId: Guid, ws: seq<WorkoutContent>)
    requires ParentsBelow(c) && weekId < c.nextId
    ensures var r := AddWorkouts(c, weekId, ws);
      |c.workouts| <= |r.workouts| &&
      WorkoutContents(WorkoutViews(r, r.workouts[|c.workouts|..])) == ws
    decreases |ws|
  {
    if ws == [] {
      assert AddWorkouts(c, weekId, ws).workouts[|c.workouts|..] == [];
    } else {
      var n := c.nextId;
      WorkoutStep(c, weekId, ws[0]);
      var c2 := AddExercises(InsertWorkout(c, weekId, ws[0].name), n, ws[0].exercises);
      AddWorkoutsRows(c2, weekId, ws[1..]);
      AddWorkoutsContent(c2, weekId, ws[1..]);
      var r := AddWorkouts(c2, weekId, ws[1..]);
      WorkoutContentStep(c, c2, r, weekId, ws[0], ws[1..]);
      assert ws == [ws[0]] + ws[1..];
    }
  }

  lemma ParentsBelowInsertWeek(c: Catalog, templateId: Guid, weekNumber: int)
    requires ParentsBelow(c) && templateId < c.nextId
    ensures ParentsBelow(InsertWeek(c, templateId, weekNumber))
  {
  }

  /** One week step: its row, then its workouts with their exercises. */
  lemma WeekStep(c: Catalog, templateId: Guid, wk: WeekContent)
    requires ParentsBelow(c) && templateId < c.nextId
    ensures var c2 := AddWorkouts(InsertWeek(c, templateId, wk.weekNumber), c.nextId, wk.workouts);
      c2.templates == c.templates && c.nextId < c2.nextId && ParentsBelow(c2) &&
      c2.weeks == c.weeks + [Row(c.nextId, WeekFields(templateId, wk.weekNumber))] &&
      Extends(c.workouts, c2.workouts) && Extends(c.exercises, c2.exercises) &&
      (forall i :: |c.workouts| <= i < |c2.workouts| ==>
         c2.workouts[i].val.weekId == c.nextId && c.nextId < c2.workouts[i].id < c2.nextId) &&
      (forall i :: |c.exercises| <= i < |c2.exercises| ==> c.nextId < c2.exercises[i].val.workoutId) &&
      WorkoutContents(WorkoutViews(c2, c2.workouts[|c.workouts|..])) == wk.workouts
  {
    var c1 := InsertWeek(c, templateId, wk.weekNumber);
    ParentsBelowInsertWeek(c, templateId, wk.weekNumber);
    AddWorkoutsRows(c1, c.nextId, wk.workouts);
    AddWorkoutsContent(c1, c.nextId, wk.workouts);
  }

  /** The rows AddWeeks appends: weeks under `templateId`, and everything below them under new parents. */
  lemma {:induction false} AddWeeksRows(c: Catalog, templateId: Guid, wks: seq<WeekContent>)
    requires ParentsBelow(c) && templateId < c.nextId
    ensures var r := AddWeeks(c, templateId, wks);
      r.templates == c.templates && c.nextId <= r.nextId && ParentsBelow(r) &&
      Extends(c.weeks, r.weeks) && Extends(c.workouts, r.workouts) && Extends(c.exercises, r.exercises) &&
      (forall i :: |c.weeks| <= i < |r.weeks| ==>
         r.weeks[i].val.templateId == templateId && c.nextId <= r.weeks[i].id < r.nextId) &&
      (forall i :: |c.workouts| <= i < |r.workouts| ==> c.nextId <= r.workouts[i].val.weekId) &&
      (forall i :: |c.exercises| <= i < |r.exercises| ==> c.nextId <= r.exercises[i].val.workoutId)
    decreases |wks|
  {
    if wks != [] {
      var n := c.nextId;
      var row := Row(n, WeekFields(templateId, wks[0].weekNumber));
      WeekStep(c, templateId, wks[0]);
      var c2 := AddWorkouts(InsertWeek(c, templateId, wks[0].weekNumber), n, wks[0].workouts);
      AddWeeksRows(c2, templateId, wks[1..]);
      var r := AddWeeks(c2, templateId, wks[1..]);
      assert r == AddWeeks(c, templateId, wks);
      assert Extends(c.weeks, c2.weeks);
      ExtendsTrans(c.weeks, c2.weeks, r.weeks);
      ExtendsTrans(c.workouts, c2.workouts, r.workouts);
      ExtendsTrans(c.exercises, c2.exercises, r.exercises);
      forall i | |c.weeks| <= i < |r.weeks|
        ensures r.weeks[i].val.templateId == templateId && n <= r.weeks[i].id < r.nextId
      {
        if i == |c.weeks| {
          assert r.weeks[i] == c2.weeks[i] == row;
        }
      }
      forall i | |c.workouts| <= i < |r.workouts| ensures n <= r.workouts[i].val.weekId {
        if i < |c2.workouts| {
          assert r.workouts[i] == c2.workouts[i];
        }
      }
      forall i | |c.exercises| <= i < |r.exercises| ensures n <= r.exercises[i].val.workoutId {
        if i < |c2.exercises| {
          assert r.exercises[i] == c2.exercises[i];
        }
      }
    }
  }

  /** A new week's workouts are exactly the rows written under it. */
  lemma NewWeekWorkouts(c: Catalog, c2: Catalog, r: Catalog, n: Guid)
    requires forall i :: 0 <= i < |c.workouts| ==> c.workouts[i].val.weekId < n
    requires Extends(c.workouts, c2.workouts) && Extends(c2.workouts, r.workouts)
    requires forall i :: |c.workouts| <= i < |c2.workouts| ==> c2.workouts[i].val.weekId == n
    requires forall i :: |c2.workouts| <= i < |r.workouts| ==> n < r.workouts[i].val.weekId
    ensures WorkoutRowsOf(r, n) == c2.workouts[|c.workouts|..]
  {
    var mine := c2.workouts[|c.workouts|..];
    var tail := r.workouts[|c2.workouts|..];
    assert c2.workouts == c.workouts + mine;
    assert r.workouts == c2.workouts + tail;
    WhereAppendNone(c2.workouts, tail, InWeek(n));
    WhereNoneAppendAll(c.workouts, mine, InWeek(n));
  }

  lemma WeeksReadBack(r: Catalog, row: Row<WeekFields>, later: Table<WeekFields>,
                      ws: seq<WorkoutContent>, rest: seq<WeekContent>)
    requires WorkoutContents(WorkoutViews(r, WorkoutRowsOf(r, row.id))) == ws
    requires WeekContents(WeekViews(r, later)) == rest
    ensures WeekContents(WeekViews(r, [row] + later)) == [WeekContent(row.val.weekNumber, ws)] + rest
  {
    WeekViewsCons(r, row, later);
    WeekContentsCons(WeekView(row, WorkoutViews(r, WorkoutRowsOf(r, row.id))), WeekViews(r, later));
  }

  lemma WeekContentStep(c: Catalog, c2: Catalog, r: Catalog, templateId: Guid, wk: WeekContent, rest: seq<WeekContent>)
    requires forall i :: 0 <= i < |c.workouts| ==> c.workouts[i].val.weekId < c.nextId
    requires c2.weeks == c.weeks + [Row(c.nextId, WeekFields(templateId, wk.weekNumber))]
    requires Extends(c.workouts, c2.workouts)
    requires forall i :: |c.workouts| <= i < |c2.workouts| ==>
               c2.workouts[i].val.weekId == c.nextId && c2.workouts[i].id < c2.nextId
    requires WorkoutContents(WorkoutViews(c2, c2.workouts[|c.workouts|..])) == wk.workouts
    requires Extends(c2.weeks, r.weeks) && Extends(c2.workouts, r.workouts) && Extends(c2.exercises, r.exercises)
    requires c.nextId < c2.nextId
    requires forall i :: |c2.workouts| <= i < |r.workouts| ==> c2.nextId <= r.workouts[i].val.weekId
    requires forall i :: |c2.exercises| <= i < |r.exercises| ==> c2.nextId <= r.exercises[i].val.workoutId
    requires WeekContents(WeekViews(r, r.weeks[|c2.weeks|..])) == rest
    ensures |c.weeks| <= |r.weeks|
    ensures WeekContents(WeekViews(r, r.weeks[|c.weeks|..])) == [wk] + rest
  {
    var n := c.nextId;
    var row := Row(n, WeekFields(templateId, wk.weekNumber));
    var later := r.weeks[|c2.weeks|..];
    assert r.weeks[|c.weeks|..] == [row] + later by {
      assert r.weeks[..|c2.weeks|] == c2.weeks;
    }
    NewWeekWorkouts(c, c2, r, n);
    var mine := c2.workouts[|c.workouts|..];
    WorkoutViewsFrame(c2, r, c2.nextId, mine);
    WeeksReadBack(r, row, later, wk.workouts, rest);
  }

  /** The weeks AddWeeks appends read back, with everything under them, as the content written. */
  lemma {:induction false} AddWeeksContent(c: Catalog, templateId: Guid, wks: seq<WeekContent>)
    requires ParentsBelow(c) && templateId < c.nextId
    ensures var r := AddWeeks(c, templateId, wks);
      |c.weeks| <= |r.weeks| &&
      WeekContents(WeekViews(r, r.weeks[|c.weeks|..])) == wks
    decreases |wks|
  {
    if wks == [] {
      assert AddWeeks(c, templateId, wks).weeks[|c.weeks|..] == [];
    } else {
      WeekStep(c, templateId, wks[0]);
      var c2 := AddWorkouts(InsertWeek(c, templateId, wks[0].weekNumber), c.nextId, wks[0].workouts);
      AddWeeksContent(c2, templateId, wks[1..]);
      WeekContentNext(c, templateId, wks[0], wks[1..]);
      assert wks == [wks[0]] + wks[1..];
    }
  }

  /** One step of AddWeeksContent: the week written first reads back in front of the rest. */
  lemma WeekContentNext(c: Catalog, templateId: Guid, wk: WeekContent, rest: seq<WeekContent>)
    requires ParentsBelow(c) && templateId < c.nextId
    requires var c2 := AddWorkouts(InsertWeek(c, templateId, wk.weekNumber), c.nextId, wk.workouts);
      var r := AddWeeks(c2, templateId, rest);
      |c2.weeks| <= |r.weeks| && WeekContents(WeekViews(r, r.weeks[|c2.weeks|..])) == rest
    ensures var c2 := AddWorkouts(InsertWeek(c, templateId, wk.weekNumber), c.nextId, wk.workouts);
      var r := AddWeeks(c2, templateId, rest);
      |c.weeks| <= |r.weeks| && WeekContents(WeekViews(r, r.weeks[|c.weeks|..])) == [wk] + rest
  {
    WeekStep(c, templateId, wk);
    var c2 := AddWorkouts(InsertWeek(c, templateId, wk.weekNumber), c.nextId, wk.workouts);
    AddWeeksRows(c2, templateId, rest);
    WeekContentStep(c, c2, AddWeeks(c2, templateId, rest), templateId, wk, rest);
  }

  lemma TemplateReadBack(c: Catalog, r: Catalog, t: TemplateContent)
    requires forall i :: 0 <= i < |c.weeks| ==> c.weeks[i].val.templateId < c.nextId
    requires Extends(c.weeks, r.weeks)
    requires forall i :: |c.weeks| <= i < |r.weeks| ==> r.weeks[i].val.templateId == c.nextId
    requires WeekContents(WeekViews(r, r.weeks[|c.weeks|..])) == t.weeks
    ensures Content(DetailedView(r, Row(c.nextId, t.header))) == t
  {
    var mine := r.weeks[|c.weeks|..];
    assert r.weeks == c.weeks + mine by {
      assert r.weeks[..|c.weeks|] == c.weeks;
    }
    WhereNoneAppendAll(c.weeks, mine, InTemplate(c.nextId));
  }

  /** The template an import writes reads back, through the detailed view
      (GetTemplateByIdWithDetailsAsync), as exactly the content the file gave:
      every week under the new template, every workout under its own week,
      every exercise under its own workout, one row each, in file order. */
  lemma MaterializeReadBack(c: Catalog, t: TemplateContent)
    requires Bounded(c)
    ensures var r := Materialize(c, t);
      Lookup(r.templates, c.nextId) == Some(Row(c.nextId, t.header)) &&
      Content(DetailedView(r, Row(c.nextId, t.header))) == t
  {
    var n := c.nextId;
    var c1 := InsertTemplate(c, t.header);
    var r := AddWeeks(c1, n, t.weeks);
    assert Materialize(c, t) == r;
    assert r.templates == c.templates + [Row(n, t.header)] &&
      Extends(c.weeks, r.weeks) &&
      (forall i :: |c.weeks| <= i < |r.weeks| ==> r.weeks[i].val.templateId == n) by {
      AddWeeksRows(c1, n, t.weeks);
    }
    assert WeekContents(WeekViews(r, r.weeks[|c.weeks|..])) == t.weeks by {
      AddWeeksContent(c1, n, t.weeks);
    }
    TemplateReadBack(c, r, t);
    FindLast(c.templates, n, t.header);
  }

  // Validity: an import keeps every id fresh and every foreign key resolvable.

  lemma GrowAll(c: Catalog)
    requires Bounded(c)
    ensures Keyed(c.templates, c.nextId + 1) && Keyed(c.weeks, c.nextId + 1) &&
            Keyed(c.workouts, c.nextId + 1) && Keyed(c.exercises, c.nextId + 1)
  {
    KeyedGrow(c.templates, c.nextId, c.nextId + 1);
    KeyedGrow(c.weeks, c.nextId, c.nextId + 1);
    KeyedGrow(c.workouts, c.nextId, c.nextId + 1);
    KeyedGrow(c.exercises, c.nextId, c.nextId + 1);
  }

  lemma InsertTemplateValid(c: Catalog, h: TemplateFields)
    requires CatalogValid(c)
    ensures var d := InsertTemplate(c, h);
      CatalogValid(d) && HasKey(d.templates, c.nextId) && Extends(c.templates, d.templates)
  {
    var d := InsertTemplate(c, h);
    GrowAll(c);
    KeyedAppend(c.templates, c.nextId, h);
    forall i | 0 <= i < |d.weeks| ensures HasKey(d.templates, d.weeks[i].val.templateId) {
      HasKeyExtends(c.templates, d.templates, d.weeks[i].val.templateId);
    }
    HasKeyLast(c.templates, c.nextId, h);
  }

  lemma InsertWeekValid(c: Catalog, templateId: Guid, weekNumber: int)
    requires CatalogValid(c) && HasKey(c.templates, templateId)
    ensures var d := InsertWeek(c, templateId, weekNumber);
      CatalogValid(d) && HasKey(d.weeks, c.nextId) && Extends(c.weeks, d.weeks)
  {
    var d := InsertWeek(c, templateId, weekNumber);
    var row := Row(c.nextId, WeekFields(templateId, weekNumber));
    GrowAll(c);
    KeyedAppend(c.weeks, c.nextId, row.val);
    KeyBelowBound(c.templates, c.nextId, templateId);
    forall i | 0 <= i < |d.weeks| ensures HasKey(d.templates, d.weeks[i].val.templateId) {
      if i < |c.weeks| {
        assert d.weeks[i] == c.weeks[i];
      }
    }
    forall i | 0 <= i < |d.workouts| ensures HasKey(d.weeks, d.workouts[i].val.weekId) {
      HasKeyExtends(c.weeks, d.weeks, d.workouts[i].val.weekId);
    }
    HasKeyLast(c.weeks, c.nextId, row.val);
  }

  lemma InsertWorkoutValid(c: Catalog, weekId: Guid, name: string)
    requires CatalogValid(c) && HasKey(c.weeks, weekId)
    ensures var d := InsertWorkout(c, weekId, name);
      CatalogValid(d) && HasKey(d.workouts, c.nextId) && Extends(c.workouts, d.workouts)
  {
    var d := InsertWorkout(c, weekId, name);
    var row := Row(c.nextId, TemplateWorkoutFields(weekId, name));
    GrowAll(c);
    KeyedAppend(c.workouts, c.nextId, row.val);
    KeyBelowBound(c.weeks, c.nextId, weekId);
    forall i | 0 <= i < |d.workouts| ensures HasKey(d.weeks, d.workouts[i].val.weekId) {
      if i < |c.workouts| {
        assert d.workouts[i] == c.workouts[i];
      }
    }
    forall i | 0 <= i < |d.exercises| ensures HasKey(d.workouts, d.exercises[i].val.workoutId) {
      HasKeyExtends(c.workouts, d.workouts, d.exercises[i].val.workoutId);
    }
    HasKeyLast(c.workouts, c.nextId, row.val);
  }

  lemma InsertExerciseValid(c: Catalog, workoutId: Guid, x: ExerciseContent)
    requires CatalogValid(c) && HasKey(c.workouts, workoutId)
    ensures var d := InsertExercise(c, workoutId, x);
      CatalogValid(d) && Extends(c.exercises, d.exercises)
  {
    var d := InsertExercise(c, workoutId, x);
    var row := Row(c.nextId, TemplateExerciseFields(workoutId, x.exerciseName, x.prescription));
    GrowAll(c);
    KeyedAppend(c.exercises, c.nextId, row.val);
    KeyBelowBound(c.workouts, c.nextId, workoutId);
    forall i | 0 <= i < |d.exercises| ensures HasKey(d.workouts, d.exercises[i].val.workoutId) {
      if i < |c.exercises| {
        assert d.exercises[i] == c.exercises[i];
      }
    }
  }

  lemma {:induction false} AddExercisesValid(c: Catalog, workoutId: Guid, xs: seq<ExerciseContent>)
    requires CatalogValid(c) && HasKey(c.workouts, workoutId)
    ensures var r := AddExercises(c, workoutId, xs);
      CatalogValid(r) && c.nextId <= r.nextId &&
      r.templates == c.templates && r.weeks == c.weeks && r.workouts == c.workouts &&
      Extends(c.exercises, r.exercises)
    decreases |xs|
  {
    if xs != [] {
      var c1 := InsertExercise(c, workoutId, xs[0]);
      InsertExerciseValid(c, workoutId, xs[0]);
      AddExercisesValid(c1, workoutId, xs[1..]);
      ExtendsTrans(c.exercises, c1.exercises, AddExercises(c1, workoutId, xs[1..]).exercises);
    }
  }

  lemma {:induction false} AddWorkoutsValid(c: Catalog, weekId: Guid, ws: seq<WorkoutContent>)
    requires CatalogValid(c) && HasKey(c.weeks, weekId)
    ensures var r := AddWorkouts(c, weekId, ws);
      CatalogValid(r) && c.nextId <= r.nextId &&
      r.templates == c.templates && r.weeks == c.weeks &&
      Extends(c.workouts, r.workouts) && Extends(c.exercises, r.exercises)
    decreases |ws|
  {
    if ws != [] {
      var c1 := InsertWorkout(c, weekId, ws[0].name);
      InsertWorkoutValid(c, weekId, ws[0].name);
      var c2 := AddExercises(c1, c.nextId, ws[0].exercises);
      AddExercisesValid(c1, c.nextId, ws[0].exercises);
      AddWorkoutsValid(c2, weekId, ws[1..]);
      var r := AddWorkouts(c2, weekId, ws[1..]);
      ExtendsTrans(c.workouts, c2.workouts, r.workouts);
      ExtendsTrans(c.exercises, c1.exercises, c2.exercises);
      ExtendsTrans(c.exercises, c2.exercises, r.exercises);
    }
  }

  lemma {:induction false} AddWeeksValid(c: Catalog, templateId: Guid, wks: seq<WeekContent>)
    requires CatalogValid(c) && HasKey(c.templates, templateId)
    ensures var r := AddWeeks(c, templateId, wks);
      CatalogValid(r) && c.nextId <= r.nextId && r.templates == c.templates &&
      Extends(c.weeks, r.weeks) && Extends(c.workouts, r.workouts) && Extends(c.exercises, r.exercises)
    decreases |wks|
  {
    if wks != [] {
      var c1 := InsertWeek(c, templateId, wks[0].weekNumber);
      InsertWeekValid(c, templateId, wks[0].weekNumber);
      var c2 := AddWorkouts(c1, c.nextId, wks[0].workouts);
      AddWorkoutsValid(c1, c.nextId, wks[0].workouts);
      AddWeeksValid(c2, templateId, wks[1..]);
      var r := AddWeeks(c2, templateId, wks[1..]);
      ExtendsTrans(c.weeks, c2.weeks, r.weeks);
      ExtendsTrans(c.workouts, c1.workouts, c2.workouts);
      ExtendsTrans(c.workouts, c2.workouts, r.workouts);
      ExtendsTrans(c.exercises, c2.exercises, r.exercises);
    }
  }

  /** Writing a template keeps the catalog valid and only appends rows. */
  lemma MaterializeValid(c: Catalog, t: TemplateContent)
    requires CatalogValid(c)
    ensures var r := Materialize(c, t);
      CatalogValid(r) && c.nextId < r.nextId &&
      Extends(c.templates, r.templates) && Extends(c.weeks, r.weeks) &&
      Extends(c.workouts, r.workouts) && Extends(c.exercises, r.exercises)
  {
    var c1 := InsertTemplate(c, t.header);
    InsertTemplateValid(c, t.header);
    AddWeeksValid(c1, c.nextId, t.weeks);
  }
}
