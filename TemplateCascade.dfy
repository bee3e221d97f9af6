/** DeleteWorkoutTemplateAsync's effect on the store: the template goes, and
    with it (ON DELETE CASCADE) its weeks, their workouts and those workouts'
    exercises. Subscriptions to the template and progress rows on any of the
    doomed exercises restrict the delete, so the database refuses it. */
module TemplateCascade {
  import opened Guids
  import opened Entities
  import opened Tables
  import opened TemplateCatalog
  import opened Store

  function NotInTemplate(templateId: Guid): Row<WeekFields> -> bool {
    (x: Row<WeekFields>) => x.val.templateId != templateId
  }

  function UnderWeeks(gone: set<Guid>): Row<TemplateWorkoutFields> -> bool {
    (x: Row<TemplateWorkoutFields>) => x.val.weekId in gone
  }

  function NotUnderWeeks(gone: set<Guid>): Row<TemplateWorkoutFields> -> bool {
    (x: Row<TemplateWorkoutFields>) => x.val.weekId !in gone
  }

  function UnderWorkouts(gone: set<Guid>): Row<TemplateExerciseFields> -> bool {
    (x: Row<TemplateExerciseFields>) => x.val.workoutId in gone
  }

  function NotUnderWorkouts(gone: set<Guid>): Row<TemplateExerciseFields> -> bool {
    (x: Row<TemplateExerciseFields>) => x.val.workoutId !in gone
  }

  /** The ids of the template's weeks. */
  function GoneWeeks(c: Catalog, templateId: Guid): set<Guid> {
    Ids(WeekRowsOf(c, templateId))
  }

  /** The ids of the workouts under those weeks. */
  function GoneWorkouts(c: Catalog, templateId: Guid): set<Guid> {
    Ids(Where(c.workouts, UnderWeeks(GoneWeeks(c, templateId))))
  }

  /** The ids of the exercises under those workouts. */
  function GoneExercises(c: Catalog, templateId: Guid): set<Guid> {
    Ids(Where(c.exercises, UnderWorkouts(GoneWorkouts(c, templateId))))
  }

  /** The catalog once the template row is removed and the cascade has run. */
  function DeleteCascade(c: Catalog, templateId: Guid): Catalog {
    c.(templates := RemoveKey(c.templates, templateId),
       weeks := Where(c.weeks, NotInTemplate(templateId)),
       workouts := Where(c.workouts, NotUnderWeeks(GoneWeeks(c, templateId))),
       exercises := Where(c.exercises, NotUnderWorkouts(GoneWorkouts(c, templateId))))
  }

  /** A row survives the delete exactly when none of its ancestors is the deleted template. */
  lemma DeleteCascadeExact(c: Catalog, templateId: Guid)
    ensures var r := DeleteCascade(c, templateId);
      r.nextId == c.nextId &&
      (forall i :: 0 <= i < |c.templates| ==> (c.templates[i] in r.templates <==> c.templates[i].id != templateId)) &&
      (forall i :: 0 <= i < |c.weeks| ==> (c.weeks[i] in r.weeks <==> c.weeks[i].val.templateId != templateId)) &&
      (forall i :: 0 <= i < |c.workouts| ==>
         (c.workouts[i] in r.workouts <==> c.workouts[i].val.weekId !in GoneWeeks(c, templateId))) &&
      (forall i :: 0 <= i < |c.exercises| ==>
         (c.exercises[i] in r.exercises <==> c.exercises[i].val.workoutId !in GoneWorkouts(c, templateId)))
  {
  }

  /** A row that restricts the delete: a subscription to the template, or
      progress logged against one of its exercises. */
  predicate Restricted(subscriptions: Table<SubscriptionFields>, progress: Table<ProgressFields>,
                       c: Catalog, templateId: Guid) {
    (exists i :: 0 <= i < |subscriptions| && subscriptions[i].val.templateId == templateId) ||
    (exists i :: 0 <= i < |progress| && progress[i].val.templateExerciseId in GoneExercises(c, templateId))
  }

  // The cascade leaves no orphan behind.

  lemma WeekKept(c: Catalog, templateId: Guid, weekId: Guid)
    requires Keyed(c.weeks, c.nextId) && HasKey(c.weeks, weekId) && weekId !in GoneWeeks(c, templateId)
    ensures Lookup(c.weeks, weekId).value.val.templateId != templateId
  {
  }

  lemma WorkoutKept(c: Catalog, templateId: Guid, workoutId: Guid)
    requires Keyed(c.workouts, c.nextId) && HasKey(c.workouts, workoutId) && workoutId !in GoneWorkouts(c, templateId)
    ensures Lookup(c.workouts, workoutId).value.val.weekId !in GoneWeeks(c, templateId)
  {
  }

  lemma ExerciseKept(c: Catalog, templateId: Guid, exerciseId: Guid)
    requires Keyed(c.exercises, c.nextId) && HasKey(c.exercises, exerciseId) && exerciseId !in GoneExercises(c, templateId)
    ensures Lookup(c.exercises, exerciseId).value.val.workoutId !in GoneWorkouts(c, templateId)
  {
  }

  lemma CascadeBounded(c: Catalog, templateId: Guid)
    requires Bounded(c)
    ensures Bounded(DeleteCascade(c, templateId))
  {
    var r := DeleteCascade(c, templateId);
    var n := c.nextId;
    WhereKeyed(c.templates, (x: Row<TemplateFields>) => x.id != templateId, n);
    WhereKeyed(c.weeks, NotInTemplate(templateId), n);
    WhereKeyed(c.workouts, NotUnderWeeks(GoneWeeks(c, templateId)), n);
    WhereKeyed(c.exercises, NotUnderWorkouts(GoneWorkouts(c, templateId)), n);
    WhereAllHold(c.weeks, NotInTemplate(templateId), (x: Row<WeekFields>) => x.val.templateId < n);
    WhereAllHold(c.workouts, NotUnderWeeks(GoneWeeks(c, templateId)), (x: Row<TemplateWorkoutFields>) => x.val.weekId < n);
    WhereAllHold(c.exercises, NotUnderWorkouts(GoneWorkouts(c, templateId)),
      (x: Row<TemplateExerciseFields>) => x.val.workoutId < n);
  }

  lemma CascadeWeeksLinked(c: Catalog, templateId: Guid)
    requires CatalogValid(c)
    ensures var r := DeleteCascade(c, templateId);
      forall i :: 0 <= i < |r.weeks| ==> HasKey(r.templates, r.weeks[i].val.templateId)
  {
    var r := DeleteCascade(c, templateId);
    forall i | 0 <= i < |r.weeks| ensures HasKey(r.templates, r.weeks[i].val.templateId) {
      HasKeyWhere(c.templates, (x: Row<TemplateFields>) => x.id != templateId, r.weeks[i].val.templateId);
    }
  }

  lemma CascadeWorkoutsLinked(c: Catalog, templateId: Guid)
    requires CatalogValid(c)
    ensures var r := DeleteCascade(c, templateId);
      forall i :: 0 <= i < |r.workouts| ==> HasKey(r.weeks, r.workouts[i].val.weekId)
  {
    var r := DeleteCascade(c, templateId);
    forall i | 0 <= i < |r.workouts| ensures HasKey(r.weeks, r.workouts[i].val.weekId) {
      var weekId := r.workouts[i].val.weekId;
      WeekKept(c, templateId, weekId);
      HasKeyWhere(c.weeks, NotInTemplate(templateId), weekId);
    }
  }

  lemma CascadeExercisesLinked(c: Catalog, templateId: Guid)
    requires CatalogValid(c)
    ensures var r := DeleteCascade(c, templateId);
      forall i :: 0 <= i < |r.exercises| ==> HasKey(r.workouts, r.exercises[i].val.workoutId)
  {
    var r := DeleteCascade(c, templateId);
    forall i | 0 <= i < |r.exercises| ensures HasKey(r.workouts, r.exercises[i].val.workoutId) {
      var workoutId := r.exercises[i].val.workoutId;
      WorkoutKept(c, templateId, workoutId);
      HasKeyWhere(c.workouts, NotUnderWeeks(GoneWeeks(c, templateId)), workoutId);
    }
  }

  /** An unrestricted delete keeps the whole store valid. */
  lemma DeleteCascadeValid(users: set<Guid>, c: Catalog, subscriptions: Table<SubscriptionFields>,
                           progress: Table<ProgressFields>, workouts: Table<WorkoutFields>,
                           exercises: Table<ExerciseFields>, series: Table<SeriesFields>, templateId: Guid)
    requires TablesValid(users, c, subscriptions, progress, workouts, exercises, series)
    requires !Restricted(subscriptions, progress, c, templateId)
    ensures TablesValid(users, DeleteCascade(c, templateId), subscriptions, progress, workouts, exercises, series)
  {
    var r := DeleteCascade(c, templateId);
    CascadeBounded(c, templateId);
    CascadeWeeksLinked(c, templateId);
    CascadeWorkoutsLinked(c, templateId);
    CascadeExercisesLinked(c, templateId);
    forall i | 0 <= i < |subscriptions| ensures HasKey(r.templates, subscriptions[i].val.templateId) {
      HasKeyWhere(c.templates, (x: Row<TemplateFields>) => x.id != templateId, subscriptions[i].val.templateId);
    }
    forall i | 0 <= i < |progress| ensures HasKey(r.exercises, progress[i].val.templateExerciseId) {
      var exerciseId := progress[i].val.templateExerciseId;
      ExerciseKept(c, templateId, exerciseId);
      HasKeyWhere(c.exercises, NotUnderWorkouts(GoneWorkouts(c, templateId)), exerciseId);
    }
  }

  // Every other template reads back as before.

  lemma OtherWorkoutUnchanged(c: Catalog, templateId: Guid, w: Row<TemplateWorkoutFields>)
    requires Keyed(c.workouts, c.nextId) && w in c.workouts && w.val.weekId !in GoneWeeks(c, templateId)
    ensures ExercisesOf(DeleteCascade(c, templateId), w.id) == ExercisesOf(c, w.id)
  {
    var gone := GoneWorkouts(c, templateId);
    if w.id in gone {
      var k :| 0 <= k < |Where(c.workouts, UnderWeeks(GoneWeeks(c, templateId)))| &&
               Where(c.workouts, UnderWeeks(GoneWeeks(c, templateId)))[k].id == w.id;
      KeyedUnique(c.workouts, c.nextId, w, Where(c.workouts, UnderWeeks(GoneWeeks(c, templateId)))[k]);
    }
    WhereWhere(c.exercises, NotUnderWorkouts(gone), InWorkout(w.id));
  }

  lemma OtherWeekUnchanged(c: Catalog, templateId: Guid, wk: Row<WeekFields>)
    requires Bounded(c) && wk in c.weeks && wk.val.templateId != templateId
    ensures var r := DeleteCascade(c, templateId);
      WorkoutViews(r, WorkoutRowsOf(r, wk.id)) == WorkoutViews(c, WorkoutRowsOf(c, wk.id))
  {
    var r := DeleteCascade(c, templateId);
    var gone := GoneWeeks(c, templateId);
    if wk.id in gone {
      var k :| 0 <= k < |WeekRowsOf(c, templateId)| && WeekRowsOf(c, templateId)[k].id == wk.id;
      KeyedUnique(c.weeks, c.nextId, wk, WeekRowsOf(c, templateId)[k]);
    }
    WhereWhere(c.workouts, NotUnderWeeks(gone), InWeek(wk.id));
    var rows := WorkoutRowsOf(c, wk.id);
    forall j | 0 <= j < |rows| ensures ExercisesOf(r, rows[j].id) == ExercisesOf(c, rows[j].id) {
      OtherWorkoutUnchanged(c, templateId, rows[j]);
    }
    WorkoutViewsAgree(r, c, rows);
  }

  /** Deleting one template does not change how any other template reads back. */
  lemma OtherTemplateUnchanged(c: Catalog, templateId: Guid, t: Row<TemplateFields>)
    requires Bounded(c) && t.id != templateId
    ensures DetailedView(DeleteCascade(c, templateId), t) == DetailedView(c, t)
  {
    var r := DeleteCascade(c, templateId);
    WhereWhere(c.weeks, NotInTemplate(templateId), InTemplate(t.id));
    var rows := WeekRowsOf(c, t.id);
    forall j | 0 <= j < |rows|
      ensures WorkoutViews(r, WorkoutRowsOf(r, rows[j].id)) == WorkoutViews(c, WorkoutRowsOf(c, rows[j].id))
    {
      OtherWeekUnchanged(c, templateId, rows[j]);
    }
    WeekViewsAgree(r, c, rows);
  }
}
