/** The template catalog: four tables linked parent to child
    (WorkoutTemplate -> TemplateWeek -> TemplateWorkout -> TemplateExercise),
    the response shapes the service returns for it, and the content a
    template carries once its ids are erased. */
module TemplateCatalog {
  import opened Guids
  import opened Wrappers
  import opened Entities
  import opened Tables

  datatype Catalog = Catalog(
    templates: Table<TemplateFields>,
    weeks: Table<WeekFields>,
    workouts: Table<TemplateWorkoutFields>,
    exercises: Table<TemplateExerciseFields>,
    nextId: Guid)

  /** No parent reference points at the next fresh id or beyond. */
  ghost predicate ParentsBelow(c: Catalog) {
    (forall i :: 0 <= i < |c.weeks| ==> c.weeks[i].val.templateId < c.nextId) &&
    (forall i :: 0 <= i < |c.workouts| ==> c.workouts[i].val.weekId < c.nextId) &&
    (forall i :: 0 <= i < |c.exercises| ==> c.exercises[i].val.workoutId < c.nextId)
  }

  /** Every id and every parent reference lies below the next fresh id. */
  ghost predicate Bounded(c: Catalog) {
    c.nextId > Empty &&
    Keyed(c.templates, c.nextId) && Keyed(c.weeks, c.nextId) &&
    Keyed(c.workouts, c.nextId) && Keyed(c.exercises, c.nextId) &&
    ParentsBelow(c)
  }

  /** The three required foreign keys of the catalog. */
  ghost predicate Linked(c: Catalog) {
    (forall i :: 0 <= i < |c.weeks| ==> HasKey(c.templates, c.weeks[i].val.templateId)) &&
    (forall i :: 0 <= i < |c.workouts| ==> HasKey(c.weeks, c.workouts[i].val.weekId)) &&
    (forall i :: 0 <= i < |c.exercises| ==> HasKey(c.workouts, c.exercises[i].val.workoutId))
  }

  ghost predicate CatalogValid(c: Catalog) {
    Bounded(c) && Linked(c)
  }

  // Response shapes. The basic listing carries no weeks; the detailed one
  // carries the whole graph, children (listed in insertion order) under their parent.

  datatype WorkoutView = WorkoutView(workout: Row<TemplateWorkoutFields>, exercises: Table<TemplateExerciseFields>)
  datatype WeekView = WeekView(week: Row<WeekFields>, workouts: seq<WorkoutView>)
  datatype TemplateView = TemplateView(template: Row<TemplateFields>, weeks: seq<WeekView>)

  function InWorkout(workoutId: Guid): Row<TemplateExerciseFields> -> bool {
    (x: Row<TemplateExerciseFields>) => x.val.workoutId == workoutId
  }

  function InWeek(weekId: Guid): Row<TemplateWorkoutFields> -> bool {
    (x: Row<TemplateWorkoutFields>) => x.val.weekId == weekId
  }

  function InTemplate(templateId: Guid): Row<WeekFields> -> bool {
    (x: Row<WeekFields>) => x.val.templateId == templateId
  }

  function ExercisesOf(c: Catalog, workoutId: Guid): Table<TemplateExerciseFields> {
    Where(c.exercises, InWorkout(workoutId))
  }

  function WorkoutRowsOf(c: Catalog, weekId: Guid): Table<TemplateWorkoutFields> {
    Where(c.workouts, InWeek(weekId))
  }

  function WeekRowsOf(c: Catalog, templateId: Guid): Table<WeekFields> {
    Where(c.weeks, InTemplate(templateId))
  }

  function WorkoutViews(c: Catalog, rows: Table<TemplateWorkoutFields>): seq<WorkoutView> {
    seq(|rows|, k requires 0 <= k < |rows| => WorkoutView(rows[k], ExercisesOf(c, rows[k].id)))
  }

  function WeekViews(c: Catalog, rows: Table<WeekFields>): seq<WeekView> {
    seq(|rows|, k requires 0 <= k < |rows| => WeekView(rows[k], WorkoutViews(c, WorkoutRowsOf(c, rows[k].id))))
  }

  /** Workout views agree when each workout's exercise list does. */
  lemma WorkoutViewsAgree(c: Catalog, d: Catalog, rows: Table<TemplateWorkoutFields>)
    requires forall j :: 0 <= j < |rows| ==> ExercisesOf(c, rows[j].id) == ExercisesOf(d, rows[j].id)
    ensures WorkoutViews(c, rows) == WorkoutViews(d, rows)
  {
  }

  /** Week views agree when each week's workout views do. */
  lemma WeekViewsAgree(c: Catalog, d: Catalog, rows: Table<WeekFields>)
    requires forall j :: 0 <= j < |rows| ==>
      WorkoutViews(c, WorkoutRowsOf(c, rows[j].id)) == WorkoutViews(d, WorkoutRowsOf(d, rows[j].id))
    ensures WeekViews(c, rows) == WeekViews(d, rows)
  {
  }

  /** GetByIdAsync / GetAllWorkoutTemplatesDetailedAsync: a template with its included graph. */
  function DetailedView(c: Catalog, t: Row<TemplateFields>): TemplateView {
    TemplateView(t, WeekViews(c, WeekRowsOf(c, t.id)))
  }

  /** The header update UpdateTemplateAsync saves. */
  function SetHeader(c: Catalog, id: Guid, h: TemplateFields): (r: Catalog)
    requires HasKey(c.templates, id)
    ensures r.weeks == c.weeks && r.workouts == c.workouts && r.exercises == c.exercises && r.nextId == c.nextId
  {
    c.(templates := SetVal(c.templates, id, h))
  }

  /** A template's graph does not depend on the other template headers. */
  lemma DetailedViewIgnoresHeaders(c: Catalog, d: Catalog, t: Row<TemplateFields>)
    requires d.weeks == c.weeks && d.workouts == c.workouts && d.exercises == c.exercises
    ensures DetailedView(d, t) == DetailedView(c, t)
  {
    var rows := WeekRowsOf(c, t.id);
    forall j | 0 <= j < |rows|
      ensures WorkoutViews(d, WorkoutRowsOf(d, rows[j].id)) == WorkoutViews(c, WorkoutRowsOf(c, rows[j].id))
    {
      WorkoutViewsAgree(d, c, WorkoutRowsOf(c, rows[j].id));
    }
    WeekViewsAgree(d, c, rows);
  }

  /** GetWorkoutTemplateByIdAsync / GetAllWorkoutTemplatesBasicAsync: the header with an empty week list. */
  function BasicView(t: Row<TemplateFields>): TemplateView {
    TemplateView(t, [])
  }

  function BasicList(c: Catalog): (r: seq<TemplateView>)
    ensures |r| == |c.templates|
    ensures forall k :: 0 <= k < |r| ==> r[k].template == c.templates[k] && r[k].weeks == []
  {
    seq(|c.templates|, k requires 0 <= k < |c.templates| => BasicView(c.templates[k]))
  }

  function DetailedList(c: Catalog): (r: seq<TemplateView>)
    ensures |r| == |c.templates|
    ensures forall k :: 0 <= k < |r| ==> r[k].template == c.templates[k]
  {
    seq(|c.templates|, k requires 0 <= k < |c.templates| => DetailedView(c, c.templates[k]))
  }

  // Content: what a template says once its ids are erased.

  datatype ExerciseContent = ExerciseContent(exerciseName: string, prescription: Prescription)
  datatype WorkoutContent = WorkoutContent(name: string, exercises: seq<ExerciseContent>)
  datatype WeekContent = WeekContent(weekNumber: int, workouts: seq<WorkoutContent>)
  datatype TemplateContent = TemplateContent(header: TemplateFields, weeks: seq<WeekContent>)

  function ExerciseContents(rows: Table<TemplateExerciseFields>): seq<ExerciseContent> {
    seq(|rows|, k requires 0 <= k < |rows| => ExerciseContent(rows[k].val.exerciseName, rows[k].val.prescription))
  }

  function WorkoutContents(vs: seq<WorkoutView>): seq<WorkoutContent> {
    seq(|vs|, k requires 0 <= k < |vs| => WorkoutContent(vs[k].workout.val.name, ExerciseContents(vs[k].exercises)))
  }

  function WeekContents(vs: seq<WeekView>): seq<WeekContent> {
    seq(|vs|, k requires 0 <= k < |vs| => WeekContent(vs[k].week.val.weekNumber, WorkoutContents(vs[k].workouts)))
  }

  function Content(v: TemplateView): TemplateContent {
    TemplateContent(v.template.val, WeekContents(v.weeks))
  }
}
