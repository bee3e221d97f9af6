/** The database behind the services: every table the core touches and the
    source of fresh ids, with the relational rules the entity configurations
    declare (keys, required foreign keys, and the pair uniqueness the services
    maintain). */
module Store {
  import opened Guids
  import opened Entities
  import opened Tables
  import opened TemplateCatalog
  import opened Columns

  /** Every subscription names a known user and an existing template, and no
      (user, template) pair is subscribed twice. */
  ghost predicate SubscriptionsValid(users: set<Guid>, templates: Table<TemplateFields>,
                                     subscriptions: Table<SubscriptionFields>, n: nat) {
    Keyed(subscriptions, n) &&
    (forall i :: 0 <= i < |subscriptions| ==>
       subscriptions[i].val.userId in users && HasKey(templates, subscriptions[i].val.templateId)) &&
    SubscriptionPairsUnique(subscriptions)
  }

  /** The (user, template) pair a subscription is unique on. */
  function SubscriptionPair(r: Row<SubscriptionFields>): (Guid, Guid) {
    (r.val.userId, r.val.templateId)
  }

  ghost predicate SubscriptionPairsUnique(subscriptions: Table<SubscriptionFields>) {
    DistinctBy(subscriptions, SubscriptionPair)
  }

  /** Every progress row belongs to an existing subscription and an existing
      template exercise, and no (subscription, exercise) pair has two rows. */
  ghost predicate ProgressValid(subscriptions: Table<SubscriptionFields>, templateExercises: Table<TemplateExerciseFields>,
                                progress: Table<ProgressFields>, n: nat) {
    Keyed(progress, n) &&
    (forall i :: 0 <= i < |progress| ==>
       HasKey(subscriptions, progress[i].val.subscriptionId) &&
       HasKey(templateExercises, progress[i].val.templateExerciseId)) &&
    ProgressPairsUnique(progress)
  }

  /** The (subscription, template exercise) pair a progress row is unique on. */
  function ProgressPair(r: Row<ProgressFields>): (Guid, Guid) {
    (r.val.subscriptionId, r.val.templateExerciseId)
  }

  ghost predicate ProgressPairsUnique(progress: Table<ProgressFields>) {
    DistinctBy(progress, ProgressPair)
  }

  ghost predicate WorkoutsValid(users: set<Guid>, workouts: Table<WorkoutFields>, n: nat) {
    Keyed(workouts, n) &&
    forall i :: 0 <= i < |workouts| ==> workouts[i].val.userId in users
  }

  /** Exercise.Name is required with at most 100 characters (ExerciseConfiguration). */
  const ExerciseNameLength := 100

  ghost predicate ExercisesValid(workouts: Table<WorkoutFields>, exercises: Table<ExerciseFields>, n: nat) {
    Keyed(exercises, n) &&
    forall i :: 0 <= i < |exercises| ==>
      HasKey(workouts, exercises[i].val.workoutId) && Utf16Length(exercises[i].val.name) <= ExerciseNameLength
  }

  ghost predicate SeriesValid(exercises: Table<ExerciseFields>, series: Table<SeriesFields>, n: nat) {
    Keyed(series, n) &&
    forall i :: 0 <= i < |series| ==> HasKey(exercises, series[i].val.exerciseId)
  }

  ghost predicate TablesValid(users: set<Guid>, c: Catalog, subscriptions: Table<SubscriptionFields>,
                              progress: Table<ProgressFields>, workouts: Table<WorkoutFields>,
                              exercises: Table<ExerciseFields>, series: Table<SeriesFields>) {
    CatalogValid(c) &&
    SubscriptionsValid(users, c.templates, subscriptions, c.nextId) &&
    ProgressValid(subscriptions, c.exercises, progress, c.nextId) &&
    WorkoutsValid(users, workouts, c.nextId) &&
    ExercisesValid(workouts, exercises, c.nextId) &&
    SeriesValid(exercises, series, c.nextId)
  }

  /** Advancing the fresh-id counter keeps every table valid. */
  lemma TablesGrow(users: set<Guid>, c: Catalog, subscriptions: Table<SubscriptionFields>,
                   progress: Table<ProgressFields>, workouts: Table<WorkoutFields>,
                   exercises: Table<ExerciseFields>, series: Table<SeriesFields>)
    requires TablesValid(users, c, subscriptions, progress, workouts, exercises, series)
    ensures TablesValid(users, c.(nextId := c.nextId + 1), subscriptions, progress, workouts, exercises, series)
  {
    var n := c.nextId;
    KeyedGrow(c.templates, n, n + 1);
    KeyedGrow(c.weeks, n, n + 1);
    KeyedGrow(c.workouts, n, n + 1);
    KeyedGrow(c.exercises, n, n + 1);
    KeyedGrow(subscriptions, n, n + 1);
    KeyedGrow(progress, n, n + 1);
    KeyedGrow(workouts, n, n + 1);
    KeyedGrow(exercises, n, n + 1);
    KeyedGrow(series, n, n + 1);
  }

  /** Saving a new header for an existing template keeps every table valid. */
  lemma HeaderSetValid(users: set<Guid>, c: Catalog, subscriptions: Table<SubscriptionFields>,
                       progress: Table<ProgressFields>, workouts: Table<WorkoutFields>,
                       exercises: Table<ExerciseFields>, series: Table<SeriesFields>, id: Guid, h: TemplateFields)
    requires TablesValid(users, c, subscriptions, progress, workouts, exercises, series)
    requires HasKey(c.templates, id)
    ensures TablesValid(users, SetHeader(c, id, h), subscriptions, progress, workouts, exercises, series)
  {
    var d := SetHeader(c, id, h);
    LookupSetVal(c.templates, c.nextId, id, h);
    forall i | 0 <= i < |d.weeks| ensures HasKey(d.templates, d.weeks[i].val.templateId) {
      SameIdsHasKey(c.templates, d.templates, d.weeks[i].val.templateId);
    }
    forall i | 0 <= i < |subscriptions| ensures HasKey(d.templates, subscriptions[i].val.templateId) {
      SameIdsHasKey(c.templates, d.templates, subscriptions[i].val.templateId);
    }
  }

  /** A catalog that only grew (rows appended, fresh ids moved on) keeps every table valid. */
  lemma CatalogGrowsValid(users: set<Guid>, c: Catalog, d: Catalog, subscriptions: Table<SubscriptionFields>,
                          progress: Table<ProgressFields>, workouts: Table<WorkoutFields>,
                          exercises: Table<ExerciseFields>, series: Table<SeriesFields>)
    requires TablesValid(users, c, subscriptions, progress, workouts, exercises, series)
    requires CatalogValid(d) && c.nextId <= d.nextId
    requires Extends(c.templates, d.templates) && Extends(c.exercises, d.exercises)
    ensures TablesValid(users, d, subscriptions, progress, workouts, exercises, series)
  {
    var m := d.nextId;
    KeyedGrow(subscriptions, c.nextId, m);
    KeyedGrow(progress, c.nextId, m);
    KeyedGrow(workouts, c.nextId, m);
    KeyedGrow(exercises, c.nextId, m);
    KeyedGrow(series, c.nextId, m);
    forall i | 0 <= i < |subscriptions| ensures HasKey(d.templates, subscriptions[i].val.templateId) {
      HasKeyExtends(c.templates, d.templates, subscriptions[i].val.templateId);
    }
    forall i | 0 <= i < |progress| ensures HasKey(d.exercises, progress[i].val.templateExerciseId) {
      HasKeyExtends(c.exercises, d.exercises, progress[i].val.templateExerciseId);
    }
  }

  class Db {
    /** The ids of registered users (the user table itself belongs to authentication). */
    var users: set<Guid>
    var templates: Table<TemplateFields>
    var weeks: Table<WeekFields>
    var templateWorkouts: Table<TemplateWorkoutFields>
    var templateExercises: Table<TemplateExerciseFields>
    var subscriptions: Table<SubscriptionFields>
    var progress: Table<ProgressFields>
    var workouts: Table<WorkoutFields>
    var exercises: Table<ExerciseFields>
    var series: Table<SeriesFields>
    /** The id the next inserted row receives. */
    var nextId: Guid

    /** The template catalog as a value. */
    function TemplateState(): Catalog
      reads this`templates, this`weeks, this`templateWorkouts, this`templateExercises, this`nextId
    {
      Catalog(templates, weeks, templateWorkouts, templateExercises, nextId)
    }

    ghost predicate Valid()
      reads this
    {
      TablesValid(users, TemplateState(), subscriptions, progress, workouts, exercises, series)
    }

    /** The store is valid once its tables, read as values, are known to be. */
    lemma ValidFrom(users: set<Guid>, c: Catalog, subscriptions: Table<SubscriptionFields>,
                    progress: Table<ProgressFields>, workouts: Table<WorkoutFields>,
                    exercises: Table<ExerciseFields>, series: Table<SeriesFields>)
      requires TablesValid(users, c, subscriptions, progress, workouts, exercises, series)
      requires this.users == users && TemplateState() == c && this.subscriptions == subscriptions
      requires this.progress == progress && this.workouts == workouts
      requires this.exercises == exercises && this.series == series
      ensures Valid()
    {
    }

    constructor(users: set<Guid>)
      ensures Valid() && this.users == users
      ensures templates == [] && weeks == [] && templateWorkouts == [] && templateExercises == []
      ensures subscriptions == [] && progress == [] && workouts == [] && exercises == [] && series == []
    {
      this.users := users;
      templates, weeks, templateWorkouts, templateExercises := [], [], [], [];
      subscriptions, progress := [], [];
      workouts, exercises, series := [], [], [];
      nextId := 1;
    }
  }
}
