/** WorkoutTemplateService: the template catalog behind a read-through memory
    cache. Reads fill the cache; an update saves a new header and drops the
    four keys that could show it; a delete cascades through the catalog; an
    import writes a whole template from a JSON document inside a transaction. */
module WorkoutTemplateService {
  import opened Guids
  import opened Wrappers
  import opened Errors
  import opened Columns
  import opened Entities
  import opened Tables
  import opened TemplateCatalog
  import opened Store
  import opened TemplateCascade
  import opened TemplateDocument
  import opened TemplateImport
  import opened TemplateCache

  /** WorkoutTemplateUpdateDto, copied over the stored header as a whole. */
  datatype TemplateUpdate = TemplateUpdate(name: Option<string>, description: Option<string>, durationWeeks: int)

  /** WorkoutTemplate.Name and Description limits (WorkoutTemplateConfiguration). */
  const TemplateNameLength := 100
  const TemplateDescriptionLength := 500

  /** The header the update saves, or the DbUpdateException SaveChanges throws for it. */
  function UpdatedHeader(u: TemplateUpdate): (r: Result<TemplateFields, Error>)
    ensures r.Success? <==> u.name.Some? && Utf16Length(u.name.value) <= TemplateNameLength &&
                            u.description.Some? && Utf16Length(u.description.value) <= TemplateDescriptionLength
    ensures r.Success? ==> r.value.name == u.name.value && r.value.description == u.description.value &&
                           r.value.durationWeeks == u.durationWeeks
    ensures r.Failure? ==> r.error == SaveFailed
  {
    var name :- RequiredColumn(u.name, TemplateNameLength);
    var description :- RequiredColumn(u.description, TemplateDescriptionLength);
    Success(TemplateFields(name, description, u.durationWeeks))
  }

  /** The template a document describes: its "WorkoutTemplate" element, read in full. */
  function ParseDocument(document: Json): Result<TemplateContent, Error> {
    var root :- GetProperty(document, "WorkoutTemplate");
    ParseTemplate(root)
  }

  /** What the importer does to the catalog: find the root element, then run the loops. */
  function ImportDocument(c: Catalog, document: Json): Result<Catalog, Error> {
    var root :- GetProperty(document, "WorkoutTemplate");
    ImportTemplate(c, root)
  }

  /** An import succeeds exactly when the document parses, and then writes its content. */
  lemma ImportDocumentIsParse(c: Catalog, document: Json)
    ensures ImportDocument(c, document) ==
      match ParseDocument(document)
      case Failure(e) => Failure(e)
      case Success(t) => Success(Materialize(c, t))
  {
    var root := GetProperty(document, "WorkoutTemplate");
    if root.Success? {
      ImportIsParseThenMaterialize(c, root.value);
    }
  }

  /** One turn of the exercise loop. */
  lemma ExerciseTurn(c: Catalog, workoutId: Guid, items: seq<Json>, i: nat)
    requires i < |items|
    ensures var x := ParseExercise(items[i]);
      ImportExercises(c, workoutId, items[i..]) ==
        if x.Failure? then Failure(x.error)
        else ImportExercises(InsertExercise(c, workoutId, x.value), workoutId, items[i + 1..])
  {
    assert items[i..][0] == items[i] && items[i..][1..] == items[i + 1..];
  }

  /** One turn of the workout loop. */
  lemma WorkoutTurn(c: Catalog, weekId: Guid, items: seq<Json>, i: nat)
    requires i < |items|
    ensures var name := ParseWorkoutName(items[i]);
      var xs := ReadArray(items[i], "TemplateExercises");
      ImportWorkouts(c, weekId, items[i..]) ==
        if name.Failure? then Failure(name.error)
        else if xs.Failure? then Failure(xs.error)
        else
          var e := ImportExercises(InsertWorkout(c, weekId, name.value), c.nextId, xs.value);
          if e.Failure? then Failure(e.error) else ImportWorkouts(e.value, weekId, items[i + 1..])
  {
    assert items[i..][0] == items[i] && items[i..][1..] == items[i + 1..];
  }

  /** One turn of the week loop. */
  lemma WeekTurn(c: Catalog, templateId: Guid, items: seq<Json>, i: nat)
    requires i < |items|
    ensures var n := ReadInt32(items[i], "WeekNumber");
      var ws := ReadArray(items[i], "TemplateWorkouts");
      ImportWeeks(c, templateId, items[i..]) ==
        if n.Failure? then Failure(n.error)
        else if ws.Failure? then Failure(ws.error)
        else
          var e := ImportWorkouts(InsertWeek(c, templateId, n.value), c.nextId, ws.value);
          if e.Failure? then Failure(e.error) else ImportWeeks(e.value, templateId, items[i + 1..])
  {
    assert items[i..][0] == items[i] && items[i..][1..] == items[i + 1..];
  }

  /** A written template keeps every table of the store valid. */
  lemma ImportedValid(users: set<Guid>, c: Catalog, t: TemplateContent, subscriptions: Table<SubscriptionFields>,
                      progress: Table<ProgressFields>, workouts: Table<WorkoutFields>,
                      exercises: Table<ExerciseFields>, series: Table<SeriesFields>)
    requires TablesValid(users, c, subscriptions, progress, workouts, exercises, series)
    ensures TablesValid(users, Materialize(c, t), subscriptions, progress, workouts, exercises, series)
  {
    MaterializeValid(c, t);
    CatalogGrowsValid(users, c, Materialize(c, t), subscriptions, progress, workouts, exercises, series);
  }

  /** A store whose catalog is a valid one with a template written into it is valid. */
  lemma ImportStoreValid(db: Db, users: set<Guid>, c: Catalog, t: TemplateContent, subscriptions: Table<SubscriptionFields>,
                         progress: Table<ProgressFields>, workouts: Table<WorkoutFields>,
                         exercises: Table<ExerciseFields>, series: Table<SeriesFields>)
    requires TablesValid(users, c, subscriptions, progress, workouts, exercises, series)
    requires db.users == users && db.TemplateState() == Materialize(c, t) && db.subscriptions == subscriptions
    requires db.progress == progress && db.workouts == workouts && db.exercises == exercises && db.series == series
    ensures db.Valid()
  {
    ImportedValid(users, c, t, subscriptions, progress, workouts, exercises, series);
    db.ValidFrom(users, Materialize(c, t), subscriptions, progress, workouts, exercises, series);
  }

  /** The import's response: the detailed view of the template graph just written,
      mapped from that graph rather than read back. */
  method ReadImported(db: Db, id: Guid, ghost users: set<Guid>, ghost c: Catalog, ghost t: TemplateContent,
                      ghost subscriptions: Table<SubscriptionFields>, ghost progress: Table<ProgressFields>,
                      ghost workouts: Table<WorkoutFields>, ghost exercises: Table<ExerciseFields>,
                      ghost series: Table<SeriesFields>) returns (view: TemplateView)
    requires TablesValid(users, c, subscriptions, progress, workouts, exercises, series) && id == c.nextId
    requires db.users == users && db.TemplateState() == Materialize(c, t) && db.subscriptions == subscriptions
    requires db.progress == progress && db.workouts == workouts && db.exercises == exercises && db.series == series
    ensures db.Valid()
    ensures Lookup(db.templates, id) == Some(Row(id, t.header))
    ensures view == DetailedView(db.TemplateState(), Row(id, t.header)) && Content(view) == t
  {
    ImportStoreValid(db, users, c, t, subscriptions, progress, workouts, exercises, series);
    MaterializeReadBack(c, t);
    var header := Lookup(db.templates, id).value;
    view := DetailedView(db.TemplateState(), header);
  }

  /** The repository's Remove + SaveChanges, with the schema's cascade. */
  method Cascade(db: Db, id: Guid)
    requires db.Valid() && !Restricted(db.subscriptions, db.progress, db.TemplateState(), id)
    modifies db`templates, db`weeks, db`templateWorkouts, db`templateExercises
    ensures db.Valid()
    ensures db.TemplateState() == DeleteCascade(old(db.TemplateState()), id)
  {
    ghost var users, subscriptions, progress, workouts, exercises, series :=
      db.users, db.subscriptions, db.progress, db.workouts, db.exercises, db.series;
    var c := db.TemplateState();
    var d := DeleteCascade(c, id);
    db.templates, db.weeks, db.templateWorkouts, db.templateExercises := d.templates, d.weeks, d.workouts, d.exercises;
    CascadeStoreValid(db, users, c, subscriptions, progress, workouts, exercises, series, id);
  }

  /** A store whose catalog is the cascade of a valid one, with no restricting row, is valid. */
  lemma CascadeStoreValid(db: Db, users: set<Guid>, c: Catalog, subscriptions: Table<SubscriptionFields>,
                          progress: Table<ProgressFields>, workouts: Table<WorkoutFields>,
                          exercises: Table<ExerciseFields>, series: Table<SeriesFields>, id: Guid)
    requires TablesValid(users, c, subscriptions, progress, workouts, exercises, series)
    requires !Restricted(subscriptions, progress, c, id)
    requires db.users == users && db.TemplateState() == DeleteCascade(c, id) && db.subscriptions == subscriptions
    requires db.progress == progress && db.workouts == workouts && db.exercises == exercises && db.series == series
    ensures db.Valid()
  {
    DeleteCascadeValid(users, c, subscriptions, progress, workouts, exercises, series, id);
    db.ValidFrom(users, DeleteCascade(c, id), subscriptions, progress, workouts, exercises, series);
  }

  class TemplateService {
    const db: Db
    /** IMemoryCache: entries by key string (sliding expiry is not modelled). */
    var cache: map<string, CacheValue>

    constructor(db: Db)
      ensures this.db == db && cache == map[]
    {
      this.db := db;
      cache := map[];
    }

    /** GetAllTemplatesAsync. */
    method GetAllTemplates(includeDetails: bool) returns (r: seq<TemplateView>)
      modifies this`cache
      ensures var key := KeyText(if includeDetails then AllDetailed else AllBasic);
        var hit := key in old(cache) && old(cache)[key].Listing?;
        var list := if includeDetails then DetailedList(db.TemplateState()) else BasicList(db.TemplateState());
        (hit ==> r == old(cache)[key].views && cache == old(cache)) &&
        (!hit ==> r == list && cache == if |list| > 0 then old(cache)[key := Listing(list)] else old(cache))
      ensures Coherent(old(cache), db.TemplateState()) ==>
        Coherent(cache, db.TemplateState()) &&
        r == if includeDetails then DetailedList(db.TemplateState()) else BasicList(db.TemplateState())
    {
      var k := if includeDetails then AllDetailed else AllBasic;
      var key := KeyText(k);
      if key in cache && cache[key].Listing? {
        return cache[key].views;
      }
      var c := db.TemplateState();
      r := if includeDetails then DetailedList(c) else BasicList(c);
      if |r| > 0 {
        if Coherent(cache, c) {
          CoherentSet(cache, c, k, Listing(r));
        }
        cache := cache[key := Listing(r)];
      }
    }

    /** GetTemplateByIdAsync: the header alone, read through the cache. */
    method GetTemplateById(id: Guid) returns (r: Result<TemplateView, Error>)
      modifies this`cache
      ensures var key := KeyText(TemplateKey(id));
        var hit := key in old(cache) && old(cache)[key].Single?;
        (hit ==> r == Success(old(cache)[key].view) && cache == old(cache)) &&
        (!hit && !HasKey(db.templates, id) ==> r == Failure(WorkoutTemplateNotFoundError(id)) && cache == old(cache)) &&
        (!hit && HasKey(db.templates, id) ==>
           var v := BasicView(Lookup(db.templates, id).value);
           r == Success(v) && cache == old(cache)[key := Single(v)])
      ensures Coherent(old(cache), db.TemplateState()) ==>
        Coherent(cache, db.TemplateState()) &&
        (r.Success? <==> HasKey(db.templates, id)) &&
        (r.Success? ==> Fresh(TemplateKey(id), db.TemplateState()) == Some(Single(r.value)))
    {
      var k := TemplateKey(id);
      var key := KeyText(k);
      if key in cache && cache[key].Single? {
        return Success(cache[key].view);
      }
      match Lookup(db.templates, id) {
        case None =>
          r := Failure(WorkoutTemplateNotFoundError(id));
        case Some(t) =>
          var v := BasicView(t);
          if Coherent(cache, db.TemplateState()) {
            CoherentSet(cache, db.TemplateState(), k, Single(v));
          }
          cache := cache[key := Single(v)];
          r := Success(v);
      }
    }

    /** GetTemplateByIdWithDetailsAsync: the template with its weeks, workouts and exercises. */
    method GetTemplateByIdWithDetails(id: Guid) returns (r: Result<TemplateView, Error>)
      modifies this`cache
      ensures var key := KeyText(DetailsKey(id));
        var hit := key in old(cache) && old(cache)[key].Single?;
        (hit ==> r == Success(old(cache)[key].view) && cache == old(cache)) &&
        (!hit && !HasKey(db.templates, id) ==> r == Failure(WorkoutTemplateNotFoundError(id)) && cache == old(cache)) &&
        (!hit && HasKey(db.templates, id) ==>
           var v := DetailedView(db.TemplateState(), Lookup(db.templates, id).value);
           r == Success(v) && cache == old(cache)[key := Single(v)])
      ensures Coherent(old(cache), db.TemplateState()) ==>
        Coherent(cache, db.TemplateState()) &&
        (r.Success? <==> HasKey(db.templates, id)) &&
        (r.Success? ==> Fresh(DetailsKey(id), db.TemplateState()) == Some(Single(r.value)))
    {
      var k := DetailsKey(id);
      var key := KeyText(k);
      if key in cache && cache[key].Single? {
        return Success(cache[key].view);
      }
      var c := db.TemplateState();
      match Lookup(c.templates, id) {
        case None =>
          r := Failure(WorkoutTemplateNotFoundError(id));
        case Some(t) =>
          var v := DetailedView(c, t);
          if Coherent(cache, c) {
            CoherentSet(cache, c, k, Single(v));
          }
          cache := cache[key := Single(v)];
          r := Success(v);
      }
    }

    /** UpdateTemplateAsync: save the new header, then drop the four keys that show it. */
    method UpdateTemplate(id: Guid, u: TemplateUpdate) returns (r: Outcome<Error>)
      requires db.Valid()
      modifies db`templates, this`cache
      ensures db.Valid()
      ensures !HasKey(old(db.templates), id) ==>
        r == Fail(WorkoutTemplateNotFoundError(id)) && db.templates == old(db.templates) && cache == old(cache)
      ensures HasKey(old(db.templates), id) && UpdatedHeader(u).Failure? ==>
        r == Fail(SaveFailed) && db.templates == old(db.templates) && cache == old(cache)
      ensures HasKey(old(db.templates), id) && UpdatedHeader(u).Success? ==>
        r == Pass && db.TemplateState() == SetHeader(old(db.TemplateState()), id, UpdatedHeader(u).value) &&
        cache == old(cache) - UpdateKeys(id)
      ensures Coherent(old(cache), old(db.TemplateState())) ==> Coherent(cache, db.TemplateState())
    {
      if !HasKey(db.templates, id) {
        return Fail(WorkoutTemplateNotFoundError(id));
      }
      var h := UpdatedHeader(u);
      if h.Failure? {
        return Fail(h.error);
      }
      var c := db.TemplateState();
      var d := SetHeader(c, id, h.value);
      assert TablesValid(db.users, d, db.subscriptions, db.progress, db.workouts, db.exercises, db.series) by {
        HeaderSetValid(db.users, c, db.subscriptions, db.progress, db.workouts, db.exercises, db.series, id, h.value);
      }
      if Coherent(cache, c) {
        UpdateKeepsCoherent(cache, c, id, h.value);
      }
      db.templates := d.templates;
      cache := cache - UpdateKeys(id);
      r := Pass;
    }

    /** DeleteWorkoutTemplateAsync as written: the cascade, and no cache key removed. */
    method DeleteWorkoutTemplate(id: Guid) returns (r: Outcome<Error>)
      requires db.Valid()
      modifies db`templates, db`weeks, db`templateWorkouts, db`templateExercises
      ensures db.Valid()
      ensures !HasKey(old(db.templates), id) ==>
        r == Fail(WorkoutTemplateNotFoundError(id)) && db.TemplateState() == old(db.TemplateState())
      ensures HasKey(old(db.templates), id) && Restricted(db.subscriptions, db.progress, old(db.TemplateState()), id) ==>
        r == Fail(SaveFailed) && db.TemplateState() == old(db.TemplateState())
      ensures HasKey(old(db.templates), id) && !Restricted(db.subscriptions, db.progress, old(db.TemplateState()), id) ==>
        r == Pass && db.TemplateState() == DeleteCascade(old(db.TemplateState()), id)
    {
      if !HasKey(db.templates, id) {
        return Fail(WorkoutTemplateNotFoundError(id));
      }
      var c := db.TemplateState();
      if Restricted(db.subscriptions, db.progress, c, id) {
        return Fail(SaveFailed);
      }
      Cascade(db, id);
      r := Pass;
    }

    /** The delete with the invalidation an update does, which keeps the cache coherent. */
    method DeleteWorkoutTemplateInvalidating(id: Guid) returns (r: Outcome<Error>)
      requires db.Valid()
      modifies db`templates, db`weeks, db`templateWorkouts, db`templateExercises, this`cache
      ensures db.Valid()
      ensures r.Fail? ==> db.TemplateState() == old(db.TemplateState()) && cache == old(cache)
      ensures r.Pass? <==> HasKey(old(db.templates), id) && !Restricted(db.subscriptions, db.progress, old(db.TemplateState()), id)
      ensures r.Pass? ==> db.TemplateState() == DeleteCascade(old(db.TemplateState()), id) && cache == old(cache) - UpdateKeys(id)
      ensures Coherent(old(cache), old(db.TemplateState())) ==> Coherent(cache, db.TemplateState())
    {
      ghost var c := db.TemplateState();
      r := DeleteWorkoutTemplate(id);
      if r.Pass? {
        if Coherent(cache, c) {
          InvalidatedDeleteKeepsCoherent(cache, c, id);
        }
        cache := cache - UpdateKeys(id);
      }
    }

    // The importer's three loops, each writing one row per element straight
    // into the store; on an exception the caller rolls the transaction back.

    method WriteExercises(workoutId: Guid, items: seq<Json>) returns (r: Outcome<Error>)
      modifies db`templateExercises, db`nextId
      ensures var res := ImportExercises(old(db.TemplateState()), workoutId, items);
        (r.Pass? ==> res == Success(db.TemplateState())) && (r.Fail? ==> res == Failure(r.error))
    {
      ghost var goal := ImportExercises(db.TemplateState(), workoutId, items);
      var i := 0;
      while i < |items|
        invariant 0 <= i <= |items|
        invariant goal == ImportExercises(db.TemplateState(), workoutId, items[i..])
      {
        ghost var c := db.TemplateState();
        ExerciseTurn(c, workoutId, items, i);
        var x := ParseExercise(items[i]);
        if x.Failure? {
          return Fail(x.error);
        }
        var row := Row(db.nextId, TemplateExerciseFields(workoutId, x.value.exerciseName, x.value.prescription));
        db.templateExercises, db.nextId := db.templateExercises + [row], db.nextId + 1;
        assert db.TemplateState() == InsertExercise(c, workoutId, x.value);
        i := i + 1;
      }
      assert items[i..] == [];
      r := Pass;
    }

    method WriteWorkouts(weekId: Guid, items: seq<Json>) returns (r: Outcome<Error>)
      modifies db`templateWorkouts, db`templateExercises, db`nextId
      ensures var res := ImportWorkouts(old(db.TemplateState()), weekId, items);
        (r.Pass? ==> res == Success(db.TemplateState())) && (r.Fail? ==> res == Failure(r.error))
    {
      ghost var goal := ImportWorkouts(db.TemplateState(), weekId, items);
      var i := 0;
      while i < |items|
        invariant 0 <= i <= |items|
        invariant goal == ImportWorkouts(db.TemplateState(), weekId, items[i..])
      {
        ghost var c := db.TemplateState();
        WorkoutTurn(c, weekId, items, i);
        var name := ParseWorkoutName(items[i]);
        if name.Failure? {
          return Fail(name.error);
        }
        var workoutId := db.nextId;
        var row := Row(workoutId, TemplateWorkoutFields(weekId, name.value));
        db.templateWorkouts, db.nextId := db.templateWorkouts + [row], db.nextId + 1;
        assert db.TemplateState() == InsertWorkout(c, weekId, name.value);
        var exercises := ReadArray(items[i], "TemplateExercises");
        if exercises.Failure? {
          return Fail(exercises.error);
        }
        r := WriteExercises(workoutId, exercises.value);
        if r.Fail? {
          return;
        }
        i := i + 1;
      }
      assert items[i..] == [];
      r := Pass;
    }

    method WriteWeeks(templateId: Guid, items: seq<Json>) returns (r: Outcome<Error>)
      modifies db`weeks, db`templateWorkouts, db`templateExercises, db`nextId
      ensures var res := ImportWeeks(old(db.TemplateState()), templateId, items);
        (r.Pass? ==> res == Success(db.TemplateState())) && (r.Fail? ==> res == Failure(r.error))
    {
      ghost var goal := ImportWeeks(db.TemplateState(), templateId, items);
      var i := 0;
      while i < |items|
        invariant 0 <= i <= |items|
        invariant goal == ImportWeeks(db.TemplateState(), templateId, items[i..])
      {
        ghost var c := db.TemplateState();
        WeekTurn(c, templateId, items, i);
        var n := ReadInt32(items[i], "WeekNumber");
        if n.Failure? {
          return Fail(n.error);
        }
        var weekId := db.nextId;
        var row := Row(weekId, WeekFields(templateId, n.value));
        db.weeks, db.nextId := db.weeks + [row], db.nextId + 1;
        assert db.TemplateState() == InsertWeek(c, templateId, n.value);
        var workouts := ReadArray(items[i], "TemplateWorkouts");
        if workouts.Failure? {
          return Fail(workouts.error);
        }
        r := WriteWorkouts(weekId, workouts.value);
        if r.Fail? {
          return;
        }
        i := i + 1;
      }
      assert items[i..] == [];
      r := Pass;
    }

    /** The transaction's body: the header row, then its weeks. */
    method WriteTemplate(root: Json) returns (r: Outcome<Error>)
      modifies db`templates, db`weeks, db`templateWorkouts, db`templateExercises, db`nextId
      ensures var res := ImportTemplate(old(db.TemplateState()), root);
        (r.Pass? ==> res == Success(db.TemplateState())) && (r.Fail? ==> res == Failure(r.error))
    {
      var h := ParseHeader(root);
      if h.Failure? {
        return Fail(h.error);
      }
      ghost var c := db.TemplateState();
      var templateId := db.nextId;
      db.templates, db.nextId := db.templates + [Row(templateId, h.value)], db.nextId + 1;
      assert db.TemplateState() == InsertTemplate(c, h.value);
      var weeks := ReadArray(root, "TemplateWeeks");
      if weeks.Failure? {
        return Fail(weeks.error);
      }
      r := WriteWeeks(templateId, weeks.value);
    }

    /** The transaction: run the body, and on any exception restore what it wrote. */
    method Transaction(root: Json) returns (r: Outcome<Error>)
      modifies db`templates, db`weeks, db`templateWorkouts, db`templateExercises, db`nextId
      ensures var res := ImportTemplate(old(db.TemplateState()), root);
        (r.Pass? ==> res == Success(db.TemplateState())) &&
        (r.Fail? ==> res == Failure(r.error) && db.TemplateState() == old(db.TemplateState()))
    {
      var templates, weeks, workouts, exercises, nextId :=
        db.templates, db.weeks, db.templateWorkouts, db.templateExercises, db.nextId;
      r := WriteTemplate(root);
      if r.Fail? {
        db.templates, db.weeks, db.templateWorkouts, db.templateExercises, db.nextId :=
          templates, weeks, workouts, exercises, nextId;
      }
    }

    /** CreateWorkoutTemplateFromJsonFileAsync as written: all rows or none, and no cache key removed. */
    method CreateFromJson(document: Json) returns (r: Result<TemplateView, Error>)
      requires db.Valid()
      modifies db`templates, db`weeks, db`templateWorkouts, db`templateExercises, db`nextId
      ensures db.Valid()
      ensures ParseDocument(document).Failure? ==>
        r == Failure(ParseDocument(document).error) && db.TemplateState() == old(db.TemplateState())
      ensures ParseDocument(document).Success? ==>
        var t := ParseDocument(document).value;
        var header := Row(old(db.nextId), t.header);
        db.TemplateState() == Materialize(old(db.TemplateState()), t) &&
        Lookup(db.templates, header.id) == Some(header) &&
        r == Success(DetailedView(db.TemplateState(), header)) && Content(r.value) == t
    {
      var root := GetProperty(document, "WorkoutTemplate");
      if root.Failure? {
        return Failure(root.error);
      }
      assert ParseDocument(document) == ParseTemplate(root.value);
      r := ImportRoot(root.value);
    }

    /** The import once the "WorkoutTemplate" element is found. */
    method ImportRoot(root: Json) returns (r: Result<TemplateView, Error>)
      requires db.Valid()
      modifies db`templates, db`weeks, db`templateWorkouts, db`templateExercises, db`nextId
      ensures db.Valid()
      ensures ParseTemplate(root).Failure? ==>
        r == Failure(ParseTemplate(root).error) && db.TemplateState() == old(db.TemplateState())
      ensures ParseTemplate(root).Success? ==>
        var t := ParseTemplate(root).value;
        var header := Row(old(db.nextId), t.header);
        db.TemplateState() == Materialize(old(db.TemplateState()), t) &&
        Lookup(db.templates, header.id) == Some(header) &&
        r == Success(DetailedView(db.TemplateState(), header)) && Content(r.value) == t
    {
      ghost var users, c, subscriptions, progress, workouts, exercises, series :=
        db.users, db.TemplateState(), db.subscriptions, db.progress, db.workouts, db.exercises, db.series;
      ImportIsParseThenMaterialize(c, root);
      var id := db.nextId;
      var written := Transaction(root);
      if written.Fail? {
        db.ValidFrom(users, c, subscriptions, progress, workouts, exercises, series);
        return Failure(written.error);
      }
      ghost var t := ParseTemplate(root).value;
      var view := ReadImported(db, id, users, c, t, subscriptions, progress, workouts, exercises, series);
      r := Success(view);
    }

    /** The import with the listings dropped afterwards, which keeps the cache coherent. */
    method CreateFromJsonInvalidating(document: Json) returns (r: Result<TemplateView, Error>)
      requires db.Valid()
      modifies db`templates, db`weeks, db`templateWorkouts, db`templateExercises, db`nextId, this`cache
      ensures db.Valid()
      ensures r.Failure? ==> db.TemplateState() == old(db.TemplateState()) && cache == old(cache)
      ensures r.Success? <==> ParseDocument(document).Success?
      ensures r.Success? ==>
        db.TemplateState() == Materialize(old(db.TemplateState()), ParseDocument(document).value) &&
        Content(r.value) == ParseDocument(document).value && cache == old(cache) - CatalogKeys()
      ensures Coherent(old(cache), old(db.TemplateState())) ==> Coherent(cache, db.TemplateState())
    {
      ghost var c := db.TemplateState();
      r := CreateFromJson(document);
      if r.Success? {
        if Coherent(cache, c) {
          InvalidatedImportKeepsCoherent(cache, c, ParseDocument(document).value);
        }
        cache := cache - CatalogKeys();
      }
    }
  }
}
