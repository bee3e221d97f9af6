/** UserWorkoutTemplateService: a user subscribing to a workout template.
    Selecting runs three ordered existence checks before inserting a
    (user, template, start date) row; reading and removing are scoped to the
    subscription's owner. */
module UserWorkoutTemplateService {
  import opened Guids
  import opened Wrappers
  import opened Errors
  import opened Entities
  import opened Tables
  import opened TemplateCatalog
  import opened Store

  function OfSubscriber(userId: Guid): Row<SubscriptionFields> -> bool {
    (x: Row<SubscriptionFields>) => x.val.userId == userId
  }

  function NotOfSubscription(subscriptionId: Guid): Row<ProgressFields> -> bool {
    (x: Row<ProgressFields>) => x.val.subscriptionId != subscriptionId
  }

  /** Some subscription already pairs this user with this template. */
  predicate PairSelected(subscriptions: Table<SubscriptionFields>, userId: Guid, templateId: Guid) {
    exists i :: 0 <= i < |subscriptions| && SubscriptionPair(subscriptions[i]) == (userId, templateId)
  }

  /** The guards of SelectTemplateForUserAsync, in the order the service runs them. */
  function SelectCheck(users: set<Guid>, templates: Table<TemplateFields>, subscriptions: Table<SubscriptionFields>,
                       userId: Guid, templateId: Guid): (r: Outcome<Error>)
    ensures userId !in users ==> r == Fail(UserNotFoundError(userId))
    ensures userId in users && !HasKey(templates, templateId) ==> r == Fail(WorkoutTemplateNotFoundError(templateId))
    ensures userId in users && HasKey(templates, templateId) && PairSelected(subscriptions, userId, templateId) ==>
      r == Fail(TemplateAlreadySelectedError(userId, templateId))
    ensures r.Pass? <==>
      userId in users && HasKey(templates, templateId) && !PairSelected(subscriptions, userId, templateId)
  {
    if userId !in users then Fail(UserNotFoundError(userId))
    else if !HasKey(templates, templateId) then Fail(WorkoutTemplateNotFoundError(templateId))
    else if PairSelected(subscriptions, userId, templateId) then Fail(TemplateAlreadySelectedError(userId, templateId))
    else Pass
  }

  /** The duplicate check is exactly what keeps pairs unique: appending a
      subscription keeps them unique iff its pair was not yet selected. */
  lemma SelectKeepsPairsUnique(subscriptions: Table<SubscriptionFields>, row: Row<SubscriptionFields>)
    requires SubscriptionPairsUnique(subscriptions)
    ensures SubscriptionPairsUnique(subscriptions + [row]) <==>
      !PairSelected(subscriptions, row.val.userId, row.val.templateId)
  {
    DistinctByAppend(subscriptions, SubscriptionPair, row);
  }

  /** SelectTemplateForUserAsync. */
  method SelectTemplate(db: Db, userId: Guid, templateId: Guid, startDate: DateTime)
    returns (r: Result<Row<SubscriptionFields>, Error>)
    requires db.Valid()
    modifies db`subscriptions, db`nextId
    ensures db.Valid()
    ensures var check := SelectCheck(old(db.users), old(db.templates), old(db.subscriptions), userId, templateId);
      (check.Fail? ==> r == Failure(check.error) && db.subscriptions == old(db.subscriptions) && db.nextId == old(db.nextId)) &&
      (check.Pass? ==>
         r == Success(Row(old(db.nextId), SubscriptionFields(userId, templateId, startDate))) &&
         db.subscriptions == old(db.subscriptions) + [r.value] && db.nextId == old(db.nextId) + 1)
  {
    var check := SelectCheck(db.users, db.templates, db.subscriptions, userId, templateId);
    if check.Fail? {
      return Failure(check.error);
    }
    var row := Row(db.nextId, SubscriptionFields(userId, templateId, startDate));
    KeyedAppend(db.subscriptions, db.nextId, row.val);
    SelectKeepsPairsUnique(db.subscriptions, row);
    var before := db.subscriptions;
    db.subscriptions := before + [row];
    db.nextId := db.nextId + 1;
    forall i | 0 <= i < |db.progress| ensures HasKey(db.subscriptions, db.progress[i].val.subscriptionId) {
      HasKeyExtends(before, db.subscriptions, db.progress[i].val.subscriptionId);
    }
    r := Success(row);
  }

  /** GetUserWorkoutTemplatesAsync: every subscription of a known user. */
  function GetUserWorkoutTemplates(users: set<Guid>, subscriptions: Table<SubscriptionFields>, userId: Guid)
    : (r: Result<Table<SubscriptionFields>, Error>)
    ensures r.Failure? <==> userId !in users
    ensures r.Failure? ==> r.error == UserNotFoundError(userId)
    ensures r.Success? ==>
      (forall i :: 0 <= i < |r.value| ==> r.value[i] in subscriptions && r.value[i].val.userId == userId) &&
      (forall i :: 0 <= i < |subscriptions| && subscriptions[i].val.userId == userId ==> subscriptions[i] in r.value)
  {
    if userId !in users then Failure(UserNotFoundError(userId))
    else Success(Where(subscriptions, OfSubscriber(userId)))
  }

  /** The subscription, when it exists and belongs to the user. */
  predicate OwnedSubscription(subscriptions: Table<SubscriptionFields>, subscriptionId: Guid, userId: Guid) {
    match Lookup(subscriptions, subscriptionId)
    case None => false
    case Some(row) => row.val.userId == userId
  }

  /** GetUserWorkoutTemplateByIdAsync. */
  function GetUserWorkoutTemplateById(subscriptions: Table<SubscriptionFields>, userId: Guid, subscriptionId: Guid)
    : (r: Result<Row<SubscriptionFields>, Error>)
    ensures r.Success? <==> OwnedSubscription(subscriptions, subscriptionId, userId)
    ensures r.Failure? ==> r.error == UserWorkoutTemplateNotFoundForUserError(subscriptionId, userId)
    ensures r.Success? ==> r.value in subscriptions && r.value.id == subscriptionId && r.value.val.userId == userId
  {
    if !OwnedSubscription(subscriptions, subscriptionId, userId) then
      Failure(UserWorkoutTemplateNotFoundForUserError(subscriptionId, userId))
    else Success(Lookup(subscriptions, subscriptionId).value)
  }

  /** RemoveTemplateForUserAsync: the owner's subscription goes, and its progress
      rows with it (the schema's cascade). */
  method RemoveTemplate(db: Db, userId: Guid, subscriptionId: Guid) returns (r: Outcome<Error>)
    requires db.Valid()
    modifies db`subscriptions, db`progress
    ensures db.Valid()
    ensures r.Pass? <==> OwnedSubscription(old(db.subscriptions), subscriptionId, userId)
    ensures r.Fail? ==>
      r.error == UserWorkoutTemplateNotFoundForUserError(subscriptionId, userId) &&
      db.subscriptions == old(db.subscriptions) && db.progress == old(db.progress)
    ensures r.Pass? ==>
      var k := Find(old(db.subscriptions), subscriptionId).value;
      db.subscriptions == old(db.subscriptions)[..k] + old(db.subscriptions)[k + 1..] &&
      db.progress == Where(old(db.progress), NotOfSubscription(subscriptionId))
  {
    if !OwnedSubscription(db.subscriptions, subscriptionId, userId) {
      return Fail(UserWorkoutTemplateNotFoundForUserError(subscriptionId, userId));
    }
    DeleteSubscription(db, subscriptionId);
    r := Pass;
  }

  /** The repository's Remove + SaveChanges of a subscription, with the cascade to its progress rows. */
  method DeleteSubscription(db: Db, subscriptionId: Guid)
    requires db.Valid() && HasKey(db.subscriptions, subscriptionId)
    modifies db`subscriptions, db`progress
    ensures db.Valid()
    ensures var k := Find(old(db.subscriptions), subscriptionId).value;
      db.subscriptions == old(db.subscriptions)[..k] + old(db.subscriptions)[k + 1..] &&
      db.progress == Where(old(db.progress), NotOfSubscription(subscriptionId))
  {
    ghost var users, c, subscriptions, progress, workouts, exercises, series :=
      db.users, db.TemplateState(), db.subscriptions, db.progress, db.workouts, db.exercises, db.series;
    var s, p := RemoveKey(db.subscriptions, subscriptionId), Where(db.progress, NotOfSubscription(subscriptionId));
    RemoveSubscriptionValid(users, c, subscriptions, progress, workouts, exercises, series, subscriptionId);
    db.subscriptions, db.progress := s, p;
    db.ValidFrom(users, c, s, p, workouts, exercises, series);
  }

  /** Deleting a subscription together with its progress rows keeps the store valid. */
  lemma RemoveSubscriptionValid(users: set<Guid>, c: Catalog, subscriptions: Table<SubscriptionFields>,
                                progress: Table<ProgressFields>, workouts: Table<WorkoutFields>,
                                exercises: Table<ExerciseFields>, series: Table<SeriesFields>, subscriptionId: Guid)
    requires TablesValid(users, c, subscriptions, progress, workouts, exercises, series)
    requires HasKey(subscriptions, subscriptionId)
    ensures var k := Find(subscriptions, subscriptionId).value;
      RemoveKey(subscriptions, subscriptionId) == subscriptions[..k] + subscriptions[k + 1..]
    ensures TablesValid(users, c, RemoveKey(subscriptions, subscriptionId),
                        Where(progress, NotOfSubscription(subscriptionId)), workouts, exercises, series)
  {
    var k := Find(subscriptions, subscriptionId).value;
    RemoveKeyed(subscriptions, c.nextId, k);
    SubscriptionRemoved(users, c.templates, subscriptions, subscriptionId, c.nextId);
    ProgressCascaded(subscriptions, c.exercises, progress, subscriptionId, c.nextId);
  }

  lemma SubscriptionRemoved(users: set<Guid>, templates: Table<TemplateFields>,
                            subscriptions: Table<SubscriptionFields>, subscriptionId: Guid, n: nat)
    requires SubscriptionsValid(users, templates, subscriptions, n)
    ensures SubscriptionsValid(users, templates, RemoveKey(subscriptions, subscriptionId), n)
  {
    var keep := (x: Row<SubscriptionFields>) => x.id != subscriptionId;
    WhereKeyed(subscriptions, keep, n);
    WhereAllHold(subscriptions, keep,
      (x: Row<SubscriptionFields>) => x.val.userId in users && HasKey(templates, x.val.templateId));
    WhereDistinctBy(subscriptions, keep, SubscriptionPair);
  }

  lemma ProgressCascaded(subscriptions: Table<SubscriptionFields>, templateExercises: Table<TemplateExerciseFields>,
                         progress: Table<ProgressFields>, subscriptionId: Guid, n: nat)
    requires ProgressValid(subscriptions, templateExercises, progress, n)
    ensures ProgressValid(RemoveKey(subscriptions, subscriptionId), templateExercises,
                          Where(progress, NotOfSubscription(subscriptionId)), n)
  {
    var keep := (x: Row<SubscriptionFields>) => x.id != subscriptionId;
    var s := RemoveKey(subscriptions, subscriptionId);
    var p := Where(progress, NotOfSubscription(subscriptionId));
    WhereKeyed(progress, NotOfSubscription(subscriptionId), n);
    WhereAllHold(progress, NotOfSubscription(subscriptionId),
      (x: Row<ProgressFields>) => HasKey(templateExercises, x.val.templateExerciseId));
    WhereDistinctBy(progress, NotOfSubscription(subscriptionId), ProgressPair);
    forall i | 0 <= i < |p| ensures HasKey(s, p[i].val.subscriptionId) {
      var j :| 0 <= j < |progress| && progress[j] == p[i];
      HasKeyWhere(subscriptions, keep, p[i].val.subscriptionId);
    }
  }
}
