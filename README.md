# GymTracker core, modelled in Dafny

GymTracker is a workout log with a catalog of workout templates. This project models its core:

- **Workout log.** A user owns workouts, a workout holds exercises, and an exercise holds series (sets). Three services create, update, delete and read these. Each one checks the ownership chain first.
- **Template catalog.** A template holds weeks, a week holds workouts, and a workout holds template exercises. WorkoutTemplateService reads it through a memory cache. It imports a whole template from a JSON document inside one transaction, updates a header, and deletes a template with its cascade.
- **Subscriptions and progress.** A user subscribes to a template. For each (subscription, template exercise) pair there is one progress record with four set counts, a completed flag and a completion date.
- **Validators and error mapping.** GuidValidator, EntityValidator, and the middleware that turns an exception into an HTTP status and body.
- **Client helpers.** The Angular client has three small helpers: the rep range of a workout card, and the total sets and RPE range of the details dialog.

The store is one class, `Store.Db`. It has one `seq` field per table and a counter that hands out fresh ids. A Guid is a natural number, and `Guid.Empty` is 0. Store-wide validity (`Store.TablesValid`) covers unique keys, foreign keys, unique (user, template) and (subscription, template exercise) pairs, and every id below the counter. Every mutator preserves it.

State-changing operations are methods. Their `ensures` give the new tables in terms of the old ones. Read-only operations are functions. The importer's three nested loops are methods. They are proved against fold functions, and the folds are proved equal to "parse, then write". The client's RPE range is a method with two nested loops, proved against the minimum and maximum of the list of RPEs.

## Model

| member | source | states |
|---|---|---|
| GuidValidator.Validate | api/src/GymTracker.Infrastructure/Common/Utility/GuidValidator.cs:5-14 | fails iff some argument is Guid.Empty (0), and the failure is always ArgumentNull with the same message; an empty argument list passes |
| GuidValidator.ValidateConcat | api/src/GymTracker.Infrastructure/Common/Utility/GuidValidator.cs:7-13 | validating a ++ b passes iff validating a passes and validating b passes |
| GuidValidator.FailureIndependentOfPosition | api/src/GymTracker.Infrastructure/Common/Utility/GuidValidator.cs:11 | whichever position holds the empty id, the failure is the same ArgumentNull |
| EntityValidator.EnsureWorkoutExists | api/src/GymTracker.Infrastructure/Common/Utility/EntityValidator.cs:18-25 | fails iff the workout is null (no ownership check), with WorkoutNotFound naming the id |
| EntityValidator.EnsureExerciseExists | api/src/GymTracker.Infrastructure/Common/Utility/EntityValidator.cs:27-34 | fails iff the exercise is null or belongs to another workout, with ExerciseNotFound |
| EntityValidator.EnsureSeriesExists | api/src/GymTracker.Infrastructure/Common/Utility/EntityValidator.cs:36-43 | fails iff the series is null or belongs to another exercise, with SeriesNotFound |
| EntityValidator.EnsureUserExists | api/src/GymTracker.Infrastructure/Common/Utility/EntityValidator.cs:45-52 | fails iff the user is null, with UserNotFound |
| ErrorHandlingMiddleware.HandleException | api/src/GymTracker.API/Exceptions/ErrorHandlingMiddleware.cs:28-63 | 404 iff one of the four not-found kinds, 401 iff UnauthorizedAccess, 500 otherwise; the body is "Error: " + message for 404/401 and the fixed text for 500 |
| ErrorHandlingMiddleware.ServiceSpecificErrorsAre500 | api/src/GymTracker.API/Exceptions/ErrorHandlingMiddleware.cs:33-63 | the template, selection, subscription and progress exceptions have no case and reach the client as 500 with the fixed text |
| ErrorHandlingMiddleware.ClientErrorBodyDeterminesMessage | api/src/GymTracker.API/Exceptions/ErrorHandlingMiddleware.cs:35-58 | two 404/401 responses that are equal carry the same exception message |
| Guids.GuidTextInjective | api/src/GymTracker.Infrastructure/Services/WorkoutTemplateService.cs:84 | distinct ids print differently, so the per-id messages and cache keys never collide |
| Columns.Utf16LengthIsCountIffBmp | api/src/GymTracker.Infrastructure/Data/Config/WorkoutTemplateConfiguration.cs:15-17 | the nvarchar length equals the character count iff no character needs a surrogate pair |
| Columns.Utf16LengthConcat | api/src/GymTracker.Infrastructure/Data/Config/WorkoutTemplateConfiguration.cs:15-17 | the nvarchar length of a concatenation is the sum of the two lengths |
| Columns.EmojiNameOverLimit | api/src/GymTracker.Infrastructure/Data/Config/ExerciseConfiguration.cs:12 | 51 emoji are 51 characters but 102 UTF-16 units, so a 100-unit column refuses them |
| Columns.RequiredColumn | api/src/GymTracker.Infrastructure/Data/Config/WorkoutTemplateConfiguration.cs:15-17 | a required text column accepts exactly a non-null value within its limit counted in UTF-16 code units, and SaveChanges fails with DbUpdate otherwise |
| WorkoutService.Patched | api/src/GymTracker.Infrastructure/Services/WorkoutService.cs:35 | the update copies the date, keeps the owner, and keeps the notes when the DTO's notes are null and stores the DTO's notes otherwise |
| WorkoutService.CreateWorkout | api/src/GymTracker.Infrastructure/Services/WorkoutService.cs:19-25 | the new row is stamped with the caller's id, keeps the DTO's notes (null included) and is appended with a fresh id; an unknown user violates the foreign key and nothing changes |
| WorkoutService.InsertWorkout | api/src/GymTracker.Infrastructure/Repositories/WorkoutRepository.cs:34-39 | the row is appended under the next fresh id, the counter advances by one, and the store stays valid |
| WorkoutService.WorkoutInsertValid | api/src/GymTracker.Infrastructure/Repositories/WorkoutRepository.cs:34-39 | appending a workout owned by a known user keeps the keys and every foreign key of the store |
| WorkoutService.UpdateWorkout | api/src/GymTracker.Infrastructure/Services/WorkoutService.cs:27-38 | true iff the workout exists and is the caller's; false changes nothing; true overwrites exactly that row |
| WorkoutService.DeleteWorkout | api/src/GymTracker.Infrastructure/Services/WorkoutService.cs:40-50 | true iff the workout is the caller's; then exactly that row goes, with its exercises and their series |
| WorkoutService.RemoveWorkoutValid | api/src/GymTracker.Infrastructure/Repositories/WorkoutRepository.cs:47-55 | removing a workout with its cascade keeps the store valid, and removes exactly that row |
| WorkoutService.CascadeValid | api/src/GymTracker.Infrastructure/Data/Config/ExerciseConfiguration.cs:14-17 | after the cascade, no remaining exercise or series refers to a removed parent |
| WorkoutService.GetAllWorkoutsForUser | api/src/GymTracker.Infrastructure/Services/WorkoutService.cs:52-57 | every returned workout is the user's, and every workout of the user is returned |
| WorkoutService.GetWorkoutByIdForUser | api/src/GymTracker.Infrastructure/Services/WorkoutService.cs:59-70 | some iff the workout exists and is the user's; it is then that row |
| ExerciseService.CreateExercise | api/src/GymTracker.Infrastructure/Services/ExerciseService.cs:21-33 | UnauthorizedAccess unless the caller owns the workout; a null or over-long name fails at SaveChanges; otherwise one row under workoutId is appended and nothing else changes |
| ExerciseService.InsertExercise | api/src/GymTracker.Infrastructure/Repositories/ExerciseRepository.cs:32-37 | the row is appended under the next fresh id, the counter advances by one, and the store stays valid |
| ExerciseService.ExerciseInsertValid | api/src/GymTracker.Infrastructure/Repositories/ExerciseRepository.cs:32-37 | appending an exercise under an existing workout, with a name that fits its column, keeps the store valid |
| ExerciseService.Renamed | api/src/GymTracker.Infrastructure/Services/ExerciseService.cs:49 | the update keeps the workout and replaces the name unless the new name is null |
| ExerciseService.UpdateExercise | api/src/GymTracker.Infrastructure/Services/ExerciseService.cs:35-52 | false iff a link fails (nothing changes); a name over the limit fails at SaveChanges; otherwise exactly that row is renamed |
| ExerciseService.DeleteExercise | api/src/GymTracker.Infrastructure/Services/ExerciseService.cs:54-70 | true iff both links hold; then exactly that exercise goes, with its series |
| ExerciseService.ExerciseCascadeValid | api/src/GymTracker.Infrastructure/Repositories/ExerciseRepository.cs:45-54 | removing an exercise and its series keeps the keys and foreign keys of the log |
| ExerciseService.GetAllExercisesForWorkout | api/src/GymTracker.Infrastructure/Services/ExerciseService.cs:72-82 | UnauthorizedAccess iff the caller does not own the workout; otherwise exactly the workout's exercises |
| ExerciseService.GetExerciseById | api/src/GymTracker.Infrastructure/Services/ExerciseService.cs:84-99 | some iff both links hold, and then it is that exercise |
| SeriesService.CheckChain | api/src/GymTracker.Infrastructure/Services/SeriesService.cs:25-35 | passes iff the workout is the caller's and the exercise is in it; the workout check comes first, each with its own message |
| SeriesService.CreateSeries | api/src/GymTracker.Infrastructure/Services/SeriesService.cs:23-41 | a failed check returns its error and changes nothing; otherwise exactly one set under exerciseId is appended with a fresh id |
| SeriesService.InsertSeries | api/src/GymTracker.Infrastructure/Repositories/SeriesRepository.cs:27-32 | the row is appended under the next fresh id, the counter advances by one, and the store stays valid |
| SeriesService.SeriesInsertValid | api/src/GymTracker.Infrastructure/Repositories/SeriesRepository.cs:27-32 | appending a set under an existing exercise keeps the store valid |
| SeriesService.UpdateSeries | api/src/GymTracker.Infrastructure/Services/SeriesService.cs:43-66 | true iff all three links hold; false changes nothing; true overwrites both counts of exactly that set |
| SeriesService.SeriesSetValid | api/src/GymTracker.Infrastructure/Repositories/SeriesRepository.cs:34-38 | overwriting an existing set under an existing exercise keeps the store valid |
| SeriesService.DeleteSeries | api/src/GymTracker.Infrastructure/Services/SeriesService.cs:68-90 | true iff all three links hold; then exactly that set is removed |
| SeriesService.RemoveSeriesRow | api/src/GymTracker.Infrastructure/Repositories/SeriesRepository.cs:40-49 | exactly the row with that id is cut out of the table, and the store stays valid |
| SeriesService.SeriesRemoveValid | api/src/GymTracker.Infrastructure/Repositories/SeriesRepository.cs:40-49 | removing one set keeps the store valid and removes exactly that row |
| SeriesService.GetAllSeriesForExercise | api/src/GymTracker.Infrastructure/Services/SeriesService.cs:92-108 | fails with the check's error iff an upper link fails; otherwise exactly the exercise's sets |
| SeriesService.GetSeriesById | api/src/GymTracker.Infrastructure/Services/SeriesService.cs:110-131 | throws on a workout or exercise mismatch, but answers null on a series mismatch |
| UserWorkoutTemplateService.SelectCheck | api/src/GymTracker.Infrastructure/Services/UserWorkoutTemplateService.cs:36-54 | UserNotFound before WorkoutTemplateNotFound before TemplateAlreadySelected; passes iff the user and template exist and the pair is new |
| UserWorkoutTemplateService.SelectKeepsPairsUnique | api/src/GymTracker.Infrastructure/Services/UserWorkoutTemplateService.cs:50-64 | appending a subscription keeps (user, template) pairs unique iff the pair was not yet selected |
| UserWorkoutTemplateService.SelectTemplate | api/src/GymTracker.Infrastructure/Services/UserWorkoutTemplateService.cs:33-67 | a failed check returns its error and changes nothing; otherwise exactly one row (user, template, start date) is appended |
| UserWorkoutTemplateService.GetUserWorkoutTemplates | api/src/GymTracker.Infrastructure/Services/UserWorkoutTemplateService.cs:69-81 | UserNotFound iff the user is unknown; otherwise exactly the user's subscriptions |
| UserWorkoutTemplateService.GetUserWorkoutTemplateById | api/src/GymTracker.Infrastructure/Services/UserWorkoutTemplateService.cs:83-93 | succeeds iff the subscription exists and is the user's, and then returns it |
| UserWorkoutTemplateService.RemoveTemplate | api/src/GymTracker.Infrastructure/Services/UserWorkoutTemplateService.cs:95-107 | passes iff the subscription is the user's; then exactly that row goes, with its progress records |
| UserWorkoutTemplateService.DeleteSubscription | api/src/GymTracker.Infrastructure/Repositories/UserWorkoutTemplateRepository.cs:59-70 | exactly the subscription row is cut out, every progress record under it goes, and the store stays valid |
| UserWorkoutTemplateService.RemoveSubscriptionValid | api/src/GymTracker.Infrastructure/Data/Config/UserWorkoutTemplateConfiguration.cs:28-32 | removing a subscription with its cascaded progress records keeps the store valid |
| UserWorkoutTemplateService.SubscriptionRemoved | api/src/GymTracker.Infrastructure/Repositories/UserWorkoutTemplateRepository.cs:59-73 | removing a subscription keeps the subscription table's keys, links and unique pairs |
| UserWorkoutTemplateService.ProgressCascaded | api/src/GymTracker.Infrastructure/Data/Config/UserWorkoutTemplateConfiguration.cs:28-32 | dropping a subscription's progress records keeps the progress table valid against the remaining subscriptions |
| UserExerciseProgressService.Applied | api/src/GymTracker.Infrastructure/Services/UserExerciseProgressService.cs:46-57 | the DTO overwrites every count, the flag and the date, and keeps the record's two foreign ids |
| UserExerciseProgressService.Marked | api/src/GymTracker.Infrastructure/Services/UserExerciseProgressService.cs:92-93 | the flag becomes the argument; the date is the clock iff completed and null otherwise; the counts and ids stay |
| UserExerciseProgressService.Cleared | api/src/GymTracker.Infrastructure/Services/UserExerciseProgressService.cs:111-116 | all four counts are null, the flag is false, the date is null, and the ids stay |
| UserExerciseProgressService.ResetIdempotent | api/src/GymTracker.Infrastructure/Services/UserExerciseProgressService.cs:111-116 | resetting twice equals resetting once |
| UserExerciseProgressService.UpdateMayBreakConsistency | api/src/GymTracker.Infrastructure/Services/UserExerciseProgressService.cs:74-76 | an update can leave a record completed without a date |
| UserExerciseProgressService.PairRecord | api/src/GymTracker.Infrastructure/Services/UserExerciseProgressService.cs:40-41 | none iff no record has the pair; otherwise a record of the table with that pair |
| UserExerciseProgressService.LogProgress | api/src/GymTracker.Infrastructure/Services/UserExerciseProgressService.cs:30-63 | an unknown subscription fails and changes nothing; an existing pair's record is overwritten in place; a new pair gets exactly one new row, or the foreign key fails when the template exercise is unknown |
| UserExerciseProgressService.OverwriteRecord | api/src/GymTracker.Infrastructure/Services/UserExerciseProgressService.cs:53-58 | the pair's existing record keeps its id and takes the DTO's values; nothing else in the table changes |
| UserExerciseProgressService.ProgressInsertValid | api/src/GymTracker.Infrastructure/Repositories/UserExerciseProgressRepository.cs:37-46 | inserting a record for a fresh pair with existing parents keeps the store valid |
| UserExerciseProgressService.ProgressAppendValid | api/src/GymTracker.Infrastructure/Data/Config/UserExerciseProgressConfiguration.cs:22-32 | the new record keeps the progress table's keys, links and unique pairs |
| UserExerciseProgressService.ProgressSetValid | api/src/GymTracker.Infrastructure/Services/UserExerciseProgressService.cs:54-58 | overwriting a record without touching its pair keeps the progress table valid |
| UserExerciseProgressService.UpdateProgress | api/src/GymTracker.Infrastructure/Services/UserExerciseProgressService.cs:65-80 | UserExerciseProgressNotFound iff the id is unknown (nothing changes); otherwise the DTO is applied to exactly that record |
| UserExerciseProgressService.MarkCompleted | api/src/GymTracker.Infrastructure/Services/UserExerciseProgressService.cs:82-99 | not found iff the id is unknown; otherwise exactly that record is marked |
| UserExerciseProgressService.ResetProgress | api/src/GymTracker.Infrastructure/Services/UserExerciseProgressService.cs:101-121 | not found iff the id is unknown; otherwise exactly that record is cleared |
| UserExerciseProgressService.GetProgressBySubscription | api/src/GymTracker.Infrastructure/Services/UserExerciseProgressService.cs:123-128 | exactly the subscription's records; none for an unknown one |
| UserExerciseProgressService.GetProgressById | api/src/GymTracker.Infrastructure/Services/UserExerciseProgressService.cs:130-139 | not found iff the id is unknown; otherwise that record |
| TemplateCatalog.SetHeader | api/src/GymTracker.Infrastructure/Repositories/WorkoutTemplateRepository.cs:79-87 | an update of the header leaves the weeks, workouts, exercises and id counter unchanged |
| TemplateCatalog.DetailedViewIgnoresHeaders | api/src/GymTracker.Infrastructure/Repositories/WorkoutTemplateRepository.cs:51-59 | a template's included graph depends only on the week, workout and exercise tables |
| TemplateCatalog.BasicList | api/src/GymTracker.Infrastructure/Repositories/WorkoutTemplateRepository.cs:20-36 | one response per template, each with an empty week list |
| TemplateCatalog.DetailedList | api/src/GymTracker.Infrastructure/Repositories/WorkoutTemplateRepository.cs:38-49 | one response per template, each carrying its header |
| TemplateDocument.LastNamed | api/src/GymTracker.Infrastructure/Services/WorkoutTemplateService.cs:140 | finds the last property of that name, and none iff no property has it |
| TemplateDocument.GetProperty | api/src/GymTracker.Infrastructure/Services/WorkoutTemplateService.cs:140 | fails iff the element is not an object or lacks the name; a non-object gives InvalidOperation, a missing name KeyNotFound |
| TemplateDocument.GetString | api/src/GymTracker.Infrastructure/Services/WorkoutTemplateService.cs:149-150 | succeeds iff the value is a string or null, and gives its text or null |
| TemplateDocument.GetInt32 | api/src/GymTracker.Infrastructure/Services/WorkoutTemplateService.cs:151 | succeeds iff the value is an integer within Int32, and gives it; a number outside that range is a FormatException |
| TemplateDocument.EnumerateArray | api/src/GymTracker.Infrastructure/Services/WorkoutTemplateService.cs:156 | succeeds iff the value is an array, and gives its items |
| TemplateDocument.ParseExercises | api/src/GymTracker.Infrastructure/Services/WorkoutTemplateService.cs:179-197 | on success, one exercise per array item |
| TemplateDocument.ParseWorkouts | api/src/GymTracker.Infrastructure/Services/WorkoutTemplateService.cs:168-198 | on success, one workout per array item |
| TemplateDocument.ParseWeeks | api/src/GymTracker.Infrastructure/Services/WorkoutTemplateService.cs:157-199 | on success, one week per array item |
| TemplateImport.ImportIsParseThenMaterialize | api/src/GymTracker.Infrastructure/Services/WorkoutTemplateService.cs:147-199 | the importer's interleaved read-and-insert loops fail with exactly the parser's error, and otherwise write exactly Materialize of the parsed content |
| TemplateImport.AddWeeksRows | api/src/GymTracker.Infrastructure/Services/WorkoutTemplateService.cs:156-199 | every new week's template id is the new template's id, and every new workout and exercise hangs under a newly written parent |
| TemplateImport.AddWorkoutsRows | api/src/GymTracker.Infrastructure/Services/WorkoutTemplateService.cs:167-198 | every new workout's week id is its week's id, and every new exercise hangs under a newly written workout |
| TemplateImport.ExerciseRowsContent | api/src/GymTracker.Infrastructure/Services/WorkoutTemplateService.cs:179-196 | the exercise rows written for a workout read back as the document's exercises, in order |
| TemplateImport.AddWeeksContent | api/src/GymTracker.Infrastructure/Services/WorkoutTemplateService.cs:156-199 | the weeks written read back, with their workouts and exercises, as the document's weeks in document order |
| TemplateImport.MaterializeReadBack | api/src/GymTracker.Infrastructure/Services/WorkoutTemplateService.cs:147-202 | the new template is stored under the first fresh id, and its detailed view with ids erased is exactly the parsed document |
| TemplateImport.MaterializeValid | api/src/GymTracker.Infrastructure/Data/Config/TemplateWeekConfiguration.cs:15-27 | writing a template keeps the catalog's keys and parent links, only appends rows, and moves the counter forward |
| TemplateCascade.DeleteCascadeExact | api/src/GymTracker.Infrastructure/Data/Config/WorkoutTemplateConfiguration.cs:19-23 | the delete removes exactly the template, its weeks, their workouts and their exercises, and keeps every other row |
| TemplateCascade.DeleteCascadeValid | api/src/GymTracker.Infrastructure/Data/Config/UserWorkoutTemplateConfiguration.cs:22-26 | when no subscription and no progress record blocks it, the cascade keeps the store valid |
| TemplateCascade.OtherTemplateUnchanged | api/src/GymTracker.Infrastructure/Repositories/WorkoutTemplateRepository.cs:89-98 | deleting one template leaves every other template's detailed view unchanged |
| TemplateCache.KeyText | api/src/GymTracker.Infrastructure/Services/WorkoutTemplateService.cs:48 | the per-id keys are "Template_" and "TemplateWithDetails_" followed by the id |
| TemplateCache.KeyTextInjective | api/src/GymTracker.Infrastructure/Services/WorkoutTemplateService.cs:48-124 | two cache keys have the same text iff they are the same key |
| TemplateCache.Fresh | api/src/GymTracker.Infrastructure/Services/WorkoutTemplateService.cs:57-124 | what a miss would store: the listings for the two catalog keys; for a per-id key, nothing iff the template is missing, else that template's response |
| TemplateCache.CoherentSet | api/src/GymTracker.Infrastructure/Services/WorkoutTemplateService.cs:71-124 | storing a freshly read value keeps a coherent cache coherent |
| TemplateCache.CoherentHit | api/src/GymTracker.Infrastructure/Services/WorkoutTemplateService.cs:50-77 | on a coherent cache a hit returns what a miss would read |
| TemplateCache.UpdateKeys | api/src/GymTracker.Infrastructure/Services/WorkoutTemplateService.cs:243-246 | the keys removed are exactly AllTemplatesBasic, AllTemplatesDetailed, Template_<id> and TemplateWithDetails_<id> |
| TemplateCache.UpdateKeysCount | api/src/GymTracker.Infrastructure/Services/WorkoutTemplateService.cs:243-246 | those are four different keys |
| TemplateCache.UpdateKeepsCoherent | api/src/GymTracker.Infrastructure/Services/WorkoutTemplateService.cs:236-246 | after a header update, removing the four keys leaves every remaining entry fresh |
| TemplateCache.DeleteLeavesStaleEntry | api/src/GymTracker.Infrastructure/Services/WorkoutTemplateService.cs:213-226 | a cache holding Template_1 is coherent before the delete of template 1 and stale after it |
| TemplateCache.ImportLeavesStaleListing | api/src/GymTracker.Infrastructure/Services/WorkoutTemplateService.cs:134-211 | a cache holding AllTemplatesBasic is coherent before an import and stale after it |
| TemplateCache.InvalidatedDeleteKeepsCoherent | api/src/GymTracker.Infrastructure/Services/WorkoutTemplateService.cs:213-226 | a delete that drops the four keys an update drops keeps the cache coherent |
| TemplateCache.ImportKeepsOtherViews | api/src/GymTracker.Infrastructure/Services/WorkoutTemplateService.cs:147-199 | an import changes no existing template's detailed view |
| TemplateCache.InvalidatedImportKeepsCoherent | api/src/GymTracker.Infrastructure/Services/WorkoutTemplateService.cs:134-211 | an import that drops the two listing keys keeps the cache coherent |
| WorkoutTemplateService.UpdatedHeader | api/src/GymTracker.Infrastructure/Data/Config/WorkoutTemplateConfiguration.cs:15-17 | the DTO is saved iff its name and description are non-null and within 100 and 500 UTF-16 code units; otherwise SaveChanges fails |
| WorkoutTemplateService.ImportDocumentIsParse | api/src/GymTracker.Infrastructure/Services/WorkoutTemplateService.cs:138-199 | importing a document fails iff it does not parse, with the same error, and otherwise writes its parsed content |
| WorkoutTemplateService.ExerciseTurn | api/src/GymTracker.Infrastructure/Services/WorkoutTemplateService.cs:179-197 | one turn of the exercise loop: read the exercise, insert its row, continue or stop with the error |
| WorkoutTemplateService.WorkoutTurn | api/src/GymTracker.Infrastructure/Services/WorkoutTemplateService.cs:168-198 | one turn of the workout loop: name, insert, exercises, then the rest |
| WorkoutTemplateService.WeekTurn | api/src/GymTracker.Infrastructure/Services/WorkoutTemplateService.cs:157-199 | one turn of the week loop: number, insert, workouts, then the rest |
| WorkoutTemplateService.ImportedValid | api/src/GymTracker.Infrastructure/Services/WorkoutTemplateService.cs:147-200 | a written template keeps every table of the store valid |
| WorkoutTemplateService.TemplateService.GetAllTemplates | api/src/GymTracker.Infrastructure/Services/WorkoutTemplateService.cs:46-80 | key AllTemplatesDetailed iff details were asked for; a hit returns the entry and leaves the cache; a miss returns the listing and stores it only when non-empty; a coherent cache stays coherent and the answer is the listing |
| WorkoutTemplateService.TemplateService.GetTemplateById | api/src/GymTracker.Infrastructure/Services/WorkoutTemplateService.cs:108-132 | key Template_<id>; a miss on a missing template fails with WorkoutTemplateNotFound and caches nothing; otherwise it caches and returns the header |
| WorkoutTemplateService.TemplateService.GetTemplateByIdWithDetails | api/src/GymTracker.Infrastructure/Services/WorkoutTemplateService.cs:82-106 | key TemplateWithDetails_<id>; a miss on a missing template fails and caches nothing; otherwise it caches and returns the detailed view |
| WorkoutTemplateService.TemplateService.UpdateTemplate | api/src/GymTracker.Infrastructure/Services/WorkoutTemplateService.cs:228-247 | not found changes nothing; a header refused by the columns fails at SaveChanges with the cache untouched; otherwise the header is overwritten and exactly the four keys are removed, keeping the cache coherent |
| WorkoutTemplateService.TemplateService.DeleteWorkoutTemplate | api/src/GymTracker.Infrastructure/Services/WorkoutTemplateService.cs:213-226 | not found changes nothing; a template still referenced by a subscription or progress record fails at SaveChanges; otherwise the catalog becomes the cascade delete; the cache is not touched |
| WorkoutTemplateService.Cascade | api/src/GymTracker.Infrastructure/Repositories/WorkoutTemplateRepository.cs:89-98 | the repository's delete turns the catalog into the cascade delete and keeps the store valid |
| WorkoutTemplateService.TemplateService.DeleteWorkoutTemplateInvalidating | api/src/GymTracker.Infrastructure/Services/WorkoutTemplateService.cs:213-226 | the delete followed by the update's four removals keeps the cache coherent |
| WorkoutTemplateService.TemplateService.WriteExercises | api/src/GymTracker.Infrastructure/Services/WorkoutTemplateService.cs:178-197 | the exercise loop writes what the exercise fold computes, or stops with its error |
| WorkoutTemplateService.TemplateService.WriteWorkouts | api/src/GymTracker.Infrastructure/Services/WorkoutTemplateService.cs:167-198 | the workout loop writes what the workout fold computes, or stops with its error |
| WorkoutTemplateService.TemplateService.WriteWeeks | api/src/GymTracker.Infrastructure/Services/WorkoutTemplateService.cs:156-199 | the week loop writes what the week fold computes, or stops with its error |
| WorkoutTemplateService.TemplateService.WriteTemplate | api/src/GymTracker.Infrastructure/Services/WorkoutTemplateService.cs:147-199 | the header insert and the week loop write what ImportTemplate computes, or stop with its error |
| WorkoutTemplateService.TemplateService.Transaction | api/src/GymTracker.Infrastructure/Services/WorkoutTemplateService.cs:142-209 | on success the catalog is what the import computes; on any error the catalog is exactly as before (rollback) and the error propagates |
| WorkoutTemplateService.TemplateService.CreateFromJson | api/src/GymTracker.Infrastructure/Services/WorkoutTemplateService.cs:134-211 | a document that does not parse fails with that error and changes nothing; otherwise the catalog gains exactly the parsed template under a fresh id, and the response read back is the document's content; the cache is not touched |
| WorkoutTemplateService.TemplateService.ImportRoot | api/src/GymTracker.Infrastructure/Services/WorkoutTemplateService.cs:142-209 | the same, once the "WorkoutTemplate" element has been found |
| WorkoutTemplateService.ReadImported | api/src/GymTracker.Infrastructure/Services/WorkoutTemplateService.cs:202 | the view returned is the new template's detailed view, and the store is valid |
| WorkoutTemplateService.TemplateService.CreateFromJsonInvalidating | api/src/GymTracker.Infrastructure/Services/WorkoutTemplateService.cs:134-211 | the import followed by removing the two listing keys keeps the cache coherent |
| Extremes.MinOf | frontend/src/app/components/workout-list/workout-list.component.ts:38 | the minimum is an element and no larger than any element |
| Extremes.MaxOf | frontend/src/app/components/workout-list/workout-list.component.ts:39 | the maximum is an element and no smaller than any element |
| Extremes.MinMaxMeet | frontend/src/app/components/workout-list/workout-list.component.ts:41 | minimum equals maximum iff all elements are equal |
| Extremes.ExtremesSetOnly | frontend/src/app/components/workout-list/workout-list.component.ts:38-39 | the extremes depend only on which values occur |
| Extremes.MinStep | frontend/src/app/components/workout-modal-details/workout-modal-details.component.ts:30 | "if (x < min) min = x" starting from +Infinity keeps the minimum of what was seen |
| Extremes.MaxStep | frontend/src/app/components/workout-modal-details/workout-modal-details.component.ts:31 | "if (x > max) max = x" starting from -Infinity keeps the maximum of what was seen |
| WorkoutModels.AllSetsConcat | frontend/src/app/components/workout-modal-details/workout-modal-details.component.ts:28-29 | the sets of two exercise lists joined are the two lists' sets joined |
| WorkoutList.RepRangeUniform | frontend/src/app/components/workout-list/workout-list.component.ts:41-43 | sets that all have n repetitions read "n reps" |
| WorkoutList.RepRangeSpread | frontend/src/app/components/workout-list/workout-list.component.ts:38-45 | differing counts read "min-max reps" with min < max, both attained and bounding every set |
| WorkoutList.ZeroRepsMeansNone | frontend/src/app/components/workout-list/workout-list.component.ts:35-43 | "0 reps" iff the list is missing, empty, or all its sets have 0 repetitions |
| WorkoutList.RepRangeOrderFree | frontend/src/app/components/workout-list/workout-list.component.ts:38-39 | two lists with the same repetition values get the same label |
| WorkoutModalDetails.TotalSetsFromCounts | frontend/src/app/components/workout-modal-details/workout-modal-details.component.ts:21 | the reduce from any start adds the number of sets of all exercises |
| WorkoutModalDetails.TotalSetsCountsAll | frontend/src/app/components/workout-modal-details/workout-modal-details.component.ts:20-22 | the total is the number of sets of all exercises; 0 for no exercises |
| WorkoutModalDetails.TotalSetsAdditive | frontend/src/app/components/workout-modal-details/workout-modal-details.component.ts:21 | the total over a ++ b is the total over a plus the total over b |
| WorkoutModalDetails.MissingSeriesAddsNothing | frontend/src/app/components/workout-modal-details/workout-modal-details.component.ts:21 | an exercise without a series list adds 0 |
| WorkoutModalDetails.RpeRange | frontend/src/app/components/workout-modal-details/workout-modal-details.component.ts:24-44 | the nested loops give the label of the minimum and maximum RPE of all sets |
| WorkoutModalDetails.NotApplicableIffNoSets | frontend/src/app/components/workout-modal-details/workout-modal-details.component.ts:35-37 | "N/A" iff no exercise has a set, counting a missing list as none |
| WorkoutModalDetails.RpeUniform | frontend/src/app/components/workout-modal-details/workout-modal-details.component.ts:39-41 | sets that all have RPE n read "n" |
| WorkoutModalDetails.RpeSpread | frontend/src/app/components/workout-modal-details/workout-modal-details.component.ts:43 | differing RPEs read "min-max" with min < max, both attained and bounding every set |

## Left out

- Controllers, Program.cs and dependency injection: routing and claim parsing, with no logic of their own.
- Authentication: tokens, password hashing and the client's JWT interceptor.
- AutoMapper: each scalar DTO member is copied over the entity, with the null-skip the profiles imply for workout notes and exercise names. The nested lists of the update DTOs are not copied (next line). WorkoutTemplateUpdateDto is not among the files, so the template update copies its name, description and duration as a whole.
- Entity Framework: the repositories are in-memory tables with the same lookups, inserts, updates and deletes. SaveChanges failures are the column rules, the foreign keys and the restricted deletes.
- The repository delete's "not found" InvalidOperationException: each service checks existence first, so it cannot be reached.
- Execution strategy retries, async/await and concurrency: a transaction is all-or-nothing and runs alone.
- The cache is a per-service map. Sliding expiration (eviction) and sharing the cache across service instances are not modelled.
- Logging: it carries no behaviour.
- Reading the file and parsing the JSON text: the document is an already parsed value. Numbers with a fraction or an exponent are one kind, so GetInt32 refuses them.
- DateTime.UtcNow: the clock is a parameter of MarkCompleted.
- Floating point: series weights are not modelled. JavaScript numbers are integers, so WorkoutModalDetails.RpeRange does not cover fractional RPEs, NaN or infinities.
- A Guid is a natural number, and its text is decimal rather than the 36-character form. Only its injectivity is used.
- The Angular components' UI state: dropdowns, animations and DOM handling.
- Result order: every list a query returns (templates, a template's weeks, workouts and exercises, a user's workouts, exercises, sets, subscriptions and progress) comes out in insertion order. The queries have no OrderBy and the keys are random Guids, so the source leaves that order to the database. Only the import's response, mapped from the graph in memory, has document order.
- Nested DTO lists: the exercises inside WorkoutCreateDto and the series inside ExerciseCreateDto are not created.
- WorkoutService.UpdateWorkout, ExerciseService.UpdateExercise: the update DTOs' nested lists (WorkoutUpdateDto.Exercises, ExerciseUpdateDto.Series) are not applied. Those lists are never null, so the mapping copies them onto the loaded child collections and SaveChanges replaces or orphans the old child rows and inserts the DTO's items. The model changes only the parent row and keeps the exercise and series tables as they were.

## Findings

| source | as written | input that shows it | evidently intended | confidence | as-written member | corrected member |
|---|---|---|---|---|---|---|
| api/src/GymTracker.Infrastructure/Services/WorkoutTemplateService.cs:213-226 | the delete removes no cache key | read template 1 (caches Template_1), delete it, read it again: the cached header is returned for a template that no longer exists | drop the same four keys UpdateTemplateAsync drops | not executed | WorkoutTemplateService.TemplateService.DeleteWorkoutTemplate, TemplateCache.DeleteLeavesStaleEntry | WorkoutTemplateService.TemplateService.DeleteWorkoutTemplateInvalidating, TemplateCache.InvalidatedDeleteKeepsCoherent |
| api/src/GymTracker.Infrastructure/Services/WorkoutTemplateService.cs:134-211 | the import removes no cache key | list templates (caches AllTemplatesBasic), import a document, list again: the new template is missing from the listing | drop AllTemplatesBasic and AllTemplatesDetailed after the commit | not executed | WorkoutTemplateService.TemplateService.CreateFromJson, TemplateCache.ImportLeavesStaleListing | WorkoutTemplateService.TemplateService.CreateFromJsonInvalidating, TemplateCache.InvalidatedImportKeepsCoherent |
