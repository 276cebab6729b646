# Workout tracker core, modelled in Dafny

This project models the core of a workout-tracking REST API. The core has three parts:

- **Session log lifecycle.** A workout log (a session) is started for a workout template. Exercise logs are recorded in it while it is IN_PROGRESS. It is then completed or canceled. The service starts a session as a get-or-create: it returns the workout's open session if there is one.
- **Template and catalog guards.** Workouts, the exercise catalog and the workout-exercise lines live in relational tables. They are guarded by NotFound checks. An exercise that some workout still uses cannot be deleted. A line can be deleted only through the workout that owns it. A workout's lines can be replaced as a whole: delete all, then insert.
- **Request validators and the error handler.** The validators accept or reject request bodies and fill in defaults. The error handler turns a thrown error into a status code, a name and a message, and hides unexpected errors in production.

The module layout follows the program:

- `Common`: identifiers, `Option`, `Result` and the three kinds of failure.
  - `NotFound` is an `AppError`.
  - `Plain` is a plain `Error` thrown by a domain guard.
  - `StoreFailure` is an error raised by the database client itself.
- `Sequences`: the query building blocks.
  - first match, filter, stable sort by a total order, skip and limit;
  - key-distinctness, with its lemmas.
- `WorkoutLogSchema`, `WorkoutSchema`, `ExerciseSchema`: the validators, as parse functions from raw bodies to validated inputs. Each is proved to accept exactly the bodies the validator accepts.
- `LogDocuments`: the session documents, their schema defaults, the checks `save()` applies, and the invariant "at most one IN_PROGRESS log per workout".
- `Tables`: the relational rows, and the row operations the repositories share.
- `Store`: one `Database` class.
  - It holds every table and collection, an abstract clock `now`, and the identifier generator.
  - `Valid()` says every stored id was issued, ids are distinct within each table, and every stored document passed `save()`.
  - It also provides the batch primitives `deleteMany` and `createMany` on the line table.
- `WorkoutLogRepo`, `WorkoutRepo`, `ExerciseRepo`, `WorkoutExerciseRepo`: the repositories, as classes over the shared database.
  - Reads are functions.
  - Operations that fetch a record, assign fields and save it are methods. Their contracts state the whole new state.
- `WorkoutLogSvc`, `WorkoutExerciseSvc`: the services.
  - `WorkoutLogService.Valid()` includes the at-most-one-open invariant. Every mutating service method keeps `Valid()`, so the invariant holds after any sequence of service calls.
- `ErrorHandler`: `getErrorName` and the reply classification.

Modelling choices:

- Time is an abstract clock `now`, read by the operations and set from outside the model.
- Identifiers are generated by the store: the n-th one is `n + 1` characters long, so a new one differs from every stored one.
- The service calls three repository members that the repository does not define: `isWorkoutInProgress`, `getWorkoutLogByWorkoutId` and `workoutInProgress`. They are given one assumed meaning: "the workout's IN_PROGRESS log". `WorkoutLogRepository.IsWorkoutInProgress` and `WorkoutLogRepository.WorkoutInProgress` define it.
- The session service has no cancel operation; `WorkoutLogSvc.CancelThenStart` cancels through the repository's `cancelWorkout`.
- `WorkoutLogService.GetWorkoutLogs` and `WorkoutExerciseService.FindById` only forward. `FindAllLogs` and `WorkoutExerciseRepository.FindById` state their results.

Behaviour of the code as written that a reader might not expect; the model follows the code:

- **Domain guards give 500, not 4xx.** Logging against a closed session and deleting an exercise that is still in use throw plain `Error`s. The handler answers those with 500, not a distinguishable 4xx (`ErrorHandler.GuardFailuresAreServerErrors`).
- **Starting a session creates no exercise logs.** Nothing is copied from the catalog (no snapshot).
- **An exercise log's rest period is never resolved from the workout's line.** It is always the schema default of 60 seconds.
- **The sets are written under the wrong key.** The repository writes the sets under the key `sets`, but the document schema names that array `series`. Each stored `series` entry would take `completed = false` by default, while an omitted `completed` on input means `true` (`LogDocuments.SetCompletedDefaultsDisagree`). The model keeps what the repository writes.
- **The add-exercise-to-workout body does not match what the code reads.**
  - The validator checks `exerciseId`, `sets` and `reps`.
  - The repositories and the service read `exercise.id`, `series`, `weight` and `rest`.
  - The validator is modelled as written (`WorkoutSchema.ParseAddExerciseToWorkout`). The repositories take the shape they read (`Tables.WorkoutExerciseInput`).
- **`src/schemas/workout.schema.ts` repeats the exercise schemas.** Its copies (lines 20-31) are the same as those in `src/schemas/exercise.schema.ts`, and are modelled once.

## Model

| member | source | states |
|---|---|---|
| WorkoutLogSchema.ParseSet | src/schemas/workout-log.schema.ts:47-52 | a set passes exactly when weight >= 0 and reps is a positive whole number; weight and reps are kept; an omitted `completed` becomes true |
| WorkoutLogSchema.ParseSets | src/schemas/workout-log.schema.ts:47-53 | an array of sets passes exactly when every element passes, and element i of the result is element i parsed |
| WorkoutLogSchema.ParseAddExerciseLog | src/schemas/workout-log.schema.ts:44-55 | the add-exercise-log body passes exactly when both references are UUIDs and every set passes; the fields are carried over and each set is that set parsed (an omitted `completed` is true) |
| LogDocuments.NewSeriesEntry | src/models/mongo/schemas.ts:53-60 | a stored set keeps weight, reps and any given `completed` and timestamp; a missing `completed` is false and a missing timestamp is now |
| LogDocuments.SetCompletedDefaultsDisagree | src/schemas/workout-log.schema.ts:51 | the same omitted `completed` is true in a request body and false in a stored `series` entry |
| LogDocuments.NewExerciseLog | src/repositories/workout-log.repository.ts:72-78 | a new exercise log carries its session id and the given exercise id, line id, sets and notes; it is not completed, has no completion time and rests 60 seconds |
| LogDocuments.LogIndex | src/repositories/workout-log.repository.ts:18 | the position of a log with this id, or none when no log has it |
| LogDocuments.OpenIndex | src/services/workout-log.service.ts:24-25 | the position of an IN_PROGRESS log of the workout, or none when it has none |
| LogDocuments.ExerciseLogIndex | src/repositories/workout-log.repository.ts:84-87 | the position of an exercise log matching both its id and its session id, or none when no log matches both |
| LogDocuments.OpenLogIsUnique | src/services/workout-log.service.ts:24-25 | under the invariant, the open log found for a workout is its only one |
| LogDocuments.CloseKeepsAtMostOneOpen | src/repositories/workout-log.repository.ts:24-28 | giving one log a status other than IN_PROGRESS keeps at most one open log per workout |
| LogDocuments.AppendKeepsAtMostOneOpen | src/services/workout-log.service.ts:24-33 | adding an open log for a workout that has none keeps at most one open log per workout |
| ExerciseSchema.UpdateExerciseIsPartialCreate | src/schemas/exercise.schema.ts:12-17 | the update body accepts every valid create body and the empty body; a given name still needs 3 UTF-16 code units, and any name of 3 characters has them |
| WorkoutSchema.UpdateWorkoutIsPartialCreate | src/schemas/workout.schema.ts:12-17 | the same for workouts |
| Common.ShortNameWithWideCharacter | src/schemas/exercise.schema.ts:13 | `min(3)` counts UTF-16 code units, so a two-character name with one character beyond the Basic Multilingual Plane passes |
| WorkoutSchema.ParseCount | src/schemas/workout.schema.ts:48-49 | a given count passes exactly when it is a positive whole number and is kept; a missing one takes its default |
| WorkoutSchema.ParseAddExerciseToWorkout | src/schemas/workout.schema.ts:45-50 | the body passes exactly when the exercise id is a UUID, `order` is a positive whole number and `sets`/`reps` are positive whole numbers or absent; absent ones become 3 and 12 |
| Tables.RowData | src/services/workout-exercise.service.ts:24-36 | a line of the workout that names the nested exercise's id and copies order, series, reps, weight and rest |
| Tables.RowsData | src/services/workout-exercise.service.ts:62-70 | inputs map one to one and in order to lines of the given workout |
| Tables.MintRows | src/repositories/workout-exercise.repository.ts:53-55 | each inserted line keeps its data and gets the next fresh id, in order |
| Tables.ReplaceRowsSpec | src/repositories/exercise.repository.ts:71-77 | after delete-all-then-insert of lines that belong to the workout, its lines are exactly the inserted ones and every other workout's lines are as they were |
| Tables.Referencing | src/repositories/exercise.repository.ts:83-89 | exactly the lines that prescribe the exercise, each as often as it is stored |
| Tables.CountReferencing | src/repositories/exercise.repository.ts:46-48 | the count is positive exactly when some line prescribes the exercise |
| Tables.WithExercises | src/repositories/workout.repository.ts:50-54 | each line is paired, in order, with the catalog exercise it names |
| Tables.WithWorkouts | src/repositories/exercise.repository.ts:83-89 | each line is paired, in order, with the workout it belongs to |
| Tables.LookupWorkout | src/repositories/workout.repository.ts:41-45 | a workout with this id when one exists, none otherwise |
| Tables.LookupExercise | src/repositories/exercise.repository.ts:19-23 | an exercise with this id when one exists, none otherwise |
| Store.Database.DeleteRowsOf | src/repositories/workout-exercise.repository.ts:58-62 | `deleteMany` by workout leaves exactly the other workouts' lines and counts the removed ones |
| Store.Database.CreateRows | src/repositories/workout-exercise.repository.ts:53-55 | `createMany` appends the given lines with fresh ids and keeps ids distinct |
| Store.MintedRowsFresh | src/repositories/exercise.repository.ts:75-77 | lines inserted with a run of fresh ids keep every line id distinct |
| WorkoutLogRepo.MatchingLogs | src/repositories/workout-log.repository.ts:49 | a non-empty workout id selects exactly that workout's logs; an absent or empty one selects all |
| WorkoutLogRepo.NewestFirst | src/repositories/workout-log.repository.ts:52-53 | the matching logs, a permutation of them, sorted by start time descending |
| WorkoutLogRepo.OldestFirst | src/repositories/workout-log.repository.ts:100 | exactly the session's exercise logs, a permutation of them, sorted by creation time ascending |
| WorkoutLogRepo.SkipLimit | src/repositories/workout-log.repository.ts:54-55 | a contiguous run of the sorted result starting at `skip`, of the page size, still sorted |
| WorkoutLogRepo.FindAllLogs | src/repositories/workout-log.repository.ts:48-56 | with defaults 20 and 1: a negative skip is a store error; otherwise at most `limit` logs (0 = all, negative = its absolute value), all matching, newest first, the slice from (page-1)*limit |
| WorkoutLogRepo.WorkoutLogRepository.FindById | src/repositories/workout-log.repository.ts:44-46 | the log with this id, or none exactly when no log has it |
| WorkoutLogRepo.WorkoutLogRepository.IsWorkoutInProgress | src/services/workout-log.service.ts:24 | true exactly when the workout has an IN_PROGRESS log (assumed member) |
| WorkoutLogRepo.WorkoutLogRepository.WorkoutInProgress | src/services/workout-log.service.ts:25 | the workout's IN_PROGRESS log, which under the invariant is its only one (assumed member) |
| WorkoutLogRepo.WorkoutLogRepository.FindExerciseLogs | src/repositories/workout-log.repository.ts:99-101 | exactly the session's exercise logs, oldest first |
| WorkoutLogRepo.WorkoutLogRepository.StartWorkout | src/repositories/workout-log.repository.ts:6-15 | appends exactly one log, with a fresh id, the given workout id, IN_PROGRESS, start time now and the given notes; an empty workout id fails `save()` and changes nothing |
| WorkoutLogRepo.WorkoutLogRepository.Close | src/repositories/workout-log.repository.ts:24-28 | the log with this id gets end time now and the closing status, and non-empty notes replace its notes; a missing id is NotFound and changes nothing |
| WorkoutLogRepo.WorkoutLogRepository.CompleteWorkout | src/repositories/workout-log.repository.ts:17-29 | NotFound, changing nothing, for an unknown id; otherwise end time now, COMPLETED whatever the prior status, notes replaced only by non-empty notes; nothing else changes |
| WorkoutLogRepo.WorkoutLogRepository.CancelWorkout | src/repositories/workout-log.repository.ts:31-42 | NotFound for an unknown id; otherwise end time now and CANCELED, with the notes untouched |
| WorkoutLogRepo.WorkoutLogRepository.AddExerciseLog | src/repositories/workout-log.repository.ts:58-81 | NotFound for a missing session and a plain error for a closed one, both adding nothing; on an open session exactly one new exercise log with the session id and the given data |
| WorkoutLogRepo.WorkoutLogRepository.CompleteExerciseLog | src/repositories/workout-log.repository.ts:83-97 | only a log matching both id and session id is found, else NotFound; that log alone becomes completed at now |
| WorkoutLogSvc.WorkoutLogService.StartWorkout | src/services/workout-log.service.ts:21-34 | an open log is returned with nothing created, even for a missing workout; otherwise a missing workout is NotFound; otherwise exactly one new IN_PROGRESS log, which is then the workout's open log |
| WorkoutLogSvc.WorkoutLogService.WorkoutInProgress | src/services/workout-log.service.ts:36-44 | NotFound exactly when the workout is missing; otherwise the workout's open log, if any |
| WorkoutLogSvc.WorkoutLogService.CompleteWorkout | src/services/workout-log.service.ts:46-51 | the result depends only on the log id: no workout check and no check that the log belongs to the workout |
| WorkoutLogSvc.WorkoutLogService.GetWorkoutLogById | src/services/workout-log.service.ts:57-65 | NotFound exactly when no log has the id; otherwise the stored log |
| WorkoutLogSvc.WorkoutLogService.AddExerciseLog | src/services/workout-log.service.ts:67-72 | the session's own guards decide; the workout id plays no part |
| WorkoutLogSvc.WorkoutLogService.CompleteExerciseLog | src/services/workout-log.service.ts:74-84 | the workout id and the body play no part; the exercise log is matched by id and session |
| WorkoutLogSvc.WorkoutLogService.GetExerciseLogs | src/services/workout-log.service.ts:86-91 | exactly the session's exercise logs, oldest first, whatever the workout id |
| WorkoutLogSvc.StartTwice | src/services/workout-log.service.ts:21-34 | two starts in a row return the same log, and the workout then has exactly one IN_PROGRESS log |
| WorkoutLogSvc.CompleteThenStart | src/services/workout-log.service.ts:24-33 | after the open log is completed, the next start creates a fresh open log |
| WorkoutLogSvc.CancelThenStart | src/repositories/workout-log.repository.ts:31-42 | after the open log is canceled, the next start creates a fresh open log |
| WorkoutRepo.LinesInOrder | src/repositories/workout.repository.ts:50-58 | exactly the workout's lines, a permutation of them, in `order` ascending, each with its exercise |
| WorkoutRepo.Details | src/repositories/workout.repository.ts:30-36 | each workout paired with its lines and their exercises |
| WorkoutRepo.WorkoutRepository.FindById | src/repositories/workout.repository.ts:41-45 | the workout with this id, or none (not an error) exactly when none exists |
| WorkoutRepo.WorkoutRepository.FindAll | src/repositories/workout.repository.ts:28-39 | every workout, a permutation of the table, newest first, each with its lines |
| WorkoutRepo.WorkoutRepository.FindByIdWithExercises | src/repositories/workout.repository.ts:47-67 | NotFound exactly when the workout is missing; otherwise it with its lines in `order` ascending |
| WorkoutRepo.WorkoutRepository.Update | src/repositories/workout.repository.ts:7-20 | NotFound, changing nothing, for a missing workout; otherwise given fields replace stored ones, and nothing else changes |
| WorkoutRepo.WorkoutRepository.Create | src/repositories/workout.repository.ts:22-26 | exactly one new workout with a fresh id, the given fields and created now |
| WorkoutRepo.WorkoutRepository.AddExercise | src/repositories/workout.repository.ts:69-103 | NotFound, adding no line, for an unknown exercise; otherwise exactly one new line with the workout id, the exercise id and the copied prescription, returned with its exercise |
| WorkoutRepo.WorkoutRepository.Delete | src/repositories/workout.repository.ts:105-109 | the workout with this id is removed and no workout keeps that id; a missing one is a store error |
| ExerciseRepo.ExerciseRepository.Create | src/repositories/exercise.repository.ts:7-11 | exactly one new catalog entry with a fresh id and the given fields |
| ExerciseRepo.ExerciseRepository.FindAll | src/repositories/exercise.repository.ts:13-17 | the whole catalog, a permutation of it, sorted by name |
| ExerciseRepo.ExerciseRepository.FindById | src/repositories/exercise.repository.ts:19-23 | the exercise with this id, or none exactly when none exists |
| ExerciseRepo.LinesWithWorkouts | src/repositories/exercise.repository.ts:83-89 | the lines that prescribe the exercise, a permutation of them with none missing, each paired with its workout |
| ExerciseRepo.ExerciseRepository.FindByIdWithWorkouts | src/repositories/exercise.repository.ts:80-97 | NotFound exactly when the exercise is missing; otherwise it with every line that prescribes it (a permutation of those lines, none missing and none repeated) and that line's workout |
| ExerciseRepo.ExerciseRepository.Update | src/repositories/exercise.repository.ts:25-36 | NotFound, changing nothing, for a missing exercise; otherwise given fields replace stored ones |
| ExerciseRepo.ExerciseRepository.Delete | src/repositories/exercise.repository.ts:38-57 | NotFound for a missing exercise; a plain error, removing nothing, while any line prescribes it; otherwise exactly that exercise is removed |
| ExerciseRepo.ExerciseRepository.UpdateWorkoutExercises | src/repositories/exercise.repository.ts:59-78 | NotFound, deleting nothing, for a missing workout; otherwise delete all of its lines then insert the given ones; other workouts' lines keep their place |
| WorkoutExerciseRepo.WorkoutExerciseRepository.Create | src/repositories/workout-exercise.repository.ts:6-10 | exactly one new line with a fresh id and the given data |
| WorkoutExerciseRepo.WorkoutExerciseRepository.FindAll | src/repositories/workout-exercise.repository.ts:12-16 | every line, a permutation of the table, sorted by id |
| WorkoutExerciseRepo.WorkoutExerciseRepository.FindById | src/repositories/workout-exercise.repository.ts:18-22 | the line with this id, or none exactly when none exists |
| WorkoutExerciseRepo.WorkoutExerciseRepository.Update | src/repositories/workout-exercise.repository.ts:24-35 | NotFound (message "Exercise with ID …"), changing nothing, for a missing line; otherwise each given column replaces the stored one and the others stay |
| WorkoutExerciseRepo.WorkoutExerciseRepository.Delete | src/repositories/workout-exercise.repository.ts:37-41 | the line with this id is removed; a missing one is a store error |
| WorkoutExerciseRepo.WorkoutExerciseRepository.UpdateWorkoutExercises | src/repositories/workout-exercise.repository.ts:43-56 | delete all of the workout's lines, then insert the given ones, with no existence check; the count inserted is returned |
| WorkoutExerciseRepo.WorkoutExerciseRepository.DeleteWorkoutExercises | src/repositories/workout-exercise.repository.ts:58-62 | exactly the workout's lines are removed, the others stay, and their number is returned |
| WorkoutExerciseSvc.WorkoutExerciseService.AddExerciseToWorkout | src/services/workout-exercise.service.ts:24-36 | exactly one new line with the given workout id, the nested exercise id, and order, series, reps, weight and rest copied |
| WorkoutExerciseSvc.WorkoutExerciseService.UpdateWorkoutExercise | src/services/workout-exercise.service.ts:38-43 | forwards to the repository update |
| WorkoutExerciseSvc.WorkoutExerciseService.DeleteWorkoutExercise | src/services/workout-exercise.service.ts:45-56 | a missing line and a line of another workout are plain errors that delete nothing; a line of this workout is deleted alone |
| WorkoutExerciseSvc.WorkoutExerciseService.UpdateWorkoutExercises | src/services/workout-exercise.service.ts:58-79 | a missing workout is a plain error before any deletion; otherwise the workout's lines are exactly the inputs mapped in order, and other workouts' lines are unchanged |
| ErrorHandler.GetErrorName | src/plugins/error-handler.ts:8-23 | the fixed name of the ten listed codes, and "Error" exactly for every other code |
| ErrorHandler.Handle | src/plugins/error-handler.ts:26-69 | the reply's name always names its status; validation errors are 400 "Validation error"; `AppError`s keep status and message; everything else is 500, redacted without stack in production |
| ErrorHandler.ToThrown | src/plugins/error-handler.ts:38-68 | only NotFound reaches the handler as an `AppError`; a guard's plain error and a store error reach it as unexpected errors, with their message |
| ErrorHandler.ProductionRedactsOnlyUnexpected | src/plugins/error-handler.ts:60-68 | production changes neither status nor name, and changes nothing for validation and `AppError`s |
| ErrorHandler.GuardFailuresAreServerErrors | src/plugins/error-handler.ts:63-68 | a domain guard's plain error is a 500 Internal Server Error, with the message hidden in production and shown otherwise |
| ErrorHandler.NotFoundKeepsItsMessage | src/plugins/error-handler.ts:38-47 | a NotFound keeps its status code, that code's name and its message in every environment |

## Left out

- HTTP routing, controllers, status codes set by controllers, authentication, configuration and logging are not part of this model. That includes the logger call for unexpected errors.
- Concurrency: the check-then-create in session start is modelled for sequential calls only. The invariant "at most one IN_PROGRESS log per workout" is proved for every sequence of service calls, not for interleaved requests.
- The database engines: Prisma and Mongoose are replaced by in-memory tables.
  - Foreign keys, cascading deletes and unique constraints of the relational schema are not modelled, because that schema is not part of this model. In particular, `addExercise` with an unknown workout id and deleting a workout that still has lines succeed here.
  - Mongoose strict mode would silently drop the `sets` key, which the schema does not declare. The model keeps what the repository writes.
  - A malformed document id (an ObjectId cast error) is not modelled; ids are opaque strings.
  - `timestamps: true` (`updatedAt`) and Prisma's own timestamps other than a workout's `createdAt` are left out.
- Store error messages are abbreviated to their first line: a failed `save()`, a negative skip, a delete of a missing row.
- Sorting: rows with equal sort keys keep table order, which the stores leave unspecified. Text is ordered by character code (binary collation).
- Numbers: JavaScript numbers are modelled as unbounded integers and exact reals. NaN, infinities and floating-point rounding are not modelled.
- UUIDs are checked for shape only (hex digits and hyphens), not for version or variant bits.
- ExerciseRepo.ExerciseRepository.UpdateWorkoutExercises: the lines are taken without ids, and fresh ids are minted. An id supplied with a line, which `createMany` would store (or reject as a duplicate), is not modelled.
- WorkoutExerciseSvc.WorkoutExerciseService.AddExerciseToWorkout: models the evidently intended behaviour, a new line with the given columns. As written, the spread also passes the nested `exercise` object to `create`, next to the scalar `exerciseId`. Prisma's input validation refuses a create input that mixes a relation field with its scalar foreign key, so the call as written would fail in the store instead of adding a line. That store failure is not modelled.
- WorkoutExerciseSvc.WorkoutExerciseService.UpdateWorkoutExercise: its contract states only the NotFound case and which row is replaced. The column-by-column result is stated by `WorkoutExerciseRepo.WorkoutExerciseRepository.Update`, which it forwards to.
- The response schemas `workoutLogSchema` and `exerciseLogSchema` in `src/schemas/workout-log.schema.ts`, and the `workoutSchema`, `exerciseSchema` and `workoutExerciseSchema` shapes, describe stored records. They are covered by the datatypes (status as a three-value datatype), not by validators.
- `src/utils/errors.ts`, which defines `AppError` and `NotFoundError`, is not part of this model; a NotFound is taken to be an `AppError` whose status code is a parameter of `ErrorHandler.ToThrown`.
- The service classes `ExerciseService` and `WorkoutService` are not part of this model. They only forward, and turn a missing record into NotFound the way the repository models already do.
