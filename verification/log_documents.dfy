/** The session log documents: a workout log per performed session and an
    exercise log per exercise recorded in it, with their schema defaults,
    the checks `save()` applies, and the at-most-one-open-session invariant. */
module LogDocuments {
  import opened Common
  import opened Sequences
  import opened WorkoutLogSchema

  /** A workout log (a session). Times are ticks of an abstract clock. */
  datatype WorkoutLog = WorkoutLog(
    id: Id,
    workoutId: Id,
    startTime: nat,
    endTime: Option<nat>,
    status: Status,
    notes: Option<string>)

  /** An exercise log inside a session. The sets are kept exactly as the
      repository writes them, under the key `sets`; the document schema
      names that array `series` (see SeriesEntry). */
  datatype ExerciseLog = ExerciseLog(
    id: Id,
    workoutLogId: Id,
    exerciseId: Id,
    workoutExerciseId: Id,
    sets: seq<SetInput>,
    notes: Option<string>,
    completed: bool,
    completedAt: Option<nat>,
    rest: int,
    createdAt: nat)

  /** One element of the schema's `series` array. */
  datatype SeriesEntry = SeriesEntry(weight: real, reps: real, completed: bool, timestamp: nat)

  /** Rest period, in seconds, an exercise log gets when none is given. */
  const DefaultRestSeconds := 60

  /** A stored set's `completed` flag when none is given. */
  const StoredSetCompletedDefault := false

  /** A `series` entry as the schema builds it: `completed` defaults to
      false and `timestamp` to the current time. */
  function NewSeriesEntry(weight: real, reps: real, completed: Option<bool>, timestamp: Option<nat>, now: nat): (e: SeriesEntry)
    ensures e.weight == weight && e.reps == reps
    ensures completed.None? ==> !e.completed
    ensures completed.Some? ==> e.completed == completed.value
    ensures timestamp.None? ==> e.timestamp == now
    ensures timestamp.Some? ==> e.timestamp == timestamp.value
  {
    SeriesEntry(weight, reps, completed.GetOr(StoredSetCompletedDefault), timestamp.GetOr(now))
  }

  /** The same omitted `completed` flag means "done" in a request body and
      "not done" in a stored `series` entry. */
  lemma SetCompletedDefaultsDisagree(weight: real, reps: real, now: nat)
    requires weight >= 0.0 && reps >= 1.0 && IsWhole(reps)
    ensures ParseSet(RawSet(weight, reps, None)).Some?
    ensures ParseSet(RawSet(weight, reps, None)).value.completed
    ensures !NewSeriesEntry(weight, reps, None, None, now).completed
  {
  }

  /** A new exercise log as the repository builds it from a validated
      request: every path it does not set takes its schema default. */
  function NewExerciseLog(id: Id, workoutLogId: Id, data: AddExerciseLogInput, now: nat): (e: ExerciseLog)
    ensures e.id == id && e.workoutLogId == workoutLogId
    ensures e.exerciseId == data.exerciseId && e.workoutExerciseId == data.workoutExerciseId
    ensures e.sets == data.sets && e.notes == data.notes
    ensures !e.completed && e.completedAt.None? && e.rest == DefaultRestSeconds
  {
    ExerciseLog(id, workoutLogId, data.exerciseId, data.workoutExerciseId, data.sets, data.notes,
                false, None, DefaultRestSeconds, now)
  }

  /** The message of the error `save()` raises for an empty required path. */
  function RequiredPathMessage(model: string, path: string): string {
    model + " validation failed: " + path + ": Path `" + path + "` is required."
  }

  /** `save()` refuses a workout log whose required `workoutId` is empty. */
  predicate SavableWorkoutLog(l: WorkoutLog) {
    l.workoutId != ""
  }

  /** `save()` refuses an exercise log whose required references are empty. */
  predicate SavableExerciseLog(e: ExerciseLog) {
    e.workoutLogId != "" && e.exerciseId != "" && e.workoutExerciseId != ""
  }

  predicate IsOpenFor(l: WorkoutLog, workoutId: Id) {
    l.status == InProgress && l.workoutId == workoutId
  }

  /** The session invariant: no workout has two IN_PROGRESS logs. */
  predicate AtMostOneOpen(logs: seq<WorkoutLog>) {
    forall i, j ::
      (0 <= i < |logs| && 0 <= j < |logs| &&
       logs[i].status == InProgress && logs[j].status == InProgress &&
       logs[i].workoutId == logs[j].workoutId) ==> i == j
  }

  /** The first log with this id. */
  function LogIndex(logs: seq<WorkoutLog>, id: Id): (k: Option<nat>)
    ensures k.Some? ==> k.value < |logs| && logs[k.value].id == id
    ensures k.None? <==> forall i :: 0 <= i < |logs| ==> logs[i].id != id
  {
    FindFirst(logs, (l: WorkoutLog) => l.id == id)
  }

  /** The first IN_PROGRESS log of this workout. */
  function OpenIndex(logs: seq<WorkoutLog>, workoutId: Id): (k: Option<nat>)
    ensures k.Some? ==> k.value < |logs| && IsOpenFor(logs[k.value], workoutId)
    ensures k.None? <==> forall i :: 0 <= i < |logs| ==> !IsOpenFor(logs[i], workoutId)
  {
    FindFirst(logs, (l: WorkoutLog) => IsOpenFor(l, workoutId))
  }

  /** The first exercise log with this id that belongs to this session. */
  function ExerciseLogIndex(elogs: seq<ExerciseLog>, exerciseLogId: Id, workoutLogId: Id): (k: Option<nat>)
    ensures k.Some? ==> k.value < |elogs| && elogs[k.value].id == exerciseLogId && elogs[k.value].workoutLogId == workoutLogId
    ensures k.None? <==> forall i :: 0 <= i < |elogs| ==> !(elogs[i].id == exerciseLogId && elogs[i].workoutLogId == workoutLogId)
  {
    FindFirst(elogs, (e: ExerciseLog) => e.id == exerciseLogId && e.workoutLogId == workoutLogId)
  }

  /** Under the invariant, the open log found for a workout is its only one. */
  lemma OpenLogIsUnique(logs: seq<WorkoutLog>, workoutId: Id)
    requires AtMostOneOpen(logs) && OpenIndex(logs, workoutId).Some?
    ensures forall i :: 0 <= i < |logs| && IsOpenFor(logs[i], workoutId) ==> i == OpenIndex(logs, workoutId).value
  {
  }

  /** Closing a log (any status other than IN_PROGRESS) keeps the invariant. */
  lemma CloseKeepsAtMostOneOpen(logs: seq<WorkoutLog>, k: nat, closed: WorkoutLog)
    requires AtMostOneOpen(logs) && k < |logs| && closed.status != InProgress
    ensures AtMostOneOpen(logs[k := closed])
  {
  }

  /** Adding an open log for a workout that has none keeps the invariant. */
  lemma AppendKeepsAtMostOneOpen(logs: seq<WorkoutLog>, l: WorkoutLog)
    requires AtMostOneOpen(logs)
    requires forall i :: 0 <= i < |logs| ==> !IsOpenFor(logs[i], l.workoutId)
    ensures AtMostOneOpen(logs + [l])
  {
  }
}
