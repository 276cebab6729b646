/** The session service: the get-or-create start of a session and the
    calls that forward to the session log repository. Every mutating call
    keeps the invariant that no workout has two IN_PROGRESS logs, so any
    sequence of service calls does. */
module WorkoutLogSvc {
  import opened Common
  import opened Sequences
  import opened WorkoutLogSchema
  import opened LogDocuments
  import opened Store
  import opened WorkoutRepo
  import opened WorkoutLogRepo

  class WorkoutLogService {
    const db: Database
    const logRepo: WorkoutLogRepository
    const workoutRepo: WorkoutRepository

    /** Both repositories work on this service's database, whose state is
        valid and has at most one open log per workout. */
    ghost predicate Valid()
      reads db
    {
      logRepo.db == db && workoutRepo.db == db && db.Valid() && AtMostOneOpen(db.logs)
    }

    constructor (db: Database)
      requires db.Valid() && AtMostOneOpen(db.logs)
      ensures this.db == db && Valid()
    {
      this.db := db;
      logRepo := new WorkoutLogRepository(db);
      workoutRepo := new WorkoutRepository(db);
    }

    /** `startWorkout`, a get-or-create. The open-log check comes first, so an
        open log is returned even when its workout no longer exists; only then
        does a missing workout raise NotFound; otherwise exactly one new
        IN_PROGRESS log is created. */
    method StartWorkout(workoutId: Id, data: StartWorkoutInput) returns (r: Result<WorkoutLog>)
      requires Valid()
      modifies db`logs, db`nextId
      ensures Valid()
      ensures old(logRepo.IsWorkoutInProgress(workoutId)) ==>
        r == Ok(old(logRepo.WorkoutInProgress(workoutId)).value) && db.logs == old(db.logs)
      ensures !old(logRepo.IsWorkoutInProgress(workoutId)) && workoutRepo.FindById(workoutId).None? ==>
        r == Err(NotFound(NotFoundMessage("Workout", workoutId))) && db.logs == old(db.logs)
      ensures !old(logRepo.IsWorkoutInProgress(workoutId)) && workoutRepo.FindById(workoutId).Some? ==>
        r.Ok? && db.logs == old(db.logs) + [r.value] && r.value.startTime == db.now &&
        r.value.endTime.None? && r.value.notes == data.notes &&
        forall i :: 0 <= i < |old(db.logs)| ==> old(db.logs)[i].id != r.value.id
      ensures r.Ok? ==> logRepo.WorkoutInProgress(workoutId) == Some(r.value)
    {
      var workout := workoutRepo.FindById(workoutId);
      if logRepo.IsWorkoutInProgress(workoutId) {
        return Ok(logRepo.WorkoutInProgress(workoutId).value);
      }
      if workout.None? {
        return Err(NotFound(NotFoundMessage("Workout", workoutId)));
      }
      r := logRepo.StartWorkout(workoutId, data);
      assert r.Ok? ==> db.logs[|db.logs| - 1] == r.value;
    }

    /** `workoutInProgress`: NotFound for a missing workout, otherwise its
        open log, if any. */
    function WorkoutInProgress(workoutId: Id): (r: Result<Option<WorkoutLog>>)
      reads db
      requires Valid()
      ensures r.Err? <==> workoutRepo.FindById(workoutId).None?
      ensures r.Err? ==> r.failure == NotFound(NotFoundMessage("Workout", workoutId))
      ensures r.Ok? ==> (r.value.Some? <==> exists i :: 0 <= i < |db.logs| && IsOpenFor(db.logs[i], workoutId))
      ensures r.Ok? && r.value.Some? ==> r.value.value in db.logs && IsOpenFor(r.value.value, workoutId)
    {
      if workoutRepo.FindById(workoutId).None? then Err(NotFound(NotFoundMessage("Workout", workoutId)))
      else Ok(logRepo.WorkoutInProgress(workoutId))
    }

    /** `completeWorkout`: the workout lookup is discarded, so neither a
        missing workout nor a log of another workout is an error. */
    method CompleteWorkout(workoutId: Id, logId: Id, data: CompleteWorkoutInput) returns (r: Result<WorkoutLog>)
      requires Valid()
      modifies db`logs
      ensures Valid()
      ensures LogIndex(old(db.logs), logId).None? ==>
        r == Err(NotFound(NotFoundMessage("Workout log", logId))) && db.logs == old(db.logs)
      ensures LogIndex(old(db.logs), logId).Some? ==>
        var k := LogIndex(old(db.logs), logId).value;
        var before := old(db.logs)[k];
        r == Ok(before.(endTime := Some(db.now), status := Completed,
                        notes := if Truthy(data.notes) then data.notes else before.notes)) &&
        db.logs == old(db.logs)[k := r.value]
    {
      var _ := workoutRepo.FindById(workoutId);
      r := logRepo.CompleteWorkout(logId, data);
    }

    /** `getWorkoutLogs`: forwards to `findAllLogs`. */
    function GetWorkoutLogs(workoutId: Option<Id>, limit: Option<int>, page: Option<int>): Result<seq<WorkoutLog>>
      reads db
    {
      FindAllLogs(db.logs, workoutId, limit, page)
    }

    /** `getWorkoutLogById`: NotFound for a missing log, otherwise the log as stored. */
    function GetWorkoutLogById(logId: Id): (r: Result<WorkoutLog>)
      reads db
      requires Valid()
      ensures r.Err? <==> forall i :: 0 <= i < |db.logs| ==> db.logs[i].id != logId
      ensures r.Err? ==> r.failure == NotFound(NotFoundMessage("Workout log", logId))
      ensures r.Ok? ==> r.value in db.logs && r.value.id == logId
    {
      match logRepo.FindById(logId)
      case None => Err(NotFound(NotFoundMessage("Workout log", logId)))
      case Some(l) => Ok(l)
    }

    /** `addExerciseLog`: the workout lookup is discarded; the session's own
        guards decide. */
    method AddExerciseLog(workoutId: Id, logId: Id, data: AddExerciseLogInput) returns (r: Result<ExerciseLog>)
      requires Valid()
      modifies db`exerciseLogs, db`nextId
      ensures Valid()
      ensures LogIndex(db.logs, logId).None? ==>
        r == Err(NotFound(NotFoundMessage("Workout log", logId))) && db.exerciseLogs == old(db.exerciseLogs)
      ensures LogIndex(db.logs, logId).Some? && db.logs[LogIndex(db.logs, logId).value].status != InProgress ==>
        r == Err(Plain(ClosedSessionMessage)) && db.exerciseLogs == old(db.exerciseLogs)
      ensures LogIndex(db.logs, logId).Some? && db.logs[LogIndex(db.logs, logId).value].status == InProgress ==>
        (r.Ok? <==> data.exerciseId != "" && data.workoutExerciseId != "")
      ensures r.Err? && r.failure.StoreFailure? ==> db.exerciseLogs == old(db.exerciseLogs)
      ensures r.Ok? ==>
        db.exerciseLogs == old(db.exerciseLogs) + [r.value] &&
        r.value == NewExerciseLog(r.value.id, logId, data, db.now) &&
        forall i :: 0 <= i < |old(db.exerciseLogs)| ==> old(db.exerciseLogs)[i].id != r.value.id
    {
      var _ := workoutRepo.FindById(workoutId);
      r := logRepo.AddExerciseLog(logId, data);
    }

    /** `completeExerciseLog`: the workout lookup and the request body are
        discarded. */
    method CompleteExerciseLog(workoutId: Id, logId: Id, exerciseLogId: Id, data: CompleteExerciseLogInput)
      returns (r: Result<ExerciseLog>)
      requires Valid()
      modifies db`exerciseLogs
      ensures Valid()
      ensures ExerciseLogIndex(old(db.exerciseLogs), exerciseLogId, logId).None? ==>
        r == Err(NotFound(NotFoundMessage("Exercise log", exerciseLogId))) &&
        db.exerciseLogs == old(db.exerciseLogs)
      ensures ExerciseLogIndex(old(db.exerciseLogs), exerciseLogId, logId).Some? ==>
        var k := ExerciseLogIndex(old(db.exerciseLogs), exerciseLogId, logId).value;
        r == Ok(old(db.exerciseLogs)[k].(completed := true, completedAt := Some(db.now))) &&
        db.exerciseLogs == old(db.exerciseLogs)[k := r.value]
    {
      var _ := workoutRepo.FindById(workoutId);
      r := logRepo.CompleteExerciseLog(logId, exerciseLogId);
    }

    /** `getExerciseLogs`: the session's exercise logs, oldest first, whatever
        the workout id. */
    function GetExerciseLogs(workoutId: Id, logId: Id): (r: seq<ExerciseLog>)
      reads db
      requires Valid()
      ensures forall e :: e in r <==> e in db.exerciseLogs && e.workoutLogId == logId
      ensures SortedBy(r, OlderOrSame)
    {
      logRepo.FindExerciseLogs(logId)
    }
  }

  /** Two starts of the same workout in a row return the same log, and the
      workout then has exactly one IN_PROGRESS log. */
  method StartTwice(svc: WorkoutLogService, workoutId: Id, first: StartWorkoutInput, second: StartWorkoutInput)
    returns (r1: Result<WorkoutLog>, r2: Result<WorkoutLog>)
    requires svc.Valid()
    modifies svc.db`logs, svc.db`nextId
    ensures svc.Valid()
    ensures r1.Ok? ==> r2 == r1
    ensures r1.Ok? ==> forall i :: 0 <= i < |svc.db.logs| && IsOpenFor(svc.db.logs[i], workoutId) ==>
      svc.db.logs[i] == r1.value
    ensures r1.Err? ==> r2 == r1 && svc.db.logs == old(svc.db.logs)
    ensures r1.Ok? ==> svc.logRepo.WorkoutInProgress(workoutId) == Some(r1.value)
  {
    r1 := svc.StartWorkout(workoutId, first);
    r2 := svc.StartWorkout(workoutId, second);
    if r1.Ok? {
      assert svc.logRepo.WorkoutInProgress(workoutId) == Some(r2.value);
      assert AtMostOneOpen(svc.logRepo.db.logs);
    }
  }

  /** Once the open log is completed, the next start opens a fresh log. */
  method CompleteThenStart(svc: WorkoutLogService, workoutId: Id, done: CompleteWorkoutInput, next: StartWorkoutInput)
    returns (closed: Result<WorkoutLog>, reopened: Result<WorkoutLog>)
    requires svc.Valid()
    requires svc.logRepo.IsWorkoutInProgress(workoutId)
    requires svc.workoutRepo.FindById(workoutId).Some?
    modifies svc.db`logs, svc.db`nextId
    ensures svc.Valid()
    ensures closed.Ok? && closed.value.status == Completed
    ensures reopened.Ok? && reopened.value.id != closed.value.id
    ensures reopened.Ok? && IsOpenFor(reopened.value, workoutId)
    ensures |svc.db.logs| == |old(svc.db.logs)| + 1
  {
    var open := svc.logRepo.WorkoutInProgress(workoutId).value;
    ghost var before := svc.db.logs;
    assert open in before;
    closed := svc.CompleteWorkout(workoutId, open.id, done);
    ghost var k := LogIndex(before, open.id).value;
    assert svc.db.logs[k] == closed.value;
    assert !svc.logRepo.IsWorkoutInProgress(workoutId);
    reopened := svc.StartWorkout(workoutId, next);
  }

  /** Once the open log is canceled, the next start opens a fresh log too.
      The service has no cancel operation, so the repository's is used. */
  method CancelThenStart(svc: WorkoutLogService, workoutId: Id, next: StartWorkoutInput)
    returns (canceled: Result<WorkoutLog>, reopened: Result<WorkoutLog>)
    requires svc.Valid()
    requires svc.logRepo.IsWorkoutInProgress(workoutId)
    requires svc.workoutRepo.FindById(workoutId).Some?
    modifies svc.db`logs, svc.db`nextId
    ensures svc.Valid()
    ensures canceled.Ok? && canceled.value.status == Canceled
    ensures reopened.Ok? && reopened.value.id != canceled.value.id
    ensures reopened.Ok? && IsOpenFor(reopened.value, workoutId)
    ensures |svc.db.logs| == |old(svc.db.logs)| + 1
  {
    var open := svc.logRepo.WorkoutInProgress(workoutId).value;
    ghost var before := svc.db.logs;
    assert open in before;
    canceled := svc.logRepo.CancelWorkout(open.id);
    ghost var k := LogIndex(before, open.id).value;
    assert svc.db.logs[k] == canceled.value;
    assert !svc.logRepo.IsWorkoutInProgress(workoutId);
    reopened := svc.StartWorkout(workoutId, next);
  }
}
