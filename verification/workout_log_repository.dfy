/** The session log repository: workout logs and their exercise logs in the
    document store. Lookups are functions of the stored collections; the
    operations that fetch a document, assign fields and save it back are
    methods on the shared database. */
module WorkoutLogRepo {
  import opened Common
  import opened Sequences
  import opened WorkoutLogSchema
  import opened LogDocuments
  import opened Store

  /** Page size and page number `findAllLogs` uses when none is given. */
  const DefaultLimit := 20
  const DefaultPage := 1

  /** The error the store raises for a negative `skip`. */
  const NegativeSkipMessage := "BSON field 'skip' value must be >= 0"

  function Abs(x: int): nat {
    if x < 0 then -x else x
  }

  /** `startTime: -1`: a log may precede another only if it did not start later. */
  predicate NewerOrSame(a: WorkoutLog, b: WorkoutLog) {
    a.startTime >= b.startTime
  }

  /** `createdAt: 1`: a log may precede another only if it was not created later. */
  predicate OlderOrSame(a: ExerciseLog, b: ExerciseLog) {
    a.createdAt <= b.createdAt
  }

  function HasWorkoutId(logs: seq<WorkoutLog>, workoutId: Id): seq<WorkoutLog> {
    Filter(logs, (l: WorkoutLog) => l.workoutId == workoutId)
  }

  /** The logs `find(query)` matches: those of the workout when a non-empty
      workout id is given, every log otherwise. */
  function MatchingLogs(logs: seq<WorkoutLog>, workoutId: Option<Id>): (r: seq<WorkoutLog>)
    ensures forall l :: l in r <==> l in logs && (Truthy(workoutId) ==> l.workoutId == workoutId.value)
  {
    if Truthy(workoutId) then HasWorkoutId(logs, workoutId.value) else logs
  }

  /** The matching logs, newest first. */
  function NewestFirst(logs: seq<WorkoutLog>, workoutId: Option<Id>): (r: seq<WorkoutLog>)
    ensures multiset(r) == multiset(MatchingLogs(logs, workoutId))
    ensures SortedBy(r, NewerOrSame)
  {
    SortBy(MatchingLogs(logs, workoutId), NewerOrSame)
  }

  /** The exercise logs of one session, oldest first. */
  function OldestFirst(elogs: seq<ExerciseLog>, workoutLogId: Id): (r: seq<ExerciseLog>)
    ensures multiset(r) == multiset(Filter(elogs, (e: ExerciseLog) => e.workoutLogId == workoutLogId))
    ensures forall e :: e in r <==> e in elogs && e.workoutLogId == workoutLogId
    ensures SortedBy(r, OlderOrSame)
  {
    var mine := Filter(elogs, (e: ExerciseLog) => e.workoutLogId == workoutLogId);
    var r := SortBy(mine, OlderOrSame);
    assert forall e :: e in r <==> e in mine by {
      forall e ensures e in r <==> e in mine {
        assert e in r <==> e in multiset(r);
      }
    }
    r
  }

  /** How many logs a page holds: at most `limit` of those left after
      skipping, where a limit of 0 means no limit and a negative limit
      means its absolute value. */
  function PageSize(available: int, limit: int): nat {
    if available <= 0 then 0
    else if limit != 0 && Abs(limit) < available then Abs(limit)
    else available
  }

  /** `find(query).sort({ startTime: -1 }).skip((page - 1) * limit).limit(limit)`,
      with the store's rules: a negative skip is an error, a limit of 0 means
      no limit, and a negative limit means its absolute value. */
  function FindAllLogs(logs: seq<WorkoutLog>, workoutId: Option<Id>, limit: Option<int>, page: Option<int>)
    : (r: Result<seq<WorkoutLog>>)
    ensures r.Err? <==> (page.GetOr(DefaultPage) - 1) * limit.GetOr(DefaultLimit) < 0
    ensures r.Err? ==> r.failure == StoreFailure(NegativeSkipMessage)
    ensures r.Ok? ==> forall l :: l in r.value ==>
      l in logs && (Truthy(workoutId) ==> l.workoutId == workoutId.value)
    ensures r.Ok? ==> SortedBy(r.value, NewerOrSame)
    ensures r.Ok? && limit.GetOr(DefaultLimit) != 0 ==> |r.value| <= Abs(limit.GetOr(DefaultLimit))
    ensures r.Ok? ==>
      var skip := (page.GetOr(DefaultPage) - 1) * limit.GetOr(DefaultLimit);
      var all := NewestFirst(logs, workoutId);
      |r.value| == PageSize(|all| - skip, limit.GetOr(DefaultLimit)) &&
      forall i :: 0 <= i < |r.value| ==> skip + i < |all| && r.value[i] == all[skip + i]
  {
    var lim := limit.GetOr(DefaultLimit);
    var skip := (page.GetOr(DefaultPage) - 1) * lim;
    if skip < 0 then
      Err(StoreFailure(NegativeSkipMessage))
    else
      var all := NewestFirst(logs, workoutId);
      var r := SkipLimit(all, skip, lim, NewerOrSame);
      assert forall l :: l in r ==> l in multiset(all);
      Ok(r)
  }

  /** `.skip(skip).limit(limit)` over an already sorted result: a contiguous
      run of it, still sorted. */
  function SkipLimit<T>(all: seq<T>, skip: nat, limit: int, le: (T, T) -> bool): (r: seq<T>)
    ensures |r| == PageSize(|all| - skip, limit)
    ensures forall i :: 0 <= i < |r| ==> skip + i < |all| && r[i] == all[skip + i]
    ensures forall x :: x in r ==> x in all
    ensures SortedBy(all, le) ==> SortedBy(r, le)
  {
    var r := Page(all, skip, if limit == 0 then |all| else Abs(limit));
    assert SortedBy(all, le) ==> SortedBy(r, le) by {
      if SortedBy(all, le) {
        forall i | 0 < i < |r| ensures le(r[i - 1], r[i]) {
          assert r[i - 1] == all[skip + i - 1] && r[i] == all[skip + i];
        }
      }
    }
    assert forall x :: x in r ==> x in all by {
      forall x | x in r ensures x in all {
        var i :| 0 <= i < |r| && r[i] == x;
        assert all[skip + i] in all;
      }
    }
    r
  }

  class WorkoutLogRepository {
    const db: Database

    constructor (db: Database)
      ensures this.db == db
    {
      this.db := db;
    }

    /** `findById`: the log with this id, if any. */
    function FindById(logId: Id): (r: Option<WorkoutLog>)
      reads db
      ensures r.Some? <==> exists i :: 0 <= i < |db.logs| && db.logs[i].id == logId
      ensures r.Some? ==> r.value in db.logs && r.value.id == logId
    {
      match LogIndex(db.logs, logId)
      case Some(k) => Some(db.logs[k])
      case None => None
    }

    /** Whether the workout has an IN_PROGRESS log. The service calls this
        repository member, which the repository does not define; this is the
        meaning assumed for it. */
    function IsWorkoutInProgress(workoutId: Id): (b: bool)
      reads db
      ensures b <==> exists i :: 0 <= i < |db.logs| && IsOpenFor(db.logs[i], workoutId)
    {
      OpenIndex(db.logs, workoutId).Some?
    }

    /** The workout's IN_PROGRESS log, if any. Assumed meaning of both
        `workoutInProgress` and `getWorkoutLogByWorkoutId`, which the service
        calls and the repository does not define. */
    function WorkoutInProgress(workoutId: Id): (r: Option<WorkoutLog>)
      reads db
      ensures r.Some? <==> IsWorkoutInProgress(workoutId)
      ensures r.Some? ==> r.value in db.logs && IsOpenFor(r.value, workoutId)
      ensures r.Some? && AtMostOneOpen(db.logs) ==>
        forall i :: 0 <= i < |db.logs| && IsOpenFor(db.logs[i], workoutId) ==> db.logs[i] == r.value
    {
      match OpenIndex(db.logs, workoutId)
      case Some(k) => Some(db.logs[k])
      case None => None
    }

    /** `findExerciseLogs`: the session's exercise logs, oldest first. */
    function FindExerciseLogs(workoutLogId: Id): (r: seq<ExerciseLog>)
      reads db
      ensures forall e :: e in r <==> e in db.exerciseLogs && e.workoutLogId == workoutLogId
      ensures SortedBy(r, OlderOrSame)
    {
      OldestFirst(db.exerciseLogs, workoutLogId)
    }

    /** `startWorkout`: save one new IN_PROGRESS log started now. `save()`
        refuses an empty workout id. */
    method StartWorkout(workoutId: Id, data: StartWorkoutInput) returns (r: Result<WorkoutLog>)
      requires db.Valid()
      modifies db`logs, db`nextId
      ensures db.Valid()
      ensures r.Err? <==> workoutId == ""
      ensures r.Err? ==> r.failure == StoreFailure(RequiredPathMessage("WorkoutLog", "workoutId")) &&
                         db.logs == old(db.logs)
      ensures r.Ok? ==> db.logs == old(db.logs) + [r.value]
      ensures r.Ok? ==> r.value.workoutId == workoutId && r.value.status == InProgress &&
                        r.value.startTime == db.now && r.value.endTime.None? && r.value.notes == data.notes
      ensures r.Ok? ==> forall i :: 0 <= i < |old(db.logs)| ==> old(db.logs)[i].id != r.value.id
      ensures AtMostOneOpen(old(db.logs)) && !old(IsWorkoutInProgress(workoutId)) ==> AtMostOneOpen(db.logs)
    {
      var id := db.NewId();
      var log := WorkoutLog(id, workoutId, db.now, None, InProgress, data.notes);
      if !SavableWorkoutLog(log) {
        return Err(StoreFailure(RequiredPathMessage("WorkoutLog", "workoutId")));
      }
      DistinctAppend(db.logs, log, LogKey);
      if AtMostOneOpen(db.logs) && !IsWorkoutInProgress(workoutId) {
        AppendKeepsAtMostOneOpen(db.logs, log);
      }
      db.logs := db.logs + [log];
      r := Ok(log);
    }

    /** Set end time and status of the log with this id, and its notes when
        new non-empty notes are given. */
    method Close(logId: Id, status: Status, notes: Option<string>) returns (r: Result<WorkoutLog>)
      requires db.Valid() && status != InProgress
      modifies db`logs
      ensures db.Valid()
      ensures LogIndex(old(db.logs), logId).None? ==>
        r == Err(NotFound(NotFoundMessage("Workout log", logId))) && db.logs == old(db.logs)
      ensures LogIndex(old(db.logs), logId).Some? ==>
        var k := LogIndex(old(db.logs), logId).value;
        var before := old(db.logs)[k];
        r == Ok(before.(endTime := Some(db.now), status := status,
                        notes := if Truthy(notes) then notes else before.notes)) &&
        db.logs == old(db.logs)[k := r.value]
      ensures AtMostOneOpen(old(db.logs)) ==> AtMostOneOpen(db.logs)
    {
      var found := LogIndex(db.logs, logId);
      if found.None? {
        return Err(NotFound(NotFoundMessage("Workout log", logId)));
      }
      var k := found.value;
      var log := db.logs[k].(endTime := Some(db.now), status := status);
      if Truthy(notes) {
        log := log.(notes := notes);
      }
      DistinctUpdate(db.logs, k, log, LogKey);
      if AtMostOneOpen(db.logs) {
        CloseKeepsAtMostOneOpen(db.logs, k, log);
      }
      db.logs := db.logs[k := log];
      r := Ok(log);
    }

    /** `completeWorkout`: end the log now as COMPLETED, whatever its status
        was; non-empty notes replace the stored ones. */
    method CompleteWorkout(logId: Id, data: CompleteWorkoutInput) returns (r: Result<WorkoutLog>)
      requires db.Valid()
      modifies db`logs
      ensures db.Valid()
      ensures LogIndex(old(db.logs), logId).None? ==>
        r == Err(NotFound(NotFoundMessage("Workout log", logId))) && db.logs == old(db.logs)
      ensures LogIndex(old(db.logs), logId).Some? ==>
        var k := LogIndex(old(db.logs), logId).value;
        var before := old(db.logs)[k];
        r == Ok(before.(endTime := Some(db.now), status := Completed,
                        notes := if Truthy(data.notes) then data.notes else before.notes)) &&
        db.logs == old(db.logs)[k := r.value]
      ensures AtMostOneOpen(old(db.logs)) ==> AtMostOneOpen(db.logs)
    {
      r := Close(logId, Completed, data.notes);
    }

    /** `cancelWorkout`: end the log now as CANCELED, whatever its status
        was; the notes stay as they are. */
    method CancelWorkout(logId: Id) returns (r: Result<WorkoutLog>)
      requires db.Valid()
      modifies db`logs
      ensures db.Valid()
      ensures LogIndex(old(db.logs), logId).None? ==>
        r == Err(NotFound(NotFoundMessage("Workout log", logId))) && db.logs == old(db.logs)
      ensures LogIndex(old(db.logs), logId).Some? ==>
        var k := LogIndex(old(db.logs), logId).value;
        r == Ok(old(db.logs)[k].(endTime := Some(db.now), status := Canceled)) &&
        db.logs == old(db.logs)[k := r.value]
      ensures AtMostOneOpen(old(db.logs)) ==> AtMostOneOpen(db.logs)
    {
      r := Close(logId, Canceled, None);
    }

    /** `addExerciseLog`: only a session that exists and is IN_PROGRESS
        takes a new exercise log; every other path of the new document takes
        its schema default. */
    method AddExerciseLog(workoutLogId: Id, data: AddExerciseLogInput) returns (r: Result<ExerciseLog>)
      requires db.Valid()
      modifies db`exerciseLogs, db`nextId
      ensures db.Valid()
      ensures db.logs == old(db.logs)
      ensures LogIndex(db.logs, workoutLogId).None? ==>
        r == Err(NotFound(NotFoundMessage("Workout log", workoutLogId))) && db.exerciseLogs == old(db.exerciseLogs)
      ensures LogIndex(db.logs, workoutLogId).Some? && db.logs[LogIndex(db.logs, workoutLogId).value].status != InProgress ==>
        r == Err(Plain(ClosedSessionMessage)) && db.exerciseLogs == old(db.exerciseLogs)
      ensures LogIndex(db.logs, workoutLogId).Some? && db.logs[LogIndex(db.logs, workoutLogId).value].status == InProgress ==>
        (r.Ok? <==> data.exerciseId != "" && data.workoutExerciseId != "")
      ensures r.Err? && r.failure.StoreFailure? ==> db.exerciseLogs == old(db.exerciseLogs)
      ensures r.Ok? ==>
        db.exerciseLogs == old(db.exerciseLogs) + [r.value] &&
        r.value == NewExerciseLog(r.value.id, workoutLogId, data, db.now) &&
        forall i :: 0 <= i < |old(db.exerciseLogs)| ==> old(db.exerciseLogs)[i].id != r.value.id
    {
      var found := LogIndex(db.logs, workoutLogId);
      if found.None? {
        return Err(NotFound(NotFoundMessage("Workout log", workoutLogId)));
      }
      if db.logs[found.value].status != InProgress {
        return Err(Plain(ClosedSessionMessage));
      }
      var id := db.NewId();
      var e := NewExerciseLog(id, workoutLogId, data, db.now);
      if !SavableExerciseLog(e) {
        return Err(StoreFailure(RequiredPathMessage("ExerciseLog", MissingPath(e))));
      }
      DistinctAppend(db.exerciseLogs, e, ExerciseLogKey);
      db.exerciseLogs := db.exerciseLogs + [e];
      r := Ok(e);
    }

    /** `completeExerciseLog`: only an exercise log with this id in this
        session matches; it is marked completed now, and nothing else changes. */
    method CompleteExerciseLog(logId: Id, exerciseLogId: Id) returns (r: Result<ExerciseLog>)
      requires db.Valid()
      modifies db`exerciseLogs
      ensures db.Valid()
      ensures ExerciseLogIndex(old(db.exerciseLogs), exerciseLogId, logId).None? ==>
        r == Err(NotFound(NotFoundMessage("Exercise log", exerciseLogId))) &&
        db.exerciseLogs == old(db.exerciseLogs)
      ensures ExerciseLogIndex(old(db.exerciseLogs), exerciseLogId, logId).Some? ==>
        var k := ExerciseLogIndex(old(db.exerciseLogs), exerciseLogId, logId).value;
        r == Ok(old(db.exerciseLogs)[k].(completed := true, completedAt := Some(db.now))) &&
        db.exerciseLogs == old(db.exerciseLogs)[k := r.value]
    {
      var found := ExerciseLogIndex(db.exerciseLogs, exerciseLogId, logId);
      if found.None? {
        return Err(NotFound(NotFoundMessage("Exercise log", exerciseLogId)));
      }
      var k := found.value;
      var e := db.exerciseLogs[k].(completed := true, completedAt := Some(db.now));
      DistinctUpdate(db.exerciseLogs, k, e, ExerciseLogKey);
      db.exerciseLogs := db.exerciseLogs[k := e];
      r := Ok(e);
    }
  }

  /** The plain error a closed session raises on `addExerciseLog`. */
  const ClosedSessionMessage := "Cannot add exercises to a completed or canceled workout"

  /** The first required reference of an exercise log that is empty. */
  function MissingPath(e: ExerciseLog): string
    requires !SavableExerciseLog(e)
  {
    if e.workoutLogId == "" then "workoutLogId"
    else if e.exerciseId == "" then "exerciseId"
    else "workoutExerciseId"
  }
}
