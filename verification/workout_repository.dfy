/** The workout template repository: workouts and the exercise lines they
    prescribe, in the relational store. */
module WorkoutRepo {
  import opened Common
  import opened Sequences
  import opened Tables
  import opened WorkoutSchema
  import opened Store

  /** `createdAt: 'desc'`: a workout may precede another only if it was not created later. */
  predicate NewerFirst(a: Workout, b: Workout) {
    a.createdAt >= b.createdAt
  }

  /** `order: 'asc'`. */
  predicate ByOrder(a: WorkoutExercise, b: WorkoutExercise) {
    a.order <= b.order
  }

  function WorkoutsOf(ds: seq<WorkoutDetail>): (ws: seq<Workout>)
    ensures |ws| == |ds|
    ensures forall i :: 0 <= i < |ds| ==> ws[i] == ds[i].workout
  {
    seq(|ds|, i requires 0 <= i < |ds| => ds[i].workout)
  }

  function RowsWithExercise(ls: seq<RowWithExercise>): (rows: seq<WorkoutExercise>)
    ensures |rows| == |ls|
    ensures forall i :: 0 <= i < |ls| ==> rows[i] == ls[i].row
  {
    seq(|ls|, i requires 0 <= i < |ls| => ls[i].row)
  }

  /** A workout's lines, in `order` ascending, each with its exercise. */
  function LinesInOrder(rows: seq<WorkoutExercise>, es: seq<Exercise>, workoutId: Id): (r: seq<RowWithExercise>)
    ensures multiset(RowsWithExercise(r)) == multiset(RowsOf(rows, workoutId))
    ensures forall i :: 0 <= i < |r| ==>
      r[i].row in rows && r[i].row.workoutId == workoutId && r[i].exercise == LookupExercise(es, r[i].row.exerciseId)
    ensures SortedBy(RowsWithExercise(r), ByOrder)
  {
    var sorted := SortBy(RowsOf(rows, workoutId), ByOrder);
    var r := WithExercises(sorted, es);
    assert RowsWithExercise(r) == sorted;
    assert forall i :: 0 <= i < |r| ==> r[i].row in multiset(RowsOf(rows, workoutId));
    r
  }

  /** Each workout with its lines and their exercises, as `include` gives them. */
  function Details(ws: seq<Workout>, rows: seq<WorkoutExercise>, es: seq<Exercise>): (r: seq<WorkoutDetail>)
    ensures |r| == |ws|
    ensures forall i :: 0 <= i < |ws| ==>
      r[i].workout == ws[i] && r[i].exercises == WithExercises(RowsOf(rows, ws[i].id), es)
  {
    seq(|ws|, i requires 0 <= i < |ws| => WorkoutDetail(ws[i], WithExercises(RowsOf(rows, ws[i].id), es)))
  }

  /** The same patch applied to a stored workout: a given field replaces the
      stored one, a missing one leaves it. */
  function Patch(w: Workout, data: UpdateWorkoutInput): Workout {
    w.(name := data.name.GetOr(w.name),
       description := if data.description.Some? then data.description else w.description)
  }

  class WorkoutRepository {
    const db: Database

    constructor (db: Database)
      ensures this.db == db
    {
      this.db := db;
    }

    /** `findById`: the workout with this id, or null. */
    function FindById(id: Id): (r: Option<Workout>)
      reads db
      ensures r.Some? <==> exists i :: 0 <= i < |db.workouts| && db.workouts[i].id == id
      ensures r.Some? ==> r.value in db.workouts && r.value.id == id
    {
      LookupWorkout(db.workouts, id)
    }

    /** `findAll`: every workout, newest first, each with its lines and
        their exercises. */
    function FindAll(): (r: seq<WorkoutDetail>)
      reads db
      ensures multiset(WorkoutsOf(r)) == multiset(db.workouts)
      ensures SortedBy(WorkoutsOf(r), NewerFirst)
      ensures forall i :: 0 <= i < |r| ==>
        r[i].exercises == WithExercises(RowsOf(db.workoutExercises, r[i].workout.id), db.exercises)
    {
      var sorted := SortBy(db.workouts, NewerFirst);
      var r := Details(sorted, db.workoutExercises, db.exercises);
      assert WorkoutsOf(r) == sorted;
      r
    }

    /** `findByIdWithExercises`: a missing workout is NotFound, unlike
        `findById`; a present one comes with its lines in `order` ascending. */
    function FindByIdWithExercises(id: Id): (r: Result<WorkoutDetail>)
      reads db
      ensures r.Err? <==> forall i :: 0 <= i < |db.workouts| ==> db.workouts[i].id != id
      ensures r.Err? ==> r.failure == NotFound(NotFoundMessage("Workout", id))
      ensures r.Ok? ==> r.value.workout in db.workouts && r.value.workout.id == id
      ensures r.Ok? ==>
        multiset(RowsWithExercise(r.value.exercises)) == multiset(RowsOf(db.workoutExercises, id)) &&
        SortedBy(RowsWithExercise(r.value.exercises), ByOrder)
      ensures r.Ok? ==> forall i :: 0 <= i < |r.value.exercises| ==>
        r.value.exercises[i].exercise == LookupExercise(db.exercises, r.value.exercises[i].row.exerciseId)
    {
      match LookupWorkout(db.workouts, id)
      case None => Err(NotFound(NotFoundMessage("Workout", id)))
      case Some(w) => Ok(WorkoutDetail(w, LinesInOrder(db.workoutExercises, db.exercises, id)))
    }

    /** `update`: NotFound for a missing workout, otherwise the given fields
        replace the stored ones and nothing else changes. */
    method Update(id: Id, data: UpdateWorkoutInput) returns (r: Result<Workout>)
      requires db.Valid()
      modifies db`workouts
      ensures db.Valid()
      ensures WorkoutIndex(old(db.workouts), id).None? ==>
        r == Err(NotFound(NotFoundMessage("Workout", id))) && db.workouts == old(db.workouts)
      ensures WorkoutIndex(old(db.workouts), id).Some? ==>
        var k := WorkoutIndex(old(db.workouts), id).value;
        var before := old(db.workouts)[k];
        r.Ok? && db.workouts == old(db.workouts)[k := r.value] &&
        r.value.id == id && r.value.createdAt == before.createdAt &&
        r.value.name == (if data.name.Some? then data.name.value else before.name) &&
        r.value.description == (if data.description.Some? then data.description else before.description)
    {
      var found := WorkoutIndex(db.workouts, id);
      if found.None? {
        return Err(NotFound(NotFoundMessage("Workout", id)));
      }
      var k := found.value;
      var w := Patch(db.workouts[k], data);
      DistinctUpdate(db.workouts, k, w, WorkoutKey);
      db.workouts := db.workouts[k := w];
      r := Ok(w);
    }

    /** `create`: one new workout, created now. */
    method Create(data: CreateWorkoutInput) returns (w: Workout)
      requires db.Valid()
      modifies db`workouts, db`nextId
      ensures db.Valid()
      ensures db.workouts == old(db.workouts) + [w]
      ensures w.name == data.name && w.description == data.description && w.createdAt == db.now
      ensures forall i :: 0 <= i < |old(db.workouts)| ==> old(db.workouts)[i].id != w.id
    {
      var id := db.NewId();
      w := Workout(id, data.name, data.description, db.now);
      DistinctAppend(db.workouts, w, WorkoutKey);
      db.workouts := db.workouts + [w];
    }

    /** `addExercise`: NotFound, and no new line, when the exercise is not in
        the catalog; otherwise exactly one new line, returned with its exercise. */
    method AddExercise(workoutId: Id, data: WorkoutExerciseInput) returns (r: Result<RowWithExercise>)
      requires db.Valid()
      modifies db`workoutExercises, db`nextId
      ensures db.Valid()
      ensures LookupExercise(db.exercises, data.exercise.id).None? ==>
        r == Err(NotFound(NotFoundMessage("Exercise", data.exercise.id))) &&
        db.workoutExercises == old(db.workoutExercises)
      ensures LookupExercise(db.exercises, data.exercise.id).Some? ==>
        r.Ok? && db.workoutExercises == old(db.workoutExercises) + [r.value.row] &&
        DataOf(r.value.row) == RowData(workoutId, data) &&
        r.value.exercise == LookupExercise(db.exercises, data.exercise.id) &&
        forall i :: 0 <= i < |old(db.workoutExercises)| ==> old(db.workoutExercises)[i].id != r.value.row.id
    {
      var exercise := LookupExercise(db.exercises, data.exercise.id);
      if exercise.None? {
        return Err(NotFound(NotFoundMessage("Exercise", data.exercise.id)));
      }
      ghost var before := db.workoutExercises;
      var created := db.CreateRows([RowData(workoutId, data)]);
      var row := created[0];
      assert forall i :: 0 <= i < |before| ==> before[i] == db.workoutExercises[i];
      assert db.workoutExercises[|before|] == row;
      r := Ok(RowWithExercise(row, LookupExercise(db.exercises, row.exerciseId)));
    }

    /** `delete`: removes the workout; the store refuses a missing one. */
    method Delete(id: Id) returns (r: Result<Workout>)
      requires db.Valid()
      modifies db`workouts
      ensures db.Valid()
      ensures WorkoutIndex(old(db.workouts), id).None? ==>
        r == Err(StoreFailure(MissingRecordMessage)) && db.workouts == old(db.workouts)
      ensures WorkoutIndex(old(db.workouts), id).Some? ==>
        var k := WorkoutIndex(old(db.workouts), id).value;
        r == Ok(old(db.workouts)[k]) && db.workouts == old(db.workouts)[..k] + old(db.workouts)[k + 1..]
      ensures forall w :: w in db.workouts ==> w.id != id
    {
      var found := WorkoutIndex(db.workouts, id);
      if found.None? {
        return Err(StoreFailure(MissingRecordMessage));
      }
      var k := found.value;
      r := Ok(db.workouts[k]);
      DistinctRemoveAt(db.workouts, k, WorkoutKey);
      db.workouts := db.workouts[..k] + db.workouts[k + 1..];
    }
  }
}
