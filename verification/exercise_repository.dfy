/** The exercise catalog repository, with the guard that keeps a referenced
    exercise in the catalog and the replacement of a workout's lines. */
module ExerciseRepo {
  import opened Common
  import opened Sequences
  import opened Tables
  import opened ExerciseSchema
  import opened Store

  /** `name: 'asc'`. */
  predicate ByName(a: Exercise, b: Exercise) {
    StrLe(a.name, b.name)
  }

  /** The plain error the delete guard raises. */
  function InUseMessage(id: Id): string {
    "Cannot delete exercise with ID " + id + " because it is associated with workouts"
  }

  function Patch(e: Exercise, data: UpdateExerciseInput): Exercise {
    e.(name := data.name.GetOr(e.name),
       description := if data.description.Some? then data.description else e.description)
  }

  /** The lines of a query result that pairs lines with their workouts. */
  function RowsWithWorkout(ls: seq<RowWithWorkout>): (rows: seq<WorkoutExercise>)
    ensures |rows| == |ls|
    ensures forall i :: 0 <= i < |ls| ==> rows[i] == ls[i].row
  {
    seq(|ls|, i requires 0 <= i < |ls| => ls[i].row)
  }

  /** The lines that prescribe an exercise, none missing and none repeated,
      each with the workout it belongs to, as `include: { workout: true }`
      gives them. */
  function LinesWithWorkouts(rows: seq<WorkoutExercise>, ws: seq<Workout>, exerciseId: Id): (r: seq<RowWithWorkout>)
    ensures |r| == CountReferencing(rows, exerciseId)
    ensures forall i :: 0 <= i < |r| ==>
      r[i].row in rows && r[i].row.exerciseId == exerciseId && r[i].workout == LookupWorkout(ws, r[i].row.workoutId)
    ensures multiset(RowsWithWorkout(r)) == multiset(Referencing(rows, exerciseId))
    ensures forall j :: 0 <= j < |rows| && rows[j].exerciseId == exerciseId ==>
      exists i :: 0 <= i < |r| && r[i].row == rows[j]
  {
    var refs := Referencing(rows, exerciseId);
    var r := WithWorkouts(refs, ws);
    assert forall i :: 0 <= i < |r| ==> r[i].row in refs;
    assert RowsWithWorkout(r) == refs;
    assert forall j :: 0 <= j < |rows| && rows[j].exerciseId == exerciseId ==> rows[j] in refs;
    r
  }

  class ExerciseRepository {
    const db: Database

    constructor (db: Database)
      ensures this.db == db
    {
      this.db := db;
    }

    /** `create`: one new catalog entry. */
    method Create(data: CreateExerciseInput) returns (e: Exercise)
      requires db.Valid()
      modifies db`exercises, db`nextId
      ensures db.Valid()
      ensures db.exercises == old(db.exercises) + [e]
      ensures e.name == data.name && e.description == data.description
      ensures forall i :: 0 <= i < |old(db.exercises)| ==> old(db.exercises)[i].id != e.id
    {
      var id := db.NewId();
      e := Exercise(id, data.name, data.description);
      DistinctAppend(db.exercises, e, ExerciseKey);
      db.exercises := db.exercises + [e];
    }

    /** `findAll`: the whole catalog, by name. */
    function FindAll(): (r: seq<Exercise>)
      reads db
      ensures multiset(r) == multiset(db.exercises)
      ensures SortedBy(r, ByName)
    {
      StrLeTotal();
      SortBy(db.exercises, ByName)
    }

    /** `findById`: the exercise with this id, or null. */
    function FindById(id: Id): (r: Option<Exercise>)
      reads db
      ensures r.Some? <==> exists i :: 0 <= i < |db.exercises| && db.exercises[i].id == id
      ensures r.Some? ==> r.value in db.exercises && r.value.id == id
    {
      LookupExercise(db.exercises, id)
    }

    /** `findByIdWithWorkouts`: NotFound for a missing exercise; otherwise the
        exercise with every line that prescribes it and that line's workout. */
    function FindByIdWithWorkouts(id: Id): (r: Result<ExerciseDetail>)
      reads db
      ensures r.Err? <==> forall i :: 0 <= i < |db.exercises| ==> db.exercises[i].id != id
      ensures r.Err? ==> r.failure == NotFound(NotFoundMessage("Exercise", id))
      ensures r.Ok? ==> r.value.exercise in db.exercises && r.value.exercise.id == id
      ensures r.Ok? ==> |r.value.workouts| == CountReferencing(db.workoutExercises, id)
      ensures r.Ok? ==> forall i :: 0 <= i < |r.value.workouts| ==>
        r.value.workouts[i].row in db.workoutExercises && r.value.workouts[i].row.exerciseId == id &&
        r.value.workouts[i].workout == LookupWorkout(db.workouts, r.value.workouts[i].row.workoutId)
      ensures r.Ok? ==> multiset(RowsWithWorkout(r.value.workouts)) == multiset(Referencing(db.workoutExercises, id))
      ensures r.Ok? ==> forall j :: 0 <= j < |db.workoutExercises| && db.workoutExercises[j].exerciseId == id ==>
        exists i :: 0 <= i < |r.value.workouts| && r.value.workouts[i].row == db.workoutExercises[j]
    {
      match LookupExercise(db.exercises, id)
      case None => Err(NotFound(NotFoundMessage("Exercise", id)))
      case Some(e) => Ok(ExerciseDetail(e, LinesWithWorkouts(db.workoutExercises, db.workouts, id)))
    }

    /** `update`: NotFound for a missing exercise, otherwise the given fields
        replace the stored ones and nothing else changes. */
    method Update(id: Id, data: UpdateExerciseInput) returns (r: Result<Exercise>)
      requires db.Valid()
      modifies db`exercises
      ensures db.Valid()
      ensures ExerciseIndex(old(db.exercises), id).None? ==>
        r == Err(NotFound(NotFoundMessage("Exercise", id))) && db.exercises == old(db.exercises)
      ensures ExerciseIndex(old(db.exercises), id).Some? ==>
        var k := ExerciseIndex(old(db.exercises), id).value;
        var before := old(db.exercises)[k];
        r.Ok? && db.exercises == old(db.exercises)[k := r.value] && r.value.id == id &&
        r.value.name == (if data.name.Some? then data.name.value else before.name) &&
        r.value.description == (if data.description.Some? then data.description else before.description)
    {
      var found := ExerciseIndex(db.exercises, id);
      if found.None? {
        return Err(NotFound(NotFoundMessage("Exercise", id)));
      }
      var k := found.value;
      var e := Patch(db.exercises[k], data);
      DistinctUpdate(db.exercises, k, e, ExerciseKey);
      db.exercises := db.exercises[k := e];
      r := Ok(e);
    }

    /** `delete`: NotFound for a missing exercise; refused with a plain error,
        removing nothing, while any workout line prescribes it; otherwise
        exactly that exercise leaves the catalog. */
    method Delete(id: Id) returns (r: Result<Exercise>)
      requires db.Valid()
      modifies db`exercises
      ensures db.Valid()
      ensures ExerciseIndex(old(db.exercises), id).None? ==>
        r == Err(NotFound(NotFoundMessage("Exercise", id))) && db.exercises == old(db.exercises)
      ensures ExerciseIndex(old(db.exercises), id).Some? && CountReferencing(db.workoutExercises, id) > 0 ==>
        r == Err(Plain(InUseMessage(id))) && db.exercises == old(db.exercises)
      ensures ExerciseIndex(old(db.exercises), id).Some? && CountReferencing(db.workoutExercises, id) == 0 ==>
        var k := ExerciseIndex(old(db.exercises), id).value;
        r == Ok(old(db.exercises)[k]) && db.exercises == old(db.exercises)[..k] + old(db.exercises)[k + 1..]
      ensures r.Ok? ==> forall e :: e in db.exercises ==> e.id != id
    {
      var found := ExerciseIndex(db.exercises, id);
      if found.None? {
        return Err(NotFound(NotFoundMessage("Exercise", id)));
      }
      if CountReferencing(db.workoutExercises, id) > 0 {
        return Err(Plain(InUseMessage(id)));
      }
      var k := found.value;
      r := Ok(db.exercises[k]);
      DistinctRemoveAt(db.exercises, k, ExerciseKey);
      db.exercises := db.exercises[..k] + db.exercises[k + 1..];
    }

    /** `updateWorkoutExercises`: NotFound, deleting nothing, for a missing
        workout; otherwise every line of the workout is deleted and the given
        lines are inserted, and the count inserted is returned. */
    method UpdateWorkoutExercises(workoutId: Id, lines: seq<WorkoutExerciseData>) returns (r: Result<nat>)
      requires db.Valid()
      modifies db`workoutExercises, db`nextId
      ensures db.Valid()
      ensures WorkoutIndex(db.workouts, workoutId).None? ==>
        r == Err(NotFound(NotFoundMessage("Workout", workoutId))) &&
        db.workoutExercises == old(db.workoutExercises)
      ensures WorkoutIndex(db.workouts, workoutId).Some? ==>
        r == Ok(|lines|) &&
        db.workoutExercises == ReplaceRows(old(db.workoutExercises), workoutId, MintRows(lines, old(db.nextId)))
      ensures r.Ok? && (forall i :: 0 <= i < |lines| ==> lines[i].workoutId == workoutId) ==>
        RowsOf(db.workoutExercises, workoutId) == MintRows(lines, old(db.nextId)) &&
        OtherRows(db.workoutExercises, workoutId) == OtherRows(old(db.workoutExercises), workoutId)
    {
      if WorkoutIndex(db.workouts, workoutId).None? {
        return Err(NotFound(NotFoundMessage("Workout", workoutId)));
      }
      ghost var minted := MintRows(lines, db.nextId);
      ghost var before := db.workoutExercises;
      var _ := db.DeleteRowsOf(workoutId);
      var created := db.CreateRows(lines);
      if forall i :: 0 <= i < |lines| ==> lines[i].workoutId == workoutId {
        ReplaceRowsSpec(before, workoutId, minted);
      }
      r := Ok(|created|);
    }
  }
}
