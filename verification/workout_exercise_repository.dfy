/** The repository of workout-exercise lines, one row per exercise a
    workout prescribes. */
module WorkoutExerciseRepo {
  import opened Common
  import opened Sequences
  import opened Tables
  import opened Store

  /** An update body: each given column replaces the stored one. */
  datatype RowPatch = RowPatch(
    workoutId: Option<Id>, exerciseId: Option<Id>, order: Option<int>,
    series: Option<int>, reps: Option<int>, weight: Option<real>, rest: Option<int>)

  function ApplyPatch(r: WorkoutExercise, p: RowPatch): WorkoutExercise {
    WorkoutExercise(r.id, p.workoutId.GetOr(r.workoutId), p.exerciseId.GetOr(r.exerciseId),
      p.order.GetOr(r.order), p.series.GetOr(r.series), p.reps.GetOr(r.reps),
      p.weight.GetOr(r.weight), p.rest.GetOr(r.rest))
  }

  /** `id: 'asc'`. */
  predicate ById(a: WorkoutExercise, b: WorkoutExercise) {
    StrLe(a.id, b.id)
  }

  class WorkoutExerciseRepository {
    const db: Database

    constructor (db: Database)
      ensures this.db == db
    {
      this.db := db;
    }

    /** `create`: exactly one new line, with a fresh id. */
    method Create(data: WorkoutExerciseData) returns (row: WorkoutExercise)
      requires db.Valid()
      modifies db`workoutExercises, db`nextId
      ensures db.Valid()
      ensures db.workoutExercises == old(db.workoutExercises) + [row]
      ensures DataOf(row) == data
      ensures forall i :: 0 <= i < |old(db.workoutExercises)| ==> old(db.workoutExercises)[i].id != row.id
    {
      ghost var before := db.workoutExercises;
      var created := db.CreateRows([data]);
      row := created[0];
      assert forall i :: 0 <= i < |before| ==> before[i] == db.workoutExercises[i];
      assert db.workoutExercises[|before|] == row;
    }

    /** `findAll`: every line, by id. */
    function FindAll(): (r: seq<WorkoutExercise>)
      reads db
      ensures multiset(r) == multiset(db.workoutExercises)
      ensures SortedBy(r, ById)
    {
      StrLeTotal();
      SortBy(db.workoutExercises, ById)
    }

    /** `findById`: the line with this id, or null. */
    function FindById(id: Id): (r: Option<WorkoutExercise>)
      reads db
      ensures r.Some? <==> exists i :: 0 <= i < |db.workoutExercises| && db.workoutExercises[i].id == id
      ensures r.Some? ==> r.value in db.workoutExercises && r.value.id == id
    {
      match RowIndex(db.workoutExercises, id)
      case Some(k) => Some(db.workoutExercises[k])
      case None => None
    }

    /** `update`: NotFound for a missing line (its message says "Exercise"),
        otherwise the given columns replace the stored ones. */
    method Update(id: Id, patch: RowPatch) returns (r: Result<WorkoutExercise>)
      requires db.Valid()
      modifies db`workoutExercises
      ensures db.Valid()
      ensures RowIndex(old(db.workoutExercises), id).None? ==>
        r == Err(NotFound(NotFoundMessage("Exercise", id))) && db.workoutExercises == old(db.workoutExercises)
      ensures RowIndex(old(db.workoutExercises), id).Some? ==>
        var k := RowIndex(old(db.workoutExercises), id).value;
        var before := old(db.workoutExercises)[k];
        r.Ok? && db.workoutExercises == old(db.workoutExercises)[k := r.value] && r.value.id == id &&
        (patch.workoutId.Some? ==> r.value.workoutId == patch.workoutId.value) &&
        (patch.workoutId.None? ==> r.value.workoutId == before.workoutId) &&
        (patch.exerciseId.Some? ==> r.value.exerciseId == patch.exerciseId.value) &&
        (patch.exerciseId.None? ==> r.value.exerciseId == before.exerciseId) &&
        (patch.order.Some? ==> r.value.order == patch.order.value) &&
        (patch.order.None? ==> r.value.order == before.order) &&
        (patch.series.Some? ==> r.value.series == patch.series.value) &&
        (patch.series.None? ==> r.value.series == before.series) &&
        (patch.reps.Some? ==> r.value.reps == patch.reps.value) &&
        (patch.reps.None? ==> r.value.reps == before.reps) &&
        (patch.weight.Some? ==> r.value.weight == patch.weight.value) &&
        (patch.weight.None? ==> r.value.weight == before.weight) &&
        (patch.rest.Some? ==> r.value.rest == patch.rest.value) &&
        (patch.rest.None? ==> r.value.rest == before.rest)
    {
      var found := RowIndex(db.workoutExercises, id);
      if found.None? {
        return Err(NotFound(NotFoundMessage("Exercise", id)));
      }
      var k := found.value;
      var row := ApplyPatch(db.workoutExercises[k], patch);
      DistinctUpdate(db.workoutExercises, k, row, RowKey);
      db.workoutExercises := db.workoutExercises[k := row];
      r := Ok(row);
    }

    /** `delete`: removes the line with this id; the store refuses a missing one. */
    method Delete(id: Id) returns (r: Result<WorkoutExercise>)
      requires db.Valid()
      modifies db`workoutExercises
      ensures db.Valid()
      ensures RowIndex(old(db.workoutExercises), id).None? ==>
        r == Err(StoreFailure(MissingRecordMessage)) && db.workoutExercises == old(db.workoutExercises)
      ensures RowIndex(old(db.workoutExercises), id).Some? ==>
        var k := RowIndex(old(db.workoutExercises), id).value;
        r == Ok(old(db.workoutExercises)[k]) &&
        db.workoutExercises == old(db.workoutExercises)[..k] + old(db.workoutExercises)[k + 1..]
      ensures forall x :: x in db.workoutExercises ==> x.id != id
    {
      var found := RowIndex(db.workoutExercises, id);
      if found.None? {
        return Err(StoreFailure(MissingRecordMessage));
      }
      var k := found.value;
      r := Ok(db.workoutExercises[k]);
      DistinctRemoveAt(db.workoutExercises, k, RowKey);
      db.workoutExercises := db.workoutExercises[..k] + db.workoutExercises[k + 1..];
    }

    /** `updateWorkoutExercises`: delete every line of the workout, then
        insert the given lines; no check that the workout exists. Returns
        the count inserted. */
    method UpdateWorkoutExercises(workoutId: Id, lines: seq<WorkoutExerciseData>) returns (count: nat)
      requires db.Valid()
      modifies db`workoutExercises, db`nextId
      ensures db.Valid()
      ensures count == |lines|
      ensures db.workoutExercises == ReplaceRows(old(db.workoutExercises), workoutId, MintRows(lines, old(db.nextId)))
      ensures (forall i :: 0 <= i < |lines| ==> lines[i].workoutId == workoutId) ==>
        RowsOf(db.workoutExercises, workoutId) == MintRows(lines, old(db.nextId)) &&
        OtherRows(db.workoutExercises, workoutId) == OtherRows(old(db.workoutExercises), workoutId)
    {
      ghost var minted := MintRows(lines, db.nextId);
      ghost var before := db.workoutExercises;
      var _ := db.DeleteRowsOf(workoutId);
      var created := db.CreateRows(lines);
      if forall i :: 0 <= i < |lines| ==> lines[i].workoutId == workoutId {
        ReplaceRowsSpec(before, workoutId, minted);
      }
      count := |created|;
    }

    /** `deleteWorkoutExercises`: removes exactly the workout's lines and
        returns how many there were. */
    method DeleteWorkoutExercises(workoutId: Id) returns (count: nat)
      requires db.Valid()
      modifies db`workoutExercises
      ensures db.Valid()
      ensures db.workoutExercises == OtherRows(old(db.workoutExercises), workoutId)
      ensures count == |RowsOf(old(db.workoutExercises), workoutId)|
      ensures RowsOf(db.workoutExercises, workoutId) == []
    {
      count := db.DeleteRowsOf(workoutId);
      FilterNone(db.workoutExercises, (r: WorkoutExercise) => r.workoutId == workoutId);
    }
  }
}
