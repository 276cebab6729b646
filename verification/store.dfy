/** The persistent state every repository works on: the relational tables
    of the template store, the document collections of the session log
    store, an abstract clock, and the identifier generator. */
module Store {
  import opened Common
  import opened Sequences
  import opened Tables
  import opened LogDocuments

  function LogKey(l: WorkoutLog): Id { l.id }
  function ExerciseLogKey(e: ExerciseLog): Id { e.id }

  /** The error the relational store raises on a delete of a missing row. */
  const MissingRecordMessage := "Record to delete does not exist."

  /** An identifier the generator has handed out once `n` ids were issued. */
  predicate IssuedBefore(id: Id, n: nat) {
    0 < |id| <= n
  }

  class Database {
    var workouts: seq<Workout>
    var exercises: seq<Exercise>
    var workoutExercises: seq<WorkoutExercise>
    var logs: seq<WorkoutLog>
    var exerciseLogs: seq<ExerciseLog>
    /** The current time, "new Date()". */
    var now: nat
    /** How many identifiers have been issued. */
    var nextId: nat

    /** Every row and document carries an identifier the generator issued,
        no two rows of one table share an identifier, and every stored
        document passed the checks `save()` applies. */
    ghost predicate Valid()
      reads this
    {
      (forall i :: 0 <= i < |workouts| ==> IssuedBefore(workouts[i].id, nextId)) &&
      (forall i :: 0 <= i < |exercises| ==> IssuedBefore(exercises[i].id, nextId)) &&
      (forall i :: 0 <= i < |workoutExercises| ==> IssuedBefore(workoutExercises[i].id, nextId)) &&
      (forall i :: 0 <= i < |logs| ==> IssuedBefore(logs[i].id, nextId)) &&
      (forall i :: 0 <= i < |exerciseLogs| ==> IssuedBefore(exerciseLogs[i].id, nextId)) &&
      DistinctBy(workouts, WorkoutKey) &&
      DistinctBy(exercises, ExerciseKey) &&
      DistinctBy(workoutExercises, RowKey) &&
      DistinctBy(logs, LogKey) &&
      DistinctBy(exerciseLogs, ExerciseLogKey) &&
      (forall i :: 0 <= i < |logs| ==> SavableWorkoutLog(logs[i])) &&
      (forall i :: 0 <= i < |exerciseLogs| ==> SavableExerciseLog(exerciseLogs[i]))
    }

    constructor ()
      ensures Valid()
      ensures workouts == [] && exercises == [] && workoutExercises == []
      ensures logs == [] && exerciseLogs == []
      ensures now == 0 && nextId == 0
    {
      workouts, exercises, workoutExercises := [], [], [];
      logs, exerciseLogs := [], [];
      now, nextId := 0, 0;
    }

    /** Issue a fresh identifier, distinct from every one issued before. */
    method NewId() returns (id: Id)
      requires Valid()
      modifies this`nextId
      ensures Valid()
      ensures nextId == old(nextId) + 1 && id == Mint(old(nextId))
      ensures IssuedBefore(id, nextId) && !IssuedBefore(id, old(nextId))
    {
      id := Mint(nextId);
      nextId := nextId + 1;
    }

    /** `deleteMany({ where: { workoutId } })` on the workout-exercise table. */
    method DeleteRowsOf(workoutId: Id) returns (count: nat)
      requires Valid()
      modifies this`workoutExercises
      ensures Valid()
      ensures workoutExercises == OtherRows(old(workoutExercises), workoutId)
      ensures count == |RowsOf(old(workoutExercises), workoutId)|
    {
      count := |RowsOf(workoutExercises, workoutId)|;
      DistinctFilter(workoutExercises, (r: WorkoutExercise) => r.workoutId != workoutId, RowKey);
      workoutExercises := OtherRows(workoutExercises, workoutId);
    }

    /** `createMany({ data })` on the workout-exercise table: every line gets
        a fresh id, in order. */
    method CreateRows(ds: seq<WorkoutExerciseData>) returns (created: seq<WorkoutExercise>)
      requires Valid()
      modifies this`workoutExercises, this`nextId
      ensures Valid()
      ensures created == MintRows(ds, old(nextId))
      ensures workoutExercises == old(workoutExercises) + created
      ensures nextId == old(nextId) + |ds|
    {
      created := MintRows(ds, nextId);
      MintedRowsFresh(workoutExercises, ds, nextId);
      workoutExercises := workoutExercises + created;
      nextId := nextId + |ds|;
    }
  }

  /** Rows minted from a run of fresh ids have distinct ids, none of which an
      earlier row carries. */
  lemma MintedRowsFresh(rows: seq<WorkoutExercise>, ds: seq<WorkoutExerciseData>, first: nat)
    requires DistinctBy(rows, RowKey)
    requires forall i :: 0 <= i < |rows| ==> IssuedBefore(rows[i].id, first)
    ensures DistinctBy(rows + MintRows(ds, first), RowKey)
    ensures forall i :: 0 <= i < |rows + MintRows(ds, first)| ==>
      IssuedBefore((rows + MintRows(ds, first))[i].id, first + |ds|)
  {
    var minted := MintRows(ds, first);
    assert DistinctBy(minted, RowKey) by {
      forall i, j | 0 <= i < |minted| && 0 <= j < |minted| && i != j
        ensures RowKey(minted[i]) != RowKey(minted[j])
      {
        assert |minted[i].id| != |minted[j].id|;
      }
    }
    forall i, j | 0 <= i < |rows| && 0 <= j < |minted| ensures RowKey(rows[i]) != RowKey(minted[j]) {
      assert |rows[i].id| <= first < |minted[j].id|;
    }
    DistinctConcat(rows, minted, RowKey);
  }
}
