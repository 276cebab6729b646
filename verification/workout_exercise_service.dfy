/** The workout-exercise service: builds lines from request bodies, guards
    the deletion of a line by the workout it is addressed through, and
    replaces a workout's whole list of lines. Its guards raise plain errors. */
module WorkoutExerciseSvc {
  import opened Common
  import opened Sequences
  import opened Tables
  import opened Store
  import opened WorkoutRepo
  import opened WorkoutExerciseRepo

  class WorkoutExerciseService {
    const db: Database
    const repository: WorkoutExerciseRepository
    const workoutRepository: WorkoutRepository

    ghost predicate Valid()
      reads db
    {
      repository.db == db && workoutRepository.db == db && db.Valid()
    }

    constructor (db: Database)
      requires db.Valid()
      ensures this.db == db && Valid()
    {
      this.db := db;
      repository := new WorkoutExerciseRepository(db);
      workoutRepository := new WorkoutRepository(db);
    }

    /** `findById`: forwards to the repository. */
    function FindById(id: Id): Option<WorkoutExercise>
      reads db
      requires Valid()
    {
      repository.FindById(id)
    }

    /** `addExerciseToWorkout`: one new line of the workout, naming the nested
        exercise and copying the prescription. */
    method AddExerciseToWorkout(workoutId: Id, data: WorkoutExerciseInput) returns (row: WorkoutExercise)
      requires Valid()
      modifies db`workoutExercises, db`nextId
      ensures Valid()
      ensures db.workoutExercises == old(db.workoutExercises) + [row]
      ensures row.workoutId == workoutId && row.exerciseId == data.exercise.id
      ensures row.order == data.order && row.series == data.series && row.reps == data.reps
      ensures row.weight == data.weight && row.rest == data.rest
    {
      row := repository.Create(RowData(workoutId, data));
    }

    /** `updateWorkoutExercise`: forwards a partial body to the repository. */
    method UpdateWorkoutExercise(id: Id, patch: RowPatch) returns (r: Result<WorkoutExercise>)
      requires Valid()
      modifies db`workoutExercises
      ensures Valid()
      ensures RowIndex(old(db.workoutExercises), id).None? ==>
        r == Err(NotFound(NotFoundMessage("Exercise", id))) && db.workoutExercises == old(db.workoutExercises)
      ensures RowIndex(old(db.workoutExercises), id).Some? ==>
        var k := RowIndex(old(db.workoutExercises), id).value;
        r.Ok? && db.workoutExercises == old(db.workoutExercises)[k := r.value] && r.value.id == id
    {
      r := repository.Update(id, patch);
    }

    /** `deleteWorkoutExercise`: a missing line, and a line of another
        workout, are plain errors that delete nothing; otherwise exactly that
        line is deleted. */
    method DeleteWorkoutExercise(workoutId: Id, id: Id) returns (r: Result<WorkoutExercise>)
      requires Valid()
      modifies db`workoutExercises
      ensures Valid()
      ensures RowIndex(old(db.workoutExercises), id).None? ==>
        r == Err(Plain(NotFoundMessage("WorkoutExercise", id))) && db.workoutExercises == old(db.workoutExercises)
      ensures RowIndex(old(db.workoutExercises), id).Some? &&
              old(db.workoutExercises)[RowIndex(old(db.workoutExercises), id).value].workoutId != workoutId ==>
        r == Err(Plain(NotFoundMessage("Workout exercise", id))) && db.workoutExercises == old(db.workoutExercises)
      ensures r.Ok? ==>
        var k := RowIndex(old(db.workoutExercises), id).value;
        k < |old(db.workoutExercises)| && r.value == old(db.workoutExercises)[k] && r.value.workoutId == workoutId &&
        db.workoutExercises == old(db.workoutExercises)[..k] + old(db.workoutExercises)[k + 1..]
      ensures RowIndex(old(db.workoutExercises), id).Some? &&
              old(db.workoutExercises)[RowIndex(old(db.workoutExercises), id).value].workoutId == workoutId ==>
        r.Ok?
    {
      var found := repository.FindById(id);
      if found.None? {
        return Err(Plain(NotFoundMessage("WorkoutExercise", id)));
      }
      if found.value.workoutId != workoutId {
        return Err(Plain(NotFoundMessage("Workout exercise", id)));
      }
      r := repository.Delete(id);
    }

    /** `updateWorkoutExercises`: the inputs become lines of this workout one
        to one and in order; a missing workout is a plain error raised before
        anything is deleted; otherwise the workout's lines become exactly the
        new ones and other workouts' lines stay as they were. */
    method UpdateWorkoutExercises(workoutId: Id, inputs: seq<WorkoutExerciseInput>) returns (r: Result<nat>)
      requires Valid()
      modifies db`workoutExercises, db`nextId
      ensures Valid()
      ensures workoutRepository.FindById(workoutId).None? ==>
        r == Err(Plain(NotFoundMessage("Workout", workoutId))) && db.workoutExercises == old(db.workoutExercises)
      ensures workoutRepository.FindById(workoutId).Some? ==>
        r == Ok(|inputs|) &&
        |RowsOf(db.workoutExercises, workoutId)| == |inputs| &&
        (forall i :: 0 <= i < |inputs| ==>
          DataOf(RowsOf(db.workoutExercises, workoutId)[i]) == RowData(workoutId, inputs[i])) &&
        OtherRows(db.workoutExercises, workoutId) == OtherRows(old(db.workoutExercises), workoutId)
    {
      var lines := RowsData(workoutId, inputs);
      var workout := workoutRepository.FindById(workoutId);
      if workout.None? {
        return Err(Plain(NotFoundMessage("Workout", workoutId)));
      }
      var count := repository.UpdateWorkoutExercises(workoutId, lines);
      r := Ok(count);
    }
  }
}
