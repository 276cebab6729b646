/** Request validation for the exercise catalog. */
module ExerciseSchema {
  import opened Common

  /** Body of the create-exercise request. */
  datatype CreateExerciseInput = CreateExerciseInput(name: string, description: Option<string>)

  /** Body of the update-exercise request: the create body with every field optional. */
  datatype UpdateExerciseInput = UpdateExerciseInput(name: Option<string>, description: Option<string>)

  predicate ValidCreateExercise(c: CreateExerciseInput) {
    ValidName(c.name)
  }

  predicate ValidUpdateExercise(u: UpdateExerciseInput) {
    u.name.Some? ==> ValidName(u.name.value)
  }

  /** A full create body, read as an update that sets every field. */
  function CreateAsUpdate(c: CreateExerciseInput): UpdateExerciseInput {
    UpdateExerciseInput(Some(c.name), c.description)
  }

  /** Making every field optional accepts every valid create body and the
      empty body, yet a name that is given must still be long enough. */
  lemma UpdateExerciseIsPartialCreate(c: CreateExerciseInput, u: UpdateExerciseInput)
    ensures ValidCreateExercise(c) <==> ValidUpdateExercise(CreateAsUpdate(c))
    ensures ValidUpdateExercise(UpdateExerciseInput(None, None))
    ensures ValidUpdateExercise(u) && u.name.Some? ==> Utf16Length(u.name.value) >= 3
    ensures u.name.Some? && |u.name.value| >= 3 ==> ValidUpdateExercise(u)
  {
  }
}
