/** Request validation for workout templates and their exercise lines. */
module WorkoutSchema {
  import opened Common

  /** Body of the create-workout request. */
  datatype CreateWorkoutInput = CreateWorkoutInput(name: string, description: Option<string>)

  /** Body of the update-workout request: the create body with every field optional. */
  datatype UpdateWorkoutInput = UpdateWorkoutInput(name: Option<string>, description: Option<string>)

  predicate ValidCreateWorkout(c: CreateWorkoutInput) {
    ValidName(c.name)
  }

  predicate ValidUpdateWorkout(u: UpdateWorkoutInput) {
    u.name.Some? ==> ValidName(u.name.value)
  }

  function CreateAsUpdate(c: CreateWorkoutInput): UpdateWorkoutInput {
    UpdateWorkoutInput(Some(c.name), c.description)
  }

  /** The update body accepts what the create body accepts, with every field
      optional; a name that is given still needs three characters. */
  lemma UpdateWorkoutIsPartialCreate(c: CreateWorkoutInput, u: UpdateWorkoutInput)
    ensures ValidCreateWorkout(c) <==> ValidUpdateWorkout(CreateAsUpdate(c))
    ensures ValidUpdateWorkout(UpdateWorkoutInput(None, None))
    ensures ValidUpdateWorkout(u) && u.name.Some? ==> Utf16Length(u.name.value) >= 3
    ensures u.name.Some? && |u.name.value| >= 3 ==> ValidUpdateWorkout(u)
  {
  }

  /** Prescribed sets and reps when the body leaves them out. */
  const DefaultSets := 3
  const DefaultReps := 12

  predicate PositiveWhole(x: real) {
    IsWhole(x) && x > 0.0
  }

  /** Body of the add-exercise-to-workout request, before validation. */
  datatype RawAddExerciseToWorkout = RawAddExerciseToWorkout(
    exerciseId: string, order: real, sets: Option<real>, reps: Option<real>)

  /** The same body after validation: whole numbers, defaults filled in. */
  datatype AddExerciseToWorkoutInput = AddExerciseToWorkoutInput(
    exerciseId: Id, order: int, sets: int, reps: int)

  /** A given count must be a positive whole number; a missing one takes its default. */
  function ParseCount(x: Option<real>, default: int): (r: Option<int>)
    requires default >= 1
    ensures r.Some? <==> x.None? || PositiveWhole(x.value)
    ensures r.Some? ==> r.value >= 1
    ensures r.Some? && x.Some? ==> r.value as real == x.value
    ensures x.None? ==> r == Some(default)
  {
    match x
    case None => Some(default)
    case Some(v) => if PositiveWhole(v) then Some(v.Floor) else None
  }

  /** The add-exercise-to-workout validator: a UUID exercise reference, a
      positive whole `order`, and positive whole `sets` and `reps` that
      default to 3 and 12. */
  function ParseAddExerciseToWorkout(raw: RawAddExerciseToWorkout): (r: Option<AddExerciseToWorkoutInput>)
    ensures r.Some? <==>
      IsUuid(raw.exerciseId) && PositiveWhole(raw.order) &&
      (raw.sets.None? || PositiveWhole(raw.sets.value)) &&
      (raw.reps.None? || PositiveWhole(raw.reps.value))
    ensures r.Some? ==> r.value.exerciseId == raw.exerciseId
    ensures r.Some? ==> r.value.order >= 1 && r.value.order as real == raw.order
    ensures r.Some? ==> r.value.sets >= 1 && r.value.reps >= 1
    ensures r.Some? ==> r.value.sets == (if raw.sets.None? then DefaultSets else raw.sets.value.Floor)
    ensures r.Some? ==> r.value.reps == (if raw.reps.None? then DefaultReps else raw.reps.value.Floor)
  {
    if IsUuid(raw.exerciseId) && PositiveWhole(raw.order) then
      match (ParseCount(raw.sets, DefaultSets), ParseCount(raw.reps, DefaultReps))
      case (Some(sets), Some(reps)) => Some(AddExerciseToWorkoutInput(raw.exerciseId, raw.order.Floor, sets, reps))
      case _ => None
    else
      None
  }
}
