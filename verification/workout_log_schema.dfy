/** Request validation for the session log endpoints: what a body must
    look like to pass, and the defaults it picks up on the way. */
module WorkoutLogSchema {
  import opened Common

  /** The three states of a workout log. */
  datatype Status = InProgress | Completed | Canceled

  /** Bodies of the start, complete and complete-exercise requests: an optional note only. */
  datatype StartWorkoutInput = StartWorkoutInput(notes: Option<string>)
  datatype CompleteWorkoutInput = CompleteWorkoutInput(notes: Option<string>)
  datatype CompleteExerciseLogInput = CompleteExerciseLogInput(notes: Option<string>)

  /** One set as the client sends it; `completed` may be omitted. */
  datatype RawSet = RawSet(weight: real, reps: real, completed: Option<bool>)

  /** One set after validation, its `completed` flag filled in. */
  datatype SetInput = SetInput(weight: real, reps: real, completed: bool)

  /** A set omitted `completed` flag reads as "done" on input. */
  const InputSetCompletedDefault := true

  predicate ValidSet(s: SetInput) {
    s.weight >= 0.0 && IsWhole(s.reps) && s.reps > 0.0
  }

  /** The set validator: weight non-negative, reps a positive whole number. */
  function ParseSet(raw: RawSet): (r: Option<SetInput>)
    ensures r.Some? <==> raw.weight >= 0.0 && IsWhole(raw.reps) && raw.reps > 0.0
    ensures r.Some? ==> ValidSet(r.value) && r.value.reps >= 1.0
    ensures r.Some? ==> r.value.weight == raw.weight && r.value.reps == raw.reps
    ensures r.Some? ==> r.value.completed == raw.completed.GetOr(InputSetCompletedDefault)
  {
    if raw.weight >= 0.0 && IsWhole(raw.reps) && raw.reps > 0.0 then
      Some(SetInput(raw.weight, raw.reps, raw.completed.GetOr(InputSetCompletedDefault)))
    else
      None
  }

  /** An array of sets passes when every element does, and keeps its order. */
  function ParseSets(raws: seq<RawSet>): (r: Option<seq<SetInput>>)
    ensures r.Some? <==> forall i :: 0 <= i < |raws| ==> ParseSet(raws[i]).Some?
    ensures r.Some? ==> |r.value| == |raws|
    ensures r.Some? ==> forall i :: 0 <= i < |raws| ==> ParseSet(raws[i]) == Some(r.value[i])
  {
    if |raws| == 0 then Some([])
    else
      match (ParseSet(raws[0]), ParseSets(raws[1..]))
      case (Some(first), Some(rest)) =>
        var r := [first] + rest;
        assert forall i :: 1 <= i < |raws| ==> raws[i] == raws[1..][i - 1] && r[i] == rest[i - 1];
        Some(r)
      case (None, _) => None
      case (_, None) =>
        assert forall i :: 0 <= i < |raws[1..]| ==> raws[1..][i] == raws[i + 1];
        None
  }

  /** Body of the add-exercise-log request, before validation. */
  datatype RawAddExerciseLog = RawAddExerciseLog(
    exerciseId: string, workoutExerciseId: string, sets: seq<RawSet>, notes: Option<string>)

  /** Body of the add-exercise-log request, after validation. */
  datatype AddExerciseLogInput = AddExerciseLogInput(
    exerciseId: Id, workoutExerciseId: Id, sets: seq<SetInput>, notes: Option<string>)

  predicate ValidAddExerciseLog(a: AddExerciseLogInput) {
    IsUuid(a.exerciseId) && IsUuid(a.workoutExerciseId) &&
    forall i :: 0 <= i < |a.sets| ==> ValidSet(a.sets[i])
  }

  /** The add-exercise-log validator: both references are UUIDs and every
      set obeys the set rules; the note is optional. */
  function ParseAddExerciseLog(raw: RawAddExerciseLog): (r: Option<AddExerciseLogInput>)
    ensures r.Some? <==>
      IsUuid(raw.exerciseId) && IsUuid(raw.workoutExerciseId) &&
      forall i :: 0 <= i < |raw.sets| ==> ParseSet(raw.sets[i]).Some?
    ensures r.Some? ==> ValidAddExerciseLog(r.value)
    ensures r.Some? ==>
      r.value.exerciseId == raw.exerciseId && r.value.workoutExerciseId == raw.workoutExerciseId &&
      r.value.notes == raw.notes && |r.value.sets| == |raw.sets|
    ensures r.Some? ==> forall i :: 0 <= i < |raw.sets| ==>
      r.value.sets[i].weight == raw.sets[i].weight && r.value.sets[i].reps == raw.sets[i].reps &&
      r.value.sets[i].completed == raw.sets[i].completed.GetOr(InputSetCompletedDefault)
    ensures r.Some? ==> r.value.sets == ParseSets(raw.sets).value
  {
    if IsUuid(raw.exerciseId) && IsUuid(raw.workoutExerciseId) then
      match ParseSets(raw.sets)
      case Some(sets) => Some(AddExerciseLogInput(raw.exerciseId, raw.workoutExerciseId, sets, raw.notes))
      case None => None
    else
      None
  }
}
