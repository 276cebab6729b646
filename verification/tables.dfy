/** The relational tables of the template store: workouts, the exercise
    catalog, and the workout-exercise lines linking them, together with the
    row-level operations the repositories share. */
module Tables {
  import opened Common
  import opened Sequences

  datatype Workout = Workout(id: Id, name: string, description: Option<string>, createdAt: nat)

  datatype Exercise = Exercise(id: Id, name: string, description: Option<string>)

  /** A workout-exercise line without its own id, as the create calls take it. */
  datatype WorkoutExerciseData = WorkoutExerciseData(
    workoutId: Id, exerciseId: Id, order: int, series: int, reps: int, weight: real, rest: int)

  /** A stored workout-exercise line: one exercise prescribed in one workout. */
  datatype WorkoutExercise = WorkoutExercise(
    id: Id, workoutId: Id, exerciseId: Id, order: int, series: int, reps: int, weight: real, rest: int)

  /** An exercise line as the workout repository and the workout-exercise
      service read it: the exercise nested as `{ id }`, plus the prescription. */
  datatype ExerciseRef = ExerciseRef(id: Id)
  datatype WorkoutExerciseInput = WorkoutExerciseInput(
    exercise: ExerciseRef, order: int, series: int, reps: int, weight: real, rest: int)

  /** Query results: a line with its exercise, a line with its workout. */
  datatype RowWithExercise = RowWithExercise(row: WorkoutExercise, exercise: Option<Exercise>)
  datatype RowWithWorkout = RowWithWorkout(row: WorkoutExercise, workout: Option<Workout>)
  datatype WorkoutDetail = WorkoutDetail(workout: Workout, exercises: seq<RowWithExercise>)
  datatype ExerciseDetail = ExerciseDetail(exercise: Exercise, workouts: seq<RowWithWorkout>)

  function WorkoutKey(w: Workout): Id { w.id }
  function ExerciseKey(e: Exercise): Id { e.id }
  function RowKey(r: WorkoutExercise): Id { r.id }

  function Materialize(id: Id, d: WorkoutExerciseData): WorkoutExercise {
    WorkoutExercise(id, d.workoutId, d.exerciseId, d.order, d.series, d.reps, d.weight, d.rest)
  }

  function DataOf(r: WorkoutExercise): WorkoutExerciseData {
    WorkoutExerciseData(r.workoutId, r.exerciseId, r.order, r.series, r.reps, r.weight, r.rest)
  }

  /** The line an input becomes in a workout: that workout's id, the nested
      exercise's id, and the prescription copied field by field. */
  function RowData(workoutId: Id, input: WorkoutExerciseInput): (d: WorkoutExerciseData)
    ensures d.workoutId == workoutId && d.exerciseId == input.exercise.id
    ensures d.order == input.order && d.series == input.series && d.reps == input.reps
    ensures d.weight == input.weight && d.rest == input.rest
  {
    WorkoutExerciseData(workoutId, input.exercise.id, input.order, input.series, input.reps, input.weight, input.rest)
  }

  /** Inputs mapped one-to-one, in order, to lines of one workout. */
  function RowsData(workoutId: Id, inputs: seq<WorkoutExerciseInput>): (ds: seq<WorkoutExerciseData>)
    ensures |ds| == |inputs|
    ensures forall i :: 0 <= i < |ds| ==> ds[i] == RowData(workoutId, inputs[i])
    ensures forall i :: 0 <= i < |ds| ==> ds[i].workoutId == workoutId
  {
    seq(|inputs|, i requires 0 <= i < |inputs| => RowData(workoutId, inputs[i]))
  }

  /** A batch insert: the k-th line gets the k-th of a run of fresh ids. */
  function MintRows(ds: seq<WorkoutExerciseData>, first: nat): (rows: seq<WorkoutExercise>)
    ensures |rows| == |ds|
    ensures forall i :: 0 <= i < |rows| ==> rows[i].id == Mint(first + i) && DataOf(rows[i]) == ds[i]
  {
    seq(|ds|, i requires 0 <= i < |ds| => Materialize(Mint(first + i), ds[i]))
  }

  function RowsOf(rows: seq<WorkoutExercise>, workoutId: Id): seq<WorkoutExercise> {
    Filter(rows, (r: WorkoutExercise) => r.workoutId == workoutId)
  }

  function OtherRows(rows: seq<WorkoutExercise>, workoutId: Id): seq<WorkoutExercise> {
    Filter(rows, (r: WorkoutExercise) => r.workoutId != workoutId)
  }

  /** Delete every line of the workout, then insert the new lines. */
  function ReplaceRows(rows: seq<WorkoutExercise>, workoutId: Id, inserted: seq<WorkoutExercise>): seq<WorkoutExercise> {
    OtherRows(rows, workoutId) + inserted
  }

  /** After a replacement whose new lines all belong to the workout, the
      workout's lines are exactly the new ones, and every other workout's
      lines are as they were. */
  lemma ReplaceRowsSpec(rows: seq<WorkoutExercise>, workoutId: Id, inserted: seq<WorkoutExercise>)
    requires forall i :: 0 <= i < |inserted| ==> inserted[i].workoutId == workoutId
    ensures RowsOf(ReplaceRows(rows, workoutId, inserted), workoutId) == inserted
    ensures OtherRows(ReplaceRows(rows, workoutId, inserted), workoutId) == OtherRows(rows, workoutId)
  {
    var mine := (r: WorkoutExercise) => r.workoutId == workoutId;
    var others := (r: WorkoutExercise) => r.workoutId != workoutId;
    var kept := OtherRows(rows, workoutId);
    FilterConcat(kept, inserted, mine);
    FilterConcat(kept, inserted, others);
    FilterNone(kept, mine);
    FilterAll(inserted, mine);
    FilterAll(kept, others);
    FilterNone(inserted, others);
  }

  /** The lines that prescribe an exercise. */
  function Referencing(rows: seq<WorkoutExercise>, exerciseId: Id): (refs: seq<WorkoutExercise>)
    ensures forall r :: r in refs <==> r in rows && r.exerciseId == exerciseId
    ensures forall r :: multiset(refs)[r] == if r.exerciseId == exerciseId then multiset(rows)[r] else 0
  {
    Filter(rows, (r: WorkoutExercise) => r.exerciseId == exerciseId)
  }

  /** The number of lines that prescribe an exercise. */
  function CountReferencing(rows: seq<WorkoutExercise>, exerciseId: Id): (n: nat)
    ensures n > 0 <==> exists i :: 0 <= i < |rows| && rows[i].exerciseId == exerciseId
  {
    var refs := Referencing(rows, exerciseId);
    assert forall i :: 0 <= i < |rows| && rows[i].exerciseId == exerciseId ==> rows[i] in refs;
    assert |refs| > 0 ==> refs[0] in rows && refs[0].exerciseId == exerciseId;
    |refs|
  }

  function WorkoutIndex(ws: seq<Workout>, id: Id): (k: Option<nat>)
    ensures k.Some? ==> k.value < |ws| && ws[k.value].id == id
    ensures k.None? <==> forall i :: 0 <= i < |ws| ==> ws[i].id != id
  {
    FindFirst(ws, (w: Workout) => w.id == id)
  }

  function ExerciseIndex(es: seq<Exercise>, id: Id): (k: Option<nat>)
    ensures k.Some? ==> k.value < |es| && es[k.value].id == id
    ensures k.None? <==> forall i :: 0 <= i < |es| ==> es[i].id != id
  {
    FindFirst(es, (e: Exercise) => e.id == id)
  }

  function RowIndex(rows: seq<WorkoutExercise>, id: Id): (k: Option<nat>)
    ensures k.Some? ==> k.value < |rows| && rows[k.value].id == id
    ensures k.None? <==> forall i :: 0 <= i < |rows| ==> rows[i].id != id
  {
    FindFirst(rows, (r: WorkoutExercise) => r.id == id)
  }

  function LookupWorkout(ws: seq<Workout>, id: Id): (r: Option<Workout>)
    ensures r.Some? <==> exists i :: 0 <= i < |ws| && ws[i].id == id
    ensures r.Some? ==> r.value in ws && r.value.id == id
  {
    match WorkoutIndex(ws, id)
    case Some(k) => Some(ws[k])
    case None => None
  }

  function LookupExercise(es: seq<Exercise>, id: Id): (r: Option<Exercise>)
    ensures r.Some? <==> exists i :: 0 <= i < |es| && es[i].id == id
    ensures r.Some? ==> r.value in es && r.value.id == id
  {
    match ExerciseIndex(es, id)
    case Some(k) => Some(es[k])
    case None => None
  }

  /** Each line paired with the exercise it names, as an `include` does. */
  function WithExercises(rows: seq<WorkoutExercise>, es: seq<Exercise>): (r: seq<RowWithExercise>)
    ensures |r| == |rows|
    ensures forall i :: 0 <= i < |r| ==> r[i].row == rows[i] && r[i].exercise == LookupExercise(es, rows[i].exerciseId)
  {
    seq(|rows|, i requires 0 <= i < |rows| => RowWithExercise(rows[i], LookupExercise(es, rows[i].exerciseId)))
  }

  /** Each line paired with the workout it belongs to. */
  function WithWorkouts(rows: seq<WorkoutExercise>, ws: seq<Workout>): (r: seq<RowWithWorkout>)
    ensures |r| == |rows|
    ensures forall i :: 0 <= i < |r| ==> r[i].row == rows[i] && r[i].workout == LookupWorkout(ws, rows[i].workoutId)
  {
    seq(|rows|, i requires 0 <= i < |rows| => RowWithWorkout(rows[i], LookupWorkout(ws, rows[i].workoutId)))
  }
}
