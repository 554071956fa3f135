/** The workout tracker: the list of logged workouts and the draft edited in
    the "New Workout" dialog, whose exercise rows can be added, removed and
    edited one field at a time. */
module Fitness {
  import opened Seqs

  datatype Exercise = Exercise(name: string, sets: int, reps: int, weight: int)

  datatype Workout = Workout(id: int, name: string, date: string, exercises: seq<Exercise>)

  datatype Draft = Draft(name: string, date: string, exercises: seq<Exercise>)

  /** The row a new draft starts with and "Add Exercise" appends. */
  const DefaultExercise: Exercise := Exercise("", 3, 10, 0)

  const DefaultDraft: Draft := Draft("", "", [DefaultExercise])

  /** The two workouts the page starts with. */
  const DemoWorkouts: seq<Workout> := [
    Workout(1, "Push Day", "2025-07-01", [
      Exercise("Bench Press", 4, 8, 60),
      Exercise("Shoulder Press", 3, 10, 30),
      Exercise("Triceps Pushdown", 3, 12, 20)]),
    Workout(2, "Leg Day", "2025-06-30", [
      Exercise("Squats", 4, 8, 80),
      Exercise("Leg Press", 3, 12, 120),
      Exercise("Calf Raise", 3, 15, 40)])
  ]

  class FitnessPage {
    var workouts: seq<Workout>
    var draft: Draft
    var showAddWorkout: bool

    constructor ()
      ensures workouts == DemoWorkouts && draft == DefaultDraft && !showAddWorkout
    {
      workouts := DemoWorkouts;
      draft := DefaultDraft;
      showAddWorkout := false;
    }

    /** Log the draft as a new workout at the head of the list, close the
        dialog and start a fresh draft; a draft without a name or a date is
        ignored. `now` is what `Date.now()` returns. */
    method AddWorkout(now: int)
      modifies this
      ensures old(draft.name == "" || draft.date == "") ==>
        workouts == old(workouts) && draft == old(draft) && showAddWorkout == old(showAddWorkout)
      ensures !old(draft.name == "" || draft.date == "") ==>
        workouts == [Workout(now, old(draft.name), old(draft.date), old(draft.exercises))] + old(workouts)
        && !showAddWorkout && draft == DefaultDraft
    {
      if draft.name == "" || draft.date == "" {
        return;
      }
      workouts := [Workout(now, draft.name, draft.date, draft.exercises)] + workouts;
      showAddWorkout := false;
      draft := DefaultDraft;
    }

    method SetDraftName(name: string)
      modifies this
      ensures draft == old(draft).(name := name)
      ensures workouts == old(workouts) && showAddWorkout == old(showAddWorkout)
    {
      draft := draft.(name := name);
    }

    method SetDraftDate(date: string)
      modifies this
      ensures draft == old(draft).(date := date)
      ensures workouts == old(workouts) && showAddWorkout == old(showAddWorkout)
    {
      draft := draft.(date := date);
    }

    /** "Add Exercise": one default row after the existing ones. */
    method AddExercise()
      modifies this
      ensures draft.name == old(draft.name) && draft.date == old(draft.date)
      ensures draft.exercises == old(draft.exercises) + [DefaultExercise]
      ensures workouts == old(workouts) && showAddWorkout == old(showAddWorkout)
    {
      draft := draft.(exercises := draft.exercises + [DefaultExercise]);
    }

    /** The remove button of row `idx`. */
    method RemoveExercise(idx: nat)
      modifies this
      ensures draft.name == old(draft.name) && draft.date == old(draft.date)
      ensures draft.exercises == RemoveAt(old(draft.exercises), idx)
      ensures workouts == old(workouts) && showAddWorkout == old(showAddWorkout)
    {
      draft := draft.(exercises := RemoveAt(draft.exercises, idx));
    }

    /** The copy `[...w.exercises]` the field editors write into. */
    method CopyRows() returns (rows: array<Exercise>)
      ensures fresh(rows) && rows[..] == draft.exercises
    {
      var exercises := draft.exercises;
      rows := new Exercise[|exercises|](i requires 0 <= i < |exercises| => exercises[i]);
    }

    /** Typing into the name field of row `idx`. */
    method SetExerciseName(idx: nat, name: string)
      requires idx < |draft.exercises|
      modifies this
      ensures draft.name == old(draft.name) && draft.date == old(draft.date)
      ensures |draft.exercises| == |old(draft.exercises)|
      ensures draft.exercises[idx] == old(draft.exercises[idx]).(name := name)
      ensures forall k :: 0 <= k < |draft.exercises| && k != idx ==> draft.exercises[k] == old(draft.exercises[k])
      ensures workouts == old(workouts) && showAddWorkout == old(showAddWorkout)
    {
      var rows := CopyRows();
      rows[idx] := rows[idx].(name := name);
      draft := draft.(exercises := rows[..]);
    }

    /** Typing into the sets field of row `idx`; `sets` is `Number(value)`. */
    method SetExerciseSets(idx: nat, sets: int)
      requires idx < |draft.exercises|
      modifies this
      ensures draft.name == old(draft.name) && draft.date == old(draft.date)
      ensures |draft.exercises| == |old(draft.exercises)|
      ensures draft.exercises[idx] == old(draft.exercises[idx]).(sets := sets)
      ensures forall k :: 0 <= k < |draft.exercises| && k != idx ==> draft.exercises[k] == old(draft.exercises[k])
      ensures workouts == old(workouts) && showAddWorkout == old(showAddWorkout)
    {
      var rows := CopyRows();
      rows[idx] := rows[idx].(sets := sets);
      draft := draft.(exercises := rows[..]);
    }

    /** Typing into the reps field of row `idx`. */
    method SetExerciseReps(idx: nat, reps: int)
      requires idx < |draft.exercises|
      modifies this
      ensures draft.name == old(draft.name) && draft.date == old(draft.date)
      ensures |draft.exercises| == |old(draft.exercises)|
      ensures draft.exercises[idx] == old(draft.exercises[idx]).(reps := reps)
      ensures forall k :: 0 <= k < |draft.exercises| && k != idx ==> draft.exercises[k] == old(draft.exercises[k])
      ensures workouts == old(workouts) && showAddWorkout == old(showAddWorkout)
    {
      var rows := CopyRows();
      rows[idx] := rows[idx].(reps := reps);
      draft := draft.(exercises := rows[..]);
    }

    /** Typing into the weight field of row `idx`. */
    method SetExerciseWeight(idx: nat, weight: int)
      requires idx < |draft.exercises|
      modifies this
      ensures draft.name == old(draft.name) && draft.date == old(draft.date)
      ensures |draft.exercises| == |old(draft.exercises)|
      ensures draft.exercises[idx] == old(draft.exercises[idx]).(weight := weight)
      ensures forall k :: 0 <= k < |draft.exercises| && k != idx ==> draft.exercises[k] == old(draft.exercises[k])
      ensures workouts == old(workouts) && showAddWorkout == old(showAddWorkout)
    {
      var rows := CopyRows();
      rows[idx] := rows[idx].(weight := weight);
      draft := draft.(exercises := rows[..]);
    }
  }
}
