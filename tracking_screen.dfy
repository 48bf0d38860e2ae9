/**
 * The state of the workout-recording screen (TrackingScreen): the chosen
 * exercise, the reps, weight and notes being typed, the input checks that
 * enable Add Set, and the two confirmation dialogs. Each event handler is a
 * method on that state.
 */
module TrackingForm {
  import opened Wrappers
  import opened Calendar
  import opened Text
  import opened Keyed
  import opened Models
  import opened WorkoutTables
  import opened Tracking

  /** The text shown before an exercise is chosen. */
  const Placeholder: string := "Select Exercise"

  /** `maxNoteLength`. */
  const MaxNoteLength: nat := 300

  const Arm: string := "\U{1F4AA}"
  const Leg: string := "\U{1F9B5}"

  /** `exerciseOptions`, the entries of the exercise menu. */
  const ExerciseOptions: seq<string> := [
    "Squat " + Arm, "Bench Press " + Arm + Leg, "Deadlift " + Arm + Leg, "Lateral Raise " + Arm,
    "Leg Press " + Leg, "Overhead Press " + Arm, "Barbell Curls " + Arm, "Hammer Curls " + Arm,
    "Lunges " + Leg, "Kettle Ball Swings " + Arm + Leg, "Calf Raises " + Leg, "Farmer's Carry " + Arm + Leg
  ]

  /** `s.toDoubleOrNull() != null`. */
  predicate IsNumeric(s: string) {
    ParseDecimal(s).Some?
  }

  /** `isValidInput`: an exercise is chosen, and reps and weight are non-blank numbers. */
  predicate IsValidInput(exerciseType: string, reps: string, weight: string) {
    exerciseType != Placeholder && !IsBlank(reps) && IsNumeric(reps) && !IsBlank(weight) && IsNumeric(weight)
  }

  /** The `isError` of the reps and of the weight field. */
  predicate ShowsError(s: string) {
    !IsBlank(s) && !IsNumeric(s)
  }

  /** A number is never blank, so the input is valid iff an exercise is chosen and both fields are numbers. */
  lemma ValidInputIsNumeric(exerciseType: string, reps: string, weight: string)
    ensures IsValidInput(exerciseType, reps, weight)
        <==> exerciseType != Placeholder && IsNumeric(reps) && IsNumeric(weight)
  {
    if IsNumeric(reps) {
      ParsedIsNotBlank(reps);
    }
    if IsNumeric(weight) {
      ParsedIsNotBlank(weight);
    }
  }

  /** A field is in exactly one of three states: blank, in error, or a number. */
  lemma FieldStates(s: string)
    ensures (if IsBlank(s) then 1 else 0) + (if ShowsError(s) then 1 else 0) + (if IsNumeric(s) then 1 else 0) == 1
  {
    if IsBlank(s) {
      BlankIsNotParsed(s);
    }
  }

  /** The placeholder is not a menu entry, so choosing any entry passes the first check. */
  lemma PlaceholderNotAnOption()
    ensures forall i :: 0 <= i < |ExerciseOptions| ==> ExerciseOptions[i] != Placeholder
  {
    forall i | 0 <= i < |ExerciseOptions| ensures ExerciseOptions[i] != Placeholder {
      assert ExerciseOptions[i][0] != Placeholder[0] || ExerciseOptions[i][1] != Placeholder[1];
    }
  }

  /** A set added through the screen has a weight that reads as a number, so the statistics see it. */
  lemma AddedWeightReadable(id: string, exerciseType: string, reps: string, weight: string, notes: string, workoutId: string)
    requires IsValidInput(exerciseType, reps, weight)
    ensures WeightOrZero(ToSetEntity(WorkoutSet(id, exerciseType, reps, weight, notes), workoutId)) == ParseDecimal(weight).value
  {
  }

  class TrackingScreen {
    const viewModel: TrackingViewModel
    var exerciseType: string
    var expanded: bool
    var reps: string
    var weight: string
    var notes: string
    var showWorkoutCompleteDialog: bool
    var showDeleteConfirmation: bool
    var setToDelete: Option<WorkoutSet>

    /** The notes never exceed the cap. */
    predicate NotesWithinCap()
      reads this
    {
      |notes| <= MaxNoteLength
    }

    constructor(viewModel: TrackingViewModel)
      ensures this.viewModel == viewModel && NotesWithinCap()
      ensures exerciseType == Placeholder && !expanded
      ensures reps == "" && weight == "" && notes == ""
      ensures !showWorkoutCompleteDialog && !showDeleteConfirmation && setToDelete == None
    {
      this.viewModel := viewModel;
      exerciseType, expanded := Placeholder, false;
      reps, weight, notes := "", "", "";
      showWorkoutCompleteDialog, showDeleteConfirmation, setToDelete := false, false, None;
    }

    /** The Add Set button's `enabled`. */
    predicate AddSetEnabled()
      reads this
    {
      IsValidInput(exerciseType, reps, weight)
    }

    /** The Complete Workout button is shown while the session has sets. */
    predicate CompleteWorkoutShown()
      reads this, viewModel
    {
      |viewModel.workoutSets| > 0
    }

    /** The delete dialog is shown while a set is chosen and the confirmation is requested. */
    predicate DeleteDialogShown()
      reads this
    {
      showDeleteConfirmation && setToDelete.Some?
    }

    /** A click on the exercise text opens or closes the menu. */
    method ToggleMenu()
      modifies this
      ensures expanded == !old(expanded)
      ensures exerciseType == old(exerciseType) && reps == old(reps) && weight == old(weight) && notes == old(notes)
      ensures showWorkoutCompleteDialog == old(showWorkoutCompleteDialog)
      ensures showDeleteConfirmation == old(showDeleteConfirmation) && setToDelete == old(setToDelete)
    {
      expanded := !expanded;
    }

    /** A click outside the open menu closes it. */
    method DismissMenu()
      modifies this
      ensures !expanded
      ensures exerciseType == old(exerciseType) && reps == old(reps) && weight == old(weight) && notes == old(notes)
      ensures showWorkoutCompleteDialog == old(showWorkoutCompleteDialog)
      ensures showDeleteConfirmation == old(showDeleteConfirmation) && setToDelete == old(setToDelete)
    {
      expanded := false;
    }

    /** Choosing a menu entry selects it and closes the menu. */
    method SelectExercise(option: string)
      requires option in ExerciseOptions
      modifies this
      ensures exerciseType == option && exerciseType != Placeholder && !expanded
      ensures reps == old(reps) && weight == old(weight) && notes == old(notes)
      ensures showWorkoutCompleteDialog == old(showWorkoutCompleteDialog)
      ensures showDeleteConfirmation == old(showDeleteConfirmation) && setToDelete == old(setToDelete)
    {
      PlaceholderNotAnOption();
      exerciseType := option;
      expanded := false;
    }

    method EditReps(text: string)
      modifies this
      ensures reps == text
      ensures exerciseType == old(exerciseType) && expanded == old(expanded) && weight == old(weight) && notes == old(notes)
      ensures showWorkoutCompleteDialog == old(showWorkoutCompleteDialog)
      ensures showDeleteConfirmation == old(showDeleteConfirmation) && setToDelete == old(setToDelete)
    {
      reps := text;
    }

    method EditWeight(text: string)
      modifies this
      ensures weight == text
      ensures exerciseType == old(exerciseType) && expanded == old(expanded) && reps == old(reps) && notes == old(notes)
      ensures showWorkoutCompleteDialog == old(showWorkoutCompleteDialog)
      ensures showDeleteConfirmation == old(showDeleteConfirmation) && setToDelete == old(setToDelete)
    {
      weight := text;
    }

    /** An edit of the notes is taken only when the new text fits the cap. */
    method EditNotes(text: string)
      requires NotesWithinCap()
      modifies this
      ensures NotesWithinCap()
      ensures notes == if |text| <= MaxNoteLength then text else old(notes)
      ensures exerciseType == old(exerciseType) && expanded == old(expanded) && reps == old(reps) && weight == old(weight)
      ensures showWorkoutCompleteDialog == old(showWorkoutCompleteDialog)
      ensures showDeleteConfirmation == old(showDeleteConfirmation) && setToDelete == old(setToDelete)
    {
      if |text| <= MaxNoteLength {
        notes := text;
      }
    }

    /**
     * Add Set (`id` is the fresh UUID): while enabled, the typed set joins the
     * session and the reps, weight and notes are cleared, the exercise kept;
     * a disabled button does nothing.
     */
    method AddSetClicked(id: string)
      modifies this, viewModel
      ensures old(AddSetEnabled()) ==>
        && viewModel.workoutSets == old(viewModel.workoutSets) + [WorkoutSet(id, old(exerciseType), old(reps), old(weight), old(notes))]
        && reps == "" && weight == "" && notes == ""
      ensures !old(AddSetEnabled()) ==>
        viewModel.workoutSets == old(viewModel.workoutSets) && reps == old(reps) && weight == old(weight) && notes == old(notes)
      ensures old(NotesWithinCap()) ==> NotesWithinCap()
      ensures exerciseType == old(exerciseType) && expanded == old(expanded)
      ensures showWorkoutCompleteDialog == old(showWorkoutCompleteDialog)
      ensures showDeleteConfirmation == old(showDeleteConfirmation) && setToDelete == old(setToDelete)
    {
      if AddSetEnabled() {
        var exercise := WorkoutSet(id, exerciseType, reps, weight, notes);
        viewModel.AddSet(exercise);
        reps, weight, notes := "", "", "";
      }
    }

    /** Complete Workout, present only while the session has sets, asks for confirmation. */
    method CompleteWorkoutClicked()
      modifies this
      ensures showWorkoutCompleteDialog == (old(showWorkoutCompleteDialog) || CompleteWorkoutShown())
      ensures exerciseType == old(exerciseType) && expanded == old(expanded)
      ensures reps == old(reps) && weight == old(weight) && notes == old(notes)
      ensures showDeleteConfirmation == old(showDeleteConfirmation) && setToDelete == old(setToDelete)
    {
      if CompleteWorkoutShown() {
        showWorkoutCompleteDialog := true;
      }
    }

    /** Complete in the dialog saves the session as workout `workoutId` at `now`, and closes the dialog. */
    method ConfirmComplete(workoutId: string, now: DateTime)
      requires viewModel.repository.Valid()
      modifies this, viewModel, viewModel.repository
      ensures viewModel.repository.Valid()
      ensures old(showWorkoutCompleteDialog) ==>
        && viewModel.repository.workouts == Upsert(old(viewModel.repository.workouts), WorkoutKey, WorkoutEntity(workoutId, now))
        && viewModel.repository.sets
           == SavedSets(old(viewModel.repository.sets), WorkoutEntity(workoutId, now), SetEntities(old(viewModel.workoutSets), workoutId))
        && viewModel.workoutSets == []
      ensures !old(showWorkoutCompleteDialog) ==>
        && viewModel.repository.workouts == old(viewModel.repository.workouts)
        && viewModel.repository.sets == old(viewModel.repository.sets)
        && viewModel.workoutSets == old(viewModel.workoutSets)
      ensures !showWorkoutCompleteDialog
      ensures exerciseType == old(exerciseType) && expanded == old(expanded)
      ensures reps == old(reps) && weight == old(weight) && notes == old(notes)
      ensures showDeleteConfirmation == old(showDeleteConfirmation) && setToDelete == old(setToDelete)
    {
      if showWorkoutCompleteDialog {
        viewModel.SaveWorkout(workoutId, now);
      }
      showWorkoutCompleteDialog := false;
    }

    /** Cancel in the completion dialog, or dismissing it. */
    method DismissComplete()
      modifies this
      ensures !showWorkoutCompleteDialog
      ensures exerciseType == old(exerciseType) && expanded == old(expanded)
      ensures reps == old(reps) && weight == old(weight) && notes == old(notes)
      ensures showDeleteConfirmation == old(showDeleteConfirmation) && setToDelete == old(setToDelete)
    {
      showWorkoutCompleteDialog := false;
    }

    /** The delete icon of a listed set chooses it and asks for confirmation. */
    method DeleteIconClicked(s: WorkoutSet)
      requires s in viewModel.workoutSets
      modifies this
      ensures setToDelete == Some(s) && showDeleteConfirmation && DeleteDialogShown()
      ensures exerciseType == old(exerciseType) && expanded == old(expanded)
      ensures reps == old(reps) && weight == old(weight) && notes == old(notes)
      ensures showWorkoutCompleteDialog == old(showWorkoutCompleteDialog)
    {
      setToDelete := Some(s);
      showDeleteConfirmation := true;
    }

    /** Delete in the dialog removes the chosen set's id from the session and closes the dialog. */
    method ConfirmDelete()
      modifies this, viewModel
      ensures old(DeleteDialogShown()) ==>
        viewModel.workoutSets == Without(old(viewModel.workoutSets), old(setToDelete).value.id)
      ensures !old(DeleteDialogShown()) ==> viewModel.workoutSets == old(viewModel.workoutSets)
      ensures !showDeleteConfirmation && setToDelete == None
      ensures exerciseType == old(exerciseType) && expanded == old(expanded)
      ensures reps == old(reps) && weight == old(weight) && notes == old(notes)
      ensures showWorkoutCompleteDialog == old(showWorkoutCompleteDialog)
    {
      if DeleteDialogShown() {
        viewModel.RemoveSet(setToDelete.value.id);
      }
      showDeleteConfirmation := false;
      setToDelete := None;
    }

    /** Cancel in the delete dialog, and dismissing it, which runs the same code. */
    method CancelDelete()
      modifies this
      ensures !showDeleteConfirmation && setToDelete == None
      ensures exerciseType == old(exerciseType) && expanded == old(expanded)
      ensures reps == old(reps) && weight == old(weight) && notes == old(notes)
      ensures showWorkoutCompleteDialog == old(showWorkoutCompleteDialog)
    {
      showDeleteConfirmation := false;
      setToDelete := None;
    }
  }
}
