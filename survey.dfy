/**
 * The first-run survey (SurveyViewModel): a display name and goals edited in
 * memory, starting empty rather than from the store, and written to the store
 * together with the survey-completed flag.
 */
module Survey {
  import opened Wrappers
  import opened Models
  import opened Settings

  /** The name the survey starts with. */
  const EmptyName: string := ""

  class SurveyViewModel {
    const repository: SettingsRepository
    /** `_displayName`. */
    var displayName: string
    /** `_goals`. */
    var goals: Goals

    /** An empty name and every goal 0, whatever the store holds. */
    constructor(repository: SettingsRepository)
      ensures this.repository == repository
      ensures displayName == EmptyName && goals == DefaultGoals
    {
      this.repository := repository;
      displayName := EmptyName;
      goals := DefaultGoals;
    }

    method UpdateName(name: string)
      modifies this
      ensures displayName == name && goals == old(goals)
    {
      displayName := name;
    }

    /** Merges the given goals into the survey's goals; the store is not written. */
    method UpdateGoals(weightGoal: Option<real>, benchGoal: Option<real>, squatGoal: Option<real>, deadliftGoal: Option<real>)
      modifies this
      ensures goals == MergeGoals(old(goals), GoalUpdate(weightGoal, benchGoal, squatGoal, deadliftGoal))
      ensures displayName == old(displayName)
    {
      goals := MergeGoals(goals, GoalUpdate(weightGoal, benchGoal, squatGoal, deadliftGoal));
    }

    /** Stores the name and the goals and marks the survey completed. */
    method SaveSurveyData()
      modifies repository
      ensures repository.displayName == Some(displayName) && repository.GetDisplayName() == displayName
      ensures repository.goals == goals && repository.surveyCompleted
      ensures repository.darkMode == old(repository.darkMode)
    {
      repository.SetDisplayName(displayName);
      repository.UpdateGoals(goals);
      repository.SetSurveyCompleted();
    }
  }
}
