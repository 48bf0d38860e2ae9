/**
 * The settings store (SettingsRepository, read as an abstract record of its
 * stored values), the goal-record merge both goal editors use, and the
 * settings view-model (SettingsViewModel).
 */
module Settings {
  import opened Wrappers
  import opened Models

  // ---------------------------------------------------------------------------
  // The goal merge

  /** The optional goals of one `updateGoal` / `updateGoals` call; `None` is an omitted argument. */
  datatype GoalUpdate = GoalUpdate(weightGoal: Option<real>, benchGoal: Option<real>, squatGoal: Option<real>, deadliftGoal: Option<real>)

  /** A call with every argument omitted. */
  const NoUpdate: GoalUpdate := GoalUpdate(None, None, None, None)

  /** `goals.copy(weightGoal = weightGoal ?: goals.weightGoal, ...)`. */
  function MergeGoals(goals: Goals, u: GoalUpdate): Goals {
    Goals(u.weightGoal.GetOr(goals.weightGoal), u.benchGoal.GetOr(goals.benchGoal),
          u.squatGoal.GetOr(goals.squatGoal), u.deadliftGoal.GetOr(goals.deadliftGoal))
  }

  /** The update whose given goals are those of `b` and, where `b` omits one, those of `a`. */
  function Then(a: GoalUpdate, b: GoalUpdate): GoalUpdate {
    GoalUpdate(if b.weightGoal.Some? then b.weightGoal else a.weightGoal,
               if b.benchGoal.Some? then b.benchGoal else a.benchGoal,
               if b.squatGoal.Some? then b.squatGoal else a.squatGoal,
               if b.deadliftGoal.Some? then b.deadliftGoal else a.deadliftGoal)
  }

  /** A goal that is given is replaced by the given value; an omitted one is kept. */
  lemma MergeReplacesGiven(goals: Goals, u: GoalUpdate)
    ensures u.weightGoal.Some? ==> MergeGoals(goals, u).weightGoal == u.weightGoal.value
    ensures u.weightGoal.None? ==> MergeGoals(goals, u).weightGoal == goals.weightGoal
    ensures u.benchGoal.Some? ==> MergeGoals(goals, u).benchGoal == u.benchGoal.value
    ensures u.benchGoal.None? ==> MergeGoals(goals, u).benchGoal == goals.benchGoal
    ensures u.squatGoal.Some? ==> MergeGoals(goals, u).squatGoal == u.squatGoal.value
    ensures u.squatGoal.None? ==> MergeGoals(goals, u).squatGoal == goals.squatGoal
    ensures u.deadliftGoal.Some? ==> MergeGoals(goals, u).deadliftGoal == u.deadliftGoal.value
    ensures u.deadliftGoal.None? ==> MergeGoals(goals, u).deadliftGoal == goals.deadliftGoal
  {
  }

  /** A call with no arguments changes nothing, and repeating a call changes nothing more. */
  lemma MergeIdentityAndIdempotent(goals: Goals, u: GoalUpdate)
    ensures MergeGoals(goals, NoUpdate) == goals
    ensures MergeGoals(MergeGoals(goals, u), u) == MergeGoals(goals, u)
  {
  }

  /** Two calls in a row are one call with the later arguments taking precedence. */
  lemma MergeCompose(goals: Goals, a: GoalUpdate, b: GoalUpdate)
    ensures MergeGoals(MergeGoals(goals, a), b) == MergeGoals(goals, Then(a, b))
  {
  }

  // ---------------------------------------------------------------------------
  // The store

  /** The `settings` preferences file. */
  class SettingsRepository {
    /** `is_dark_mode`. */
    var darkMode: bool
    /** `display_name`, absent until first written. */
    var displayName: Option<string>
    /** `weight_goal`, `bench_goal`, `squat_goal`, `deadlift_goal`; also the value of `goalsFlow`. */
    var goals: Goals
    /** The survey-completed flag (its key is not part of the store as shown). */
    var surveyCompleted: bool

    /** A store where nothing has been written yet. */
    constructor()
      ensures !darkMode && displayName == None && goals == DefaultGoals && !surveyCompleted
    {
      darkMode, displayName, goals, surveyCompleted := false, None, DefaultGoals, false;
    }

    /** `getBoolean("is_dark_mode", false)`. */
    function IsDarkMode(): bool
      reads this
    {
      darkMode
    }

    method SetDarkMode(enabled: bool)
      modifies this
      ensures darkMode == enabled
      ensures displayName == old(displayName) && goals == old(goals) && surveyCompleted == old(surveyCompleted)
    {
      darkMode := enabled;
    }

    /** `getString("display_name", "User") ?: "User"`. */
    function GetDisplayName(): (name: string)
      reads this
      ensures displayName.Some? ==> name == displayName.value
      ensures displayName.None? ==> name == "User"
    {
      displayName.GetOr("User")
    }

    method SetDisplayName(name: string)
      modifies this
      ensures displayName == Some(name)
      ensures darkMode == old(darkMode) && goals == old(goals) && surveyCompleted == old(surveyCompleted)
    {
      displayName := Some(name);
    }

    /** The four goals, 0 where never written. */
    function GetGoals(): Goals
      reads this
    {
      goals
    }

    /** Writes all four goals and publishes them on `goalsFlow`. */
    method UpdateGoals(newGoals: Goals)
      modifies this
      ensures goals == newGoals
      ensures darkMode == old(darkMode) && displayName == old(displayName) && surveyCompleted == old(surveyCompleted)
    {
      goals := newGoals;
    }

    method SetSurveyCompleted()
      modifies this
      ensures surveyCompleted
      ensures darkMode == old(darkMode) && displayName == old(displayName) && goals == old(goals)
    {
      surveyCompleted := true;
    }
  }

  // ---------------------------------------------------------------------------
  // The view-model

  class SettingsViewModel {
    const repository: SettingsRepository
    /** `_isDarkMode`. */
    var isDarkMode: bool
    /** `_goals`. */
    var goals: Goals

    /** Both fields start from the stored values. */
    constructor(repository: SettingsRepository)
      ensures this.repository == repository
      ensures isDarkMode == repository.IsDarkMode() && goals == repository.GetGoals()
    {
      this.repository := repository;
      isDarkMode := repository.IsDarkMode();
      goals := repository.GetGoals();
    }

    method UpdateDarkMode(enabled: bool)
      modifies this, repository
      ensures repository.darkMode == enabled && isDarkMode == enabled
      ensures goals == old(goals)
      ensures repository.displayName == old(repository.displayName) && repository.goals == old(repository.goals)
      ensures repository.surveyCompleted == old(repository.surveyCompleted)
    {
      repository.SetDarkMode(enabled);
      isDarkMode := enabled;
    }

    /** Merges the given goals into the current ones and writes the result to the store. */
    method UpdateGoal(weightGoal: Option<real>, benchGoal: Option<real>, squatGoal: Option<real>, deadliftGoal: Option<real>)
      modifies this, repository
      ensures goals == MergeGoals(old(goals), GoalUpdate(weightGoal, benchGoal, squatGoal, deadliftGoal))
      ensures repository.goals == goals
      ensures isDarkMode == old(isDarkMode)
      ensures repository.darkMode == old(repository.darkMode) && repository.displayName == old(repository.displayName)
      ensures repository.surveyCompleted == old(repository.surveyCompleted)
    {
      goals := MergeGoals(goals, GoalUpdate(weightGoal, benchGoal, squatGoal, deadliftGoal));
      repository.UpdateGoals(goals);
    }
  }
}
