/**
 * The progress statistics (ProgressViewModel): the newest and the oldest
 * logged body weight, the weight goal, per exercise the lightest and the
 * heaviest weight that reads as a number, the number of workouts this month
 * and the records broken this month.
 */
module Progress {
  import opened Wrappers
  import opened Calendar
  import opened Text
  import opened Seqs
  import opened Models
  import opened Records

  // ---------------------------------------------------------------------------
  // Strength progress

  /** The weights of the sets named `n` that read as numbers. */
  function WeightsOf(sets: seq<SetEntity>, n: string): seq<real> {
    ParsedWeights(Named(sets, n))
  }

  /** The entries `exerciseProgress` holds once the exercises `names` have been visited. */
  function ProgressOver(sets: seq<SetEntity>, names: seq<string>): map<string, (real, real)> {
    map n | n in names && |WeightsOf(sets, n)| > 0 :: (MinOf(WeightsOf(sets, n)), MaxOf(WeightsOf(sets, n)))
  }

  /** `strengthProgress` for the sets of all workouts. */
  function StrengthProgress(sets: seq<SetEntity>): map<string, (real, real)> {
    ProgressOver(sets, GroupNames(sets))
  }

  /** The weights of an exercise are the parsed weights of its sets. */
  lemma {:induction false} ParsedWeightsIn(sets: seq<SetEntity>, x: real)
    ensures x in ParsedWeights(sets) <==> exists i :: 0 <= i < |sets| && ParseDecimal(sets[i].weight) == Some(x)
  {
    var r := Readings(sets);
    PresentIn(r, x);
    if Some(x) in r {
      var i :| 0 <= i < |r| && r[i] == Some(x);
      assert ParseDecimal(sets[i].weight) == Some(x);
    }
  }

  lemma WeightsOfIn(sets: seq<SetEntity>, n: string, x: real)
    ensures x in WeightsOf(sets, n)
        <==> exists i :: 0 <= i < |sets| && sets[i].name == n && ParseDecimal(sets[i].weight) == Some(x)
  {
    var named := Named(sets, n);
    ParsedWeightsIn(named, x);
    if x in WeightsOf(sets, n) {
      var j :| 0 <= j < |named| && ParseDecimal(named[j].weight) == Some(x);
      NamedIn(sets, n, named[j]);
      var i :| 0 <= i < |sets| && sets[i] == named[j];
      assert sets[i].name == n;
    }
    if exists i :: 0 <= i < |sets| && sets[i].name == n && ParseDecimal(sets[i].weight) == Some(x) {
      var i :| 0 <= i < |sets| && sets[i].name == n && ParseDecimal(sets[i].weight) == Some(x);
      NamedIn(sets, n, sets[i]);
      var j :| 0 <= j < |named| && named[j] == sets[i];
      assert ParseDecimal(named[j].weight) == Some(x);
    }
  }

  /** A set named `n` whose weight reads as a number. */
  predicate HasParsedWeight(sets: seq<SetEntity>, n: string) {
    exists i :: 0 <= i < |sets| && sets[i].name == n && ParseDecimal(sets[i].weight).Some?
  }

  lemma WeightsOfNonEmpty(sets: seq<SetEntity>, n: string)
    ensures |WeightsOf(sets, n)| > 0 <==> HasParsedWeight(sets, n)
  {
    if |WeightsOf(sets, n)| > 0 {
      WeightsOfIn(sets, n, WeightsOf(sets, n)[0]);
    }
    if HasParsedWeight(sets, n) {
      var i :| 0 <= i < |sets| && sets[i].name == n && ParseDecimal(sets[i].weight).Some?;
      WeightsOfIn(sets, n, ParseDecimal(sets[i].weight).value);
    }
  }

  /** The exercises with weights are among the group keys. */
  lemma StrengthHasWeights(sets: seq<SetEntity>, n: string)
    ensures n in StrengthProgress(sets) <==> |WeightsOf(sets, n)| > 0
  {
    WeightsOfNonEmpty(sets, n);
    GroupNamesIn(sets, n);
  }

  /** strengthProgress has an entry for exactly the exercises with a weight that reads as a number. */
  lemma StrengthKeys(sets: seq<SetEntity>, n: string)
    ensures n in StrengthProgress(sets) <==> HasParsedWeight(sets, n)
  {
    StrengthHasWeights(sets, n);
    WeightsOfNonEmpty(sets, n);
  }

  /**
   * An entry is (lightest, heaviest): both are weights of a set of that
   * exercise and every weight of its sets that reads as a number lies between them.
   */
  lemma StrengthValue(sets: seq<SetEntity>, n: string)
    requires n in StrengthProgress(sets)
    ensures StrengthProgress(sets)[n].0 <= StrengthProgress(sets)[n].1
    ensures exists i :: 0 <= i < |sets| && sets[i].name == n
                        && ParseDecimal(sets[i].weight) == Some(StrengthProgress(sets)[n].0)
    ensures exists i :: 0 <= i < |sets| && sets[i].name == n
                        && ParseDecimal(sets[i].weight) == Some(StrengthProgress(sets)[n].1)
    ensures forall i :: 0 <= i < |sets| && sets[i].name == n && ParseDecimal(sets[i].weight).Some? ==>
              StrengthProgress(sets)[n].0 <= ParseDecimal(sets[i].weight).value <= StrengthProgress(sets)[n].1
  {
    var w := WeightsOf(sets, n);
    var lo, hi := MinOf(w), MaxOf(w);
    assert StrengthProgress(sets)[n] == (lo, hi);
    WeightsOfIn(sets, n, lo);
    WeightsOfIn(sets, n, hi);
    forall i | 0 <= i < |sets| && sets[i].name == n && ParseDecimal(sets[i].weight).Some?
      ensures lo <= ParseDecimal(sets[i].weight).value <= hi
    {
      WeightsOfIn(sets, n, ParseDecimal(sets[i].weight).value);
    }
  }

  lemma NamedSnoc(sets: seq<SetEntity>, s: SetEntity, n: string)
    ensures Named(sets + [s], n) == Named(sets, n) + (if s.name == n then [s] else [])
  {
    assert (sets + [s])[..|sets|] == sets;
  }

  lemma ParsedWeightsSnocUnparsed(sets: seq<SetEntity>, s: SetEntity)
    requires ParseDecimal(s.weight).None?
    ensures ParsedWeights(sets + [s]) == ParsedWeights(sets)
  {
    assert (sets + [s])[..|sets|] == sets;
    var r := Readings(sets);
    assert Readings(sets + [s]) == r + [None];
    assert (r + [None])[..|r|] == r;
  }

  lemma WeightsOfSnocUnparsed(sets: seq<SetEntity>, s: SetEntity, n: string)
    requires ParseDecimal(s.weight).None?
    ensures WeightsOf(sets + [s], n) == WeightsOf(sets, n)
  {
    NamedSnoc(sets, s, n);
    if s.name == n {
      ParsedWeightsSnocUnparsed(Named(sets, n), s);
    } else {
      assert Named(sets + [s], n) == Named(sets, n) + [];
      assert Named(sets, n) + [] == Named(sets, n);
    }
  }

  lemma StrengthAtUnparsed(sets: seq<SetEntity>, s: SetEntity, n: string)
    requires ParseDecimal(s.weight).None?
    ensures n in StrengthProgress(sets + [s]) <==> n in StrengthProgress(sets)
    ensures n in StrengthProgress(sets) ==> StrengthProgress(sets + [s])[n] == StrengthProgress(sets)[n]
  {
    WeightsOfSnocUnparsed(sets, s, n);
    StrengthHasWeights(sets + [s], n);
    StrengthHasWeights(sets, n);
  }

  /** A set whose weight does not read as a number changes nothing in strengthProgress. */
  lemma StrengthIgnoresUnparsed(sets: seq<SetEntity>, s: SetEntity)
    requires ParseDecimal(s.weight).None?
    ensures StrengthProgress(sets + [s]) == StrengthProgress(sets)
  {
    forall n
      ensures n in StrengthProgress(sets + [s]) <==> n in StrengthProgress(sets)
      ensures n in StrengthProgress(sets) ==> StrengthProgress(sets + [s])[n] == StrengthProgress(sets)[n]
    {
      StrengthAtUnparsed(sets, s, n);
    }
  }

  /** Visiting one more exercise adds its entry when it has weights. */
  lemma ProgressStep(sets: seq<SetEntity>, names: seq<string>, k: nat)
    requires k < |names| && Distinct(names)
    ensures ProgressOver(sets, names[..k + 1])
         == if |WeightsOf(sets, names[k])| > 0
            then ProgressOver(sets, names[..k])[names[k] := (MinOf(WeightsOf(sets, names[k])), MaxOf(WeightsOf(sets, names[k])))]
            else ProgressOver(sets, names[..k])
  {
    assert names[..k + 1] == names[..k] + [names[k]];
  }

  /** `loadStrengthProgress`' loop over the groups: the map it fills. */
  method ExerciseProgress(workouts: seq<WorkoutWithSets>) returns (exerciseProgress: map<string, (real, real)>)
    ensures exerciseProgress == StrengthProgress(AllSets(workouts))
  {
    exerciseProgress := map[];
    var exerciseSets := AllSets(workouts);
    var names := GroupNames(exerciseSets);
    for k := 0 to |names|
      invariant exerciseProgress == ProgressOver(exerciseSets, names[..k])
    {
      var exercise := names[k];
      var weightsList := ParsedWeights(Named(exerciseSets, exercise));
      ProgressStep(exerciseSets, names, k);
      if |weightsList| > 0 {
        var startWeight := MinOf(weightsList);
        var currentWeight := MaxOf(weightsList);
        exerciseProgress := exerciseProgress[exercise := (startWeight, currentWeight)];
      }
    }
    assert names[..|names|] == names;
  }

  // ---------------------------------------------------------------------------
  // This month

  /** `date.isAfter(thisMonth)` for a workout. */
  function After(thisMonth: DateTime): WorkoutWithSets -> bool {
    (w: WorkoutWithSets) => IsBefore(thisMonth, w.workout.date)
  }

  /** `monthlyWorkouts`. */
  function MonthlyWorkoutCount(ws: seq<WorkoutWithSets>, thisMonth: DateTime): nat {
    Count(ws, After(thisMonth))
  }

  /** The workouts `calculateMonthlyPRs` visits, in the order it visits them. */
  function MonthlyWindow(ws: seq<WorkoutWithSets>, thisMonth: DateTime): seq<WorkoutWithSets> {
    Filter(SortByDate(ws), After(thisMonth))
  }

  /** `monthlyPRs`. */
  function MonthlyPRs(ws: seq<WorkoutWithSets>, thisMonth: DateTime): nat {
    RecordsIn(MonthlyWindow(ws, thisMonth))
  }

  /**
   * The instant `now.withDayOfMonth(1)` keeps the time of day: a workout of
   * the current month counts unless it lies on the 1st no later in the day
   * than now; earlier months never count and later months always do.
   */
  lemma MonthStart(now: DateTime, d: DateTime)
    ensures ProlepticMonth(d.date) == ProlepticMonth(now.date) ==>
              (IsBefore(WithDayOfMonth1(now), d) <==> d.date.day > 1 || d.secondOfDay > now.secondOfDay)
    ensures ProlepticMonth(d.date) < ProlepticMonth(now.date) ==> !IsBefore(WithDayOfMonth1(now), d)
    ensures ProlepticMonth(d.date) > ProlepticMonth(now.date) ==> IsBefore(WithDayOfMonth1(now), d)
  {
  }

  /** The window holds exactly the workouts after the instant, oldest first. */
  lemma MonthlyWindowContents(ws: seq<WorkoutWithSets>, thisMonth: DateTime)
    ensures forall w :: w in MonthlyWindow(ws, thisMonth) <==> w in ws && IsBefore(thisMonth, w.workout.date)
    ensures forall i, j :: 0 <= i < j < |MonthlyWindow(ws, thisMonth)| ==>
              !IsBefore(MonthlyWindow(ws, thisMonth)[j].workout.date, MonthlyWindow(ws, thisMonth)[i].workout.date)
  {
    var sorted := SortByDate(ws);
    var r := MonthlyWindow(ws, thisMonth);
    forall w ensures w in r <==> w in ws && IsBefore(thisMonth, w.workout.date) {
      FilterIn(sorted, After(thisMonth), w);
      SortByIn(ws, WorkoutTime, w);
    }
    FilterSorted(sorted, WorkoutTime, After(thisMonth));
    forall i, j | 0 <= i < j < |r| ensures !IsBefore(r[j].workout.date, r[i].workout.date) {
      TimestampOrder(r[j].workout.date, r[i].workout.date);
    }
  }

  /** The PR pass visits as many workouts as the monthly count counts. */
  lemma MonthlyWindowSize(ws: seq<WorkoutWithSets>, thisMonth: DateTime)
    ensures |MonthlyWindow(ws, thisMonth)| == MonthlyWorkoutCount(ws, thisMonth)
  {
    FilterSortByCount(ws, WorkoutTime, After(thisMonth));
  }

  /** At most one record per set of this month's workouts. */
  lemma MonthlyPRsBound(ws: seq<WorkoutWithSets>, thisMonth: DateTime)
    ensures MonthlyPRs(ws, thisMonth) <= TotalSets(MonthlyWindow(ws, thisMonth))
  {
    RecordCountAtMostSets(Lifts(AllSets(MonthlyWindow(ws, thisMonth))));
  }

  /** A workout up to the instant changes neither monthly figure: earlier history is ignored. */
  lemma EarlierIgnored(ws: seq<WorkoutWithSets>, w: WorkoutWithSets, thisMonth: DateTime)
    requires !IsBefore(thisMonth, w.workout.date)
    ensures MonthlyWindow(ws + [w], thisMonth) == MonthlyWindow(ws, thisMonth)
    ensures MonthlyPRs(ws + [w], thisMonth) == MonthlyPRs(ws, thisMonth)
    ensures MonthlyWorkoutCount(ws + [w], thisMonth) == MonthlyWorkoutCount(ws, thisMonth)
  {
    SortBySnoc(ws, w, WorkoutTime);
    FilterInsert(SortBy(ws, WorkoutTime), WorkoutTime, w, After(thisMonth));
    assert (ws + [w])[..|ws|] == ws;
  }

  /** One more workout of the sorted list, after the instant: its sets are visited. */
  lemma WindowVisit(sorted: seq<WorkoutWithSets>, k: nat, thisMonth: DateTime)
    requires k < |sorted| && IsBefore(thisMonth, sorted[k].workout.date)
    ensures Lifts(AllSets(Filter(sorted[..k + 1], After(thisMonth))))
         == Lifts(AllSets(Filter(sorted[..k], After(thisMonth)))) + Lifts(sorted[k].sets)
  {
    var p := After(thisMonth);
    assert sorted[..k + 1][..k] == sorted[..k];
    var f := Filter(sorted[..k], p);
    assert Filter(sorted[..k + 1], p) == f + [sorted[k]];
    AllSetsAppend(f, sorted[k]);
    LiftsAppend(AllSets(f), sorted[k].sets);
  }

  /** One more workout of the sorted list, up to the instant: it is skipped. */
  lemma WindowSkip(sorted: seq<WorkoutWithSets>, k: nat, thisMonth: DateTime)
    requires k < |sorted| && !IsBefore(thisMonth, sorted[k].workout.date)
    ensures Filter(sorted[..k + 1], After(thisMonth)) == Filter(sorted[..k], After(thisMonth))
  {
    var p := After(thisMonth);
    assert sorted[..k + 1][..k] == sorted[..k];
    var f := Filter(sorted[..k], p);
    assert Filter(sorted[..k + 1], p) == f + [];
    assert f + [] == f;
  }

  /** `calculateMonthlyPRs`. */
  method CalculateMonthlyPRs(workouts: seq<WorkoutWithSets>, thisMonth: DateTime) returns (prCount: nat)
    ensures prCount == MonthlyPRs(workouts, thisMonth)
  {
    prCount := 0;
    var exerciseMaxes: map<string, real> := map[];
    var sortedWorkouts := SortByDate(workouts);
    assert sortedWorkouts[..0] == [];
    for k := 0 to |sortedWorkouts|
      invariant Tracks(exerciseMaxes, Lifts(AllSets(Filter(sortedWorkouts[..k], After(thisMonth)))))
      invariant prCount == RecordsIn(Filter(sortedWorkouts[..k], After(thisMonth)))
    {
      var workout := sortedWorkouts[k];
      if IsBefore(thisMonth, workout.workout.date) {
        WindowVisit(sortedWorkouts, k, thisMonth);
        exerciseMaxes, prCount := VisitSets(exerciseMaxes, prCount, workout.sets,
                                            Lifts(AllSets(Filter(sortedWorkouts[..k], After(thisMonth)))));
      } else {
        WindowSkip(sortedWorkouts, k, thisMonth);
      }
    }
    assert sortedWorkouts[..|sortedWorkouts|] == sortedWorkouts;
  }

  // ---------------------------------------------------------------------------
  // The view-model

  class ProgressViewModel {
    var currentWeight: Option<real>
    var startingWeight: Option<real>
    var goalWeight: real
    var strengthProgress: map<string, (real, real)>
    var monthlyWorkouts: int
    var monthlyPRs: int
    var strengthGoals: Goals

    constructor()
      ensures currentWeight == None && startingWeight == None && goalWeight == 0.0
      ensures strengthProgress == map[] && monthlyWorkouts == 0 && monthlyPRs == 0
      ensures strengthGoals == DefaultGoals
    {
      currentWeight, startingWeight, goalWeight := None, None, 0.0;
      strengthProgress, monthlyWorkouts, monthlyPRs := map[], 0, 0;
      strengthGoals := DefaultGoals;
    }

    /** `observeGoals`, given what the settings store returns. */
    method ObserveGoals(goals: Goals)
      modifies this
      ensures goalWeight == goals.weightGoal && strengthGoals == goals
      ensures currentWeight == old(currentWeight) && startingWeight == old(startingWeight)
      ensures strengthProgress == old(strengthProgress)
      ensures monthlyWorkouts == old(monthlyWorkouts) && monthlyPRs == old(monthlyPRs)
    {
      goalWeight := goals.weightGoal;
      strengthGoals := goals;
    }

    /** The body of `loadWeightProgress`' collect, on one emitted list (newest first). */
    method LoadWeightProgress(weights: seq<WeightEntity>)
      modifies this
      ensures |weights| > 0 ==> currentWeight == Some(weights[0].weight)
                                && startingWeight == Some(weights[|weights| - 1].weight)
      ensures |weights| == 0 ==> currentWeight == old(currentWeight) && startingWeight == old(startingWeight)
      ensures goalWeight == old(goalWeight) && strengthProgress == old(strengthProgress)
      ensures monthlyWorkouts == old(monthlyWorkouts) && monthlyPRs == old(monthlyPRs)
      ensures strengthGoals == old(strengthGoals)
    {
      if |weights| > 0 {
        currentWeight := Some(weights[0].weight);
        startingWeight := Some(weights[|weights| - 1].weight);
      }
    }

    /** The body of `loadStrengthProgress`' collect. */
    method LoadStrengthProgress(workouts: seq<WorkoutWithSets>)
      modifies this
      ensures strengthProgress == StrengthProgress(AllSets(workouts))
      ensures currentWeight == old(currentWeight) && startingWeight == old(startingWeight)
      ensures goalWeight == old(goalWeight) && strengthGoals == old(strengthGoals)
      ensures monthlyWorkouts == old(monthlyWorkouts) && monthlyPRs == old(monthlyPRs)
    {
      var exerciseProgress := ExerciseProgress(workouts);
      strengthProgress := exerciseProgress;
    }

    /** The body of `loadMonthlyStats`' collect, `now` standing for `LocalDateTime.now()`. */
    method LoadMonthlyStats(workouts: seq<WorkoutWithSets>, now: DateTime)
      modifies this
      ensures monthlyWorkouts == MonthlyWorkoutCount(workouts, WithDayOfMonth1(now))
      ensures monthlyPRs == MonthlyPRs(workouts, WithDayOfMonth1(now))
      ensures currentWeight == old(currentWeight) && startingWeight == old(startingWeight)
      ensures goalWeight == old(goalWeight) && strengthGoals == old(strengthGoals)
      ensures strengthProgress == old(strengthProgress)
    {
      var thisMonth := WithDayOfMonth1(now);
      var monthlyWorkoutCount := Count(workouts, After(thisMonth));
      monthlyWorkouts := monthlyWorkoutCount;
      var monthlyPRCount := CalculateMonthlyPRs(workouts, thisMonth);
      monthlyPRs := monthlyPRCount;
    }
  }
}
