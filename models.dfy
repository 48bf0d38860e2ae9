/**
 * The app's records (app/src/main/java/com/peakphysique/app/model/Models.kt):
 * workouts, the sets that belong to them, the pair Room returns for a workout
 * with its sets, the in-memory set of the tracking screen; the logged body
 * weight and the goal record. Plus the shapes the view-models build from
 * them: all sets of a list of workouts (`flatMap { it.sets }`), the sets
 * grouped by exercise name (`groupBy { it.name }`) and weights read as numbers.
 */
module Models {
  import opened Wrappers
  import opened Calendar
  import opened Text
  import opened Seqs

  /** A row of the `workouts` table; `id` is its primary key. */
  datatype WorkoutEntity = WorkoutEntity(id: string, date: DateTime)

  /** A row of the `sets` table; `id` is its primary key and `workoutId` refers to a workout. */
  datatype SetEntity = SetEntity(id: string, workoutId: string, name: string, reps: string, weight: string, notes: string)

  /** A workout together with the sets whose `workoutId` is its id. */
  datatype WorkoutWithSets = WorkoutWithSets(workout: WorkoutEntity, sets: seq<SetEntity>)

  /** A set being recorded, before it belongs to a saved workout. */
  datatype WorkoutSet = WorkoutSet(id: string, name: string, reps: string, weight: string, notes: string)

  /** A row of the `weight_logs` table. */
  datatype WeightEntity = WeightEntity(weight: real, date: DateTime)

  /** The four goals kept in the settings store. */
  datatype Goals = Goals(weightGoal: real, benchGoal: real, squatGoal: real, deadliftGoal: real)

  /** `Goals()`: every goal 0. */
  const DefaultGoals: Goals := Goals(0.0, 0.0, 0.0, 0.0)

  /** The set entity saved for a recorded set (TrackingViewModel.saveWorkout). */
  function ToSetEntity(s: WorkoutSet, workoutId: string): (e: SetEntity)
    ensures e.workoutId == workoutId
  {
    SetEntity(s.id, workoutId, s.name, s.reps, s.weight, s.notes)
  }

  /** The fields a set entity shares with a recorded set. */
  function AsWorkoutSet(e: SetEntity): WorkoutSet {
    WorkoutSet(e.id, e.name, e.reps, e.weight, e.notes)
  }

  /** A set entity is a recorded set plus the id of its workout, and nothing else. */
  lemma SetEntityRoundTrip(s: WorkoutSet, e: SetEntity)
    ensures AsWorkoutSet(ToSetEntity(s, e.workoutId)) == s
    ensures ToSetEntity(AsWorkoutSet(e), e.workoutId) == e
  {
  }

  // ---------------------------------------------------------------------------
  // Weights read as numbers

  /** `set.weight.toDoubleOrNull() ?: 0.0` (also `toFloatOrNull() ?: 0f`). */
  function WeightOrZero(e: SetEntity): real {
    ParseDecimal(e.weight).GetOr(0.0)
  }

  /** `map { it.weight.toDoubleOrNull() }`. */
  function Readings(sets: seq<SetEntity>): (r: seq<Option<real>>)
    ensures |r| == |sets|
    ensures forall i :: 0 <= i < |sets| ==> r[i] == ParseDecimal(sets[i].weight)
  {
    if sets == [] then [] else Readings(sets[..|sets| - 1]) + [ParseDecimal(sets[|sets| - 1].weight)]
  }

  /** The present values, in order (`filterNotNull`). */
  function Present(s: seq<Option<real>>): (r: seq<real>)
    ensures |r| <= |s|
    ensures r == [] <==> forall i :: 0 <= i < |s| ==> s[i].None?
  {
    if s == [] then []
    else
      var pre := s[..|s| - 1];
      assert forall i :: 0 <= i < |pre| ==> pre[i] == s[i];
      Present(pre) + (if s[|s| - 1].Some? then [s[|s| - 1].value] else [])
  }

  lemma {:induction false} PresentIn(s: seq<Option<real>>, x: real)
    ensures x in Present(s) <==> Some(x) in s
  {
    if s != [] {
      var pre := s[..|s| - 1];
      PresentIn(pre, x);
      assert s == pre + [s[|s| - 1]];
    }
  }

  /** `mapNotNull { it.weight.toDoubleOrNull() }`: the weights that read as numbers, in order. */
  function ParsedWeights(sets: seq<SetEntity>): seq<real> {
    Present(Readings(sets))
  }

  function MaxOf(s: seq<real>): (m: real)
    requires |s| > 0
    ensures m in s
    ensures forall i :: 0 <= i < |s| ==> s[i] <= m
  {
    if |s| == 1 then s[0]
    else
      var m := MaxOf(s[..|s| - 1]);
      assert s == s[..|s| - 1] + [s[|s| - 1]];
      if s[|s| - 1] > m then s[|s| - 1] else m
  }

  function MinOf(s: seq<real>): (m: real)
    requires |s| > 0
    ensures m in s
    ensures forall i :: 0 <= i < |s| ==> m <= s[i]
  {
    if |s| == 1 then s[0]
    else
      var m := MinOf(s[..|s| - 1]);
      assert s == s[..|s| - 1] + [s[|s| - 1]];
      if s[|s| - 1] < m then s[|s| - 1] else m
  }

  // ---------------------------------------------------------------------------
  // flatMap { it.sets }

  /** All sets of the workouts, workout by workout. */
  function AllSets(ws: seq<WorkoutWithSets>): seq<SetEntity> {
    if ws == [] then [] else AllSets(ws[..|ws| - 1]) + ws[|ws| - 1].sets
  }

  lemma {:induction false} AllSetsIn(ws: seq<WorkoutWithSets>, x: SetEntity)
    ensures x in AllSets(ws) <==> exists i :: 0 <= i < |ws| && x in ws[i].sets
  {
    if ws != [] {
      var pre := ws[..|ws| - 1];
      AllSetsIn(pre, x);
      assert forall i :: 0 <= i < |pre| ==> pre[i] == ws[i];
      if x in ws[|ws| - 1].sets {
        assert x in ws[|pre|].sets;
      }
    }
  }

  lemma AllSetsAppend(ws: seq<WorkoutWithSets>, w: WorkoutWithSets)
    ensures AllSets(ws + [w]) == AllSets(ws) + w.sets
  {
    assert (ws + [w])[..|ws|] == ws;
  }

  function TotalSets(ws: seq<WorkoutWithSets>): nat {
    |AllSets(ws)|
  }

  lemma {:induction false} AllSetsConcat(a: seq<WorkoutWithSets>, b: seq<WorkoutWithSets>)
    ensures AllSets(a + b) == AllSets(a) + AllSets(b)
  {
    if b == [] {
      assert a + b == a;
    } else {
      assert (a + b)[..|a + b| - 1] == a + b[..|b| - 1];
      AllSetsConcat(a, b[..|b| - 1]);
    }
  }

  lemma AllSetsSplice(lo: seq<WorkoutWithSets>, x: WorkoutWithSets, hi: seq<WorkoutWithSets>)
    ensures TotalSets(lo + [x] + hi) == TotalSets(lo + hi) + |x.sets|
  {
    assert [x][..0] == [];
    AllSetsConcat(lo + [x], hi);
    AllSetsConcat(lo, [x]);
    AllSetsConcat(lo, hi);
  }

  /** Reordering the workouts neither adds nor drops a set. */
  lemma {:induction false} TotalSetsSortBy(ws: seq<WorkoutWithSets>, key: WorkoutWithSets -> int)
    ensures TotalSets(SortBy(ws, key)) == TotalSets(ws)
  {
    if ws != [] {
      var pre, x := ws[..|ws| - 1], ws[|ws| - 1];
      TotalSetsSortBy(pre, key);
      TotalSetsInsert(SortBy(pre, key), key, x);
    }
  }

  lemma TotalSetsInsert(r: seq<WorkoutWithSets>, key: WorkoutWithSets -> int, x: WorkoutWithSets)
    requires SortedBy(r, key)
    ensures TotalSets(Insert(r, key, x)) == TotalSets(r) + |x.sets|
  {
    var i := UpperBound(r, key, key(x));
    assert r[..i] + r[i..] == r;
    AllSetsSplice(r[..i], x, r[i..]);
  }

  // ---------------------------------------------------------------------------
  // groupBy { it.name }

  /** The sets named `name`, in their order. */
  function Named(sets: seq<SetEntity>, name: string): (r: seq<SetEntity>)
    ensures |r| <= |sets|
    ensures forall i :: 0 <= i < |r| ==> r[i].name == name
  {
    if sets == [] then []
    else
      var last := sets[|sets| - 1];
      Named(sets[..|sets| - 1], name) + (if last.name == name then [last] else [])
  }

  lemma {:induction false} NamedIn(sets: seq<SetEntity>, name: string, x: SetEntity)
    ensures x in Named(sets, name) <==> x in sets && x.name == name
  {
    if sets != [] {
      var pre := sets[..|sets| - 1];
      NamedIn(pre, name, x);
      assert sets == pre + [sets[|sets| - 1]];
    }
  }

  /** The exercise names of the sets, in order, with repeats. */
  function NameList(sets: seq<SetEntity>): (r: seq<string>)
    ensures |r| == |sets|
    ensures forall i :: 0 <= i < |sets| ==> r[i] == sets[i].name
  {
    if sets == [] then [] else NameList(sets[..|sets| - 1]) + [sets[|sets| - 1].name]
  }

  /** The keys of `groupBy { it.name }`: each name once, in the order of first appearance. */
  function GroupNames(sets: seq<SetEntity>): (r: seq<string>)
    ensures Distinct(r)
  {
    Dedup(NameList(sets))
  }

  lemma GroupNamesIn(sets: seq<SetEntity>, n: string)
    ensures n in GroupNames(sets) <==> exists i :: 0 <= i < |sets| && sets[i].name == n
  {
    DedupIn(NameList(sets), n);
    var names := NameList(sets);
    if n in names {
      var i :| 0 <= i < |names| && names[i] == n;
      assert sets[i].name == n;
    }
  }

  /** Workout `w` has a set of exercise `name`. */
  predicate HasExercise(w: WorkoutWithSets, name: string) {
    exists i :: 0 <= i < |w.sets| && w.sets[i].name == name
  }

  /** The first set of a group is the first set with that name. */
  lemma {:induction false} NamedHead(sets: seq<SetEntity>, name: string, k: nat)
    requires k < |sets| && sets[k].name == name
    requires forall j :: 0 <= j < k ==> sets[j].name != name
    ensures |Named(sets, name)| > 0 && Named(sets, name)[0] == sets[k]
  {
    if k < |sets| - 1 {
      NamedHead(sets[..|sets| - 1], name, k);
    } else {
      NamedNone(sets[..|sets| - 1], name);
    }
  }

  lemma {:induction false} NamedNone(sets: seq<SetEntity>, name: string)
    requires forall j :: 0 <= j < |sets| ==> sets[j].name != name
    ensures Named(sets, name) == []
  {
    if sets != [] {
      NamedNone(sets[..|sets| - 1], name);
    }
  }

  // ---------------------------------------------------------------------------
  // sortedBy { it.workout.date }

  /** A workout's date as a number that orders workouts as their dates do. */
  function WorkoutTime(w: WorkoutWithSets): int {
    Timestamp(w.workout.date)
  }

  /** `sortedBy { it.workout.date }`: oldest first, workouts with the same date in list order. */
  function SortByDate(ws: seq<WorkoutWithSets>): (r: seq<WorkoutWithSets>)
    ensures multiset(r) == multiset(ws)
    ensures forall i, j :: 0 <= i < j < |r| ==> !IsBefore(r[j].workout.date, r[i].workout.date)
  {
    var r := SortBy(ws, WorkoutTime);
    forall i, j | 0 <= i < j < |r|
      ensures !IsBefore(r[j].workout.date, r[i].workout.date)
    {
      TimestampOrder(r[j].workout.date, r[i].workout.date);
    }
    r
  }
}
