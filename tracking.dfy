/**
 * The workout being recorded (TrackingViewModel): the list of sets of the
 * session, which sets are added to and removed from, and which is saved as
 * one workout with its sets or thrown away.
 */
module Tracking {
  import opened Calendar
  import opened Seqs
  import opened Keyed
  import opened Models
  import opened WorkoutTables

  function WorkoutSetKey(s: WorkoutSet): string { s.id }

  /** `currentSets.filterNot { it.id == setId }`. */
  function Without(sets: seq<WorkoutSet>, setId: string): seq<WorkoutSet> {
    Filter(sets, KeyIsNot(WorkoutSetKey, setId))
  }

  /** Removing keeps exactly the sets with another id. */
  lemma WithoutIn(sets: seq<WorkoutSet>, setId: string, x: WorkoutSet)
    ensures x in Without(sets, setId) <==> x in sets && x.id != setId
  {
    FilterIn(sets, KeyIsNot(WorkoutSetKey, setId), x);
  }

  /**
   * Removing works set by set and keeps the order: on a concatenation it is
   * the concatenation of the two removals, and a single set stays iff its id
   * differs.
   */
  lemma WithoutOrder(a: seq<WorkoutSet>, b: seq<WorkoutSet>, setId: string, x: WorkoutSet)
    ensures Without(a + b, setId) == Without(a, setId) + Without(b, setId)
    ensures Without([x], setId) == if x.id == setId then [] else [x]
  {
    FilterAppend(a, b, KeyIsNot(WorkoutSetKey, setId));
    assert [x][..0] == [];
    assert KeyIsNot(WorkoutSetKey, setId)(x) == (WorkoutSetKey(x) != setId);
  }

  /** Removing an id no set has changes nothing. */
  lemma {:induction false} WithoutAbsent(sets: seq<WorkoutSet>, setId: string)
    requires forall i :: 0 <= i < |sets| ==> sets[i].id != setId
    ensures Without(sets, setId) == sets
  {
    if sets != [] {
      var pre := sets[..|sets| - 1];
      assert forall i :: 0 <= i < |pre| ==> pre[i] == sets[i];
      WithoutAbsent(pre, setId);
      var last := sets[|sets| - 1];
      assert KeyIsNot(WorkoutSetKey, setId)(last) == (WorkoutSetKey(last) != setId);
    }
  }

  /** Removing twice is removing once. */
  lemma WithoutIdempotent(sets: seq<WorkoutSet>, setId: string)
    ensures Without(Without(sets, setId), setId) == Without(sets, setId)
  {
    var w := Without(sets, setId);
    forall i | 0 <= i < |w| ensures w[i].id != setId {
      assert KeyIsNot(WorkoutSetKey, setId)(w[i]);
    }
    WithoutAbsent(w, setId);
  }

  /** The set entities `saveWorkout` builds: each session set, in order, with the new workout's id. */
  function SetEntities(sets: seq<WorkoutSet>, workoutId: string): (r: seq<SetEntity>)
    ensures |r| == |sets|
    ensures forall i :: 0 <= i < |r| ==> r[i].workoutId == workoutId && AsWorkoutSet(r[i]) == sets[i]
  {
    if sets == [] then []
    else SetEntities(sets[..|sets| - 1], workoutId) + [ToSetEntity(sets[|sets| - 1], workoutId)]
  }

  /** Sets with distinct ids become entities with distinct ids. */
  lemma SetEntitiesUnique(sets: seq<WorkoutSet>, workoutId: string)
    requires UniqueKeys(sets, WorkoutSetKey)
    ensures UniqueKeys(SetEntities(sets, workoutId), SetKey)
  {
    var r := SetEntities(sets, workoutId);
    forall i, j | 0 <= i < j < |r| ensures r[i].id != r[j].id {
      assert AsWorkoutSet(r[i]) == sets[i] && AsWorkoutSet(r[j]) == sets[j];
    }
  }

  /**
   * After `saveWorkout` the new workout is in the table, and when the session's
   * set ids are distinct its sets are exactly the session's sets as entities.
   */
  lemma SavedSession(workouts: seq<WorkoutEntity>, sets: seq<SetEntity>, session: seq<WorkoutSet>,
                     workoutId: string, now: DateTime, x: SetEntity)
    requires UniqueKeys(session, WorkoutSetKey)
    ensures KeyMap(Upsert(workouts, WorkoutKey, WorkoutEntity(workoutId, now)), WorkoutKey)[workoutId]
         == WorkoutEntity(workoutId, now)
    ensures x in SavedSets(sets, WorkoutEntity(workoutId, now), SetEntities(session, workoutId)) && x.workoutId == workoutId
        <==> x in SetEntities(session, workoutId)
  {
    var w := WorkoutEntity(workoutId, now);
    KeyMapUpsert(workouts, WorkoutKey, w);
    SetEntitiesUnique(session, workoutId);
    SavedWorkoutSets(sets, w, SetEntities(session, workoutId), x);
  }

  /** `recentWorkouts`: the range from 30 days before now to now. */
  function RecentWorkouts(workouts: seq<WorkoutEntity>, sets: seq<SetEntity>, now: DateTime): seq<WorkoutWithSets> {
    WorkoutsInRange(workouts, sets, MinusDays(now, 30), now)
  }

  /** A workout is recent iff it is dated at most 30 days (of 86400 seconds) before now and not after now. */
  lemma RecentWindow(workouts: seq<WorkoutEntity>, sets: seq<SetEntity>, now: DateTime, w: WorkoutEntity)
    ensures w in WorkoutsOf(RecentWorkouts(workouts, sets, now))
        <==> w in workouts && 0 <= Timestamp(now) - Timestamp(w.date) <= 30 * SecondsPerDay
  {
    RangeListing(workouts, sets, MinusDays(now, 30), now, w);
  }

  class TrackingViewModel {
    /** The workouts database the view-model saves to and deletes from. */
    const repository: WorkoutDao
    /** `_workoutSets`: the sets of the session, in the order they were added. */
    var workoutSets: seq<WorkoutSet>

    constructor(repository: WorkoutDao)
      ensures this.repository == repository && workoutSets == []
    {
      this.repository := repository;
      workoutSets := [];
    }

    /** `allWorkouts`. */
    function AllWorkouts(): seq<WorkoutWithSets>
      reads repository
    {
      repository.GetAllWorkoutsWithSets()
    }

    /** `recentWorkouts`, read at the instant `now`. */
    function Recent(now: DateTime): seq<WorkoutWithSets>
      reads repository
    {
      RecentWorkouts(repository.workouts, repository.sets, now)
    }

    method AddSet(workoutSet: WorkoutSet)
      modifies this
      ensures workoutSets == old(workoutSets) + [workoutSet]
    {
      workoutSets := workoutSets + [workoutSet];
    }

    method RemoveSet(setId: string)
      modifies this
      ensures workoutSets == Without(old(workoutSets), setId)
    {
      workoutSets := Without(workoutSets, setId);
    }

    /**
     * Saves the session as the workout `workoutId` dated `now` (the UUID and
     * the clock are parameters), then empties the session.
     */
    method SaveWorkout(workoutId: string, now: DateTime)
      requires repository.Valid()
      modifies this, repository
      ensures repository.Valid()
      ensures repository.workouts == Upsert(old(repository.workouts), WorkoutKey, WorkoutEntity(workoutId, now))
      ensures repository.sets == SavedSets(old(repository.sets), WorkoutEntity(workoutId, now), SetEntities(old(workoutSets), workoutId))
      ensures workoutSets == []
    {
      var workout := WorkoutEntity(workoutId, now);
      var sets := SetEntities(workoutSets, workoutId);
      KeyMapUpsert(repository.workouts, WorkoutKey, workout);
      var ok := repository.InsertWorkoutWithSets(workout, sets);
      assert ok;
      workoutSets := [];
    }

    method DeleteWorkout(workout: WorkoutEntity)
      requires repository.Valid()
      modifies repository
      ensures repository.Valid()
      ensures repository.workouts == DropWorkout(old(repository.workouts), workout.id)
      ensures repository.sets == Cascade(old(repository.sets), workout.id)
    {
      repository.DeleteWorkout(workout);
    }

    /** Empties the session; the database is not touched. */
    method ClearWorkout()
      modifies this
      ensures workoutSets == []
    {
      workoutSets := [];
    }
  }
}
