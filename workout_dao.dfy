/**
 * The `workouts` and `sets` tables behind WorkoutDao, held in memory: rows in
 * insertion order, `id` the primary key of both, `sets.workoutId` a foreign
 * key to `workouts.id` with `ON DELETE CASCADE`, and the replace-on-conflict
 * inserts, the delete and the two queries of the DAO.
 */
module WorkoutTables {
  import opened Calendar
  import opened Seqs
  import opened Keyed
  import opened Models

  function WorkoutKey(w: WorkoutEntity): string { w.id }
  function SetKey(s: SetEntity): string { s.id }
  function SetParent(s: SetEntity): string { s.workoutId }

  /** The constraints of the schema: unique primary keys, and every set refers to a workout. */
  predicate Consistent(workouts: seq<WorkoutEntity>, sets: seq<SetEntity>) {
    && UniqueKeys(workouts, WorkoutKey)
    && UniqueKeys(sets, SetKey)
    && forall j :: 0 <= j < |sets| ==> sets[j].workoutId in KeyMap(workouts, WorkoutKey)
  }

  /** The sets left when the rows of workout `id` go: the foreign key's `CASCADE`. */
  function Cascade(sets: seq<SetEntity>, id: string): seq<SetEntity> {
    Filter(sets, KeyIsNot(SetParent, id))
  }

  lemma CascadeIn(sets: seq<SetEntity>, id: string, x: SetEntity)
    ensures x in Cascade(sets, id) <==> x in sets && x.workoutId != id
  {
    FilterIn(sets, KeyIsNot(SetParent, id), x);
  }

  /** The workouts left when the row with key `id` is deleted. */
  function DropWorkout(workouts: seq<WorkoutEntity>, id: string): seq<WorkoutEntity> {
    Filter(workouts, KeyIsNot(WorkoutKey, id))
  }

  /** Deleting the workout `id` and its sets keeps the schema's constraints. */
  lemma DropConsistent(workouts: seq<WorkoutEntity>, sets: seq<SetEntity>, id: string, rest: seq<WorkoutEntity>)
    requires Consistent(workouts, sets)
    requires KeyMap(rest, WorkoutKey) == KeyMap(workouts, WorkoutKey) - {id} && UniqueKeys(rest, WorkoutKey)
    ensures Consistent(rest, Cascade(sets, id))
  {
    var c := Cascade(sets, id);
    FilterUnique(sets, SetKey, KeyIsNot(SetParent, id));
    forall j | 0 <= j < |c| ensures c[j].workoutId in KeyMap(rest, WorkoutKey) {
      CascadeIn(sets, id, c[j]);
      var i :| 0 <= i < |sets| && sets[i] == c[j];
    }
  }

  // ---------------------------------------------------------------------------
  // The effect of the DAO's writes on the tables

  /**
   * `insertWorkout` (`INSERT OR REPLACE`): the table maps the workout's id to
   * it and every other id as before; the old row with that id, if any, is
   * deleted first, and the foreign key's cascade deletes its sets with it.
   */
  lemma InsertWorkoutRows(workouts: seq<WorkoutEntity>, sets: seq<SetEntity>, w: WorkoutEntity)
    requires Consistent(workouts, sets)
    ensures KeyMap(Upsert(workouts, WorkoutKey, w), WorkoutKey) == KeyMap(workouts, WorkoutKey)[w.id := w]
    ensures forall x :: x in Cascade(sets, w.id) <==> x in sets && x.workoutId != w.id
    ensures Consistent(Upsert(workouts, WorkoutKey, w), Cascade(sets, w.id))
  {
    var u := Upsert(workouts, WorkoutKey, w);
    KeyMapUpsert(workouts, WorkoutKey, w);
    UpsertUnique(workouts, WorkoutKey, w);
    forall x ensures x in Cascade(sets, w.id) <==> x in sets && x.workoutId != w.id {
      CascadeIn(sets, w.id, x);
    }
    var c := Cascade(sets, w.id);
    FilterUnique(sets, SetKey, KeyIsNot(SetParent, w.id));
    forall j | 0 <= j < |c| ensures c[j].workoutId in KeyMap(u, WorkoutKey) {
      CascadeIn(sets, w.id, c[j]);
      var i :| 0 <= i < |sets| && sets[i] == c[j];
    }
  }

  /** Whether every set of the batch refers to a workout of the table: the foreign-key check. */
  predicate Referenced(workouts: seq<WorkoutEntity>, batch: seq<SetEntity>) {
    forall j :: 0 <= j < |batch| ==> batch[j].workoutId in KeyMap(workouts, WorkoutKey)
  }

  /**
   * `insertSets` (`INSERT OR REPLACE` per set): the table maps each id of the
   * batch to the batch's last set with that id and every other id as before.
   */
  lemma InsertSetsRows(workouts: seq<WorkoutEntity>, sets: seq<SetEntity>, batch: seq<SetEntity>)
    requires Consistent(workouts, sets) && Referenced(workouts, batch)
    ensures KeyMap(UpsertAll(sets, SetKey, batch), SetKey) == KeyMap(sets, SetKey) + KeyMap(batch, SetKey)
    ensures Consistent(workouts, UpsertAll(sets, SetKey, batch))
  {
    var u := UpsertAll(sets, SetKey, batch);
    KeyMapUpsertAll(sets, SetKey, batch);
    UpsertAllUnique(sets, SetKey, batch);
    forall j | 0 <= j < |u| ensures u[j].workoutId in KeyMap(workouts, WorkoutKey) {
      UpsertAllIn(sets, SetKey, batch, u[j]);
      KeyMapRows(batch, SetKey, u[j].id);
    }
  }

  /** `deleteWorkout`: the workout's id leaves the table, and by cascade its sets do. */
  lemma DeleteWorkoutRows(workouts: seq<WorkoutEntity>, sets: seq<SetEntity>, id: string)
    requires Consistent(workouts, sets)
    ensures KeyMap(DropWorkout(workouts, id), WorkoutKey) == KeyMap(workouts, WorkoutKey) - {id}
    ensures forall x :: x in Cascade(sets, id) <==> x in sets && x.workoutId != id
    ensures Consistent(DropWorkout(workouts, id), Cascade(sets, id))
  {
    KeyMapDrop(workouts, WorkoutKey, id);
    FilterUnique(workouts, WorkoutKey, KeyIsNot(WorkoutKey, id));
    forall x ensures x in Cascade(sets, id) <==> x in sets && x.workoutId != id {
      CascadeIn(sets, id, x);
    }
    DropConsistent(workouts, sets, id, DropWorkout(workouts, id));
  }

  /** The sets table after `insertWorkoutWithSets(w, batch)`. */
  function SavedSets(sets: seq<SetEntity>, w: WorkoutEntity, batch: seq<SetEntity>): seq<SetEntity> {
    UpsertAll(Cascade(sets, w.id), SetKey, batch)
  }

  /**
   * When every set of the batch belongs to `w`, the sets of `w` afterwards are
   * exactly the batch's sets (the last one for an id that repeats), all of
   * them; the sets `w` had before are gone.
   */
  lemma SavedWorkoutSets(sets: seq<SetEntity>, w: WorkoutEntity, batch: seq<SetEntity>, x: SetEntity)
    requires forall j :: 0 <= j < |batch| ==> batch[j].workoutId == w.id
    ensures x in SavedSets(sets, w, batch) && x.workoutId == w.id
        <==> x.id in KeyMap(batch, SetKey) && x == KeyMap(batch, SetKey)[x.id]
    ensures UniqueKeys(batch, SetKey) ==> (x in SavedSets(sets, w, batch) && x.workoutId == w.id <==> x in batch)
  {
    UpsertAllIn(Cascade(sets, w.id), SetKey, batch, x);
    CascadeIn(sets, w.id, x);
    KeyMapRows(batch, SetKey, x.id);
    if UniqueKeys(batch, SetKey) {
      KeyMapHolds(batch, SetKey, x);
    }
  }

  // ---------------------------------------------------------------------------
  // The queries

  /** The sets whose `workoutId` is `id`, in table order: the `@Relation` of WorkoutWithSets. */
  function SetsOf(sets: seq<SetEntity>, id: string): seq<SetEntity> {
    Filter(sets, KeyIs(SetParent, id))
  }

  /** Each workout with its sets. */
  function Attach(workouts: seq<WorkoutEntity>, sets: seq<SetEntity>): (r: seq<WorkoutWithSets>)
    ensures |r| == |workouts|
    ensures forall i :: 0 <= i < |r| ==> r[i].workout == workouts[i] && r[i].sets == SetsOf(sets, workouts[i].id)
  {
    if workouts == [] then []
    else Attach(workouts[..|workouts| - 1], sets) + [WorkoutWithSets(workouts[|workouts| - 1], SetsOf(sets, workouts[|workouts| - 1].id))]
  }

  /** The workouts of a query result. */
  function WorkoutsOf(r: seq<WorkoutWithSets>): (ws: seq<WorkoutEntity>)
    ensures |ws| == |r| && forall i :: 0 <= i < |r| ==> ws[i] == r[i].workout
  {
    if r == [] then [] else WorkoutsOf(r[..|r| - 1]) + [r[|r| - 1].workout]
  }

  /** A workout's date as a number that orders workouts newest first. */
  function NewestKey(w: WorkoutEntity): int {
    -Timestamp(w.date)
  }

  /** `SELECT * FROM workouts ORDER BY date DESC`, each with its sets. */
  function AllWorkoutsWithSets(workouts: seq<WorkoutEntity>, sets: seq<SetEntity>): seq<WorkoutWithSets> {
    Attach(SortBy(workouts, NewestKey), sets)
  }

  /** The sets of a result entry are exactly the table's sets that refer to its workout. */
  lemma AttachedSets(workouts: seq<WorkoutEntity>, sets: seq<SetEntity>, i: nat, x: SetEntity)
    requires i < |workouts|
    ensures x in Attach(workouts, sets)[i].sets <==> x in sets && x.workoutId == workouts[i].id
  {
    FilterIn(sets, KeyIs(SetParent, workouts[i].id), x);
  }

  lemma AttachWorkouts(workouts: seq<WorkoutEntity>, sets: seq<SetEntity>)
    ensures WorkoutsOf(Attach(workouts, sets)) == workouts
  {
  }

  /** `getAllWorkoutsWithSets` lists every workout of the table once (as a multiset). */
  lemma AllWorkoutsListed(workouts: seq<WorkoutEntity>, sets: seq<SetEntity>)
    ensures |AllWorkoutsWithSets(workouts, sets)| == |workouts|
    ensures multiset(WorkoutsOf(AllWorkoutsWithSets(workouts, sets))) == multiset(workouts)
  {
    AttachWorkouts(SortBy(workouts, NewestKey), sets);
  }

  /** `getAllWorkoutsWithSets` lists the workouts newest first. */
  lemma AllWorkoutsNewestFirst(workouts: seq<WorkoutEntity>, sets: seq<SetEntity>, i: nat, j: nat)
    requires i < j < |workouts|
    ensures !IsBefore(AllWorkoutsWithSets(workouts, sets)[i].workout.date, AllWorkoutsWithSets(workouts, sets)[j].workout.date)
  {
    var sorted := SortBy(workouts, NewestKey);
    assert NewestKey(sorted[i]) <= NewestKey(sorted[j]);
    TimestampOrder(sorted[i].date, sorted[j].date);
  }

  /** Each entry of `getAllWorkoutsWithSets` carries exactly its workout's sets. */
  lemma AllWorkoutsSets(workouts: seq<WorkoutEntity>, sets: seq<SetEntity>, i: nat, x: SetEntity)
    requires i < |workouts|
    ensures (x in AllWorkoutsWithSets(workouts, sets)[i].sets)
        <==> x in sets && x.workoutId == AllWorkoutsWithSets(workouts, sets)[i].workout.id
  {
    AttachedSets(SortBy(workouts, NewestKey), sets, i, x);
  }

  /** `date >= :startDate AND date <= :endDate`. */
  function InRange(start: DateTime, end: DateTime): WorkoutEntity -> bool {
    (w: WorkoutEntity) => !IsBefore(w.date, start) && !IsBefore(end, w.date)
  }

  /** `SELECT * FROM workouts WHERE date >= :startDate AND date <= :endDate`, in table order. */
  function WorkoutsInRange(workouts: seq<WorkoutEntity>, sets: seq<SetEntity>, start: DateTime, end: DateTime): seq<WorkoutWithSets> {
    Attach(Filter(workouts, InRange(start, end)), sets)
  }

  /** `getWorkoutsInRange` lists exactly the workouts dated from `start` to `end`, both included. */
  lemma RangeListing(workouts: seq<WorkoutEntity>, sets: seq<SetEntity>, start: DateTime, end: DateTime, w: WorkoutEntity)
    ensures w in WorkoutsOf(WorkoutsInRange(workouts, sets, start, end))
        <==> w in workouts && Timestamp(start) <= Timestamp(w.date) <= Timestamp(end)
  {
    AttachWorkouts(Filter(workouts, InRange(start, end)), sets);
    FilterIn(workouts, InRange(start, end), w);
    TimestampOrder(w.date, start);
    TimestampOrder(end, w.date);
  }

  /** Each entry of `getWorkoutsInRange` carries exactly its workout's sets. */
  lemma RangeSets(workouts: seq<WorkoutEntity>, sets: seq<SetEntity>, start: DateTime, end: DateTime, i: nat, x: SetEntity)
    requires i < |WorkoutsInRange(workouts, sets, start, end)|
    ensures (x in WorkoutsInRange(workouts, sets, start, end)[i].sets)
        <==> x in sets && x.workoutId == WorkoutsInRange(workouts, sets, start, end)[i].workout.id
  {
    AttachedSets(Filter(workouts, InRange(start, end)), sets, i, x);
  }

  // ---------------------------------------------------------------------------
  // The DAO

  class WorkoutDao {
    /** The `workouts` table, in insertion order. */
    var workouts: seq<WorkoutEntity>
    /** The `sets` table, in insertion order. */
    var sets: seq<SetEntity>

    predicate Valid()
      reads this
    {
      Consistent(workouts, sets)
    }

    /** An empty database. */
    constructor()
      ensures Valid() && workouts == [] && sets == []
    {
      workouts, sets := [], [];
    }

    function GetAllWorkoutsWithSets(): seq<WorkoutWithSets>
      reads this
    {
      AllWorkoutsWithSets(workouts, sets)
    }

    function GetWorkoutsInRange(startDate: DateTime, endDate: DateTime): seq<WorkoutWithSets>
      reads this
    {
      WorkoutsInRange(workouts, sets, startDate, endDate)
    }

    method InsertWorkout(workout: WorkoutEntity)
      requires Valid()
      modifies this
      ensures Valid()
      ensures workouts == Upsert(old(workouts), WorkoutKey, workout)
      ensures sets == Cascade(old(sets), workout.id)
    {
      InsertWorkoutRows(workouts, sets, workout);
      sets := Cascade(sets, workout.id);
      workouts := Upsert(workouts, WorkoutKey, workout);
    }

    /**
     * Inserts the sets one by one; a set whose workout is not in the table
     * violates the foreign key, and the statement fails and is rolled back.
     */
    method InsertSets(batch: seq<SetEntity>) returns (ok: bool)
      requires Valid()
      modifies this
      ensures Valid()
      ensures ok <==> Referenced(old(workouts), batch)
      ensures workouts == old(workouts)
      ensures sets == if ok then UpsertAll(old(sets), SetKey, batch) else old(sets)
    {
      ok := forall j :: 0 <= j < |batch| ==> batch[j].workoutId in KeyMap(workouts, WorkoutKey);
      if !ok {
        return;
      }
      InsertSetsRows(workouts, sets, batch);
      var table := sets;
      for k := 0 to |batch|
        invariant table == UpsertAll(sets, SetKey, batch[..k])
      {
        assert batch[..k + 1][..k] == batch[..k];
        table := Upsert(table, SetKey, batch[k]);
      }
      assert batch[..|batch|] == batch;
      sets := table;
    }

    /** `@Delete`: removes the row with the workout's key; the cascade removes its sets. */
    method DeleteWorkout(workout: WorkoutEntity)
      requires Valid()
      modifies this
      ensures Valid()
      ensures workouts == DropWorkout(old(workouts), workout.id)
      ensures sets == Cascade(old(sets), workout.id)
    {
      DeleteWorkoutRows(workouts, sets, workout.id);
      workouts := DropWorkout(workouts, workout.id);
      sets := Cascade(sets, workout.id);
    }

    /** One transaction: `insertWorkout` then `insertSets`, all undone when the sets fail. */
    method InsertWorkoutWithSets(workout: WorkoutEntity, batch: seq<SetEntity>) returns (ok: bool)
      requires Valid()
      modifies this
      ensures Valid()
      ensures ok <==> Referenced(Upsert(old(workouts), WorkoutKey, workout), batch)
      ensures ok ==> workouts == Upsert(old(workouts), WorkoutKey, workout)
      ensures ok ==> sets == SavedSets(old(sets), workout, batch)
      ensures !ok ==> workouts == old(workouts) && sets == old(sets)
    {
      var savedWorkouts, savedSets := workouts, sets;
      InsertWorkout(workout);
      ok := InsertSets(batch);
      if !ok {
        workouts, sets := savedWorkouts, savedSets;
      }
    }
  }
}
