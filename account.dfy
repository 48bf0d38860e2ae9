/**
 * The account statistics (AccountViewModel): on every emitted list of
 * workouts, the number of workouts, the number of records broken over the
 * whole history and the number of calendar months the history spans.
 */
module Account {
  import opened Calendar
  import opened Text
  import opened Seqs
  import opened Models
  import opened Records

  // ---------------------------------------------------------------------------
  // Records broken

  /** `recordsBroken`: the records among all sets, workouts visited oldest first. */
  function RecordsBroken(ws: seq<WorkoutWithSets>): nat {
    RecordsIn(SortByDate(ws))
  }

  /** At most one record per set, and at least one per exercise that ever had a positive weight. */
  lemma RecordsBrokenBounds(ws: seq<WorkoutWithSets>)
    ensures RecordsBroken(ws) <= TotalSets(ws)
    ensures RecordsBroken(ws) >= |NamesWithWeight(Lifts(AllSets(SortByDate(ws))))|
  {
    var s := Lifts(AllSets(SortByDate(ws)));
    RecordCountAtMostSets(s);
    TotalSetsSortBy(ws, WorkoutTime);
    RecordCountAtLeastNames(s);
  }

  /** The loops of `calculateRecordsBroken`, which count the records into `prCount`. */
  method CountRecordsBroken(workouts: seq<WorkoutWithSets>) returns (prCount: nat)
    ensures prCount == RecordsBroken(workouts)
  {
    var exerciseMaxes: map<string, real> := map[];
    prCount := 0;
    var sortedWorkouts := SortByDate(workouts);
    assert sortedWorkouts[..0] == [];
    for k := 0 to |sortedWorkouts|
      invariant Tracks(exerciseMaxes, Lifts(AllSets(sortedWorkouts[..k])))
      invariant prCount == RecordsIn(sortedWorkouts[..k])
    {
      LiftsOfWorkouts(sortedWorkouts, k);
      exerciseMaxes, prCount :=
        VisitSets(exerciseMaxes, prCount, sortedWorkouts[k].sets, Lifts(AllSets(sortedWorkouts[..k])));
    }
    assert sortedWorkouts[..|sortedWorkouts|] == sortedWorkouts;
  }

  // ---------------------------------------------------------------------------
  // Months active

  /** `workouts.minOf { it.workout.date }`. */
  function FirstWorkoutDate(ws: seq<WorkoutWithSets>): (d: DateTime)
    requires |ws| > 0
    ensures exists i :: 0 <= i < |ws| && ws[i].workout.date == d
    ensures forall i :: 0 <= i < |ws| ==> !IsBefore(ws[i].workout.date, d)
  {
    if |ws| == 1 then ws[0].workout.date
    else
      var pre := ws[..|ws| - 1];
      var d := FirstWorkoutDate(pre);
      var last := ws[|ws| - 1].workout.date;
      assert forall i :: 0 <= i < |pre| ==> pre[i] == ws[i];
      TimestampOrder(last, d);
      if IsBefore(last, d) then
        assert forall i :: 0 <= i < |pre| ==> !IsBefore(pre[i].workout.date, last) by {
          forall i | 0 <= i < |pre| ensures !IsBefore(pre[i].workout.date, last) {
            TimestampOrder(pre[i].workout.date, d);
            TimestampOrder(pre[i].workout.date, last);
          }
        }
        last
      else d
  }

  /** `workouts.maxOf { it.workout.date }`. */
  function LastWorkoutDate(ws: seq<WorkoutWithSets>): (d: DateTime)
    requires |ws| > 0
    ensures exists i :: 0 <= i < |ws| && ws[i].workout.date == d
    ensures forall i :: 0 <= i < |ws| ==> !IsBefore(d, ws[i].workout.date)
  {
    if |ws| == 1 then ws[0].workout.date
    else
      var pre := ws[..|ws| - 1];
      var d := LastWorkoutDate(pre);
      var last := ws[|ws| - 1].workout.date;
      assert forall i :: 0 <= i < |pre| ==> pre[i] == ws[i];
      TimestampOrder(d, last);
      if IsBefore(d, last) then
        assert forall i :: 0 <= i < |pre| ==> !IsBefore(last, pre[i].workout.date) by {
          forall i | 0 <= i < |pre| ensures !IsBefore(last, pre[i].workout.date) {
            TimestampOrder(d, pre[i].workout.date);
            TimestampOrder(last, pre[i].workout.date);
          }
        }
        last
      else d
  }

  /** `Long.toInt()` and `Int` addition: the value modulo 2^32, read as a signed 32-bit number. */
  function Wrap32(v: int): (r: int)
    ensures IntMin <= r <= IntMax
    ensures IntMin <= v <= IntMax ==> r == v
  {
    (v - IntMin) % 0x1_0000_0000 + IntMin
  }

  /** `monthsActive`: 0 without workouts, else the months between the first days of the extreme months, plus 1. */
  function MonthsActive(ws: seq<WorkoutWithSets>): int {
    if ws == [] then 0
    else
      var months := MonthsBetween(WithDayOfMonth1(FirstWorkoutDate(ws)), WithDayOfMonth1(LastWorkoutDate(ws)));
      Wrap32(Wrap32(months) + 1)
  }

  /** The calendar months from the earliest workout's month to the latest's. */
  function MonthSpan(ws: seq<WorkoutWithSets>): int
    requires |ws| > 0
  {
    ProlepticMonth(LastWorkoutDate(ws).date) - ProlepticMonth(FirstWorkoutDate(ws).date)
  }

  lemma Div32(k: int, r: int)
    requires k >= 0 && 0 <= r < 32
    ensures JavaDiv(32 * k + r, 32) == k
  {
  }

  /** Months between the first days of two months, `b`'s month not before `a`'s. */
  lemma MonthsBetweenFirstDays(a: DateTime, b: DateTime)
    requires a.date.day == 1 && b.date.day == 1
    requires ProlepticMonth(a.date) <= ProlepticMonth(b.date)
    ensures MonthsBetween(a, b)
         == ProlepticMonth(b.date) - ProlepticMonth(a.date)
            - (if ProlepticMonth(a.date) < ProlepticMonth(b.date) && b.secondOfDay < a.secondOfDay then 1 else 0)
  {
    var span := ProlepticMonth(b.date) - ProlepticMonth(a.date);
    if span == 0 {
      assert a.date == b.date;
    } else {
      assert DateBefore(a.date, b.date);
      if b.secondOfDay < a.secondOfDay {
        var e := PrevDay(b.date);
        assert ProlepticMonth(e) == ProlepticMonth(b.date) - 1;
        Div32(span - 1, e.day - 1);
      } else {
        Div32(span, 0);
      }
    }
  }

  /**
   * With fewer than 2^31 - 1 months between them, monthsActive is the month
   * span plus one, except that it is one less when the latest workout's time
   * of day is earlier than the earliest's and they lie in different months;
   * so it is at least 1 and at most the span plus one.
   */
  lemma MonthsActiveSpan(ws: seq<WorkoutWithSets>)
    requires |ws| > 0 && MonthSpan(ws) < IntMax
    ensures MonthSpan(ws) >= 0
    ensures MonthsActive(ws)
         == MonthSpan(ws) + 1
            - (if MonthSpan(ws) > 0 && LastWorkoutDate(ws).secondOfDay < FirstWorkoutDate(ws).secondOfDay then 1 else 0)
    ensures 1 <= MonthsActive(ws) <= MonthSpan(ws) + 1
  {
    var first, last := FirstWorkoutDate(ws), LastWorkoutDate(ws);
    var i :| 0 <= i < |ws| && ws[i].workout.date == first;
    assert !IsBefore(last, first);
    MonthsBetweenFirstDays(WithDayOfMonth1(first), WithDayOfMonth1(last));
  }

  lemma SameInstant(a: DateTime, b: DateTime)
    requires !IsBefore(a, b) && !IsBefore(b, a)
    ensures a == b
  {
    TimestampOrder(a, b);
  }

  /** monthsActive reads only the earliest and the latest date, so the order of the list does not matter. */
  lemma MonthsActiveOrderFree(ws: seq<WorkoutWithSets>, vs: seq<WorkoutWithSets>)
    requires multiset(ws) == multiset(vs)
    ensures MonthsActive(ws) == MonthsActive(vs)
  {
    assert |ws| == |multiset(ws)| == |multiset(vs)| == |vs|;
    if ws != [] {
      var i :| 0 <= i < |ws| && ws[i].workout.date == FirstWorkoutDate(ws);
      var j :| 0 <= j < |vs| && vs[j].workout.date == FirstWorkoutDate(vs);
      var k :| 0 <= k < |ws| && ws[k].workout.date == LastWorkoutDate(ws);
      var l :| 0 <= l < |vs| && vs[l].workout.date == LastWorkoutDate(vs);
      assert ws[i] in multiset(vs) && ws[k] in multiset(vs);
      assert vs[j] in multiset(ws) && vs[l] in multiset(ws);
      SameInstant(FirstWorkoutDate(ws), FirstWorkoutDate(vs));
      SameInstant(LastWorkoutDate(ws), LastWorkoutDate(vs));
    }
  }

  // ---------------------------------------------------------------------------
  // The view-model

  class AccountViewModel {
    var totalWorkouts: int
    var recordsBroken: int
    var monthsActive: int

    constructor()
      ensures totalWorkouts == 0 && recordsBroken == 0 && monthsActive == 0
    {
      totalWorkouts, recordsBroken, monthsActive := 0, 0, 0;
    }

    /** The body of `loadWorkoutStats`' collect, on one emitted list. */
    method LoadWorkoutStats(workouts: seq<WorkoutWithSets>)
      modifies this
      ensures totalWorkouts == |workouts|
      ensures recordsBroken == RecordsBroken(workouts)
      ensures monthsActive == MonthsActive(workouts)
    {
      totalWorkouts := |workouts|;
      CalculateRecordsBroken(workouts);
      CalculateMonthsActive(workouts);
    }

    method CalculateRecordsBroken(workouts: seq<WorkoutWithSets>)
      modifies this
      ensures recordsBroken == RecordsBroken(workouts)
      ensures totalWorkouts == old(totalWorkouts) && monthsActive == old(monthsActive)
    {
      var prCount := CountRecordsBroken(workouts);
      recordsBroken := prCount;
    }

    method CalculateMonthsActive(workouts: seq<WorkoutWithSets>)
      modifies this
      ensures monthsActive == MonthsActive(workouts)
      ensures totalWorkouts == old(totalWorkouts) && recordsBroken == old(recordsBroken)
    {
      if |workouts| == 0 {
        monthsActive := 0;
        return;
      }
      var firstWorkoutDate := FirstWorkoutDate(workouts);
      var lastWorkoutDate := LastWorkoutDate(workouts);
      var months := Wrap32(Wrap32(MonthsBetween(WithDayOfMonth1(firstWorkoutDate), WithDayOfMonth1(lastWorkoutDate))) + 1);
      monthsActive := months;
    }
  }
}
