/**
 * The "records broken" count shared by AccountViewModel.calculateRecordsBroken
 * and ProgressViewModel.calculateMonthlyPRs: sets are visited in order, each
 * exercise keeps a running maximum that starts at 0, and a set whose weight
 * (0 when it does not read as a number) exceeds its exercise's maximum raises
 * it and counts as a record.
 */
module Records {
  import opened Models
  import opened Seqs

  /** What the loop reads from a set: its exercise and its weight (0 when it does not read as a number). */
  datatype Lift = Lift(name: string, weight: real)

  function Lifts(sets: seq<SetEntity>): (r: seq<Lift>)
    ensures |r| == |sets|
  {
    if sets == [] then [] else Lifts(sets[..|sets| - 1]) + [Lift(sets[|sets| - 1].name, WeightOrZero(sets[|sets| - 1]))]
  }

  lemma {:induction false} LiftsAppend(a: seq<SetEntity>, b: seq<SetEntity>)
    ensures Lifts(a + b) == Lifts(a) + Lifts(b)
  {
    if b == [] {
      assert a + b == a;
    } else {
      assert (a + b)[..|a + b| - 1] == a + b[..|b| - 1];
      LiftsAppend(a, b[..|b| - 1]);
    }
  }

  /** The running maximum for `name` after the sets `s`: 0 until a heavier set of that name. */
  function Best(s: seq<Lift>, name: string): (b: real)
    ensures b >= 0.0
    ensures forall i :: 0 <= i < |s| && s[i].name == name ==> s[i].weight <= b
  {
    if s == [] then 0.0
    else
      var pre := s[..|s| - 1];
      var b := Best(pre, name);
      assert forall i :: 0 <= i < |pre| ==> pre[i] == s[i];
      var x := s[|s| - 1];
      if x.name == name && x.weight > b then x.weight else b
  }

  /** A positive maximum is the weight of some set of that exercise. */
  lemma {:induction false} BestAttained(s: seq<Lift>, name: string)
    requires Best(s, name) > 0.0
    ensures exists i :: 0 <= i < |s| && s[i].name == name && s[i].weight == Best(s, name)
  {
    var pre := s[..|s| - 1];
    var x := s[|s| - 1];
    if !(x.name == name && x.weight > Best(pre, name)) {
      BestAttained(pre, name);
      var i :| 0 <= i < |pre| && pre[i].name == name && pre[i].weight == Best(pre, name);
      assert s[i] == pre[i];
    }
  }

  /** The set at `k` is a record: positive and heavier than every earlier set of its exercise. */
  predicate IsRecord(s: seq<Lift>, k: int)
    requires 0 <= k < |s|
  {
    s[k].weight > 0.0
    && forall j :: 0 <= j < k && s[j].name == s[k].name ==> s[j].weight < s[k].weight
  }

  /** The number of records among the sets. */
  function RecordCount(s: seq<Lift>): nat {
    if s == [] then 0
    else RecordCount(s[..|s| - 1]) + (if IsRecord(s, |s| - 1) then 1 else 0)
  }

  /** The loop's test `weight > currentMax` is exactly the record condition. */
  lemma RecordIffAboveBest(s: seq<Lift>, x: Lift)
    ensures IsRecord(s + [x], |s|) <==> x.weight > Best(s, x.name)
  {
    var t := s + [x];
    assert forall j :: 0 <= j < |s| ==> t[j] == s[j];
    if Best(s, x.name) > 0.0 {
      BestAttained(s, x.name);
    }
  }

  lemma {:induction false} RecordCountAtMostSets(s: seq<Lift>)
    ensures RecordCount(s) <= |s|
  {
    if s != [] {
      RecordCountAtMostSets(s[..|s| - 1]);
    }
  }

  /** The running maxima as the loop keeps them in `exerciseMaxes`. */
  ghost predicate Tracks(m: map<string, real>, s: seq<Lift>) {
    (forall n :: n in m <==> Best(s, n) > 0.0)
    && (forall n :: n in m ==> m[n] == Best(s, n))
  }

  /** `exerciseMaxes[set.name] ?: 0f`. */
  function CurrentMax(m: map<string, real>, name: string): real {
    if name in m then m[name] else 0.0
  }

  lemma BestAppend(s: seq<Lift>, x: Lift, n: string)
    ensures Best(s + [x], n) == if x.name == n && x.weight > Best(s, n) then x.weight else Best(s, n)
  {
    assert (s + [x])[..|s|] == s;
  }

  lemma RecordCountAppend(s: seq<Lift>, x: Lift)
    ensures RecordCount(s + [x]) == RecordCount(s) + (if IsRecord(s + [x], |s|) then 1 else 0)
  {
    assert (s + [x])[..|s|] == s;
  }

  /** The map after one visit of the loop body. */
  function Visit(m: map<string, real>, x: Lift): map<string, real> {
    if x.weight > CurrentMax(m, x.name) then m[x.name := x.weight] else m
  }

  /** The maximum the map holds for `name` after a visit is the running maximum one set later. */
  lemma VisitAt(m: map<string, real>, s: seq<Lift>, x: Lift, n: string)
    requires Tracks(m, s)
    ensures (n in Visit(m, x) <==> Best(s + [x], n) > 0.0)
    ensures n in Visit(m, x) ==> Visit(m, x)[n] == Best(s + [x], n)
  {
    BestAppend(s, x, n);
    assert n in m <==> Best(s, n) > 0.0;
    assert CurrentMax(m, x.name) == Best(s, x.name);
  }

  /** One visit of the loop body keeps the maxima and the count in step. */
  lemma RecordStep(m: map<string, real>, s: seq<Lift>, x: Lift)
    requires Tracks(m, s)
    ensures x.weight > CurrentMax(m, x.name) <==> IsRecord(s + [x], |s|)
    ensures RecordCount(s + [x]) == RecordCount(s) + (if IsRecord(s + [x], |s|) then 1 else 0)
    ensures Tracks(Visit(m, x), s + [x])
  {
    RecordIffAboveBest(s, x);
    RecordCountAppend(s, x);
    assert CurrentMax(m, x.name) == Best(s, x.name);
    forall n
      ensures (n in Visit(m, x) <==> Best(s + [x], n) > 0.0)
      ensures n in Visit(m, x) ==> Visit(m, x)[n] == Best(s + [x], n)
    {
      VisitAt(m, s, x, n);
    }
  }

  /** One pass of the inner loop, on the sets visited so far (`seen`, then `sets[..j]`). */
  lemma VisitStep(m: map<string, real>, seen: seq<Lift>, sets: seq<SetEntity>, j: nat)
    requires j < |sets| && Tracks(m, seen + Lifts(sets[..j]))
    ensures Tracks(Visit(m, Lift(sets[j].name, WeightOrZero(sets[j]))), seen + Lifts(sets[..j + 1]))
    ensures RecordCount(seen + Lifts(sets[..j + 1]))
         == RecordCount(seen + Lifts(sets[..j]))
            + (if WeightOrZero(sets[j]) > CurrentMax(m, sets[j].name) then 1 else 0)
  {
    var x := Lift(sets[j].name, WeightOrZero(sets[j]));
    assert sets[..j + 1][..j] == sets[..j];
    assert seen + Lifts(sets[..j + 1]) == seen + Lifts(sets[..j]) + [x];
    RecordStep(m, seen + Lifts(sets[..j]), x);
  }

  /** The sets of one more workout, as the loops read them. */
  lemma LiftsOfWorkouts(ws: seq<WorkoutWithSets>, k: nat)
    requires k < |ws|
    ensures Lifts(AllSets(ws[..k + 1])) == Lifts(AllSets(ws[..k])) + Lifts(ws[k].sets)
  {
    assert ws[..k + 1][..k] == ws[..k];
    LiftsAppend(AllSets(ws[..k]), ws[k].sets);
  }

  /**
   * `workout.sets.forEach { set -> … }`, the inner loop of both counters:
   * the maxima and the count follow the sets of one workout.
   */
  method VisitSets(exerciseMaxes: map<string, real>, prCount: nat, sets: seq<SetEntity>, ghost seen: seq<Lift>)
    returns (maxes: map<string, real>, count: nat)
    requires Tracks(exerciseMaxes, seen) && prCount == RecordCount(seen)
    ensures Tracks(maxes, seen + Lifts(sets))
    ensures count == RecordCount(seen + Lifts(sets))
  {
    maxes, count := exerciseMaxes, prCount;
    assert sets[..0] == [];
    assert seen + Lifts(sets[..0]) == seen;
    for j := 0 to |sets|
      invariant Tracks(maxes, seen + Lifts(sets[..j]))
      invariant count == RecordCount(seen + Lifts(sets[..j]))
    {
      var weight := WeightOrZero(sets[j]);
      var currentMax := CurrentMax(maxes, sets[j].name);
      VisitStep(maxes, seen, sets, j);
      if weight > currentMax {
        maxes := maxes[sets[j].name := weight];
        count := count + 1;
      }
    }
    assert sets[..|sets|] == sets;
  }

  /** `recordsBroken` and the monthly PR count: the records among the sets of the workouts, in order. */
  function RecordsIn(ws: seq<WorkoutWithSets>): nat {
    RecordCount(Lifts(AllSets(ws)))
  }

  /** The exercises with some positive weight, in order of their first such set. */
  function NamesWithWeight(s: seq<Lift>): (r: seq<string>)
    ensures Distinct(r)
    ensures forall n :: n in r <==> Best(s, n) > 0.0
  {
    if s == [] then []
    else
      var pre := s[..|s| - 1];
      var r := NamesWithWeight(pre);
      var x := s[|s| - 1];
      if x.weight > 0.0 && x.name !in r then r + [x.name] else r
  }

  /** Every exercise with a positive weight has at least one record: its first positive set. */
  lemma {:induction false} RecordCountAtLeastNames(s: seq<Lift>)
    ensures RecordCount(s) >= |NamesWithWeight(s)|
  {
    if s != [] {
      var pre := s[..|s| - 1];
      var x := s[|s| - 1];
      assert s == pre + [x];
      RecordCountAtLeastNames(pre);
      RecordIffAboveBest(pre, x);
    }
  }
}
