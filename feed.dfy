/**
 * FeedViewModel (app/src/main/java/com/peakphysique/app/viewmodel/FeedViewModel.kt):
 * from the list of all workouts it derives achievement entries — a personal
 * record per workout and exercise, and a streak entry — labels each with how
 * long ago it happened, and publishes them sorted by the age read back from
 * that label, newest first.
 */
module Feed {
  import opened Wrappers
  import opened Calendar
  import opened Text
  import opened Seqs
  import opened Models

  // ---------------------------------------------------------------------------
  // getTimeAgo

  /** The four buckets of a relative time label. */
  datatype Age = JustNow | HoursAgo(hours: nat) | DaysAgo(days: nat) | MonthsAgo(months: nat)

  const SecondsPer30Days: int := 30 * SecondsPerDay

  /** Seconds from `t` to `now`. */
  function Elapsed(t: DateTime, now: DateTime): int {
    Timestamp(now) - Timestamp(t)
  }

  lemma MonthsOfDays(e: int)
    requires e >= 0
    ensures (e / SecondsPerDay) / 30 == e / SecondsPer30Days
  {
    var q, r := e / SecondsPerDay, e % SecondsPerDay;
    var m, s := q / 30, q % 30;
    assert e == SecondsPer30Days * m + (SecondsPerDay * s + r);
  }

  /** Whole hours of a span, truncated: none under an hour, fewer than 24 exactly under a day. */
  lemma WholeHours(e: int)
    ensures JavaDiv(e, SecondsPerHour) < 1 <==> e < SecondsPerHour
    ensures e >= 0 ==> JavaDiv(e, SecondsPerHour) * SecondsPerHour <= e < (JavaDiv(e, SecondsPerHour) + 1) * SecondsPerHour
    ensures e >= 0 ==> (JavaDiv(e, SecondsPerHour) < 24 <==> e < SecondsPerDay)
  {
  }

  /** Whole days of a span, truncated: none under a day, fewer than 30 exactly under 30 days. */
  lemma WholeDays(e: int)
    ensures JavaDiv(e, SecondsPerDay) < 1 <==> e < SecondsPerDay
    ensures e >= 0 ==> JavaDiv(e, SecondsPerDay) * SecondsPerDay <= e < (JavaDiv(e, SecondsPerDay) + 1) * SecondsPerDay
    ensures e >= 0 ==> (JavaDiv(e, SecondsPerDay) < 30 <==> e < SecondsPer30Days)
  {
  }

  /** Whole 30-day months of a span of at least 30 days, counted from its whole days. */
  lemma WholeMonths(e: int)
    requires e >= SecondsPer30Days
    ensures 1 <= JavaDiv(e, SecondsPerDay) / 30
    ensures (JavaDiv(e, SecondsPerDay) / 30) * SecondsPer30Days <= e < (JavaDiv(e, SecondsPerDay) / 30 + 1) * SecondsPer30Days
  {
    MonthsOfDays(e);
  }

  /**
   * The bucket `getTimeAgo` picks from `HOURS.between(t, now)` and
   * `DAYS.between(t, now)`: under an hour (or in the future), whole hours
   * under a day, whole days under 30 days, else whole 30-day months.
   */
  function AgeOf(t: DateTime, now: DateTime): (a: Age)
    ensures a == JustNow <==> Elapsed(t, now) < SecondsPerHour
    ensures a.HoursAgo? <==> SecondsPerHour <= Elapsed(t, now) < SecondsPerDay
    ensures a.HoursAgo? ==>
              1 <= a.hours < 24
              && a.hours * SecondsPerHour <= Elapsed(t, now) < (a.hours + 1) * SecondsPerHour
    ensures a.DaysAgo? <==> SecondsPerDay <= Elapsed(t, now) < SecondsPer30Days
    ensures a.DaysAgo? ==>
              1 <= a.days < 30
              && a.days * SecondsPerDay <= Elapsed(t, now) < (a.days + 1) * SecondsPerDay
    ensures a.MonthsAgo? <==> SecondsPer30Days <= Elapsed(t, now)
    ensures a.MonthsAgo? ==>
              1 <= a.months
              && a.months * SecondsPer30Days <= Elapsed(t, now) < (a.months + 1) * SecondsPer30Days
  {
    var e := Elapsed(t, now);
    var hours := HoursBetween(t, now);
    var days := DaysBetween(t, now);
    WholeHours(e);
    WholeDays(e);
    if hours < 1 then JustNow
    else if hours < 24 then HoursAgo(hours)
    else if days < 30 then DaysAgo(days)
    else
      WholeMonths(e);
      MonthsAgo(days / 30)
  }

  const JustNowText: string := "Just now"
  const HoursWord: string := "hours"
  const DaysWord: string := "days"
  const MonthsWord: string := "months"

  /** `"$n $unit ago"`. */
  function Label(n: nat, unit: string): string {
    NatToString(n) + " " + unit + " ago"
  }

  /** The label text of an age. */
  function Render(a: Age): string {
    match a
    case JustNow => JustNowText
    case HoursAgo(h) => Label(h, HoursWord)
    case DaysAgo(d) => Label(d, DaysWord)
    case MonthsAgo(m) => Label(m, MonthsWord)
  }

  /** `getTimeAgo(t)` with the clock read as `now`. */
  function TimeAgo(t: DateTime, now: DateTime): string {
    Render(AgeOf(t, now))
  }

  // ---------------------------------------------------------------------------
  // The sort key of sortedByDescending

  /** `time.split(" ")[0].toLongOrNull() ?: 0`. */
  function LeadingCount(text: string): int {
    ParseLong(FirstWord(text)).GetOr(0)
  }

  /**
   * The instant the final sort reads back from a label, as a timestamp:
   * `now`, `now.minusHours(n)`, `now.minusDays(n)` or `now.minusMonths(n)`,
   * tested in that order by substring.
   */
  function SortKey(text: string, now: DateTime): int {
    if Contains(text, JustNowText) then Timestamp(now)
    else if Contains(text, HoursWord) then Timestamp(now) - LeadingCount(text) * SecondsPerHour
    else if Contains(text, DaysWord) then Timestamp(now) - LeadingCount(text) * SecondsPerDay
    else if Contains(text, MonthsWord) then Timestamp(MinusMonths(now, LeadingCount(text)))
    else Timestamp(now)
  }

  /** The instant an age stands for when read back: hours and days exactly, months by the calendar. */
  function AgeInstant(a: Age, now: DateTime): int {
    match a
    case JustNow => Timestamp(now)
    case HoursAgo(h) => Timestamp(now) - h * SecondsPerHour
    case DaysAgo(d) => Timestamp(now) - d * SecondsPerDay
    case MonthsAgo(m) => Timestamp(MinusMonths(now, m))
  }

  lemma NumberNotInWords(n: nat, c: char)
    requires !IsDigit(c)
    ensures c !in NatToString(n)
  {
  }

  /** The count a label starts with is read back. */
  lemma LabelCount(n: nat, unit: string)
    requires n <= LongMax
    ensures LeadingCount(Label(n, unit)) == n
  {
    assert Label(n, unit) == NatToString(n) + (" " + unit + " ago");
    FirstWordOfNumber(NatToString(n), " " + unit + " ago");
    ParseLongOfNatToString(n);
  }

  /** A label holds its unit. */
  lemma LabelHolds(n: nat, unit: string)
    ensures Contains(Label(n, unit), unit)
  {
    ContainsMiddle(NatToString(n) + " ", unit, " ago");
  }

  /** A word with a letter that is neither a digit nor in `" $unit ago"` is not in the label. */
  lemma LabelLacks(n: nat, unit: string, word: string, k: nat)
    requires k < |word| && !IsDigit(word[k]) && word[k] !in " " + unit + " ago"
    ensures !Contains(Label(n, unit), word)
  {
    NumberNotInWords(n, word[k]);
    assert Label(n, unit) == NatToString(n) + (" " + unit + " ago");
    MissingCharNotContained(Label(n, unit), word, k);
  }

  lemma HoursLabel(h: nat, now: DateTime)
    requires h <= LongMax
    ensures SortKey(Label(h, HoursWord), now) == Timestamp(now) - h * SecondsPerHour
  {
    LabelLacks(h, HoursWord, JustNowText, 0);
    LabelHolds(h, HoursWord);
    LabelCount(h, HoursWord);
  }

  lemma DaysLabel(d: nat, now: DateTime)
    requires d <= LongMax
    ensures SortKey(Label(d, DaysWord), now) == Timestamp(now) - d * SecondsPerDay
  {
    LabelLacks(d, DaysWord, JustNowText, 0);
    LabelLacks(d, DaysWord, HoursWord, 0);
    LabelHolds(d, DaysWord);
    LabelCount(d, DaysWord);
  }

  lemma MonthsLabel(m: nat, now: DateTime)
    requires m <= LongMax
    ensures SortKey(Label(m, MonthsWord), now) == Timestamp(MinusMonths(now, m))
  {
    LabelLacks(m, MonthsWord, JustNowText, 0);
    LabelLacks(m, MonthsWord, HoursWord, 2);
    LabelLacks(m, MonthsWord, DaysWord, 0);
    LabelHolds(m, MonthsWord);
    LabelCount(m, MonthsWord);
  }

  /** Reading a label back gives the instant of its age (months counts fit in a Long). */
  lemma SortKeyOfRender(a: Age, now: DateTime)
    requires a.HoursAgo? ==> a.hours <= LongMax
    requires a.DaysAgo? ==> a.days <= LongMax
    requires a.MonthsAgo? ==> a.months <= LongMax
    ensures SortKey(Render(a), now) == AgeInstant(a, now)
  {
    match a
    case JustNow => ContainsAt(JustNowText, JustNowText, 0);
    case HoursAgo(h) => HoursLabel(h, now);
    case DaysAgo(d) => DaysLabel(d, now);
    case MonthsAgo(m) => MonthsLabel(m, now);
  }

  /**
   * The key the sort reads from a `getTimeAgo` label: `now` for "Just now",
   * and for hours and days an instant no earlier than `t` and less than one
   * hour (one day) after it.
   */
  lemma SortKeyOfTimeAgo(t: DateTime, now: DateTime)
    requires Elapsed(t, now) < SecondsPer30Days * LongMax
    ensures SortKey(TimeAgo(t, now), now) == AgeInstant(AgeOf(t, now), now)
    ensures AgeOf(t, now).JustNow? ==> SortKey(TimeAgo(t, now), now) == Timestamp(now)
    ensures AgeOf(t, now).HoursAgo? ==>
              Timestamp(t) <= SortKey(TimeAgo(t, now), now) < Timestamp(t) + SecondsPerHour
    ensures AgeOf(t, now).DaysAgo? ==>
              Timestamp(t) <= SortKey(TimeAgo(t, now), now) < Timestamp(t) + SecondsPerDay
  {
    SortKeyOfRender(AgeOf(t, now), now);
  }

  lemma EpochDays2026()
    ensures EpochDay(LocalDate(2026, 1, 30)) == 20483
    ensures EpochDay(LocalDate(2026, 1, 31)) == 20484
    ensures EpochDay(LocalDate(2026, 2, 1)) == 20485
    ensures EpochDay(LocalDate(2026, 3, 1)) == 20513
  {
    assert LeapDaysBefore(2026) == 507 - 21 + 6;
    assert YearStart(2026) == 20454;
  }

  lemma AgesOnFirstOfMarch()
    ensures AgeOf(LocalDateTime(LocalDate(2026, 1, 30), 0), LocalDateTime(LocalDate(2026, 3, 1), 0)) == MonthsAgo(1)
    ensures AgeOf(LocalDateTime(LocalDate(2026, 1, 31), 0), LocalDateTime(LocalDate(2026, 3, 1), 0)) == DaysAgo(29)
  {
    EpochDays2026();
    var now := LocalDateTime(LocalDate(2026, 3, 1), 0);
    assert Elapsed(LocalDateTime(LocalDate(2026, 1, 30), 0), now) == 30 * SecondsPerDay;
    assert Elapsed(LocalDateTime(LocalDate(2026, 1, 31), 0), now) == 29 * SecondsPerDay;
  }

  lemma MonthBeforeFirstOfMarch()
    ensures Timestamp(MinusMonths(LocalDateTime(LocalDate(2026, 3, 1), 0), 1))
         == Timestamp(LocalDateTime(LocalDate(2026, 2, 1), 0))
  {
    assert MinusMonths(LocalDateTime(LocalDate(2026, 3, 1), 0), 1) == LocalDateTime(LocalDate(2026, 2, 1), 0);
  }

  /**
   * A month label is read back by the calendar, so it can land after a day
   * label of a newer entry: on 2026-03-01, a workout of 2026-01-30 ("1 months
   * ago", read as 2026-02-01) sorts before one of 2026-01-31 ("29 days ago").
   */
  lemma MonthLabelOutOfOrder()
    ensures var now := LocalDateTime(LocalDate(2026, 3, 1), 0);
            var older := LocalDateTime(LocalDate(2026, 1, 30), 0);
            var newer := LocalDateTime(LocalDate(2026, 1, 31), 0);
            IsBefore(older, newer)
            && AgeOf(older, now) == MonthsAgo(1) && AgeOf(newer, now) == DaysAgo(29)
            && SortKey(TimeAgo(older, now), now) > SortKey(TimeAgo(newer, now), now)
  {
    var now := LocalDateTime(LocalDate(2026, 3, 1), 0);
    EpochDays2026();
    AgesOnFirstOfMarch();
    MonthBeforeFirstOfMarch();
    SortKeyOfRender(MonthsAgo(1), now);
    SortKeyOfRender(DaysAgo(29), now);
  }

  // ---------------------------------------------------------------------------
  // Feed entries

  datatype Icon = Favorite | Star

  /** What an entry announces: a new maximum for an exercise, or a run of consecutive workout days. */
  datatype Achievement = Pr(exercise: string, maxWeight: real, increase: int) | Streak(days: int)

  /** A feed entry: the achievement and its relative time label. */
  datatype FeedEntry = FeedEntry(achievement: Achievement, time: string)

  function Title(a: Achievement): string {
    match a
    case Pr(e, _, _) => "New " + e + " PR!"
    case Streak(_) => "You're on fire!"
  }

  function IconOf(a: Achievement): Icon {
    match a
    case Pr(_, _, _) => Favorite
    case Streak(_) => Star
  }

  predicate IsStreak(e: FeedEntry) {
    e.achievement.Streak?
  }

  // ---------------------------------------------------------------------------
  // Personal records

  /** `sets.maxOfOrNull { it.weight.toDoubleOrNull() ?: 0.0 } ?: 0.0`. */
  function ExerciseMax(sets: seq<SetEntity>): (m: real)
    ensures sets == [] ==> m == 0.0
    ensures forall i :: 0 <= i < |sets| ==> WeightOrZero(sets[i]) <= m
  {
    if |sets| <= 1 then (if sets == [] then 0.0 else WeightOrZero(sets[0]))
    else
      var pre := sets[..|sets| - 1];
      var m := ExerciseMax(pre);
      assert forall i :: 0 <= i < |pre| ==> pre[i] == sets[i];
      var w := WeightOrZero(sets[|sets| - 1]);
      if w > m then w else m
  }

  /** The maximum is the weight of one of the sets. */
  lemma {:induction false} ExerciseMaxAttained(sets: seq<SetEntity>)
    requires sets != []
    ensures exists i :: 0 <= i < |sets| && WeightOrZero(sets[i]) == ExerciseMax(sets)
  {
    if |sets| == 1 {
      assert WeightOrZero(sets[0]) == ExerciseMax(sets);
    } else {
      var pre := sets[..|sets| - 1];
      var last := |sets| - 1;
      if WeightOrZero(sets[last]) > ExerciseMax(pre) {
        assert WeightOrZero(sets[last]) == ExerciseMax(sets);
      } else {
        ExerciseMaxAttained(pre);
        var i :| 0 <= i < |pre| && WeightOrZero(pre[i]) == ExerciseMax(pre);
        assert pre[i] == sets[i];
      }
    }
  }

  /** `maxOrNull() ?: 0.0`. */
  function MaxOrZero(s: seq<real>): (m: real)
    ensures s == [] ==> m == 0.0
    ensures s != [] ==> m in s && forall i :: 0 <= i < |s| ==> s[i] <= m
  {
    if s == [] then 0.0 else MaxOf(s)
  }

  /** `{ it.workout.date < date }`. */
  function Before(date: DateTime): WorkoutWithSets -> bool {
    (w: WorkoutWithSets) => IsBefore(w.workout.date, date)
  }

  /** `workouts.filter { it.workout.date < date }`. */
  function Earlier(ws: seq<WorkoutWithSets>, date: DateTime): seq<WorkoutWithSets> {
    Filter(ws, Before(date))
  }

  /** The best earlier weight of an exercise: over workouts strictly before `date`, of the weights that read as numbers. */
  function PreviousMax(ws: seq<WorkoutWithSets>, date: DateTime, name: string): real {
    MaxOrZero(ParsedWeights(Named(AllSets(Earlier(ws, date)), name)))
  }

  /** Every weight that reads as a number, of a set of the exercise in a strictly earlier workout, is at most the earlier best. */
  lemma PreviousMaxBound(ws: seq<WorkoutWithSets>, date: DateTime, name: string, i: nat, j: nat, x: real)
    requires i < |ws| && IsBefore(ws[i].workout.date, date)
    requires j < |ws[i].sets| && ws[i].sets[j].name == name
    requires ParseDecimal(ws[i].sets[j].weight) == Some(x)
    ensures x <= PreviousMax(ws, date, name)
  {
    var e := Earlier(ws, date);
    var st := ws[i].sets[j];
    FilterIn(ws, Before(date), ws[i]);
    var k :| 0 <= k < |e| && e[k] == ws[i];
    AllSetsIn(e, st);
    var all := AllSets(e);
    NamedIn(all, name, st);
    var named := Named(all, name);
    var q :| 0 <= q < |named| && named[q] == st;
    assert Readings(named)[q] == Some(x);
    PresentIn(Readings(named), x);
    var pw := ParsedWeights(named);
    var p :| 0 <= p < |pw| && pw[p] == x;
  }

  /** With no earlier weight of the exercise that reads as a number, the earlier best is 0. */
  lemma PreviousMaxNone(ws: seq<WorkoutWithSets>, date: DateTime, name: string)
    requires forall i, j :: 0 <= i < |ws| && IsBefore(ws[i].workout.date, date)
               && 0 <= j < |ws[i].sets| && ws[i].sets[j].name == name
               ==> ParseDecimal(ws[i].sets[j].weight).None?
    ensures PreviousMax(ws, date, name) == 0.0
  {
    var e := Earlier(ws, date);
    var all := AllSets(e);
    var named := Named(all, name);
    forall q | 0 <= q < |named|
      ensures Readings(named)[q].None?
    {
      var st := named[q];
      NamedIn(all, name, st);
      AllSetsIn(e, st);
      var k :| 0 <= k < |e| && st in e[k].sets;
      FilterIn(ws, Before(date), e[k]);
      var i :| 0 <= i < |ws| && ws[i] == e[k];
      var j :| 0 <= j < |ws[i].sets| && ws[i].sets[j] == st;
    }
  }

  /** A positive earlier best is the weight that reads as a number of some set of the exercise in a strictly earlier workout. */
  lemma PreviousMaxAttained(ws: seq<WorkoutWithSets>, date: DateTime, name: string)
    ensures PreviousMax(ws, date, name) > 0.0 ==>
              exists i, j :: 0 <= i < |ws| && IsBefore(ws[i].workout.date, date)
                && 0 <= j < |ws[i].sets| && ws[i].sets[j].name == name
                && ParseDecimal(ws[i].sets[j].weight) == Some(PreviousMax(ws, date, name))
  {
    var m := PreviousMax(ws, date, name);
    var e := Earlier(ws, date);
    var all := AllSets(e);
    var named := Named(all, name);
    if m > 0.0 {
      PresentIn(Readings(named), m);
      var q :| 0 <= q < |named| && Readings(named)[q] == Some(m);
      var st := named[q];
      NamedIn(all, name, st);
      AllSetsIn(e, st);
      var k :| 0 <= k < |e| && st in e[k].sets;
      FilterIn(ws, Before(date), e[k]);
      var i :| 0 <= i < |ws| && ws[i] == e[k];
      var j :| 0 <= j < |ws[i].sets| && ws[i].sets[j] == st;
    }
  }

  /** Workouts not strictly earlier (the same date included) do not change the earlier best. */
  lemma PreviousMaxIgnores(a: seq<WorkoutWithSets>, v: WorkoutWithSets, b: seq<WorkoutWithSets>, date: DateTime, name: string)
    requires !IsBefore(v.workout.date, date)
    ensures PreviousMax(a + [v] + b, date, name) == PreviousMax(a + b, date, name)
  {
    var p := Before(date);
    assert !p(v);
    assert [v][..0] == [];
    assert Filter([v], p) == [];
    FilterAppend(a + [v], b, p);
    FilterAppend(a, [v], p);
    FilterAppend(a, b, p);
    assert Earlier(a + [v] + b, date) == Earlier(a + b, date);
  }

  /** What the loop computes for one exercise of a workout: its maximum here and its best earlier weight. */
  datatype Candidate = Candidate(name: string, max: real, prev: real)

  function CandidateOf(ws: seq<WorkoutWithSets>, w: WorkoutWithSets, name: string): Candidate {
    Candidate(name, ExerciseMax(Named(w.sets, name)), PreviousMax(ws, w.workout.date, name))
  }

  /** `maxWeight > previousMax && previousMax > 0`. */
  predicate Beats(c: Candidate) {
    c.max > c.prev && c.prev > 0.0
  }

  /** The PR test for exercise `name` in workout `w`. */
  predicate IsPr(ws: seq<WorkoutWithSets>, w: WorkoutWithSets, name: string) {
    Beats(CandidateOf(ws, w, name))
  }

  /**
   * The first workout with a readable weight for an exercise never yields
   * a PR for it: with nothing earlier, the earlier best is 0.
   */
  lemma FirstAppearanceNoPr(ws: seq<WorkoutWithSets>, w: WorkoutWithSets, name: string)
    requires forall i, j :: 0 <= i < |ws| && IsBefore(ws[i].workout.date, w.workout.date)
               && 0 <= j < |ws[i].sets| && ws[i].sets[j].name == name
               ==> ParseDecimal(ws[i].sets[j].weight).None?
    ensures !IsPr(ws, w, name)
  {
    PreviousMaxNone(ws, w.workout.date, name);
  }

  lemma DivBelowOne(a: real, b: real)
    requires b > 0.0
    ensures a / b < 1.0 <==> a < b
  {
    assert a == (a / b) * b;
  }

  /** `((max - prev) / prev * 100).toInt()`: truncated toward zero, and at most Int.MAX_VALUE. */
  function Increase(max: real, prev: real): (p: int)
    requires prev > 0.0 && max > prev
    ensures 0 <= p <= IntMax
    ensures p < IntMax ==> p as real <= (max - prev) / prev * 100.0 < (p + 1) as real
    ensures p == IntMax ==> (max - prev) / prev * 100.0 >= IntMax as real
    ensures p == 0 <==> (max - prev) * 100.0 < prev
  {
    var x := (max - prev) / prev * 100.0;
    assert x == (max - prev) * 100.0 / prev;
    DivBelowOne((max - prev) * 100.0, prev);
    if x >= IntMax as real then IntMax else x.Floor
  }

  /** The entry announcing a PR, labelled `time`. */
  function Announce(c: Candidate, time: string): FeedEntry
    requires Beats(c)
  {
    FeedEntry(Pr(c.name, c.max, Increase(c.max, c.prev)), time)
  }

  /** The entries for the candidates that beat their earlier best, in order. */
  function Announcements(cs: seq<Candidate>, time: string): (r: seq<FeedEntry>)
    ensures |r| <= |cs|
    ensures forall i :: 0 <= i < |r| ==> r[i].achievement.Pr? && r[i].time == time
  {
    if cs == [] then []
    else
      var c := cs[|cs| - 1];
      Announcements(cs[..|cs| - 1], time) + (if Beats(c) then [Announce(c, time)] else [])
  }

  /** Entry `e` announces a PR for exercise `name`. */
  predicate AnnouncesPr(e: FeedEntry, name: string) {
    e.achievement.Pr? && e.achievement.exercise == name
  }

  function PrNamed(name: string): FeedEntry -> bool {
    (e: FeedEntry) => AnnouncesPr(e, name)
  }

  /** Candidate `c` is for exercise `name` and beats its earlier best. */
  function BeatsNamed(name: string): Candidate -> bool {
    (c: Candidate) => c.name == name && Beats(c)
  }

  /** An exercise is announced exactly when one of its candidates beats its earlier best. */
  lemma {:induction false} AnnouncedIff(cs: seq<Candidate>, time: string, name: string)
    ensures Any(Announcements(cs, time), PrNamed(name)) <==> Any(cs, BeatsNamed(name))
  {
    if cs != [] {
      var pre, c := cs[..|cs| - 1], cs[|cs| - 1];
      var tail := if Beats(c) then [Announce(c, time)] else [];
      AnnouncedIff(pre, time, name);
      assert Announcements(cs, time) == Announcements(pre, time) + tail;
      AnyAppend(Announcements(pre, time), tail, PrNamed(name));
      assert cs == pre + [c];
      AnyAppend(pre, [c], BeatsNamed(name));
      AnySingle(c, BeatsNamed(name));
      if Beats(c) {
        AnySingle(Announce(c, time), PrNamed(name));
      }
    }
  }

  /** Every announcement is the entry of a candidate that beats its earlier best. */
  lemma {:induction false} AnnouncedFrom(cs: seq<Candidate>, time: string, i: nat)
    requires i < |Announcements(cs, time)|
    ensures exists j :: 0 <= j < |cs| && Beats(cs[j]) && Announcements(cs, time)[i] == Announce(cs[j], time)
  {
    var pre := cs[..|cs| - 1];
    var c := cs[|cs| - 1];
    var q := Announcements(pre, time);
    assert Announcements(cs, time) == q + (if Beats(c) then [Announce(c, time)] else []);
    if i < |q| {
      AnnouncedFrom(pre, time, i);
      var j :| 0 <= j < |pre| && Beats(pre[j]) && q[i] == Announce(pre[j], time);
      assert pre[j] == cs[j];
    } else {
      assert Announcements(cs, time)[i] == Announce(cs[|pre|], time);
    }
  }

  /** The candidates of workout `w`, for its exercises `names` in order. */
  function Candidates(ws: seq<WorkoutWithSets>, w: WorkoutWithSets, names: seq<string>): (cs: seq<Candidate>)
    ensures |cs| == |names|
    ensures forall i :: 0 <= i < |names| ==> cs[i].name == names[i]
  {
    if names == [] then []
    else Candidates(ws, w, names[..|names| - 1]) + [CandidateOf(ws, w, names[|names| - 1])]
  }

  lemma {:induction false} CandidateAt(ws: seq<WorkoutWithSets>, w: WorkoutWithSets, names: seq<string>, i: nat)
    requires i < |names|
    ensures Candidates(ws, w, names)[i] == CandidateOf(ws, w, names[i])
  {
    var pre := names[..|names| - 1];
    if i < |pre| {
      CandidateAt(ws, w, pre, i);
    }
  }

  /** The PR entries of workout `w`, its exercises in the order of `groupBy`, labelled `time`. */
  function PrEntries(ws: seq<WorkoutWithSets>, w: WorkoutWithSets, time: string): seq<FeedEntry> {
    Announcements(Candidates(ws, w, GroupNames(w.sets)), time)
  }

  lemma AnnouncedByName(cs: seq<Candidate>, names: seq<string>, time: string, name: string, c: Candidate)
    requires |cs| == |names|
    requires forall i :: 0 <= i < |names| ==> cs[i].name == names[i]
    requires forall i :: 0 <= i < |names| && names[i] == name ==> cs[i] == c
    ensures Any(Announcements(cs, time), PrNamed(name)) <==> name in names && Beats(c)
  {
    AnnouncedIff(cs, time, name);
    if Any(cs, BeatsNamed(name)) {
      var j :| 0 <= j < |cs| && BeatsNamed(name)(cs[j]);
      assert names[j] == name;
    }
    if name in names && Beats(c) {
      var j :| 0 <= j < |names| && names[j] == name;
      assert BeatsNamed(name)(cs[j]);
    }
  }

  /**
   * Workout `w` gets a PR entry for an exercise exactly when it has a set of
   * that exercise and passes the PR test for it.
   */
  lemma PrEmitted(ws: seq<WorkoutWithSets>, w: WorkoutWithSets, time: string, name: string)
    ensures Any(PrEntries(ws, w, time), PrNamed(name)) <==> HasExercise(w, name) && IsPr(ws, w, name)
  {
    var names := GroupNames(w.sets);
    var cs := Candidates(ws, w, names);
    forall i | 0 <= i < |names| && names[i] == name
      ensures cs[i] == CandidateOf(ws, w, name)
    {
      CandidateAt(ws, w, names, i);
    }
    AnnouncedByName(cs, names, time, name, CandidateOf(ws, w, name));
    GroupNamesIn(w.sets, name);
    assert PrEntries(ws, w, time) == Announcements(cs, time);
    assert IsPr(ws, w, name) == Beats(CandidateOf(ws, w, name));
  }

  // ---------------------------------------------------------------------------
  // checkWorkoutStreak

  /** `workouts.map { it.workout.date }`. */
  function Dates(ws: seq<WorkoutWithSets>): (r: seq<DateTime>)
    ensures |r| == |ws|
    ensures forall i :: 0 <= i < |ws| ==> r[i] == ws[i].workout.date
  {
    if ws == [] then [] else Dates(ws[..|ws| - 1]) + [ws[|ws| - 1].workout.date]
  }

  /** `.sorted()`: oldest first. */
  function SortedDates(ws: seq<WorkoutWithSets>): (r: seq<DateTime>)
    ensures |r| == |ws|
  {
    SortBy(Dates(ws), Timestamp)
  }

  /** `DAYS.between` of each adjacent pair of dates: `r[i]` is the step from `ds[i]` to `ds[i + 1]`. */
  function DayGaps(ds: seq<DateTime>): (r: seq<int>)
    ensures |r| == if ds == [] then 0 else |ds| - 1
    ensures forall i :: 0 <= i < |r| ==> r[i] == DaysBetween(ds[i], ds[i + 1])
  {
    if |ds| <= 1 then [] else DayGaps(ds[..|ds| - 1]) + [DaysBetween(ds[|ds| - 2], ds[|ds| - 1])]
  }

  /**
   * The run of one-day steps that ends at date `i`, counted in dates: the
   * loop's `currentStreak` once it has looked at date `i`.
   */
  function Run(g: seq<int>, i: nat): (n: nat)
    requires i <= |g|
    ensures 1 <= n <= i + 1
  {
    if i == 0 then 1
    else if g[i - 1] == 1 then Run(g, i - 1) + 1
    else 1
  }

  /** The longest run among the first `k` dates: the loop's `maxStreak`. */
  function LongestRun(g: seq<int>, k: nat): (n: nat)
    requires 1 <= k <= |g| + 1
    ensures 1 <= n <= k
    ensures forall i :: 0 <= i < k ==> Run(g, i) <= n
  {
    if k == 1 then 1
    else
      var m := LongestRun(g, k - 1);
      var r := Run(g, k - 1);
      if r > m then r else m
  }

  lemma {:induction false} LongestRunAttained(g: seq<int>, k: nat)
    requires 1 <= k <= |g| + 1
    ensures exists i :: 0 <= i < k && Run(g, i) == LongestRun(g, k)
  {
    if k == 1 {
      assert Run(g, 0) == 1;
    } else if Run(g, k - 1) <= LongestRun(g, k - 1) {
      LongestRunAttained(g, k - 1);
    }
  }

  /**
   * A run is a maximal chain of adjacent dates exactly one `DAYS.between`
   * apart: every gap inside it is one day, and the gap into its first date
   * is not.
   */
  lemma {:induction false} RunIsChain(g: seq<int>, i: nat)
    requires i <= |g|
    ensures forall j :: i + 1 - Run(g, i) <= j < i ==> g[j] == 1
    ensures i + 1 - Run(g, i) > 0 ==> g[i - Run(g, i)] != 1
  {
    if i > 0 && g[i - 1] == 1 {
      RunIsChain(g, i - 1);
    }
  }

  /** Two workouts less than 24 hours apart (`DAYS.between` is 0) end a run. */
  lemma SameDayResets(ds: seq<DateTime>, i: nat)
    requires 0 < i < |ds|
    requires 0 <= Timestamp(ds[i]) - Timestamp(ds[i - 1]) < SecondsPerDay
    ensures Run(DayGaps(ds), i) == 1
  {
    assert DayGaps(ds)[i - 1] == DaysBetween(ds[i - 1], ds[i]) == 0;
  }

  /** The streak entry, or nothing: only for a run of at least five, labelled with the latest date. */
  function StreakEntry(ws: seq<WorkoutWithSets>, now: DateTime): Option<FeedEntry> {
    var ds := SortedDates(ws);
    if ds == [] then None
    else
      var longest := LongestRun(DayGaps(ds), |ds|);
      if longest >= 5 then Some(FeedEntry(Streak(longest), TimeAgo(ds[|ds| - 1], now))) else None
  }

  /** The last sorted date is a workout date no workout is after. */
  lemma LatestDate(ws: seq<WorkoutWithSets>)
    requires ws != []
    ensures SortedDates(ws)[|ws| - 1] in Dates(ws)
    ensures forall i :: 0 <= i < |ws| ==> !IsBefore(SortedDates(ws)[|ws| - 1], ws[i].workout.date)
  {
    var dates := Dates(ws);
    var last := SortedDates(ws)[|ws| - 1];
    SortByLast(dates, Timestamp, 0);
    forall i | 0 <= i < |ws|
      ensures !IsBefore(last, ws[i].workout.date)
    {
      SortByLast(dates, Timestamp, i);
      TimestampOrder(last, dates[i]);
    }
  }

  /** The gap the loop computes at `i` is the one `DayGaps` records. */
  lemma GapAt(ds: seq<DateTime>, i: nat)
    requires 0 < i < |ds|
    ensures DayGaps(ds)[i - 1] == DaysBetween(ds[i - 1], ds[i])
  {
  }

  /**
   * The loop of `checkWorkoutStreak` over the sorted dates: walks adjacent
   * pairs, keeping the current and the longest run of one-day steps.
   */
  method LongestStreak(ds: seq<DateTime>) returns (maxStreak: nat)
    requires |ds| > 0
    ensures maxStreak == LongestRun(DayGaps(ds), |ds|)
  {
    ghost var g := DayGaps(ds);
    var currentStreak := 1;
    maxStreak := 1;
    for i := 1 to |ds|
      invariant currentStreak == Run(g, i - 1)
      invariant maxStreak == LongestRun(g, i)
    {
      var daysBetween := DaysBetween(ds[i - 1], ds[i]);
      GapAt(ds, i);
      RunStep(g, i);
      if daysBetween == 1 {
        currentStreak := currentStreak + 1;
        maxStreak := if maxStreak >= currentStreak then maxStreak else currentStreak;
      } else {
        currentStreak := 1;
      }
    }
  }

  /** How the current and the longest run move when one more gap is looked at. */
  lemma RunStep(g: seq<int>, i: nat)
    requires 0 < i <= |g|
    ensures Run(g, i) == if g[i - 1] == 1 then Run(g, i - 1) + 1 else 1
    ensures LongestRun(g, i + 1) == if Run(g, i) > LongestRun(g, i) then Run(g, i) else LongestRun(g, i)
  {
  }

  /** `checkWorkoutStreak`: a streak entry for a run of at least five days, labelled with the latest workout. */
  method CheckWorkoutStreak(ws: seq<WorkoutWithSets>, now: DateTime) returns (r: Option<FeedEntry>)
    ensures r == StreakEntry(ws, now)
  {
    var ds := SortedDates(ws);
    if |ds| == 0 {
      return None;
    }
    var maxStreak := LongestStreak(ds);
    if maxStreak >= 5 {
      r := Some(FeedEntry(Streak(maxStreak), TimeAgo(ds[|ds| - 1], now)));
    } else {
      r := None;
    }
  }

  // ---------------------------------------------------------------------------
  // The collect body: entries for every workout, then the time sort

  /** The streak entry as the list `?.let { newEntries.add(it) }` appends. */
  function StreakList(ws: seq<WorkoutWithSets>, now: DateTime): (r: seq<FeedEntry>)
    ensures |r| <= 1
    ensures forall i :: 0 <= i < |r| ==> IsStreak(r[i])
  {
    match StreakEntry(ws, now)
    case None => []
    case Some(e) => [e]
  }

  /** What one pass of the outer loop appends for workout `w`: its PRs, then the streak entry. */
  function WorkoutEntries(ws: seq<WorkoutWithSets>, w: WorkoutWithSets, now: DateTime): seq<FeedEntry> {
    PrEntries(ws, w, TimeAgo(w.workout.date, now)) + StreakList(ws, now)
  }

  /** The outer loop's body as a function of the workout it visits. */
  function EntriesFor(ws: seq<WorkoutWithSets>, now: DateTime): WorkoutWithSets -> seq<FeedEntry> {
    (w: WorkoutWithSets) => WorkoutEntries(ws, w, now)
  }

  /** `newEntries` once the outer loop has visited every workout. */
  function Generated(ws: seq<WorkoutWithSets>, now: DateTime): seq<FeedEntry> {
    FlatMap(ws, EntriesFor(ws, now))
  }

  lemma NoStreakInPrs(ws: seq<WorkoutWithSets>, w: WorkoutWithSets, time: string)
    ensures Filter(PrEntries(ws, w, time), IsStreak) == []
  {
    var r := Filter(PrEntries(ws, w, time), IsStreak);
    if r != [] {
      FilterIn(PrEntries(ws, w, time), IsStreak, r[0]);
    }
  }

  /** Each workout contributes the streak entry once, or not at all. */
  lemma WorkoutStreakCount(ws: seq<WorkoutWithSets>, w: WorkoutWithSets, now: DateTime)
    ensures Count(WorkoutEntries(ws, w, now), IsStreak) == if StreakEntry(ws, now).Some? then 1 else 0
  {
    var time := TimeAgo(w.workout.date, now);
    var st := StreakList(ws, now);
    FilterAppend(PrEntries(ws, w, time), st, IsStreak);
    NoStreakInPrs(ws, w, time);
    if st != [] {
      assert st[..0] == [];
      assert Filter(st, IsStreak) == st;
    }
  }

  /**
   * The streak check runs once per workout over all workouts, so the feed holds
   * one copy of the streak entry per workout, or none.
   */
  lemma StreakCount(ws: seq<WorkoutWithSets>, now: DateTime)
    ensures Count(Generated(ws, now), IsStreak) == if StreakEntry(ws, now).Some? then |ws| else 0
  {
    var c := if StreakEntry(ws, now).Some? then 1 else 0;
    forall i | 0 <= i < |ws|
      ensures Count(EntriesFor(ws, now)(ws[i]), IsStreak) == c
    {
      WorkoutStreakCount(ws, ws[i], now);
    }
    FlatMapCount(ws, EntriesFor(ws, now), IsStreak, c);
  }

  lemma WorkoutPrs(ws: seq<WorkoutWithSets>, w: WorkoutWithSets, now: DateTime, name: string)
    ensures Any(WorkoutEntries(ws, w, now), PrNamed(name)) <==> HasExercise(w, name) && IsPr(ws, w, name)
  {
    var time := TimeAgo(w.workout.date, now);
    var prs := PrEntries(ws, w, time);
    var st := StreakList(ws, now);
    PrEmitted(ws, w, time, name);
    assert WorkoutEntries(ws, w, now) == prs + st;
    AnyAppend(prs, st, PrNamed(name));
  }

  /**
   * The feed announces a PR for an exercise exactly when some workout has a
   * set of it and beats the best readable weight of the workouts dated
   * before it.
   */
  lemma PrInFeed(ws: seq<WorkoutWithSets>, now: DateTime, name: string)
    ensures Any(Generated(ws, now), PrNamed(name))
        <==> exists n :: 0 <= n < |ws| && HasExercise(ws[n], name) && IsPr(ws, ws[n], name)
  {
    var f := EntriesFor(ws, now);
    var q := PrNamed(name);
    FlatMapAny(ws, f, q);
    forall n | 0 <= n < |ws|
      ensures Any(f(ws[n]), q) <==> HasExercise(ws[n], name) && IsPr(ws, ws[n], name)
    {
      WorkoutPrs(ws, ws[n], now, name);
    }
  }

  /** `sortedByDescending` on the instant parsed back from an entry's label, as an ascending key. */
  function FeedKey(now: DateTime): FeedEntry -> int {
    (e: FeedEntry) => -SortKey(e.time, now)
  }

  /** The list the feed publishes. */
  function Published(ws: seq<WorkoutWithSets>, now: DateTime): seq<FeedEntry> {
    SortBy(Generated(ws, now), FeedKey(now))
  }

  /**
   * The feed is the generated entries, newest label first, and entries whose
   * labels parse to the same instant keep their generated order.
   */
  lemma PublishedOrder(ws: seq<WorkoutWithSets>, now: DateTime, k: int)
    ensures multiset(Published(ws, now)) == multiset(Generated(ws, now))
    ensures forall i, j :: 0 <= i < j < |Published(ws, now)| ==>
              SortKey(Published(ws, now)[i].time, now) >= SortKey(Published(ws, now)[j].time, now)
    ensures KeepKey(Published(ws, now), FeedKey(now), k) == KeepKey(Generated(ws, now), FeedKey(now), k)
  {
    var r := Published(ws, now);
    assert SortedBy(r, FeedKey(now));
    forall i, j | 0 <= i < j < |r|
      ensures SortKey(r[i].time, now) >= SortKey(r[j].time, now)
    {
      assert FeedKey(now)(r[i]) <= FeedKey(now)(r[j]);
    }
    SortByStable(Generated(ws, now), FeedKey(now), k);
  }

  /** One pass of the inner loop appends the announcement of the group it visits, if any. */
  lemma GroupStep(ws: seq<WorkoutWithSets>, w: WorkoutWithSets, names: seq<string>, j: nat, time: string)
    requires j < |names|
    ensures Announcements(Candidates(ws, w, names[..j + 1]), time)
         == Announcements(Candidates(ws, w, names[..j]), time)
            + (if Beats(CandidateOf(ws, w, names[j])) then [Announce(CandidateOf(ws, w, names[j]), time)] else [])
  {
    assert names[..j + 1][..j] == names[..j];
    var cs := Candidates(ws, w, names[..j + 1]);
    assert cs[..j] == Candidates(ws, w, names[..j]);
  }

  /** The inner loop: one pass over the exercise groups of `currentWorkout`. */
  method PrPass(ws: seq<WorkoutWithSets>, currentWorkout: WorkoutWithSets, time: string) returns (entries: seq<FeedEntry>)
    ensures entries == PrEntries(ws, currentWorkout, time)
  {
    var exerciseNames := GroupNames(currentWorkout.sets);
    entries := [];
    for j := 0 to |exerciseNames|
      invariant entries == Announcements(Candidates(ws, currentWorkout, exerciseNames[..j]), time)
    {
      var exerciseName := exerciseNames[j];
      var maxWeight := ExerciseMax(Named(currentWorkout.sets, exerciseName));
      var previousMax := PreviousMax(ws, currentWorkout.workout.date, exerciseName);
      GroupStep(ws, currentWorkout, exerciseNames, j, time);
      assert CandidateOf(ws, currentWorkout, exerciseName) == Candidate(exerciseName, maxWeight, previousMax);
      if maxWeight > previousMax && previousMax > 0.0 {
        var increase := Increase(maxWeight, previousMax);
        entries := entries + [FeedEntry(Pr(exerciseName, maxWeight, increase), time)];
      }
    }
    assert exerciseNames[..|exerciseNames|] == exerciseNames;
  }

  /** The outer loop of the collect body. */
  method GenerateEntries(ws: seq<WorkoutWithSets>, now: DateTime) returns (newEntries: seq<FeedEntry>)
    ensures newEntries == Generated(ws, now)
  {
    newEntries := [];
    for k := 0 to |ws|
      invariant newEntries == FlatMap(ws[..k], EntriesFor(ws, now))
    {
      var currentWorkout := ws[k];
      var prs := PrPass(ws, currentWorkout, TimeAgo(currentWorkout.workout.date, now));
      var streak := CheckWorkoutStreak(ws, now);
      StreakListOf(ws, now, streak);
      WorkoutStep(ws, now, k, newEntries, prs, StreakList(ws, now));
      newEntries := newEntries + prs;
      if streak.Some? {
        newEntries := newEntries + [streak.value];
      }
    }
    assert ws[..|ws|] == ws;
  }

  lemma StreakListOf(ws: seq<WorkoutWithSets>, now: DateTime, streak: Option<FeedEntry>)
    requires streak == StreakEntry(ws, now)
    ensures StreakList(ws, now) == if streak.Some? then [streak.value] else []
  {
  }

  /** One pass of the outer loop extends the entries by the visited workout's entries. */
  lemma WorkoutStep(ws: seq<WorkoutWithSets>, now: DateTime, k: nat, before: seq<FeedEntry>,
                    prs: seq<FeedEntry>, st: seq<FeedEntry>)
    requires k < |ws| && before == FlatMap(ws[..k], EntriesFor(ws, now))
    requires prs == PrEntries(ws, ws[k], TimeAgo(ws[k].workout.date, now))
    requires st == StreakList(ws, now)
    ensures before + prs + st == FlatMap(ws[..k + 1], EntriesFor(ws, now))
  {
    var f := EntriesFor(ws, now);
    assert f(ws[k]) == WorkoutEntries(ws, ws[k], now) == prs + st;
    FlatMapPrefix(ws, k, f);
    AppendAssoc(before, prs, st);
  }

  /** The feed screen's view-model: the published entries. */
  class FeedViewModel {
    var feedEntries: seq<FeedEntry>

    /** `_feedEntries` starts as `emptyList()`. */
    constructor()
      ensures feedEntries == []
    {
      feedEntries := [];
    }

    /** One emission of `allWorkouts`: regenerates the feed and sorts it newest first. */
    method Collect(ws: seq<WorkoutWithSets>, now: DateTime)
      modifies this
      ensures feedEntries == Published(ws, now)
    {
      var newEntries := GenerateEntries(ws, now);
      feedEntries := SortBy(newEntries, FeedKey(now));
    }
  }
}
