/**
 * The history screen (HistoryScreen): the days of the viewed month that
 * have workouts, the workouts of the selected day and their per-exercise
 * cards, navigation between months, and the month grid with its
 * Sunday-first layout and the look of every day cell.
 */
module History {
  import opened Wrappers
  import opened Calendar
  import opened Text
  import opened Seqs
  import opened Models

  predicate InMonth(d: DateTime, year: int, month: int) {
    d.date.year == year && d.date.month == month
  }

  // ---------------------------------------------------------------------------
  // workoutDates

  /** `map { it.workout.date.toLocalDate() }.filter { in year/month }.map { it.dayOfMonth }`. */
  function MonthDays(ws: seq<WorkoutWithSets>, year: int, month: int): seq<int> {
    if ws == [] then []
    else
      var d := ws[|ws| - 1].workout.date;
      MonthDays(ws[..|ws| - 1], year, month) + (if InMonth(d, year, month) then [d.date.day] else [])
  }

  lemma {:induction false} MonthDaysIn(ws: seq<WorkoutWithSets>, year: int, month: int, day: int)
    ensures day in MonthDays(ws, year, month)
        <==> exists i :: 0 <= i < |ws| && InMonth(ws[i].workout.date, year, month) && ws[i].workout.date.date.day == day
  {
    if ws != [] {
      var pre := ws[..|ws| - 1];
      MonthDaysIn(pre, year, month, day);
      assert forall i :: 0 <= i < |pre| ==> pre[i] == ws[i];
    }
  }

  /** `workoutDates`: `.distinct()` of those days. */
  function WorkoutDates(ws: seq<WorkoutWithSets>, year: int, month: int): (r: seq<int>)
    ensures Distinct(r)
  {
    Dedup(MonthDays(ws, year, month))
  }

  /** workoutDates holds exactly the days of the month with a workout, each a day of the month. */
  lemma WorkoutDatesIn(ws: seq<WorkoutWithSets>, year: int, month: int, day: int)
    ensures day in WorkoutDates(ws, year, month)
        <==> exists i :: 0 <= i < |ws| && InMonth(ws[i].workout.date, year, month) && ws[i].workout.date.date.day == day
    ensures day in WorkoutDates(ws, year, month) ==> 1 <= day <= 31
  {
    DedupIn(MonthDays(ws, year, month), day);
    MonthDaysIn(ws, year, month, day);
  }

  // ---------------------------------------------------------------------------
  // selectedDateWorkouts and workoutDisplayData

  function OnDay(year: int, month: int, day: int): WorkoutWithSets -> bool {
    (w: WorkoutWithSets) => InMonth(w.workout.date, year, month) && w.workout.date.date.day == day
  }

  /** `selectedDateWorkouts`. */
  function SelectedDateWorkouts(ws: seq<WorkoutWithSets>, year: int, month: int, day: int): seq<WorkoutWithSets> {
    Filter(ws, OnDay(year, month, day))
  }

  /** The workouts of the selected day, and no others. */
  lemma SelectedDateWorkoutsIn(ws: seq<WorkoutWithSets>, year: int, month: int, day: int, w: WorkoutWithSets)
    ensures w in SelectedDateWorkouts(ws, year, month, day)
        <==> w in ws && w.workout.date.date == LocalDate(year, month, day)
  {
    FilterIn(ws, OnDay(year, month, day), w);
  }

  /** A workout card. */
  datatype WorkoutData = WorkoutData(exerciseName: string, sets: int, reps: int, weight: real)

  /** The card of one `groupBy { it.name }` group: its size, and reps and weight of its first set. */
  function CardOf(sets: seq<SetEntity>, name: string): WorkoutData {
    var group := Named(sets, name);
    if group == [] then WorkoutData(name, 0, 0, 0.0)
    else WorkoutData(name, |group|, ParseInt(group[0].reps).GetOr(0), ParseDecimal(group[0].weight).GetOr(0.0))
  }

  /**
   * A card counts the sets of its exercise and shows reps and weight of the
   * first of them, 0 for what does not read as a number.
   */
  lemma CardOfFirstSet(sets: seq<SetEntity>, name: string, k: nat)
    requires k < |sets| && sets[k].name == name
    requires forall j :: 0 <= j < k ==> sets[j].name != name
    ensures CardOf(sets, name)
         == WorkoutData(name, |Named(sets, name)|, ParseInt(sets[k].reps).GetOr(0), ParseDecimal(sets[k].weight).GetOr(0.0))
    ensures forall x :: x in Named(sets, name) <==> x in sets && x.name == name
  {
    NamedHead(sets, name, k);
    forall x ensures x in Named(sets, name) <==> x in sets && x.name == name {
      NamedIn(sets, name, x);
    }
  }

  /** The cards of the groups `names`, in order. */
  function CardsOver(sets: seq<SetEntity>, names: seq<string>): (r: seq<WorkoutData>)
    ensures |r| == |names|
    ensures forall i :: 0 <= i < |names| ==> r[i] == CardOf(sets, names[i])
  {
    if names == [] then [] else CardsOver(sets, names[..|names| - 1]) + [CardOf(sets, names[|names| - 1])]
  }

  /** `sets.groupBy { it.name }.map { … }`: one card per exercise, in order of first appearance. */
  function Cards(w: WorkoutWithSets): seq<WorkoutData> {
    CardsOver(w.sets, GroupNames(w.sets))
  }

  function CardsFor(): WorkoutWithSets -> seq<WorkoutData> {
    (w: WorkoutWithSets) => Cards(w)
  }

  /** `workoutDisplayData`. */
  function WorkoutDisplayData(ws: seq<WorkoutWithSets>, year: int, month: int, day: int): seq<WorkoutData> {
    FlatMap(SelectedDateWorkouts(ws, year, month, day), CardsFor())
  }

  function Shows(name: string): WorkoutData -> bool {
    (c: WorkoutData) => c.exerciseName == name
  }

  /** A workout has a card for exactly the exercises of its sets, and one each. */
  lemma CardsOfWorkout(w: WorkoutWithSets, name: string)
    ensures Any(Cards(w), Shows(name)) <==> HasExercise(w, name)
    ensures forall i, j :: 0 <= i < j < |Cards(w)| ==> Cards(w)[i].exerciseName != Cards(w)[j].exerciseName
  {
    var names := GroupNames(w.sets);
    var cs := Cards(w);
    GroupNamesIn(w.sets, name);
    if Any(cs, Shows(name)) {
      var i :| 0 <= i < |cs| && Shows(name)(cs[i]);
      assert names[i] == name;
    }
    if name in names {
      var i :| 0 <= i < |names| && names[i] == name;
      assert Shows(name)(cs[i]);
    }
  }

  /** The display shows an exercise exactly when some workout of the selected day has a set of it. */
  lemma DisplayedExercises(ws: seq<WorkoutWithSets>, year: int, month: int, day: int, name: string)
    ensures Any(WorkoutDisplayData(ws, year, month, day), Shows(name))
        <==> exists n :: 0 <= n < |SelectedDateWorkouts(ws, year, month, day)|
                         && HasExercise(SelectedDateWorkouts(ws, year, month, day)[n], name)
  {
    var sel := SelectedDateWorkouts(ws, year, month, day);
    FlatMapAny(sel, CardsFor(), Shows(name));
    forall n | 0 <= n < |sel|
      ensures Any(CardsFor()(sel[n]), Shows(name)) <==> HasExercise(sel[n], name)
    {
      CardsOfWorkout(sel[n], name);
    }
  }

  // ---------------------------------------------------------------------------
  // Month navigation

  /** The "<" button: January goes to December of the year before. */
  function PrevMonth(year: int, month: int): (int, int) {
    if month == 1 then (year - 1, 12) else (year, month - 1)
  }

  /** The ">" button: December goes to January of the year after. */
  function NextMonth(year: int, month: int): (int, int) {
    if month == 12 then (year + 1, 1) else (year, month + 1)
  }

  /** Both buttons keep the month in 1..12, move by one calendar month, and undo each other. */
  lemma MonthNavigation(year: int, month: int)
    requires 1 <= month <= 12
    ensures 1 <= PrevMonth(year, month).1 <= 12 && 1 <= NextMonth(year, month).1 <= 12
    ensures PrevMonth(year, month).0 * 12 + PrevMonth(year, month).1 == year * 12 + month - 1
    ensures NextMonth(year, month).0 * 12 + NextMonth(year, month).1 == year * 12 + month + 1
    ensures NextMonth(PrevMonth(year, month).0, PrevMonth(year, month).1) == (year, month)
    ensures PrevMonth(NextMonth(year, month).0, NextMonth(year, month).1) == (year, month)
  {
  }

  /** `currentDay`: today's day of the month when today's month is on view, else -1. */
  function CurrentDay(year: int, month: int, today: Date): int {
    if year == today.year && month == today.month then today.day else -1
  }

  /** A day cell is marked as today exactly when it is today's date. */
  lemma TodayCell(year: int, month: int, today: Date, day: int)
    requires day >= 1
    ensures day == CurrentDay(year, month, today) <==> LocalDate(year, month, day) == today
  {
  }

  // ---------------------------------------------------------------------------
  // The month grid

  /** A grid cell: a blank before the 1st, or a day with its flags. */
  datatype Cell = Blank | DayCell(day: int, isWorkoutDay: bool, isSelected: bool, currentDay: bool)

  /** `LocalDate.of(year, month, 1).dayOfWeek.value % 7`: Sunday 0, Monday 1, …, Saturday 6. */
  function FirstDayOfWeek(year: int, month: int): (n: int)
    requires 1 <= month <= 12
    ensures 0 <= n <= 6
  {
    DayOfWeek(LocalDate(year, month, 1)) % 7
  }

  /** The cells of `CalendarView`, in grid order (seven per row). */
  method CalendarView(year: int, month: int, workoutDates: seq<int>, selectedDay: int, currentDay: int)
    returns (cells: seq<Cell>)
    requires 1 <= month <= 12
    ensures |cells| == FirstDayOfWeek(year, month) + LengthOfMonth(year, month)
    ensures forall i :: 0 <= i < FirstDayOfWeek(year, month) ==> cells[i] == Blank
    ensures forall day :: 1 <= day <= LengthOfMonth(year, month) ==>
              cells[FirstDayOfWeek(year, month) + day - 1]
              == DayCell(day, day in workoutDates, day == selectedDay, day == currentDay)
  {
    var daysInMonth := LengthOfMonth(year, month);
    var firstDayOfWeek := DayOfWeek(LocalDate(year, month, 1)) % 7;
    cells := [];
    for i := 0 to firstDayOfWeek
      invariant |cells| == i
      invariant forall j :: 0 <= j < i ==> cells[j] == Blank
    {
      cells := cells + [Blank];
    }
    for day := 1 to daysInMonth + 1
      invariant |cells| == firstDayOfWeek + day - 1
      invariant forall j :: 0 <= j < firstDayOfWeek ==> cells[j] == Blank
      invariant forall d :: 1 <= d < day ==>
                  cells[firstDayOfWeek + d - 1] == DayCell(d, d in workoutDates, d == selectedDay, d == currentDay)
    {
      cells := cells + [DayCell(day, day in workoutDates, day == selectedDay, day == currentDay)];
    }
  }

  lemma Mod7Shift(a: int, d: int)
    ensures (a % 7 + d) % 7 == (a + d) % 7
  {
    var q := a / 7;
    assert a == 7 * q + a % 7;
    assert a + d == 7 * q + (a % 7 + d);
  }

  /** Every day lands in the column of its own weekday under the Sun … Sat header. */
  lemma WeekdayColumn(year: int, month: int, day: int)
    requires 1 <= month <= 12 && 1 <= day <= LengthOfMonth(year, month)
    ensures (FirstDayOfWeek(year, month) + day - 1) % 7 == DayOfWeek(LocalDate(year, month, day)) % 7
  {
    var e := EpochDay(LocalDate(year, month, 1));
    assert EpochDay(LocalDate(year, month, day)) == e + day - 1;
    Mod7Shift(e + 3, 1);
    Mod7Shift((e + 3) % 7 + 1, day - 1);
    Mod7Shift(e + 4, day - 1);
    Mod7Shift(e + day + 2, 1);
  }

  /** The circle behind a day, by ARGB colour. */
  datatype Background = Background(argb: int)

  const SelectedColor: Background := Background(0xFF003D6E)
  const WorkoutColor: Background := Background(0x8A7CA8FF)
  const TodayColor: Background := Background(0xFF969696)
  const Transparent: Background := Background(0x00000000)

  /** `DayCell`'s background: selected before workout day before today. */
  function BackgroundOf(isWorkoutDay: bool, isSelected: bool, currentDay: bool): Background {
    if isSelected then SelectedColor
    else if isWorkoutDay then WorkoutColor
    else if currentDay then TodayColor
    else Transparent
  }

  /** Each colour stands for exactly one case of the priority. */
  lemma BackgroundPriority(isWorkoutDay: bool, isSelected: bool, currentDay: bool)
    ensures BackgroundOf(isWorkoutDay, isSelected, currentDay) == SelectedColor <==> isSelected
    ensures BackgroundOf(isWorkoutDay, isSelected, currentDay) == WorkoutColor <==> !isSelected && isWorkoutDay
    ensures BackgroundOf(isWorkoutDay, isSelected, currentDay) == TodayColor
        <==> !isSelected && !isWorkoutDay && currentDay
    ensures BackgroundOf(isWorkoutDay, isSelected, currentDay) == Transparent
        <==> !isSelected && !isWorkoutDay && !currentDay
  {
  }

  /** The day number is white on the selected day, black elsewhere; today's is bold. */
  datatype TextStyle = TextStyle(white: bool, bold: bool)

  function TextStyleOf(isSelected: bool, currentDay: bool): TextStyle {
    TextStyle(isSelected, currentDay)
  }

  // ---------------------------------------------------------------------------
  // The screen's state

  class HistoryScreen {
    var selectedDay: int
    var selectedMonth: int
    var selectedYear: int

    /** The viewed month is a calendar month. */
    predicate Valid()
      reads this
    {
      1 <= selectedMonth <= 12
    }

    /** The state starts on today's date. */
    constructor(today: Date)
      ensures Valid()
      ensures selectedDay == today.day && selectedMonth == today.month && selectedYear == today.year
    {
      selectedDay, selectedMonth, selectedYear := today.day, today.month, today.year;
    }

    /** The "<" button. */
    method PreviousMonthClicked()
      requires Valid()
      modifies this
      ensures Valid()
      ensures (selectedYear, selectedMonth) == PrevMonth(old(selectedYear), old(selectedMonth))
      ensures selectedDay == 1
    {
      if selectedMonth == 1 {
        selectedMonth := 12;
        selectedYear := selectedYear - 1;
      } else {
        selectedMonth := selectedMonth - 1;
      }
      selectedDay := 1;
    }

    /** The ">" button. */
    method NextMonthClicked()
      requires Valid()
      modifies this
      ensures Valid()
      ensures (selectedYear, selectedMonth) == NextMonth(old(selectedYear), old(selectedMonth))
      ensures selectedDay == 1
    {
      if selectedMonth == 12 {
        selectedMonth := 1;
        selectedYear := selectedYear + 1;
      } else {
        selectedMonth := selectedMonth + 1;
      }
      selectedDay := 1;
    }

    /** `onDateClick`. */
    method DateClicked(day: int)
      requires Valid()
      modifies this
      ensures Valid()
      ensures selectedDay == day
      ensures selectedMonth == old(selectedMonth) && selectedYear == old(selectedYear)
    {
      selectedDay := day;
    }

    /** The grid for the viewed month and the workouts of `ws`, given today's date. */
    method Grid(ws: seq<WorkoutWithSets>, today: Date) returns (cells: seq<Cell>)
      requires Valid()
      ensures |cells| == FirstDayOfWeek(selectedYear, selectedMonth) + LengthOfMonth(selectedYear, selectedMonth)
      ensures forall day :: 1 <= day <= LengthOfMonth(selectedYear, selectedMonth) ==>
                cells[FirstDayOfWeek(selectedYear, selectedMonth) + day - 1]
                == DayCell(day, day in WorkoutDates(ws, selectedYear, selectedMonth),
                           day == selectedDay, LocalDate(selectedYear, selectedMonth, day) == today)
    {
      var currentDay := CurrentDay(selectedYear, selectedMonth, today);
      cells := CalendarView(selectedYear, selectedMonth, WorkoutDates(ws, selectedYear, selectedMonth),
                            selectedDay, currentDay);
      forall day | 1 <= day <= LengthOfMonth(selectedYear, selectedMonth)
        ensures (day == currentDay) == (LocalDate(selectedYear, selectedMonth, day) == today)
      {
        TodayCell(selectedYear, selectedMonth, today, day);
      }
    }
  }
}
