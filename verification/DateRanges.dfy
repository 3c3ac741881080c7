/** The usage page's date ranges: the presets, the month grid and the calendar popover. Dates are day numbers; every
    instant is a whole number of milliseconds. */
module DateRanges {
  import opened Prelude
  import opened Text
  import opened Calendar

  const MS_PER_DAY: int := 86400000
  const MAX_RANGE_DAYS: int := 366

  datatype Range = Range(start: int, end: int)

  // ---------------------------------------------------------------- presets

  /** A day taken apart and put together again. */
  function Rebuilt(n: int): int {
    var d := DateOf(n);
    DateUtc(d.year, d.month - 1, d.day)
  }

  /** The UTC midnight of an instant, rebuilt from its parts. */
  function UtcMidnight(ms: int): int { Rebuilt(ms / MS_PER_DAY) }

  function InclusiveSpan(r: Range): int {
    r.end - r.start + 1
  }

  function ClampRange(r: Range): Range {
    if InclusiveSpan(r) > MAX_RANGE_DAYS then Range(r.end - (MAX_RANGE_DAYS - 1), r.end) else r
  }

  function RollingDays(n: int, today: int): Range {
    Range(today - (n - 1), today)
  }

  function MonthStart(n: int): int {
    var d := DateOf(n);
    DateUtc(d.year, d.month - 1, 1)
  }

  function LastMonth(today: int): Range {
    var lastOfPrevious := MonthStart(today) - 1;
    Range(MonthStart(lastOfPrevious), lastOfPrevious)
  }

  /** The range of a preset before clamping. */
  function PresetRange(preset: string, today: int): Range {
    if preset == "7d" then RollingDays(7, today)
    else if preset == "30d" then RollingDays(30, today)
    else if preset == "90d" then RollingDays(90, today)
    else if preset == "This month" then Range(MonthStart(today), today)
    else if preset == "Last month" then LastMonth(today)
    else if preset == "This year" then Range(DateUtc(DateOf(today).year, 0, 1), today)
    else RollingDays(30, today)
  }

  function PresetToRange(preset: string, ms: int): Range {
    ClampRange(PresetRange(preset, UtcMidnight(ms)))
  }

  /** The days JavaScript keeps when it rebuilds a date from its parts: outside the years 0 to 99 all of them. */
  lemma DateUtcOfParts(n: int)
    ensures var d := DateOf(n); !(0 <= d.year <= 99) ==> DateUtc(d.year, d.month - 1, d.day) == n
  {
  }

  lemma YearOfALateDay(d: Date, first: int)
    requires 1 <= d.month <= 12 && 1 <= d.day && first <= d.year
    ensures first <= DateOf(DayNumber(d)).year
  {
    StartsAreNonnegative(d.year, d.month);
    YearsGrow(first, d.year);
    NotBefore(DateOf(DayNumber(d)), first);
  }

  lemma NotBefore(e: Date, first: int)
    requires ValidDate(e) && DayNumber(e) >= YearStart(first)
    ensures first <= e.year
  {
    DayLiesInItsYear(e);
    if e.year < first {
      YearsGrow(e.year + 1, first);
    }
  }

  lemma DayLiesInItsYear(d: Date)
    requires ValidDate(d)
    ensures YearStart(d.year) <= DayNumber(d) < YearStart(d.year + 1)
  {
    YearLength(d.year);
    StartsAreNonnegative(d.year, d.month);
    MonthsGrow(d.year, d.month, 13);
  }

  /** A midnight never lies in the years 0 to 99. */
  lemma MidnightsAreLate(ms: int)
    ensures !(0 <= DateOf(UtcMidnight(ms)).year <= 99)
  {
    var n := ms / MS_PER_DAY;
    RebuiltDayIsLate(n);
  }

  lemma RebuiltDayIsLate(n: int)
    ensures !(0 <= DateOf(Rebuilt(n)).year <= 99)
  {
    var d := DateOf(n);
    if 0 <= d.year <= 99 {
      var shown := Date(1900 + d.year, d.month, d.day);
      assert Rebuilt(n) == DayNumber(shown);
      YearOfALateDay(shown, 1900);
    } else {
      DateUtcOfParts(n);
    }
  }

  lemma MonthStartFacts(n: int)
    requires !(0 <= DateOf(n).year <= 99)
    ensures var d := DateOf(n);
            && MonthStart(n) == DayNumber(Date(d.year, d.month, 1))
            && MonthStart(n) <= n < MonthStart(n) + DaysInMonth(d.year, d.month)
  {
  }

  function LastOfPreviousMonth(d: Date): Date
    requires ValidDate(d)
  {
    if d.month > 1 then Date(d.year, d.month - 1, DaysInMonth(d.year, d.month - 1)) else Date(d.year - 1, 12, 31)
  }

  lemma TomorrowStartsTheMonth(d: Date)
    requires ValidDate(d)
    ensures ValidDate(LastOfPreviousMonth(d))
    ensures DayNumber(LastOfPreviousMonth(d)) == DayNumber(Date(d.year, d.month, 1)) - 1
  {
    DayNumberCountsDays(LastOfPreviousMonth(d));
  }

  /** The day before the first of a month is the last of the month before it. */
  lemma DayBeforeMonth(n: int)
    requires !(0 <= DateOf(n).year <= 99)
    ensures DateOf(MonthStart(n) - 1) == LastOfPreviousMonth(DateOf(n))
  {
    TomorrowStartsTheMonth(DateOf(n));
    DateOfInverts(LastOfPreviousMonth(DateOf(n)));
  }

  lemma YearSoFar(n: int)
    ensures var d := DateOf(n); YearStart(d.year) <= n < YearStart(d.year) + 366
  {
    DayLiesInItsYear(DateOf(n));
    YearLength(DateOf(n).year);
  }

  /** In January of the year 100 the month before, December 99, is looked up in 1999. */
  predicate Slips(preset: string, today: int) {
    preset == "Last month" && DateOf(today).year == 100 && DateOf(today).month == 1
  }

  predicate Sound(r: Range) {
    r.start <= r.end < r.start + 366
  }

  lemma MonthToDateIsSound(today: int)
    requires !(0 <= DateOf(today).year <= 99)
    ensures Sound(Range(MonthStart(today), today))
  {
    MonthStartFacts(today);
  }

  lemma YearToDateIsSound(today: int)
    requires !(0 <= DateOf(today).year <= 99)
    ensures Sound(Range(DateUtc(DateOf(today).year, 0, 1), today))
  {
    YearSoFar(today);
  }

  /** Every preset on every instant spans at most 366 days, so clamping changes nothing, and it starts no later than it
      ends: with the single exception that `Slips` names. */
  lemma PresetsAreSound(preset: string, ms: int)
    ensures var today := UtcMidnight(ms);
            var r := PresetToRange(preset, ms);
            && r == PresetRange(preset, today)
            && r.end - r.start + 1 <= 366
            && (r.start <= r.end <==> !Slips(preset, today))
  {
    MidnightsAreLate(ms);
    RawPresetsAreSound(preset, UtcMidnight(ms));
  }

  lemma RawPresetsAreSound(preset: string, today: int)
    requires !(0 <= DateOf(today).year <= 99)
    ensures var r := PresetRange(preset, today);
            InclusiveSpan(r) <= MAX_RANGE_DAYS && (r.start <= r.end <==> !Slips(preset, today))
  {
    if preset == "Last month" {
      LastMonthIsSound(today);
    } else {
      MonthToDateIsSound(today);
      YearToDateIsSound(today);
    }
  }

  lemma LastMonthCoversTheMonth(today: int)
    requires !(0 <= DateOf(today).year <= 99) && !Slips("Last month", today)
    ensures var e := LastOfPreviousMonth(DateOf(today));
            LastMonth(today) == Range(DayNumber(Date(e.year, e.month, 1)), DayNumber(e))
  {
    var e := LastOfPreviousMonth(DateOf(today));
    DayBeforeMonth(today);
    assert DateOf(MonthStart(today) - 1) == e;
    MonthStartFacts(MonthStart(today) - 1);
  }

  lemma LastMonthIsSound(today: int)
    requires !(0 <= DateOf(today).year <= 99)
    ensures var r := LastMonth(today);
            && InclusiveSpan(r) <= MAX_RANGE_DAYS
            && (r.start <= r.end <==> !Slips("Last month", today))
  {
    if Slips("Last month", today) {
      DayBeforeMonth(today);
      LastMonthSlips(MonthStart(today) - 1);
    } else {
      LastMonthCoversTheMonth(today);
    }
  }

  lemma LastMonthSlips(last: int)
    requires DateOf(last) == Date(99, 12, 31)
    ensures last < MonthStart(last)
  {
    DayLiesInItsYear(Date(99, 12, 31));
    YearsGrow(100, 1999);
    StartsAreNonnegative(1999, 12);
    assert MonthStart(last) == DayNumber(Date(1999, 12, 1));
  }

  /** The rolling presets, and whatever is no preset, end today and span 7, 90 or 30 days with today. */
  lemma RollingPresetsEndToday(preset: string, ms: int)
    requires preset !in {"This month", "Last month", "This year"}
    ensures var today := UtcMidnight(ms);
            PresetToRange(preset, ms) ==
              Range(today + 1 - (if preset == "7d" then 7 else if preset == "90d" then 90 else 30), today)
  {
  }

  /** Today is the day that holds the instant, unless its year is one of 0 to 99, which are taken for 1900 to 1999. */
  lemma TodayHoldsTheInstant(ms: int)
    ensures var d := DateOf(ms / MS_PER_DAY);
            if 0 <= d.year <= 99 then UtcMidnight(ms) == DayNumber(Date(1900 + d.year, d.month, 1)) + d.day - 1
            else UtcMidnight(ms) * 86400000 <= ms < (UtcMidnight(ms) + 1) * 86400000
  {
    var d := DateOf(ms / MS_PER_DAY);
    DateUtcOfParts(ms / MS_PER_DAY);
    assert 0 <= d.year <= 99 ==> JsYear(d.year) == 1900 + d.year;
  }

  /** Clamping keeps the end and leaves at most 366 days: all of a shorter range, the last 366 of a longer one. */
  lemma ClampKeepsTheEnd(r: Range)
    ensures var c := ClampRange(r);
            && c.end == r.end && c.end - c.start < 366
            && (r.end - r.start < 366 ==> c == r)
            && (r.end - r.start >= 366 ==> c.end - c.start == 365)
  {
  }

  /** "Last month" is the whole month before today's, "This month" and "This year" start on its first day. */
  lemma MonthPresetsCoverTheirMonths(today: int)
    requires !(0 <= DateOf(today).year <= 99) && !Slips("Last month", today)
    ensures var d := DateOf(today);
            var e := LastOfPreviousMonth(d);
            && PresetRange("This month", today) == Range(DayNumber(Date(d.year, d.month, 1)), today)
            && PresetRange("This year", today) == Range(DayNumber(Date(d.year, 1, 1)), today)
            && PresetRange("Last month", today) == Range(DayNumber(Date(e.year, e.month, 1)), DayNumber(e))
            && PresetRange("Last month", today).end + 1 == PresetRange("This month", today).start
  {
    PresetsByName(today);
    MonthStartFacts(today);
    LastMonthCoversTheMonth(today);
    TomorrowStartsTheMonth(DateOf(today));
  }

  lemma PresetsByName(today: int)
    ensures PresetRange("This month", today) == Range(MonthStart(today), today)
    ensures PresetRange("This year", today) == Range(DateUtc(DateOf(today).year, 0, 1), today)
    ensures PresetRange("Last month", today) == LastMonth(today)
  {
  }

  // ---------------------------------------------------------------- month grid

  function LeadingBlanks(year: int, month: int): nat {
    Weekday(DateUtc(year, month, 1))
  }

  function LastDay(year: int, month: int): nat {
    DateOf(DateUtc(year, month + 1, 0)).day
  }

  function Blanks(n: nat): seq<Option<nat>> { seq(n, _ => None) }

  function Days(n: nat): seq<Option<nat>> { seq(n, (i: nat) => Some(i + 1)) }

  /** The cells of a month (zero-based): blanks up to its first weekday, then its days. */
  method BuildMonthGrid(year: int, month: int) returns (cells: seq<Option<nat>>)
    ensures cells == Blanks(LeadingBlanks(year, month)) + Days(LastDay(year, month))
    ensures 0 <= month <= 11 ==> cells == GridOf(year, month)
  {
    if 0 <= month <= 11 {
      BuiltGrid(year, month);
    }
    cells := [];
    for i := 0 to LeadingBlanks(year, month)
      invariant cells == Blanks(i)
    {
      cells := cells + [None];
    }
    for d := 1 to LastDay(year, month) + 1
      invariant cells == Blanks(LeadingBlanks(year, month)) + Days(d - 1)
    {
      cells := cells + [Some(d)];
    }
  }

  /** Day 0 of the month after is the last day of the month. */
  lemma DayZero(year: int, month: int)
    requires 0 <= month <= 11
    ensures var y := JsYear(year); DateUtc(year, month + 1, 0) == DayNumber(Date(y, month + 1, DaysInMonth(y, month + 1)))
  {
    var y := JsYear(year);
    if month == 11 {
      assert DateUtc(year, 12, 0) == DayNumber(Date(y + 1, 1, 1)) - 1;
      DayNumberCountsDays(Date(y, 12, 31));
    } else {
      DayNumberCountsDays(Date(y, month + 1, DaysInMonth(y, month + 1)));
    }
  }

  /** The month a grid shows: that of `JsYear(year)`. */
  lemma GridShowsTheJsYear(year: int, month: int)
    requires 0 <= month <= 11
    ensures var y := if 0 <= year <= 99 then 1900 + year else year;
            && LeadingBlanks(year, month) == Weekday(DayNumber(Date(y, month + 1, 1)))
            && LastDay(year, month) == DaysInMonth(y, month + 1)
  {
    DayZero(year, month);
    var y := JsYear(year);
    DateOfInverts(Date(y, month + 1, DaysInMonth(y, month + 1)));
  }

  /** The days of nineteen centuries: the leap year 0 makes one more. */
  lemma CenturyDays(year: int)
    requires 0 <= year <= 99
    ensures YearStart(1900 + year) - YearStart(year) == if year == 0 then 693961 else 693960
  {
    YearStartIsTheFormula(1900 + year);
    YearStartIsTheFormula(year);
    FourthsShift(year);
    CenturiesShift(year);
  }

  lemma FourthsShift(year: int)
    ensures (1900 + year - 1969) / 4 == (year - 1969) / 4 + 475
  {
  }

  lemma CenturiesShift(year: int)
    requires 0 <= year <= 99
    ensures (1900 + year - 1901) / 100 == (year - 1901) / 100 + 19
    ensures (1900 + year - 1601) / 400 == (year - 1601) / 400 + if year == 0 then 5 else 4
  {
    assert (1900 + year - 1601) / 400 == 0;
    assert (year - 1601) / 400 == if year == 0 then -5 else -4;
  }

  lemma CenturiesKeepLeapYears(year: int)
    requires 0 <= year <= 99
    ensures IsLeap(1900 + year) == (IsLeap(year) && year != 0)
  {
  }

  /** Within the year the shift is the same, but for the leap day of the year 0. */
  lemma {:induction false} MonthShift(year: int, month: int)
    requires 0 <= year <= 99 && 1 <= month <= 12
    ensures DaysBefore(1900 + year, month) == DaysBefore(year, month) - (if year == 0 && month > 2 then 1 else 0)
    decreases month
  {
    CenturiesKeepLeapYears(year);
    if month > 1 {
      MonthShift(year, month - 1);
    }
  }

  lemma WeekdaysOfMonth(year: int, month: int)
    requires 0 <= year <= 99 && 1 <= month <= 12
    ensures Weekday(DayNumber(Date(1900 + year, month, 1))) != Weekday(DayNumber(Date(year, month, 1)))
  {
    CenturyDays(year);
    MonthShift(year, month);
    var n, m := DayNumber(Date(1900 + year, month, 1)), DayNumber(Date(year, month, 1));
    Residues(n - m, m);
  }

  lemma Residues(shift: int, n: int)
    requires 693960 <= shift <= 693961
    ensures Weekday(n + shift) != Weekday(n)
  {
  }

  lemma ColumnOfDay(n: int, k: nat)
    ensures (Weekday(n) + k) % 7 == Weekday(n + k)
  {
  }

  lemma SameShift(n: int, m: int, k: int)
    ensures Weekday(n + k) == Weekday(m + k) <==> Weekday(n) == Weekday(m)
  {
  }

  lemma WeekdayInMonth(year: int, month: int, d: nat)
    requires 0 <= month <= 11 && 1 <= d
    ensures var n := DayNumber(Date(JsYear(year), month + 1, 1));
            (Weekday(n) + d - 1) % 7 == Weekday(DayNumber(Date(year, month + 1, d))) <==> !(0 <= year <= 99)
  {
    var n, m := DayNumber(Date(JsYear(year), month + 1, 1)), DayNumber(Date(year, month + 1, 1));
    assert DayNumber(Date(year, month + 1, d)) == m + (d - 1);
    if 0 <= year <= 99 {
      WeekdaysOfMonth(year, month + 1);
      assert Weekday(n) != Weekday(m);
    } else {
      assert n == m;
    }
    ColumnOfDay(n, d - 1);
    SameShift(n, m, d - 1);
  }

  /** The grid of the month that JavaScript reads. */
  function GridOf(year: int, month: int): seq<Option<nat>>
    requires 0 <= month <= 11
  {
    var y := JsYear(year);
    Blanks(Weekday(DayNumber(Date(y, month + 1, 1)))) + Days(DaysInMonth(y, month + 1))
  }

  /** The grid puts day `d` in the weekday column of that very date exactly outside the years 0 to 99. */
  lemma GridColumnsAreWeekdays(year: int, month: int, d: nat)
    requires 0 <= month <= 11 && 1 <= d <= DaysInMonth(JsYear(year), month + 1)
    ensures var cells := GridOf(year, month);
            var i := Weekday(DayNumber(Date(JsYear(year), month + 1, 1))) + d - 1;
            && i < |cells| && cells[i] == Some(d)
            && (i % 7 == Weekday(DayNumber(Date(year, month + 1, d))) <==> !(0 <= year <= 99))
  {
    WeekdayInMonth(year, month, d);
    CellOfDay(Weekday(DayNumber(Date(JsYear(year), month + 1, 1))), DaysInMonth(JsYear(year), month + 1), d);
  }

  /** What `buildMonthGrid` builds is that grid. */
  lemma BuiltGrid(year: int, month: int)
    requires 0 <= month <= 11
    ensures Blanks(LeadingBlanks(year, month)) + Days(LastDay(year, month)) == GridOf(year, month)
  {
    GridShowsTheJsYear(year, month);
  }

  lemma CellOfDay(blanks: nat, days: nat, d: nat)
    requires 1 <= d <= days
    ensures |Blanks(blanks) + Days(days)| == blanks + days && (Blanks(blanks) + Days(days))[blanks + d - 1] == Some(d)
  {
  }

  datatype View = View(year: int, month: int)

  function PreviousMonth(v: View): View {
    if v.month - 1 < 0 then View(v.year - 1, 11) else View(v.year, v.month - 1)
  }

  function NextMonth(v: View): View {
    if v.month + 1 > 11 then View(v.year + 1, 0) else View(v.year, v.month + 1)
  }

  /** Going forth and back returns to the same month, and the twelve zero-based months are never left. */
  lemma MonthMovesInvert(v: View)
    requires 0 <= v.month <= 11
    ensures PreviousMonth(NextMonth(v)) == v && NextMonth(PreviousMonth(v)) == v
    ensures 0 <= NextMonth(v).month <= 11 && 0 <= PreviousMonth(v).month <= 11
  {
  }

  predicate CrossesTheCenturyRule(v: View) {
    v == View(-1, 11) || v == View(99, 11)
  }

  lemma UtcOfMonth(year: int, month: int, d: int, date: Date)
    requires 0 <= month <= 11 && date == Date(JsYear(year), month + 1, d)
    ensures DateUtc(year, month, d) == DayNumber(date)
  {
  }

  lemma LastOfMonth(v: View)
    requires 0 <= v.month <= 11
    ensures var y := JsYear(v.year);
            DateUtc(v.year, v.month, LastDay(v.year, v.month)) == DayNumber(Date(y, v.month + 1, DaysInMonth(y, v.month + 1)))
  {
    var y := JsYear(v.year);
    GridShowsTheJsYear(v.year, v.month);
    UtcOfMonth(v.year, v.month, LastDay(v.year, v.month), Date(y, v.month + 1, DaysInMonth(y, v.month + 1)));
  }

  /** The day after the last of a shown month. */
  lemma FirstOfNextMonth(v: View)
    requires 0 <= v.month <= 11
    ensures var y := JsYear(v.year);
            DayNumber(Tomorrow(Date(y, v.month + 1, DaysInMonth(y, v.month + 1)))) ==
              DateUtc(v.year, v.month, LastDay(v.year, v.month)) + 1
  {
    var y := JsYear(v.year);
    LastOfMonth(v);
    DayNumberCountsDays(Date(y, v.month + 1, DaysInMonth(y, v.month + 1)));
  }

  lemma NextViewIsTomorrow(v: View)
    requires 0 <= v.month <= 11
    ensures var y := JsYear(v.year);
            var w := NextMonth(v);
            DateUtc(w.year, w.month, 1) == DayNumber(Tomorrow(Date(y, v.month + 1, DaysInMonth(y, v.month + 1))))
            <==> !CrossesTheCenturyRule(v)
  {
    if v == View(-1, 11) {
      YearsGrow(0, 1900);
    } else if v == View(99, 11) {
      YearsGrow(100, 2000);
    }
  }

  /** Consecutive months tile the days without gap or overlap exactly when the step does not cross the border of the
      years 0 to 99. */
  lemma MonthsTile(v: View)
    requires 0 <= v.month <= 11
    ensures var w := NextMonth(v);
            DateUtc(w.year, w.month, 1) == DateUtc(v.year, v.month, LastDay(v.year, v.month)) + 1
            <==> !CrossesTheCenturyRule(v)
  {
    FirstOfNextMonth(v);
    NextViewIsTomorrow(v);
  }

  /** The next grid starts in the column after the last day of this one. */
  lemma ColumnsContinue(v: View)
    requires 0 <= v.month <= 11 && !CrossesTheCenturyRule(v)
    ensures var w := NextMonth(v);
            (LeadingBlanks(v.year, v.month) + LastDay(v.year, v.month)) % 7 == LeadingBlanks(w.year, w.month)
  {
    var w := NextMonth(v);
    var first, days, next := DateUtc(v.year, v.month, 1), LastDay(v.year, v.month), DateUtc(w.year, w.month, 1);
    MonthsTile(v);
    DaysOfAMonth(v.year, v.month, days);
    ColumnAfter(first, days, next);
  }

  lemma ColumnAfter(n: int, k: nat, m: int)
    requires m == n + k
    ensures (Weekday(n) + k) % 7 == Weekday(m)
  {
    ColumnOfDay(n, k);
  }

  lemma DaysOfAMonth(year: int, month: int, d: int)
    ensures DateUtc(year, month, d) == DateUtc(year, month, 1) + d - 1
  {
  }

  // ---------------------------------------------------------------- calendar popover

  datatype Picker = Picker(view: View, start: Option<int>, end: Option<int>)

  datatype Click = Day(cell: Option<nat>) | Previous | Next

  function PickDay(p: Picker, cell: Option<nat>): Picker {
    if cell.None? then p
    else
      var picked := DateUtc(p.view.year, p.view.month, cell.value);
      if p.start.None? || p.end.Some? then p.(start := Some(picked), end := None)
      else if picked < p.start.value then p.(start := Some(picked), end := p.start)
      else p.(end := Some(picked))
  }

  function OnClick(p: Picker, c: Click): Picker {
    match c
    case Day(cell) => PickDay(p, cell)
    case Previous => p.(view := PreviousMonth(p.view))
    case Next => p.(view := NextMonth(p.view))
  }

  function AfterClicks(p: Picker, clicks: seq<Click>): Picker {
    if clicks == [] then p else OnClick(AfterClicks(p, clicks[..|clicks| - 1]), clicks[|clicks| - 1])
  }

  /** What Apply emits: a lone start is a one-day range. */
  function Applied(p: Picker): Option<Range> {
    match p.start
    case None => None
    case Some(start) => Some(Range(start, if p.end.Some? then p.end.value else start))
  }

  predicate PickerOk(p: Picker) {
    && 0 <= p.view.month <= 11
    && (p.end.Some? ==> p.start.Some? && p.start.value <= p.end.value)
  }

  function Opened(v: View): Picker {
    Picker(v, None, None)
  }

  /** The popover's component state. */
  class CalendarPopover {
    var view: View
    var startDate: Option<int>
    var endDate: Option<int>

    function State(): Picker
      reads this
    {
      Picker(view, startDate, endDate)
    }

    constructor (today: int)
      ensures State() == Opened(View(DateOf(today).year, DateOf(today).month - 1))
    {
      view := View(DateOf(today).year, DateOf(today).month - 1);
      startDate := None;
      endDate := None;
    }

    method PrevMonth()
      modifies this
      ensures State() == OnClick(old(State()), Previous)
    {
      var m := view.month - 1;
      view := if m < 0 then View(view.year - 1, 11) else View(view.year, m);
    }

    method NextMonth()
      modifies this
      ensures State() == OnClick(old(State()), Next)
    {
      var m := view.month + 1;
      view := if m > 11 then View(view.year + 1, 0) else View(view.year, m);
    }

    method PickDay(day: Option<nat>)
      modifies this
      ensures State() == OnClick(old(State()), Day(day))
      ensures old(PickerOk(State())) ==> PickerOk(State())
    {
      if day.None? {
        return;
      }
      var picked := DateUtc(view.year, view.month, day.value);
      if startDate.None? || endDate.Some? {
        startDate := Some(picked);
        endDate := None;
        return;
      }
      if picked < startDate.value {
        endDate := startDate;
        startDate := Some(picked);
      } else {
        endDate := Some(picked);
      }
    }

    method Apply() returns (range: Option<Range>)
      ensures range == Applied(State())
    {
      if startDate.None? {
        return None;
      }
      var end := if endDate.Some? then endDate.value else startDate.value;
      return Some(Range(startDate.value, end));
    }
  }

  lemma {:induction false} ClicksKeepPickerOk(v: View, clicks: seq<Click>)
    requires 0 <= v.month <= 11
    ensures PickerOk(AfterClicks(Opened(v), clicks))
  {
    if clicks != [] {
      ClicksKeepPickerOk(v, clicks[..|clicks| - 1]);
    }
  }

  function Picks(p: Picker, clicks: seq<Click>): seq<int> {
    if clicks == [] then []
    else
      var n := |clicks| - 1;
      var before := Picks(p, clicks[..n]);
      if clicks[n].Day? && clicks[n].cell.Some? then
        var view := AfterClicks(p, clicks[..n]).view;
        before + [DateUtc(view.year, view.month, clicks[n].cell.value)]
      else before
  }

  /** The selection is the last picks: an odd number of them leaves a start alone, an even number a pair in order. */
  ghost predicate SelectsLastPicks(p: Picker, picks: seq<int>) {
    var n := |picks|;
    if n == 0 then p.start.None? && p.end.None?
    else if n % 2 == 1 then p.start == Some(picks[n - 1]) && p.end.None?
    else
      var a, b := picks[n - 2], picks[n - 1];
      p.start == Some(if a <= b then a else b) && p.end == Some(if a <= b then b else a)
  }

  lemma {:induction false} SelectionIsTheLastPicks(v: View, clicks: seq<Click>)
    ensures SelectsLastPicks(AfterClicks(Opened(v), clicks), Picks(Opened(v), clicks))
  {
    if clicks != [] {
      SelectionIsTheLastPicks(v, clicks[..|clicks| - 1]);
    }
  }

  /** After any clicks and month moves, Apply emits exactly when a day was picked, a range that starts no later than it
      ends. Its two texts are out of order exactly when those of its years are, which never happens for years of equally
      many digits. */
  lemma AppliedRangesAreOrdered(v: View, clicks: seq<Click>)
    requires 0 <= v.month <= 11
    ensures var r := Applied(AfterClicks(Opened(v), clicks));
            var picks := Picks(Opened(v), clicks);
            var n := |picks|;
            && (r.Some? <==> n > 0)
            && (n % 2 == 1 ==> r == Some(Range(picks[n - 1], picks[n - 1])))
            && (n > 0 && n % 2 == 0 ==>
                  r == Some(if picks[n - 2] <= picks[n - 1] then Range(picks[n - 2], picks[n - 1])
                            else Range(picks[n - 1], picks[n - 2])))
            && (r.Some? ==> r.value.start <= r.value.end && TextsTurnWithTheYears(DateOf(r.value.start), DateOf(r.value.end)))
  {
    SelectionIsTheLastPicks(v, clicks);
    var r := Applied(AfterClicks(Opened(v), clicks));
    if r.Some? {
      RangeTexts(DateOf(r.value.start), DateOf(r.value.end));
    }
  }

  ghost predicate TextsTurnWithTheYears(start: Date, end: Date)
    requires ValidDate(start) && ValidDate(end)
  {
    && (Less(UtcDateString(end), UtcDateString(start)) <==> Less(YearText(end.year), YearText(start.year)))
    && (0 <= start.year && |Decimal(start.year)| == |YearText(end.year)| ==> !Less(UtcDateString(end), UtcDateString(start)))
  }

  lemma RangeTexts(start: Date, end: Date)
    requires ValidDate(start) && ValidDate(end) && DayNumber(start) <= DayNumber(end)
    ensures TextsTurnWithTheYears(start, end)
  {
    DayNumberOrder(end, start);
    BrowserTextOrder(end, start);
    LessIsIrreflexive(YearText(start.year));
    if 0 <= start.year && |Decimal(start.year)| == |YearText(end.year)| {
      DecimalOrder(end.year, start.year);
    }
  }

  /** The two days around the start of the year 1000, which the missing padding turns round. */
  lemma UnpaddedYearsMisorder()
    ensures var a, b := Date(999, 12, 31), Date(1000, 1, 1);
            DayNumber(a) + 1 == DayNumber(b) && Less(UtcDateString(b), UtcDateString(a))
    ensures !TextFollowsDays(999, 1000)
  {
    Powers();
    TextTurnsAtThePower(3);
    assert InYears(Date(999, 12, 31), 999, 1000) && InYears(Date(1000, 1, 1), 999, 1000);
  }
}
