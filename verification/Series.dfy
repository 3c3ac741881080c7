/** The window a statistics request asks for, and the one before it. */
module StatsRanges {
  import opened Prelude
  import opened Calendar

  const DEFAULT_RANGE_DAYS := 30
  const MAX_RANGE_DAYS := 366

  /** A date argument: left out, not a date, or a day. */
  datatype Arg = Absent | Malformed | Given(day: int)

  /** A refused argument, or a date below the earliest or beyond the latest representable one. */
  datatype Failure = Unprocessable | Overflow

  datatype Window = Window(start: int, end: int)

  function Span(w: Window): int { w.end - w.start + 1 }

  /** The days Python's `date` can hold: 0001-01-01 to 9999-12-31. */
  const MIN_DAY := -719162
  const MAX_DAY := 2932896

  predicate Representable(day: int) { MIN_DAY <= day <= MAX_DAY }

  lemma RepresentableDays()
    ensures YearStart(1) == MIN_DAY && YearStart(10000) == MAX_DAY + 1
  {
    YearStartIsTheFormula(1);
    YearStartIsTheFormula(10000);
  }

  function Minus(day: int, days: int): Result<int, Failure> {
    if Representable(day - days) then Ok(day - days) else Err(Overflow)
  }

  /** `_parse_stats_range`, given today. */
  function ParseStatsRange(start: Arg, end: Arg, today: int): Result<Window, Failure> {
    if end.Malformed? then Err(Unprocessable)
    else
      var last := if end.Given? then end.day else today;
      if start.Malformed? then Err(Unprocessable)
      else
        var first := if start.Given? then Ok(start.day) else Minus(last, DEFAULT_RANGE_DAYS - 1);
        if first.Err? then Err(first.error)
        else if first.value > last then Err(Unprocessable)
        else if last - first.value + 1 > MAX_RANGE_DAYS then Err(Unprocessable)
        else Ok(Window(first.value, last))
  }

  /** The equal-length window that ends the day before. */
  function PriorWindow(w: Window): Result<Window, Failure> {
    var end := Minus(w.start, 1);
    if end.Err? then Err(end.error)
    else
      var start := Minus(end.value, Span(w) - 1);
      if start.Err? then Err(start.error) else Ok(Window(start.value, end.value))
  }

  ghost predicate ArgOk(a: Arg) { a.Given? ==> Representable(a.day) }

  /** Which requests get a window, and which escape as an overflow instead of a refusal. */
  lemma AcceptedWindows(start: Arg, end: Arg, today: int)
    requires ArgOk(start) && ArgOk(end) && Representable(today)
    ensures var r := ParseStatsRange(start, end, today);
            var last := if end.Given? then end.day else today;
            && (r.Ok? ==> r.value.end == last && r.value.start <= last <= r.value.start + 365
                          && Representable(r.value.start) && Representable(r.value.end)
                          && r.value.start == if start.Given? then start.day else last - 29)
            && (r.Err? && r.error.Overflow? <==> !end.Malformed? && start.Absent? && last - 29 < MIN_DAY)
            && (r.Err? && r.error.Unprocessable? <==>
                  end.Malformed? || start.Malformed? || (start.Given? && !(start.day <= last <= start.day + 365)))
  {
  }

  /** The prior window exists just when it does not reach below the earliest date, and then it adjoins the current one
      and is as long. */
  lemma PriorWindowAdjoins(w: Window)
    requires w.start <= w.end && Representable(w.start) && Representable(w.end)
    ensures PriorWindow(w).Ok? <==> MIN_DAY <= w.start - (w.end - w.start + 1)
    ensures PriorWindow(w).Err? ==> PriorWindow(w).error.Overflow?
    ensures PriorWindow(w).Ok? ==>
              var prior := PriorWindow(w).value; prior.end + 1 == w.start && prior.end - prior.start == w.end - w.start
  {
  }
}

/** The day series that a chart draws: one row per day of the window, absent days as zeros. */
module ZeroFilling {
  import opened Prelude
  import opened Text
  import opened Calendar
  import opened Metrics
  import opened StatsRanges
  import UsageWindow

  const MAX_FILL_DAYS := 400

  /** A row of the series: its date, if any, and its metrics. */
  datatype Point = Point(date: Option<string>, metric: Metric)

  function Prefix10(s: string): string { if |s| <= 10 then s else s[..10] }

  /** A date that Python can hold. */
  predicate PyDate(d: Date) { ValidDate(d) && 1 <= d.year <= 9999 }

  const LAST_DATE := Date(9999, 12, 31)

  /** The dates from `d` to `end`, each the day after the one before. */
  function WindowDates(d: Date, end: Date): (dates: seq<Date>)
    requires ValidDate(d) && ValidDate(end)
    ensures |dates| == if DayNumber(d) <= DayNumber(end) then DayNumber(end) - DayNumber(d) + 1 else 0
    decreases DayNumber(end) - DayNumber(d) + 1
  {
    DayNumberCountsDays(d);
    if DayNumber(end) < DayNumber(d) then [] else [d] + WindowDates(Tomorrow(d), end)
  }

  /** The i-th date of the window is i days after the first. */
  lemma {:induction false} WindowDateAt(d: Date, end: Date, i: nat)
    requires ValidDate(d) && ValidDate(end) && i < |WindowDates(d, end)|
    ensures ValidDate(WindowDates(d, end)[i]) && DayNumber(WindowDates(d, end)[i]) == DayNumber(d) + i
    decreases i
  {
    DayNumberCountsDays(d);
    if i > 0 {
      WindowDateAt(Tomorrow(d), end, i - 1);
    }
  }

  /** Dates of four-digit years, in ascending order. */
  ghost predicate Ascending(dates: seq<Date>) {
    && (forall i :: 0 <= i < |dates| ==> PyDate(dates[i]))
    && (forall i, j :: 0 <= i < j < |dates| ==> DayNumber(dates[i]) < DayNumber(dates[j]))
  }

  /** The dates from `start` to `end`, one for each day. */
  ghost predicate Consecutive(dates: seq<Date>, start: Date, end: Date)
    requires ValidDate(start) && ValidDate(end)
  {
    && |dates| == DayNumber(end) - DayNumber(start) + 1
    && (forall i :: 0 <= i < |dates| ==> PyDate(dates[i]))
    && (forall i :: 0 <= i < |dates| ==> DayNumber(dates[i]) == DayNumber(start) + i)
  }

  lemma WindowDatesAreConsecutive(start: Date, end: Date)
    requires PyDate(start) && PyDate(end) && DayNumber(start) <= DayNumber(end)
    ensures Consecutive(WindowDates(start, end), start, end) && Ascending(WindowDates(start, end))
  {
    var dates := WindowDates(start, end);
    forall i | 0 <= i < |dates| ensures PyDate(dates[i]) && DayNumber(dates[i]) == DayNumber(start) + i {
      WindowDateAt(start, end, i);
      DayNumberOrder(dates[i], start);
      DayNumberOrder(end, dates[i]);
    }
  }

  function Texts(dates: seq<Date>): (keys: seq<string>)
    requires forall i :: 0 <= i < |dates| ==> PyDate(dates[i])
    ensures |keys| == |dates|
  {
    seq(|dates|, i requires 0 <= i < |dates| && PyDate(dates[i]) => Iso(dates[i]))
  }

  /** Day texts in strictly ascending order. */
  ghost predicate InOrder(keys: seq<string>) {
    && (forall i :: 0 <= i < |keys| ==> |keys[i]| == 10)
    && (forall i, j :: 0 <= i < j < |keys| ==> Less(keys[i], keys[j]) && keys[i] != keys[j])
  }

  /** The order of the texts is the order of the days. */
  lemma TextsAreInOrder(dates: seq<Date>)
    requires Ascending(dates)
    ensures InOrder(Texts(dates))
  {
    var keys := Texts(dates);
    forall i, j | 0 <= i < j < |keys| ensures Less(keys[i], keys[j]) && keys[i] != keys[j] {
      IsoOrder(dates[i], dates[j]);
    }
    forall i | 0 <= i < |keys| ensures |keys[i]| == 10 {
      IsoLength(dates[i]);
    }
  }

  lemma IsoLength(d: Date)
    requires PyDate(d)
    ensures |Iso(d)| == 10
  {
    Powers();
  }

  /** A row that the fill can see: rows without a date are dropped. */
  predicate Keyed(p: Point, key: string) { p.date.Some? && p.date.value != "" && Prefix10(p.date.value) == key }

  /** A row is on the day whose text its own begins with. */
  lemma KeyedByTheFirstTen(p: Point, key: string)
    requires |key| == 10
    ensures Keyed(p, key) <==> p.date.Some? && |p.date.value| >= 10 && forall i :: 0 <= i < 10 ==> p.date.value[i] == key[i]
  {
    if p.date.Some? && |p.date.value| >= 10 {
      assert Prefix10(p.date.value) == p.date.value[..10];
      assert p.date.value[..10] == key <==> forall i :: 0 <= i < 10 ==> p.date.value[..10][i] == key[i];
    }
  }

  /** The last row of the day, or a zero row. */
  function RowOf(series: seq<Point>, key: string): Point {
    if series == [] then Point(Some(key), ZERO)
    else
      var n := |series| - 1;
      if Keyed(series[n], key) then series[n] else RowOf(series[..n], key)
  }

  /** The filled series: a row for each of the days. */
  function Filled(series: seq<Point>, keys: seq<string>): (filled: seq<Point>)
    ensures |filled| == |keys|
  {
    seq(|keys|, i requires 0 <= i < |keys| => RowOf(series, keys[i]))
  }

  /** Whether the bounds make the fill happen at all; otherwise the series passes through. */
  predicate Fills(start: Option<Date>, end: Option<Date>)
    requires start.Some? ==> PyDate(start.value)
    requires end.Some? ==> PyDate(end.value)
  {
    start.Some? && end.Some? && 0 <= DayNumber(end.value) - DayNumber(start.value) < 400
  }

  /** `_zero_fill_series`; a bound is None when it does not parse. Stepping past the last date there is overflows. */
  method ZeroFill(series: seq<Point>, start: Option<Date>, end: Option<Date>)
    returns (r: Result<seq<Point>, Failure>, ghost dates: seq<Date>)
    requires start.Some? ==> PyDate(start.value)
    requires end.Some? ==> PyDate(end.value)
    ensures !Fills(start, end) ==> r == Ok(series)
    ensures Fills(start, end) ==> dates == WindowDates(start.value, end.value) && Ascending(dates)
    ensures Fills(start, end) ==> r == if end.value == LAST_DATE then Err(Overflow) else Ok(Filled(series, Texts(dates)))
  {
    dates := [];
    if start.None? || end.None? || !(0 <= DayNumber(end.value) - DayNumber(start.value) < MAX_FILL_DAYS) {
      return Ok(series), dates;
    }
    dates := WindowDates(start.value, end.value);
    WindowDatesAreConsecutive(start.value, end.value);
    WindowDatesGoDayByDay(start.value, end.value);
    r := FillDays(series, start.value, end.value, dates);
  }

  /** The dates from `start` to `end`, each the day after the one before. */
  ghost predicate DayByDay(dates: seq<Date>, start: Date, end: Date) {
    && dates != [] && dates[0] == start && dates[|dates| - 1] == end
    && (forall i :: 0 <= i < |dates| ==> PyDate(dates[i]) && !Earlier(end, dates[i]))
    && (forall i, j :: 0 <= i && j == i + 1 < |dates| ==> dates[i] != LAST_DATE && dates[j] == Tomorrow(dates[i]))
  }

  lemma WindowDatesGoDayByDay(start: Date, end: Date)
    requires PyDate(start) && PyDate(end) && DayNumber(start) <= DayNumber(end)
    ensures DayByDay(WindowDates(start, end), start, end)
  {
    var dates := WindowDates(start, end);
    WindowDatesAreConsecutive(start, end);
    DayNumberOrder(dates[0], start);
    DayNumberOrder(dates[|dates| - 1], end);
    forall i | 0 <= i < |dates| ensures !Earlier(end, dates[i]) {
      DayNumberOrder(end, dates[i]);
    }
    forall i, j | 0 <= i && j == i + 1 < |dates| ensures dates[i] != LAST_DATE && dates[j] == Tomorrow(dates[i]) {
      NeighboursAreTomorrow(dates[i], dates[j]);
    }
  }

  lemma NeighboursAreTomorrow(a: Date, b: Date)
    requires PyDate(a) && PyDate(b) && DayNumber(b) == DayNumber(a) + 1
    ensures a != LAST_DATE && b == Tomorrow(a)
  {
    DayNumberCountsDays(a);
    DayNumberOrder(Tomorrow(a), b);
  }

  method FillDays(series: seq<Point>, start: Date, end: Date, ghost dates: seq<Date>) returns (r: Result<seq<Point>, Failure>)
    requires DayByDay(dates, start, end)
    ensures r == if end == LAST_DATE then Err(Overflow) else Ok(Filled(series, Texts(dates)))
  {
    var byDay := ByDay(series);
    var filled, d := [], start;
    ghost var keys := Texts(dates);
    ghost var i := 0;
    while !Earlier(end, d)
      invariant PyDate(d) && i <= |dates|
      invariant if i < |dates| then d == dates[i] else d == Tomorrow(end) && end != LAST_DATE
      invariant filled == Filled(series, keys[..i])
      decreases |dates| - i
    {
      var key := Iso(d);
      FilledSnoc(series, keys, i);
      filled := filled + [if key in byDay then byDay[key] else Point(Some(key), ZERO)];
      if d == LAST_DATE {
        return Err(Overflow);
      }
      d, i := Tomorrow(d), i + 1;
    }
    assert keys[..i] == keys;
    r := Ok(filled);
  }

  lemma FilledSnoc(series: seq<Point>, keys: seq<string>, i: nat)
    requires i < |keys|
    ensures Filled(series, keys[..i + 1]) == Filled(series, keys[..i]) + [RowOf(series, keys[i])]
  {
    assert keys[..i + 1] == keys[..i] + [keys[i]];
  }

  method ByDay(series: seq<Point>) returns (byDay: map<string, Point>)
    ensures forall key :: RowOf(series, key) == if key in byDay then byDay[key] else Point(Some(key), ZERO)
  {
    byDay := map[];
    for i := 0 to |series|
      invariant forall key :: RowOf(series[..i], key) == if key in byDay then byDay[key] else Point(Some(key), ZERO)
    {
      var p := series[i];
      assert series[..i + 1][..i] == series[..i];
      if p.date.Some? && p.date.value != "" {
        byDay := byDay[Prefix10(p.date.value) := p];
      }
    }
    assert series[..|series|] == series;
  }

  // ---------------------------------------------------------------- conservation

  function PointMetrics(series: seq<Point>): (m: seq<Metric>)
    ensures |m| == |series|
  {
    seq(|series|, i requires 0 <= i < |series| => series[i].metric)
  }

  /** Row i carries the text of the window's day `at[i]`, and no day has two rows. */
  ghost predicate Canonical(series: seq<Point>, at: seq<nat>, keys: seq<string>) {
    && |at| == |series| && Distinct(at)
    && (forall i :: 0 <= i < |at| ==> at[i] < |keys|)
    && (forall i :: 0 <= i < |series| ==> series[i].date == Some(keys[at[i]]))
  }

  /** A day without a row is filled with zeros, and every filled row carries its own day. */
  lemma {:induction false} RowCarriesItsKey(series: seq<Point>, at: seq<nat>, keys: seq<string>, day: nat)
    requires InOrder(keys) && Canonical(series, at, keys) && day < |keys|
    ensures RowOf(series, keys[day]).date == Some(keys[day])
    ensures day !in at ==> RowOf(series, keys[day]).metric == ZERO
  {
    if series != [] {
      var k := |series| - 1;
      assert Keyed(series[k], keys[day]) <==> at[k] == day;
      assert at[..k] + [at[k]] == at;
      RowCarriesItsKey(series[..k], at[..k], keys, day);
    }
  }

  /** A new row replaces its day's filled row, which was zero, and no other. */
  lemma FilledUpdate(front: seq<Point>, row: Point, at: seq<nat>, keys: seq<string>)
    requires InOrder(keys) && at != [] && Canonical(front + [row], at, keys)
    ensures var day, was := at[|front|], PointMetrics(Filled(front, keys));
            && was[day] == ZERO
            && PointMetrics(Filled(front + [row], keys)) == was[day := row.metric]
  {
    var k, all := |front|, front + [row];
    var day := at[k];
    assert all[..k] == front && all[k] == row;
    assert Canonical(front, at[..k], keys) by {
      assert forall i :: 0 <= i < k ==> all[i] == front[i] && at[..k][i] == at[i];
    }
    RowCarriesItsKey(front, at[..k], keys, day);
    forall i | 0 <= i < |keys| ensures RowOf(all, keys[i]) == if i == day then row else RowOf(front, keys[i]) {
      assert Keyed(row, keys[i]) <==> i == day;
    }
  }

  /** Zero-filling conserves every sum. */
  lemma {:induction false} FillingConservesSums(series: seq<Point>, at: seq<nat>, keys: seq<string>)
    requires InOrder(keys) && Canonical(series, at, keys)
    ensures Sum(PointMetrics(Filled(series, keys))) == Sum(PointMetrics(series))
  {
    if series == [] {
      assert PointMetrics(Filled(series, keys)) == seq(|keys|, _ => ZERO);
      SumOfZeros(|keys|);
      SumOfZeros(0);
      assert PointMetrics(series) == seq(0, _ => ZERO);
    } else {
      var k := |series| - 1;
      var front, row := series[..k], series[k];
      assert front + [row] == series;
      FillingConservesSums(front, at[..k], keys);
      FilledUpdate(front, row, at, keys);
      SumUpdate(PointMetrics(Filled(front, keys)), at[k], row.metric);
      assert PointMetrics(series) == PointMetrics(front) + [row.metric];
      SumSnoc(PointMetrics(front), row.metric);
    }
  }

  /** The row of a day is the last one that carries it, or a zero row if none does; either way it carries the day. */
  lemma {:induction false} RowOfIsTheLastRow(series: seq<Point>, key: string)
    requires |key| == 10
    ensures Keyed(RowOf(series, key), key)
    ensures (forall i :: 0 <= i < |series| ==> !Keyed(series[i], key)) ==> RowOf(series, key) == Point(Some(key), ZERO)
    ensures forall i :: 0 <= i < |series| && Keyed(series[i], key) && (forall j :: i < j < |series| ==> !Keyed(series[j], key)) ==>
              RowOf(series, key) == series[i]
  {
    if series != [] {
      var front := series[..|series| - 1];
      RowOfIsTheLastRow(front, key);
      assert forall i :: 0 <= i < |front| ==> front[i] == series[i];
    }
  }

  /** Whatever the series holds, a filled window has exactly one row per day, in the order of the days: the last row of the
      series that carries the day, or zeros. */
  lemma FilledRowsAreTheDays(series: seq<Point>, start: Date, end: Date, i: nat)
    requires PyDate(start) && PyDate(end) && i < |WindowDates(start, end)|
    ensures Ascending(WindowDates(start, end))
    ensures var dates := WindowDates(start, end);
            var filled := Filled(series, Texts(dates));
            && |filled| == DayNumber(end) - DayNumber(start) + 1
            && DayNumber(dates[i]) == DayNumber(start) + i
            && Keyed(filled[i], Iso(dates[i]))
            && filled[i] == RowOf(series, Iso(dates[i]))
  {
    var dates := WindowDates(start, end);
    WindowDatesAreConsecutive(start, end);
    IsoLength(dates[i]);
    RowOfIsTheLastRow(series, Iso(dates[i]));
  }

  /** A representable day is a date that Python can hold. */
  lemma RepresentableIsPyDate(day: int)
    requires Representable(day)
    ensures PyDate(DateOf(day))
  {
    RepresentableDays();
    YearBounds(DateOf(day), 1, 10000);
  }

  lemma YearBounds(d: Date, lo: int, hi: int)
    requires ValidDate(d) && YearStart(lo) <= DayNumber(d) < YearStart(hi)
    ensures lo <= d.year < hi
  {
    YearLength(d.year);
    StartsAreNonnegative(d.year, d.month);
    MonthsGrow(d.year, d.month, 13);
    if d.year < lo {
      YearsGrow(d.year + 1, lo);
    } else if d.year >= hi {
      YearsGrow(hi, d.year);
    }
  }

  lemma LastDateIsMaxDay()
    ensures DayNumber(LAST_DATE) == MAX_DAY
  {
    RepresentableDays();
    DayNumberCountsDays(LAST_DATE);
  }

  /** Every window that the route accepts is filled, day by day, unless it ends on the last representable date. */
  lemma AcceptedWindowsAreFilled(start: Arg, end: Arg, today: int)
    requires ArgOk(start) && ArgOk(end) && Representable(today) && ParseStatsRange(start, end, today).Ok?
    ensures var w := ParseStatsRange(start, end, today).value;
            var first, last := DateOf(w.start), DateOf(w.end);
            && PyDate(first) && PyDate(last)
            && Fills(Some(first), Some(last))
            && |WindowDates(first, last)| == Span(w)
            && (last == LAST_DATE <==> w.end == MAX_DAY)
  {
    AcceptedWindows(start, end, today);
    var w := ParseStatsRange(start, end, today).value;
    RepresentableIsPyDate(w.start);
    RepresentableIsPyDate(w.end);
    LastDateIsMaxDay();
    DayNumberOrder(DateOf(w.end), LAST_DATE);
  }

  // ---------------------------------------------------------------- the whole fold

  function Points(series: seq<(string, Metric)>): (points: seq<Point>)
    ensures |points| == |series|
  {
    seq(|series|, i requires 0 <= i < |series| => Point(Some(series[i].0), series[i].1))
  }

  /** The rows of a window are all dated. */
  ghost predicate Dated(rows: seq<UsageWindow.Row>) {
    forall j :: 0 <= j < |rows| ==> rows[j].date.Some?
  }

  lemma EveryDayHasAPlace(rows: seq<UsageWindow.Row>, days: map<string, Metric>, series: seq<(string, Metric)>, j: nat)
    requires UsageWindow.DaysOf(rows, days) && UsageWindow.IsSeries(series, days)
    requires j < |rows| && rows[j].date.Some?
    ensures exists i :: 0 <= i < |series| && series[i].0 == rows[j].date.value
  {
    var d := rows[j].date.value;
    assert UsageWindow.HasDate(rows, d);
    assert (d, days[d]) in series;
    var i :| 0 <= i < |series| && series[i] == (d, days[d]);
  }

  /** Where each row's day stands in the series. */
  lemma Places(rows: seq<UsageWindow.Row>, days: map<string, Metric>, series: seq<(string, Metric)>) returns (origin: seq<nat>)
    requires UsageWindow.DaysOf(rows, days) && UsageWindow.IsSeries(series, days) && Dated(rows)
    ensures |origin| == |rows|
    ensures forall j :: 0 <= j < |rows| ==> origin[j] < |series|
    ensures forall i, j :: 0 <= j < |rows| && 0 <= i < |series| ==> (origin[j] == i <==> rows[j].date == Some(series[i].0))
  {
    origin := [];
    for j := 0 to |rows|
      invariant |origin| == j
      invariant forall k :: 0 <= k < j ==> origin[k] < |series| && series[origin[k]].0 == rows[k].date.value
    {
      EveryDayHasAPlace(rows, days, series, j);
      var i: nat :| i < |series| && series[i].0 == rows[j].date.value;
      origin := origin + [i];
    }
    forall i, j | 0 <= j < |rows| && 0 <= i < |series| ensures origin[j] == i <==> rows[j].date == Some(series[i].0) {
      LessIsIrreflexive(series[i].0);
    }
  }

  /** The day series of a window of dated rows adds up to the rows. */
  lemma SeriesAddsUp(rows: seq<UsageWindow.Row>, days: map<string, Metric>, series: seq<(string, Metric)>)
    requires UsageWindow.DaysOf(rows, days) && UsageWindow.IsSeries(series, days) && Dated(rows)
    ensures Sum(PointMetrics(Points(series))) == Sum(UsageWindow.RowMetrics(rows))
  {
    var origin := Places(rows, days, series);
    var pieces := UsageWindow.RowMetrics(rows);
    SumsExchange(pieces, origin, All(|series|));
    assert Pull(All(|series|), origin) == All(|rows|);
    forall i | 0 <= i < |series| ensures Gathered(pieces, origin, |series|)[i] == series[i].1 {
      assert (series[i].0, series[i].1) in series;
      assert seq(|rows|, j requires 0 <= j < |rows| => origin[j] == i) == UsageWindow.DateMask(rows, series[i].0);
    }
    assert Gathered(pieces, origin, |series|) == PointMetrics(Points(series));
  }

  /** Row j is dated with the window's day `rowAt[j]`. */
  ghost predicate DatedInside(rows: seq<UsageWindow.Row>, rowAt: seq<nat>, keys: seq<string>) {
    && |rowAt| == |rows|
    && (forall j :: 0 <= j < |rowAt| ==> rowAt[j] < |keys|)
    && (forall j :: 0 <= j < |rows| ==> rows[j].date == Some(keys[rowAt[j]]))
  }

  /** The chart adds up to the headline: for rows dated inside the window, the sum of the filled day series is the sum
      of the rows, which is what the page totals add up to. */
  lemma ChartAddsUpToTheHeadline(rows: seq<UsageWindow.Row>, rowAt: seq<nat>, days: map<string, Metric>,
                                 series: seq<(string, Metric)>, dates: seq<Date>)
    requires UsageWindow.DaysOf(rows, days) && UsageWindow.IsSeries(series, days)
    requires Ascending(dates) && DatedInside(rows, rowAt, Texts(dates))
    ensures Sum(PointMetrics(Filled(Points(series), Texts(dates)))) == Sum(UsageWindow.RowMetrics(rows))
  {
    TextsAreInOrder(dates);
    SeriesAddsUp(rows, days, series);
    var at := SeriesPlaces(rows, rowAt, days, series, Texts(dates));
    FillingConservesSums(Points(series), at, Texts(dates));
  }

  /** The window days behind the entries of the series. */
  lemma SeriesPlaces(rows: seq<UsageWindow.Row>, rowAt: seq<nat>, days: map<string, Metric>,
                     series: seq<(string, Metric)>, keys: seq<string>) returns (at: seq<nat>)
    requires UsageWindow.DaysOf(rows, days) && UsageWindow.IsSeries(series, days)
    requires InOrder(keys) && DatedInside(rows, rowAt, keys)
    ensures Canonical(Points(series), at, keys)
  {
    at := [];
    for i := 0 to |series|
      invariant |at| == i
      invariant forall k :: 0 <= k < i ==> at[k] < |keys| && series[k].0 == keys[at[k]]
    {
      assert (series[i].0, series[i].1) in series;
      assert UsageWindow.HasDate(rows, series[i].0);
      var j :| 0 <= j < |rows| && rows[j].date == Some(series[i].0);
      at := at + [rowAt[j]];
    }
    forall i, j | 0 <= i < j < |series| ensures at[i] != at[j] {
      LessIsIrreflexive(series[i].0);
    }
  }

  predicate NoLater(a: Date, b: Date) { ValidDate(a) && ValidDate(b) && DayNumber(a) <= DayNumber(b) }

  /** The last use found by comparing text is the latest day of use. */
  lemma LatestTextIsTheLatestDay(rows: seq<(string, seq<string>)>, dates: seq<Date>, model: string, lastUsed: string, i: nat)
    requires |dates| == |rows| && forall j :: 0 <= j < |dates| ==> PyDate(dates[j])
    requires forall j :: 0 <= j < |rows| ==> rows[j].0 == Texts(dates)[j]
    requires UsageWindow.LatestUse(rows, model, lastUsed) && UsageWindow.UsesOn(rows, i, model)
    ensures exists j: nat :: UsageWindow.UsesOn(rows, j, model) && rows[j].0 == lastUsed && NoLater(dates[i], dates[j])
  {
    var j: nat :| UsageWindow.UsesOn(rows, j, model) && rows[j].0 == lastUsed;
    IsoOrder(dates[j], dates[i]);
    assert UsageWindow.UsesOn(rows, j, model) && rows[j].0 == lastUsed && NoLater(dates[i], dates[j]);
  }
}
