/** Usage metrics and their sums. Spend is exact; counts are integers. */
module Metrics {
  import opened Prelude

  datatype Metric = Metric(spend: real, requests: int, tokens: int, input: int, output: int, failed: int, cacheRead: int)

  const ZERO := Metric(0.0, 0, 0, 0, 0, 0, 0)

  function Plus(a: Metric, b: Metric): Metric {
    Metric(a.spend + b.spend, a.requests + b.requests, a.tokens + b.tokens, a.input + b.input, a.output + b.output,
           a.failed + b.failed, a.cacheRead + b.cacheRead)
  }

  /** The sum of the entries of `a` that `mask` selects. */
  function MaskSum(a: seq<Metric>, mask: seq<bool>): Metric
    requires |a| == |mask|
  {
    if a == [] then ZERO
    else
      var n := |a| - 1;
      var front := MaskSum(a[..n], mask[..n]);
      if mask[n] then Plus(front, a[n]) else front
  }

  function All(n: nat): seq<bool> { seq(n, _ => true) }

  function Sum(a: seq<Metric>): Metric { MaskSum(a, All(|a|)) }

  /** One figure, summed over the selected entries. */
  function Counted(a: seq<Metric>, mask: seq<bool>, figure: Metric -> int): int
    requires |a| == |mask|
  {
    if a == [] then 0 else (if mask[0] then figure(a[0]) else 0) + Counted(a[1..], mask[1..], figure)
  }

  function Spent(a: seq<Metric>, mask: seq<bool>): real
    requires |a| == |mask|
  {
    if a == [] then 0.0 else (if mask[0] then a[0].spend else 0.0) + Spent(a[1..], mask[1..])
  }

  /** A figure that is added up one by one. */
  ghost predicate Additive(figure: Metric -> int) {
    figure(ZERO) == 0 && forall a, b :: figure(Plus(a, b)) == figure(a) + figure(b)
  }

  lemma {:induction false} CountedSnoc(a: seq<Metric>, mask: seq<bool>, figure: Metric -> int)
    requires |a| == |mask| > 0
    ensures var n := |a| - 1;
            Counted(a, mask, figure) == Counted(a[..n], mask[..n], figure) + if mask[n] then figure(a[n]) else 0
  {
    var n := |a| - 1;
    if n > 0 {
      CountedSnoc(a[1..], mask[1..], figure);
      assert a[1..][..n - 1] == a[..n][1..] && mask[1..][..n - 1] == mask[..n][1..];
    }
  }

  lemma {:induction false} SpentSnoc(a: seq<Metric>, mask: seq<bool>)
    requires |a| == |mask| > 0
    ensures var n := |a| - 1; Spent(a, mask) == Spent(a[..n], mask[..n]) + if mask[n] then a[n].spend else 0.0
  {
    var n := |a| - 1;
    if n > 0 {
      SpentSnoc(a[1..], mask[1..]);
      assert a[1..][..n - 1] == a[..n][1..] && mask[1..][..n - 1] == mask[..n][1..];
    }
  }

  lemma {:induction false} AdditiveFiguresAreCounted(a: seq<Metric>, mask: seq<bool>, figure: Metric -> int)
    requires |a| == |mask| && Additive(figure)
    ensures figure(MaskSum(a, mask)) == Counted(a, mask, figure)
  {
    if a != [] {
      var n := |a| - 1;
      AdditiveFiguresAreCounted(a[..n], mask[..n], figure);
      CountedSnoc(a, mask, figure);
      assert mask[n] ==> figure(Plus(MaskSum(a[..n], mask[..n]), a[n])) == figure(MaskSum(a[..n], mask[..n])) + figure(a[n]);
    }
  }

  lemma {:induction false} SpendIsAdded(a: seq<Metric>, mask: seq<bool>)
    requires |a| == |mask|
    ensures MaskSum(a, mask).spend == Spent(a, mask)
  {
    if a != [] {
      SpendIsAdded(a[..|a| - 1], mask[..|a| - 1]);
      SpentSnoc(a, mask);
    }
  }

  /** A sum is taken figure by figure, each over the selected entries. */
  lemma SumsAreTakenByFigure(a: seq<Metric>, mask: seq<bool>)
    requires |a| == |mask|
    ensures var sum := MaskSum(a, mask);
            && sum.spend == Spent(a, mask)
            && sum.requests == Counted(a, mask, (m: Metric) => m.requests)
            && sum.tokens == Counted(a, mask, (m: Metric) => m.tokens)
            && sum.input == Counted(a, mask, (m: Metric) => m.input)
            && sum.output == Counted(a, mask, (m: Metric) => m.output)
            && sum.failed == Counted(a, mask, (m: Metric) => m.failed)
            && sum.cacheRead == Counted(a, mask, (m: Metric) => m.cacheRead)
  {
    SpendIsAdded(a, mask);
    AdditiveFiguresAreCounted(a, mask, (m: Metric) => m.requests);
    AdditiveFiguresAreCounted(a, mask, (m: Metric) => m.tokens);
    AdditiveFiguresAreCounted(a, mask, (m: Metric) => m.input);
    AdditiveFiguresAreCounted(a, mask, (m: Metric) => m.output);
    AdditiveFiguresAreCounted(a, mask, (m: Metric) => m.failed);
    AdditiveFiguresAreCounted(a, mask, (m: Metric) => m.cacheRead);
  }

  lemma SumSnoc(a: seq<Metric>, m: Metric)
    ensures Sum(a + [m]) == Plus(Sum(a), m)
  {
    assert (a + [m])[..|a|] == a && All(|a| + 1)[..|a|] == All(|a|);
  }

  lemma {:induction false} SumConcat(a: seq<Metric>, b: seq<Metric>)
    ensures Sum(a + b) == Plus(Sum(a), Sum(b))
  {
    if b == [] {
      assert a + b == a;
    } else {
      var n := |b| - 1;
      SumConcat(a, b[..n]);
      SumSnoc(a + b[..n], b[n]);
      SumSnoc(b[..n], b[n]);
      assert a + b[..n] + [b[n]] == a + b && b[..n] + [b[n]] == b;
    }
  }

  /** Replacing one entry changes the sum by the difference. */
  lemma {:induction false} SumUpdate(a: seq<Metric>, i: nat, m: Metric)
    requires i < |a|
    ensures Plus(Sum(a[i := m]), a[i]) == Plus(Sum(a), m)
  {
    var n := |a| - 1;
    assert a[..n] + [a[n]] == a;
    SumSnoc(a[..n], a[n]);
    if i < n {
      SumUpdate(a[..n], i, m);
      assert a[i := m] == a[..n][i := m] + [a[n]];
      SumSnoc(a[..n][i := m], a[n]);
    } else {
      assert a[i := m] == a[..n] + [m];
      SumSnoc(a[..n], m);
    }
  }

  lemma {:induction false} SumOfZeros(n: nat)
    ensures Sum(seq(n, _ => ZERO)) == ZERO
  {
    if n > 0 {
      SumOfZeros(n - 1);
      assert seq(n, _ => ZERO) == seq(n - 1, _ => ZERO) + [ZERO];
      SumSnoc(seq(n - 1, _ => ZERO), ZERO);
    }
  }

  /** The sum of the pieces that come from `i`. */
  function Gather(pieces: seq<Metric>, origin: seq<nat>, i: nat): Metric
    requires |pieces| == |origin|
  {
    MaskSum(pieces, seq(|origin|, j requires 0 <= j < |origin| => origin[j] == i))
  }

  function Pull(mask: seq<bool>, origin: seq<nat>): (m: seq<bool>)
    requires forall j :: 0 <= j < |origin| ==> origin[j] < |mask|
    ensures |m| == |origin|
  {
    seq(|origin|, j requires 0 <= j < |origin| => mask[origin[j]])
  }

  function Gathered(pieces: seq<Metric>, origin: seq<nat>, n: nat): (m: seq<Metric>)
    requires |pieces| == |origin|
    ensures |m| == n
  {
    seq(n, i requires 0 <= i < n => Gather(pieces, origin, i))
  }

  lemma {:induction false} MaskedZeros(mask: seq<bool>)
    ensures MaskSum(seq(|mask|, _ => ZERO), mask) == ZERO
  {
    if mask != [] {
      var n := |mask| - 1;
      MaskedZeros(mask[..n]);
      assert seq(n + 1, _ => ZERO)[..n] == seq(n, _ => ZERO);
    }
  }

  lemma {:induction false} MaskSumUpdate(a: seq<Metric>, mask: seq<bool>, i: nat, m: Metric)
    requires i < |a| == |mask|
    ensures MaskSum(a[i := Plus(a[i], m)], mask) == (if mask[i] then Plus(MaskSum(a, mask), m) else MaskSum(a, mask))
  {
    var n := |a| - 1;
    var b := a[i := Plus(a[i], m)];
    if i < n {
      MaskSumUpdate(a[..n], mask[..n], i, m);
      assert b[..n] == a[..n][i := Plus(a[i], m)];
    } else {
      assert b[..n] == a[..n];
    }
  }

  /** Summing pieces by where they come from, then over the selected origins, is summing the selected pieces. */
  lemma {:induction false} SumsExchange(pieces: seq<Metric>, origin: seq<nat>, mask: seq<bool>)
    requires |pieces| == |origin| && forall j :: 0 <= j < |origin| ==> origin[j] < |mask|
    ensures MaskSum(pieces, Pull(mask, origin)) == MaskSum(Gathered(pieces, origin, |mask|), mask)
    decreases |pieces|
  {
    if pieces == [] {
      assert Gathered(pieces, origin, |mask|) == seq(|mask|, _ => ZERO);
      MaskedZeros(mask);
    } else {
      var n := |pieces| - 1;
      var front, from := pieces[..n], origin[..n];
      SumsExchange(front, from, mask);
      assert Pull(mask, origin)[..n] == Pull(mask, from);
      var before := Gathered(front, from, |mask|);
      var at := origin[n];
      forall i: nat | i < |mask|
        ensures Gather(pieces, origin, i) == if i == at then Plus(before[i], pieces[n]) else before[i]
      {
        assert seq(n + 1, j requires 0 <= j < n + 1 => origin[j] == i)[..n] == seq(n, j requires 0 <= j < n => from[j] == i);
      }
      assert Gathered(pieces, origin, |mask|) == before[at := Plus(before[at], pieces[n])];
      MaskSumUpdate(before, mask, at, pieces[n]);
    }
  }
}

/** One window of daily activity: fetched page by page, then folded into totals, a day series and per-key sums. */
module UsageWindow {
  import opened Prelude
  import opened Text
  import opened Metrics

  const MAX_PAGES: nat := 500

  /** One `results[]` row: the day, its metrics, and the metrics of each key active in it. */
  datatype Row = Row(date: Option<string>, metrics: Metric, keys: seq<(string, Metric)>)

  /** A page of the listing: its rows, their totals, and whether another page follows. */
  datatype Page = Page(results: seq<Row>, totals: Metric, hasMore: bool)

  // ---------------------------------------------------------------- paging

  function Results(pages: seq<Page>): seq<Row> {
    if pages == [] then [] else Results(pages[..|pages| - 1]) + pages[|pages| - 1].results
  }

  function Totals(pages: seq<Page>): Metric {
    if pages == [] then ZERO else Plus(Totals(pages[..|pages| - 1]), pages[|pages| - 1].totals)
  }

  function RowMetrics(rows: seq<Row>): (m: seq<Metric>)
    ensures |m| == |rows|
  {
    seq(|rows|, i requires 0 <= i < |rows| => rows[i].metrics)
  }

  ghost predicate HonestTotals(pages: seq<Page>) {
    forall i :: 0 <= i < |pages| ==> pages[i].totals == Sum(RowMetrics(pages[i].results))
  }

  /** Following the listing stops after `n` pages: at the first page that promises no more, or at the cap. */
  predicate StopsAfter(listing: seq<Page>, n: nat) {
    && 0 < n <= |listing| && n <= 500
    && (forall i :: 0 <= i < n - 1 ==> listing[i].hasMore)
    && (listing[n - 1].hasMore ==> n == 500)
  }

  /** Follow the pages up to the cap; `listing[i]` is what page i + 1 answers, and a page past its end is refused, which
      fails the whole fetch. */
  method UserDailyActivity(listing: seq<Page>) returns (answer: Option<(seq<Row>, Metric)>, ghost fetched: nat)
    ensures answer.Some? <==> exists n: nat :: StopsAfter(listing, n)
    ensures answer.Some? ==> StopsAfter(listing, fetched)
    ensures answer.Some? ==> answer.value == (Results(listing[..fetched]), Totals(listing[..fetched]))
  {
    var accumulated, summed, page := [], ZERO, 1;
    fetched := 0;
    while true
      invariant page == fetched + 1 && fetched <= |listing| && fetched < MAX_PAGES
      invariant forall i :: 0 <= i < fetched ==> listing[i].hasMore
      invariant accumulated == Results(listing[..fetched]) && summed == Totals(listing[..fetched])
      decreases |listing| - fetched
    {
      if page > |listing| {
        return None, fetched;
      }
      var data := listing[page - 1];
      accumulated := accumulated + data.results;
      summed := Plus(summed, data.totals);
      fetched := fetched + 1;
      assert listing[..fetched][..fetched - 1] == listing[..fetched - 1];
      if !data.hasMore {
        break;
      }
      page := page + 1;
      if page > MAX_PAGES {
        break;
      }
    }
    assert StopsAfter(listing, fetched);
    answer := Some((accumulated, summed));
  }

  lemma {:induction false} TotalsAreRowSums(pages: seq<Page>)
    requires HonestTotals(pages)
    ensures Totals(pages) == Sum(RowMetrics(Results(pages)))
  {
    if pages != [] {
      var n := |pages| - 1;
      TotalsAreRowSums(pages[..n]);
      SumConcat(RowMetrics(Results(pages[..n])), RowMetrics(pages[n].results));
      assert RowMetrics(Results(pages)) == RowMetrics(Results(pages[..n])) + RowMetrics(pages[n].results);
    }
  }

  // ---------------------------------------------------------------- the fold

  function DateMask(rows: seq<Row>, date: string): (m: seq<bool>)
    ensures |m| == |rows|
  {
    seq(|rows|, i requires 0 <= i < |rows| => rows[i].date == Some(date))
  }

  /** What a day sums to over all its rows. */
  function DaySum(rows: seq<Row>, date: string): Metric {
    MaskSum(RowMetrics(rows), DateMask(rows, date))
  }

  predicate HasDate(rows: seq<Row>, date: string) {
    exists i :: 0 <= i < |rows| && rows[i].date == Some(date)
  }

  /** The part of a row's key table that belongs to `key`. */
  function KeyPart(keys: seq<(string, Metric)>, key: string): Metric {
    if keys == [] then ZERO
    else
      var front := KeyPart(keys[..|keys| - 1], key);
      if keys[|keys| - 1].0 == key then Plus(front, keys[|keys| - 1].1) else front
  }

  function KeyParts(rows: seq<Row>, key: string): (m: seq<Metric>)
    ensures |m| == |rows|
  {
    seq(|rows|, i requires 0 <= i < |rows| => KeyPart(rows[i].keys, key))
  }

  function KeySum(rows: seq<Row>, key: string): Metric { Sum(KeyParts(rows, key)) }

  predicate NamesKey(keys: seq<(string, Metric)>, key: string) {
    exists i :: 0 <= i < |keys| && keys[i].0 == key
  }

  predicate HasKey(rows: seq<Row>, key: string) {
    exists i :: 0 <= i < |rows| && NamesKey(rows[i].keys, key)
  }

  /** `_accumulate_day_series` for a dated row. */
  function AddDay(acc: map<string, Metric>, date: string, m: Metric): map<string, Metric> {
    acc[date := Plus(if date in acc then acc[date] else ZERO, m)]
  }

  lemma DaySumSnoc(rows: seq<Row>, row: Row, date: string)
    ensures DaySum(rows + [row], date) == if row.date == Some(date) then Plus(DaySum(rows, date), row.metrics) else DaySum(rows, date)
    ensures HasDate(rows + [row], date) <==> HasDate(rows, date) || row.date == Some(date)
    ensures !HasDate(rows, date) ==> DaySum(rows, date) == ZERO
  {
    var all := rows + [row];
    assert RowMetrics(all)[..|rows|] == RowMetrics(rows) && DateMask(all, date)[..|rows|] == DateMask(rows, date);
    assert all[|rows|] == row;
    assert forall i :: 0 <= i < |rows| ==> all[i] == rows[i];
    if HasDate(rows, date) {
      var i :| 0 <= i < |rows| && rows[i].date == Some(date);
      assert all[i].date == Some(date);
    } else {
      UnmaskedIsZero(RowMetrics(rows), DateMask(rows, date));
    }
  }

  lemma {:induction false} UnmaskedIsZero(a: seq<Metric>, mask: seq<bool>)
    requires |a| == |mask| && forall i :: 0 <= i < |mask| ==> !mask[i]
    ensures MaskSum(a, mask) == ZERO
  {
    if a != [] {
      UnmaskedIsZero(a[..|a| - 1], mask[..|a| - 1]);
    }
  }

  lemma KeySumSnoc(rows: seq<Row>, row: Row, key: string)
    ensures KeySum(rows + [row], key) == Plus(KeySum(rows, key), KeyPart(row.keys, key))
  {
    assert KeyParts(rows + [row], key) == KeyParts(rows, key) + [KeyPart(row.keys, key)];
    SumSnoc(KeyParts(rows, key), KeyPart(row.keys, key));
  }

  lemma HasKeySnoc(rows: seq<Row>, row: Row, key: string)
    ensures HasKey(rows + [row], key) <==> HasKey(rows, key) || NamesKey(row.keys, key)
  {
    var all := rows + [row];
    assert all[|rows|] == row;
    if i :| 0 <= i < |rows| && NamesKey(rows[i].keys, key) {
      assert NamesKey(all[i].keys, key);
    }
    if i :| 0 <= i < |all| && NamesKey(all[i].keys, key) {
      assert i < |rows| ==> NamesKey(rows[i].keys, key);
    }
  }

  lemma UnnamedKeySumsToZero(rows: seq<Row>, key: string)
    requires !HasKey(rows, key)
    ensures KeySum(rows, key) == ZERO
  {
    forall i | 0 <= i < |rows| ensures KeyPart(rows[i].keys, key) == ZERO {
      AbsentKeyIsZero(rows[i].keys, key);
    }
    assert KeyParts(rows, key) == seq(|rows|, _ => ZERO);
    SumOfZeros(|rows|);
  }

  lemma {:induction false} AbsentKeyIsZero(keys: seq<(string, Metric)>, key: string)
    requires !NamesKey(keys, key)
    ensures KeyPart(keys, key) == ZERO
  {
    if keys != [] {
      var n := |keys| - 1;
      assert keys[n].0 != key;
      assert forall i :: 0 <= i < n ==> keys[..n][i] == keys[i];
      AbsentKeyIsZero(keys[..n], key);
    }
  }

  /** What folding a key table into an accumulator gives. */
  ghost predicate KeysAdded(acc: map<string, Metric>, keys: seq<(string, Metric)>, out: map<string, Metric>) {
    && (forall k :: k in out <==> k in acc || NamesKey(keys, k))
    && (forall k :: k in out ==> out[k] == Plus(if k in acc then acc[k] else ZERO, KeyPart(keys, k)))
  }

  lemma KeysAddedOneMore(acc: map<string, Metric>, keys: seq<(string, Metric)>, entry: (string, Metric),
                         before: map<string, Metric>, after: map<string, Metric>)
    requires KeysAdded(acc, keys, before) && after == AddDay(before, entry.0, entry.1)
    ensures KeysAdded(acc, keys + [entry], after)
  {
    var all := keys + [entry];
    assert all[..|keys|] == keys && all[|keys|] == entry;
    forall k ensures NamesKey(all, k) <==> NamesKey(keys, k) || k == entry.0 {
      if j :| 0 <= j < |keys| && keys[j].0 == k {
        assert all[j].0 == k;
      }
      if j :| 0 <= j < |all| && all[j].0 == k {
        assert j < |keys| ==> keys[j].0 == k;
      }
    }
    if entry.0 !in before {
      AbsentKeyIsZero(keys, entry.0);
    }
  }

  /** Fold one row's key table into the accumulator. */
  method AccumulateDayKeys(acc: map<string, Metric>, keys: seq<(string, Metric)>) returns (out: map<string, Metric>)
    ensures KeysAdded(acc, keys, out)
  {
    out := acc;
    for i := 0 to |keys|
      invariant KeysAdded(acc, keys[..i], out)
    {
      var (key, m) := keys[i];
      ghost var before := out;
      out := AddDay(out, key, m);
      KeysAddedOneMore(acc, keys[..i], keys[i], before, out);
      assert keys[..i + 1] == keys[..i] + [keys[i]];
    }
    assert keys[..|keys|] == keys;
  }

  /** `days` holds exactly the day sums of `rows`. */
  ghost predicate DaysOf(rows: seq<Row>, days: map<string, Metric>) {
    && (forall d :: d in days <==> HasDate(rows, d))
    && (forall d :: d in days ==> days[d] == DaySum(rows, d))
  }

  ghost predicate KeysOf(rows: seq<Row>, keys: map<string, Metric>) {
    && (forall k :: k in keys <==> HasKey(rows, k))
    && (forall k :: k in keys ==> keys[k] == KeySum(rows, k))
  }

  lemma DaysOfOneMore(rows: seq<Row>, row: Row, before: map<string, Metric>, after: map<string, Metric>)
    requires DaysOf(rows, before)
    requires after == if row.date.Some? then AddDay(before, row.date.value, row.metrics) else before
    ensures DaysOf(rows + [row], after)
  {
    forall d
      ensures d in after <==> HasDate(rows + [row], d)
      ensures d in after ==> after[d] == DaySum(rows + [row], d)
    {
      DaySumSnoc(rows, row, d);
    }
  }

  lemma KeysOfOneMore(rows: seq<Row>, row: Row, before: map<string, Metric>, after: map<string, Metric>)
    requires KeysOf(rows, before)
    requires KeysAdded(before, row.keys, after)
    ensures KeysOf(rows + [row], after)
  {
    forall k
      ensures k in after <==> HasKey(rows + [row], k)
      ensures k in after ==> after[k] == KeySum(rows + [row], k)
    {
      KeySumSnoc(rows, row, k);
      HasKeySnoc(rows, row, k);
      if !HasKey(rows, k) {
        UnnamedKeySumsToZero(rows, k);
      }
    }
  }

  /** Entries in strictly ascending order of their day's text. */
  ghost predicate Ascending(series: seq<(string, Metric)>) {
    forall i, j :: 0 <= i < j < |series| ==> Less(series[i].0, series[j].0)
  }

  /** The day series of a window: one entry per day, in order. */
  ghost predicate IsSeries(series: seq<(string, Metric)>, days: map<string, Metric>) {
    && Ascending(series)
    && (forall d, m :: (d, m) in series <==> d in days && days[d] == m)
  }

  function Insert(series: seq<(string, Metric)>, entry: (string, Metric)): seq<(string, Metric)> {
    if series == [] then [entry]
    else if Less(entry.0, series[0].0) then [entry] + series
    else [series[0]] + Insert(series[1..], entry)
  }

  lemma {:induction false} InsertMembers(series: seq<(string, Metric)>, entry: (string, Metric), e: (string, Metric))
    ensures e in Insert(series, entry) <==> e == entry || e in series
  {
    if series != [] {
      InsertMembers(series[1..], entry, e);
      assert series == [series[0]] + series[1..];
    }
  }

  lemma {:induction false} InsertKeepsOrder(series: seq<(string, Metric)>, entry: (string, Metric))
    requires Ascending(series) && forall i :: 0 <= i < |series| ==> series[i].0 != entry.0
    ensures Ascending(Insert(series, entry))
  {
    if series != [] {
      LessIsTotal(entry.0, series[0].0);
      if Less(entry.0, series[0].0) {
        forall j | 0 < j < |series| ensures Less(entry.0, series[j].0) {
          LessIsTransitive(entry.0, series[0].0, series[j].0);
        }
      } else {
        InsertKeepsOrder(series[1..], entry);
        var tail := Insert(series[1..], entry);
        forall j | 0 <= j < |tail| ensures Less(series[0].0, tail[j].0) {
          InsertMembers(series[1..], entry, tail[j]);
        }
      }
    }
  }

  method SortSeries(days: map<string, Metric>) returns (series: seq<(string, Metric)>)
    ensures IsSeries(series, days)
  {
    series := [];
    var left := days.Keys;
    while left != {}
      invariant left <= days.Keys && Ascending(series)
      invariant forall d, m :: (d, m) in series <==> d in days && d !in left && days[d] == m
      decreases |left|
    {
      var d :| d in left;
      assert forall i :: 0 <= i < |series| ==> (series[i].0, series[i].1) in series;
      InsertKeepsOrder(series, (d, days[d]));
      forall e ensures e in Insert(series, (d, days[d])) <==> e == (d, days[d]) || e in series {
        InsertMembers(series, (d, days[d]), e);
      }
      series := Insert(series, (d, days[d]));
      left := left - {d};
    }
  }

  /** The day sums have one series only: it depends neither on the order of the rows nor on that of the fold. */
  lemma {:induction false} SeriesIsUnique(a: seq<(string, Metric)>, b: seq<(string, Metric)>)
    requires Ascending(a) && Ascending(b) && forall e :: e in a <==> e in b
    ensures a == b
  {
    assert (|a| > 0 ==> a[0] in b) && (|b| > 0 ==> b[0] in a);
    if a != [] {
      LessIsTotal(a[0].0, b[0].0);
      LessIsIrreflexive(a[0].0);
      assert a[0] == b[0];
      forall e ensures (e in a[1..] <==> e in a && e != a[0]) && (e in b[1..] <==> e in b && e != b[0]) {
        assert a == [a[0]] + a[1..] && b == [b[0]] + b[1..];
        assert forall j :: 0 <= j < |a| - 1 ==> a[1..][j] != a[0];
        assert forall j :: 0 <= j < |b| - 1 ==> b[1..][j] != b[0];
      }
      SeriesIsUnique(a[1..], b[1..]);
    }
  }

  /** Fold the rows of a window: per-day sums in order, per-key sums, and the rows that carry no date, each on its own. */
  method AggregateWindow(rows: seq<Row>)
    returns (series: seq<(string, Metric)>, keys: map<string, Metric>, undated: seq<Metric>, ghost days: map<string, Metric>)
    ensures DaysOf(rows, days) && IsSeries(series, days)
    ensures KeysOf(rows, keys)
    ensures undated == Undated(rows)
  {
    var sums := map[];
    keys, undated := map[], [];
    for i := 0 to |rows|
      invariant DaysOf(rows[..i], sums)
      invariant KeysOf(rows[..i], keys)
      invariant undated == Undated(rows[..i])
    {
      var row := rows[i];
      assert rows[..i + 1] == rows[..i] + [row];
      ghost var was, had := sums, keys;
      if row.date.Some? {
        sums := AddDay(sums, row.date.value, row.metrics);
      } else {
        undated := undated + [row.metrics];
      }
      keys := AccumulateDayKeys(keys, row.keys);
      DaysOfOneMore(rows[..i], row, was, sums);
      KeysOfOneMore(rows[..i], row, had, keys);
    }
    assert rows[..|rows|] == rows;
    days := sums;
    series := SortSeries(sums);
  }

  /** The metrics of the rows that carry no date: such rows are never merged. */
  function Undated(rows: seq<Row>): seq<Metric> {
    if rows == [] then []
    else
      var n := |rows| - 1;
      if rows[n].date.None? then Undated(rows[..n]) + [rows[n].metrics] else Undated(rows[..n])
  }

  /** A figure is listed apart exactly if some row without a date has it. */
  lemma {:induction false} UndatedAreListedApart(rows: seq<Row>, m: Metric)
    ensures m in Undated(rows) <==> exists i :: 0 <= i < |rows| && rows[i].date.None? && rows[i].metrics == m
  {
    if rows != [] {
      var n := |rows| - 1;
      UndatedAreListedApart(rows[..n], m);
      assert forall i :: 0 <= i < n ==> rows[..n][i] == rows[i];
    }
  }

  // ---------------------------------------------------------------- cutting a window

  /** Some piece of row `i` names the key. */
  ghost predicate PieceNames(pieces: seq<Row>, origin: seq<nat>, i: int, key: string)
    requires |origin| == |pieces|
  {
    exists j :: 0 <= j < |pieces| && origin[j] == i && NamesKey(pieces[j].keys, key)
  }

  /** `pieces` is `whole` cut up, in any order: each piece comes from one row and has its day, and the pieces of a row
      add up to it, in its metrics and key by key, and name the keys it names. */
  ghost predicate IsCut(whole: seq<Row>, pieces: seq<Row>, origin: seq<nat>) {
    && |origin| == |pieces|
    && (forall j :: 0 <= j < |pieces| ==> origin[j] < |whole| && pieces[j].date == whole[origin[j]].date)
    && (forall i :: 0 <= i < |whole| ==> Somewhere(origin, i))
    && Gathered(RowMetrics(pieces), origin, |whole|) == RowMetrics(whole)
    && (forall key :: Gathered(KeyParts(pieces, key), origin, |whole|) == KeyParts(whole, key))
    && (forall i, key :: 0 <= i < |whole| ==> (NamesKey(whole[i].keys, key) <==> PieceNames(pieces, origin, i, key)))
  }

  ghost predicate Somewhere(origin: seq<nat>, i: int) {
    exists j :: 0 <= j < |origin| && origin[j] == i
  }

  lemma KeysOccurAlike(whole: seq<Row>, pieces: seq<Row>, origin: seq<nat>, key: string)
    requires IsCut(whole, pieces, origin)
    ensures HasKey(pieces, key) <==> HasKey(whole, key)
  {
    if HasKey(whole, key) {
      var i :| 0 <= i < |whole| && NamesKey(whole[i].keys, key);
      assert PieceNames(pieces, origin, i, key);
    }
    if HasKey(pieces, key) {
      var j :| 0 <= j < |pieces| && NamesKey(pieces[j].keys, key);
      assert PieceNames(pieces, origin, origin[j], key);
      assert NamesKey(whole[origin[j]].keys, key);
    }
  }

  /** Cutting a window up is invisible: day sums, key sums and totals, and which days and keys occur, stay the same. */
  lemma CutsAreInvisible(whole: seq<Row>, pieces: seq<Row>, origin: seq<nat>)
    requires IsCut(whole, pieces, origin)
    ensures Sum(RowMetrics(pieces)) == Sum(RowMetrics(whole))
    ensures forall d :: DaySum(pieces, d) == DaySum(whole, d) && (HasDate(pieces, d) <==> HasDate(whole, d))
    ensures forall k :: KeySum(pieces, k) == KeySum(whole, k) && (HasKey(pieces, k) <==> HasKey(whole, k))
  {
    var n := |whole|;
    assert Pull(All(n), origin) == All(|pieces|);
    SumsExchange(RowMetrics(pieces), origin, All(n));
    forall d ensures DaySum(pieces, d) == DaySum(whole, d) && (HasDate(pieces, d) <==> HasDate(whole, d)) {
      assert Pull(DateMask(whole, d), origin) == DateMask(pieces, d);
      SumsExchange(RowMetrics(pieces), origin, DateMask(whole, d));
      if HasDate(whole, d) {
        var i :| 0 <= i < n && whole[i].date == Some(d);
        assert Somewhere(origin, i);
        var j :| 0 <= j < |origin| && origin[j] == i;
        assert pieces[j].date == Some(d);
      }
    }
    forall k ensures KeySum(pieces, k) == KeySum(whole, k) && (HasKey(pieces, k) <==> HasKey(whole, k)) {
      SumsExchange(KeyParts(pieces, k), origin, All(n));
      KeysOccurAlike(whole, pieces, origin, k);
    }
  }

  /** Cut and uncut windows have the same day sums and key sums, hence the same series. */
  lemma SameSeries(whole: seq<Row>, pieces: seq<Row>, origin: seq<nat>,
                   a: seq<(string, Metric)>, b: seq<(string, Metric)>, days: map<string, Metric>, sums: map<string, Metric>)
    requires IsCut(whole, pieces, origin)
    requires DaysOf(whole, days) && IsSeries(a, days)
    requires DaysOf(pieces, sums) && IsSeries(b, sums)
    ensures a == b
  {
    CutsAreInvisible(whole, pieces, origin);
    forall e ensures e in a <==> e in b {
      var (d, m) := e;
      assert ((d, m) in a <==> d in days && days[d] == m) && ((d, m) in b <==> d in sums && sums[d] == m);
      assert d in days <==> d in sums;
    }
    SeriesIsUnique(a, b);
  }

  /** A window fetched page by page within the cap, however its rows were cut over the pages, folds to the series, the
      key sums and the totals of the uncut window. */
  method FetchAndFold(whole: seq<Row>, listing: seq<Page>, ghost origin: seq<nat>)
    returns (series: seq<(string, Metric)>, keys: map<string, Metric>, totals: Metric, ghost days: map<string, Metric>)
    requires HonestTotals(listing) && |listing| > 0
    requires StopsAfter(listing, |listing|) && !listing[|listing| - 1].hasMore
    requires IsCut(whole, Results(listing), origin)
    ensures totals == Sum(RowMetrics(whole))
    ensures DaysOf(whole, days) && IsSeries(series, days)
    ensures KeysOf(whole, keys)
  {
    var answer, fetched := UserDailyActivity(listing);
    assert fetched == |listing|;
    assert listing[..fetched] == listing;
    TotalsAreRowSums(listing);
    CutsAreInvisible(whole, answer.value.0, origin);
    totals := answer.value.1;
    var undated;
    series, keys, undated, days := AggregateWindow(answer.value.0);
  }

  // ---------------------------------------------------------------- last use

  /** The rows that decide when `model` was last used: dated ones that list it. */
  predicate UsesOn(rows: seq<(string, seq<string>)>, i: nat, model: string) {
    i < |rows| && rows[i].0 != "" && model in rows[i].1
  }

  ghost predicate Used(rows: seq<(string, seq<string>)>, model: string) {
    exists i: nat :: UsesOn(rows, i, model)
  }

  /** `day` is a day `model` was used on, and none that it was used on comes later as text. */
  ghost predicate LatestUse(rows: seq<(string, seq<string>)>, model: string, day: string) {
    && (exists i: nat :: UsesOn(rows, i, model) && rows[i].0 == day)
    && (forall i: nat :: UsesOn(rows, i, model) ==> !Less(day, rows[i].0))
  }

  /** Each model's last day of use; a row is its day (empty when absent) and the models it lists. */
  method LastUsedFromWindow(rows: seq<(string, seq<string>)>) returns (lastUsed: map<string, string>)
    ensures forall m :: m in lastUsed <==> Used(rows, m)
    ensures forall m :: m in lastUsed ==> LatestUse(rows, m, lastUsed[m])
  {
    lastUsed := map[];
    for i := 0 to |rows|
      invariant forall m :: m in lastUsed <==> Used(rows[..i], m)
      invariant forall m :: m in lastUsed ==> LatestUse(rows[..i], m, lastUsed[m])
    {
      ghost var before := lastUsed;
      lastUsed := NoteDay(lastUsed, rows[i].0, rows[i].1);
      assert rows[..i + 1] == rows[..i] + [rows[i]];
      forall m
        ensures m in lastUsed <==> Used(rows[..i + 1], m)
        ensures m in lastUsed ==> LatestUse(rows[..i + 1], m, lastUsed[m])
      {
        OneMoreRow(rows[..i], rows[i], m, before, lastUsed);
      }
    }
    assert rows[..|rows|] == rows;
  }

  /** What one row does to the map. */
  method NoteDay(known: map<string, string>, day: string, models: seq<string>) returns (out: map<string, string>)
    ensures forall m :: m in out <==> m in known || (day != "" && m in models)
    ensures forall m :: m in out ==>
              out[m] == (if day != "" && m in models && (m !in known || Less(known[m], day)) then day else known[m])
  {
    out := known;
    if day == "" {
      return;
    }
    for j := 0 to |models|
      invariant forall m :: m in out <==> m in known || m in models[..j]
      invariant forall m :: m in out ==>
                  out[m] == (if m in models[..j] && (m !in known || Less(known[m], day)) then day else known[m])
    {
      var model := models[j];
      assert models[..j + 1] == models[..j] + [model];
      LessIsIrreflexive(day);
      if model !in out || Less(out[model], day) {
        out := out[model := day];
      }
    }
    assert models[..|models|] == models;
  }

  /** Whether the row makes its day the last use of `m`. */
  predicate Improves(row: (string, seq<string>), m: string, before: map<string, string>) {
    row.0 != "" && m in row.1 && (m !in before || Less(before[m], row.0))
  }

  lemma OneMoreRow(rows: seq<(string, seq<string>)>, row: (string, seq<string>), m: string,
                   before: map<string, string>, after: map<string, string>)
    requires m in before <==> Used(rows, m)
    requires m in before ==> LatestUse(rows, m, before[m])
    requires m in after <==> m in before || (row.0 != "" && m in row.1)
    requires m in after ==> after[m] == if Improves(row, m, before) then row.0 else before[m]
    ensures m in after <==> Used(rows + [row], m)
    ensures m in after ==> LatestUse(rows + [row], m, after[m])
  {
    var all, n := rows + [row], |rows|;
    assert forall j: nat :: j < n ==> all[j] == rows[j] && (UsesOn(rows, j, m) <==> UsesOn(all, j, m));
    assert UsesOn(all, n, m) <==> row.0 != "" && m in row.1;
    if m in before {
      var j: nat :| UsesOn(rows, j, m) && rows[j].0 == before[m];
      assert UsesOn(all, j, m) && all[j].0 == before[m];
    }
    if m in after {
      forall k: nat | UsesOn(all, k, m) ensures !Less(after[m], all[k].0) {
        LessIsIrreflexive(row.0);
        if k < n && Improves(row, m, before) {
          assert UsesOn(rows, k, m);
          if Less(row.0, all[k].0) {
            LessIsTransitive(before[m], row.0, all[k].0);
          }
        }
      }
    }
  }
}
