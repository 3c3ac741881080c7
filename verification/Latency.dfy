/** Nearest-rank percentiles over exact numbers, and sorting. */
module Percentiles {
  import opened Prelude

  ghost predicate Ascending(s: seq<real>) {
    forall i, j :: 0 <= i < j < |s| ==> s[i] <= s[j]
  }

  /** How many samples are at most `v`. */
  function AtMost(s: seq<real>, v: real): (n: nat)
    ensures n <= |s|
  {
    if s == [] then 0 else (if s[0] <= v then 1 else 0) + AtMost(s[1..], v)
  }

  function Ceil(x: real): int { -((-x).Floor) }

  /** `percentile` of sorted samples. */
  function Percentile(sorted: seq<real>, p: real): (v: Option<real>)
    ensures v.None? <==> sorted == []
  {
    var n := |sorted|;
    if n == 0 then None
    else if p <= 0.0 then Some(sorted[0])
    else
      var rank := Ceil(Share(p, n)) - 1;
      var floor := if rank < 0 then 0 else rank;
      Some(sorted[if floor < n - 1 then floor else n - 1])
  }

  /** At least i + 1 samples are at most the i-th. */
  lemma {:induction false} AtMostReaches(s: seq<real>, i: nat)
    requires Ascending(s) && i < |s|
    ensures AtMost(s, s[i]) > i
  {
    if i > 0 {
      AtMostReaches(s[1..], i - 1);
    }
  }

  /** Only the samples before the i-th can be at most a smaller number. */
  lemma {:induction false} AtMostStays(s: seq<real>, i: nat, v: real)
    requires Ascending(s) && i < |s| && v < s[i]
    ensures AtMost(s, v) <= i
  {
    if i > 0 {
      AtMostStays(s[1..], i - 1, v);
    } else {
      NoneAtMost(s, v);
    }
  }

  lemma {:induction false} NoneAtMost(s: seq<real>, v: real)
    requires forall i :: 0 <= i < |s| ==> v < s[i]
    ensures AtMost(s, v) == 0
  {
    if s != [] {
      NoneAtMost(s[1..], v);
    }
  }

  /** p percent of n. */
  function Share(p: real, n: nat): real { p / 100.0 * n as real }

  /** `v` is the least sample that at least p percent of the samples do not exceed. */
  ghost predicate IsPercentile(samples: seq<real>, p: real, v: real) {
    && v in samples
    && Enough(samples, p, v)
    && forall w :: w < v ==> !Enough(samples, p, w)
  }

  predicate Enough(samples: seq<real>, p: real, v: real) { Covers(AtMost(samples, v), |samples|, p) }

  /** k of n are p percent. */
  predicate Covers(k: nat, n: nat, p: real) { k as real >= p / 100.0 * n as real }

  lemma CeilBounds(x: real)
    ensures Ceil(x) as real >= x && Ceil(x) as real < x + 1.0
  {
  }

  lemma PercentileIsTheLeastRank(sorted: seq<real>, p: real)
    requires Ascending(sorted) && sorted != [] && 0.0 < p <= 100.0
    ensures IsPercentile(sorted, p, Percentile(sorted, p).value)
  {
    var x := Share(p, |sorted|);
    var rank := Ceil(x) - 1;
    CeilBounds(x);
    Scaling(p / 100.0, |sorted| as real);
    assert 0 <= rank <= |sorted| - 1;
    var v := sorted[rank];
    AtMostReaches(sorted, rank);
    forall w | w < v ensures !Enough(sorted, p, w) {
      AtMostStays(sorted, rank, w);
    }
  }

  lemma Scaling(fraction: real, n: real)
    requires 0.0 < fraction <= 1.0 && n > 0.0
    ensures 0.0 < fraction * n <= n
  {
  }

  lemma ShareGrows(p: real, q: real, n: nat)
    requires p <= q
    ensures Share(p, n) <= Share(q, n)
  {
  }

  /** A larger p never gives a smaller percentile; p needs no bounds. */
  lemma PercentileIsMonotone(sorted: seq<real>, p: real, q: real)
    requires Ascending(sorted) && sorted != [] && p <= q
    ensures Percentile(sorted, p).value <= Percentile(sorted, q).value
  {
    if p > 0.0 {
      var x, y := Share(p, |sorted|), Share(q, |sorted|);
      ShareGrows(p, q, |sorted|);
      CeilBounds(x);
      CeilBounds(y);
      assert Ceil(x) <= Ceil(y);
    }
  }

  /** Outside 0 to 100 the percentile is the smallest or the largest sample. */
  lemma PercentileAtTheEnds(sorted: seq<real>, p: real)
    requires Ascending(sorted) && sorted != []
    ensures p <= 0.0 ==> Percentile(sorted, p) == Some(sorted[0])
    ensures p >= 100.0 ==> Percentile(sorted, p) == Some(sorted[|sorted| - 1])
  {
    if p >= 100.0 {
      ShareGrows(100.0, p, |sorted|);
      CeilBounds(Share(p, |sorted|));
    }
  }

  // ---------------------------------------------------------------- sorting

  function Insert(s: seq<real>, v: real): seq<real> {
    if s == [] then [v] else if v < s[0] then [v] + s else [s[0]] + Insert(s[1..], v)
  }

  function Sort(s: seq<real>): seq<real> {
    if s == [] then [] else Insert(Sort(s[1..]), s[0])
  }

  lemma {:induction false} InsertKeepsMembers(s: seq<real>, v: real)
    ensures multiset(Insert(s, v)) == multiset(s) + multiset{v} && |Insert(s, v)| == |s| + 1
    ensures forall u :: u in Insert(s, v) <==> u == v || u in s
  {
    if s != [] {
      assert s == [s[0]] + s[1..];
      InsertKeepsMembers(s[1..], v);
    }
  }

  lemma {:induction false} InsertKeepsOrder(s: seq<real>, v: real)
    requires Ascending(s)
    ensures Ascending(Insert(s, v))
  {
    if s != [] && v >= s[0] {
      InsertKeepsOrder(s[1..], v);
      InsertKeepsMembers(s[1..], v);
      var tail := Insert(s[1..], v);
      forall i | 0 <= i < |tail| ensures s[0] <= tail[i] {
        assert tail[i] in tail;
        assert tail[i] == v || tail[i] in s[1..];
      }
    }
  }

  lemma {:induction false} InsertCounts(s: seq<real>, v: real, w: real)
    ensures AtMost(Insert(s, v), w) == AtMost(s, w) + if v <= w then 1 else 0
  {
    if s == [] {
    } else if v < s[0] {
      assert ([v] + s)[1..] == s;
    } else {
      InsertCounts(s[1..], v, w);
      assert ([s[0]] + Insert(s[1..], v))[1..] == Insert(s[1..], v);
    }
  }

  lemma {:induction false} SortKeepsMembers(s: seq<real>)
    ensures multiset(Sort(s)) == multiset(s) && |Sort(s)| == |s|
  {
    if s != [] {
      SortKeepsMembers(s[1..]);
      InsertKeepsMembers(Sort(s[1..]), s[0]);
      assert s == [s[0]] + s[1..];
    }
  }

  lemma {:induction false} SortAscends(s: seq<real>)
    ensures Ascending(Sort(s))
  {
    if s != [] {
      SortAscends(s[1..]);
      InsertKeepsOrder(Sort(s[1..]), s[0]);
    }
  }

  lemma SortSorts(s: seq<real>)
    ensures Ascending(Sort(s)) && multiset(Sort(s)) == multiset(s) && |Sort(s)| == |s|
    ensures forall v :: v in Sort(s) <==> v in s
  {
    SortAscends(s);
    SortKeepsMembers(s);
    assert forall v :: v in Sort(s) <==> v in multiset(Sort(s));
    assert forall v :: v in s <==> v in multiset(s);
  }

  lemma {:induction false} SortCounts(s: seq<real>, w: real)
    ensures AtMost(Sort(s), w) == AtMost(s, w)
  {
    if s != [] {
      SortCounts(s[1..], w);
      InsertCounts(Sort(s[1..]), s[0], w);
    }
  }

  /** The percentile of sorted samples is that of the samples, in whatever order they came. */
  lemma PercentileOfSamples(samples: seq<real>, p: real)
    requires samples != [] && 0.0 < p <= 100.0
    ensures Sort(samples) != [] && IsPercentile(samples, p, Percentile(Sort(samples), p).value)
  {
    SortSorts(samples);
    PercentileIsTheLeastRank(Sort(samples), p);
    var v := Percentile(Sort(samples), p).value;
    EnoughOfSorted(samples, p, v);
    forall w | w < v ensures !Enough(samples, p, w) {
      EnoughOfSorted(samples, p, w);
    }
  }

  lemma EnoughOfSorted(samples: seq<real>, p: real, w: real)
    ensures Enough(samples, p, w) <==> Enough(Sort(samples), p, w)
  {
    SortKeepsMembers(samples);
    SortCounts(samples, w);
    var k, n, sorted := AtMost(samples, w), |samples|, Sort(samples);
    assert AtMost(sorted, w) == k && |sorted| == n;
  }

  function Sum(s: seq<real>): real {
    if s == [] then 0.0 else s[0] + Sum(s[1..])
  }

  function Average(s: seq<real>): Option<real> {
    if s == [] then None else Some(Sum(s) / |s| as real)
  }

  lemma {:induction false} InsertAdds(s: seq<real>, v: real)
    ensures Sum(Insert(s, v)) == Sum(s) + v
  {
    if s != [] && v >= s[0] {
      InsertAdds(s[1..], v);
    }
  }

  lemma {:induction false} SortKeepsSum(s: seq<real>)
    ensures Sum(Sort(s)) == Sum(s)
  {
    if s != [] {
      SortKeepsSum(s[1..]);
      InsertAdds(Sort(s[1..]), s[0]);
    }
  }

  /** The average times the number of samples is their sum. */
  lemma AverageTimesCount(s: seq<real>, n: real)
    requires s != [] && n == |s| as real
    ensures Average(s).value * n == Sum(s)
  {
    var total := Sum(s);
    assert total / n * n == total;
  }

  lemma {:induction false} SumIsBounded(s: seq<real>, least: real, most: real)
    requires forall v :: v in s ==> least <= v <= most
    ensures |s| as real * least <= Sum(s) <= |s| as real * most
  {
    if s != [] {
      assert s[0] in s && forall v :: v in s[1..] ==> v in s;
      SumIsBounded(s[1..], least, most);
      var n, total := |s| - 1, Sum(s[1..]);
      OneMore(n, least);
      OneMore(n, most);
    }
  }

  lemma OneMore(n: nat, v: real)
    ensures (n + 1) as real * v == n as real * v + v
  {
  }

  /** The average lies between any bounds on the samples; it is theirs if they are all equal. */
  lemma AverageIsBounded(s: seq<real>, least: real, most: real)
    requires s != [] && forall v :: v in s ==> least <= v <= most
    ensures Average(s).Some? && least <= Average(s).value <= most
  {
    SumIsBounded(s, least, most);
    var total, n := Sum(s), |s| as real;
    Divided(total, n, least, most);
  }

  lemma Divided(total: real, n: real, least: real, most: real)
    requires n > 0.0 && n * least <= total <= n * most
    ensures least <= total / n <= most
  {
    var average := total / n;
    assert average * n == total;
  }

  /** Sorting first does not change the average. */
  lemma AverageOfSorted(samples: seq<real>)
    ensures Average(Sort(samples)) == Average(samples)
  {
    SortSorts(samples);
    SortKeepsSum(samples);
  }

  /** Stable sort by descending count, as `sorted(…, reverse=True)` is. */
  function InsertDescending<T>(s: seq<T>, count: T -> nat, t: T): seq<T> {
    if s == [] then [t]
    else
      var n := |s| - 1;
      if count(s[n]) < count(t) then InsertDescending(s[..n], count, t) + [s[n]] else s + [t]
  }

  function SortDescending<T>(s: seq<T>, count: T -> nat): seq<T> {
    if s == [] then [] else InsertDescending(SortDescending(s[..|s| - 1], count), count, s[|s| - 1])
  }

  ghost predicate Descending<T>(s: seq<T>, count: T -> nat) {
    forall i, j :: 0 <= i < j < |s| ==> count(s[i]) >= count(s[j])
  }

  /** The elements with count `c`, in order. */
  function Having<T>(s: seq<T>, count: T -> nat, c: nat): seq<T> {
    if s == [] then []
    else
      var front := Having(s[..|s| - 1], count, c);
      if count(s[|s| - 1]) == c then front + [s[|s| - 1]] else front
  }

  lemma {:induction false} InsertDescendingMembers<T>(s: seq<T>, count: T -> nat, t: T)
    ensures multiset(InsertDescending(s, count, t)) == multiset(s) + multiset{t}
  {
    if s != [] {
      var n := |s| - 1;
      assert s[..n] + [s[n]] == s;
      InsertDescendingMembers(s[..n], count, t);
    }
  }

  lemma {:induction false} InsertDescendingKeepsOrder<T>(s: seq<T>, count: T -> nat, t: T)
    requires Descending(s, count)
    ensures Descending(InsertDescending(s, count, t), count)
  {
    if s != [] {
      var n := |s| - 1;
      if count(s[n]) < count(t) {
        InsertDescendingKeepsOrder(s[..n], count, t);
        InsertDescendingMembers(s[..n], count, t);
        var front := InsertDescending(s[..n], count, t);
        forall i | 0 <= i < |front| ensures count(front[i]) >= count(s[n]) {
          assert front[i] in multiset(front);
          assert front[i] == t || front[i] in multiset(s[..n]);
        }
      }
    }
  }

  lemma HavingSnoc<T>(s: seq<T>, count: T -> nat, t: T, c: nat)
    ensures Having(s + [t], count, c) == if count(t) == c then Having(s, count, c) + [t] else Having(s, count, c)
  {
    assert (s + [t])[..|s|] == s;
  }

  lemma {:induction false} InsertDescendingIsStable<T>(s: seq<T>, count: T -> nat, t: T, c: nat)
    ensures Having(InsertDescending(s, count, t), count, c) == if count(t) == c then Having(s, count, c) + [t] else Having(s, count, c)
  {
    if s == [] {
      assert [t] == [] + [t];
      HavingSnoc([], count, t, c);
    } else {
      var n := |s| - 1;
      if count(s[n]) < count(t) {
        InsertDescendingIsStable(s[..n], count, t, c);
        HavingSnoc(InsertDescending(s[..n], count, t), count, s[n], c);
      } else {
        HavingSnoc(s, count, t, c);
      }
    }
  }

  /** The sort is descending and keeps the order of elements that tie. */
  lemma {:induction false} SortDescendingIsStable<T>(s: seq<T>, count: T -> nat, c: nat)
    ensures Descending(SortDescending(s, count), count)
    ensures multiset(SortDescending(s, count)) == multiset(s)
    ensures Having(SortDescending(s, count), count, c) == Having(s, count, c)
  {
    if s != [] {
      var n := |s| - 1;
      assert s[..n] + [s[n]] == s;
      SortDescendingIsStable(s[..n], count, c);
      InsertDescendingKeepsOrder(SortDescending(s[..n], count), count, s[n]);
      InsertDescendingMembers(SortDescending(s[..n], count), count, s[n]);
      InsertDescendingIsStable(SortDescending(s[..n], count), count, s[n], c);
    }
  }
}

/** Insertion-ordered dictionaries, as the source's accumulators are. */
module Accumulators {
  import opened Prelude

  datatype Entry<+V> = Entry(key: string, value: V)

  ghost predicate Keyed<V>(s: seq<Entry<V>>) {
    forall i, j :: 0 <= i < j < |s| ==> s[i].key != s[j].key
  }

  function At<V>(s: seq<Entry<V>>, key: string): Option<V> {
    if s == [] then None else if s[0].key == key then Some(s[0].value) else At(s[1..], key)
  }

  /** `setdefault(key, zero)` followed by an update of the value. */
  function Upsert<V>(s: seq<Entry<V>>, key: string, zero: V, f: V -> V): seq<Entry<V>> {
    if s == [] then [Entry(key, f(zero))]
    else if s[0].key == key then [Entry(key, f(s[0].value))] + s[1..]
    else [s[0]] + Upsert(s[1..], key, zero, f)
  }

  function Total<V>(s: seq<Entry<V>>, weight: V -> nat): nat {
    if s == [] then 0 else weight(s[0].value) + Total(s[1..], weight)
  }

  lemma {:induction false} UpsertSets<V>(s: seq<Entry<V>>, key: string, zero: V, f: V -> V, k: string)
    ensures At(Upsert(s, key, zero, f), k) ==
            if k != key then At(s, k) else if At(s, key).Some? then Some(f(At(s, key).value)) else Some(f(zero))
  {
    if s != [] && s[0].key != key {
      UpsertSets(s[1..], key, zero, f, k);
    }
  }

  lemma {:induction false} UpsertKeepsKeyed<V>(s: seq<Entry<V>>, key: string, zero: V, f: V -> V)
    requires Keyed(s)
    ensures Keyed(Upsert(s, key, zero, f))
    ensures forall i :: 0 <= i < |Upsert(s, key, zero, f)| ==>
              Upsert(s, key, zero, f)[i].key == key || exists j :: 0 <= j < |s| && s[j].key == Upsert(s, key, zero, f)[i].key
  {
    if s != [] && s[0].key != key {
      UpsertKeepsKeyed(s[1..], key, zero, f);
      var tail := Upsert(s[1..], key, zero, f);
      forall i | 0 <= i < |tail|
        ensures tail[i].key != s[0].key
        ensures tail[i].key == key || exists j :: 0 <= j < |s| && s[j].key == tail[i].key
      {
        if tail[i].key != key {
          var j :| 0 <= j < |s| - 1 && s[1..][j].key == tail[i].key;
          assert s[j + 1].key == tail[i].key;
        }
      }
    }
  }

  /** Counting one more adds one to the total. */
  lemma {:induction false} UpsertAddsOne<V(!new)>(s: seq<Entry<V>>, key: string, zero: V, f: V -> V, weight: V -> nat)
    requires weight(zero) == 0 && forall v :: weight(f(v)) == weight(v) + 1
    ensures Total(Upsert(s, key, zero, f), weight) == Total(s, weight) + 1
  {
    if s != [] && s[0].key != key {
      UpsertAddsOne(s[1..], key, zero, f, weight);
    }
  }
}

/** The latency contract: one pass over spend-log rows. */
module LatencyFold {
  import opened Prelude
  import opened Text
  import opened Percentiles
  import opened Accumulators

  const TOP_MODELS: nat := 8

  /** A spend-log row. Empty text stands for an absent model; a status that is not text is None; numbers and
      timestamps that do not parse are None. */
  datatype LogRow =
    | NotADict
    | LogRow(group: string, model: string, status: Option<string>, duration: Option<real>, tokens: Option<real>,
             start: Option<real>, first: Option<real>, end: Option<real>)

  function RowModel(r: LogRow): string
    requires r.LogRow?
  {
    if r.group != "" then r.group else if r.model != "" then r.model else "unknown"
  }

  function Label(r: LogRow): string
    requires r.LogRow?
  {
    if r.status.Some? && r.status.value != "" then r.status.value else "unknown"
  }

  predicate IsFailure(status: Option<string>) { status.Some? && Lower(status.value) != "success" }

  function Duration(r: LogRow): seq<real>
    requires r.LogRow?
  {
    if r.duration.Some? && r.duration.value >= 0.0 then [r.duration.value] else []
  }

  /** Time to first token, for streamed rows of a model only. */
  function Ttft(r: LogRow): seq<real>
    requires r.LogRow?
  {
    if "MCP:" <= RowModel(r) then []
    else if r.start.None? || r.first.None? || r.end.None? || r.first.value >= r.end.value then []
    else if r.first.value - r.start.value < 0.0 then []
    else [(r.first.value - r.start.value) * 1000.0]
  }

  function TokensPerSecond(r: LogRow): seq<real>
    requires r.LogRow?
  {
    if r.tokens.None? || r.tokens.value == 0.0 || r.duration.None? || r.duration.value <= 0.0 then []
    else [r.tokens.value / (r.duration.value / 1000.0)]
  }

  /** A status is a success in any mix of cases of that one word, and a failure if it is any other text. */
  lemma SuccessInAnyCase(status: string)
    ensures !IsFailure(None)
    ensures IsFailure(Some(status)) <==>
            |status| != 7 || exists i :: 0 <= i < 7 && status[i] != "success"[i] && status[i] != "SUCCESS"[i]
  {
    var lower := Lower(status);
    if |status| == 7 {
      forall i | 0 <= i < 7
        ensures lower[i] == "success"[i] <==> status[i] == "success"[i] || status[i] == "SUCCESS"[i]
      {
        LowerChanges(status, i);
        assert "success"[i] as int == "SUCCESS"[i] as int + 32 && 'A' <= "SUCCESS"[i] <= 'Z';
      }
      assert lower == "success" <==> forall i :: 0 <= i < 7 ==> lower[i] == "success"[i];
    }
  }

  /** What a row contributes: a duration if there is one and it is not negative; a time to first token, in milliseconds,
      if the row is of a model and its answer streamed; a rate per second if there are tokens and time was spent. */
  lemma WhatARowContributes(r: LogRow, v: real)
    requires r.LogRow?
    ensures |Duration(r)| <= 1 && |Ttft(r)| <= 1 && |TokensPerSecond(r)| <= 1
    ensures v in Duration(r) <==> r.duration == Some(v) && v >= 0.0
    ensures v in Ttft(r) <==>
            && !(|RowModel(r)| >= 4 && RowModel(r)[..4] == "MCP:")
            && r.start.Some? && r.first.Some? && r.end.Some?
            && r.start.value <= r.first.value < r.end.value
            && r.start.value + v / 1000.0 == r.first.value
    ensures v in TokensPerSecond(r) <==>
            && r.tokens.Some? && r.tokens.value != 0.0 && r.duration.Some? && r.duration.value > 0.0
            && v * (r.duration.value / 1000.0) == r.tokens.value
    ensures RowModel(r) == r.group || (r.group == "" && RowModel(r) == if r.model == "" then "unknown" else r.model)
    ensures RowModel(r) != "" && Label(r) != ""
    ensures r.status.Some? && r.status.value != "" ==> Label(r) == r.status.value
    ensures r.status in {None, Some("")} ==> Label(r) == "unknown"
  {
    if r.tokens.Some? && r.tokens.value != 0.0 && r.duration.Some? && r.duration.value > 0.0 {
      Quotient(r.tokens.value, r.duration.value / 1000.0, v);
    }
  }

  lemma Quotient(total: real, n: real, v: real)
    requires n > 0.0
    ensures v == total / n <==> v * n == total
  {
    var q := total / n;
    assert q * n == total;
    if v * n == total {
      assert (v - q) * n == 0.0;
    }
  }

  // ---------------------------------------------------------------- what the fold should give

  datatype ModelRecord = ModelRecord(requests: nat, failed: nat, durations: seq<real>)

  const NO_REQUESTS := ModelRecord(0, 0, [])

  function Record(rec: ModelRecord, r: LogRow): ModelRecord
    requires r.LogRow?
  {
    ModelRecord(rec.requests + 1, rec.failed + (if IsFailure(r.status) then 1 else 0), rec.durations + Duration(r))
  }

  /** The rows that are records at all. */
  function Records(rows: seq<LogRow>): (records: seq<LogRow>)
    ensures forall r :: r in records ==> r.LogRow?
    ensures |records| <= |rows|
  {
    if rows == [] then []
    else
      var n := |rows| - 1;
      if rows[n].LogRow? then Records(rows[..n]) + [rows[n]] else Records(rows[..n])
  }

  /** The records that `chosen` accepts. */
  function Only(records: seq<LogRow>, chosen: LogRow -> bool): (sub: seq<LogRow>)
    ensures |sub| <= |records| && forall r :: r in sub ==> r in records && chosen(r)
  {
    if records == [] then []
    else
      var n := |records| - 1;
      if chosen(records[n]) then Only(records[..n], chosen) + [records[n]] else Only(records[..n], chosen)
  }

  function OfModel(records: seq<LogRow>, model: string): seq<LogRow> {
    Only(records, (r: LogRow) => r.LogRow? && RowModel(r) == model)
  }

  function Labelled(records: seq<LogRow>, outcome: string): seq<LogRow> {
    Only(records, (r: LogRow) => r.LogRow? && Label(r) == outcome)
  }

  function Failures(records: seq<LogRow>): seq<LogRow> {
    Only(records, (r: LogRow) => r.LogRow? && IsFailure(r.status))
  }

  /** The samples of a measure, in order. */
  function Samples(records: seq<LogRow>, measure: LogRow --> seq<real>): seq<real>
    requires forall r :: r in records ==> measure.requires(r)
  {
    if records == [] then [] else Samples(records[..|records| - 1], measure) + measure(records[|records| - 1])
  }

  /** A model's record: how many of its requests there were, how many failed, and how long they took. */
  function Summary(records: seq<LogRow>): ModelRecord
    requires forall r :: r in records ==> r.LogRow?
  {
    ModelRecord(|records|, |Failures(records)|, Samples(records, Duration))
  }

  function Increment(n: nat): nat { n + 1 }

  function Itself(n: nat): nat { n }

  function RequestsOf(m: ModelRecord): nat { m.requests }

  ghost predicate OutcomesOf(outcomes: seq<Entry<nat>>, records: seq<LogRow>) {
    && Keyed(outcomes)
    && (forall outcome :: At(outcomes, outcome) == var n := |Labelled(records, outcome)|; if n == 0 then None else Some(n))
    && Total<nat>(outcomes, Itself) == |records|
  }

  ghost predicate ModelsOf(models: seq<Entry<ModelRecord>>, records: seq<LogRow>) {
    && Keyed(models)
    && (forall model :: At(models, model) ==
                        var own := OfModel(records, model); if own == [] then None else Some(Summary(own)))
    && Total(models, RequestsOf) == |records|
  }

  lemma OneMoreOutcome(outcomes: seq<Entry<nat>>, records: seq<LogRow>, r: LogRow)
    requires OutcomesOf(outcomes, records) && r.LogRow?
    ensures OutcomesOf(Upsert<nat>(outcomes, Label(r), 0, Increment), records + [r])
  {
    var f: nat -> nat := Increment;
    UpsertKeepsKeyed<nat>(outcomes, Label(r), 0, f);
    UpsertAddsOne<nat>(outcomes, Label(r), 0, f, Itself);
    assert (records + [r])[..|records|] == records;
    forall outcome
      ensures At(Upsert<nat>(outcomes, Label(r), 0, f), outcome) ==
              var n := |Labelled(records + [r], outcome)|; if n == 0 then None else Some(n)
    {
      UpsertSets<nat>(outcomes, Label(r), 0, f, outcome);
    }
  }

  lemma SummarySnoc(own: seq<LogRow>, r: LogRow)
    requires r.LogRow? && forall q :: q in own ==> q.LogRow?
    ensures Summary(own + [r]) == Record(Summary(own), r)
  {
    assert (own + [r])[..|own|] == own;
  }

  lemma OneMoreRequest(models: seq<Entry<ModelRecord>>, records: seq<LogRow>, r: LogRow)
    requires ModelsOf(models, records) && r.LogRow?
    ensures ModelsOf(Upsert(models, RowModel(r), NO_REQUESTS, (m: ModelRecord) => Record(m, r)), records + [r])
  {
    var f := (m: ModelRecord) => Record(m, r);
    UpsertKeepsKeyed(models, RowModel(r), NO_REQUESTS, f);
    UpsertAddsOne(models, RowModel(r), NO_REQUESTS, f, RequestsOf);
    assert (records + [r])[..|records|] == records;
    forall model
      ensures At(Upsert(models, RowModel(r), NO_REQUESTS, f), model) ==
              var own := OfModel(records + [r], model); if own == [] then None else Some(Summary(own))
    {
      UpsertSets(models, RowModel(r), NO_REQUESTS, f, model);
      SummarySnoc(OfModel(records, model), r);
      if OfModel(records, model) == [] {
        assert Summary([]) == NO_REQUESTS;
      }
    }
  }

  // ---------------------------------------------------------------- the fold

  datatype ModelRow = ModelRow(model: string, requests: nat, failed: nat, p50: Option<real>, p95: Option<real>)

  datatype Contract = Contract(sampled: bool, rowCount: nat,
                               p50: Option<real>, p95: Option<real>, p99: Option<real>, average: Option<real>,
                               ttft50: Option<real>, ttft95: Option<real>, tokens50: Option<real>,
                               outcomes: seq<Entry<nat>>, byModel: seq<ModelRow>)

  function Row(e: Entry<ModelRecord>): ModelRow {
    var sorted := Sort(e.value.durations);
    ModelRow(e.key, e.value.requests, e.value.failed, Percentile(sorted, 50.0), Percentile(sorted, 95.0))
  }

  function Rows(models: seq<Entry<ModelRecord>>): (rows: seq<ModelRow>)
    ensures |rows| == |models|
  {
    seq(|models|, i requires 0 <= i < |models| => Row(models[i]))
  }

  function Capped(rows: seq<LogRow>, cap: nat): seq<LogRow> { if |rows| > cap then rows[..cap] else rows }

  function Top<T>(s: seq<T>, n: nat): seq<T> { if |s| > n then s[..n] else s }

  lemma SamplesSnoc(records: seq<LogRow>, r: LogRow, measure: LogRow --> seq<real>)
    requires measure.requires(r) && forall q :: q in records ==> measure.requires(q)
    ensures Samples(records + [r], measure) == Samples(records, measure) + measure(r)
  {
    assert (records + [r])[..|records|] == records;
  }

  /** The single pass over the rows. */
  method FoldRows(safe: seq<LogRow>)
    returns (outcomes: seq<Entry<nat>>, perModel: seq<Entry<ModelRecord>>,
             durations: seq<real>, ttfts: seq<real>, rates: seq<real>)
    ensures OutcomesOf(outcomes, Records(safe)) && ModelsOf(perModel, Records(safe))
    ensures durations == Samples(Records(safe), Duration)
    ensures ttfts == Samples(Records(safe), Ttft)
    ensures rates == Samples(Records(safe), TokensPerSecond)
  {
    outcomes, perModel, durations, ttfts, rates := [], [], [], [], [];
    ghost var records := [];
    for i := 0 to |safe|
      invariant records == Records(safe[..i])
      invariant OutcomesOf(outcomes, records) && ModelsOf(perModel, records)
      invariant durations == Samples(records, Duration)
      invariant ttfts == Samples(records, Ttft)
      invariant rates == Samples(records, TokensPerSecond)
    {
      var r := safe[i];
      assert safe[..i + 1][..i] == safe[..i];
      if r.LogRow? {
        OneMoreOutcome(outcomes, records, r);
        OneMoreRequest(perModel, records, r);
        SamplesSnoc(records, r, Duration);
        SamplesSnoc(records, r, Ttft);
        SamplesSnoc(records, r, TokensPerSecond);
        perModel := Upsert(perModel, RowModel(r), NO_REQUESTS, (m: ModelRecord) => Record(m, r));
        outcomes := Upsert<nat>(outcomes, Label(r), 0, Increment);
        durations := durations + Duration(r);
        ttfts := ttfts + Ttft(r);
        rates := rates + TokensPerSecond(r);
        records := records + [r];
      }
    }
    assert safe[..|safe|] == safe;
  }

  /** Fold the rows, at most `cap` of them. */
  method ComputeLatencyContract(rows: seq<LogRow>, cap: nat, truncated: bool)
    returns (c: Contract, ghost tally: seq<Entry<nat>>, ghost models: seq<Entry<ModelRecord>>)
    ensures c.sampled == (truncated || |rows| > cap) && c.rowCount == if |rows| > cap then cap else |rows|
    ensures Capped(rows, cap) == rows[..c.rowCount]
    ensures var records := Records(Capped(rows, cap));
            && OutcomesOf(tally, records) && ModelsOf(models, records)
            && c.p50 == Percentile(Sort(Samples(records, Duration)), 50.0)
            && c.p95 == Percentile(Sort(Samples(records, Duration)), 95.0)
            && c.p99 == Percentile(Sort(Samples(records, Duration)), 99.0)
            && c.average == Average(Samples(records, Duration))
            && c.ttft50 == Percentile(Sort(Samples(records, Ttft)), 50.0)
            && c.ttft95 == Percentile(Sort(Samples(records, Ttft)), 95.0)
            && c.tokens50 == Percentile(Sort(Samples(records, TokensPerSecond)), 50.0)
    ensures c.outcomes == SortDescending(tally, CountOf)
    ensures forall i, j :: 0 <= i < j < |c.outcomes| ==> c.outcomes[i].value >= c.outcomes[j].value
    ensures var table := SortDescending(Rows(models), RowRequests);
            && c.byModel == table[..if |table| > 8 then 8 else |table|]
            && forall i, j :: 0 <= i < j < |table| ==> table[i].requests >= table[j].requests
  {
    var outcomes, perModel, durations, ttfts, rates := FoldRows(Capped(rows, cap));
    tally, models := outcomes, perModel;
    AverageOfSorted(durations);
    durations, ttfts, rates := Sort(durations), Sort(ttfts), Sort(rates);
    c := Contract(truncated || |rows| > cap, |Capped(rows, cap)|,
                  Percentile(durations, 50.0), Percentile(durations, 95.0), Percentile(durations, 99.0), Average(durations),
                  Percentile(ttfts, 50.0), Percentile(ttfts, 95.0), Percentile(rates, 50.0),
                  SortDescending(outcomes, CountOf),
                  Top(SortDescending(Rows(perModel), RowRequests), TOP_MODELS));
    TablesDescend(outcomes, perModel);
  }

  lemma TablesDescend(tally: seq<Entry<nat>>, models: seq<Entry<ModelRecord>>)
    ensures var outcomes := SortDescending(tally, CountOf);
            forall i, j :: 0 <= i < j < |outcomes| ==> outcomes[i].value >= outcomes[j].value
    ensures var table := SortDescending(Rows(models), RowRequests);
            forall i, j :: 0 <= i < j < |table| ==> table[i].requests >= table[j].requests
  {
    var outcomes, table := SortDescending(tally, CountOf), SortDescending(Rows(models), RowRequests);
    SortDescendingIsStable(tally, CountOf, 0);
    assert forall i, j :: 0 <= i < j < |outcomes| ==> CountOf(outcomes[i]) >= CountOf(outcomes[j]);
    SortDescendingIsStable(Rows(models), RowRequests, 0);
    assert forall i, j :: 0 <= i < j < |table| ==> RowRequests(table[i]) >= RowRequests(table[j]);
  }

  function CountOf(e: Entry<nat>): nat { e.value }

  function RowRequests(m: ModelRow): nat { m.requests }

  // ---------------------------------------------------------------- what follows for the page

  function Counts(outcomes: seq<Entry<nat>>): nat { Total<nat>(outcomes, Itself) }

  lemma {:induction false} CountsSnoc(s: seq<Entry<nat>>, e: Entry<nat>)
    ensures Counts(s + [e]) == Counts(s) + e.value
  {
    if s == [] {
      assert s + [e] == [e];
    } else {
      assert (s + [e])[1..] == s[1..] + [e];
      CountsSnoc(s[1..], e);
    }
  }

  lemma {:induction false} InsertKeepsCounts(s: seq<Entry<nat>>, count: Entry<nat> -> nat, e: Entry<nat>)
    ensures Counts(InsertDescending(s, count, e)) == Counts(s) + e.value
  {
    CountsSnoc(s, e);
    if s != [] {
      var n := |s| - 1;
      InsertKeepsCounts(s[..n], count, e);
      CountsSnoc(s[..n], s[n]);
      assert s[..n] + [s[n]] == s;
      CountsSnoc(InsertDescending(s[..n], count, e), s[n]);
    } else {
      assert [] + [e] == [e];
    }
  }

  lemma {:induction false} SortKeepsCounts(tally: seq<Entry<nat>>, count: Entry<nat> -> nat)
    ensures Counts(SortDescending(tally, count)) == Counts(tally)
  {
    if tally != [] {
      var n := |tally| - 1;
      SortKeepsCounts(tally[..n], count);
      InsertKeepsCounts(SortDescending(tally[..n], count), count, tally[n]);
      CountsSnoc(tally[..n], tally[n]);
      assert tally[..n] + [tally[n]] == tally;
    }
  }

  /** The displayed outcomes and the per-model requests both add up to the records folded: the rows, less those that are
      no records. */
  lemma BothTablesAddUp(rows: seq<LogRow>, tally: seq<Entry<nat>>, models: seq<Entry<ModelRecord>>)
    requires OutcomesOf(tally, Records(rows)) && ModelsOf(models, Records(rows))
    ensures Counts(SortDescending(tally, CountOf)) == Total(models, RequestsOf) == |Records(rows)|
    ensures |Records(rows)| == |rows| <==> forall i :: 0 <= i < |rows| ==> rows[i].LogRow?
  {
    SortKeepsCounts(tally, CountOf);
    RecordsAreAllRows(rows);
  }

  lemma {:induction false} RecordsAreAllRows(rows: seq<LogRow>)
    ensures |Records(rows)| == |rows| <==> forall i :: 0 <= i < |rows| ==> rows[i].LogRow?
  {
    if rows != [] {
      var n := |rows| - 1;
      RecordsAreAllRows(rows[..n]);
      assert forall i :: 0 <= i < n ==> rows[..n][i] == rows[i];
    }
  }

  lemma {:induction false} AtEntry<V>(s: seq<Entry<V>>, i: nat)
    requires Keyed(s) && i < |s|
    ensures At(s, s[i].key) == Some(s[i].value)
  {
    if i > 0 {
      AtEntry(s[1..], i - 1);
      assert s[1..][i - 1] == s[i];
    }
  }

  /** Every model has a request, never more failures than requests, and its figures are those of its own requests. */
  lemma ModelRowsAreFair(models: seq<Entry<ModelRecord>>, records: seq<LogRow>, i: nat)
    requires ModelsOf(models, records) && i < |models|
    ensures var own := OfModel(records, models[i].key);
            && 1 <= models[i].value.requests == |own|
            && models[i].value.failed <= models[i].value.requests
            && models[i].value == Summary(own)
            && var row, durations := Rows(models)[i], Samples(own, Duration);
               && row.model == models[i].key && row.requests == |own| && row.failed == |Failures(own)|
               && (row.p50.None? <==> durations == []) && (row.p95.None? <==> durations == [])
               && (durations != [] ==> IsPercentile(durations, 50.0, row.p50.value) && IsPercentile(durations, 95.0, row.p95.value))
  {
    AtEntry(models, i);
    var durations := Samples(OfModel(records, models[i].key), Duration);
    SortSorts(durations);
    if durations != [] {
      PercentileOfSamples(durations, 50.0);
      PercentileOfSamples(durations, 95.0);
    }
  }

  /** A model left out of the table has no more requests than any in it. */
  lemma TheBusiestModelsAreShown(models: seq<Entry<ModelRecord>>, j: nat, k: nat)
    requires j < 8 <= k < |SortDescending(Rows(models), RowRequests)|
    ensures var table := SortDescending(Rows(models), RowRequests);
            |Top(table, TOP_MODELS)| == 8 && table[k].requests <= Top(table, TOP_MODELS)[j].requests
  {
    SortDescendingIsStable(Rows(models), RowRequests, 0);
    var table := SortDescending(Rows(models), RowRequests);
    assert RowRequests(table[j]) >= RowRequests(table[k]);
  }

  /** A status of no characters is labelled unknown, like a missing one, but counts as a failure, which a missing one
      does not. */
  lemma AnEmptyStatusIsAnUnknownFailure(r: LogRow)
    requires r.LogRow?
    ensures Label(r) == "unknown" && IsFailure(r.status) <==> r.status == Some("") || r.status == Some("unknown")
  {
    if r.status.Some? {
      if r.status.value == "" {
        assert Lower("") == "";
      } else if r.status.value == "unknown" {
        assert Lower("unknown")[0] == 'u' && "success"[0] == 's';
      }
    }
  }
}
