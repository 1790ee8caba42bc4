/**
 * The monthly histogram both histogram endpoints compute: observations grouped
 * by `TruncMonth("date")`, counted, ordered by month.
 */
module MonthlyHistogram {
  import opened Dates
  import opened JsonValues

  /** A month of the calendar, as `TruncMonth` leaves a date. */
  datatype Month = Month(year: int, month: int)

  /** One group of the histogram. */
  datatype Bucket = Bucket(month: Month, count: nat)

  function MonthOf(d: Date): Month {
    Month(d.year, d.month)
  }

  predicate MonthBefore(a: Month, b: Month) {
    a.year < b.year || (a.year == b.year && a.month < b.month)
  }

  /** Chronological order, one bucket per month. */
  predicate StrictlyAscending(h: seq<Bucket>) {
    forall i, j :: 0 <= i < j < |h| ==> MonthBefore(h[i].month, h[j].month)
  }

  /** `Count("id")` of a group is never zero: a group exists because a row falls in it. */
  predicate AllPositive(h: seq<Bucket>) {
    forall i :: 0 <= i < |h| ==> h[i].count > 0
  }

  /** How many of `dates` fall in month `m`. */
  function Occurrences(dates: seq<Date>, m: Month): (n: nat)
    ensures n <= |dates|
  {
    if dates == [] then 0
    else (if MonthOf(dates[0]) == m then 1 else 0) + Occurrences(dates[1..], m)
  }

  /** The count the histogram reports for month `m`; zero when it has no bucket. */
  function CountFor(h: seq<Bucket>, m: Month): nat {
    if h == [] then 0
    else if h[0].month == m then h[0].count
    else CountFor(h[1..], m)
  }

  function Total(h: seq<Bucket>): nat {
    if h == [] then 0 else h[0].count + Total(h[1..])
  }

  /** Counts one more row in month `m`, opening its bucket in its place when it has none. */
  function AddOne(h: seq<Bucket>, m: Month): (r: seq<Bucket>)
    ensures |r| >= 1
    ensures Total(r) == Total(h) + 1
  {
    if h == [] then [Bucket(m, 1)]
    else if h[0].month == m then [Bucket(m, h[0].count + 1)] + h[1..]
    else if MonthBefore(m, h[0].month) then [Bucket(m, 1)] + h
    else [h[0]] + AddOne(h[1..], m)
  }

  /** Every month of `h`, and `m`, lies after `b`: so does every month of `AddOne(h, m)`. */
  lemma {:induction false} AddOneAfter(h: seq<Bucket>, m: Month, b: Month)
    requires forall j :: 0 <= j < |h| ==> MonthBefore(b, h[j].month)
    requires MonthBefore(b, m)
    ensures forall i :: 0 <= i < |AddOne(h, m)| ==> MonthBefore(b, AddOne(h, m)[i].month)
  {
    if h != [] && h[0].month != m && !MonthBefore(m, h[0].month) {
      AddOneAfter(h[1..], m, b);
      assert forall i :: 1 <= i < |AddOne(h, m)| ==> AddOne(h, m)[i] == AddOne(h[1..], m)[i - 1];
    }
  }

  /** Adding a row keeps the histogram chronological, one bucket per month, none empty. */
  lemma {:induction false} AddOneKeepsShape(h: seq<Bucket>, m: Month)
    requires StrictlyAscending(h) && AllPositive(h)
    ensures StrictlyAscending(AddOne(h, m)) && AllPositive(AddOne(h, m))
  {
    if h != [] && h[0].month != m && !MonthBefore(m, h[0].month) {
      var rest := AddOne(h[1..], m);
      AddOneKeepsShape(h[1..], m);
      AddOneAfter(h[1..], m, h[0].month);
      assert forall i :: 1 <= i < |AddOne(h, m)| ==> AddOne(h, m)[i] == rest[i - 1];
    }
  }

  /** A month before the first bucket of a chronological histogram has no count. */
  lemma {:induction false} CountForBefore(h: seq<Bucket>, k: Month)
    requires StrictlyAscending(h) && h != [] && MonthBefore(k, h[0].month)
    ensures CountFor(h, k) == 0
  {
    if |h| > 1 {
      assert MonthBefore(h[0].month, h[1].month);
      assert forall i, j :: 0 <= i < j < |h[1..]| ==> h[1..][i] == h[i + 1] && h[1..][j] == h[j + 1];
      CountForBefore(h[1..], k);
    }
  }

  /** Adding a row to month `m` raises the count of `m` by one and no other. */
  lemma {:induction false} CountForAddOne(h: seq<Bucket>, m: Month, k: Month)
    requires StrictlyAscending(h)
    ensures CountFor(AddOne(h, m), k) == CountFor(h, k) + (if k == m then 1 else 0)
  {
    if h == [] {
    } else if h[0].month == m {
      assert AddOne(h, m)[1..] == h[1..];
    } else if MonthBefore(m, h[0].month) {
      assert AddOne(h, m)[1..] == h;
      if k == m {
        CountForBefore(h, k);
      }
    } else {
      assert AddOne(h, m)[1..] == AddOne(h[1..], m);
      assert forall i, j :: 0 <= i < j < |h[1..]| ==> h[1..][i] == h[i + 1] && h[1..][j] == h[j + 1];
      CountForAddOne(h[1..], m, k);
    }
  }

  /** The histogram of `dates`: one bucket per month holding a date, in chronological order. */
  function Histogram(dates: seq<Date>): (h: seq<Bucket>)
    ensures StrictlyAscending(h) && AllPositive(h)
    ensures Total(h) == |dates|
  {
    if dates == [] then []
    else
      var rest := Histogram(dates[1..]);
      AddOneKeepsShape(rest, MonthOf(dates[0]));
      AddOne(rest, MonthOf(dates[0]))
  }

  /** Each month's bucket counts exactly the dates in that month; months without a date have none. */
  lemma {:induction false} HistogramCounts(dates: seq<Date>, m: Month)
    ensures CountFor(Histogram(dates), m) == Occurrences(dates, m)
  {
    if dates != [] {
      HistogramCounts(dates[1..], m);
      CountForAddOne(Histogram(dates[1..]), MonthOf(dates[0]), m);
    }
  }

  /** In a strictly ascending histogram the bucket at `i` is the one `CountFor` finds. */
  lemma {:induction false} CountForAt(h: seq<Bucket>, i: nat)
    requires StrictlyAscending(h) && i < |h|
    ensures CountFor(h, h[i].month) == h[i].count
  {
    if i > 0 {
      assert MonthBefore(h[0].month, h[i].month);
      assert h[1..][i - 1] == h[i];
      CountForAt(h[1..], i - 1);
    }
  }

  /** No bucket is empty: every month present holds at least one date. */
  lemma BucketsAreNonEmpty(dates: seq<Date>, i: nat)
    requires i < |Histogram(dates)|
    ensures Histogram(dates)[i].count == Occurrences(dates, Histogram(dates)[i].month) > 0
  {
    var h := Histogram(dates);
    CountForAt(h, i);
    HistogramCounts(dates, h[i].month);
  }

  /** The JSON list the endpoints return: `{"year", "month", "count"}` per bucket. */
  function HistogramJson(h: seq<Bucket>): (j: Json)
    ensures j.JArray? && |j.items| == |h|
    ensures forall i :: 0 <= i < |h| ==>
      j.items[i] == JObject([("year", JInt(h[i].month.year)), ("month", JInt(h[i].month.month)), ("count", JInt(h[i].count))])
  {
    JArray(seq(|h|, i requires 0 <= i < |h| =>
      JObject([("year", JInt(h[i].month.year)), ("month", JInt(h[i].month.month)), ("count", JInt(h[i].count))])))
  }
}
