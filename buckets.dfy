/**
 * The client-side re-aggregation that `Details.aggregateData` (client/Details.js) and
 * `transformSensorData` (server/tables.js) both perform on the history API's points: keep the
 * points that have a timestamp, a temperature and a humidity and are not older than a start date,
 * bucket them by hour or by calendar day, and average temperature and humidity per bucket.
 */
module Buckets {
  import opened Wrappers
  import opened Calendar
  import opened Grouping
  import opened History

  /** The bucket width: `YYYY-MM-DD HH:00:00` or `YYYY-MM-DD`. */
  datatype Resolution = Hour | Day

  function BucketKey(res: Resolution, t: DateTime): string
    requires Valid(t)
  {
    match res
    case Hour => HourKey(t)
    case Day => DayKey(t)
  }

  /** `startDate.setDate(startDate.getDate() - n)` on a copy of `now`: `n` calendar days earlier,
      at the same time of day. */
  function DaysBefore(now: DateTime, n: nat): (start: DateTime)
    requires Valid(now)
    ensures Valid(start) && AddDays(start, n) == now
    ensures n > 0 ==> Before(start, now)
  {
    AddDaysInverse(now, -(n as int));
    AddDaysOrder(now, -(n as int));
    AddDays(now, -(n as int))
  }

  /** `entry.timestamp && entry.temperature != null && entry.humidity != null` and
      `new Date(entry.timestamp) >= start`; a timestamp that is not a date compares false. */
  predicate Kept(p: Point, start: DateTime)
  {
    p.timestamp != "" && p.temperature.Some? && p.humidity.Some? &&
    ParseDisplayMinute(p.timestamp).Some? && AtOrAfter(ParseDisplayMinute(p.timestamp).value, start)
  }

  /** The bucket a kept point falls into. */
  function PointKey(p: Point, res: Resolution): string
    requires ParseDisplayMinute(p.timestamp).Some?
  {
    BucketKey(res, ParseDisplayMinute(p.timestamp).value)
  }

  /** Some kept point falls into bucket `k`. */
  predicate KeptInto(entries: seq<Point>, start: DateTime, res: Resolution, k: string)
  {
    exists i :: 0 <= i < |entries| && Kept(entries[i], start) && PointKey(entries[i], res) == k
  }

  /** A point as a sample of its bucket with its two values, when the filter keeps it. */
  function Candidate(p: Point, start: DateTime, res: Resolution): (c: Option<Sample>)
    ensures c.Some? <==> Kept(p, start)
    ensures c.Some? ==> c.value.key == PointKey(p, res) && |c.value.values| == 2
  {
    if Kept(p, start) then Some(Sample(PointKey(p, res), [p.temperature.value, p.humidity.value])) else None
  }

  /** The kept points, in order, as samples. */
  function KeptSamples(entries: seq<Point>, start: DateTime, res: Resolution): (s: seq<Sample>)
    ensures Width(s, 2)
  {
    var c := seq(|entries|, i requires 0 <= i < |entries| => Candidate(entries[i], start, res));
    PresentWidth(c, 2);
    Present(c)
  }

  lemma {:induction false} PresentWidth(c: seq<Option<Sample>>, w: nat)
    requires forall i :: 0 <= i < |c| && c[i].Some? ==> |c[i].value.values| == w
    ensures Width(Present(c), w)
  {
    if |c| > 0 {
      PresentWidth(c[..|c| - 1], w);
    }
  }

  /** `{ timestamp: key, temperature: sum / count, humidity: sum / count }`. */
  datatype Bucket = Bucket(key: string, temperature: real, humidity: real)

  /** `Object.entries(groupedData).map(...)` over the buckets of the samples. */
  function Averaged(s: seq<Sample>): seq<Bucket>
    requires Width(s, 2)
  {
    RowsKeys(s, 2);
    var r := Rows(Fold(s), 2);
    seq(|r|, i requires 0 <= i < |r| => Bucket(r[i].key, r[i].values[0], r[i].values[1]))
  }

  /** The buckets of one store's points, in the order their keys were first seen. */
  function BucketAverages(entries: seq<Point>, start: DateTime, res: Resolution): seq<Bucket>
  {
    Averaged(KeptSamples(entries, start, res))
  }

  /** The filter and the `forEach` that fills `groupedData`, then the mapping to averages. */
  method GroupEntries(entries: seq<Point>, start: DateTime, res: Resolution) returns (buckets: seq<Bucket>)
    ensures buckets == BucketAverages(entries, start, res)
  {
    var samples := KeptSamples(entries, start, res);
    var g := Accumulate(samples, 2);
    RowsKeys(samples, 2);
    var r := Rows(g, 2);
    buckets := seq(|r|, i requires 0 <= i < |r| => Bucket(r[i].key, r[i].values[0], r[i].values[1]));
    assert buckets == Averaged(samples);
  }

  // ---------------------------------------------------------------- what the buckets hold

  /** A bucket exists for exactly the keys of the kept points. */
  lemma KeptSamplesKeys(entries: seq<Point>, start: DateTime, res: Resolution, k: string)
    ensures HasKey(KeptSamples(entries, start, res), k) <==> KeptInto(entries, start, res, k)
  {
    var c := seq(|entries|, i requires 0 <= i < |entries| => Candidate(entries[i], start, res));
    PresentKeys(c, k);
    if KeptInto(entries, start, res, k) {
      var i :| 0 <= i < |entries| && Kept(entries[i], start) && PointKey(entries[i], res) == k;
      assert c[i].Some? && c[i].value.key == k;
    }
  }

  predicate HasBucket(b: seq<Bucket>, k: string)
  {
    exists i :: 0 <= i < |b| && b[i].key == k
  }

  /** The buckets of the samples carry the keys of the rows, in the same order. */
  lemma AveragedRows(s: seq<Sample>)
    requires Width(s, 2)
    ensures WellFormed(Fold(s), 2)
    ensures var b := Averaged(s); var r := Rows(Fold(s), 2);
            |b| == |r| && forall i :: 0 <= i < |b| ==> b[i].key == r[i].key
  {
    RowsKeys(s, 2);
  }

  lemma AveragedDistinct(s: seq<Sample>)
    requires Width(s, 2)
    ensures var b := Averaged(s);
            forall i, j :: 0 <= i < j < |b| ==> b[i].key != b[j].key
    ensures var b := Averaged(s);
            forall i, j :: 0 <= i < j < |b| ==> SeenBefore(s, b[i].key, b[j].key)
  {
    RowsKeys(s, 2);
    AveragedRows(s);
  }

  lemma AveragedKeys(s: seq<Sample>, k: string)
    requires Width(s, 2)
    ensures HasBucket(Averaged(s), k) <==> HasKey(s, k)
  {
    RowsKeys(s, 2);
    AveragedRows(s);
    var r := Rows(Fold(s), 2);
    var b := Averaged(s);
    if HasKey(s, k) {
      var i :| 0 <= i < |r| && r[i].key == k;
      assert b[i].key == k;
    }
    if HasBucket(b, k) {
      var i :| 0 <= i < |b| && b[i].key == k;
      assert r[i].key == k;
    }
  }

  lemma AveragedValues(s: seq<Sample>)
    requires Width(s, 2)
    ensures var b := Averaged(s);
            forall i :: 0 <= i < |b| ==>
              CountOf(s, b[i].key) >= 1 &&
              b[i].temperature == SumOf(s, b[i].key, 0) / (CountOf(s, b[i].key) as real) &&
              b[i].humidity == SumOf(s, b[i].key, 1) / (CountOf(s, b[i].key) as real)
  {
    RowsKeys(s, 2);
    var r := Rows(Fold(s), 2);
    var b := Averaged(s);
    assert |b| == |r|;
    forall i | 0 <= i < |b|
      ensures CountOf(s, b[i].key) >= 1
      ensures b[i].temperature == SumOf(s, b[i].key, 0) / (CountOf(s, b[i].key) as real)
      ensures b[i].humidity == SumOf(s, b[i].key, 1) / (CountOf(s, b[i].key) as real)
    {
      RowValue(s, 2, i, 0);
      RowValue(s, 2, i, 1);
      assert b[i] == Bucket(r[i].key, r[i].values[0], r[i].values[1]);
    }
  }

  /** One bucket per key of a kept point, each once, in the order the keys were first seen. */
  lemma BucketKeys(entries: seq<Point>, start: DateTime, res: Resolution)
    ensures var b := BucketAverages(entries, start, res);
            forall i, j :: 0 <= i < j < |b| ==> b[i].key != b[j].key
    ensures var b := BucketAverages(entries, start, res);
            forall k :: HasBucket(b, k) <==> KeptInto(entries, start, res, k)
    ensures var b := BucketAverages(entries, start, res); var s := KeptSamples(entries, start, res);
            forall i, j :: 0 <= i < j < |b| ==> SeenBefore(s, b[i].key, b[j].key)
  {
    var s := KeptSamples(entries, start, res);
    AveragedDistinct(s);
    forall k ensures HasBucket(Averaged(s), k) <==> KeptInto(entries, start, res, k) {
      KeptSamplesKeys(entries, start, res, k);
      AveragedKeys(s, k);
    }
  }

  /** Each bucket holds the totals of its points' temperature and humidity divided by their number,
      which is at least one. */
  lemma BucketValues(entries: seq<Point>, start: DateTime, res: Resolution)
    ensures var b := BucketAverages(entries, start, res); var s := KeptSamples(entries, start, res);
            forall i :: 0 <= i < |b| ==>
              CountOf(s, b[i].key) >= 1 &&
              b[i].temperature == SumOf(s, b[i].key, 0) / (CountOf(s, b[i].key) as real) &&
              b[i].humidity == SumOf(s, b[i].key, 1) / (CountOf(s, b[i].key) as real)
  {
    AveragedValues(KeptSamples(entries, start, res));
  }

  /** The window has no upper end: a kept point with a timestamp later than any reference time
      still gets its bucket. */
  lemma NoUpperBound(entries: seq<Point>, start: DateTime, res: Resolution, i: nat)
    requires i < |entries| && Kept(entries[i], start)
    ensures HasBucket(BucketAverages(entries, start, res), PointKey(entries[i], res))
  {
    BucketKeys(entries, start, res);
    assert KeptInto(entries, start, res, PointKey(entries[i], res));
  }

  /** A point the filter drops contributes to no bucket: the buckets are those of the kept points alone. */
  lemma {:induction false} DroppedPointIgnored(entries: seq<Point>, p: Point, start: DateTime, res: Resolution)
    requires !Kept(p, start)
    ensures BucketAverages(entries + [p], start, res) == BucketAverages(entries, start, res)
  {
    var c := seq(|entries|, i requires 0 <= i < |entries| => Candidate(entries[i], start, res));
    var c' := seq(|entries| + 1, i requires 0 <= i < |entries| + 1 => Candidate((entries + [p])[i], start, res));
    assert c'[..|entries|] == c;
    assert KeptSamples(entries + [p], start, res) == KeptSamples(entries, start, res);
  }
}
