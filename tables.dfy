/**
 * `transformSensorData` (server/tables.js): the weekly table. The points of every store from the
 * last seven days are bucketed by calendar day and averaged, and each day becomes a row with its
 * date, weekday name and the two averages.
 */
module Tables {
  import opened Wrappers
  import opened Calendar
  import opened Grouping
  import opened History
  import opened Buckets
  import opened DateText

  /** `{ datum, wochentag, temperatur, luftfeuchtigkeit }`; `wochentag` is `None` for an invalid date. */
  datatype DayRow = DayRow(datum: string, wochentag: Option<string>, temperatur: real, luftfeuchtigkeit: real)

  /** The transformed stores by `dbName`, or the one error every failure is turned into. */
  datatype Transformed = Tables(stores: map<string, seq<DayRow>>) | Failed(message: string)

  const TransformError: string := "Sensordaten konnten nicht transformiert werden."

  /** Seven calendar days before the present moment. */
  function WeekStart(now: DateTime): DateTime
    requires Valid(now)
  {
    DaysBefore(now, 7)
  }

  /** One day's bucket as a table row. */
  function RowOf(b: Bucket): DayRow
  {
    DayRow(FormatDateText(b.key), FormatWeekdayText(b.key), b.temperature, b.humidity)
  }

  function RowsOf(buckets: seq<Bucket>): (rows: seq<DayRow>)
    ensures |rows| == |buckets|
  {
    seq(|buckets|, i requires 0 <= i < |buckets| => RowOf(buckets[i]))
  }

  /** The day rows of one store's points. */
  function StoreRows(entries: seq<Point>, now: DateTime): seq<DayRow>
    requires Valid(now)
  {
    RowsOf(BucketAverages(entries, WeekStart(now), Day))
  }

  /** What `transformSensorData` resolves to, given what `fetchSensorData` resolved to (`None` when
      it rejected). */
  function TransformSpec(raw: Option<map<string, seq<Point>>>, now: DateTime): (r: Transformed)
    requires Valid(now)
    ensures r.Failed? <==> raw.None?
    ensures r.Failed? ==> r.message == TransformError
    ensures r.Tables? ==> r.stores.Keys == raw.value.Keys
  {
    match raw
    case None => Failed(TransformError)
    case Some(data) => Tables(map name | name in data :: StoreRows(data[name], now))
  }

  /** `transformSensorData`: the `map` over the stores, with the grouping `forEach` of each. */
  method TransformSensorData(raw: Option<map<string, seq<Point>>>, now: DateTime) returns (r: Transformed)
    requires Valid(now)
    ensures r == TransformSpec(raw, now)
  {
    if raw.None? {
      return Failed(TransformError);
    }
    var data := raw.value;
    var start := WeekStart(now);
    var pending := data.Keys;
    var stores: map<string, seq<DayRow>> := map[];
    while pending != {}
      invariant pending <= data.Keys
      invariant stores.Keys == data.Keys - pending
      invariant forall name :: name in stores ==> stores[name] == StoreRows(data[name], now)
      decreases pending
    {
      var name :| name in pending;
      var buckets := GroupEntries(data[name], start, Day);
      stores := stores[name := RowsOf(buckets)];
      pending := pending - {name};
    }
    SameMaps(stores, TransformSpec(raw, now).stores);
    return Tables(stores);
  }

  // ---------------------------------------------------------------- what the rows say

  /** The point's timestamp names a moment of the day `datum` and `wochentag` describe. */
  predicate DescribesDayOf(row: DayRow, p: Point)
  {
    match ParseDisplayMinute(p.timestamp)
    case None => false
    case Some(t) => row.datum == FormatDate(t) && row.wochentag == Some(FormatWeekday(t))
  }

  /** Every row is the date and weekday of a point from the last seven days, so `datum` and
      `wochentag` are never the invalid-date placeholders. */
  lemma RowsDescribeKeptDays(entries: seq<Point>, now: DateTime, i: nat)
    requires Valid(now) && i < |StoreRows(entries, now)|
    ensures exists j :: 0 <= j < |entries| && Kept(entries[j], WeekStart(now)) &&
                        DescribesDayOf(StoreRows(entries, now)[i], entries[j])
  {
    var start := WeekStart(now);
    var b := BucketAverages(entries, start, Day);
    BucketKeys(entries, start, Day);
    assert HasBucket(b, b[i].key);
    var j :| 0 <= j < |entries| && Kept(entries[j], start) && PointKey(entries[j], Day) == b[i].key;
    var t := ParseDisplayMinute(entries[j].timestamp).value;
    FormatDayKey(t);
    assert DescribesDayOf(StoreRows(entries, now)[i], entries[j]);
  }

  /** Each row holds, before rounding, the average temperature and humidity of its day's points. */
  lemma RowsAverage(entries: seq<Point>, now: DateTime)
    requires Valid(now)
    ensures var rows := StoreRows(entries, now);
            var b := BucketAverages(entries, WeekStart(now), Day);
            var s := KeptSamples(entries, WeekStart(now), Day);
            |rows| == |b| &&
            forall i :: 0 <= i < |rows| ==>
              CountOf(s, b[i].key) >= 1 &&
              rows[i].temperatur == SumOf(s, b[i].key, 0) / (CountOf(s, b[i].key) as real) &&
              rows[i].luftfeuchtigkeit == SumOf(s, b[i].key, 1) / (CountOf(s, b[i].key) as real)
  {
    BucketValues(entries, WeekStart(now), Day);
  }
}
