/**
 * `fetchSensorData` (server/database.js): for every store, the readings of each series are bucketed
 * by minute and averaged (`calculateAverages`), the two series are merged by minute key with `null`
 * for a missing side, and the merged keys are sorted and numbered from 1.
 */
module History {
  import opened Wrappers
  import opened Text
  import opened Calendar
  import opened Grouping
  import opened SensorStore
  import opened StoreNaming

  /** `{ timestamp, average }`, one minute bucket of one series. */
  datatype MinuteAverage = MinuteAverage(timestamp: string, average: real)

  /** `{ timestamp, temperature, humidity }` of `combinedData`, `None` for `null`. */
  datatype Cell = Cell(temperature: Option<real>, humidity: Option<real>)

  /** The `combinedData` object: its keys in insertion order, and the value for each key. */
  datatype Combined = Combined(order: seq<string>, cells: map<string, Cell>)

  /** One point of the history API: `{ id, timestamp, temperature, humidity }`. */
  datatype Point = Point(id: nat, timestamp: string, temperature: Option<real>, humidity: Option<real>)

  /** Every reading's timestamp is a date; `toISOString` throws on any other. */
  predicate TimestampsValid(rows: seq<Reading>)
  {
    forall i :: 0 <= i < |rows| ==> Valid(rows[i].timestamp)
  }

  /** The readings as samples keyed by their minute. */
  function MinuteSamples(rows: seq<Reading>): (s: seq<Sample>)
    requires TimestampsValid(rows)
    ensures |s| == |rows| && Width(s, 1)
  {
    seq(|rows|, i requires 0 <= i < |rows| => Sample(MinuteKey(rows[i].timestamp), [rows[i].value]))
  }

  /** `calculateAverages(rows)`: one average per minute, in first-seen order. */
  function MinuteAverages(rows: seq<Reading>): seq<MinuteAverage>
    requires TimestampsValid(rows)
  {
    var s := MinuteSamples(rows);
    RowsMeaning(s, 1);
    var r := Rows(Fold(s), 1);
    seq(|r|, i requires 0 <= i < |r| => MinuteAverage(r[i].key, r[i].values[0]))
  }

  function SetSide(c: Cell, side: Table, v: real): Cell
  {
    match side
    case Temperature => c.(temperature := Some(v))
    case Humidity => c.(humidity := Some(v))
  }

  /** One merge `forEach`: create `{ timestamp, temperature: null, humidity: null }` on first sight
      of a key, then set this series' side to the average. */
  function Place(c: Combined, avgs: seq<MinuteAverage>, side: Table): Combined
    decreases |avgs|
  {
    if |avgs| == 0 then c
    else
      var a := avgs[0];
      var known := a.timestamp in c.cells;
      var cell := if known then c.cells[a.timestamp] else Cell(None, None);
      Place(Combined(if known then c.order else c.order + [a.timestamp],
                     c.cells[a.timestamp := SetSide(cell, side, a.average)]),
            avgs[1..], side)
  }

  /** `combinedData` after the temperature and then the humidity `forEach`. */
  function Merge(temps: seq<MinuteAverage>, hums: seq<MinuteAverage>): Combined
  {
    Place(Place(Combined([], map[]), temps, Temperature), hums, Humidity)
  }

  function InsertKey(k: string, s: seq<string>): seq<string>
  {
    if |s| == 0 then [k]
    else if StrLess(s[0], k) then [s[0]] + InsertKey(k, s[1..])
    else [k] + s
  }

  /** `keys.sort()`. */
  function Sort(keys: seq<string>): seq<string>
  {
    if |keys| == 0 then [] else InsertKey(keys[0], Sort(keys[1..]))
  }

  function CellAt(c: Combined, k: string): Cell
  {
    if k in c.cells then c.cells[k] else Cell(None, None)
  }

  /** `Object.keys(combinedData).sort().map((key, index) => ...)`. */
  function PointsOf(c: Combined): seq<Point>
  {
    var keys := Sort(c.order);
    seq(|keys|, i requires 0 <= i < |keys| =>
      Point(i + 1, DisplayMinute(keys[i]), CellAt(c, keys[i]).temperature, CellAt(c, keys[i]).humidity))
  }

  predicate Readable(t: Tables)
  {
    TimestampsValid(t.temperature) && TimestampsValid(t.humidity)
  }

  function Combine(t: Tables): Combined
    requires Readable(t)
  {
    Merge(MinuteAverages(t.temperature), MinuteAverages(t.humidity))
  }

  /** The history of one store. */
  function StorePoints(t: Tables): seq<Point>
    requires Readable(t)
  {
    PointsOf(Combine(t))
  }

  /** The result of `fetchSensorData`: `None` when it rejects, because a store has no tables or a
      reading's timestamp is not a date. */
  predicate StoreReadable(f: StoreFile)
  {
    f.Ready? && Readable(f.tables)
  }

  function FetchSpec(files: map<string, StoreFile>): Option<map<string, seq<Point>>>
  {
    if forall k :: k in files ==> StoreReadable(files[k])
    then Some(map k | k in files :: StorePoints(files[k].tables))
    else None
  }

  // ---------------------------------------------------------------- the loops

  /** `calculateAverages`: the `forEach` that fills `averages`, then the mapping to `sum / count`. */
  method CalculateAverages(rows: seq<Reading>) returns (avgs: seq<MinuteAverage>)
    requires TimestampsValid(rows)
    ensures avgs == MinuteAverages(rows)
  {
    var samples := MinuteSamples(rows);
    var g := Accumulate(samples, 1);
    RowsMeaning(samples, 1);
    var r := Rows(g, 1);
    avgs := seq(|r|, i requires 0 <= i < |r| => MinuteAverage(r[i].key, r[i].values[0]));
  }

  /** One merge `forEach`, updating `combinedData` in place. */
  method PlaceAll(c0: Combined, avgs: seq<MinuteAverage>, side: Table) returns (c: Combined)
    ensures c == Place(c0, avgs, side)
  {
    c := c0;
    var i := 0;
    while i < |avgs|
      invariant 0 <= i <= |avgs|
      invariant Place(c, avgs[i..], side) == Place(c0, avgs, side)
    {
      assert avgs[i..][1..] == avgs[i + 1..];
      var a := avgs[i];
      ghost var known := a.timestamp in c.cells;
      ghost var next := Combined(if known then c.order else c.order + [a.timestamp],
                                 c.cells[a.timestamp := SetSide(CellAt(c, a.timestamp), side, a.average)]);
      assert Place(c, avgs[i..], side) == Place(next, avgs[i + 1..], side);
      if a.timestamp !in c.cells {
        c := Combined(c.order + [a.timestamp], c.cells[a.timestamp := Cell(None, None)]);
      }
      c := c.(cells := c.cells[a.timestamp := SetSide(c.cells[a.timestamp], side, a.average)]);
      assert c == next;
      i := i + 1;
    }
  }

  method StoreHistory(t: Tables) returns (points: seq<Point>)
    requires Readable(t)
    ensures points == StorePoints(t)
  {
    var temps := CalculateAverages(t.temperature);
    var hums := CalculateAverages(t.humidity);
    var c := PlaceAll(Combined([], map[]), temps, Temperature);
    c := PlaceAll(c, hums, Humidity);
    points := PointsOf(c);
  }

  /** `fetchSensorData`: the loop over the store files. */
  method FetchSensorData(folder: DbFolder) returns (r: Option<map<string, seq<Point>>>)
    ensures r == FetchSpec(folder.files)
  {
    var files := folder.files;
    var pending := files.Keys;
    var result: map<string, seq<Point>> := map[];
    while pending != {}
      invariant pending <= files.Keys
      invariant forall k :: k in files && k !in pending ==> StoreReadable(files[k])
      invariant result.Keys == files.Keys - pending
      invariant forall k :: k in result ==> result[k] == StorePoints(files[k].tables)
      decreases pending
    {
      var name :| name in pending;
      if !StoreReadable(files[name]) {
        FetchRejects(files, name);
        return None;
      }
      var points := StoreHistory(files[name].tables);
      result := result[name := points];
      pending := pending - {name};
    }
    FetchCollects(files, result);
    return Some(result);
  }

  lemma FetchRejects(files: map<string, StoreFile>, name: string)
    requires name in files && !StoreReadable(files[name])
    ensures FetchSpec(files) == None
  {
  }

  lemma FetchCollects(files: map<string, StoreFile>, result: map<string, seq<Point>>)
    requires forall k :: k in files ==> StoreReadable(files[k])
    requires result.Keys == files.Keys
    requires forall k :: k in result && k in files && StoreReadable(files[k]) ==> result[k] == StorePoints(files[k].tables)
    ensures FetchSpec(files) == Some(result)
  {
    var m := map k | k in files :: StorePoints(files[k].tables);
    SameMaps(m, result);
  }

  lemma SameMaps<K, V>(a: map<K, V>, b: map<K, V>)
    requires a.Keys == b.Keys && forall k :: k in a ==> a[k] == b[k]
    ensures a == b
  {
  }

  // ---------------------------------------------------------------- sorting

  predicate StrictlySorted(s: seq<string>)
  {
    forall i, j :: 0 <= i < j < |s| ==> StrLess(s[i], s[j])
  }

  /** Inserting adds the key once and loses nothing. */
  lemma {:induction false} InsertKeyElems(k: string, s: seq<string>)
    ensures multiset(InsertKey(k, s)) == multiset(s) + multiset{k}
    decreases |s|
  {
    if |s| > 0 && StrLess(s[0], k) {
      InsertKeyElems(k, s[1..]);
      assert s == [s[0]] + s[1..];
    }
  }

  /** A bound below every key and below the new one is below every key after the insertion. */
  lemma InsertKeyAbove(lo: string, k: string, s: seq<string>)
    requires StrLess(lo, k) && forall x :: x in s ==> StrLess(lo, x)
    ensures forall x :: x in InsertKey(k, s) ==> StrLess(lo, x)
  {
    InsertKeyElems(k, s);
    forall x | x in InsertKey(k, s) ensures StrLess(lo, x) {
      assert x in multiset(InsertKey(k, s));
    }
  }

  /** A key below every key of a strictly sorted list can go in front of it. */
  lemma ConsSorted(a: string, r: seq<string>)
    requires StrictlySorted(r) && forall x :: x in r ==> StrLess(a, x)
    ensures StrictlySorted([a] + r)
  {
    var out := [a] + r;
    forall i, j | 0 <= i < j < |out| ensures StrLess(out[i], out[j]) {
      assert out[j] == r[j - 1];
      if i > 0 {
        assert out[i] == r[i - 1];
      }
    }
  }

  /** Inserting a new key into a strictly sorted list keeps it strictly sorted. */
  lemma {:induction false} InsertKeySorted(k: string, s: seq<string>)
    requires StrictlySorted(s) && k !in s
    ensures StrictlySorted(InsertKey(k, s))
    decreases |s|
  {
    if |s| > 0 {
      if StrLess(s[0], k) {
        InsertKeySorted(k, s[1..]);
        forall x | x in s[1..] ensures StrLess(s[0], x) {
          var m :| 0 <= m < |s[1..]| && s[1..][m] == x;
          assert s[m + 1] == x;
        }
        InsertKeyAbove(s[0], k, s[1..]);
        ConsSorted(s[0], InsertKey(k, s[1..]));
      } else {
        StrLessTotal(k, s[0]);
        forall x | x in s ensures StrLess(k, x) {
          var j :| 0 <= j < |s| && s[j] == x;
          if j > 0 {
            StrLessTransitive(k, s[0], s[j]);
          }
        }
        ConsSorted(k, s);
      }
    }
  }

  /** Sorting distinct keys gives them all, each once, strictly ascending. */
  lemma {:induction false} SortSorted(keys: seq<string>)
    requires Distinct(keys)
    ensures StrictlySorted(Sort(keys))
    ensures multiset(Sort(keys)) == multiset(keys)
    ensures |Sort(keys)| == |keys|
  {
    if |keys| > 0 {
      SortSorted(keys[1..]);
      assert keys == [keys[0]] + keys[1..];
      assert keys[0] !in multiset(keys[1..]);
      InsertKeySorted(keys[0], Sort(keys[1..]));
      InsertKeyElems(keys[0], Sort(keys[1..]));
      assert |multiset(Sort(keys))| == |multiset(keys)|;
    }
  }

  // ---------------------------------------------------------------- the merge

  /** The average a series gives minute `k`; with distinct keys there is at most one. */
  function AverageFor(avgs: seq<MinuteAverage>, k: string): Option<real>
  {
    if |avgs| == 0 then None
    else
      var rest := AverageFor(avgs[1..], k);
      if rest.Some? then rest
      else if avgs[0].timestamp == k then Some(avgs[0].average)
      else None
  }

  ghost predicate Consistent(c: Combined)
  {
    Distinct(c.order) && forall k :: k in c.cells <==> k in c.order
  }

  /** A merge `forEach` adds exactly the series' keys and sets their side to the series' average. */
  lemma {:induction false} PlaceMeaning(c: Combined, avgs: seq<MinuteAverage>, side: Table)
    requires Consistent(c)
    ensures var c' := Place(c, avgs, side);
            Consistent(c') &&
            (forall k :: k in c'.cells <==> k in c.cells || AverageFor(avgs, k).Some?) &&
            (forall k :: k in c'.cells ==>
               c'.cells[k] == if AverageFor(avgs, k).Some?
                              then SetSide(CellAt(c, k), side, AverageFor(avgs, k).value)
                              else c.cells[k])
    decreases |avgs|
  {
    if |avgs| > 0 {
      var a := avgs[0];
      var known := a.timestamp in c.cells;
      var cell := if known then c.cells[a.timestamp] else Cell(None, None);
      var c1 := Combined(if known then c.order else c.order + [a.timestamp],
                         c.cells[a.timestamp := SetSide(cell, side, a.average)]);
      assert Consistent(c1) by {
        if !known {
          forall i, j | 0 <= i < j < |c1.order| ensures c1.order[i] != c1.order[j] {
            if j == |c.order| {
              assert c1.order[i] in c.order;
            }
          }
        }
      }
      PlaceMeaning(c1, avgs[1..], side);
    }
  }

  /** `combinedData` has one entry per minute key of either series, holding the temperature average
      and the humidity average of that minute, `null` where the series has none. */
  lemma MergeMeaning(temps: seq<MinuteAverage>, hums: seq<MinuteAverage>)
    ensures var c := Merge(temps, hums);
            Consistent(c) &&
            (forall k :: k in c.cells <==> AverageFor(temps, k).Some? || AverageFor(hums, k).Some?) &&
            (forall k :: k in c.cells ==> c.cells[k] == Cell(AverageFor(temps, k), AverageFor(hums, k)))
  {
    var c0 := Combined([], map[]);
    PlaceMeaning(c0, temps, Temperature);
    PlaceMeaning(Place(c0, temps, Temperature), hums, Humidity);
  }

  /** The average of minute `k`: the values of that minute's readings summed and divided by their
      number, or none when no reading falls in it. */
  function MinuteValue(samples: seq<Sample>, k: string): Option<real>
  {
    if CountOf(samples, k) > 0 then Some(SumOf(samples, k, 0) / (CountOf(samples, k) as real)) else None
  }

  lemma {:induction false} AverageForDistinct(avgs: seq<MinuteAverage>, k: string)
    requires forall i, j :: 0 <= i < j < |avgs| ==> avgs[i].timestamp != avgs[j].timestamp
    ensures AverageFor(avgs, k).Some? <==> exists i :: 0 <= i < |avgs| && avgs[i].timestamp == k
    ensures forall i :: 0 <= i < |avgs| && avgs[i].timestamp == k ==> AverageFor(avgs, k) == Some(avgs[i].average)
    decreases |avgs|
  {
    if |avgs| > 0 {
      AverageForDistinct(avgs[1..], k);
      if AverageFor(avgs[1..], k).Some? {
        var m :| 0 <= m < |avgs[1..]| && avgs[1..][m].timestamp == k;
        assert avgs[m + 1].timestamp == k;
      }
      forall i | 0 <= i < |avgs| && avgs[i].timestamp == k ensures AverageFor(avgs, k) == Some(avgs[i].average) {
        if i > 0 {
          assert avgs[1..][i - 1] == avgs[i];
        }
      }
      if AverageFor(avgs, k).Some? && AverageFor(avgs[1..], k).Some? {
        var m :| 0 <= m < |avgs[1..]| && avgs[1..][m].timestamp == k;
        assert avgs[m + 1].timestamp == k;
      }
    }
  }

  /** `calculateAverages` gives each minute of the series once, with its average. */
  lemma MinuteAveragesShape(rows: seq<Reading>)
    requires TimestampsValid(rows)
    ensures var avgs := MinuteAverages(rows);
            forall i, j :: 0 <= i < j < |avgs| ==> avgs[i].timestamp != avgs[j].timestamp
    ensures var avgs := MinuteAverages(rows);
            forall k :: HasKey(MinuteSamples(rows), k) <==> exists i :: 0 <= i < |avgs| && avgs[i].timestamp == k
    ensures var avgs := MinuteAverages(rows);
            forall i :: 0 <= i < |avgs| ==> Some(avgs[i].average) == MinuteValue(MinuteSamples(rows), avgs[i].timestamp)
  {
    var s := MinuteSamples(rows);
    RowsMeaning(s, 1);
    var r := Rows(Fold(s), 1);
    var avgs := MinuteAverages(rows);
    assert |avgs| == |r|;
    assert forall i :: 0 <= i < |avgs| ==> avgs[i].timestamp == r[i].key && avgs[i].average == r[i].values[0];
    forall k | HasKey(s, k) ensures exists i :: 0 <= i < |avgs| && avgs[i].timestamp == k {
      var i :| 0 <= i < |r| && r[i].key == k;
      assert avgs[i].timestamp == k;
    }
    forall i | 0 <= i < |avgs|
      ensures HasKey(s, avgs[i].timestamp)
      ensures Some(avgs[i].average) == MinuteValue(s, avgs[i].timestamp)
    {
      var k := r[i].key;
      assert avgs[i].timestamp == k;
      assert exists j :: 0 <= j < |r| && r[j].key == k;
      assert HasKey(s, k);
      assert CountOf(s, k) >= 1;
      assert r[i].values[0] == SumOf(s, k, 0) / (CountOf(s, k) as real);
    }
  }

  lemma MinuteAveragesMeaning(rows: seq<Reading>, k: string)
    requires TimestampsValid(rows)
    ensures AverageFor(MinuteAverages(rows), k) == MinuteValue(MinuteSamples(rows), k)
  {
    var s := MinuteSamples(rows);
    var avgs := MinuteAverages(rows);
    MinuteAveragesShape(rows);
    AverageForDistinct(avgs, k);
    CountPositive(s, k);
    if HasKey(s, k) {
      var i :| 0 <= i < |avgs| && avgs[i].timestamp == k;
      assert AverageFor(avgs, k) == Some(avgs[i].average);
    }
  }

  /** The points of `combinedData`: its keys sorted strictly ascending, numbered from 1, each with
      its entry's two sides. */
  lemma PointsOfMeaning(c: Combined)
    requires Consistent(c)
    ensures |PointsOf(c)| == |Sort(c.order)|
    ensures StrictlySorted(Sort(c.order))
    ensures forall k :: k in Sort(c.order) <==> k in c.cells
    ensures forall i :: 0 <= i < |PointsOf(c)| ==>
              var k := Sort(c.order)[i];
              k in c.cells &&
              PointsOf(c)[i] == Point(i + 1, DisplayMinute(k), c.cells[k].temperature, c.cells[k].humidity)
  {
    var keys := Sort(c.order);
    SortSorted(c.order);
    forall k ensures k in keys <==> k in c.order {
      assert k in keys <==> k in multiset(keys);
      assert k in c.order <==> k in multiset(c.order);
    }
  }

  /** The minutes of a store's history: those in which either series has a reading, sorted strictly
      ascending by minute key, one point each. */
  lemma StoreMinutes(t: Tables)
    requires Readable(t)
    ensures |StorePoints(t)| == |Sort(Combine(t).order)|
    ensures StrictlySorted(Sort(Combine(t).order))
    ensures forall k :: k in Sort(Combine(t).order) <==>
              HasKey(MinuteSamples(t.temperature), k) || HasKey(MinuteSamples(t.humidity), k)
  {
    var c := Combine(t);
    var temps := MinuteAverages(t.temperature);
    var hums := MinuteAverages(t.humidity);
    MergeMeaning(temps, hums);
    PointsOfMeaning(c);
    forall k ensures (AverageFor(temps, k).Some? <==> HasKey(MinuteSamples(t.temperature), k))
                  && (AverageFor(hums, k).Some? <==> HasKey(MinuteSamples(t.humidity), k))
    {
      MinuteAveragesMeaning(t.temperature, k);
      MinuteAveragesMeaning(t.humidity, k);
      CountPositive(MinuteSamples(t.temperature), k);
      CountPositive(MinuteSamples(t.humidity), k);
    }
  }

  /** The points of a store's history are numbered 1..n, show the minute key with `T` replaced by a
      space, and carry each series' average for that minute, or `null` where it has no reading. */
  lemma StorePointsMeaning(t: Tables)
    requires Readable(t)
    ensures forall i :: 0 <= i < |StorePoints(t)| ==>
              var k := Sort(Combine(t).order)[i];
              StorePoints(t)[i] ==
                Point(i + 1, DisplayMinute(k),
                      MinuteValue(MinuteSamples(t.temperature), k),
                      MinuteValue(MinuteSamples(t.humidity), k))
  {
    var c := Combine(t);
    var temps := MinuteAverages(t.temperature);
    var hums := MinuteAverages(t.humidity);
    MergeMeaning(temps, hums);
    PointsOfMeaning(c);
    forall k ensures AverageFor(temps, k) == MinuteValue(MinuteSamples(t.temperature), k)
                  && AverageFor(hums, k) == MinuteValue(MinuteSamples(t.humidity), k)
    {
      MinuteAveragesMeaning(t.temperature, k);
      MinuteAveragesMeaning(t.humidity, k);
    }
  }

  /** `fetchSensorData` rejects as soon as one store cannot be read; otherwise it gives the history of
      every store and nothing else. */
  lemma FetchMeaning(files: map<string, StoreFile>)
    ensures FetchSpec(files).None? <==> exists k :: k in files && (files[k].Bare? || !Readable(files[k].tables))
    ensures FetchSpec(files).Some? ==>
              FetchSpec(files).value.Keys == files.Keys &&
              forall k :: k in files ==> FetchSpec(files).value[k] == StorePoints(files[k].tables)
  {
  }
}
