/**
 * The folder of per-sensor-group SQLite stores (server/database.js). Each `.db` file holds a
 * `temperature` and a `humidity` table of readings, whose ids are AUTOINCREMENT keys and which have
 * no other uniqueness constraint, and a `linkage` table whose timestamp column is UNIQUE.
 *
 * Opening a missing file with `new sqlite3.Database(path)` creates it empty, without tables: such a
 * file is `Bare`. Every statement on a table of a `Bare` file fails.
 */
module SensorStore {
  import opened Wrappers
  import opened Text
  import opened Calendar
  import opened StoreNaming

  /** One row of `temperature` or `humidity`. */
  datatype Reading = Reading(id: nat, timestamp: DateTime, value: real)

  /** The tables of a store, with the AUTOINCREMENT counters `sqlite_sequence` keeps for the two
      value tables. */
  datatype Tables = Tables(
    temperature: seq<Reading>,
    humidity: seq<Reading>,
    linkage: seq<DateTime>,
    temperatureSeq: nat,
    humiditySeq: nat)

  datatype StoreFile = Bare | Ready(tables: Tables)

  /** A state record from the hub: `value` is `None` when `parseFloat(state)` gives NaN (bound as
      NULL), `timestamp` is `None` when `last_changed` is missing. */
  datatype Entry = Entry(entityId: string, value: Option<real>, timestamp: Option<DateTime>)

  const EmptyTables := Tables([], [], [], 0, 0)

  /** Ids are positive, strictly increasing in insertion order and never above the counter. */
  predicate IdsFit(rows: seq<Reading>, counter: nat)
  {
    (forall i :: 0 <= i < |rows| ==> 1 <= rows[i].id <= counter) &&
    (forall i, j :: 0 <= i < j < |rows| ==> rows[i].id < rows[j].id)
  }

  predicate NoDuplicates<T(==)>(s: seq<T>)
  {
    forall i, j :: 0 <= i < j < |s| ==> s[i] != s[j]
  }

  /** What the table constraints guarantee about a store's contents. */
  predicate ValidTables(t: Tables)
  {
    IdsFit(t.temperature, t.temperatureSeq) &&
    IdsFit(t.humidity, t.humiditySeq) &&
    NoDuplicates(t.linkage)
  }

  predicate IsDbName(name: string)
  {
    |name| >= 3 && name[|name| - 3..] == ".db"
  }

  // ---------------------------------------------------------------- insertSensorData

  /** `INSERT OR IGNORE INTO <table> (timestamp, value)`: a new row with the next AUTOINCREMENT id. */
  function AppendReading(t: Tables, table: Table, ts: DateTime, v: real): Tables
  {
    match table
    case Temperature =>
      t.(temperature := t.temperature + [Reading(t.temperatureSeq + 1, ts, v)],
         temperatureSeq := t.temperatureSeq + 1)
    case Humidity =>
      t.(humidity := t.humidity + [Reading(t.humiditySeq + 1, ts, v)],
         humiditySeq := t.humiditySeq + 1)
  }

  /** `INSERT OR IGNORE INTO linkage (timestamp)`: ignored when the timestamp is already there. */
  function Link(t: Tables, ts: DateTime): Tables
  {
    if ts in t.linkage then t else t.(linkage := t.linkage + [ts])
  }

  /** Both statements of an insert on a store that has its tables. A NULL timestamp or value
      violates NOT NULL, which `OR IGNORE` turns into skipping that one row. */
  function InsertInto(t: Tables, e: Entry): Tables
  {
    match e.timestamp
    case None => t
    case Some(ts) =>
      Link(if e.value.Some? then AppendReading(t, TableFor(e.entityId), ts, e.value.value) else t, ts)
  }

  /** The folder after `insertSensorData(e)`: opening a missing store creates it bare; on a bare
      store the first statement fails and the error is swallowed. */
  function InsertSpec(files: map<string, StoreFile>, e: Entry): map<string, StoreFile>
  {
    var name := DbFilename(e.entityId);
    if name !in files then files[name := Bare]
    else match files[name]
      case Bare => files
      case Ready(t) => files[name := Ready(InsertInto(t, e))]
  }

  // ---------------------------------------------------------------- createSensorDatabase / initDatabase

  /** `CREATE TABLE IF NOT EXISTS` for the three tables: a store with tables is left as it is. */
  function CreateSpec(files: map<string, StoreFile>, group: string): map<string, StoreFile>
  {
    var name := InitStoreName(group);
    if name in files && files[name].Ready? then files else files[name := Ready(EmptyTables)]
  }

  /** `initDatabase`: skip an empty group, create the store only when its file does not exist. */
  function InitStep(files: map<string, StoreFile>, group: string): map<string, StoreFile>
  {
    if group == "" || InitStoreName(group) in files then files else CreateSpec(files, group)
  }

  function InitSpec(files: map<string, StoreFile>, groups: seq<string>): map<string, StoreFile>
    decreases |groups|
  {
    if |groups| == 0 then files else InitSpec(InitStep(files, groups[0]), groups[1..])
  }

  // ---------------------------------------------------------------- clearDatabase

  /** `DELETE FROM` every table listed in `sqlite_master` except the `sqlite_` ones: rows go,
      tables and the AUTOINCREMENT counters in `sqlite_sequence` stay. */
  function Cleared(t: Tables): Tables
  {
    t.(temperature := [], humidity := [], linkage := [])
  }

  /** One file of `clearDatabase`; `fails` when its statements error (the error is logged). */
  function ClearFile(f: StoreFile, fails: bool): StoreFile
  {
    if fails then f
    else match f
      case Bare => Bare
      case Ready(t) => Ready(Cleared(t))
  }

  function ClearSpec(files: map<string, StoreFile>, failing: set<string>): map<string, StoreFile>
  {
    map k | k in files :: ClearFile(files[k], k in failing)
  }

  /** The `db` folder. */
  class DbFolder {
    var files: map<string, StoreFile>

    ghost predicate Valid()
      reads this
    {
      (forall k :: k in files ==> IsDbName(k)) &&
      (forall k :: k in files && files[k].Ready? ==> ValidTables(files[k].tables))
    }

    constructor ()
      ensures files == map[] && Valid()
    {
      files := map[];
    }

    method InsertSensorData(e: Entry)
      requires Valid()
      modifies this
      ensures Valid()
      ensures files == InsertSpec(old(files), e)
    {
      var name := DbFilename(e.entityId);
      DbFilenameShape(e.entityId);
      if name !in files {
        files := files[name := Bare];
      } else if files[name].Ready? {
        var t := files[name].tables;
        if e.timestamp.Some? {
          var ts := e.timestamp.value;
          if e.value.Some? {
            t := AppendReading(t, TableFor(e.entityId), ts, e.value.value);
          }
          if ts !in t.linkage {
            t := t.(linkage := t.linkage + [ts]);
          }
        }
        InsertPreservesValid(files[name].tables, e);
        files := files[name := Ready(t)];
      }
    }

    method CreateSensorDatabase(group: string)
      requires Valid()
      modifies this
      ensures Valid()
      ensures files == CreateSpec(old(files), group)
    {
      var name := InitStoreName(group);
      if name !in files || files[name].Bare? {
        files := files[name := Ready(EmptyTables)];
      }
    }

    method InitDatabase(groups: seq<string>)
      requires Valid()
      modifies this
      ensures Valid()
      ensures files == InitSpec(old(files), groups)
    {
      var i := 0;
      while i < |groups|
        invariant 0 <= i <= |groups|
        invariant Valid()
        invariant InitSpec(old(files), groups) == InitSpec(files, groups[i..])
      {
        assert groups[i..][1..] == groups[i + 1..];
        var group := groups[i];
        if group != "" && InitStoreName(group) !in files {
          CreateSensorDatabase(group);
        }
        i := i + 1;
      }
    }

    /** `clearDatabase`; `failing` names the files whose statements error. */
    method ClearDatabase(failing: set<string>)
      requires Valid()
      modifies this
      ensures Valid()
      ensures files == ClearSpec(old(files), failing)
    {
      var pending := files.Keys;
      ghost var start := files;
      while pending != {}
        invariant pending <= start.Keys
        invariant files.Keys == start.Keys
        invariant forall k :: k in start ==>
                    files[k] == if k in pending then start[k] else ClearFile(start[k], k in failing)
        decreases pending
      {
        var name :| name in pending;
        if name !in failing && files[name].Ready? {
          files := files[name := Ready(Cleared(files[name].tables))];
        }
        pending := pending - {name};
      }
      assert files == ClearSpec(start, failing);
    }
  }

  // ---------------------------------------------------------------- what the operations keep and change

  lemma InsertPreservesValid(t: Tables, e: Entry)
    requires ValidTables(t)
    ensures ValidTables(InsertInto(t, e))
  {
  }

  /** An insert touches the store `createDbFilename` names and no other. */
  lemma InsertTouchesOneStore(files: map<string, StoreFile>, e: Entry)
    ensures var after := InsertSpec(files, e);
            after.Keys == files.Keys + {DbFilename(e.entityId)} &&
            forall k :: k in files && k != DbFilename(e.entityId) ==> after[k] == files[k]
  {
  }

  /** On a store with tables, a reading with a value and a timestamp appends exactly one row, with
      the next id, to the table its entity id selects, whether or not an equal row is already
      there; the other table is unchanged; the timestamp ends up in `linkage` exactly once. */
  lemma InsertAppendsOneRow(t: Tables, e: Entry)
    requires ValidTables(t)
    requires e.value.Some? && e.timestamp.Some?
    ensures var t' := InsertInto(t, e); var r := Reading(0, e.timestamp.value, e.value.value);
            (TableFor(e.entityId) == Temperature ==>
               t'.temperature == t.temperature + [r.(id := t.temperatureSeq + 1)] &&
               t'.humidity == t.humidity) &&
            (TableFor(e.entityId) == Humidity ==>
               t'.humidity == t.humidity + [r.(id := t.humiditySeq + 1)] &&
               t'.temperature == t.temperature) &&
            ExactlyOnce(t'.linkage, e.timestamp.value)
  {
    LinkOnce(AppendReading(t, TableFor(e.entityId), e.timestamp.value, e.value.value), e.timestamp.value);
  }

  predicate ExactlyOnce<T(==)>(s: seq<T>, x: T)
  {
    exists i :: 0 <= i < |s| && s[i] == x && forall j :: 0 <= j < |s| && j != i ==> s[j] != x
  }

  lemma LinkOnce(t: Tables, ts: DateTime)
    requires NoDuplicates(t.linkage)
    ensures NoDuplicates(Link(t, ts).linkage) && ExactlyOnce(Link(t, ts).linkage, ts)
  {
    var l := Link(t, ts).linkage;
    var i :| 0 <= i < |l| && l[i] == ts;
    assert forall j :: 0 <= j < |l| && j != i ==> l[j] != ts by {
      forall j | 0 <= j < |l| && j != i ensures l[j] != ts {
        if j < i {
          assert l[j] != l[i];
        } else {
          assert l[i] != l[j];
        }
      }
    }
  }

  /** Inserting the same reading twice stores two rows (no deduplication in the value tables) but
      only one linkage row. */
  lemma InsertTwice(t: Tables, e: Entry)
    requires ValidTables(t)
    requires e.value.Some? && e.timestamp.Some?
    ensures var t2 := InsertInto(InsertInto(t, e), e);
            |t2.temperature| + |t2.humidity| == |t.temperature| + |t.humidity| + 2 &&
            ExactlyOnce(t2.linkage, e.timestamp.value)
  {
    InsertAppendsOneRow(t, e);
    InsertPreservesValid(t, e);
    InsertAppendsOneRow(InsertInto(t, e), e);
  }

  /** A reading without a value (NaN) still records its timestamp in `linkage`; one without a
      timestamp changes nothing. */
  lemma InsertWithoutValue(t: Tables, e: Entry)
    requires ValidTables(t)
    ensures e.timestamp.None? ==> InsertInto(t, e) == t
    ensures e.value.None? && e.timestamp.Some? ==>
              var t' := InsertInto(t, e);
              t'.temperature == t.temperature && t'.humidity == t.humidity &&
              ExactlyOnce(t'.linkage, e.timestamp.value)
  {
    if e.timestamp.Some? {
      LinkOnce(t, e.timestamp.value);
    }
  }

  /** An insert into a store without tables fails and the error is swallowed: afterwards that
      store is (still) a file without tables and no other store changed. */
  lemma InsertFailsQuietly(files: map<string, StoreFile>, e: Entry)
    requires DbFilename(e.entityId) !in files || files[DbFilename(e.entityId)].Bare?
    ensures InsertSpec(files, e) == files[DbFilename(e.entityId) := Bare]
  {
  }

  /** Every non-empty configured group has a store with tables after `initDatabase`, provided its
      file did not exist before or already had tables; existing files are never touched. */
  lemma {:induction false} InitCreatesStores(files: map<string, StoreFile>, groups: seq<string>)
    decreases |groups|
    ensures var after := InitSpec(files, groups);
            files.Keys <= after.Keys &&
            (forall k :: k in files ==> after[k] == files[k]) &&
            (forall k :: k in after && k !in files ==> after[k] == Ready(EmptyTables)) &&
            (forall i :: 0 <= i < |groups| && groups[i] != "" ==> InitStoreName(groups[i]) in after) &&
            (forall k :: k in after ==> k in files || exists i :: 0 <= i < |groups| && k == InitStoreName(groups[i]))
  {
    if |groups| > 0 {
      var f1 := InitStep(files, groups[0]);
      InitCreatesStores(f1, groups[1..]);
      var after := InitSpec(files, groups);
      forall i | 0 <= i < |groups| && groups[i] != "" ensures InitStoreName(groups[i]) in after {
        if i > 0 {
          assert groups[1..][i - 1] == groups[i];
        }
      }
      forall k | k in after ensures k in files || exists i :: 0 <= i < |groups| && k == InitStoreName(groups[i]) {
        if k !in f1 {
          var i :| 0 <= i < |groups[1..]| && k == InitStoreName(groups[1..][i]);
          assert k == InitStoreName(groups[i + 1]);
        } else if k !in files {
          assert k == InitStoreName(groups[0]);
        }
      }
    }
  }

  /** Running `initDatabase` again changes nothing. */
  lemma InitIdempotent(files: map<string, StoreFile>, groups: seq<string>)
    ensures InitSpec(InitSpec(files, groups), groups) == InitSpec(files, groups)
  {
    var after := InitSpec(files, groups);
    InitCreatesStores(files, groups);
    InitNoOp(after, groups);
  }

  lemma {:induction false} InitNoOp(files: map<string, StoreFile>, groups: seq<string>)
    requires forall i :: 0 <= i < |groups| && groups[i] != "" ==> InitStoreName(groups[i]) in files
    ensures InitSpec(files, groups) == files
    decreases |groups|
  {
    if |groups| > 0 {
      assert InitStep(files, groups[0]) == files;
      forall i | 0 <= i < |groups[1..]| && groups[1..][i] != "" ensures InitStoreName(groups[1..][i]) in files {
        assert groups[1..][i] == groups[i + 1];
      }
      InitNoOp(files, groups[1..]);
    }
  }

  /** After `clearDatabase` every store whose statements succeeded is empty but keeps its tables;
      a failing store keeps everything; no store disappears or appears. */
  lemma ClearEmpties(files: map<string, StoreFile>, failing: set<string>)
    ensures var after := ClearSpec(files, failing);
            after.Keys == files.Keys &&
            (forall k :: k in files && k !in failing && files[k].Ready? ==>
               after[k].Ready? &&
               after[k].tables.temperature == [] && after[k].tables.humidity == [] &&
               after[k].tables.linkage == []) &&
            (forall k :: k in files && (k in failing || files[k].Bare?) ==> after[k] == files[k])
  {
  }

  /** Ids are not reused after a clear: the next reading gets an id above every id the store ever
      handed out. */
  lemma IdsContinueAfterClear(t: Tables, e: Entry)
    requires ValidTables(t)
    requires e.value.Some? && e.timestamp.Some?
    ensures var t' := InsertInto(Cleared(t), e);
            var added := if TableFor(e.entityId) == Temperature then t'.temperature else t'.humidity;
            var before := if TableFor(e.entityId) == Temperature then t.temperature else t.humidity;
            |added| == 1 && forall i :: 0 <= i < |before| ==> before[i].id < added[0].id
  {
    InsertAppendsOneRow(Cleared(t), e);
  }
}
