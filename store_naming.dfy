/**
 * Which store file and which table a sensor reading goes to (server/database.js):
 * `createDbFilename` for inserts, the file name `createSensorDatabase`/`initDatabase` derive from a
 * configured sensor group, and the temperature/humidity table choice.
 */
module StoreNaming {
  import opened Text

  /** `parts.length > 1 ? parts.slice(1).join('.') : parts[0]` with `parts = id.split('.')`. */
  function MainPart(id: string): string
  {
    var parts := Split(id, '.');
    if |parts| > 1 then Join(parts[1..], '.') else parts[0]
  }

  /** The main part drops everything up to and including the first `.`; an id without `.` is kept whole. */
  lemma MainPartDropsFirstSegment(id: string)
    ensures '.' in id ==> MainPart(id) == id[FirstIndex(id, '.') + 1..]
    ensures '.' !in id ==> MainPart(id) == id
  {
    if '.' in id {
      MainPartAt(id, FirstIndex(id, '.'));
    } else {
      SplitSingle(id, '.');
      JoinSplit(id, '.');
    }
  }

  lemma MainPartAt(id: string, i: nat)
    requires i < |id| && id[i] == '.' && '.' !in id[..i]
    ensures MainPart(id) == id[i + 1..]
  {
    SplitAtFirst(id, '.', i);
    assert Split(id, '.')[1..] == Split(id[i + 1..], '.');
    JoinSplit(id[i + 1..], '.');
  }

  const TemperatureSuffix: string := "_temperature"
  const HumiditySuffix: string := "_humidity"

  /** `name.replace(/_temperature$/i, '_humidity')`. */
  function ToHumiditySuffix(name: string): string
  {
    if EndsWithIgnoringCase(name, TemperatureSuffix)
    then name[..|name| - |TemperatureSuffix|] + HumiditySuffix
    else name
  }

  /** `createDbFilename(entity_id)`: the store file an inserted reading goes to. */
  function DbFilename(id: string): string
  {
    ToHumiditySuffix(MainPart(id)) + ".db"
  }

  /** A store file name always ends in `.db` and is the main part of the id, with a trailing
      `_temperature` in any letter case turned into `_humidity`. */
  lemma DbFilenameShape(id: string)
    ensures var f := DbFilename(id); var m := MainPart(id);
            |f| >= 3 && f[|f| - 3..] == ".db" &&
            (EndsWithIgnoringCase(m, TemperatureSuffix) ==>
               f == m[..|m| - 12] + "_humidity.db") &&
            (!EndsWithIgnoringCase(m, TemperatureSuffix) ==> f == m + ".db")
  {
  }

  /** The temperature sensor and the humidity sensor of one group share one store: for a prefix
      without `.`, `prefix.x` followed by `_temperature` in any letter case names the same file as
      `prefix.x_humidity`, namely `x_humidity.db`. */
  lemma PairSharesStore(prefix: string, x: string, suffix: string)
    requires '.' !in prefix
    requires |suffix| == |TemperatureSuffix|
    requires forall i :: 0 <= i < |suffix| ==> LowerAscii(suffix[i]) == TemperatureSuffix[i]
    ensures DbFilename(prefix + "." + x + suffix) == x + "_humidity.db"
    ensures DbFilename(prefix + "." + x + HumiditySuffix) == x + "_humidity.db"
  {
    var t := prefix + "." + x + suffix;
    var h := prefix + "." + x + HumiditySuffix;
    MainPartAfterPrefix(prefix, x + suffix);
    MainPartAfterPrefix(prefix, x + HumiditySuffix);
    assert t == prefix + "." + (x + suffix);
    assert h == prefix + "." + (x + HumiditySuffix);
    var mt := x + suffix;
    assert EndsWithIgnoringCase(mt, TemperatureSuffix) by {
      forall i | 0 <= i < 12
        ensures LowerAscii(mt[|mt| - 12 + i]) == LowerAscii(TemperatureSuffix[i])
      {
        assert mt[|mt| - 12 + i] == suffix[i];
      }
    }
    assert mt[..|mt| - 12] == x;
    var mh := x + HumiditySuffix;
    assert !EndsWithIgnoringCase(mh, TemperatureSuffix) by {
      if |mh| >= 12 {
        assert mh[|mh| - 1] == 'y';
        assert LowerAscii(mh[|mh| - 12 + 11]) != LowerAscii(TemperatureSuffix[11]);
      }
    }
  }

  lemma MainPartAfterPrefix(prefix: string, rest: string)
    requires '.' !in prefix
    ensures MainPart(prefix + "." + rest) == rest
  {
    var id := prefix + "." + rest;
    assert id[..|prefix|] == prefix;
    MainPartAt(id, |prefix|);
    assert id[|prefix| + 1..] == rest;
  }

  /** `${sensorGroup.split(',')[0].split(".")[1]}.db`: the store `initDatabase` creates for a
      configured group (`undefined.db` when the first id has no `.`). */
  function InitStoreName(group: string): string
  {
    var parts := Split(Split(group, ',')[0], '.');
    (if |parts| > 1 then parts[1] else "undefined") + ".db"
  }

  /** The store name of a group whose first id is `prefix.rest`, with no `.` or `,` in either part:
      `rest.db`. */
  lemma InitStoreNameOf(prefix: string, rest: string, others: string)
    requires '.' !in prefix && ',' !in prefix && '.' !in rest && ',' !in rest
    requires |others| == 0 || others[0] == ','
    ensures InitStoreName(prefix + "." + rest + others) == rest + ".db"
  {
    var first := prefix + "." + rest;
    assert ',' !in first by {
      forall k | 0 <= k < |first| ensures first[k] != ',' {
        if k < |prefix| {
          assert first[k] == prefix[k];
        } else if k > |prefix| {
          assert first[k] == rest[k - |prefix| - 1];
        }
      }
    }
    FirstSplitPiece(first, others, ',');
    assert first[..|prefix|] == prefix;
    SplitAtFirst(first, '.', |prefix|);
    assert first[|prefix| + 1..] == rest;
    SplitSingle(rest, '.');
    JoinSplit(rest, '.');
  }

  lemma FirstSplitPiece(first: string, others: string, c: char)
    requires c !in first
    requires |others| == 0 || others[0] == c
    ensures Split(first + others, c)[0] == first
  {
    SplitPrefix(first, others, c);
    assert Split(others, c)[0] == "";
    assert first + "" == first;
  }

  /** For a group listed humidity sensor first, as `prefix.x_humidity,...` with no `.` or `,` in
      `prefix` and `x`, the store created at start-up is the store inserts for both sensors use. */
  lemma InitStoreNameAgrees(prefix: string, x: string, others: string)
    requires '.' !in prefix && ',' !in prefix && '.' !in x && ',' !in x
    requires |others| == 0 || others[0] == ','
    ensures InitStoreName(prefix + "." + x + HumiditySuffix + others) == x + "_humidity.db"
    ensures InitStoreName(prefix + "." + x + HumiditySuffix + others) ==
            DbFilename(prefix + "." + x + TemperatureSuffix)
  {
    NoDotOrComma(x, HumiditySuffix);
    InitStoreNameOf(prefix, x + HumiditySuffix, others);
    assert prefix + "." + x + HumiditySuffix + others == prefix + "." + (x + HumiditySuffix) + others;
    PairSharesStore(prefix, x, TemperatureSuffix);
  }

  /** Listed temperature sensor first, as `prefix.x_temperature,...`, the group gets the store
      `x_temperature.db` at start-up, while both of its sensors insert into `x_humidity.db`. */
  lemma TemperatureFirstGroupDisagrees(prefix: string, x: string, others: string)
    requires '.' !in prefix && ',' !in prefix && '.' !in x && ',' !in x
    requires |others| == 0 || others[0] == ','
    ensures InitStoreName(prefix + "." + x + TemperatureSuffix + others) == x + "_temperature.db"
    ensures DbFilename(prefix + "." + x + TemperatureSuffix) == x + "_humidity.db"
    ensures x + "_temperature.db" != x + "_humidity.db"
  {
    NoDotOrComma(x, TemperatureSuffix);
    InitStoreNameOf(prefix, x + TemperatureSuffix, others);
    assert prefix + "." + x + TemperatureSuffix + others == prefix + "." + (x + TemperatureSuffix) + others;
    PairSharesStore(prefix, x, TemperatureSuffix);
    assert (x + "_temperature.db")[|x| + 1] == 't';
    assert (x + "_humidity.db")[|x| + 1] == 'h';
  }

  lemma NoDotOrComma(x: string, suffix: string)
    requires '.' !in x && ',' !in x
    requires suffix == HumiditySuffix || suffix == TemperatureSuffix
    ensures '.' !in x + suffix && ',' !in x + suffix
  {
    assert '.' !in suffix && ',' !in suffix;
  }

  /** The two tables of a store that hold readings. */
  datatype Table = Temperature | Humidity

  /** `entity_id.includes("humidity") ? "humidity" : "temperature"`. */
  function TableFor(entityId: string): (t: Table)
    ensures t == Humidity <==> exists i :: OccursAt(entityId, "humidity", i)
  {
    ContainsIffOccurs(entityId, "humidity");
    if Contains(entityId, "humidity") then Humidity else Temperature
  }
}
