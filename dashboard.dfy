/**
 * The dashboard (client/Dashboard.js): the sensor states parsed from the state string, the stored
 * settings with the watering counter, the weekly AI summary and its star rating.
 */
module Dashboard {
  import opened Wrappers
  import opened Text
  import opened Buckets
  import opened ApiHandler

  // ---------------------------------------------------------------- the state string

  /** `const [key, value] = entry.split(":")`: the first piece, and the second when there is one. */
  function EntryOf(segment: string): (kv: (string, Option<string>))
  {
    var parts := Split(segment, ':');
    (parts[0], if |parts| > 1 then Some(parts[1]) else None)
  }

  /** The `reduce` that writes `acc[key] = value` for each entry in turn. */
  function Collect(entries: seq<(string, Option<string>)>): map<string, Option<string>>
  {
    if |entries| == 0 then map[]
    else
      var last := entries[|entries| - 1];
      Collect(entries[..|entries| - 1])[last.0 := last.1]
  }

  /** `result.states.split(";").reduce(...)`: the states by key; `None` is `undefined`. */
  function ParseStates(states: string): map<string, Option<string>>
  {
    var segments := Split(states, ';');
    Collect(seq(|segments|, i requires 0 <= i < |segments| => EntryOf(segments[i])))
  }

  /** The keys of the parsed map are the keys of the entries. */
  lemma {:induction false} CollectKeys(entries: seq<(string, Option<string>)>, k: string)
    ensures k in Collect(entries) <==> exists i :: 0 <= i < |entries| && entries[i].0 == k
  {
    if |entries| > 0 {
      var init := entries[..|entries| - 1];
      CollectKeys(init, k);
      if k in Collect(init) {
        var i :| 0 <= i < |init| && init[i].0 == k;
        assert entries[i].0 == k;
      }
      if exists i :: 0 <= i < |entries| && entries[i].0 == k {
        var i :| 0 <= i < |entries| && entries[i].0 == k;
        if i < |init| {
          assert init[i].0 == k;
        }
      }
    }
  }

  /** A key maps to the value of its last entry: later entries overwrite earlier ones. */
  lemma {:induction false} CollectLastWins(entries: seq<(string, Option<string>)>, i: nat)
    requires i < |entries|
    requires forall j :: i < j < |entries| ==> entries[j].0 != entries[i].0
    ensures entries[i].0 in Collect(entries) && Collect(entries)[entries[i].0] == entries[i].1
  {
    var init := entries[..|entries| - 1];
    if i < |entries| - 1 {
      forall j | i < j < |init| ensures init[j].0 != init[i].0 {
        assert init[j] == entries[j];
      }
      CollectLastWins(init, i);
    }
  }

  /** `k` is the decimal text of a position 1..n. */
  predicate IsPosition(k: string, n: nat)
  {
    exists p :: 1 <= p <= n && k == NatToString(p)
  }

  /** The entries `"1":t1`, `"2":t2`, ... */
  function Numbered(texts: seq<string>): (entries: seq<(string, Option<string>)>)
    ensures |entries| == |texts|
  {
    seq(|texts|, i requires 0 <= i < |texts| => (NatToString(i + 1), Some(texts[i])))
  }

  lemma NumberedKeys(texts: seq<string>, k: string)
    ensures k in Collect(Numbered(texts)) <==> IsPosition(k, |texts|)
  {
    var entries := Numbered(texts);
    CollectKeys(entries, k);
    if IsPosition(k, |texts|) {
      var p :| 1 <= p <= |texts| && k == NatToString(p);
      assert entries[p - 1].0 == k;
    }
    if k in Collect(entries) {
      var i :| 0 <= i < |entries| && entries[i].0 == k;
      assert k == NatToString(i + 1);
    }
  }

  lemma NumberedValue(texts: seq<string>, p: nat)
    requires 1 <= p <= |texts|
    ensures NatToString(p) in Collect(Numbered(texts))
    ensures Collect(Numbered(texts))[NatToString(p)] == Some(texts[p - 1])
  {
    var entries := Numbered(texts);
    var i := p - 1;
    forall j | i < j < |entries| ensures entries[j].0 != entries[i].0 {
      if entries[j].0 == entries[i].0 {
        NatToStringInjective(j + 1, i + 1);
      }
    }
    CollectLastWins(entries, i);
  }

  /** The state text of every sensor, in order. */
  function StateTexts(ids: seq<string>, hub: string -> HubResponse): (texts: seq<string>)
    ensures |texts| == |ids|
  {
    seq(|ids|, i requires 0 <= i < |ids| => StateText(ids, hub, i))
  }

  lemma ParsedSegments(ids: seq<string>, hub: string -> HubResponse)
    requires |ids| > 0
    requires StatesAvoid(ids, hub, ':') && StatesAvoid(ids, hub, ';')
    ensures ParseStates(Join(Segments(ids, hub), ';')) == Collect(Numbered(StateTexts(ids, hub)))
  {
    var segs := Segments(ids, hub);
    SegmentsRecovered(ids, hub);
    var entries := seq(|segs|, i requires 0 <= i < |segs| => EntryOf(segs[i]));
    forall i | 0 <= i < |ids| ensures entries[i] == Numbered(StateTexts(ids, hub))[i] {
      SegmentSplits(i + 1, FetchSensorState(hub(ids[i])));
    }
    assert entries == Numbered(StateTexts(ids, hub));
  }

  /** Round trip: when no state holds `:` or `;`, the dashboard reads back from the string
      `fetchAllSensorStates` writes exactly the keys `"1"`..`"n"`, key `"k"` carrying the state
      of the `k`-th sensor (or `"null"` when it could not be fetched). */
  lemma StatesRoundTrip(ids: seq<string>, hub: string -> HubResponse)
    requires |ids| > 0
    requires StatesAvoid(ids, hub, ':') && StatesAvoid(ids, hub, ';')
    ensures var parsed := ParseStates(Join(Segments(ids, hub), ';'));
            forall k :: k in parsed <==> IsPosition(k, |ids|)
    ensures var parsed := ParseStates(Join(Segments(ids, hub), ';'));
            forall p :: 1 <= p <= |ids| ==> parsed[NatToString(p)] == Some(StateText(ids, hub, p - 1))
  {
    ParsedSegments(ids, hub);
    NumberedMeaning(StateTexts(ids, hub));
  }

  lemma NumberedMeaning(texts: seq<string>)
    ensures var parsed := Collect(Numbered(texts));
            forall k :: k in parsed <==> IsPosition(k, |texts|)
    ensures var parsed := Collect(Numbered(texts));
            forall p :: 1 <= p <= |texts| ==> parsed[NatToString(p)] == Some(texts[p - 1])
  {
    forall k ensures k in Collect(Numbered(texts)) <==> IsPosition(k, |texts|) {
      NumberedKeys(texts, k);
    }
    forall p | 1 <= p <= |texts| ensures Collect(Numbered(texts))[NatToString(p)] == Some(texts[p - 1]) {
      NumberedValue(texts, p);
    }
  }

  // ---------------------------------------------------------------- the star rating

  const FullStar: char := '★'
  const EmptyStar: char := '☆'

  /** `Array.from({ length: 5 }, (_, i) => i < evaluation ? "★" : "☆").join("")`; an evaluation that
      is `undefined` compares false everywhere. */
  function Stars(evaluation: Option<real>): (r: string)
    ensures |r| == 5
    ensures forall i :: 0 <= i < 5 ==> r[i] in {FullStar, EmptyStar}
  {
    seq(5, i requires 0 <= i < 5 => if evaluation.Some? && (i as real) < evaluation.value then FullStar else EmptyStar)
  }

  function CountFull(s: string): nat
  {
    if |s| == 0 then 0 else CountFull(s[..|s| - 1]) + (if s[|s| - 1] == FullStar then 1 else 0)
  }

  /** The stars come first: full stars, then empty ones. */
  lemma StarsFullFirst(evaluation: Option<real>, i: nat, j: nat)
    requires i < j < 5 && Stars(evaluation)[j] == FullStar
    ensures Stars(evaluation)[i] == FullStar
  {
  }

  /** `Math.ceil(x)`: the least integer at or above `x`. */
  function Ceil(x: real): (c: int)
    ensures x <= c as real < x + 1.0
  {
    if x.Floor as real == x then x.Floor else x.Floor + 1
  }

  /** A rating `e` shows ⌈e⌉ full stars, clamped to 0..5 (so 3.5 shows four); no rating shows none. */
  lemma StarsCount(evaluation: Option<real>)
    ensures CountFull(Stars(evaluation)) == (if evaluation.None? || Ceil(evaluation.value) <= 0 then 0
                                             else if Ceil(evaluation.value) >= 5 then 5
                                             else Ceil(evaluation.value))
  {
    var s := Stars(evaluation);
    CountFullPrefix(evaluation, 5);
    assert s[..5] == s;
  }

  /** How many of the first `n` star positions `i` satisfy `i < evaluation`. */
  function CountPrefix(evaluation: Option<real>, n: nat): nat
  {
    if evaluation.None? || Ceil(evaluation.value) <= 0 then 0
    else if Ceil(evaluation.value) >= n then n
    else Ceil(evaluation.value)
  }

  lemma {:induction false} CountFullPrefix(evaluation: Option<real>, n: nat)
    requires n <= 5
    ensures CountFull(Stars(evaluation)[..n]) == CountPrefix(evaluation, n)
  {
    var s := Stars(evaluation);
    if n > 0 {
      CountFullPrefix(evaluation, n - 1);
      assert s[..n][..n - 1] == s[..n - 1];
      if evaluation.Some? {
        var c := Ceil(evaluation.value);
        assert s[n - 1] == FullStar <==> n - 1 < c;
      }
    }
  }

  // ---------------------------------------------------------------- settings and the weekly summary

  /** A JSON value of the settings file as the dashboard reads it. */
  datatype Json = Num(n: int) | Str(s: string) | Bool(b: bool) | Null | Composite

  /** JavaScript truthiness; a missing key is `undefined`. */
  predicate Truthy(v: Option<Json>)
  {
    match v
    case None => false
    case Some(Num(n)) => n != 0
    case Some(Str(s)) => s != ""
    case Some(Bool(b)) => b
    case Some(Null) => false
    case Some(Composite) => true
  }

  function Lookup(settings: map<string, Json>, key: string): Option<Json>
  {
    if key in settings then Some(settings[key]) else None
  }

  /** `value || fallback` for a counter: a truthy number is kept, anything falsy gives the fallback. */
  function CountOr(v: Option<Json>, fallback: int): (c: int)
    ensures !Truthy(v) ==> c == fallback
    ensures v.Some? && v.value.Num? && v.value.n != 0 ==> c == v.value.n
  {
    if v.Some? && v.value.Num? && v.value.n != 0 then v.value.n else fallback
  }

  /** The AI's weekly answer. */
  datatype Summary = Summary(
    averageTemperatureOutside: Option<real>, averageHumidityOutside: Option<real>,
    averageTemperatureGreenhouse: Option<real>, averageHumidityGreenhouse: Option<real>,
    trends: Option<string>, evaluation: Option<real>, recommendations: Option<string>)

  const NoWeeklyData: string := "Wochendaten nicht verfügbar."
  const SummaryFailed: string := "Fehler beim Abrufen der AI-Antwort."

  /** `{ ...settings, alreadyWatered }`: the settings with the counter written over. */
  function SavePayload(settings: map<string, Json>, alreadyWatered: int): (payload: map<string, Json>)
    ensures payload.Keys == settings.Keys + {"alreadyWatered"}
    ensures payload["alreadyWatered"] == Num(alreadyWatered)
    ensures forall k :: k in settings && k != "alreadyWatered" ==> payload[k] == settings[k]
  {
    settings["alreadyWatered" := Num(alreadyWatered)]
  }

  /** The watering bound: `alreadyWatered < settings.wateringFrequency`, false when the frequency
      is not a number. */
  predicate BelowFrequency(alreadyWatered: int, settings: map<string, Json>)
  {
    "wateringFrequency" in settings && settings["wateringFrequency"].Num? &&
    alreadyWatered < settings["wateringFrequency"].n
  }

  /** The counter is between 0 and a numeric `settings.wateringFrequency`. */
  predicate InRange(alreadyWatered: int, settings: map<string, Json>)
  {
    "wateringFrequency" in settings && settings["wateringFrequency"].Num? &&
    0 <= alreadyWatered <= settings["wateringFrequency"].n
  }

  class DashboardView {
    var data: map<string, Option<string>>
    var settings: map<string, Json>
    var location: Option<Json>
    var remainingWatering: int
    var alreadyWatered: int
    var summary: Option<Summary>
    var error: Option<string>

    /** The initial object: `remainingWatering` is 3; `alreadyWatered` starts out as 0. */
    constructor()
      ensures data == map[] && settings == map[] && location == Some(Str(""))
      ensures remainingWatering == 3 && alreadyWatered == 0
      ensures summary.None? && error.None?
    {
      data := map[];
      settings := map[];
      location := Some(Str(""));
      remainingWatering := 3;
      alreadyWatered := 0;
      summary := None;
      error := None;
    }

    /** `loadData`: the state string of `/api/dashboard` (`None` when the request fails or has no
        `states`), parsed; a failure leaves the states as they were. */
    method LoadData(response: Option<string>)
      modifies this
      ensures response.Some? ==> data == ParseStates(response.value)
      ensures response.None? ==> data == old(data)
      ensures settings == old(settings) && alreadyWatered == old(alreadyWatered)
      ensures remainingWatering == old(remainingWatering) && location == old(location)
      ensures summary == old(summary) && error == old(error)
    {
      if response.Some? {
        data := ParseStates(response.value);
      }
    }

    /** `loadSettings`: the settings of `/api/settings`, with the two counters defaulting to 3 and 0
        when the stored value is falsy. */
    method LoadSettings(response: Option<map<string, Json>>)
      modifies this
      ensures response.Some? ==>
                settings == response.value && location == Lookup(settings, "location") &&
                remainingWatering == CountOr(Lookup(settings, "wateringFrequency"), 3) &&
                alreadyWatered == CountOr(Lookup(settings, "alreadyWatered"), 0)
      ensures response.None? ==>
                settings == old(settings) && location == old(location) &&
                remainingWatering == old(remainingWatering) && alreadyWatered == old(alreadyWatered)
      ensures data == old(data) && summary == old(summary) && error == old(error)
    {
      if response.Some? {
        settings := response.value;
        location := Lookup(settings, "location");
        remainingWatering := CountOr(Lookup(settings, "wateringFrequency"), 3);
        alreadyWatered := CountOr(Lookup(settings, "alreadyWatered"), 0);
      }
    }

    /** The "+1" button: one more watering while below the frequency; the payload is what is saved
        (`None` when nothing changes). */
    method WaterOnce() returns (saved: Option<map<string, Json>>)
      modifies this
      ensures BelowFrequency(old(alreadyWatered), settings) ==>
                alreadyWatered == old(alreadyWatered) + 1 && saved == Some(SavePayload(settings, alreadyWatered))
      ensures !BelowFrequency(old(alreadyWatered), settings) ==>
                alreadyWatered == old(alreadyWatered) && saved.None?
      ensures InRange(old(alreadyWatered), settings) ==> InRange(alreadyWatered, settings)
      ensures settings == old(settings) && data == old(data) && remainingWatering == old(remainingWatering)
      ensures location == old(location) && summary == old(summary) && error == old(error)
    {
      if BelowFrequency(alreadyWatered, settings) {
        alreadyWatered := alreadyWatered + 1;
        return Some(SavePayload(settings, alreadyWatered));
      }
      return None;
    }

    /** The undo button: one watering less while above 0. */
    method UndoWatering() returns (saved: Option<map<string, Json>>)
      modifies this
      ensures old(alreadyWatered) > 0 ==>
                alreadyWatered == old(alreadyWatered) - 1 && saved == Some(SavePayload(settings, alreadyWatered))
      ensures old(alreadyWatered) <= 0 ==> alreadyWatered == old(alreadyWatered) && saved.None?
      ensures InRange(old(alreadyWatered), settings) ==> InRange(alreadyWatered, settings)
      ensures settings == old(settings) && data == old(data) && remainingWatering == old(remainingWatering)
      ensures location == old(location) && summary == old(summary) && error == old(error)
    {
      if alreadyWatered > 0 {
        alreadyWatered := alreadyWatered - 1;
        return Some(SavePayload(settings, alreadyWatered));
      }
      return None;
    }

    /** `sendWeeklyDataToServer`: nothing is sent for an empty week; otherwise the AI's answer
        (`None` when the request fails) replaces the summary and clears the error. */
    method SendWeeklyData(weekly: map<string, seq<Bucket>>, response: Option<Summary>) returns (sent: bool)
      modifies this
      ensures sent <==> |weekly.Keys| > 0
      ensures !sent ==> error == Some(NoWeeklyData) && summary == old(summary)
      ensures sent && response.Some? ==> summary == response && error.None?
      ensures sent && response.None? ==> summary == old(summary) && error == Some(SummaryFailed)
      ensures data == old(data) && settings == old(settings) && alreadyWatered == old(alreadyWatered)
      ensures remainingWatering == old(remainingWatering) && location == old(location)
    {
      if |weekly.Keys| == 0 {
        error := Some(NoWeeklyData);
        return false;
      }
      if response.Some? {
        summary := response;
        error := None;
      } else {
        error := Some(SummaryFailed);
      }
      return true;
    }
  }
}
