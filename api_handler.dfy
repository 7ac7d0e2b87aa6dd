/**
 * The dashboard's state string (server/apiHandler.js): the current state of every configured
 * sensor, fetched from the home-automation hub one sensor at a time and written as
 * `1:s1;2:s2;...`. The hub is a parameter: the response it gives for a sensor id.
 */
module ApiHandler {
  import opened Wrappers
  import opened Text

  /** What the hub answers for one sensor: no answer at all (a network or HTTP error), or a body
      with or without a `state`. */
  datatype HubResponse = Unreachable | Answered(state: Option<string>)

  /** `fetchSensorState`: the state, or the error thrown when the request fails or the body has
      no `state`. */
  function FetchSensorState(r: HubResponse): (s: Option<string>)
    ensures s.None? <==> r.Unreachable? || r.state.None?
    ensures s.Some? ==> r == Answered(s)
  {
    match r
    case Unreachable => None
    case Answered(state) => state
  }

  /** `${i + 1}:${state}`, with `null` in place of a state that could not be fetched. */
  function Segment(position: nat, state: Option<string>): string
  {
    NatToString(position) + ":" + state.GetOr("null")
  }

  /** The segment of every sensor, in the order of the ids. */
  function Segments(ids: seq<string>, hub: string -> HubResponse): (segs: seq<string>)
    ensures |segs| == |ids|
  {
    seq(|ids|, i requires 0 <= i < |ids| => Segment(i + 1, FetchSensorState(hub(ids[i]))))
  }

  /** `fetchAllSensorStates`: the index loop that pushes one segment per sensor, then the join. */
  method FetchAllSensorStates(ids: seq<string>, hub: string -> HubResponse) returns (states: string)
    ensures states == Join(Segments(ids, hub), ';')
  {
    var results: seq<string> := [];
    var i := 0;
    while i < |ids|
      invariant 0 <= i <= |ids|
      invariant results == Segments(ids[..i], hub)
    {
      var state := FetchSensorState(hub(ids[i]));
      results := results + [Segment(i + 1, state)];
      i := i + 1;
      assert ids[..i][..i - 1] == ids[..i - 1];
    }
    assert ids[..i] == ids;
    states := Join(results, ';');
  }

  /** No fetched state contains the character `c`. */
  predicate StatesAvoid(ids: seq<string>, hub: string -> HubResponse, c: char)
  {
    forall i :: 0 <= i < |ids| ==> FetchSensorState(hub(ids[i])).Some? ==> c !in FetchSensorState(hub(ids[i])).value
  }

  /** The text after the colon of sensor `i`'s segment. */
  function StateText(ids: seq<string>, hub: string -> HubResponse, i: nat): string
    requires i < |ids|
  {
    FetchSensorState(hub(ids[i])).GetOr("null")
  }

  /** A segment is its position, a colon and the state text, and neither part holds a colon or a
      semicolon when the state does not. */
  lemma SegmentSplits(position: nat, state: Option<string>)
    requires state.Some? ==> ':' !in state.value
    ensures Split(Segment(position, state), ':') == [NatToString(position), state.GetOr("null")]
  {
    var text := state.GetOr("null");
    NatToStringHasNo(position, ':');
    assert ':' !in text;
    SplitJoin([NatToString(position), text], ':');
    JoinCons(NatToString(position), [text], ':');
  }

  /** An empty id list gives the empty string; otherwise, when no state contains `;`, the string
      splits back into exactly one segment per sensor, in order. */
  lemma {:induction false} SegmentsRecovered(ids: seq<string>, hub: string -> HubResponse)
    requires StatesAvoid(ids, hub, ';')
    ensures |ids| == 0 ==> Join(Segments(ids, hub), ';') == ""
    ensures |ids| > 0 ==> Split(Join(Segments(ids, hub), ';'), ';') == Segments(ids, hub)
  {
    var segs := Segments(ids, hub);
    if |ids| > 0 {
      forall i | 0 <= i < |segs| ensures ';' !in segs[i] {
        NatToStringHasNo(i + 1, ';');
        assert ';' !in StateText(ids, hub, i);
        assert segs[i] == NatToString(i + 1) + ":" + StateText(ids, hub, i);
      }
      SplitJoin(segs, ';');
    }
  }
}
