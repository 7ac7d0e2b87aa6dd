/**
 * The detail view of client/Details.js: it holds the history API's points per store, a selected
 * date, and three re-aggregations of the points (hourly buckets from the selected date on, daily
 * buckets over the last week and over the last month).
 */
module Details {
  import opened Wrappers
  import opened Calendar
  import opened Grouping
  import opened History
  import opened Buckets

  /** `"Tag"`, `"Woche"` or `"Monat"`. */
  datatype View = Tag | Woche | Monat

  /** The first moment a view takes in: the selected date for a day, seven or thirty calendar days
      before the present moment for a week or a month. */
  function WindowStart(view: View, selected: DateTime, now: DateTime): (start: DateTime)
    requires Valid(selected) && Valid(now)
    ensures Valid(start)
    ensures view == Tag ==> start == selected
    ensures view == Woche ==> AddDays(start, 7) == now && Before(start, now)
    ensures view == Monat ==> AddDays(start, 30) == now && Before(start, now)
  {
    match view
    case Tag => selected
    case Woche => DaysBefore(now, 7)
    case Monat => DaysBefore(now, 30)
  }

  /** Hourly buckets for a day, daily buckets otherwise. */
  function ResolutionOf(view: View): Resolution
  {
    if view == Tag then Hour else Day
  }

  /** `aggregateData(view)`: every store of `data` with the buckets of its points in the view's window. */
  function AggregateSpec(data: map<string, seq<Point>>, view: View, selected: DateTime, now: DateTime): (r: map<string, seq<Bucket>>)
    requires Valid(selected) && Valid(now)
    ensures r.Keys == data.Keys
  {
    map name | name in data :: BucketAverages(data[name], WindowStart(view, selected, now), ResolutionOf(view))
  }

  class DetailsView {
    var data: map<string, seq<Point>>
    var isLoaded: bool
    var isProcessing: bool
    var selectedDate: DateTime
    var daily: map<string, seq<Bucket>>
    var weekly: map<string, seq<Bucket>>
    var monthly: map<string, seq<Bucket>>

    ghost predicate Valid()
      reads this
    {
      Calendar.Valid(selectedDate)
    }

    /** The initial object: no data, today selected, nothing aggregated. */
    constructor(now: DateTime)
      requires Calendar.Valid(now)
      ensures Valid()
      ensures data == map[] && !isLoaded && !isProcessing && selectedDate == now
      ensures daily == map[] && weekly == map[] && monthly == map[]
    {
      data := map[];
      isLoaded := false;
      isProcessing := false;
      selectedDate := now;
      daily, weekly, monthly := map[], map[], map[];
    }

    /** `aggregateData(view)`: the `forEach` over the stores, each bucketed on its own. */
    method AggregateData(view: View, now: DateTime) returns (r: map<string, seq<Bucket>>)
      requires Valid() && Calendar.Valid(now)
      ensures r == AggregateSpec(data, view, selectedDate, now)
    {
      var start := WindowStart(view, selectedDate, now);
      var res := ResolutionOf(view);
      var pending := data.Keys;
      r := map[];
      while pending != {}
        invariant pending <= data.Keys
        invariant r.Keys == data.Keys - pending
        invariant forall name :: name in r ==> r[name] == BucketAverages(data[name], start, res)
        decreases pending
      {
        var name :| name in pending;
        var buckets := GroupEntries(data[name], start, res);
        r := r[name := buckets];
        pending := pending - {name};
      }
      SameMaps(r, AggregateSpec(data, view, selectedDate, now));
    }

    /** `aggregateAllData()`: the three views recomputed from the current data. */
    method AggregateAllData(now: DateTime)
      requires Valid() && Calendar.Valid(now)
      modifies this
      ensures Valid()
      ensures daily == AggregateSpec(data, Tag, selectedDate, now)
      ensures weekly == AggregateSpec(data, Woche, selectedDate, now)
      ensures monthly == AggregateSpec(data, Monat, selectedDate, now)
      ensures data == old(data) && selectedDate == old(selectedDate)
      ensures isLoaded == old(isLoaded) && isProcessing == old(isProcessing)
    {
      daily := AggregateData(Tag, now);
      weekly := AggregateData(Woche, now);
      monthly := AggregateData(Monat, now);
    }

    /** `changeDate(direction)`: the selected date moves by `direction` calendar days and the view
        is marked busy; the aggregates stay as they are until the timer fires. */
    method ChangeDate(direction: int)
      requires Valid()
      modifies this
      ensures Valid()
      ensures selectedDate == AddDays(old(selectedDate), direction)
      ensures isProcessing
      ensures data == old(data) && isLoaded == old(isLoaded)
      ensures daily == old(daily) && weekly == old(weekly) && monthly == old(monthly)
    {
      selectedDate := AddDays(selectedDate, direction);
      isProcessing := true;
    }

    /** The `setTimeout` callback of `changeDate`: only the day view is recomputed. */
    method DateChangeSettles(now: DateTime)
      requires Valid() && Calendar.Valid(now)
      modifies this
      ensures Valid()
      ensures daily == AggregateSpec(data, Tag, selectedDate, now)
      ensures !isProcessing
      ensures data == old(data) && selectedDate == old(selectedDate) && isLoaded == old(isLoaded)
      ensures weekly == old(weekly) && monthly == old(monthly)
    {
      daily := AggregateData(Tag, now);
      isProcessing := false;
    }

    /** `oninit`: the `/api/data` response (`None` when the request fails) replaces the data and
        all three views are recomputed; on failure only the busy flag is cleared. */
    method OnInit(response: Option<map<string, seq<Point>>>, now: DateTime)
      requires Valid() && Calendar.Valid(now)
      modifies this
      ensures Valid() && !isProcessing && selectedDate == old(selectedDate)
      ensures response.Some? ==>
                data == response.value && isLoaded &&
                daily == AggregateSpec(data, Tag, selectedDate, now) &&
                weekly == AggregateSpec(data, Woche, selectedDate, now) &&
                monthly == AggregateSpec(data, Monat, selectedDate, now)
      ensures response.None? ==>
                data == old(data) && isLoaded == old(isLoaded) &&
                daily == old(daily) && weekly == old(weekly) && monthly == old(monthly)
    {
      isProcessing := true;
      if response.Some? {
        data := response.value;
        AggregateAllData(now);
        isLoaded := true;
      }
      isProcessing := false;
    }

    /** `initialize()`: like `oninit`, but nothing happens at all once the data is loaded. */
    method Initialize(response: Option<map<string, seq<Point>>>, now: DateTime)
      requires Valid() && Calendar.Valid(now)
      modifies this
      ensures Valid() && selectedDate == old(selectedDate)
      ensures old(isLoaded) ==>
                data == old(data) && isLoaded && isProcessing == old(isProcessing) &&
                daily == old(daily) && weekly == old(weekly) && monthly == old(monthly)
      ensures !old(isLoaded) ==> !isProcessing
      ensures !old(isLoaded) && response.Some? ==>
                data == response.value && isLoaded &&
                daily == AggregateSpec(data, Tag, selectedDate, now) &&
                weekly == AggregateSpec(data, Woche, selectedDate, now) &&
                monthly == AggregateSpec(data, Monat, selectedDate, now)
      ensures !old(isLoaded) && response.None? ==>
                data == old(data) && !isLoaded &&
                daily == old(daily) && weekly == old(weekly) && monthly == old(monthly)
    {
      if isLoaded {
        return;
      }
      OnInit(response, now);
    }
  }

  // ---------------------------------------------------------------- what the views hold

  /** Every store appears in every view, and a store's buckets in a view are exactly the bucket
      keys of its points kept by that view's window. */
  lemma AggregateBuckets(data: map<string, seq<Point>>, view: View, selected: DateTime, now: DateTime, name: string, k: string)
    requires Valid(selected) && Valid(now) && name in data
    ensures name in AggregateSpec(data, view, selected, now)
    ensures HasBucket(AggregateSpec(data, view, selected, now)[name], k) <==>
            KeptInto(data[name], WindowStart(view, selected, now), ResolutionOf(view), k)
  {
    BucketKeys(data[name], WindowStart(view, selected, now), ResolutionOf(view));
  }

  /** The month window starts 23 days before the week window. */
  lemma MonthStartsBeforeWeek(now: DateTime)
    requires Valid(now)
    ensures WindowStart(Monat, now, now) == AddDays(WindowStart(Woche, now, now), -23)
    ensures Before(WindowStart(Monat, now, now), WindowStart(Woche, now, now))
  {
    AddDaysBackTwice(now, 7, 23);
    AddDaysOrder(AddDays(now, -7), -23);
  }

  /** A point the week view keeps, the month view keeps too. */
  lemma WeekKeptInMonth(p: Point, selected: DateTime, now: DateTime)
    requires Valid(selected) && Valid(now)
    requires Kept(p, WindowStart(Woche, selected, now))
    ensures Kept(p, WindowStart(Monat, selected, now))
  {
    MonthStartsBeforeWeek(now);
    assert WindowStart(Woche, selected, now) == WindowStart(Woche, now, now);
    assert WindowStart(Monat, selected, now) == WindowStart(Monat, now, now);
    var t := ParseDisplayMinute(p.timestamp).value;
    if Before(t, WindowStart(Monat, now, now)) {
      BeforeTransitive(t, WindowStart(Monat, now, now), WindowStart(Woche, now, now));
    }
  }

  /** Every day the week view shows for a store, the month view shows as well. */
  lemma WeekDaysInMonth(data: map<string, seq<Point>>, selected: DateTime, now: DateTime, name: string, k: string)
    requires Valid(selected) && Valid(now) && name in data
    requires HasBucket(AggregateSpec(data, Woche, selected, now)[name], k)
    ensures HasBucket(AggregateSpec(data, Monat, selected, now)[name], k)
  {
    AggregateBuckets(data, Woche, selected, now, name, k);
    AggregateBuckets(data, Monat, selected, now, name, k);
    var entries := data[name];
    var i :| 0 <= i < |entries| && Kept(entries[i], WindowStart(Woche, selected, now)) &&
             PointKey(entries[i], Day) == k;
    WeekKeptInMonth(entries[i], selected, now);
  }
}
