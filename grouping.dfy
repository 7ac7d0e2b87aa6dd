/**
 * The group-by-and-average fold that the history fetcher (one value per reading) and the two client
 * views (temperature and humidity per point) all write the same way: a `forEach` over the samples
 * that fills a plain object keyed by a bucket string with running sums and a count, then maps the
 * object's entries, in key insertion order, to `sum / count`.
 */
module Grouping {
  import opened Wrappers

  /** One sample: its bucket key and the values to average (the same number for every sample). */
  datatype Sample = Sample(key: string, values: seq<real>)

  /** The running totals of one bucket. */
  datatype Acc = Acc(sums: seq<real>, count: nat)

  /** A JavaScript object of buckets: its keys in insertion order, and the value for each key. */
  datatype Groups = Groups(order: seq<string>, acc: map<string, Acc>)

  /** One averaged bucket: `{ key, values: sums / count }`. */
  datatype Row = Row(key: string, values: seq<real>)

  predicate Width(samples: seq<Sample>, w: nat)
  {
    forall i :: 0 <= i < |samples| ==> |samples[i].values| == w
  }

  predicate Distinct(keys: seq<string>)
  {
    forall i, j :: 0 <= i < j < |keys| ==> keys[i] != keys[j]
  }

  /** What a bucket object built by the fold always satisfies. */
  ghost predicate WellFormed(g: Groups, w: nat)
  {
    Distinct(g.order) &&
    (forall k :: k in g.acc <==> k in g.order) &&
    (forall k :: k in g.acc ==> |g.acc[k].sums| == w && g.acc[k].count >= 1)
  }

  function Zeros(w: nat): (z: seq<real>)
    ensures |z| == w && forall j :: 0 <= j < w ==> z[j] == 0.0
  {
    seq(w, _ => 0.0)
  }

  /** `sums[j] += values[j]` for every column. */
  function AddValues(sums: seq<real>, values: seq<real>): (r: seq<real>)
    requires |sums| == |values|
    ensures |r| == |sums| && forall j :: 0 <= j < |r| ==> r[j] == sums[j] + values[j]
  {
    seq(|sums|, j requires 0 <= j < |sums| => sums[j] + values[j])
  }

  /** One step of the `forEach`: create the bucket on first sight of its key, then add the sample. */
  function Add(g: Groups, s: Sample): Groups
  {
    var a := if s.key in g.acc then g.acc[s.key] else Acc(Zeros(|s.values|), 0);
    var sums := if |a.sums| == |s.values| then AddValues(a.sums, s.values) else a.sums;
    Groups(if s.key in g.acc then g.order else g.order + [s.key],
           g.acc[s.key := Acc(sums, a.count + 1)])
  }

  /** The object after the `forEach` has seen every sample in turn. */
  function Fold(samples: seq<Sample>): Groups
  {
    if |samples| == 0 then Groups([], map[])
    else Add(Fold(samples[..|samples| - 1]), samples[|samples| - 1])
  }

  /** The `forEach` loop itself, updating the bucket object in place. */
  method Accumulate(samples: seq<Sample>, w: nat) returns (g: Groups)
    requires Width(samples, w)
    ensures g == Fold(samples)
  {
    g := Groups([], map[]);
    var i := 0;
    while i < |samples|
      invariant 0 <= i <= |samples|
      invariant g == Fold(samples[..i])
      invariant forall k :: k in g.acc ==> |g.acc[k].sums| == w
    {
      var s := samples[i];
      if s.key !in g.acc {
        g := g.(order := g.order + [s.key], acc := g.acc[s.key := Acc(Zeros(w), 0)]);
      }
      var a := g.acc[s.key];
      g := g.(acc := g.acc[s.key := Acc(AddValues(a.sums, s.values), a.count + 1)]);
      assert samples[..i + 1][..i] == samples[..i];
      i := i + 1;
    }
    assert samples[..i] == samples;
  }

  // ---------------------------------------------------------------- the meaning of the fold

  predicate HasKey(samples: seq<Sample>, k: string)
  {
    exists i :: 0 <= i < |samples| && samples[i].key == k
  }

  /** How many samples fall into bucket `k`. */
  function CountOf(samples: seq<Sample>, k: string): nat
  {
    if |samples| == 0 then 0
    else CountOf(samples[..|samples| - 1], k) + (if samples[|samples| - 1].key == k then 1 else 0)
  }

  /** The total of column `j` over the samples that fall into bucket `k`. */
  function SumOf(samples: seq<Sample>, k: string, j: nat): real
  {
    if |samples| == 0 then 0.0
    else
      var last := samples[|samples| - 1];
      SumOf(samples[..|samples| - 1], k, j) +
      (if last.key == k && j < |last.values| then last.values[j] else 0.0)
  }

  /** Key `k1` shows up in the samples before key `k2` shows up for the first time. */
  predicate SeenBefore(samples: seq<Sample>, k1: string, k2: string)
  {
    exists a :: 0 <= a < |samples| && samples[a].key == k1 &&
                forall b :: 0 <= b <= a ==> samples[b].key != k2
  }

  lemma HasKeyPrefix(samples: seq<Sample>, k: string)
    requires |samples| > 0
    ensures HasKey(samples, k) <==>
            HasKey(samples[..|samples| - 1], k) || samples[|samples| - 1].key == k
  {
    var p := samples[..|samples| - 1];
    if HasKey(samples, k) && samples[|samples| - 1].key != k {
      var i :| 0 <= i < |samples| && samples[i].key == k;
      assert p[i].key == k;
    }
    if HasKey(p, k) {
      var i :| 0 <= i < |p| && p[i].key == k;
      assert samples[i].key == k;
    }
  }

  /** The present samples, in order (a `filter` followed by a `map`). */
  function Present(candidates: seq<Option<Sample>>): seq<Sample>
  {
    if |candidates| == 0 then []
    else
      var rest := Present(candidates[..|candidates| - 1]);
      match candidates[|candidates| - 1]
      case Some(s) => rest + [s]
      case None => rest
  }

  /** The keys of the present samples are those of the candidates that are present. */
  lemma {:induction false} PresentKeys(candidates: seq<Option<Sample>>, k: string)
    ensures HasKey(Present(candidates), k) <==>
            exists i :: 0 <= i < |candidates| && candidates[i].Some? && candidates[i].value.key == k
  {
    if |candidates| > 0 {
      var init := candidates[..|candidates| - 1];
      var rest := Present(init);
      var s := Present(candidates);
      PresentKeys(init, k);
      if HasKey(rest, k) {
        var j :| 0 <= j < |rest| && rest[j].key == k;
        assert s[j] == rest[j];
        var i :| 0 <= i < |init| && init[i].Some? && init[i].value.key == k;
        assert candidates[i] == init[i];
      }
      if HasKey(s, k) {
        var j :| 0 <= j < |s| && s[j].key == k;
        if j < |rest| {
          assert rest[j] == s[j];
        }
      }
      if exists i :: 0 <= i < |candidates| && candidates[i].Some? && candidates[i].value.key == k {
        var i :| 0 <= i < |candidates| && candidates[i].Some? && candidates[i].value.key == k;
        if i < |init| {
          assert init[i] == candidates[i];
        } else {
          assert s[|s| - 1] == candidates[i].value;
        }
      }
    }
  }

  /** A key occurs in the samples exactly when its bucket counts at least one sample. */
  lemma {:induction false} CountPositive(samples: seq<Sample>, k: string)
    ensures HasKey(samples, k) <==> CountOf(samples, k) > 0
  {
    if |samples| > 0 {
      HasKeyPrefix(samples, k);
      CountPositive(samples[..|samples| - 1], k);
    }
  }

  /** The fold yields a well-formed object whose keys are exactly the samples' keys. */
  lemma {:induction false} FoldKeys(samples: seq<Sample>, w: nat)
    requires Width(samples, w)
    ensures WellFormed(Fold(samples), w)
    ensures forall k :: k in Fold(samples).acc <==> HasKey(samples, k)
  {
    if |samples| > 0 {
      var p := samples[..|samples| - 1];
      var s := samples[|samples| - 1];
      FoldKeys(p, w);
      forall k ensures HasKey(samples, k) <==> HasKey(p, k) || s.key == k {
        HasKeyPrefix(samples, k);
      }
      var g := Fold(p);
      var g' := Fold(samples);
      assert g' == Add(g, s);
      if s.key !in g.acc {
        forall i, j | 0 <= i < j < |g'.order| ensures g'.order[i] != g'.order[j] {
          if j == |g'.order| - 1 {
            assert g'.order[i] in g.order;
          }
        }
      }
    }
  }

  /** Each bucket of the fold holds the number of its samples and the totals of their values. */
  lemma {:induction false} FoldTotals(samples: seq<Sample>, w: nat)
    requires Width(samples, w)
    ensures var g := Fold(samples);
            WellFormed(g, w) &&
            (forall k :: k in g.acc <==> HasKey(samples, k)) &&
            (forall k :: k in g.acc ==> g.acc[k].count == CountOf(samples, k)) &&
            (forall k, j :: k in g.acc && 0 <= j < w ==> g.acc[k].sums[j] == SumOf(samples, k, j))
  {
    FoldKeys(samples, w);
    if |samples| > 0 {
      var p := samples[..|samples| - 1];
      var s := samples[|samples| - 1];
      FoldTotals(p, w);
      var g := Fold(p);
      var g' := Fold(samples);
      assert g' == Add(g, s);
      forall k | k in g'.acc && k != s.key
        ensures g'.acc[k] == g.acc[k] && CountOf(samples, k) == CountOf(p, k)
        ensures forall j :: 0 <= j < w ==> SumOf(samples, k, j) == SumOf(p, k, j)
      {
      }
      if s.key !in g.acc {
        assert CountOf(p, s.key) == 0 by {
          NoKeyNoCount(p, s.key);
        }
        forall j | 0 <= j < w ensures SumOf(p, s.key, j) == 0.0 {
          NoKeySumZero(p, s.key, j);
        }
      }
    }
  }

  lemma {:induction false} NoKeyNoCount(samples: seq<Sample>, k: string)
    requires !HasKey(samples, k)
    ensures CountOf(samples, k) == 0
  {
    if |samples| > 0 {
      HasKeyPrefix(samples, k);
      NoKeyNoCount(samples[..|samples| - 1], k);
    }
  }

  lemma {:induction false} NoKeySumZero(samples: seq<Sample>, k: string, j: nat)
    requires !HasKey(samples, k)
    ensures SumOf(samples, k, j) == 0.0
  {
    if |samples| > 0 {
      HasKeyPrefix(samples, k);
      NoKeySumZero(samples[..|samples| - 1], k, j);
    }
  }

  /** The buckets come out in the order in which their keys were first seen. */
  lemma {:induction false} FoldOrder(samples: seq<Sample>, w: nat)
    requires Width(samples, w)
    ensures var order := Fold(samples).order;
            forall i, j :: 0 <= i < j < |order| ==> SeenBefore(samples, order[i], order[j])
  {
    if |samples| > 0 {
      var p := samples[..|samples| - 1];
      var s := samples[|samples| - 1];
      FoldOrder(p, w);
      FoldTotals(p, w);
      var g := Fold(p);
      var order := Fold(samples).order;
      forall i, j | 0 <= i < j < |order| ensures SeenBefore(samples, order[i], order[j]) {
        if j < |g.order| {
          assert SeenBefore(p, order[i], order[j]);
          var a :| 0 <= a < |p| && p[a].key == order[i] && forall b :: 0 <= b <= a ==> p[b].key != order[j];
          assert samples[a].key == order[i];
          assert forall b :: 0 <= b <= a ==> samples[b].key != order[j] by {
            forall b | 0 <= b <= a ensures samples[b].key != order[j] {
              assert samples[b] == p[b];
            }
          }
        } else {
          assert order[j] == s.key && s.key !in g.acc;
          assert order[i] in g.acc;
          var a :| 0 <= a < |p| && p[a].key == order[i];
          assert samples[a].key == order[i];
          forall b | 0 <= b <= a ensures samples[b].key != order[j] {
            assert samples[b] == p[b];
          }
        }
      }
    }
  }

  // ---------------------------------------------------------------- averaging

  /** `sum / count` for every column. */
  function Average(a: Acc): (avg: seq<real>)
    requires a.count >= 1
    ensures |avg| == |a.sums| &&
            forall j :: 0 <= j < |avg| ==> avg[j] * (a.count as real) == a.sums[j]
  {
    seq(|a.sums|, j requires 0 <= j < |a.sums| => a.sums[j] / (a.count as real))
  }

  /** `Object.entries(groups).map(([key, v]) => ({ key, values: v.sum / v.count }))`. */
  function Rows(g: Groups, w: nat): (rows: seq<Row>)
    requires WellFormed(g, w)
    ensures |rows| == |g.order|
    ensures forall i :: 0 <= i < |rows| ==> rows[i].key == g.order[i]
  {
    seq(|g.order|, i requires 0 <= i < |g.order| =>
      Row(g.order[i], Average(g.acc[g.order[i]])))
  }

  /** The rows of the samples' buckets: one per distinct key, in first-seen order. */
  lemma RowsKeys(samples: seq<Sample>, w: nat)
    requires Width(samples, w)
    ensures WellFormed(Fold(samples), w)
    ensures var rows := Rows(Fold(samples), w);
            (forall i, j :: 0 <= i < j < |rows| ==> rows[i].key != rows[j].key) &&
            (forall k :: HasKey(samples, k) <==> exists i :: 0 <= i < |rows| && rows[i].key == k) &&
            (forall i, j :: 0 <= i < j < |rows| ==> SeenBefore(samples, rows[i].key, rows[j].key)) &&
            (forall i :: 0 <= i < |rows| ==> |rows[i].values| == w && CountOf(samples, rows[i].key) >= 1)
  {
    FoldTotals(samples, w);
    FoldOrder(samples, w);
    var g := Fold(samples);
    var rows := Rows(g, w);
    forall i | 0 <= i < |rows| ensures |rows[i].values| == w && CountOf(samples, rows[i].key) >= 1 {
      assert g.order[i] in g.acc;
    }
    forall k | HasKey(samples, k) ensures exists i :: 0 <= i < |rows| && rows[i].key == k {
      var i :| 0 <= i < |g.order| && g.order[i] == k;
      assert rows[i].key == k;
    }
  }

  /** Column `c` of row `i` is the total of that column over the row's samples divided by their
      number, which is at least one. */
  lemma RowValue(samples: seq<Sample>, w: nat, i: nat, c: nat)
    requires Width(samples, w)
    requires i < |Fold(samples).order| && c < w
    ensures WellFormed(Fold(samples), w)
    ensures var row := Rows(Fold(samples), w)[i];
            CountOf(samples, row.key) >= 1 && |row.values| == w &&
            row.values[c] == SumOf(samples, row.key, c) / (CountOf(samples, row.key) as real)
  {
    FoldTotals(samples, w);
  }

  /** The rows of the samples' buckets: one per distinct key, in first-seen order, each holding,
      per column, the total of its samples divided by their number (at least one). */
  lemma RowsMeaning(samples: seq<Sample>, w: nat)
    requires Width(samples, w)
    ensures WellFormed(Fold(samples), w)
    ensures var rows := Rows(Fold(samples), w);
            (forall i, j :: 0 <= i < j < |rows| ==> rows[i].key != rows[j].key) &&
            (forall k :: HasKey(samples, k) <==> exists i :: 0 <= i < |rows| && rows[i].key == k) &&
            (forall i, j :: 0 <= i < j < |rows| ==> SeenBefore(samples, rows[i].key, rows[j].key)) &&
            (forall i :: 0 <= i < |rows| ==>
               CountOf(samples, rows[i].key) >= 1 && |rows[i].values| == w &&
               forall c :: 0 <= c < w ==>
                 rows[i].values[c] == SumOf(samples, rows[i].key, c) / (CountOf(samples, rows[i].key) as real))
  {
    RowsKeys(samples, w);
    var rows := Rows(Fold(samples), w);
    forall i | 0 <= i < |rows|
      ensures forall c :: 0 <= c < w ==>
                rows[i].values[c] == SumOf(samples, rows[i].key, c) / (CountOf(samples, rows[i].key) as real)
    {
      forall c | 0 <= c < w
        ensures rows[i].values[c] == SumOf(samples, rows[i].key, c) / (CountOf(samples, rows[i].key) as real)
      {
        RowValue(samples, w, i, c);
      }
    }
  }
}
