/** The running `metric -> K -> [sum, count]` table of one evaluation pass:
    `get_metrics` adds a batch into it in place, and `test` divides it once at
    the end. */
module Aggregation {
  import opened Basics
  import opened Ranking
  import opened Metrics

  datatype Metric = Recall | Ndcg

  /** `metrics[m][topk]`, flattened to one key per (metric, K). */
  type Table = map<(Metric, nat), Tally>

  const Zero := Tally(0.0, 0)

  function Add(a: Tally, b: Tally): Tally
  {
    Tally(a.num + b.num, a.den + b.den)
  }

  /** The configured K values: positive (a zero K makes `view(-1, 0)` raise). */
  predicate ValidTopks(topks: seq<nat>)
  {
    forall i :: 0 <= i < |topks| ==> topks[i] >= 1
  }

  /** A batch: `grd` and the masked `pred`, one row per user, `n` columns each. */
  predicate BatchShape(truth: seq<seq<bool>>, pred: seq<seq<real>>, n: nat)
  {
    |truth| == |pred|
    && (forall r :: 0 <= r < |pred| ==> |pred[r]| == n)
    && (forall r :: 0 <= r < |truth| ==> |truth[r]| == n)
  }

  /** `[0, 0]` for every metric and every configured K, as `test` starts. */
  function ZeroTable(topks: seq<nat>): (t: Table)
    ensures forall e :: e in t <==> e.1 in topks
    ensures forall e :: e in t ==> t[e] == Zero
  {
    if |topks| == 0 then map[]
    else
      var k := topks[|topks| - 1];
      var t := ZeroTable(topks[..|topks| - 1])[(Recall, k) := Zero][(Ndcg, k) := Zero];
      assert forall e :: e in t <==> e.1 in topks by {
        forall e ensures e in t <==> e.1 in topks {
          InPrefixOrLast(topks, e.1);
          assert e.0 == Recall || e.0 == Ndcg;
        }
      }
      t
  }

  /** The hit matrix of a batch at one K. */
  function BatchHits(truth: seq<seq<bool>>, pred: seq<seq<real>>, n: nat, k: nat): (h: seq<seq<bool>>)
    requires BatchShape(truth, pred, n) && k <= n
    ensures |h| == |truth| && forall r :: 0 <= r < |h| ==> |h[r]| == k
  {
    Hits(truth, TopKRows(pred, n, k).value)
  }

  /** What one batch contributes to the entry (metric, K). */
  function EntryTally(truth: seq<seq<bool>>, pred: seq<seq<real>>, n: nat, e: (Metric, nat), d: nat -> real): Tally
    requires BatchShape(truth, pred, n) && 1 <= e.1 <= n && IsDiscount(d)
  {
    var hits := BatchHits(truth, pred, n, e.1);
    match e.0
    case Recall => GetRecall(truth, hits)
    case Ndcg => NdcgTally(truth, hits, e.1, d)
  }

  /** The `tmp` dictionary `get_metrics` fills before adding it in: one entry
      per metric and per distinct K. */
  function BatchTallies(truth: seq<seq<bool>>, pred: seq<seq<real>>, n: nat, topks: seq<nat>, d: nat -> real): (t: Table)
    requires BatchShape(truth, pred, n) && IsDiscount(d) && ValidTopks(topks)
    requires forall i :: 0 <= i < |topks| ==> topks[i] <= n
    ensures forall e :: e in t <==> e.1 in topks
  {
    if |topks| == 0 then map[]
    else
      var k := topks[|topks| - 1];
      var hits := BatchHits(truth, pred, n, k);
      var t := BatchTallies(truth, pred, n, topks[..|topks| - 1], d)
        [(Recall, k) := GetRecall(truth, hits)][(Ndcg, k) := NdcgTally(truth, hits, k, d)];
      assert forall e :: e in t <==> e.1 in topks by {
        forall e ensures e in t <==> e.1 in topks {
          InPrefixOrLast(topks, e.1);
          assert e.0 == Recall || e.0 == Ndcg;
        }
      }
      t
  }

  /** The batch table has an entry for each metric at each configured K, and
      that entry is what the batch contributes there, whatever the order of
      the K values and however often one repeats. */
  lemma {:induction false} BatchTalliesEntries(
    truth: seq<seq<bool>>, pred: seq<seq<real>>, n: nat, topks: seq<nat>, d: nat -> real)
    requires BatchShape(truth, pred, n) && IsDiscount(d) && ValidTopks(topks)
    requires forall i :: 0 <= i < |topks| ==> topks[i] <= n
    ensures var t := BatchTallies(truth, pred, n, topks, d);
      && (forall e :: e in t <==> e.1 in topks)
      && (forall e :: e in t ==> t[e] == EntryTally(truth, pred, n, e, d))
  {
    if |topks| > 0 {
      var front, k := topks[..|topks| - 1], topks[|topks| - 1];
      BatchTalliesEntries(truth, pred, n, front, d);
      var prev, t := BatchTallies(truth, pred, n, front, d), BatchTallies(truth, pred, n, topks, d);
      forall e | e in t ensures t[e] == EntryTally(truth, pred, n, e, d) {
        if e.1 != k { assert e in prev && t[e] == prev[e]; }
      }
    }
  }

  /** The ranked answers of a batch read no more hits than each user has positives. */
  lemma BatchHitsWithinPositives(truth: seq<seq<bool>>, pred: seq<seq<real>>, n: nat, k: nat)
    requires BatchShape(truth, pred, n) && k <= n
    ensures HitsWithinPositives(truth, BatchHits(truth, pred, n, k))
  {
    var cols := TopKRows(pred, n, k).value;
    forall r | 0 <= r < |truth|
      ensures Count(BatchHits(truth, pred, n, k)[r], true) <= NumPos(truth[r])
    {
      TopKColsIsTopK(pred[r], k);
      HitCountBound(pred[r], truth[r], k, cols[r]);
    }
  }

  /** Each entry a batch contributes has a sum between 0 and its count, and
      the count is the number of the batch's users with a positive. */
  lemma EntryTallyBounds(truth: seq<seq<bool>>, pred: seq<seq<real>>, n: nat, e: (Metric, nat), d: nat -> real)
    requires BatchShape(truth, pred, n) && 1 <= e.1 <= n && IsDiscount(d)
    ensures var t := EntryTally(truth, pred, n, e, d);
      t.den == PosRows(truth) && 0.0 <= t.num <= t.den as real
  {
    BatchHitsWithinPositives(truth, pred, n, e.1);
    var hits := BatchHits(truth, pred, n, e.1);
    match e.0
    case Recall => RecallTallyBounds(truth, hits);
    case Ndcg => NdcgTallyBounds(truth, hits, e.1, d);
  }

  /** `metrics[m][topk][i] += x` for every entry of the batch table `b`; the
      other entries stay as they were. */
  function Merge(t: Table, b: Table): (r: Table)
    ensures r.Keys == t.Keys
  {
    map e | e in t :: if e in b then Add(t[e], b[e]) else t[e]
  }

  /** An entry of a merged table is the sum of the two entries. */
  lemma MergeAt(t: Table, b: Table, e: (Metric, nat))
    requires e in t && e in b
    ensures e in Merge(t, b) && Merge(t, b)[e] == Add(t[e], b[e])
  {
  }

  /** An entry the batch table does not have keeps its value. */
  lemma MergeElsewhere(t: Table, b: Table, e: (Metric, nat))
    requires e in t && e !in b
    ensures e in Merge(t, b) && Merge(t, b)[e] == t[e]
  {
  }

  /** Every count of `t` is `p`, and every sum lies between 0 and its count. */
  predicate CountsAre(t: Table, p: nat)
  {
    forall e :: e in t ==> t[e].den == p && 0.0 <= t[e].num <= t[e].den as real
  }

  /** `c` has every key of `keys`, each with count `q` and a sum between 0 and `q`. */
  predicate Adds(c: Table, keys: set<(Metric, nat)>, q: nat)
  {
    forall e :: e in keys ==> e in c && c[e].den == q && 0.0 <= c[e].num <= q as real
  }

  function NatSum(qs: seq<nat>): nat
  {
    if |qs| == 0 then 0 else qs[0] + NatSum(qs[1..])
  }

  /** Merging a table that adds `q` to every count keeps the counts uniform. */
  lemma MergeCounts(t: Table, c: Table, p: nat, q: nat)
    requires CountsAre(t, p) && Adds(c, t.Keys, q)
    ensures CountsAre(Merge(t, c), p + q)
  {
    var m := Merge(t, c);
    forall e | e in m ensures m[e].den == p + q && 0.0 <= m[e].num <= m[e].den as real {
      MergeAt(t, c, e);
    }
  }

  /** Folding tables that each add a uniform count leaves uniform counts: their sum. */
  lemma {:induction false} TotalsCounts(t: Table, cs: seq<Table>, p: nat, qs: seq<nat>)
    requires |qs| == |cs| && CountsAre(t, p)
    requires forall j :: 0 <= j < |cs| ==> Adds(cs[j], t.Keys, qs[j])
    ensures CountsAre(Totals(t, cs), p + NatSum(qs))
  {
    if |cs| > 0 {
      MergeCounts(t, cs[0], p, qs[0]);
      var m := Merge(t, cs[0]);
      forall j | 0 <= j < |cs| - 1 ensures Adds(cs[1..][j], m.Keys, qs[1..][j]) {
        assert cs[1..][j] == cs[j + 1];
      }
      TotalsCounts(m, cs[1..], p + qs[0], qs[1..]);
    }
  }

  /** Adding two batches in either order gives the same table. */
  lemma MergeCommutes(t: Table, a: Table, b: Table)
    ensures Merge(Merge(t, a), b) == Merge(Merge(t, b), a)
  {
    var x, y := Merge(Merge(t, a), b), Merge(Merge(t, b), a);
    forall e | e in t ensures x[e] == y[e] {
    }
  }

  /** The table after a whole pass, batch contributions added in order. */
  function Totals(t: Table, contribs: seq<Table>): (r: Table)
    ensures r.Keys == t.Keys
  {
    if |contribs| == 0 then t else Totals(Merge(t, contribs[0]), contribs[1..])
  }

  /** Adding one more batch at the end of a pass. */
  lemma {:induction false} TotalsSnoc(t: Table, cs: seq<Table>, c: Table)
    ensures Totals(t, cs + [c]) == Merge(Totals(t, cs), c)
    decreases |cs|
  {
    if |cs| > 0 {
      assert (cs + [c])[1..] == cs[1..] + [c];
      TotalsSnoc(Merge(t, cs[0]), cs[1..], c);
    } else {
      assert (cs + [c])[1..] == [];
    }
  }

  /** Any one batch can be added first. */
  lemma {:induction false} TotalsPullOut(t: Table, cs: seq<Table>, i: nat)
    requires i < |cs|
    ensures Totals(t, cs) == Totals(Merge(t, cs[i]), cs[..i] + cs[i + 1..])
  {
    if i > 0 {
      var rest := cs[1..];
      TotalsPullOut(Merge(t, cs[0]), rest, i - 1);
      MergeCommutes(t, cs[0], cs[i]);
      var tail := cs[..i] + cs[i + 1..];
      RemoveLater(cs, i);
      calc {
        Totals(Merge(t, cs[i]), tail);
        Totals(Merge(Merge(t, cs[i]), cs[0]), tail[1..]);
        Totals(Merge(Merge(t, cs[0]), cs[i]), rest[..i - 1] + rest[i..]);
        Totals(Merge(t, cs[0]), rest);
      }
    } else {
      assert cs[..0] + cs[1..] == cs[1..];
    }
  }

  /** The totals of a pass do not depend on the order of its batches. */
  lemma {:induction false} TotalsOrderIndependent(t: Table, cs: seq<Table>, ds: seq<Table>)
    requires multiset(cs) == multiset(ds)
    ensures Totals(t, cs) == Totals(t, ds)
    decreases |cs|
  {
    if |cs| > 0 {
      assert cs[0] in multiset(ds);
      var i :| 0 <= i < |ds| && ds[i] == cs[0];
      RemoveMatching(cs, ds, i);
      TotalsPullOut(t, ds, i);
      TotalsOrderIndependent(Merge(t, cs[0]), cs[1..], ds[..i] + ds[i + 1..]);
    } else {
      assert |ds| == |multiset(ds)| == 0;
    }
  }

  /** `res[0] / res[1]` for every entry; a zero count raises ZeroDivisionError. */
  function Averages(t: Table): (r: Result<map<(Metric, nat), real>>)
    ensures r.Err? <==> exists e :: e in t && t[e].den == 0
    ensures r.Err? ==> r.error == DivisionByZero
    ensures r.Ok? ==> r.value.Keys == t.Keys
    ensures r.Ok? ==> forall e :: e in t ==> r.value[e] == t[e].num / t[e].den as real
  {
    if exists e :: e in t && t[e].den == 0 then Err(DivisionByZero)
    else Ok(map e | e in t :: t[e].num / t[e].den as real)
  }

  /** Entries whose sum lies between 0 and their count average into [0, 1]. */
  lemma AveragesBounded(t: Table)
    requires forall e :: e in t ==> 0.0 <= t[e].num <= t[e].den as real
    requires Averages(t).Ok?
    ensures forall e :: e in t ==> 0.0 <= Averages(t).value[e] <= 1.0
  {
    forall e | e in t ensures 0.0 <= Averages(t).value[e] <= 1.0 {
      RatioBounds(t[e].num, t[e].den as real);
    }
  }

  lemma BatchTalliesSnoc(
    truth: seq<seq<bool>>, pred: seq<seq<real>>, n: nat, topks: seq<nat>, i: nat, d: nat -> real)
    requires BatchShape(truth, pred, n) && IsDiscount(d) && ValidTopks(topks)
    requires i < |topks| && forall j :: 0 <= j <= i ==> topks[j] <= n
    ensures var k, hits := topks[i], BatchHits(truth, pred, n, topks[i]);
      BatchTallies(truth, pred, n, topks[..i + 1], d)
        == BatchTallies(truth, pred, n, topks[..i], d)
             [(Recall, k) := GetRecall(truth, hits)][(Ndcg, k) := NdcgTally(truth, hits, k, d)]
  {
    assert topks[..i + 1][..i] == topks[..i];
  }

  /** The first loop of `get_metrics`: the `tmp` table of the batch at every
      K, or failure as soon as a K exceeds the number of columns. */
  method BatchTable(truth: seq<seq<bool>>, pred: seq<seq<real>>, n: nat, topks: seq<nat>, d: nat -> real)
    returns (ok: bool, tmp: Table)
    requires BatchShape(truth, pred, n) && IsDiscount(d) && ValidTopks(topks)
    ensures ok <==> forall i :: 0 <= i < |topks| ==> topks[i] <= n
    ensures ok ==> tmp == BatchTallies(truth, pred, n, topks, d)
  {
    tmp := map[];
    for i := 0 to |topks|
      invariant forall j :: 0 <= j < i ==> topks[j] <= n
      invariant tmp == BatchTallies(truth, pred, n, topks[..i], d)
    {
      var k := topks[i];
      var cols := TopKRows(pred, n, k);
      if cols.Err? {
        return false, tmp;
      }
      var hits := Hits(truth, cols.value);
      assert hits == BatchHits(truth, pred, n, k);
      var ndcg := GetNdcg(truth, hits, k, d);
      BatchTalliesSnoc(truth, pred, n, topks, i, d);
      tmp := tmp[(Recall, k) := GetRecall(truth, hits)][(Ndcg, k) := ndcg];
    }
    assert topks[..|topks|] == topks;
    ok := true;
  }

  /** The mutable `tmp_metrics` table of one pass of `test`. */
  class Accumulator {
    var totals: Table

    /** The nested loops of `test` that set every entry to `[0, 0]`. */
    constructor (topks: seq<nat>)
      ensures totals == ZeroTable(topks)
    {
      var t: Table := map[];
      for i := 0 to |topks|
        invariant t == ZeroTable(topks[..i])
      {
        assert topks[..i + 1][..i] == topks[..i];
        t := t[(Recall, topks[i]) := Zero][(Ndcg, topks[i]) := Zero];
      }
      assert topks[..|topks|] == topks;
      totals := t;
    }

    /** `get_metrics`: ranks the batch at every K (raising when a K exceeds the
        number of columns, before anything is added), then adds the batch's
        `[sum, count]` pairs into the matching entries. */
    method AddBatch(truth: seq<seq<bool>>, pred: seq<seq<real>>, n: nat, topks: seq<nat>, d: nat -> real)
      returns (ok: bool)
      requires BatchShape(truth, pred, n) && IsDiscount(d) && ValidTopks(topks)
      requires forall i :: 0 <= i < |topks| ==> (Recall, topks[i]) in totals && (Ndcg, topks[i]) in totals
      modifies this
      ensures ok <==> forall i :: 0 <= i < |topks| ==> topks[i] <= n
      ensures ok ==> totals == Merge(old(totals), BatchTallies(truth, pred, n, topks, d))
      ensures !ok ==> totals == old(totals)
    {
      var tmp;
      ok, tmp := BatchTable(truth, pred, n, topks, d);
      if ok {
        BatchTalliesEntries(truth, pred, n, topks, d);
        assert tmp.Keys <= totals.Keys by {
          forall e | e in tmp ensures e in totals {
            var i :| 0 <= i < |topks| && topks[i] == e.1;
            assert e.0 == Recall || e.0 == Ndcg;
          }
        }
        AddInto(tmp);
      }
    }

    /** The triple loop of `get_metrics`: `metrics[m][topk][i] += x` for every
        entry of the batch table. */
    method AddInto(b: Table)
      requires b.Keys <= totals.Keys
      modifies this
      ensures totals == Merge(old(totals), b)
    {
      var pending := b.Keys;
      while pending != {}
        invariant pending <= b.Keys <= totals.Keys
        invariant totals.Keys == old(totals).Keys
        invariant forall e :: e in totals ==>
          totals[e] == if e in b && e !in pending then Add(old(totals)[e], b[e]) else old(totals)[e]
        decreases |pending|
      {
        var e :| e in pending;
        totals := totals[e := Add(totals[e], b[e])];
        pending := pending - {e};
      }
    }

    /** The division at the end of `test`: every entry's sum over its count. */
    method Finalize() returns (r: Result<map<(Metric, nat), real>>)
      ensures r == Averages(totals)
    {
      var out: map<(Metric, nat), real> := map[];
      var pending := totals.Keys;
      while pending != {}
        invariant pending <= totals.Keys
        invariant out.Keys == totals.Keys - pending
        invariant forall e :: e in out ==> totals[e].den != 0 && out[e] == totals[e].num / totals[e].den as real
        decreases |pending|
      {
        var e :| e in pending;
        if totals[e].den == 0 {
          return Err(DivisionByZero);
        }
        out := out[e := totals[e].num / totals[e].den as real];
        pending := pending - {e};
      }
      assert out == map e | e in totals :: totals[e].num / totals[e].den as real;
      r := Ok(out);
    }
  }
}
