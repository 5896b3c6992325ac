/** Model selection: the best snapshot of validation and test metrics seen so
    far, replaced wholesale when a new evaluation improves both validation
    recall and validation NDCG at the selection K. */
module Selection {
  import opened Basics
  import opened Aggregation

  datatype Split = ValSplit | TestSplit

  /** `metrics[split][metric][topk]`, flattened. */
  type Key = (Split, Metric, nat)
  type Snapshot = map<Key, real>

  /** A "Best in epoch" summary line; its timestamp is not modelled. */
  datatype Perform = Perform(epoch: int, k: nat, recall: real, ndcg: real)

  /** `best_metrics`, `best_perform` and `best_epoch` together. */
  datatype BestState = BestState(best: Snapshot, perform: map<(Split, nat), Perform>, epoch: int)

  /** One evaluation handed to `log_metrics`: its metrics and its epoch. */
  datatype Candidate = Candidate(metrics: Snapshot, epoch: int)

  /** Every (split, metric, K) entry for the configured K values. */
  function Keys(topks: seq<nat>): (ks: set<Key>)
    ensures forall e :: e in ks <==> e.2 in topks
  {
    var ks := set k, s, m | k in topks && s in {ValSplit, TestSplit} && m in {Recall, Ndcg} :: (s, m, k);
    assert forall e: Key | e.2 in topks :: e in ks by {
      forall e: Key | e.2 in topks ensures e in ks {
        assert e.0 == ValSplit || e.0 == TestSplit;
        assert e.1 == Recall || e.1 == Ndcg;
      }
    }
    ks
  }

  /** Every (split, K) summary line for the configured K values. */
  function LineKeys(topks: seq<nat>): (ks: set<(Split, nat)>)
    ensures forall p :: p in ks <==> p.1 in topks
  {
    var ks := set k, s | k in topks && s in {ValSplit, TestSplit} :: (s, k);
    assert forall p: (Split, nat) | p.1 in topks :: p in ks by {
      forall p: (Split, nat) | p.1 in topks ensures p in ks {
        assert p.0 == ValSplit || p.0 == TestSplit;
      }
    }
    ks
  }

  /** The evaluation carries every configured entry. */
  predicate Covers(m: Snapshot, topks: seq<nat>)
  {
    Keys(topks) <= m.Keys
  }

  /** `init_best_metrics` and `best_epoch = 0`. */
  function Init(topks: seq<nat>): (s: BestState)
    ensures s.best.Keys == Keys(topks)
    ensures forall e :: e in s.best ==> s.best[e] == 0.0
    ensures s.perform == map[] && s.epoch == 0
  {
    BestState(map e | e in Keys(topks) :: 0.0, map[], 0)
  }

  /** The improvement test of `log_metrics`: validation recall at `kv` is
      looked up and compared first, validation NDCG only if recall improved;
      a lookup of an absent entry raises. */
  function Compare(best: Snapshot, kv: nat, cand: Snapshot): (r: Result<bool>)
    ensures r == Ok(true) <==>
      && (ValSplit, Recall, kv) in cand && (ValSplit, Recall, kv) in best
      && (ValSplit, Ndcg, kv) in cand && (ValSplit, Ndcg, kv) in best
      && cand[(ValSplit, Recall, kv)] > best[(ValSplit, Recall, kv)]
      && cand[(ValSplit, Ndcg, kv)] > best[(ValSplit, Ndcg, kv)]
    ensures r.Err? <==>
      || (ValSplit, Recall, kv) !in cand || (ValSplit, Recall, kv) !in best
      || (cand[(ValSplit, Recall, kv)] > best[(ValSplit, Recall, kv)]
          && ((ValSplit, Ndcg, kv) !in cand || (ValSplit, Ndcg, kv) !in best))
    ensures r.Err? ==> r.error == MissingKey
  {
    var rk, gk := (ValSplit, Recall, kv), (ValSplit, Ndcg, kv);
    if rk !in cand || rk !in best then Err(MissingKey)
    else if cand[rk] <= best[rk] then Ok(false)
    else if gk !in cand || gk !in best then Err(MissingKey)
    else Ok(cand[gk] > best[gk])
  }

  /** The new state on an improvement: every configured entry of both splits
      is overwritten with the candidate's, both summary lines of every K name
      the new best, and the best epoch becomes the candidate's. */
  function Adopt(sel: BestState, topks: seq<nat>, cand: Candidate): (s: BestState)
    requires Covers(cand.metrics, topks)
    ensures s.best.Keys == sel.best.Keys + Keys(topks)
    ensures s.perform.Keys == sel.perform.Keys + LineKeys(topks)
    ensures s.epoch == cand.epoch
  {
    BestState(
      sel.best + (map e | e in Keys(topks) :: cand.metrics[e]),
      sel.perform + (map p | p in LineKeys(topks) :: Perform(cand.epoch, p.1, cand.metrics[(p.0, Recall, p.1)], cand.metrics[(p.0, Ndcg, p.1)])),
      cand.epoch)
  }

  /** On an improvement every configured entry comes from the candidate and
      every other entry stays; each configured K gets a summary line for each
      split naming the new epoch and the new values. */
  lemma AdoptOverwrites(sel: BestState, topks: seq<nat>, cand: Candidate)
    requires Covers(cand.metrics, topks)
    ensures var s := Adopt(sel, topks, cand);
      forall e :: e in s.best ==> s.best[e] == if e.2 in topks then cand.metrics[e] else sel.best[e]
    ensures var s := Adopt(sel, topks, cand);
      forall p :: p in s.perform ==>
        s.perform[p] == (if p.1 in topks then Perform(cand.epoch, p.1, cand.metrics[(p.0, Recall, p.1)], cand.metrics[(p.0, Ndcg, p.1)])
                         else sel.perform[p])
  {
  }

  /** One call of `log_metrics` on the selection state. */
  function Step(sel: BestState, topks: seq<nat>, kv: nat, cand: Candidate): (r: Result<BestState>)
    requires Covers(cand.metrics, topks)
    ensures r.Err? ==> r.error == MissingKey
    ensures r.Ok? ==> r.value == sel || (r.value == Adopt(sel, topks, cand) && Dominates(cand.metrics, sel.best, kv))
  {
    match Compare(sel.best, kv, cand.metrics)
    case Err(e) => Err(e)
    case Ok(improved) => Ok(if improved then Adopt(sel, topks, cand) else sel)
  }

  /** The selection state after a sequence of evaluations. */
  function Run(sel: BestState, topks: seq<nat>, kv: nat, cands: seq<Candidate>): (r: Result<BestState>)
    requires forall i :: 0 <= i < |cands| ==> Covers(cands[i].metrics, topks)
    ensures r.Err? ==> r.error == MissingKey
    ensures r.Ok? ==> r.value.epoch == sel.epoch || exists i :: 0 <= i < |cands| && r.value.epoch == cands[i].epoch
    decreases |cands|
  {
    if |cands| == 0 then Ok(sel)
    else match Step(sel, topks, kv, cands[0])
      case Err(e) => Err(e)
      case Ok(next) => Run(next, topks, kv, cands[1..])
  }

  /** `c` beats `b` strictly on both validation metrics at `kv`. */
  predicate Dominates(c: Snapshot, b: Snapshot, kv: nat)
  {
    && (ValSplit, Recall, kv) in c && (ValSplit, Recall, kv) in b
    && (ValSplit, Ndcg, kv) in c && (ValSplit, Ndcg, kv) in b
    && c[(ValSplit, Recall, kv)] > b[(ValSplit, Recall, kv)]
    && c[(ValSplit, Ndcg, kv)] > b[(ValSplit, Ndcg, kv)]
  }

  /** The decision is exactly strict domination: equality, or improvement on
      only one of the two metrics, keeps the current best. */
  lemma StepIffDominates(sel: BestState, topks: seq<nat>, kv: nat, cand: Candidate)
    requires Covers(cand.metrics, topks) && kv in topks && sel.best.Keys == Keys(topks)
    ensures Step(sel, topks, kv, cand).Ok?
    ensures Dominates(cand.metrics, sel.best, kv) ==> Step(sel, topks, kv, cand) == Ok(Adopt(sel, topks, cand))
    ensures !Dominates(cand.metrics, sel.best, kv) ==> Step(sel, topks, kv, cand) == Ok(sel)
  {
    assert (ValSplit, Recall, kv) in Keys(topks) && (ValSplit, Ndcg, kv) in Keys(topks);
  }

  /** Only the two validation entries at `kv` are read: the test split and the
      other K values never change the decision. */
  lemma CompareReadsValidationAtK(best: Snapshot, kv: nat, c1: Snapshot, c2: Snapshot)
    requires forall m :: (ValSplit, m, kv) in c1 <==> (ValSplit, m, kv) in c2
    requires forall m :: (ValSplit, m, kv) in c1 ==> c1[(ValSplit, m, kv)] == c2[(ValSplit, m, kv)]
    ensures Compare(best, kv, c1) == Compare(best, kv, c2)
  {
    assert (ValSplit, Recall, kv) in c1 <==> (ValSplit, Recall, kv) in c2;
    assert (ValSplit, Ndcg, kv) in c1 <==> (ValSplit, Ndcg, kv) in c2;
  }

  /** A best of recall 0.10 and NDCG 0.08 at K = 20: a candidate of recall 0.12
      and NDCG 0.07 keeps it; one of recall 0.12 and NDCG 0.09 replaces it. */
  lemma SelectionAtTwenty()
    ensures var best := map[(ValSplit, Recall, 20) := 0.10, (ValSplit, Ndcg, 20) := 0.08];
      && Compare(best, 20, map[(ValSplit, Recall, 20) := 0.12, (ValSplit, Ndcg, 20) := 0.07]) == Ok(false)
      && Compare(best, 20, map[(ValSplit, Recall, 20) := 0.12, (ValSplit, Ndcg, 20) := 0.09]) == Ok(true)
  {
  }

  /** A step never lowers validation recall or NDCG at `kv`, and a step that
      changes the best raises both. */
  lemma StepMonotone(sel: BestState, topks: seq<nat>, kv: nat, cand: Candidate)
    requires Covers(cand.metrics, topks) && kv in topks && sel.best.Keys == Keys(topks)
    ensures var next := Step(sel, topks, kv, cand).value;
      && next.best.Keys == Keys(topks)
      && next.best[(ValSplit, Recall, kv)] >= sel.best[(ValSplit, Recall, kv)]
      && next.best[(ValSplit, Ndcg, kv)] >= sel.best[(ValSplit, Ndcg, kv)]
      && (next.best != sel.best ==>
            && next.best[(ValSplit, Recall, kv)] > sel.best[(ValSplit, Recall, kv)]
            && next.best[(ValSplit, Ndcg, kv)] > sel.best[(ValSplit, Ndcg, kv)])
  {
    StepIffDominates(sel, topks, kv, cand);
  }

  /** Once a sequence of evaluations has been logged, none of them, nor any
      evaluation that did not dominate the starting best, strictly beats the
      final best on both validation metrics. */
  lemma {:induction false} RunUndominated(
    sel: BestState, topks: seq<nat>, kv: nat, cands: seq<Candidate>, prior: seq<Snapshot>)
    requires kv in topks && sel.best.Keys == Keys(topks)
    requires forall i :: 0 <= i < |cands| ==> Covers(cands[i].metrics, topks)
    requires forall i :: 0 <= i < |prior| ==> !Dominates(prior[i], sel.best, kv)
    ensures Run(sel, topks, kv, cands).Ok?
    ensures forall i :: 0 <= i < |prior| ==> !Dominates(prior[i], Run(sel, topks, kv, cands).value.best, kv)
    ensures forall i :: 0 <= i < |cands| ==> !Dominates(cands[i].metrics, Run(sel, topks, kv, cands).value.best, kv)
    decreases |cands|
  {
    if |cands| > 0 {
      var c := cands[0];
      StepIffDominates(sel, topks, kv, c);
      StepMonotone(sel, topks, kv, c);
      var next := Step(sel, topks, kv, c).value;
      var rk, gk := (ValSplit, Recall, kv), (ValSplit, Ndcg, kv);
      assert rk in Keys(topks) && gk in Keys(topks);
      var prior' := prior + [c.metrics];
      forall i | 0 <= i < |prior'| ensures !Dominates(prior'[i], next.best, kv) {
        if i < |prior| {
          assert !Dominates(prior[i], sel.best, kv);
        } else if next != sel {
          assert next.best[rk] == c.metrics[rk] && next.best[gk] == c.metrics[gk];
        }
      }
      RunUndominated(next, topks, kv, cands[1..], prior');
      var fin := Run(sel, topks, kv, cands).value;
      forall i | 0 <= i < |cands| ensures !Dominates(cands[i].metrics, fin.best, kv) {
        if i == 0 {
          assert prior'[|prior|] == c.metrics;
        } else {
          assert cands[1..][i - 1] == cands[i];
        }
      }
      forall i | 0 <= i < |prior| ensures !Dominates(prior[i], fin.best, kv) {
        assert prior'[i] == prior[i];
      }
    }
  }

  /** Every evaluation of a run from the initial state is beaten or matched on
      at least one validation metric by the final best. */
  lemma RunFromInitUndominated(topks: seq<nat>, kv: nat, cands: seq<Candidate>)
    requires kv in topks
    requires forall i :: 0 <= i < |cands| ==> Covers(cands[i].metrics, topks)
    ensures Run(Init(topks), topks, kv, cands).Ok?
    ensures forall i :: 0 <= i < |cands| ==> !Dominates(cands[i].metrics, Run(Init(topks), topks, kv, cands).value.best, kv)
  {
    RunUndominated(Init(topks), topks, kv, cands, []);
  }

  /** The final state of a run is its starting state, or the state adopted
      from one of its evaluations: that evaluation's configured entries and
      its epoch. */
  lemma {:induction false} RunBestFromCandidate(sel: BestState, topks: seq<nat>, kv: nat, cands: seq<Candidate>)
    requires forall i :: 0 <= i < |cands| ==> Covers(cands[i].metrics, topks)
    requires Run(sel, topks, kv, cands).Ok?
    ensures var fin := Run(sel, topks, kv, cands).value;
      || fin == sel
      || exists i :: 0 <= i < |cands| && fin.epoch == cands[i].epoch
           && forall e :: e in Keys(topks) ==> e in fin.best && fin.best[e] == cands[i].metrics[e]
    decreases |cands|
  {
    if |cands| > 0 {
      var next := Step(sel, topks, kv, cands[0]).value;
      RunBestFromCandidate(next, topks, kv, cands[1..]);
      var fin := Run(sel, topks, kv, cands).value;
      if fin != sel {
        if fin == next {
          assert next != sel;
          assert fin.epoch == cands[0].epoch;
          AdoptOverwrites(sel, topks, cands[0]);
        } else {
          var j :| 0 <= j < |cands[1..]| && fin.epoch == cands[1..][j].epoch
            && forall e :: e in Keys(topks) ==> e in fin.best && fin.best[e] == cands[1..][j].metrics[e];
          assert cands[1..][j] == cands[j + 1];
        }
      }
    }
  }

  /** Overwriting the entries of one more K extends the overwritten table. */
  lemma BestSnoc(b0: Snapshot, cand: Snapshot, ks: seq<nat>, k: nat)
    requires Keys(ks + [k]) <= cand.Keys
    ensures b0 + (map e | e in Keys(ks + [k]) :: cand[e])
      == (b0 + (map e | e in Keys(ks) :: cand[e]))
           [(ValSplit, Recall, k) := cand[(ValSplit, Recall, k)]][(ValSplit, Ndcg, k) := cand[(ValSplit, Ndcg, k)]]
           [(TestSplit, Recall, k) := cand[(TestSplit, Recall, k)]][(TestSplit, Ndcg, k) := cand[(TestSplit, Ndcg, k)]]
  {
    assert forall x :: x in ks + [k] <==> x in ks || x == k;
  }

  /** Writing the summary lines of one more K extends the written lines. */
  lemma PerformSnoc(p0: map<(Split, nat), Perform>, cand: Snapshot, epoch: int, ks: seq<nat>, k: nat)
    requires Keys(ks + [k]) <= cand.Keys
    ensures p0 + (map p | p in LineKeys(ks + [k]) :: Perform(epoch, p.1, cand[(p.0, Recall, p.1)], cand[(p.0, Ndcg, p.1)]))
      == (p0 + (map p | p in LineKeys(ks) :: Perform(epoch, p.1, cand[(p.0, Recall, p.1)], cand[(p.0, Ndcg, p.1)])))
           [(TestSplit, k) := Perform(epoch, k, cand[(TestSplit, Recall, k)], cand[(TestSplit, Ndcg, k)])]
           [(ValSplit, k) := Perform(epoch, k, cand[(ValSplit, Recall, k)], cand[(ValSplit, Ndcg, k)])]
  {
    assert forall x :: x in ks + [k] <==> x in ks || x == k;
  }

  /** `best_metrics`, `best_perform` and `best_epoch` of one configuration's
      run, updated in place by `log_metrics`. */
  class Selector {
    const topks: seq<nat>
    const topkValid: nat
    var best: Snapshot
    var perform: map<(Split, nat), Perform>
    var bestEpoch: int

    function State(): BestState
      reads this
    {
      BestState(best, perform, bestEpoch)
    }

    /** `init_best_metrics(conf)` followed by `best_epoch = 0`. */
    constructor (topks: seq<nat>, topkValid: nat)
      ensures this.topks == topks && this.topkValid == topkValid
      ensures State() == Init(topks)
    {
      this.topks := topks;
      this.topkValid := topkValid;
      var b: Snapshot := map[];
      for i := 0 to |topks|
        invariant b == map e | e in Keys(topks[..i]) :: 0.0
      {
        var k := topks[i];
        b := b[(ValSplit, Recall, k) := 0.0][(ValSplit, Ndcg, k) := 0.0];
        b := b[(TestSplit, Recall, k) := 0.0][(TestSplit, Ndcg, k) := 0.0];
        assert forall e :: e in Keys(topks[..i + 1]) <==> e in Keys(topks[..i]) || e.2 == k by {
          assert topks[..i + 1] == topks[..i] + [k];
        }
      }
      assert topks[..|topks|] == topks;
      best := b;
      perform := map[];
      bestEpoch := 0;
    }

    /** The selection part of `log_metrics(...)`: compare, and on an
        improvement overwrite every configured entry, the summary lines and
        the best epoch. Returns whether the candidate was adopted. */
    method LogMetrics(cand: Snapshot, epoch: int) returns (r: Result<bool>)
      requires Covers(cand, topks)
      modifies this
      ensures r == Compare(old(best), topkValid, cand)
      ensures r.Ok? ==> Step(old(State()), topks, topkValid, Candidate(cand, epoch)) == Ok(State())
      ensures r.Err? ==> State() == old(State())
    {
      r := Compare(best, topkValid, cand);
      if r.Err? || !r.value {
        return;
      }
      bestEpoch := epoch;
      ghost var b0, p0 := best, perform;
      for i := 0 to |topks|
        invariant bestEpoch == epoch
        invariant best == b0 + (map e | e in Keys(topks[..i]) :: cand[e])
        invariant perform == p0 + (map p | p in LineKeys(topks[..i]) ::
          Perform(epoch, p.1, cand[(p.0, Recall, p.1)], cand[(p.0, Ndcg, p.1)]))
      {
        var k := topks[i];
        assert topks[..i + 1] == topks[..i] + [k];
        BestSnoc(b0, cand, topks[..i], k);
        PerformSnoc(p0, cand, epoch, topks[..i], k);
        best := best[(ValSplit, Recall, k) := cand[(ValSplit, Recall, k)]][(ValSplit, Ndcg, k) := cand[(ValSplit, Ndcg, k)]];
        best := best[(TestSplit, Recall, k) := cand[(TestSplit, Recall, k)]][(TestSplit, Ndcg, k) := cand[(TestSplit, Ndcg, k)]];
        perform := perform[(TestSplit, k) := Perform(bestEpoch, k, best[(TestSplit, Recall, k)], best[(TestSplit, Ndcg, k)])];
        perform := perform[(ValSplit, k) := Perform(bestEpoch, k, best[(ValSplit, Recall, k)], best[(ValSplit, Ndcg, k)])];
      }
      assert topks[..|topks|] == topks;
      ghost var adopted := Adopt(BestState(b0, p0, old(bestEpoch)), topks, Candidate(cand, epoch));
      assert best == adopted.best;
      assert perform == adopted.perform;
      assert bestEpoch == adopted.epoch;
    }
  }
}
