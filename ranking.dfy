/** Mask-and-rank: push items seen in training to the bottom of a score row,
    select the K best columns of each row, and read the ground truth at them. */
module Ranking {
  import opened Basics

  /** The additive penalty taken off the score of every item seen in training. */
  const Offset: real := 100000000.0

  /** One row of `pred_b -= 1e8 * train_mask`. */
  function MaskRow(row: seq<real>, seen: seq<bool>): (r: seq<real>)
    requires |seen| == |row|
    ensures |r| == |row|
    ensures forall c :: 0 <= c < |row| && !seen[c] ==> r[c] == row[c]
    ensures forall c :: 0 <= c < |row| && seen[c] ==> r[c] == row[c] - Offset
  {
    seq(|row|, c requires 0 <= c < |row| => row[c] - Offset * (if seen[c] then 1.0 else 0.0))
  }

  /** Row and mask shapes agree. */
  predicate SameShape<T, U>(a: seq<seq<T>>, b: seq<seq<U>>)
  {
    |a| == |b| && forall r :: 0 <= r < |a| ==> |a[r]| == |b[r]|
  }

  /** The masked score matrix of a batch. */
  function Masked(scores: seq<seq<real>>, mask: seq<seq<bool>>): (m: seq<seq<real>>)
    requires SameShape(scores, mask)
    ensures SameShape(m, scores)
    ensures forall r :: 0 <= r < |m| ==> m[r] == MaskRow(scores[r], mask[r])
  {
    seq(|scores|, r requires 0 <= r < |scores| => MaskRow(scores[r], mask[r]))
  }

  /** Scores whose magnitude stays below half the offset keep every unseen item
      strictly above every seen item once masked. */
  lemma MaskSeparates(row: seq<real>, seen: seq<bool>, bound: real, u: nat, s: nat)
    requires |seen| == |row| && 2.0 * bound < Offset
    requires forall c :: 0 <= c < |row| ==> -bound <= row[c] <= bound
    requires u < |row| && s < |row|
    ensures !seen[u] && seen[s] ==> MaskRow(row, seen)[s] < MaskRow(row, seen)[u]
  {
  }

  /** `cols` is a valid answer of top-K on `row`: K distinct columns, in
      non-increasing score order, none beaten by a column left out. */
  predicate IsTopK(row: seq<real>, k: nat, cols: seq<nat>)
  {
    && |cols| == k
    && (forall j :: 0 <= j < k ==> cols[j] < |row|)
    && Distinct(cols)
    && (forall i, j :: 0 <= i < j < k ==> row[cols[j]] <= row[cols[i]])
    && (forall j, c :: 0 <= j < k && 0 <= c < |row| && c !in cols ==> row[c] <= row[cols[j]])
  }

  datatype Option<T> = None | Some(value: T)

  /** The best column among `0 .. n-1` not in `excl`; on equal scores the lowest
      index wins. */
  function ArgMaxOutside(row: seq<real>, excl: seq<nat>, n: nat): (r: Option<nat>)
    requires n <= |row|
    ensures r.None? <==> forall c :: 0 <= c < n ==> c in excl
    ensures r.Some? ==> r.value < n && r.value !in excl
    ensures r.Some? ==> forall c :: 0 <= c < n && c !in excl ==> row[c] <= row[r.value]
    ensures r.Some? ==> forall c :: 0 <= c < r.value && c !in excl ==> row[c] < row[r.value]
  {
    if n == 0 then None
    else
      var best := ArgMaxOutside(row, excl, n - 1);
      if n - 1 in excl then best
      else if best.None? || row[best.value] < row[n - 1] then Some(n - 1)
      else best
  }

  /** torch.topk(row, k).indices with lowest-index-first tie-breaking: the next
      column is always the best one not chosen yet. */
  function TopKCols(row: seq<real>, k: nat): (cols: seq<nat>)
    requires k <= |row|
    ensures |cols| == k && forall j :: 0 <= j < k ==> cols[j] < |row|
  {
    if k == 0 then []
    else
      var prev := TopKCols(row, k - 1);
      Pigeonhole(prev, |row|);
      prev + [ArgMaxOutside(row, prev, |row|).value]
  }

  /** The iterative choice is a valid top-K answer. */
  lemma {:induction false} TopKColsIsTopK(row: seq<real>, k: nat)
    requires k <= |row|
    ensures IsTopK(row, k, TopKCols(row, k))
  {
    if k > 0 {
      TopKColsIsTopK(row, k - 1);
      TopKExtends(row, k - 1, TopKCols(row, k - 1));
    }
  }

  /** The best column outside a top-K answer extends it to a top-(K+1) answer. */
  lemma TopKExtends(row: seq<real>, k: nat, prev: seq<nat>)
    requires k < |row| && IsTopK(row, k, prev)
    ensures ArgMaxOutside(row, prev, |row|).Some?
    ensures IsTopK(row, k + 1, prev + [ArgMaxOutside(row, prev, |row|).value])
  {
    Pigeonhole(prev, |row|);
    var j := ArgMaxOutside(row, prev, |row|).value;
    var cols := prev + [j];
    assert forall i :: 0 <= i < k ==> cols[i] == prev[i];
    assert forall i :: 0 <= i < k ==> row[j] <= row[prev[i]];
    assert Distinct(cols);
    forall c | 0 <= c < |row| && c !in cols ensures row[c] <= row[j] {
      assert c !in prev;
    }
  }

  /** A smaller K ranks a prefix of what a larger K ranks. */
  lemma {:induction false} TopKPrefix(row: seq<real>, k1: nat, k2: nat)
    requires k1 <= k2 <= |row|
    ensures TopKCols(row, k1) == TopKCols(row, k2)[..k1]
    decreases k2
  {
    if k1 < k2 {
      TopKPrefix(row, k1, k2 - 1);
      assert TopKCols(row, k2)[..k2 - 1] == TopKCols(row, k2 - 1);
    }
  }

  /** Top-K of every row of a batch whose rows all have `n` columns; torch.topk
      raises when `k` exceeds the number of columns. */
  function TopKRows(m: seq<seq<real>>, n: nat, k: nat): (r: Result<seq<seq<nat>>>)
    requires forall i :: 0 <= i < |m| ==> |m[i]| == n
    ensures r.Err? <==> k > n
    ensures r.Err? ==> r.error == TopKOutOfRange
    ensures r.Ok? ==> |r.value| == |m| && forall i :: 0 <= i < |m| ==> r.value[i] == TopKCols(m[i], k)
  {
    if k > n then Err(TopKOutOfRange)
    else Ok(seq(|m|, i requires 0 <= i < |m| => TopKCols(m[i], k)))
  }

  /** The values torch.topk returns beside the indices. */
  function TopKScores(row: seq<real>, cols: seq<nat>): (s: seq<real>)
    requires forall j :: 0 <= j < |cols| ==> cols[j] < |row|
    ensures |s| == |cols| && forall j :: 0 <= j < |cols| ==> s[j] == row[cols[j]]
  {
    Gather(row, cols)
  }

  /** `is_hit[j] = grd[col[j]]` over a K-column answer holds at most
      min(K, positives of the row) hits. */
  lemma HitCountBound(row: seq<real>, truth: seq<bool>, k: nat, cols: seq<nat>)
    requires |truth| == |row| && IsTopK(row, k, cols)
    ensures Count(Gather(truth, cols), true) <= k
    ensures Count(Gather(truth, cols), true) <= Count(truth, true)
  {
    GatherCountBound(truth, cols, true);
  }

  /** With scores bounded by less than half the offset, a seen item shows up in
      a top-K answer only when fewer than K items are unseen, and every unseen
      item it holds comes before every seen one. */
  lemma MaskedItemsRankLast(row: seq<real>, seen: seq<bool>, bound: real, k: nat, cols: seq<nat>)
    requires |seen| == |row| && 2.0 * bound < Offset
    requires forall c :: 0 <= c < |row| ==> -bound <= row[c] <= bound
    requires IsTopK(MaskRow(row, seen), k, cols)
    ensures (exists j :: 0 <= j < k && seen[cols[j]]) ==> Count(seen, false) < k
    ensures forall i, j :: 0 <= i < j < k && seen[cols[i]] ==> seen[cols[j]]
  {
    if j0 :| 0 <= j0 < k && seen[cols[j0]] {
      SeenRankedFewUnseen(row, seen, bound, k, cols, j0);
    }
    forall i, j | 0 <= i < j < k && seen[cols[i]] ensures seen[cols[j]] {
      MaskSeparates(row, seen, bound, cols[j], cols[i]);
    }
  }

  /** A seen item in a top-K answer means every unseen item is in it too,
      so there are fewer unseen items than K. */
  lemma SeenRankedFewUnseen(row: seq<real>, seen: seq<bool>, bound: real, k: nat, cols: seq<nat>, j0: nat)
    requires |seen| == |row| && 2.0 * bound < Offset
    requires forall c :: 0 <= c < |row| ==> -bound <= row[c] <= bound
    requires IsTopK(MaskRow(row, seen), k, cols)
    requires j0 < k && seen[cols[j0]]
    ensures Count(seen, false) < k
  {
    var unseen, chosen := Positions(seen, false), Elements(cols);
    forall u | u in unseen ensures u in chosen {
      MaskSeparates(row, seen, bound, u, cols[j0]);
      assert u in cols;
      var j :| 0 <= j < |cols| && cols[j] == u;
    }
    assert cols[j0] in chosen && cols[j0] !in unseen;
    SubsetCard(unseen, chosen);
    SetOfSeqCard(cols);
    CountIsCard(seen, false);
  }

  /** The hit matrix of a batch: row `r` of the ground truth read at the
      columns ranked for row `r`. */
  function Hits(truth: seq<seq<bool>>, cols: seq<seq<nat>>): (h: seq<seq<bool>>)
    requires |cols| == |truth|
    requires forall r, j :: 0 <= r < |truth| && 0 <= j < |cols[r]| ==> cols[r][j] < |truth[r]|
    ensures |h| == |truth|
    ensures forall r :: 0 <= r < |h| ==> h[r] == Gather(truth[r], cols[r])
  {
    seq(|truth|, r requires 0 <= r < |truth| => Gather(truth[r], cols[r]))
  }
}
