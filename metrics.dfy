/** Recall@K and NDCG@K of one batch, each as a `[numerator, denominator]`
    pair: the numerator sums the per-user values, the denominator counts the
    users that have at least one positive. */
module Metrics {
  import opened Basics

  /** The `1e-8` guarding `hit_cnt / num_pos` against a zero count. */
  const Epsilon: real := 0.00000001

  /** `[nomina, denorm]` as returned by the metric functions. */
  datatype Tally = Tally(num: real, den: int)

  /** The rank discount: `d(j)` weighs a hit at rank `j + 1` (the source uses
      `1 / log2(j + 2)`). Only its positivity and monotonicity are used. */
  ghost predicate IsDiscount(d: nat -> real)
  {
    && (forall j: nat :: 0.0 < d(j))
    && (forall i: nat, j: nat :: i <= j ==> d(j) <= d(i))
  }

  ghost predicate StrictlyDecreasing(d: nat -> real)
  {
    forall i: nat, j: nat :: i < j ==> d(j) < d(i)
  }

  /** `grd.sum(dim=1)` for one user. */
  function NumPos(truth: seq<bool>): (p: nat)
    ensures p <= |truth| && (p == 0 <==> forall i :: 0 <= i < |truth| ==> !truth[i])
  {
    Count(truth, true)
  }

  /** Number of users with at least one positive. */
  function PosRows(truth: seq<seq<bool>>): (n: nat)
    ensures n <= |truth|
  {
    if |truth| == 0 then 0 else B2I(NumPos(truth[0]) > 0) + PosRows(truth[1..])
  }

  /** `(num_pos == 0).sum()`. */
  function ZeroPosRows(truth: seq<seq<bool>>): (z: nat)
    ensures z <= |truth|
    ensures z == 0 <==> forall r :: 0 <= r < |truth| ==> NumPos(truth[r]) > 0
  {
    if |truth| == 0 then 0 else B2I(NumPos(truth[0]) == 0) + ZeroPosRows(truth[1..])
  }

  lemma {:induction false} ZeroAndPosRows(truth: seq<seq<bool>>)
    ensures ZeroPosRows(truth) + PosRows(truth) == |truth|
  {
    if |truth| > 0 { ZeroAndPosRows(truth[1..]); }
  }

  /** Every hit row reads the user's own ground truth at distinct columns, so
      it holds no more hits than the user has positives. */
  predicate HitsWithinPositives(truth: seq<seq<bool>>, hits: seq<seq<bool>>)
  {
    |hits| == |truth| && forall r :: 0 <= r < |truth| ==> Count(hits[r], true) <= NumPos(truth[r])
  }

  // ---------------------------------------------------------------- Recall

  /** `hit_cnt / (num_pos + epsilon)` for one user. */
  function UserRecall(hits: seq<bool>, truth: seq<bool>): (r: real)
    ensures 0.0 <= r && (r == 0.0 <==> Count(hits, true) == 0)
  {
    PositiveRatio(Count(hits, true) as real, NumPos(truth) as real + Epsilon);
    Count(hits, true) as real / (NumPos(truth) as real + Epsilon)
  }

  /** A non-negative amount over a positive one is non-negative, and zero only
      when the amount is. */
  lemma PositiveRatio(a: real, b: real)
    requires 0.0 <= a && 0.0 < b
    ensures 0.0 <= a / b && (a / b == 0.0 <==> a == 0.0)
  {
    assert a / b * b == a;
  }

  /** One user's recall lies in [0, 1) and is 0 for a user without positives. */
  lemma UserRecallBounds(hits: seq<bool>, truth: seq<bool>)
    requires Count(hits, true) <= NumPos(truth)
    ensures 0.0 <= UserRecall(hits, truth) < 1.0
    ensures NumPos(truth) == 0 ==> UserRecall(hits, truth) == 0.0
  {
    var h, p := Count(hits, true) as real, NumPos(truth) as real;
    RatioBelowOne(h, p + Epsilon);
  }

  lemma RatioBelowOne(h: real, q: real)
    requires 0.0 <= h < q
    ensures 0.0 <= h / q < 1.0
    ensures h == 0.0 ==> h / q == 0.0
  {
    var r := h / q;
    assert r * q == h;
    if r >= 1.0 {
      MulNonneg(r - 1.0, q);
      assert false;
    }
    if r < 0.0 {
      MulNonneg(-r, q);
      assert false;
    }
  }

  lemma MulNonneg(a: real, b: real)
    requires 0.0 <= a && 0.0 <= b
    ensures 0.0 <= a * b
  {
  }

  function RecallSum(truth: seq<seq<bool>>, hits: seq<seq<bool>>): (s: real)
    requires |hits| == |truth|
    ensures 0.0 <= s && (s == 0.0 <==> forall r :: 0 <= r < |hits| ==> Count(hits[r], true) == 0)
  {
    if |truth| == 0 then 0.0
    else UserRecall(hits[0], truth[0]) + RecallSum(truth[1..], hits[1..])
  }

  /** `get_recall`: the batch's summed recall and the number of its users with
      a positive. */
  function GetRecall(truth: seq<seq<bool>>, hits: seq<seq<bool>>): (t: Tally)
    requires |hits| == |truth|
    ensures t.den == PosRows(truth)
  {
    ZeroAndPosRows(truth);
    Tally(RecallSum(truth, hits), |truth| - ZeroPosRows(truth))
  }

  /** The summed recall never exceeds the number of users it is divided by. */
  lemma {:induction false} RecallTallyBounds(truth: seq<seq<bool>>, hits: seq<seq<bool>>)
    requires HitsWithinPositives(truth, hits)
    ensures 0.0 <= GetRecall(truth, hits).num <= GetRecall(truth, hits).den as real
  {
    if |truth| > 0 {
      UserRecallBounds(hits[0], truth[0]);
      RecallTallyBounds(truth[1..], hits[1..]);
    }
  }

  /** Inserting a user without positives (whose hit row is then empty of hits)
      anywhere in a batch changes neither recall sum nor count. */
  lemma {:induction false} RecallIgnoresZeroPosUser(
    truth: seq<seq<bool>>, hits: seq<seq<bool>>, i: nat, z: seq<bool>, h: seq<bool>)
    requires |hits| == |truth| && i <= |truth|
    requires NumPos(z) == 0 && Count(h, true) == 0
    ensures GetRecall(truth[..i] + [z] + truth[i..], hits[..i] + [h] + hits[i..]) == GetRecall(truth, hits)
  {
    var truth', hits' := truth[..i] + [z] + truth[i..], hits[..i] + [h] + hits[i..];
    if i == 0 {
      assert truth'[1..] == truth && hits'[1..] == hits;
    } else {
      assert truth'[1..] == truth[1..][..i - 1] + [z] + truth[1..][i - 1..];
      assert hits'[1..] == hits[1..][..i - 1] + [h] + hits[1..][i - 1..];
      RecallIgnoresZeroPosUser(truth[1..], hits[1..], i - 1, z, h);
    }
    ZeroAndPosRows(truth');
    ZeroAndPosRows(truth);
  }

  // ------------------------------------------------------------------ NDCG

  /** `DCG`: the hits weighed by the discount of their rank, starting at rank
      offset `o`. */
  function Dcg(hits: seq<bool>, d: nat -> real, o: nat): (r: real)
    ensures IsDiscount(d) ==> 0.0 <= r && (r == 0.0 <==> Count(hits, true) == 0)
  {
    if |hits| == 0 then 0.0
    else (if hits[0] then d(o) else 0.0) + Dcg(hits[1..], d, o + 1)
  }

  /** The discounts of the `p` ranks from `o` on: the best gain `p` hits can earn. */
  function Ideal(p: nat, d: nat -> real, o: nat): real
  {
    if p == 0 then 0.0 else d(o) + Ideal(p - 1, d, o + 1)
  }

  /** `hit = zeros(topk); hit[:num_pos] = 1`. */
  function IdealHits(p: nat, k: nat): (h: seq<bool>)
    ensures |h| == k && forall j :: 0 <= j < k ==> (h[j] <==> j < p)
  {
    seq(k, j => j < p)
  }

  /** `IDCG(num_pos, topk)`: the DCG of the ideal hit vector, which is the sum
      of the first min(P, K) discounts. */
  function Idcg(p: nat, k: nat, d: nat -> real): (r: real)
    ensures r == Ideal(Clamp(p, k), d, 0)
  {
    assert IdealHits(p, k) == IdealHits(Clamp(p, k), k);
    DcgOfIdealHits(Clamp(p, k), k, d, 0);
    Dcg(IdealHits(p, k), d, 0)
  }

  lemma {:induction false} DcgNoHits(hits: seq<bool>, d: nat -> real, o: nat)
    requires Count(hits, true) == 0
    ensures Dcg(hits, d, o) == 0.0
  {
    if |hits| > 0 { DcgNoHits(hits[1..], d, o + 1); }
  }

  lemma {:induction false} DcgOfIdealHits(p: nat, k: nat, d: nat -> real, o: nat)
    requires p <= k
    ensures Dcg(IdealHits(p, k), d, o) == Ideal(p, d, o)
  {
    if p == 0 {
      DcgNoHits(IdealHits(p, k), d, o);
    } else {
      assert IdealHits(p, k)[1..] == IdealHits(p - 1, k - 1);
      DcgOfIdealHits(p - 1, k - 1, d, o + 1);
    }
  }

  /** `IDCGs[i]`: 1 at index 0 (to avoid 0/0), the ideal DCG above it. */
  function IdcgEntry(m: nat, k: nat, d: nat -> real): (r: real)
    ensures m > 0 ==> r == Ideal(Clamp(m, k), d, 0)
    ensures IsDiscount(d) && (m == 0 || k > 0) ==> r > 0.0
  {
    assert IsDiscount(d) && m > 0 && k > 0 ==> Ideal(Clamp(m, k), d, 0) > 0.0 by {
      if IsDiscount(d) && m > 0 && k > 0 { IdealNonNegative(Clamp(m, k), d, 0); }
    }
    if m == 0 then 1.0 else Idcg(m, k, d)
  }

  /** `num_pos.clamp(0, topk)`. */
  function Clamp(p: nat, k: nat): (m: nat)
    ensures m <= p && m <= k && (m == p || m == k)
  {
    if p < k then p else k
  }

  lemma {:induction false} IdealNonNegative(p: nat, d: nat -> real, o: nat)
    requires IsDiscount(d)
    ensures 0.0 <= Ideal(p, d, o)
    ensures p > 0 ==> d(o) <= Ideal(p, d, o)
  {
    if p > 0 { IdealNonNegative(p - 1, d, o + 1); }
  }

  /** More ranks earn more; strictly more when they add any. */
  lemma {:induction false} IdealGrows(p: nat, q: nat, d: nat -> real, o: nat)
    requires IsDiscount(d) && p <= q
    ensures Ideal(p, d, o) <= Ideal(q, d, o)
    ensures p < q ==> Ideal(p, d, o) < Ideal(q, d, o)
  {
    if p == 0 {
      IdealNonNegative(q, d, o);
    } else {
      IdealGrows(p - 1, q - 1, d, o + 1);
    }
  }

  /** The same number of ranks earns less further down. */
  lemma {:induction false} IdealShift(p: nat, d: nat -> real, o: nat)
    requires IsDiscount(d)
    ensures Ideal(p, d, o + 1) <= Ideal(p, d, o)
    ensures p > 0 && StrictlyDecreasing(d) ==> Ideal(p, d, o + 1) < Ideal(p, d, o)
  {
    if p > 0 { IdealShift(p - 1, d, o + 1); }
  }

  /** `c` hits earn at most what `c` hits at the top ranks earn. */
  lemma {:induction false} DcgBound(hits: seq<bool>, d: nat -> real, o: nat)
    requires IsDiscount(d)
    ensures 0.0 <= Dcg(hits, d, o) <= Ideal(Count(hits, true), d, o)
  {
    if |hits| > 0 {
      var c := Count(hits, true);
      DcgBound(hits[1..], d, o + 1);
      if !hits[0] {
        IdealShift(c, d, o);
      }
    }
  }

  /** With a strictly decreasing discount, hits that do not fill the top ranks
      earn strictly less than the ideal. */
  lemma {:induction false} DcgStrict(hits: seq<bool>, d: nat -> real, o: nat, j: nat)
    requires IsDiscount(d) && StrictlyDecreasing(d)
    requires j < Count(hits, true) && j < |hits| && !hits[j]
    ensures Dcg(hits, d, o) < Ideal(Count(hits, true), d, o)
  {
    var c := Count(hits, true);
    if hits[0] {
      DcgStrict(hits[1..], d, o + 1, j - 1);
    } else {
      DcgBound(hits[1..], d, o + 1);
      IdealShift(c, d, o);
    }
  }

  /** Hits on all of the first `m` ranks and nowhere else earn the ideal. */
  lemma {:induction false} DcgOfTopHits(hits: seq<bool>, d: nat -> real, o: nat, m: nat)
    requires m <= |hits| && Count(hits, true) <= m
    requires forall j :: 0 <= j < m ==> hits[j]
    ensures Dcg(hits, d, o) == Ideal(m, d, o)
  {
    if m == 0 {
      DcgNoHits(hits, d, o);
    } else {
      DcgOfTopHits(hits[1..], d, o + 1, m - 1);
    }
  }

  /** One user's NDCG: `DCG(is_hit) / IDCGs[num_pos.clamp(0, topk)]`. */
  function UserNdcg(hits: seq<bool>, truth: seq<bool>, k: nat, d: nat -> real): (r: real)
    requires IsDiscount(d)
    ensures 0.0 <= r && (r == 0.0 <==> Count(hits, true) == 0)
  {
    var m := Clamp(NumPos(truth), k);
    var idcg := IdcgEntry(m, k, d);
    assert idcg > 0.0 by {
      if m > 0 { IdealNonNegative(m, d, 0); }
    }
    PositiveRatio(Dcg(hits, d, 0), idcg);
    Dcg(hits, d, 0) / idcg
  }

  lemma RatioBounds(a: real, b: real)
    requires 0.0 <= a <= b && 0.0 < b
    ensures 0.0 <= a / b <= 1.0
    ensures a / b == 1.0 <==> a == b
  {
    assert a / b * b == a;
  }

  /** A user with ranks to fill gets the DCG over the sum of the first
      min(P, K) discounts, which is positive. */
  lemma UserNdcgIsRatio(hits: seq<bool>, truth: seq<bool>, k: nat, d: nat -> real)
    requires IsDiscount(d) && Clamp(NumPos(truth), k) > 0
    ensures var m := Clamp(NumPos(truth), k);
      0.0 < Ideal(m, d, 0) && UserNdcg(hits, truth, k, d) == Dcg(hits, d, 0) / Ideal(m, d, 0)
  {
    var m := Clamp(NumPos(truth), k);
    IdealNonNegative(m, d, 0);
  }

  /** One user's NDCG lies in [0, 1], is 0 without positives, and is 1 when the
      first min(P, K) ranks are all hits. */
  lemma UserNdcgBounds(hits: seq<bool>, truth: seq<bool>, k: nat, d: nat -> real)
    requires IsDiscount(d) && |hits| == k && Count(hits, true) <= NumPos(truth)
    ensures 0.0 <= UserNdcg(hits, truth, k, d) <= 1.0
    ensures Clamp(NumPos(truth), k) == 0 ==> UserNdcg(hits, truth, k, d) == 0.0
    ensures NumPos(truth) == 0 ==> UserNdcg(hits, truth, k, d) == 0.0
    ensures var m := Clamp(NumPos(truth), k);
      m > 0 && (forall j :: 0 <= j < m ==> hits[j]) ==> UserNdcg(hits, truth, k, d) == 1.0
  {
    var m := Clamp(NumPos(truth), k);
    var c := Count(hits, true);
    DcgBound(hits, d, 0);
    if m == 0 {
      DcgNoHits(hits, d, 0);
      assert UserNdcg(hits, truth, k, d) == 0.0 / 1.0;
    } else {
      UserNdcgIsRatio(hits, truth, k, d);
      IdealGrows(c, m, d, 0);
      RatioBounds(Dcg(hits, d, 0), Ideal(m, d, 0));
      if forall j :: 0 <= j < m ==> hits[j] {
        DcgOfTopHits(hits, d, 0, m);
      }
    }
  }

  /** With a strictly decreasing discount (as `1/log2(rank+1)` is), a user's
      NDCG is 1 exactly when every one of the first min(P, K) ranks is a hit. */
  lemma UserNdcgIsOneIff(hits: seq<bool>, truth: seq<bool>, k: nat, d: nat -> real)
    requires IsDiscount(d) && StrictlyDecreasing(d)
    requires |hits| == k && Count(hits, true) <= NumPos(truth)
    ensures var m := Clamp(NumPos(truth), k);
      UserNdcg(hits, truth, k, d) == 1.0 <==> m > 0 && forall j :: 0 <= j < m ==> hits[j]
  {
    var m := Clamp(NumPos(truth), k);
    var c := Count(hits, true);
    UserNdcgBounds(hits, truth, k, d);
    if UserNdcg(hits, truth, k, d) == 1.0 && m > 0 {
      DcgBound(hits, d, 0);
      UserNdcgIsRatio(hits, truth, k, d);
      RatioBounds(Dcg(hits, d, 0), Ideal(m, d, 0));
      IdealGrows(c, m, d, 0);
      if j :| 0 <= j < m && !hits[j] {
        DcgStrict(hits, d, 0, j);
      }
    }
  }

  function NdcgSum(truth: seq<seq<bool>>, hits: seq<seq<bool>>, k: nat, d: nat -> real): (s: real)
    requires |hits| == |truth| && IsDiscount(d)
    ensures 0.0 <= s && (s == 0.0 <==> forall r :: 0 <= r < |hits| ==> Count(hits[r], true) == 0)
  {
    if |truth| == 0 then 0.0
    else UserNdcg(hits[0], truth[0], k, d) + NdcgSum(truth[1..], hits[1..], k, d)
  }

  /** `(num_pos == 0).sum()` after the clamp to [0, topk]. */
  function ClampedZeroRows(truth: seq<seq<bool>>, k: nat): (z: nat)
    ensures z <= |truth|
    ensures k == 0 ==> z == |truth|
  {
    if |truth| == 0 then 0
    else B2I(Clamp(NumPos(truth[0]), k) == 0) + ClampedZeroRows(truth[1..], k)
  }

  lemma {:induction false} ClampedZeroRowsArePosless(truth: seq<seq<bool>>, k: nat)
    requires k >= 1
    ensures ClampedZeroRows(truth, k) == ZeroPosRows(truth)
  {
    if |truth| > 0 { ClampedZeroRowsArePosless(truth[1..], k); }
  }

  /** The result `get_ndcg` returns: summed NDCG and the count of users whose
      clamped positive count is non-zero. */
  function NdcgTally(truth: seq<seq<bool>>, hits: seq<seq<bool>>, k: nat, d: nat -> real): (t: Tally)
    requires |hits| == |truth| && IsDiscount(d) && k >= 1
    ensures t.den == PosRows(truth)
  {
    ClampedZeroRowsArePosless(truth, k);
    ZeroAndPosRows(truth);
    Tally(NdcgSum(truth, hits, k, d), |truth| - ClampedZeroRows(truth, k))
  }

  /** The summed NDCG never exceeds the number of users it is divided by. */
  lemma {:induction false} NdcgTallyBounds(truth: seq<seq<bool>>, hits: seq<seq<bool>>, k: nat, d: nat -> real)
    requires HitsWithinPositives(truth, hits) && IsDiscount(d) && k >= 1
    requires forall r :: 0 <= r < |hits| ==> |hits[r]| == k
    ensures 0.0 <= NdcgTally(truth, hits, k, d).num <= NdcgTally(truth, hits, k, d).den as real
  {
    if |truth| > 0 {
      UserNdcgBounds(hits[0], truth[0], k, d);
      NdcgTallyBounds(truth[1..], hits[1..], k, d);
    }
  }

  /** Inserting a user without positives anywhere in a batch changes neither
      the NDCG sum nor the count. */
  lemma {:induction false} NdcgIgnoresZeroPosUser(
    truth: seq<seq<bool>>, hits: seq<seq<bool>>, k: nat, d: nat -> real, i: nat, z: seq<bool>, h: seq<bool>)
    requires |hits| == |truth| && i <= |truth| && IsDiscount(d) && k >= 1
    requires NumPos(z) == 0 && Count(h, true) == 0
    ensures NdcgTally(truth[..i] + [z] + truth[i..], hits[..i] + [h] + hits[i..], k, d)
         == NdcgTally(truth, hits, k, d)
  {
    var truth', hits' := truth[..i] + [z] + truth[i..], hits[..i] + [h] + hits[i..];
    if i == 0 {
      assert truth'[1..] == truth && hits'[1..] == hits;
      DcgNoHits(h, d, 0);
    } else {
      assert truth'[1..] == truth[1..][..i - 1] + [z] + truth[1..][i - 1..];
      assert hits'[1..] == hits[1..][..i - 1] + [h] + hits[1..][i - 1..];
      NdcgIgnoresZeroPosUser(truth[1..], hits[1..], k, d, i - 1, z, h);
    }
    ZeroAndPosRows(truth');
    ZeroAndPosRows(truth);
  }

  /** The `IDCGs` table of `get_ndcg`, filled by its loop: entry 0 is 1 and
      entry `i` the sum of the first `i` discounts. */
  method BuildIdcgTable(k: nat, d: nat -> real) returns (t: seq<real>)
    ensures |t| == k + 1 && t[0] == 1.0
    ensures forall i :: 1 <= i <= k ==> t[i] == Ideal(i, d, 0)
  {
    var a := new real[k + 1];
    a[0] := 1.0;
    for i := 1 to k + 1
      invariant a[0] == 1.0
      invariant forall j :: 1 <= j < i ==> a[j] == Ideal(j, d, 0)
    {
      a[i] := Idcg(i, k, d);
    }
    t := a[..];
  }

  /** The summed NDCG read off a precomputed table: `dcg / IDCGs[num_pos]`.
      The zero test only keeps the function total; it has no counterpart in
      the source, and it is never taken on the table `BuildIdcgTable` builds,
      whose entries are all positive (see `NdcgSumFromTable`). */
  function NdcgSumFrom(table: seq<real>, truth: seq<seq<bool>>, hits: seq<seq<bool>>, k: nat, d: nat -> real): (s: real)
    requires |hits| == |truth| && |table| == k + 1 && table[0] != 0.0
    ensures IsDiscount(d) && (forall i :: 0 <= i < |table| ==> table[i] > 0.0) ==> 0.0 <= s
  {
    if |truth| == 0 then 0.0
    else
      var m := Clamp(NumPos(truth[0]), k);
      assert IsDiscount(d) && table[m] > 0.0 ==> 0.0 <= Dcg(hits[0], d, 0) / table[m] by {
        if IsDiscount(d) && table[m] > 0.0 { PositiveRatio(Dcg(hits[0], d, 0), table[m]); }
      }
      (if table[m] == 0.0 then 0.0 else Dcg(hits[0], d, 0) / table[m])
      + NdcgSumFrom(table, truth[1..], hits[1..], k, d)
  }

  lemma {:induction false} NdcgSumFromTable(table: seq<real>, truth: seq<seq<bool>>, hits: seq<seq<bool>>, k: nat, d: nat -> real)
    requires |hits| == |truth| && IsDiscount(d)
    requires |table| == k + 1 && table[0] == 1.0
    requires forall i :: 1 <= i <= k ==> table[i] == Ideal(i, d, 0)
    ensures NdcgSumFrom(table, truth, hits, k, d) == NdcgSum(truth, hits, k, d)
  {
    if |truth| > 0 {
      var m := Clamp(NumPos(truth[0]), k);
      if m > 0 {
        IdealNonNegative(m, d, 0);
      }
      NdcgSumFromTable(table, truth[1..], hits[1..], k, d);
    }
  }

  /** `get_ndcg`: builds the IDCG table, then divides each user's DCG by the
      entry for the user's clamped positive count. */
  method GetNdcg(truth: seq<seq<bool>>, hits: seq<seq<bool>>, k: nat, d: nat -> real) returns (t: Tally)
    requires |hits| == |truth| && IsDiscount(d) && k >= 1
    ensures t == NdcgTally(truth, hits, k, d)
  {
    var table := BuildIdcgTable(k, d);
    NdcgSumFromTable(table, truth, hits, k, d);
    t := Tally(NdcgSumFrom(table, truth, hits, k, d), |truth| - ClampedZeroRows(truth, k));
  }
}
