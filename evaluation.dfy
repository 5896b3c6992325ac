/** One evaluation pass (`test`): every batch is masked, its metrics are
    added into the running table, its top-100 answer is kept for export, and
    at the end the table is divided and the per-batch pieces concatenated. */
module Evaluation {
  import opened Basics
  import opened Ranking
  import opened Metrics
  import opened Aggregation

  /** One batch of the dataloader, `(users, ground_truth_u_b, train_mask_u_b)`,
      with the score matrix the model returned for it. */
  datatype Batch = Batch(users: seq<int>, truth: seq<seq<bool>>, mask: seq<seq<bool>>, scores: seq<seq<real>>)

  /** One row per user in every part, `n` candidate columns in every row. */
  predicate WellFormed(b: Batch, n: nat)
  {
    && |b.users| == |b.truth| == |b.mask| == |b.scores|
    && (forall r :: 0 <= r < |b.truth| ==> |b.truth[r]| == n)
    && (forall r :: 0 <= r < |b.mask| ==> |b.mask[r]| == n)
    && (forall r :: 0 <= r < |b.scores| ==> |b.scores[r]| == n)
  }

  predicate AllWellFormed(bs: seq<Batch>, n: nat)
  {
    forall i :: 0 <= i < |bs| ==> WellFormed(bs[i], n)
  }

  /** The fixed length of the exported prediction lists. */
  const ExportK: nat := 100

  /** `pred_b` after the mask is subtracted. */
  function Pred(b: Batch, n: nat): (p: seq<seq<real>>)
    requires WellFormed(b, n)
    ensures BatchShape(b.truth, p, n)
  {
    Masked(b.scores, b.mask)
  }

  /** The `tmp` table a batch adds into the running totals. */
  function Contribution(b: Batch, n: nat, topks: seq<nat>, d: nat -> real): Table
    requires WellFormed(b, n) && ValidTopks(topks) && IsDiscount(d)
    requires forall i :: 0 <= i < |topks| ==> topks[i] <= n
  {
    BatchTallies(b.truth, Pred(b, n), n, topks, d)
  }

  /** `Contribution` as a function of the batch alone. */
  function ContributionOf(n: nat, topks: seq<nat>, d: nat -> real): Batch --> Table
    requires ValidTopks(topks) && IsDiscount(d)
    requires forall i :: 0 <= i < |topks| ==> topks[i] <= n
  {
    b requires WellFormed(b, n) => Contribution(b, n, topks, d)
  }

  /** The tables of the batches, in batch order. */
  function Contributions(bs: seq<Batch>, n: nat, topks: seq<nat>, d: nat -> real): (cs: seq<Table>)
    requires AllWellFormed(bs, n) && ValidTopks(topks) && IsDiscount(d)
    requires forall i :: 0 <= i < |topks| ==> topks[i] <= n
    ensures |cs| == |bs|
  {
    MapSeq(ContributionOf(n, topks, d), bs)
  }

  /** `torch.topk(preb_cpu, 100)` of a batch: indices and values. */
  function ExportCols(b: Batch, n: nat): (c: seq<seq<nat>>)
    requires WellFormed(b, n) && ExportK <= n
    ensures |c| == |b.users| && forall r :: 0 <= r < |c| ==> c[r] == TopKCols(Pred(b, n)[r], ExportK)
  {
    TopKRows(Pred(b, n), n, ExportK).value
  }

  /** Every exported row is a valid top-100 answer on the masked scores. */
  lemma ExportColsTopK(b: Batch, n: nat, r: nat)
    requires WellFormed(b, n) && ExportK <= n && r < |b.users|
    ensures IsTopK(Pred(b, n)[r], ExportK, ExportCols(b, n)[r])
  {
    TopKColsIsTopK(Pred(b, n)[r], ExportK);
  }

  function ExportScores(b: Batch, n: nat): (s: seq<seq<real>>)
    requires WellFormed(b, n) && ExportK <= n
    ensures |s| == |b.users|
    ensures forall r :: 0 <= r < |s| ==> |s[r]| == ExportK
    ensures forall r, j :: 0 <= r < |s| && 0 <= j < ExportK ==> s[r][j] == Pred(b, n)[r][ExportCols(b, n)[r][j]]
  {
    var p, c := Pred(b, n), ExportCols(b, n);
    seq(|p|, r requires 0 <= r < |p| => TopKScores(p[r], c[r]))
  }

  function UsersOf(): Batch -> seq<int>
  {
    (b: Batch) => b.users
  }

  function ColsOf(n: nat): Batch --> seq<seq<nat>>
    requires ExportK <= n
  {
    b requires WellFormed(b, n) => ExportCols(b, n)
  }

  function ScoresOf(n: nat): Batch --> seq<seq<real>>
    requires ExportK <= n
  {
    b requires WellFormed(b, n) => ExportScores(b, n)
  }

  /** The per-batch pieces of the three export lists, in batch order. */
  function UserPieces(bs: seq<Batch>): (u: seq<seq<int>>)
    ensures |u| == |bs|
  {
    MapSeq(UsersOf(), bs)
  }

  function ColPieces(bs: seq<Batch>, n: nat): (c: seq<seq<seq<nat>>>)
    requires AllWellFormed(bs, n) && ExportK <= n
    ensures |c| == |bs|
  {
    MapSeq(ColsOf(n), bs)
  }

  function ScorePieces(bs: seq<Batch>, n: nat): (s: seq<seq<seq<real>>>)
    requires AllWellFormed(bs, n) && ExportK <= n
    ensures |s| == |bs|
  {
    MapSeq(ScoresOf(n), bs)
  }

  /** What `test` returns: the final metrics and the three export lists. */
  datatype PassOutput = PassOutput(
    metrics: map<(Metric, nat), real>, users: seq<int>, bundles: seq<seq<nat>>, scores: seq<seq<real>>)

  predicate RanksFit(n: nat, topks: seq<nat>)
  {
    ExportK <= n && forall i :: 0 <= i < |topks| ==> topks[i] <= n
  }

  /** The outcome of one pass over `bs`: a top-k raises on the first batch when
      a K or the export length exceeds the columns; with no batch at all the
      concatenation raises; a zero count raises at the division. */
  function PassResult(bs: seq<Batch>, n: nat, topks: seq<nat>, d: nat -> real): (r: Result<PassOutput>)
    requires AllWellFormed(bs, n) && ValidTopks(topks) && IsDiscount(d)
    ensures r.Ok? ==> |bs| > 0 && RanksFit(n, topks)
    ensures r.Ok? ==> |r.value.bundles| == |r.value.users| && |r.value.scores| == |r.value.users|
  {
    if |bs| > 0 && !RanksFit(n, topks) then Err(TopKOutOfRange)
    else if |bs| == 0 then Err(EmptyConcat)
    else
      ColLengths(bs, n);
      ScoreLengths(bs, n);
      SameStart(UserPieces(bs), ColPieces(bs, n), 0);
      SameStart(UserPieces(bs), ScorePieces(bs, n), 0);
      Assemble(Averages(Totals(ZeroTable(topks), Contributions(bs, n, topks, d))),
        UserPieces(bs), ColPieces(bs, n), ScorePieces(bs, n))
  }

  /** The return value of `test` once the batches are done: the division's
      error, or the metrics beside the concatenated lists. */
  function Assemble(metrics: Result<map<(Metric, nat), real>>, users: seq<seq<int>>,
                    bundles: seq<seq<seq<nat>>>, scores: seq<seq<seq<real>>>): (r: Result<PassOutput>)
    ensures metrics.Err? ==> r == Err(metrics.error)
    ensures metrics.Ok? ==> r.Ok? && r.value.metrics == metrics.value
    ensures metrics.Ok? ==> r.value.users == Flatten(users) && r.value.bundles == Flatten(bundles) && r.value.scores == Flatten(scores)
  {
    match metrics
    case Err(e) => Err(e)
    case Ok(m) => Ok(PassOutput(m, Flatten(users), Flatten(bundles), Flatten(scores)))
  }

  /** Entry `i` of the list of batch tables is batch `i`'s table. */
  lemma ContributionAt(bs: seq<Batch>, i: nat, n: nat, topks: seq<nat>, d: nat -> real)
    requires AllWellFormed(bs, n) && ValidTopks(topks) && IsDiscount(d)
    requires i < |bs| && RanksFit(n, topks)
    ensures Contributions(bs, n, topks, d)[i] == Contribution(bs[i], n, topks, d)
  {
  }

  /** Entry `i` of each list of export pieces is batch `i`'s piece. */
  lemma PiecesAt(bs: seq<Batch>, i: nat, n: nat)
    requires AllWellFormed(bs, n) && i < |bs| && ExportK <= n
    ensures UserPieces(bs)[i] == bs[i].users
    ensures ColPieces(bs, n)[i] == ExportCols(bs[i], n)
    ensures ScorePieces(bs, n)[i] == ExportScores(bs[i], n)
  {
  }

  /** The body of the batch loop: mask, add the batch's tallies into `acc`,
      and take the top-100 columns and scores for export. */
  method ProcessBatch(acc: Accumulator, b: Batch, n: nat, topks: seq<nat>, d: nat -> real)
    returns (ok: bool, cols: seq<seq<nat>>, scores: seq<seq<real>>)
    requires WellFormed(b, n) && ValidTopks(topks) && IsDiscount(d)
    requires acc.totals.Keys == ZeroTable(topks).Keys
    modifies acc
    ensures ok <==> RanksFit(n, topks)
    ensures acc.totals.Keys == old(acc.totals.Keys)
    ensures ok ==> acc.totals == Merge(old(acc.totals), Contribution(b, n, topks, d))
    ensures ok ==> cols == ExportCols(b, n) && scores == ExportScores(b, n)
  {
    cols, scores := [], [];
    var pred := Masked(b.scores, b.mask);
    ok := acc.AddBatch(b.truth, pred, n, topks, d);
    if !ok {
      return;
    }
    var top := TopKRows(pred, n, ExportK);
    if top.Err? {
      ok := false;
      return;
    }
    cols := top.value;
    scores := seq(|pred|, r requires 0 <= r < |pred| => TopKScores(pred[r], cols[r]));
  }

  /** What the batch loop has gathered so far: the running table and the
      three lists of per-batch pieces. */
  datatype Progress = Progress(
    totals: Table, users: seq<seq<int>>, bundles: seq<seq<seq<nat>>>, scores: seq<seq<seq<real>>>)

  /** The state of the batch loop after the first `i` batches: the fold of
      their tables and the pieces of those batches. */
  function LoopState(bs: seq<Batch>, i: nat, n: nat, topks: seq<nat>, d: nat -> real): Progress
    requires AllWellFormed(bs, n) && ValidTopks(topks) && IsDiscount(d)
    requires i <= |bs| && (i > 0 ==> RanksFit(n, topks))
  {
    if i == 0 then Progress(ZeroTable(topks), [], [], [])
    else Progress(Totals(ZeroTable(topks), Contributions(bs, n, topks, d)[..i]),
      UserPieces(bs)[..i], ColPieces(bs, n)[..i], ScorePieces(bs, n)[..i])
  }

  /** One iteration of the batch loop adds the batch's table into the running
      table and appends its pieces to the three lists. */
  lemma LoopStep(bs: seq<Batch>, i: nat, n: nat, topks: seq<nat>, d: nat -> real)
    requires AllWellFormed(bs, n) && ValidTopks(topks) && IsDiscount(d) && RanksFit(n, topks)
    requires i < |bs|
    ensures var p := LoopState(bs, i, n, topks, d);
      LoopState(bs, i + 1, n, topks, d) == Progress(Merge(p.totals, Contribution(bs[i], n, topks, d)),
        p.users + [bs[i].users], p.bundles + [ExportCols(bs[i], n)], p.scores + [ExportScores(bs[i], n)])
  {
    TotalsPrefixSnoc(bs, i, n, topks, d);
    PiecesPrefixSnoc(bs, i, n);
    if i == 0 {
      assert Contributions(bs, n, topks, d)[..0] == [];
      assert UserPieces(bs)[..0] == [] && ColPieces(bs, n)[..0] == [] && ScorePieces(bs, n)[..0] == [];
    }
  }

  lemma TotalsPrefixSnoc(bs: seq<Batch>, i: nat, n: nat, topks: seq<nat>, d: nat -> real)
    requires AllWellFormed(bs, n) && ValidTopks(topks) && IsDiscount(d) && RanksFit(n, topks)
    requires i < |bs|
    ensures var cs := Contributions(bs, n, topks, d);
      Totals(ZeroTable(topks), cs[..i + 1]) == Merge(Totals(ZeroTable(topks), cs[..i]), Contribution(bs[i], n, topks, d))
  {
    var cs := Contributions(bs, n, topks, d);
    ContributionAt(bs, i, n, topks, d);
    PrefixSnoc(cs, i);
    TotalsSnoc(ZeroTable(topks), cs[..i], cs[i]);
  }

  lemma PiecesPrefixSnoc(bs: seq<Batch>, i: nat, n: nat)
    requires AllWellFormed(bs, n) && i < |bs| && ExportK <= n
    ensures UserPieces(bs)[..i + 1] == UserPieces(bs)[..i] + [bs[i].users]
    ensures ColPieces(bs, n)[..i + 1] == ColPieces(bs, n)[..i] + [ExportCols(bs[i], n)]
    ensures ScorePieces(bs, n)[..i + 1] == ScorePieces(bs, n)[..i] + [ExportScores(bs[i], n)]
  {
    var us, cs, ss := UserPieces(bs), ColPieces(bs, n), ScorePieces(bs, n);
    PiecesAt(bs, i, n);
    PrefixSnoc(us, i);
    PrefixSnoc(cs, i);
    PrefixSnoc(ss, i);
  }

  /** A pass over a non-empty list of batches whose ranks fit returns what
      the loop gathered, divided and concatenated. */
  lemma PassFromLoop(bs: seq<Batch>, n: nat, topks: seq<nat>, d: nat -> real)
    requires AllWellFormed(bs, n) && ValidTopks(topks) && IsDiscount(d) && RanksFit(n, topks)
    requires |bs| > 0
    ensures var p := LoopState(bs, |bs|, n, topks, d);
      PassResult(bs, n, topks, d) == Assemble(Averages(p.totals), p.users, p.bundles, p.scores)
  {
    var cs, us, bb, ss := Contributions(bs, n, topks, d), UserPieces(bs), ColPieces(bs, n), ScorePieces(bs, n);
    assert cs[..|bs|] == cs && us[..|bs|] == us && bb[..|bs|] == bb && ss[..|bs|] == ss;
  }

  /** `test`: the batch loop, then the concatenations, then the division. */
  method Test(bs: seq<Batch>, n: nat, topks: seq<nat>, d: nat -> real) returns (r: Result<PassOutput>)
    requires AllWellFormed(bs, n) && ValidTopks(topks) && IsDiscount(d)
    ensures r == PassResult(bs, n, topks, d)
  {
    var acc := new Accumulator(topks);
    var userList: seq<seq<int>> := [];
    var bundleList: seq<seq<seq<nat>>> := [];
    var scoreList: seq<seq<seq<real>>> := [];
    for i := 0 to |bs|
      invariant i > 0 ==> RanksFit(n, topks)
      invariant acc.totals.Keys == ZeroTable(topks).Keys
      invariant Progress(acc.totals, userList, bundleList, scoreList) == LoopState(bs, i, n, topks, d)
    {
      var ok, cols, scores := ProcessBatch(acc, bs[i], n, topks, d);
      if !ok {
        return Err(TopKOutOfRange);
      }
      LoopStep(bs, i, n, topks, d);
      userList := userList + [bs[i].users];
      scoreList := scoreList + [scores];
      bundleList := bundleList + [cols];
    }
    if |bs| == 0 {
      return Err(EmptyConcat);
    }
    PassFromLoop(bs, n, topks, d);
    var metrics := acc.Finalize();
    r := Assemble(metrics, userList, bundleList, scoreList);
  }

  /** Users with at least one positive, over all batches. */
  function PositiveUsers(bs: seq<Batch>): nat
  {
    NatSum(seq(|bs|, j requires 0 <= j < |bs| => PosRows(bs[j].truth)))
  }

  /** Every entry a batch adds counts the batch's users with a positive, and
      adds a sum between 0 and that count. */
  lemma ContributionEntries(b: Batch, n: nat, topks: seq<nat>, d: nat -> real, e: (Metric, nat))
    requires WellFormed(b, n) && ValidTopks(topks) && IsDiscount(d) && RanksFit(n, topks)
    requires e in ZeroTable(topks)
    ensures e in Contribution(b, n, topks, d)
    ensures Contribution(b, n, topks, d)[e].den == PosRows(b.truth)
    ensures 0.0 <= Contribution(b, n, topks, d)[e].num <= PosRows(b.truth) as real
  {
    BatchTalliesEntries(b.truth, Pred(b, n), n, topks, d);
    var i :| 0 <= i < |topks| && topks[i] == e.1;
    EntryTallyBounds(b.truth, Pred(b, n), n, e, d);
  }

  /** A batch's table adds its users with a positive to every count. */
  lemma ContributionAdds(b: Batch, n: nat, topks: seq<nat>, d: nat -> real)
    requires WellFormed(b, n) && ValidTopks(topks) && IsDiscount(d) && RanksFit(n, topks)
    ensures Adds(Contribution(b, n, topks, d), ZeroTable(topks).Keys, PosRows(b.truth))
  {
    forall e | e in ZeroTable(topks).Keys
      ensures e in Contribution(b, n, topks, d)
      ensures Contribution(b, n, topks, d)[e].den == PosRows(b.truth)
      ensures 0.0 <= Contribution(b, n, topks, d)[e].num <= PosRows(b.truth) as real
    {
      ContributionEntries(b, n, topks, d, e);
    }
  }

  /** After a pass every accumulated count is the number of users with a
      positive, and every sum lies between 0 and that count. */
  lemma RunningTallies(bs: seq<Batch>, n: nat, topks: seq<nat>, d: nat -> real)
    requires AllWellFormed(bs, n) && ValidTopks(topks) && IsDiscount(d) && RanksFit(n, topks)
    ensures CountsAre(Totals(ZeroTable(topks), Contributions(bs, n, topks, d)), PositiveUsers(bs))
  {
    var z, cs := ZeroTable(topks), Contributions(bs, n, topks, d);
    var qs := seq(|bs|, j requires 0 <= j < |bs| => PosRows(bs[j].truth));
    forall j | 0 <= j < |cs| ensures Adds(cs[j], z.Keys, qs[j]) {
      ContributionAdds(bs[j], n, topks, d);
    }
    TotalsCounts(z, cs, 0, qs);
  }

  /** With the ranks in range and at least one batch, the pass fails exactly
      when some K is asked for and no user of any batch has a positive: the
      division by a zero count. */
  lemma PassFailsIffNoPositives(bs: seq<Batch>, n: nat, topks: seq<nat>, d: nat -> real)
    requires AllWellFormed(bs, n) && ValidTopks(topks) && IsDiscount(d)
    requires |bs| > 0 && RanksFit(n, topks)
    ensures PassResult(bs, n, topks, d).Err? <==> |topks| > 0 && PositiveUsers(bs) == 0
    ensures PassResult(bs, n, topks, d).Err? ==> PassResult(bs, n, topks, d).error == DivisionByZero
  {
    RunningTallies(bs, n, topks, d);
    var t := Totals(ZeroTable(topks), Contributions(bs, n, topks, d));
    assert PassResult(bs, n, topks, d) == Assemble(Averages(t), UserPieces(bs), ColPieces(bs, n), ScorePieces(bs, n));
    DivisionFailsIff(t, topks, PositiveUsers(bs));
  }

  /** A table with one entry per metric and K whose counts are all `p` divides
      without error exactly when there is no K or `p` is not zero. */
  lemma DivisionFailsIff(t: Table, topks: seq<nat>, p: nat)
    requires t.Keys == ZeroTable(topks).Keys && CountsAre(t, p)
    ensures Averages(t).Err? <==> |topks| > 0 && p == 0
  {
    if Averages(t).Err? {
      var e :| e in t && t[e].den == 0;
      assert e in ZeroTable(topks);
    } else if |topks| > 0 {
      var e := (Recall, topks[0]);
      assert e in ZeroTable(topks);
      assert t[e].den != 0;
    }
  }

  /** Every metric a successful pass reports lies in [0, 1], and there is one
      for each metric and each K. */
  lemma PassMetricsBounded(bs: seq<Batch>, n: nat, topks: seq<nat>, d: nat -> real)
    requires AllWellFormed(bs, n) && ValidTopks(topks) && IsDiscount(d)
    requires PassResult(bs, n, topks, d).Ok?
    ensures var m := PassResult(bs, n, topks, d).value.metrics;
      && (forall e :: e in m <==> e.1 in topks)
      && (forall e :: e in m ==> 0.0 <= m[e] <= 1.0)
  {
    RunningTallies(bs, n, topks, d);
    var t := Totals(ZeroTable(topks), Contributions(bs, n, topks, d));
    assert PassResult(bs, n, topks, d) == Assemble(Averages(t), UserPieces(bs), ColPieces(bs, n), ScorePieces(bs, n));
    AveragesBounded(t);
  }

  /** A successful pass returns the per-batch pieces concatenated in batch order. */
  lemma PassOutputPieces(bs: seq<Batch>, n: nat, topks: seq<nat>, d: nat -> real)
    requires AllWellFormed(bs, n) && ValidTopks(topks) && IsDiscount(d)
    requires PassResult(bs, n, topks, d).Ok?
    ensures RanksFit(n, topks) && |bs| > 0
    ensures PassResult(bs, n, topks, d).value.users == Flatten(UserPieces(bs))
    ensures PassResult(bs, n, topks, d).value.bundles == Flatten(ColPieces(bs, n))
    ensures PassResult(bs, n, topks, d).value.scores == Flatten(ScorePieces(bs, n))
  {
  }

  /** Row `r` of batch `b` sits at the same offset of the concatenated user
      and column lists, and holds that user and their top-100 columns. */
  lemma ExportColsAligned(bs: seq<Batch>, n: nat, b: nat, r: nat)
    requires AllWellFormed(bs, n) && ExportK <= n
    requires b < |bs| && r < |bs[b].users|
    ensures var us, cs := Flatten(UserPieces(bs)), Flatten(ColPieces(bs, n));
      var i := Start(UserPieces(bs), b) + r;
      && |us| == |cs| && i < |us|
      && us[i] == bs[b].users[r]
      && cs[i] == ExportCols(bs[b], n)[r]
  {
    var us, cs := UserPieces(bs), ColPieces(bs, n);
    ColLengths(bs, n);
    assert us[b] == bs[b].users && cs[b] == ExportCols(bs[b], n);
    FlattenAligned(us, cs, b, r);
  }

  /** The same offset of the concatenated score list holds that user's top-100
      scores. */
  lemma ExportScoresAligned(bs: seq<Batch>, n: nat, b: nat, r: nat)
    requires AllWellFormed(bs, n) && ExportK <= n
    requires b < |bs| && r < |bs[b].users|
    ensures var us, ss := Flatten(UserPieces(bs)), Flatten(ScorePieces(bs, n));
      var i := Start(UserPieces(bs), b) + r;
      && |us| == |ss| && i < |us|
      && ss[i] == ExportScores(bs[b], n)[r]
  {
    var us, ss := UserPieces(bs), ScorePieces(bs, n);
    ScoreLengths(bs, n);
    assert ss[b] == ExportScores(bs[b], n);
    FlattenAligned(us, ss, b, r);
  }

  /** Each batch's column piece has one row per user. */
  lemma ColLengths(bs: seq<Batch>, n: nat)
    requires AllWellFormed(bs, n) && ExportK <= n
    ensures var us, cs := UserPieces(bs), ColPieces(bs, n);
      forall i :: 0 <= i < |bs| ==> |us[i]| == |cs[i]|
  {
    var us, cs := UserPieces(bs), ColPieces(bs, n);
    forall i | 0 <= i < |bs| ensures |us[i]| == |cs[i]| {
      assert us[i] == bs[i].users && cs[i] == ExportCols(bs[i], n);
    }
  }

  /** Each batch's score piece has one row per user. */
  lemma ScoreLengths(bs: seq<Batch>, n: nat)
    requires AllWellFormed(bs, n) && ExportK <= n
    ensures var us, ss := UserPieces(bs), ScorePieces(bs, n);
      forall i :: 0 <= i < |bs| ==> |us[i]| == |ss[i]|
  {
    var us, ss := UserPieces(bs), ScorePieces(bs, n);
    forall i | 0 <= i < |bs| ensures |us[i]| == |ss[i]| {
      assert us[i] == bs[i].users && ss[i] == ExportScores(bs[i], n);
    }
  }

  /** Batch lists that are permutations of each other contribute the same
      tables, up to order. */
  lemma ContributionsPermute(bs: seq<Batch>, cs: seq<Batch>, n: nat, topks: seq<nat>, d: nat -> real)
    requires AllWellFormed(bs, n) && AllWellFormed(cs, n) && ValidTopks(topks) && IsDiscount(d) && RanksFit(n, topks)
    requires multiset(bs) == multiset(cs)
    ensures multiset(Contributions(bs, n, topks, d)) == multiset(Contributions(cs, n, topks, d))
  {
    MapPermute(ContributionOf(n, topks, d), bs, cs);
  }

  /** The totals of a pass, and so its metrics, do not depend on the order in
      which the dataloader yields the batches. */
  lemma PassOrderIndependent(bs: seq<Batch>, cs: seq<Batch>, n: nat, topks: seq<nat>, d: nat -> real)
    requires AllWellFormed(bs, n) && AllWellFormed(cs, n) && ValidTopks(topks) && IsDiscount(d) && RanksFit(n, topks)
    requires multiset(bs) == multiset(cs)
    ensures Totals(ZeroTable(topks), Contributions(bs, n, topks, d)) == Totals(ZeroTable(topks), Contributions(cs, n, topks, d))
    ensures PassResult(bs, n, topks, d).Ok? <==> PassResult(cs, n, topks, d).Ok?
    ensures PassResult(bs, n, topks, d).Ok? ==> PassResult(bs, n, topks, d).value.metrics == PassResult(cs, n, topks, d).value.metrics
  {
    ContributionsPermute(bs, cs, n, topks, d);
    TotalsOrderIndependent(ZeroTable(topks), Contributions(bs, n, topks, d), Contributions(cs, n, topks, d));
    assert |bs| == |multiset(bs)| == |cs|;
  }
}
