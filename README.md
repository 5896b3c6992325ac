# Offline evaluation and model selection of the bundle recommender's trainer

This project models, in Dafny, the evaluation and model-selection logic of
`train.py`. It covers:

- **Mask-and-rank.** Items a user saw in training lose `1e8` of their score.
  The K best columns of every row are chosen, and the ground truth is read at
  them (`Ranking`).
- **Recall@K and NDCG@K of a batch.** Each is a `[sum, count]` pair. The count
  leaves out users without a positive (`Metrics`).
- **The running `metric -> K -> [sum, count]` table.** `get_metrics` adds into
  it in place, and `test` divides it once at the end (`Aggregation`).
- **One evaluation pass (`test`).** The batch loop and the top-100 export
  lists of user ids, columns and scores, concatenated in batch order
  (`Evaluation`).
- **Model selection.** `init_best_metrics` and the update part of
  `log_metrics`. The best snapshot is replaced only when validation recall and
  validation NDCG at `topk_valid` both strictly improve (`Selection`).
- **The edge-dropout schedule of the training loop** (`Schedule`).
- **The run name joined from the settings with `"_"`** (`Naming`).

`Basics` holds shared sequence helpers: counting, gathering, concatenation,
and mapping a function over a list.

Scores and metrics are real numbers. The rank discount `1 / log2(rank + 1)` is
an abstract function `d`. Its positivity and monotonicity are assumed through
the predicate `IsDiscount`. Top-K breaks ties towards the lowest column index.

The state-changing parts are imperative:

- `Accumulator` is the `tmp_metrics` table. Its constructor, `AddBatch`,
  `AddInto` and `Finalize` are the loops of `test` and `get_metrics`.
- `Selector` holds `best_metrics`, `best_perform` and `best_epoch`. Its
  constructor is `init_best_metrics`, and `LogMetrics` is the update loop of
  `log_metrics`.
- `BuildIdcgTable` fills the `IDCGs` table in an array.
- `Test` and `ProcessBatch` are the batch loop.

Each method is proved against a functional specification (`BatchTallies`,
`Merge`, `Averages`, `NdcgTally`, `PassResult`, `Step`, `Init`). The
properties are proved about those specifications.

## Model

| member | source | states |
|---|---|---|
| Basics.Count | train.py:369-370 | a row sum of a 0/1 row is at most the row length, and zero exactly when no entry is set |
| Basics.Flatten | train.py:330-332 | `torch.cat` of per-batch pieces: its length is the total of the piece lengths |
| Ranking.MaskRow | train.py:306 | unseen items keep their score; seen items lose exactly the 1e8 offset |
| Ranking.Masked | train.py:306 | the masked matrix has the shape of the scores, and row r is row r of the scores masked by row r of the training mask |
| Ranking.MaskSeparates | train.py:305-306 | when every raw score lies within a bound below half the offset, every unseen item scores strictly above every seen item after masking |
| Ranking.MaskedItemsRankLast | train.py:351 | in a top-K answer on masked scores, a seen item appears only when fewer than K items are unseen; every unseen item of the answer comes before every seen one |
| Ranking.SeenRankedFewUnseen | train.py:351 | a seen item anywhere in a top-K answer on masked scores means the user has fewer than K unseen items |
| Ranking.TopKCols | train.py:351 | the indices `torch.topk` returns for one row: K columns, each within the row (their validity as a top-K answer is `TopKColsIsTopK`) |
| Ranking.ArgMaxOutside | train.py:351 | no column is found iff all are excluded; otherwise the found column is not excluded, scores at least as much as every other candidate, and strictly more than every lower-indexed candidate |
| Ranking.TopKColsIsTopK | train.py:351 | the chosen columns are K distinct in-range columns in non-increasing score order, none scoring below a column left out |
| Ranking.TopKExtends | train.py:351 | the best column outside a valid top-K answer exists when K is below the row length, and appending it gives a valid top-(K+1) answer |
| Ranking.TopKPrefix | train.py:351 | the answer for a smaller K is a prefix of the answer for a larger K |
| Ranking.TopKRows | train.py:351 | top-K of a batch raises exactly when K exceeds the number of columns; otherwise row r is the top-K answer of row r |
| Ranking.TopKScores | train.py:322 | the returned values are the row's scores at the returned columns, in order |
| Ranking.Hits | train.py:352-354 | hit row r is the ground truth of user r read at the columns ranked for user r |
| Ranking.HitCountBound | train.py:354 | a top-K answer holds at most K hits and at most as many hits as the user has positives |
| Metrics.NumPos | train.py:370 | a user's positive count is at most the number of items, and zero exactly when the user has no positive |
| Metrics.ZeroPosRows | train.py:373 | the number of users without a positive is at most the batch size, and zero exactly when every user has a positive |
| Metrics.ZeroAndPosRows | train.py:373 | users with no positive plus users with a positive make up the whole batch |
| Metrics.UserRecall | train.py:374 | one user's recall, hits over positives plus 1e-8, is non-negative, and zero exactly when no ranked item is a hit |
| Metrics.UserRecallBounds | train.py:374 | one user's recall lies in [0, 1) and is exactly 0 for a user without positives |
| Metrics.RecallSum | train.py:374 | the summed recall of a batch is non-negative, and zero exactly when no user has a hit |
| Metrics.GetRecall | train.py:367-376 | the recall count is the number of users with at least one positive |
| Metrics.RecallTallyBounds | train.py:367-376 | the summed recall of a batch lies between 0 and its count |
| Metrics.RecallIgnoresZeroPosUser | train.py:372-374 | inserting a user without positives anywhere in a batch changes neither the recall sum nor its count |
| Metrics.IdealHits | train.py:385-386 | the ideal hit vector has K entries, the first P of them hits |
| Metrics.Idcg | train.py:384-387 | the IDCG of P positives at cut-off K is the sum of the first min(P, K) discounts |
| Metrics.Dcg | train.py:380-382 | the DCG of a hit vector is non-negative, and zero exactly when it holds no hit |
| Metrics.DcgNoHits | train.py:380-382 | a hit vector without hits has DCG 0 |
| Metrics.DcgBound | train.py:380-382 | c hits earn a DCG between 0 and what c hits at the top ranks earn |
| Metrics.DcgStrict | train.py:380-382 | with a strictly decreasing discount, c hits that miss one of the first c ranks earn strictly less than the ideal |
| Metrics.DcgOfTopHits | train.py:380-382 | hits on exactly the first m ranks earn the ideal DCG of m |
| Metrics.IdealGrows | train.py:384-387 | the ideal DCG never decreases as the positive count grows, and strictly increases when it grows |
| Metrics.IdcgEntry | train.py:390-393 | entry m of the IDCG table is the sum of the first min(m, K) discounts for m > 0, and positive whenever m is 0 or K is positive, so no division is by 0 |
| Metrics.Clamp | train.py:395 | the clamped positive count is min(P, K) |
| Metrics.UserNdcg | train.py:395-399 | one user's NDCG is non-negative, and zero exactly when no ranked item is a hit |
| Metrics.UserNdcgIsRatio | train.py:395-399 | a user with positives gets DCG over the positive sum of the first min(P, K) discounts |
| Metrics.UserNdcgBounds | train.py:395-399 | one user's NDCG lies in [0, 1]; it is 0 without positives and 1 when the first min(P, K) ranks are all hits |
| Metrics.UserNdcgIsOneIff | train.py:395-399 | with a strictly decreasing discount, one user's NDCG is 1 exactly when there is a positive and every one of the first min(P, K) ranks is a hit |
| Metrics.ClampedZeroRows | train.py:395-401 | the users counted as positive-less after the clamp are at most the batch, and all of it when K is 0 |
| Metrics.NdcgSum | train.py:402 | the summed NDCG of a batch is non-negative, and zero exactly when no user has a hit |
| Metrics.ClampedZeroRowsArePosless | train.py:395-401 | for K at least 1, users whose clamped count is zero are exactly the users without positives |
| Metrics.NdcgTally | train.py:379-404 | the NDCG count is the number of users with at least one positive |
| Metrics.NdcgTallyBounds | train.py:379-404 | the summed NDCG of a batch lies between 0 and its count |
| Metrics.NdcgIgnoresZeroPosUser | train.py:395-402 | inserting a user without positives anywhere in a batch changes neither the NDCG sum nor its count |
| Metrics.BuildIdcgTable | train.py:390-393 | the table has K + 1 entries; entry 0 is 1 and entry i is the sum of the first i discounts |
| Metrics.NdcgSumFrom | train.py:396-399 | the NDCG sum read off a table with positive entries is non-negative |
| Metrics.NdcgSumFromTable | train.py:396-399 | dividing each user's DCG by the table entry at the clamped count gives the summed per-user NDCG |
| Metrics.GetNdcg | train.py:379-404 | the method's pair is the specified NDCG sum and count of the batch |
| Aggregation.ZeroTable | train.py:288-292 | the initial table has an entry for each metric at each configured K, and nothing else; every entry is [0, 0] |
| Aggregation.BatchHits | train.py:351-354 | each user's hit row at K has K entries |
| Aggregation.BatchHitsWithinPositives | train.py:351-354 | no user's hit row holds more hits than the user has positives |
| Aggregation.BatchTallies | train.py:349-357 | the `tmp` table has an entry for each metric at exactly the configured K values |
| Aggregation.BatchTalliesEntries | train.py:349-357 | the batch table has exactly one entry per metric and configured K, whatever the order or repetition of the K values; each entry is that metric's pair at that K |
| Aggregation.EntryTallyBounds | train.py:356-357 | every pair a batch contributes counts the batch's users with a positive and has a sum between 0 and that count |
| Aggregation.BatchTable | train.py:349-357 | the first loop of `get_metrics` succeeds exactly when every K fits the number of columns, and then builds the batch table |
| Aggregation.Merge | train.py:359-362 | adding a batch table into the running table keeps the running table's keys (entry values: `MergeAt`, `MergeElsewhere`) |
| Aggregation.MergeAt | train.py:359-362 | an entry present in both tables becomes the element-wise sum of the two pairs |
| Aggregation.MergeElsewhere | train.py:359-362 | an entry absent from the batch table keeps its value |
| Aggregation.MergeCommutes | train.py:359-362 | adding two batch tables in either order gives the same table |
| Aggregation.MergeCounts | train.py:359-362 | adding a batch whose entries all count q to a table whose counts are all p gives counts p + q, with sums staying between 0 and the count |
| Aggregation.TotalsCounts | train.py:302-310 | folding batches with counts q_1 … q_n into a table with counts p gives counts p + q_1 + … + q_n |
| Aggregation.Totals | train.py:302-310 | folding the batch tables into the zero table keeps its keys |
| Aggregation.TotalsSnoc | train.py:302-310 | folding one more batch at the end adds its table to the running totals |
| Aggregation.TotalsPullOut | train.py:302-310 | any single batch can be added first without changing the totals |
| Aggregation.TotalsOrderIndependent | train.py:302-310 | folding any permutation of the batch tables gives the same totals |
| Aggregation.Averages | train.py:339-343 | the division raises a division by zero exactly when some entry has a zero count; otherwise it keeps the keys and every entry becomes its sum over its count |
| Aggregation.AveragesBounded | train.py:339-343 | when every sum lies between 0 and its count, every final metric lies in [0, 1] |
| Aggregation.Accumulator.constructor | train.py:288-292 | the running table starts as the zero table |
| Aggregation.Accumulator.AddBatch | train.py:348-364 | `get_metrics` raises, leaving the table unchanged, exactly when some K exceeds the columns; otherwise it adds the batch table into the running table |
| Aggregation.Accumulator.AddInto | train.py:359-362 | the triple loop leaves the table equal to the merge of the old table and the batch table |
| Aggregation.Accumulator.Finalize | train.py:339-343 | the final division returns exactly the specified averages or the division-by-zero error |
| Evaluation.Pred | train.py:305-306 | `pred_b` after the mask keeps the shape of the batch: one row of n scores per user |
| Evaluation.ExportCols | train.py:322 | the top-100 indices of a batch: one row per user, each the top-100 columns of that user's masked scores |
| Evaluation.ExportScores | train.py:322 | the top-100 values of a batch: one row of 100 per user, entry j being the masked score at the j-th exported column |
| Evaluation.ExportColsTopK | train.py:322 | every exported row is a valid top-100 answer on the masked scores |
| Evaluation.PassResult | train.py:287-345 | a pass succeeds only with at least one batch and every rank fitting the columns, and then returns as many column rows and score rows as user ids |
| Evaluation.Assemble | train.py:330-345 | `test` returns the division's error, or the metrics beside the three concatenated lists |
| Evaluation.ProcessBatch | train.py:305-328 | one loop body fails exactly when a K or 100 exceeds the columns; otherwise it adds the batch table and returns the batch's top-100 columns and scores |
| Evaluation.LoopStep | train.py:302-328 | one more batch merges its table into the running table and appends its user ids, top-100 columns and top-100 scores |
| Evaluation.PassFromLoop | train.py:330-345 | after the last batch, what the loop gathered, divided and concatenated is the pass's specified result |
| Evaluation.Test | train.py:287-345 | the method returns exactly the specified outcome of a pass: the top-k error when a K or 100 exceeds the columns, the concatenation error for an empty loader, the division error, or the metrics with the three lists |
| Evaluation.ContributionEntries | train.py:348-364 | each entry a batch adds counts the batch's users with a positive and has a sum between 0 and that count |
| Evaluation.RunningTallies | train.py:288-343 | after a pass every count equals the number of users with a positive over all batches, and every sum lies between 0 and that count |
| Evaluation.DivisionFailsIff | train.py:343 | a table whose counts are all p divides without error exactly when there is no K or p is non-zero |
| Evaluation.PassFailsIffNoPositives | train.py:343 | a non-empty pass whose ranks fit raises exactly when some K is configured and no user has a positive, and the error is a division by zero |
| Evaluation.PassMetricsBounded | train.py:339-343 | a successful pass reports one metric per metric name and K, each in [0, 1] |
| Evaluation.PassOutputPieces | train.py:330-332 | a successful pass returns the per-batch user ids, columns and scores concatenated in batch order |
| Evaluation.ExportColsAligned | train.py:316-331 | user r of batch b and that user's top-100 columns sit at the same position of the concatenated lists, which have equal length |
| Evaluation.ExportScoresAligned | train.py:316-332 | the same position of the concatenated score list holds that user's top-100 scores |
| Evaluation.ContributionsPermute | train.py:302-310 | permuting the batches permutes their tables |
| Evaluation.PassOrderIndependent | train.py:302-343 | permuting the batches changes neither the totals nor whether the pass succeeds, nor its metrics |
| Selection.Keys | train.py:194-197 | the snapshot entries are every (split, metric, K) with K configured |
| Selection.Init | train.py:187-202 | the initial best has every configured entry at 0 and nothing else; there are no summary lines and the best epoch is 0 |
| Selection.Compare | train.py:240-241 | the decision is "improved" exactly when both validation entries at the selection K exist and both strictly improve; it raises `MissingKey` exactly when a recall entry is absent, or recall improved and an NDCG entry is absent |
| Selection.Step | train.py:238-264 | one call of `log_metrics` raises only a missing key; otherwise the state stays, or becomes the adopted candidate when the candidate dominates the best on both validation metrics |
| Selection.Adopt | train.py:254-264 | an improvement covers every configured entry and summary line and sets the best epoch to the candidate's epoch |
| Selection.AdoptOverwrites | train.py:256-264 | on an improvement every configured entry comes from the candidate and every other entry stays; each configured K gets a summary line per split naming the new epoch and values |
| Selection.StepIffDominates | train.py:240-259 | the best snapshot is replaced exactly when the candidate strictly beats it on both validation metrics; otherwise the whole state is unchanged |
| Selection.CompareReadsValidationAtK | train.py:238-241 | the test split and the other K values never change the decision |
| Selection.SelectionAtTwenty | train.py:240-241 | an improvement in recall alone keeps the best; an improvement in both replaces it |
| Selection.StepMonotone | train.py:240-259 | a step never lowers validation recall or NDCG at the selection K, and a step that changes the best raises both |
| Selection.Run | train.py:180-184 | a sequence of `log_metrics` calls raises only a missing key, and its final best epoch is the starting one or the epoch of one logged evaluation |
| Selection.RunUndominated | train.py:180-184 | after a sequence of `log_metrics` calls, no evaluation logged so far strictly beats the final best on both validation metrics |
| Selection.RunFromInitUndominated | train.py:145-184 | starting from `init_best_metrics` and then a sequence of `log_metrics` calls, no logged evaluation strictly beats the final best on both validation metrics |
| Selection.RunBestFromCandidate | train.py:254-259 | the final best is the starting state, or the configured entries and epoch of one logged evaluation |
| Selection.Selector.constructor | train.py:187-202 | the selector starts in the initial state |
| Selection.Selector.LogMetrics | train.py:238-264 | returns the decision; on an improvement the state becomes the adopted state; on no improvement or an error nothing changes |
| Schedule.Anchor | train.py:148-156 | the global batch anchor of batch i of an epoch decodes back to that epoch and that batch |
| Schedule.Trunc | train.py:143 | `int()` truncates toward zero |
| Schedule.IntervalBatches | train.py:143 | the interval in batches is the number of batches times the interval, truncated: for a non-negative interval the largest integer not above the product, and never positive for a negative one |
| Schedule.EdDrop | train.py:158-160 | the check raises exactly for "ED" with a zero interval |
| Schedule.ModZeroIffDivides | train.py:159 | a zero remainder means the interval divides the next anchor, for either sign of the interval |
| Schedule.EdDropIffMultiple | train.py:158-160 | with "ED" a batch drops edges exactly when the interval divides its next anchor; with any other mode it never does |
| Schedule.DropsBelowCount | train.py:156-160 | with a positive interval q, n / q of the first n batches drop edges |
| Schedule.OncePerEpoch | train.py:143-160 | with an interval of one epoch, only the last batch of every epoch drops edges |
| Schedule.TinyIntervalRaises | train.py:143-159 | an interval shorter than one batch truncates to zero, and every "ED" batch then raises at the modulo |
| Naming.Decimal | train.py:109 | an integer prints as an optional minus sign and digits, with no separator |
| Naming.DigitsRoundTrip | train.py:109 | the digits printed for a natural number denote that number |
| Naming.DecimalRoundTrip | train.py:109 | the numeral printed for an integer reads back as that integer |
| Naming.DecimalInjective | train.py:109-116 | two integers print the same only when they are equal |
| Naming.Head | train.py:99-105 | the settings before the fixed part: the optional info tag, the augmentation type at the position after it, and for "ED" its interval |
| Naming.Tail | train.py:109-120 | the fixed part of the settings has 11 entries, and every entry after the "Neg_" one is free of the separator when the texts are |
| Naming.Settings | train.py:99-120 | building the settings fails its assertion exactly for "OP" when some augmentation ratio is non-zero |
| Naming.Join | train.py:122 | a single part joins to itself; splitting undoes the join (`SplitJoin`) |
| Naming.SettingName | train.py:99-122 | building the run name fails its assertion exactly for "OP" when some augmentation ratio is non-zero |
| Naming.SplitJoin | train.py:122 | splitting a join of separator-free parts gives the parts back |
| Naming.NameIsJoinedFields | train.py:99-122 | the run name is the join of the setting fields, with "Neg_<n>" read as two fields |
| Naming.FieldsShape | train.py:99-120 | there are 13 fields plus one for an info tag and one for "ED"; the augmentation type sits after the optional info tag |
| Naming.NameSplitsIntoFields | train.py:99-122 | a run name built from separator-free texts splits back into its fields, so the augmentation type can be read back from it |

## Left out

- The evaluation schedule of the training loop (`epoch % test_interval`, which raises for an interval of 0) is not modelled. `Selection.Run` folds `log_metrics` over metrics already computed. The errors of the `test` calls before it are those of `Evaluation.Test`.
- I/O and reporting are not modelled. This covers the checkpoint and prediction-list saving, the configuration dump, log files, summary writers, console output and progress bars. Only the state they report is modelled.
- The timestamps in the "Best in epoch" lines are left out. A summary line is a record of epoch, K, recall and NDCG rather than the formatted text.
- The neural model, the dataloaders, the optimiser and the training step are left out. The score matrix of a batch is an input of the model.
- Device placement, `del` and cache clearing are left out; they are resource management.
- Floating-point arithmetic is not modelled. Scores and metrics are exact reals, and so are the 1e8 offset and the 1e-8 epsilon.
- The base-2 logarithm is not modelled. The discount is an abstract positive, non-increasing function. The "NDCG is 1 iff" result also assumes it is strictly decreasing, as `1/log2(rank+1)` is.
- Tie-breaking in `torch.topk` is unspecified by the library. The model breaks ties towards the lowest column index. Each answer is also shown to satisfy the relational top-K property, which does not depend on tie-breaking.
- Ranking.TopKCols: its contract states only lengths and bounds. Its validity as a top-K answer is the separate lemma `Ranking.TopKColsIsTopK`.
- A K of zero is excluded by the `ValidTopks` precondition. In the source, `view(-1, 0)` on an empty tensor raises; that error path is not modelled.
- The in-place subtraction of the mask from `pred_b` is modelled as a value: the masked matrix is computed from the scores and the mask.
- A user whose positives are all retrieved scores recall P / (P + 1e-8). That is just below 1, not exactly 1, and the model follows the code.
- The hyperparameter grid loop and the float-to-text conversions (`str(lr)` and the like) are not modelled. Floating-point settings arrive as their text.
- Selection.Selector.LogMetrics: when a lookup at the selection K raises, the model leaves the state unchanged. In the source nothing has been written yet at that point either, but the report lines written before it are left out.
- `write_log` reads every configured K before selection. Its lookups are reporting and are not modelled.
- Schedule.DropsBelowCount: it counts dropping batches among consecutive global anchors for a positive interval only. A negative interval, which the source also accepts, is covered by `Schedule.EdDropIffMultiple` alone.
- The exported lists are modelled as sequences of rows. The tensor dtypes and the move to the CPU are left out.
