# Proofs about the betting pipeline

A market frame enters this system from a bookmaker's feed and leaves it as a line
in a profit ledger. On the way it is deduplicated, windowed, turned into features
and probabilities, gated, signed, filled at worse odds, graded and summed. Each of
those stations keeps state of its own, and each makes a promise about all the
frames it will ever see. This project restates the stations in Dafny and proves
the promises, or the exact condition under which they hold.

Code that changes state is written as classes and loops, each proved against a
step function; the promises over whole histories are lemmas about runs of those
step functions. Seconds, counters and cents are integers; odds, probabilities,
weights and clock readings are reals.

| file | models | main results |
|---|---|---|
| `Study.dfy`, `PossessionMean.dfy`, `Features.dfy` | the sliding-window study, what its mean possession is, and its feature rows | `StudyTotals`, `WindowIsFilter`, `WindowIsFrames`, `MeanOfMinutes`, `LiveBuckets`, `FeatureMeaning`, `BehindFlag` |
| `Replay.dfy`, `ReplayExact.dfy` | offline regrouping and replay against the live study | `ParityExact`, `RestartParity`, `ReplayParity`, `MidCycle`, `Unclosed`, `CutFixture`, `RepeatedFixtureDiverges` |
| `ReplayCore.dfy`, `ReplayShift.dfy` | what replay keeps on any clock, and on a clock off by whole minutes | `CoreParity`, `LaggingRows` |
| `Training.dfy` | final scores and training rows | `CollectRows`, `TrainingRowsAreLive`, `ClockFreeRows` |
| `Auc.dfy`, `LogisticFit.dfy`, `LogisticLoss.dfy` | the evaluation metric, the fit, and the loss its gradient belongs to | `Auc`, `FlipAuc`, `FitLogistic`, `EveryPassDescends`, `LossAbove`, `TangentExactly`, `StandstillIsBest`, `FitScaleFree`, `LossLags` |
| `Settle.dfy`, `PaperLedger.dfy` | grading and the paper order lifecycle | `PaperTradingSafe`, `ExactlyOnce`, `FullTimeDecides`, `SweepDecides`, `DeliveredInOrder`, `GradedMoney` |
| `AdminLedger.dfy`, `LedgerBridge.dfy`, `MixedLedger.dfy` | the two maintenance rewrites, on any stream, on the stream paper trading leaves, and in any order with it | `PruneTakes`, `RegradeTakes`, `RegradeHash`, `RewritesCommute`, `RewritesOnPaperLedger`, `TrimmedProfit`, `MixedAgreement` |
| `Helabet.dfy`, `HelabetTrace.dfy`, `Betpawa.dfy` | the feed pollers | `RunOk`, `SettlementUnique`, `SettledStaysQuiet`, `FullTimeOnlyOnSettlement`, `PublishedWasShown`, `TickTracks` |
| `FeedToLedger.dfy` | from the feeds to a graded order | `GradedOnOneScore`, `FeedGradesOnce`, `TwoFinalScores`, `BetpawaTwoFinalScores` |
| `PositionGate.dfy` | four interleaved workers and their gate | `GateSafe`, `FullTimeReleases`, `FirstComeFirstServed` |
| `PositionStore.dfy`, `RecentQueue.dfy`, `Drawdown.dfy` | bounded stores and one-pass algorithms | `LeavesOnlyIf`, `HooksShowMostRecent`, `MixedShowsFirst`, `MaxDrawdown` |
| `Filter.dfy`, `Envelope.dfy` | the trigger rule and the signed envelope | `Evaluate`, `PosteriorRises`, `FittedPosterior`, `ExecutedOrderPays`, `EnvelopeRoundTrip`, `OpensWhen` |

`Options.dfy`, `Text.dfy` and `Listing.dfy` hold what the others share.
`dafny verify dfyconfig.toml` checks everything.

## Where the code and its own words differ

The model follows the code.

- README.md:91-93 promises that replaying with each frame's own receive time makes
  offline folding match the live windows exactly. On a live clock that never runs
  backwards, where the fixtures of one match id do not interleave and live sheds no
  frame, that holds if and only if three things do (`ReplayExact.ParityExact`):
  - on every ingested frame the live worker's clock is the frame's replay clock
    (feature_study.py:157 reads the wall clock when live);
  - the fixture's first ingested counters that offline holds are not below the
    largest that live had seen of the match id by then, because the counter guard
    survives full time (feature_study.py:163-180, 247); the mock vendor replays
    fixtures under one id (mock-vendor/server.js:108), and
    `Replay.RepeatedFixtureDiverges` is such a history;
  - at the fixture's first ingested frame that offline holds, and at the first one
    after every full-time clock, no frame that only one of the two windows holds
    lies in the window before it at an earlier instant. Live drops its window at a
    full-time clock and replay does not (`ReplayExact.MidCycleDiverges`); an earlier
    fixture that never showed full time is still in the live window
    (`ReplayExact.UnclosedDiverges`); and offline loads the newest 2000 frames only
    (calibrate.py:115-131), so a fixture it holds in part replays without what live
    still had in its window (`ReplayExact.CutDiverges`).

  After a restart, which empties the live study but not the stream, the same
  conditions hold with the sides exchanged (`ReplayExact.RestartParity`). Score, odds
  and counters of the snapshots agree under a weaker condition, for every history,
  whatever was shed, cut off or restarted and whatever the clocks: at each frame both
  sides have, the largest counters that live saw of the match id are the largest that
  offline holds of the fixture (`ReplayCore.CoreParity`).
- The two maintenance handlers rebuild the PnL hash "from remaining valid entries"
  (server.go:389-407), while the hash counts every settlement and the stream is
  capped near 1000 (interfaces.go:349-352). The rebuilt hash is right if and only
  if nothing was trimmed and nothing is past the read limit
  (`LedgerBridge.RewritesOnPaperLedger`); otherwise a prune that deletes nothing
  erases the profit of the trimmed entries (`LedgerBridge.TrimmedProfit`). Through
  any later mix of trading and of rewrites that could read the whole stream, hash and
  stream agree if and only if nothing was trimmed since the last rewrite
  (`MixedLedger.MixedAgreement`). Before
  calling a handler, compare the length of the stream with won + lost + voids.
- Paper order ids are read from the clock (interfaces.go:88). Orders are conserved
  if and only if no accepted order gets the id of a pending one
  (`PaperLedger.PaperTradingSafe`, `PaperLedger.ReusedIdLosesOrder`).
- Helabet's `ParseClock` turns any status containing "FT" into FULLTIME, while
  `IsFullTime` wants equality (types.go:79, 101). `Helabet.ClockDisagreement` says
  exactly when they part. The paper broker grades on the published clock, so on
  the status "5 left" it grades a bet won that the final score makes lost
  (`FeedToLedger.TwoFinalScores`). Every match is graded on one score if and only if
  its published full-time frames agree (`FeedToLedger.GradedOnOneScore`). Within one
  Helabet poller process they do if and only if each misread frame already shows the
  score of the full-time frames after it (`FeedToLedger.FeedGradesOnce`); a restart
  forgets which matches were settled. The betPawa poller settles a match that leaves
  the feed late, and again when it comes back, so two scores occur without any
  misreading (`FeedToLedger.BetpawaTwoFinalScores`).
- calibrate.py:75-76 returns a "final loss" with the coefficients. It is the loss
  of the weights one pass earlier, or two passes earlier when the loss settled
  (`LogisticFit.LossLags`).
- filter_engine.py:193 explains the away flag as "home leads"; it is also set on a
  level score with goals. `Features.BehindFlag` gives the exact condition.
- interfaces.go:193-194 speaks of 100 minutes; the sweep waits for 180.
- server.go:436-438 says that draw-side bets refund on a draw; settle.go:88-92
  grades them won.
- helabet/poller.go:182 speaks of minute 85; the test is 5390 seconds.

## Model

| member | source | states |
|---|---|---|
| Study.StudyTotals | analytics-engine-py/src/feature_study.py:163-205 | over every run, whatever the timestamps, pruning, bucketing and full-time resets, each snapshot's counters are the running maximum, floored at zero, of all raw counters its match ever ingested |
| Study.GuardIsPeak | analytics-engine-py/src/feature_study.py:160-180 | the counter guard of a match is that running maximum, through every full-time reset |
| Study.WindowTotals | analytics-engine-py/src/feature_study.py:203-205 | the totals over the buckets are the largest counters in the window, so bucketing loses none |
| Study.PossessionBetween | analytics-engine-py/src/feature_study.py:206-208 | mean possession lies between the window's smallest and largest |
| PossessionMean.MeanOfMinutes | analytics-engine-py/src/feature_study.py:206-290 | the mean possession of a window is the plain mean of the last possession seen in each clock minute, whatever the order of the entries |
| Study.BucketCount | analytics-engine-py/src/feature_study.py:271-290 | w seconds on a non-negative clock fold into at most w/60 + 2 buckets, 14 at 750 s |
| Study.LiveBuckets | analytics-engine-py/src/feature_study.py:194-198 | that bound holds at every point of a run on a rising clock |
| Study.WindowIsFilter | analytics-engine-py/src/feature_study.py:194-196 | on a rising clock the incrementally pruned window is the plain filter to the last w seconds of everything since the last full-time reset |
| Study.WindowIsFrames | analytics-engine-py/src/feature_study.py:158-193 | without pruning a match's window holds, one entry each and in order, the clock, score, possession and receive time of every frame it ingested since its last full-time frame |
| Study.IngestsWhen | analytics-engine-py/src/feature_study.py:74-155 | a frame is ingested exactly when it names its match, carries a market, and its trimmed clock is none of four words in any case |
| Study.FullTimeWords | analytics-engine-py/src/feature_study.py:238-243 | full time is one of two words, trimmed and in any case |
| Text.TrimMeans | analytics-engine-py/src/feature_study.py:130 | trimming takes the white space off both ends and nothing else |
| Study.SnapshotIsCurrent | analytics-engine-py/src/feature_study.py:209-236 | whatever was pruned, a snapshot shows the frame's own league, score and clock, exactly the three-way quotes of its own market at their prices, and its window reaches back at most w seconds |
| Study.Aggregate | analytics-engine-py/src/feature_study.py:271-290 | the loop computes the bucket fold that the lemmas above describe, in timestamp order |
| Study.RaiseGuard | analytics-engine-py/src/feature_study.py:169-180 | the six branches leave reading and guard equal to their componentwise maximum |
| Study.FoldMarkets | analytics-engine-py/src/feature_study.py:198-236 | one snapshot for each market, all folded from the same window, each with exactly the home, draw and away quotes of its own market |
| Study.FeatureStudy.Ingest | analytics-engine-py/src/feature_study.py:158-196 | guard, append and prune change exactly the frame's match and return its window |
| Study.FeatureStudy.Raise | analytics-engine-py/src/feature_study.py:163-180 | only this match's guard moves, to the maximum of guard and reading |
| Study.FeatureStudy.Slide | analytics-engine-py/src/feature_study.py:182-196 | only this match's window moves: the entry is appended, the old ones go |
| Study.FeatureStudy.ObserveMany | analytics-engine-py/src/feature_study.py:140-236 | state and snapshots are those of the study step; unnamed, clockless, boundary and marketless frames change nothing |
| Study.FeatureStudy.CollectSettled | analytics-engine-py/src/feature_study.py:238-268 | full time drops the match's window only, keeps its guard, and yields one entry a market |
| Study.FeatureStudy.constructor | analytics-engine-py/src/feature_study.py:102-105 | a fresh study has no windows and no guards |
| Features.BehindFlag | analytics-engine-py/src/filter_engine.py:187-195 | the home flag is exact; the away flag is exact if and only if the match is not level with goals |
| Features.FeatureMeaning | analytics-engine-py/src/feature_study.py:301-338 | the home row holds danger above the league's expectation over the studied minutes, their ratio, and the gaps of possession and accuracy; the minutes are the window seen, at least half and at most the study window |
| Features.AwayMirrorsHome | analytics-engine-py/src/filter_engine.py:180-208 | home and away rows see opposite gaps, the same intensity, and never both trail |
| Replay.GroupCycles | analytics-engine-py/scripts/calibrate.py:134-153 | the cycles are the per-key subsequences in order of first appearance |
| Replay.KeysDistinct | analytics-engine-py/scripts/calibrate.py:148-153 | no cycle is listed twice and every frame has one |
| Replay.CyclesPartition | analytics-engine-py/scripts/calibrate.py:134-153 | grouping neither loses nor duplicates a frame |
| Replay.ReplayParity | analytics-engine-py/scripts/calibrate.py:204-239 | one spell, from an empty live window to at most its full time, on any clock even one that runs backwards: replay is exact if and only if the clocks agree and the counters start fresh |
| ReplayExact.ParityExact | analytics-engine-py/scripts/calibrate.py:204-239 | on a clock that never runs backwards, with full times anywhere, earlier fixtures closed or not, and the oldest frames cut off or not, replay is exact to the last field if and only if clocks agree, counters start fresh, and no frame only one window holds precedes a start or resumption within the window |
| ReplayExact.CutParity | analytics-engine-py/scripts/calibrate.py:115-131 | a fixture of which offline holds the later part only replays exactly under the same conditions, taken from what live had seen |
| ReplayExact.RestartParity | analytics-engine-py/src/main.py:99-131 | after a restart of live, replay is exact on what live has seen since under the same conditions with the sides exchanged |
| ReplayExact.FirstFixtureParity | analytics-engine-py/scripts/calibrate.py:204-239 | where live saw no earlier frame of the match id, only the clocks and misplaced full times matter |
| ReplayExact.PaddedPossession | analytics-engine-py/src/feature_study.py:271-290 | entries of the window's first instant never show in its mean possession, so windows that differ only there look alike |
| ReplayExact.MidCycle | analytics-engine-py/src/feature_study.py:246-247 | after a full-time clock inside a fixture, replay differs whenever the next frame comes later but within the window |
| ReplayExact.MidCycleDiverges | README.md:91-93 | a concrete such history, clocks agreeing and counters rising |
| ReplayExact.Unclosed | analytics-engine-py/src/feature_study.py:158-196 | a fixture never closed leaks into the next one under its match id whenever that starts later but within the window |
| ReplayExact.UnclosedDiverges | README.md:91-93 | a concrete such history, clocks agreeing and counters rising |
| ReplayExact.CutFixture | analytics-engine-py/scripts/calibrate.py:115-131 | a fixture whose first frame offline no longer holds differs whenever the second came later but within the window |
| ReplayExact.RestartFixture | analytics-engine-py/src/main.py:99-131 | so does a fixture whose first frame came before live was restarted |
| ReplayExact.CutDiverges | analytics-engine-py/scripts/calibrate.py:115-131 | two concrete frames that replay exactly together, but not the second alone after a cut or a restart |
| ReplayCore.FrameParity | analytics-engine-py/scripts/calibrate.py:226-230 | frame by frame, on any clock and whatever live saw and offline holds before it, score, odds and counters replay exactly when the largest counters live saw of the match id are the largest offline holds of the fixture |
| ReplayCore.CoreParity | analytics-engine-py/scripts/calibrate.py:204-239 | the same over the frames both sides have, for every history: fixtures interleaved, full times misplaced, frames shed or cut off, live restarted |
| ReplayCore.CutCores | analytics-engine-py/scripts/calibrate.py:115-131 | on a history whose oldest frames offline no longer holds, the replay of the rest agrees with live on score, odds and counters under that condition |
| ReplayCore.OneFixtureOwn | analytics-engine-py/scripts/calibrate.py:204-239 | a match id with one fixture, complete on both sides, always meets that condition |
| Replay.RepeatedFixtureDiverges | README.md:91-93 | a concrete second fixture under the same id, clocks agreeing, whose replay differs from live |
| Training.FinalScore | analytics-engine-py/scripts/calibrate.py:164-183 | both loops together find the final score characterised below |
| Training.FinalScoreMeaning | analytics-engine-py/scripts/calibrate.py:164-183 | the last full-time frame decides, else the earliest frame of the greatest minute from 88 on; there is none exactly when a cycle has neither |
| Training.RowPairs | analytics-engine-py/scripts/calibrate.py:230-237 | each snapshot adds its home row and then its away row |
| Training.ReplayRows | analytics-engine-py/scripts/calibrate.py:226-237 | driving a fresh study object through a cycle yields the rows of the replay outputs |
| Training.CollectRows | analytics-engine-py/scripts/calibrate.py:204-239 | rows, cycle sizes and report describe exactly the used cycles |
| Training.PartsAre | analytics-engine-py/scripts/calibrate.py:216-239 | a cycle yields rows exactly when it has a final score and more than one frame |
| Training.FramesCounted | analytics-engine-py/scripts/calibrate.py:216-227 | the frames reported as used and those of skipped cycles are together all frames of the history |
| Training.SplitAtCycle | analytics-engine-py/scripts/calibrate.py:654-658 | training gets exactly the rows of the first k cycles and validation those of the rest, where k is four fifths rounded down, and at least one; validation gets some exactly from two cycles on |
| Training.TrainingRowsAreLive | analytics-engine-py/scripts/calibrate.py:204-213 | under the three conditions of ParityExact, cut history or not, the rows of the live snapshots are one part of the training rows of the history held |
| Training.ClockFreeRows | analytics-engine-py/scripts/calibrate.py:226-237 | whatever the clocks, cuts, restarts and shed frames, replayed and live rows of a common frame agree on shot accuracy gap, trailing flag, label and implied probability where the counters are the fixture's own |
| ReplayShift.LaggingRows | analytics-engine-py/scripts/calibrate.py:204-239 | where replay is exact without the lag, a live clock off by whole minutes leaves every training row unchanged |
| ReplayShift.AggregatedLater | analytics-engine-py/src/feature_study.py:271-290 | the bucket fold of a window moved by whole minutes is the fold, moved |
| Training.LabelsMatchGrading | analytics-engine-py/scripts/calibrate.py:235-247 | a label is one exactly when the executor would grade a bet on that side won; implied probability times odds is one, and an unquoted side counts as one half |
| Training.LabelBalance | analytics-engine-py/scripts/calibrate.py:232-247 | a draw labels both legs lost, any other score exactly the leading side won |
| Auc.Auc | analytics-engine-py/scripts/calibrate.py:295-317 | the sort-and-average-rank algorithm returns (pairs with positive above negative + half the ties) / (n_pos n_neg), and one half without both classes |
| Auc.AverageRanks | analytics-engine-py/scripts/calibrate.py:305-314 | for any sorted order, ties in any sequence, every row gets its average rank |
| Auc.SortedOrder | analytics-engine-py/scripts/calibrate.py:304 | a permutation of the rows in ascending score |
| Auc.AssignGroup | analytics-engine-py/scripts/calibrate.py:312-313 | a tie group gets one rank and no other row changes |
| Auc.GroupRank | analytics-engine-py/scripts/calibrate.py:306-314 | the middle position of a tie group is one half plus the comparisons its rows win, ties counting half |
| Auc.RankSumIsMannWhitney | analytics-engine-py/scripts/calibrate.py:315-317 | rank sum minus n_pos (n_pos + 1) / 2 is the quadratic pair count |
| Auc.PairsBothWays | analytics-engine-py/scripts/calibrate.py:295-317 | each pair counts once, one way, the other, or half each |
| Auc.AucBounds | analytics-engine-py/scripts/calibrate.py:295-317 | the AUC lies between zero and one |
| Auc.FlipAuc | analytics-engine-py/scripts/calibrate.py:295-317 | swapping the labels gives one minus the AUC |
| Auc.OrderOnly | analytics-engine-py/scripts/calibrate.py:295-317 | only the order of the scores matters |
| LogisticFit.FitLogistic | analytics-engine-py/scripts/calibrate.py:63-112 | on every row the returned coefficients score what the weights trained on the standardised rows score on it standardised; LossLags says after how many passes, EveryPassDescends what each pass does |
| LogisticFit.BackMapPreserves | analytics-engine-py/scripts/calibrate.py:111-112 | on every row the returned weights score what the trained weights score on the standardised row, flat columns included |
| LogisticFit.StandardisedSumsToZero | analytics-engine-py/scripts/calibrate.py:80-85 | every standardised training column sums to zero, and no deviation is zero |
| LogisticFit.UnitVariance | analytics-engine-py/scripts/calibrate.py:78-85 | and the squares of a standardised column add up to the number of rows |
| LogisticFit.FlatColumnKeepsScale | analytics-engine-py/scripts/calibrate.py:82-85 | a column whose variance is at most 1e-12 is only centred |
| LogisticFit.ScaledInvariant | analytics-engine-py/scripts/calibrate.py:80-85 | a row in other units standardises to the same row |
| LogisticFit.FitScaleFree | analytics-engine-py/scripts/calibrate.py:73-76 | the whole fit is scale-free: other units give the same loss and the same score on every row, trained on or not |
| LogisticFit.LossLags | analytics-engine-py/scripts/calibrate.py:87-112 | training stops with the first pass whose loss is within the tolerance of the one before, or when the passes run out; the returned loss is that of the weights one pass earlier, or two when the loss settled |
| LogisticFit.StartLoss | analytics-engine-py/scripts/calibrate.py:87-106 | training starts from the loss of a coin toss |
| LogisticFit.EveryPassDescends | analytics-engine-py/scripts/calibrate.py:90-105 | every pass moves each weight against the gradient at the weights it starts from, so the step's inner product with the gradient is never positive, and is zero only where the gradient is zero and the weights stay |
| LogisticLoss.LossAbove | analytics-engine-py/scripts/calibrate.py:92-106 | the loss at any weights that clip no row is at least the loss at w plus the gradient times the step, per row: loss and gradient belong together |
| LogisticLoss.TangentExactly | analytics-engine-py/scripts/calibrate.py:90-99 | row by row that is exact: the loss at a score lies above its tangents at all scores if and only if its label's probability there is at least 1e-12 |
| LogisticLoss.StandstillIsBest | analytics-engine-py/scripts/calibrate.py:87-109 | weights that a pass leaves alone have the smallest loss among all that clip no row |
| LogisticFit.GradientIsErrorSum | analytics-engine-py/scripts/calibrate.py:92-98 | the gradient of each weight is the prediction error summed against that weight's feature |
| LogisticFit.AddRow | analytics-engine-py/scripts/calibrate.py:96-98 | one row adds its error times each feature, and nothing else |
| LogisticFit.AddRidge | analytics-engine-py/scripts/calibrate.py:100-103 | the ridge reaches every weight but the intercept |
| LogisticFit.Move | analytics-engine-py/scripts/calibrate.py:104-105 | every weight moves against its own gradient component, by the rate and per row |
| LogisticFit.Accumulate | analytics-engine-py/scripts/calibrate.py:90-99 | gradient and likelihood are the sums over all rows |
| LogisticFit.Epoch | analytics-engine-py/scripts/calibrate.py:90-106 | one pass moves the weights against the whole gradient, never up it, and reports the loss of the weights before the move |
| LogisticFit.Train | analytics-engine-py/scripts/calibrate.py:87-109 | the loop stops after the first pass whose loss settles, with the weights already moved and the previous loss kept |
| Settle.SettleOrders | execution-engine-go/internal/broker/settle.go:114-130 | each order is graded on its own, in order, and unverified grading leaves all unresolved |
| Settle.SettlementTotals | execution-engine-go/internal/broker/settle.go:136-149 | the loop is the fold of the graded orders, void and unresolved counted together |
| Settle.OneWinner | execution-engine-go/internal/broker/settle.go:74-96 | a verified score makes exactly one of home, draw, away win; other sides are void; unverified grading moves no money |
| Settle.GradedMoney | execution-engine-go/internal/broker/settle.go:74-130 | a winner is paid stake times odds less the stake, a loser pays the stake, each to the nearest cent; unknown sides and unverified scores move nothing |
| Settle.RoundNearest | execution-engine-go/internal/broker/settle.go:100-109 | rounding takes the nearest whole cent, ties away from zero, and is odd |
| Settle.TotalsCount | execution-engine-go/internal/broker/settle.go:136-149 | won + lost + void is the number of orders |
| Settle.NetNearExact | execution-engine-go/internal/broker/settle.go:98-149 | net is within half a cent an order of the unrounded sum |
| PaperLedger.PaperTradingSafe | execution-engine-go/internal/broker/interfaces.go:125-302 | over every run from an empty store PnL hash and session are the fold of the whole ledger, the stream lost entries only above its cap, and no result is fabricated; and every accepted order is pending or graded, counted exactly, if and only if no order gets the id of a pending one |
| PaperLedger.RunBalanced | execution-engine-go/internal/broker/interfaces.go:101-185 | from any balanced state, orders stay balanced over a run if and only if no id is reused while pending |
| PaperLedger.StepLost | execution-engine-go/internal/broker/interfaces.go:79-302 | a step of any kind loses an accepted order exactly when it overwrites a pending one |
| PaperLedger.ReusedIdLosesOrder | execution-engine-go/internal/broker/interfaces.go:87-111 | two accepted orders under one id, the first still pending: one is lost |
| PaperLedger.ExactlyOnce | execution-engine-go/internal/broker/interfaces.go:144-185 | with unique ids each accepted order is pending, or in the ledger exactly once, and never both |
| PaperLedger.SweptEntry | execution-engine-go/internal/broker/interfaces.go:268-291 | a swept order is graded exactly when FULLTIME was recorded for its match, and returned otherwise |
| PaperLedger.LedgerGrows | execution-engine-go/internal/broker/interfaces.go:332-373 | over every run the ledger only grows and the stream is its readable end, so no graded order is rewritten |
| PaperLedger.RepeatedFullTimePaysNothing | execution-engine-go/internal/broker/interfaces.go:144-185 | a second FULLTIME frame of a match changes neither orders, totals nor ledger |
| PaperLedger.FullTimeDecides | execution-engine-go/internal/broker/interfaces.go:147-163 | a full-time frame with a score grades a pending order on that score exactly when the order names the frame's match or none; every other message and order leaves it pending as it is |
| PaperLedger.SweepDecides | execution-engine-go/internal/broker/interfaces.go:221-285 | a sweep grades a pending order against the recorded match exactly when the match is recorded and its kickoff or its last frame lies more than 10800000 ms back; otherwise it stays pending as it is |
| PaperLedger.SweepAnyDay | execution-engine-go/internal/broker/interfaces.go:238-250 | matches played any number of seconds later are swept that much later, as long as the recorded times stay positive |
| PaperLedger.LastFrameRecorded | data-ingestion-go/internal/cache/redis.go:53-112 | the hash holds the last frame published for a match until it expires |
| PaperLedger.ExpiredForgotten | data-ingestion-go/internal/cache/redis.go:95-100 | an expired match is unrecorded until its next frame |
| PaperLedger.DeliveredInOrder | data-ingestion-go/internal/cache/redis.go:100-112 | over every run the channel holds the published frames in order, less those delivered or lost |
| PaperLedger.PaperBroker.PublishMatch | data-ingestion-go/internal/cache/redis.go:55-111 | the last frame of a match wins in its hash, and the frame goes to the end of the channel |
| PaperLedger.PaperBroker.ExecuteEnvelope | execution-engine-go/internal/broker/interfaces.go:79-111 | accepted exactly when the stake is positive; the order is pending at degraded odds with its match id, in place of any pending one with its id |
| PaperLedger.PaperBroker.PersistSession | execution-engine-go/internal/broker/interfaces.go:305-327 | session and hash grow by this batch's totals, never by the session |
| PaperLedger.PaperBroker.RecordSettlements | execution-engine-go/internal/broker/interfaces.go:338-373 | the batch goes to the end of the stream in order; trimming, if any, takes the oldest entries and leaves at least the cap |
| PaperLedger.PaperBroker.CollectMatched | execution-engine-go/internal/broker/interfaces.go:150-172 | exactly the orders of the match and those without a match, each once |
| PaperLedger.PaperBroker.OnMessage | execution-engine-go/internal/broker/interfaces.go:129-189 | one message is one deliver step, followed by what trimming it caused |
| PaperLedger.PaperBroker.GradeBatch | execution-engine-go/internal/broker/interfaces.go:176-185 | totals, ledger and pending orders change together for one batch |
| PaperLedger.PaperBroker.CollectStale | execution-engine-go/internal/broker/interfaces.go:218-251 | exactly the pending orders of a recorded match whose kickoff or last frame lies more than three hours back, each once |
| PaperLedger.PaperBroker.SweepStale | execution-engine-go/internal/broker/interfaces.go:217-302 | one tick is one sweep step, followed by what trimming it caused |
| PaperLedger.PaperBroker.GradeStale | execution-engine-go/internal/broker/interfaces.go:257-291 | a stale order is graded alone against the recorded match |
| PaperLedger.PaperBroker.constructor | execution-engine-go/internal/broker/interfaces.go:60-74 | a new broker starts an empty session over the existing hash |
| AdminLedger.PruneTotals | execution-engine-go/internal/api/server.go:373-419 | pruning keeps net, won and lost and lowers voids by exactly the number deleted |
| AdminLedger.PruneTakes | execution-engine-go/internal/api/server.go:366-387 | a prune takes exactly the entries among the first 5000 whose result is unresolved |
| AdminLedger.PruneKeeps | execution-engine-go/internal/api/server.go:373-387 | what it leaves stays in order, and is nothing new |
| AdminLedger.RegradeTotals | execution-engine-go/internal/api/server.go:461-530 | regrading k draws moves k entries from void to lost, keeps the length, and lowers net by their stakes |
| AdminLedger.RegradeTakes | execution-engine-go/internal/api/server.go:461-486 | a regrade takes exactly the void home and away bets on level scores among the first 5000 entries |
| AdminLedger.RegradeAppends | execution-engine-go/internal/api/server.go:487-503 | it appends one copy of each in order, lost at its stake, under fresh ids, and keeps the rest in order |
| AdminLedger.RegradeHash | execution-engine-go/internal/api/server.go:461-540 | the same of a hash that agreed before: the counts exactly, net to the cent when amounts are whole cents and within one cent otherwise |
| AdminLedger.Idempotent | execution-engine-go/internal/api/server.go:373-540 | each rewrite run again at once changes nothing |
| AdminLedger.RewritesCommute | execution-engine-go/internal/api/server.go:373-540 | the two rewrites commute on entries, in order up to stream ids, and on all totals |
| AdminLedger.RegradeIsGrading | execution-engine-go/internal/api/server.go:489-496 | a regraded draw is what grading the order against that score writes |
| AdminLedger.BelowCap | execution-engine-go/internal/api/server.go:497-502 | below the cap nothing is unread or trimmed, so the handlers compute exactly these rewrites |
| AdminLedger.Ledger.Collect | execution-engine-go/internal/api/server.go:366-379 | the ids collected are exactly those of the readable selected entries |
| AdminLedger.Ledger.Extract | execution-engine-go/internal/api/server.go:373-387 | deleting by id removes exactly the selected entries among the first 5000 |
| AdminLedger.Ledger.Recompute | execution-engine-go/internal/api/server.go:389-419 | the hash is rebuilt from the first 5000 surviving entries |
| AdminLedger.Ledger.Add | execution-engine-go/internal/api/server.go:497-502 | an entry goes to the end, and trimming, if any, takes the oldest and leaves at least the cap |
| AdminLedger.Ledger.PruneUnresolved | execution-engine-go/internal/api/server.go:350-434 | stream, count and hash after the handler, over-long streams included |
| AdminLedger.Ledger.ReaddAll | execution-engine-go/internal/api/server.go:487-503 | all regraded copies follow the kept entries under fresh ids |
| AdminLedger.Ledger.RegradeDraws | execution-engine-go/internal/api/server.go:439-555 | stream, count and hash after the handler, trimming included |
| LedgerBridge.RecountAgrees | execution-engine-go/internal/api/server.go:516-530 | counting every entry ever written the way the handlers count gives the broker's own totals |
| LedgerBridge.HonestEntry | execution-engine-go/internal/api/server.go:346-349 | every entry that grading writes is flat when void or unresolved, and none is a void draw |
| LedgerBridge.RewritesOnPaperLedger | execution-engine-go/internal/api/server.go:366-419 | in every state paper trading reaches from an empty hash, either handler rebuilds the right hash if and only if the stream holds as many entries as the hash counts and none is past the read limit |
| LedgerBridge.PruneOnPaperLedger | execution-engine-go/internal/api/server.go:373-419 | whatever the hash started from, the rebuilt one is the old one less the deleted voids if and only if that start and the totals of the trimmed and unread entries cancel; net is right if and only if theirs do |
| LedgerBridge.RegradeOnPaperLedger | execution-engine-go/internal/api/server.go:461-540 | regrading finds nothing to change in what paper trading wrote, and rebuilds the hash under the same condition |
| LedgerBridge.RightBelowCap | execution-engine-go/internal/api/server.go:366-419 | until more entries were written than the stream keeps, both handlers rebuild the right hash |
| LedgerBridge.HashCounts | execution-engine-go/internal/broker/interfaces.go:317-321 | the hash counts the entries ever written, so comparing it with the stream tells whether any was trimmed |
| LedgerBridge.TrimmedProfit | execution-engine-go/internal/api/server.go:389-419 | for every n past the cap a concrete run of n winning bets after which a prune that deletes nothing erases the trimmed wins |
| MixedLedger.MixedAgreement | execution-engine-go/internal/api/server.go:366-540 | through any mix of trading, trimming, pruning and regrading that could read everything, hash and stream agree if and only if nothing was trimmed since the last rewrite, and if and only if the stream holds as many entries as the hash counts |
| MixedLedger.RunGap | execution-engine-go/internal/api/server.go:366-540 | over every mixed run the gap between hash and stream is what was trimmed since the last rewrite less what that could not read |
| MixedLedger.PruneInRun | execution-engine-go/internal/api/server.go:373-419 | in any state of a mixed run a prune is right if and only if the gap and the entries past the read limit cancel out |
| MixedLedger.RegradeInRun | execution-engine-go/internal/api/server.go:461-540 | there a regrade finds nothing to change, and keeps the hash under the same condition |
| MixedLedger.PruneSettles | execution-engine-go/internal/api/server.go:373-419 | a prune that reads everything closes any gap, and repeated at once changes nothing |
| MixedLedger.StartOk | execution-engine-go/internal/broker/interfaces.go:60-74 | an empty store starts with hash and stream in agreement |
| Helabet.RunOk | data-ingestion-go/internal/helabet/poller.go:112-209 | over any feed snapshots, active and settled stay disjoint, every tracked id is in one of them, each tracked frame is the last published, and a settlement frame is FULLTIME and final for its id |
| Helabet.SettlementUnique | data-ingestion-go/internal/helabet/poller.go:147-157 | after a settlement frame nothing more is published for its id, so it is unique and last |
| Helabet.SettledStaysQuiet | data-ingestion-go/internal/helabet/poller.go:131-136 | a settled id is never published again, whatever the feed shows |
| Helabet.DropCarriesLastScore | data-ingestion-go/internal/helabet/poller.go:181-201 | a vanished match settles on the last published score exactly when the clock is late or kickoff is over 90 minutes ago |
| Helabet.ClockDisagreement | data-ingestion-go/internal/helabet/types.go:73-110 | a FULLTIME clock on an unfinished match occurs exactly on statuses that contain FT without being it, short of the words and the stopped clock that finish a match |
| Helabet.MisreadExample | data-ingestion-go/internal/helabet/types.go:79-101 | a quoted second-half fixture with the status "5 left" is published with a FULLTIME clock while it runs |
| Helabet.FullTimeOnlyOnSettlement | data-ingestion-go/internal/helabet/poller.go:112-202 | every published FULLTIME clock belongs to a settlement frame if and only if no published fixture was misread |
| Helabet.FtOdds | data-ingestion-go/internal/helabet/poller.go:322-353 | the loops compute the quote characterised below |
| Helabet.FtOddsMeaning | data-ingestion-go/internal/helabet/poller.go:320-353 | quoted exactly when, among the legs of the groups with id 1 up to the one that completes three, none is non-positive and all three kinds are there, each at its last leg's price |
| Helabet.MainLegsHave | data-ingestion-go/internal/helabet/poller.go:324-334 | a leg counts exactly when it stands in a group whose id is 1 |
| Helabet.ClockMinute | data-ingestion-go/internal/helabet/types.go:73-93 | a clock that is no word prints, readably, the number that leads the status or else the full minutes on the timer |
| HelabetTrace.PublishedWasShown | data-ingestion-go/internal/helabet/poller.go:112-320 | over every run each published frame carries the id, score, kickoff and quote of a football fixture that some snapshot showed |
| HelabetTrace.TickTracks | data-ingestion-go/internal/helabet/poller.go:112-202 | after a snapshot every tracked match is in it, every quoted fixture of it is tracked or settled, and a tracked match it does not name is settled |
| Text.ContainsMeans | data-ingestion-go/internal/helabet/types.go:79-110 | a status contains a word exactly when the word stands somewhere in it |
| Helabet.Poller.Visit | data-ingestion-go/internal/helabet/poller.go:123-162 | one fixture is one scan step |
| Helabet.Poller.Vanish | data-ingestion-go/internal/helabet/poller.go:181-201 | one vanished match is one drop step |
| Helabet.Poller.MarkSettled | data-ingestion-go/internal/helabet/poller.go:204-209 | the id moves from active to settled |
| Helabet.Poller.OnTick | data-ingestion-go/internal/helabet/poller.go:112-202 | a tick scans the feed in order and drops exactly the active ids it did not show; a failed fetch changes nothing |
| FeedToLedger.GradedWhileTracked | data-ingestion-go/internal/helabet/poller.go:143-161 | a fixture is published as a frame the broker grades on, while still tracked, exactly when its status is misread |
| FeedToLedger.TwoFinalScores | data-ingestion-go/internal/helabet/poller.go:143-161 | a concrete feed and a concrete broker run fed from it: two equal bets on one match, one graded won on 0-1, the other lost on 2-1 |
| FeedToLedger.GradedOnOneScore | execution-engine-go/internal/broker/interfaces.go:193-203 | every broker run fed with a poller's frames grades each match on one score if and only if the full-time frames of each match agree |
| FeedToLedger.FeedGradesOnce | data-ingestion-go/internal/helabet/poller.go:112-209 | fed by one run of the Helabet poller they agree if and only if each misread frame already shows the score of the full-time frames after it |
| FeedToLedger.BackAgainFrames | data-ingestion-go/internal/betpawa/poller.go:106-143 | a match that leaves the betPawa feed late and comes back finished is published as full time with both scores |
| FeedToLedger.BetpawaTwoFinalScores | data-ingestion-go/internal/betpawa/poller.go:130-143 | a concrete such feed, after which a broker can grade one match on two scores |
| FeedToLedger.CleanFeedGradesOnce | execution-engine-go/internal/broker/interfaces.go:193-203 | in particular they do over every feed of which no published fixture is misread |
| FeedToLedger.TwoGrades | execution-engine-go/internal/broker/interfaces.go:141-185 | any two full-time frames of one match can grade one bet each, each on its own score |
| FeedToLedger.EntryFrame | execution-engine-go/internal/broker/interfaces.go:141-176 | each graded entry carries match and score of a published full-time frame |
| Betpawa.RunOk | data-ingestion-go/internal/betpawa/poller.go:100-145 | over every run each tracking episode has at most one synthesized full-time frame, and one as soon as the feed showed full time |
| Betpawa.DropSynthesizes | data-ingestion-go/internal/betpawa/poller.go:130-143 | a vanished match gets its full-time frame, with the last score shown, exactly when it had none and is as good as over |
| Betpawa.ClocksAgree | data-ingestion-go/internal/betpawa/types.go:148-169 | clock and period test agree on full time |
| Betpawa.LateClock | data-ingestion-go/internal/betpawa/types.go:171-184 | a printed clock is late exactly at full time or from minute 85 |
| Betpawa.Poller.Visit | data-ingestion-go/internal/betpawa/poller.go:107-128 | one event is one visit step |
| Betpawa.Poller.Vanish | data-ingestion-go/internal/betpawa/poller.go:130-142 | one vanished match is one drop step |
| Betpawa.Poller.OnTick | data-ingestion-go/internal/betpawa/poller.go:100-145 | a tick visits the events in order and drops exactly the active ids they did not show |
| PositionGate.GateSafe | analytics-engine-py/src/main.py:150-185 | under every interleaving, orders emitted for a key never exceed its acquisitions, nor its executing verdicts, nor one plus the full-time frames of the match that arrived; releases never exceed those frames, and a release separates any two acquisitions |
| PositionGate.RunOk | analytics-engine-py/src/main.py:133-189 | the gate invariant holds for every key through every run, worker failures included |
| PositionGate.FullTimeReleases | analytics-engine-py/src/main.py:152-157 | a worker releases exactly on a frame that names its match and whose clock reads FULLTIME in any case; whatever others do meanwhile, that release leaves no position of the match and every other as it was |
| PositionGate.FirstComeFirstServed | analytics-engine-py/src/main.py:44-136 | workers take exactly the frames that found fewer than 4096 waiting, in order of arrival |
| PositionGate.EmitsWhenFree | analytics-engine-py/src/main.py:158-185 | a worker goes on to emit exactly when the verdict executes and the key was not acquired since its match was last released |
| PositionGate.Gate.TryAcquire | analytics-engine-py/src/position_gate.py:15-21 | succeeds exactly when the key is free, and then only that key changes |
| PositionGate.Gate.Release | analytics-engine-py/src/position_gate.py:23-27 | exactly the match's keys go |
| PositionStore.RunOk | execution-engine-go/internal/broker/client.go:131-144 | through any mix of records and forgets, queue ids are distinct, equal the map's keys, stand in arrival order and number at most 500 |
| PositionStore.LeavesOnlyIf | execution-engine-go/internal/broker/client.go:131-144 | an order leaves exactly by being forgotten, or by being the oldest of 500 when a new one arrives |
| PositionStore.FirstFillStays | execution-engine-go/internal/broker/client.go:134-136 | a stored order keeps its first fill |
| PositionStore.SessionIsFold | execution-engine-go/internal/broker/client.go:179-199 | the session is the fold over every order settled, however batched |
| PositionStore.Broker.RecordFill | execution-engine-go/internal/broker/client.go:131-144 | a known id changes nothing; a full store loses its oldest |
| PositionStore.Broker.RemoveFromQueue | execution-engine-go/internal/broker/client.go:208-213 | the first occurrence of the id is cut out |
| PositionStore.Broker.ForgetSettled | execution-engine-go/internal/broker/client.go:202-216 | settled ids leave map and queue |
| PositionStore.Broker.Grade | execution-engine-go/internal/broker/client.go:180-199 | the session grows by the settlement's totals |
| PositionStore.Broker.PersistSession | execution-engine-go/internal/broker/client.go:221-235 | the hash grows by this settlement's totals only |
| PositionStore.Broker.OnSettlement | execution-engine-go/internal/broker/client.go:161-172 | one settlement moves session and hash equally and forgets its orders, keeping the store consistent |
| RecentQueue.HooksShowMostRecent | web-interface-js/frontend/src/hooks/useSignalStream.js:55-61 | after any frames the queues are the first 60 signals and 40 matches of the queue that forgets nothing |
| RecentQueue.HistoryHas | web-interface-js/frontend/src/hooks/useSignalStream.js:54-61 | a payload reaches the queue exactly when its frame has the type and names an id |
| RecentQueue.CapLosesNothing | web-interface-js/frontend/src/hooks/useWebSockets.js:67-70 | for every cap, cutting at each step loses nothing that belongs in the first n |
| RecentQueue.FullIsRecent | web-interface-js/frontend/src/hooks/useSignalStream.js:56-61 | that queue holds the last frame of each id, most recent first |
| RecentQueue.FullIsComplete | web-interface-js/frontend/src/hooks/useSignalStream.js:56-61 | and misses no id |
| RecentQueue.SeedKeepsStream | web-interface-js/frontend/src/hooks/useSignalStream.js:25-33 | whatever the list, seeding keeps streamed entries in place and respects the cap, and it repeats an id exactly when the part it appends does |
| RecentQueue.MixedShowsFirst | web-interface-js/frontend/src/hooks/useSignalStream.js:25-61 | over any mix of frames and seeds without repeated ids, the queue is the first 60 entries of the one that forgets nothing, each id once |
| RecentQueue.StreamedFirst | web-interface-js/frontend/src/hooks/useSignalStream.js:25-61 | streamed entries come first, most recent first, and what was only seeded follows |
| RecentQueue.OthersClears | web-interface-js/frontend/src/hooks/useSignalStream.js:56-61 | a later frame of an id clears every copy of it, repeated or not |
| Drawdown.MaxDrawdown | web-interface-js/frontend/src/components/PnLTracker.jsx:15-27 | the one pass returns the largest fall of the equity from any point to any later one, the start included |
| Drawdown.EquityStep | web-interface-js/frontend/src/components/PnLTracker.jsx:19-21 | from oldest to newest each step of the equity is one entry's profit, or nothing when that is not a number |
| Drawdown.DrawdownBounds | web-interface-js/frontend/src/components/PnLTracker.jsx:15-27 | it is at least the total loss, and zero exactly when no trade lost |
| Filter.Evaluate | analytics-engine-py/src/filter_engine.py:135-162 | executes exactly when some admissible leg beats implied plus slack, and then on the leg of greatest edge |
| Filter.BestSide | analytics-engine-py/src/filter_engine.py:110-133 | the admissible leg of greatest edge, the first among equals, none exactly when none is admissible |
| Filter.PosteriorRises | analytics-engine-py/src/filter_engine.py:226-236 | of two home or away legs the one with the larger weighted sum gets the larger posterior, or both are at the cap |
| Filter.PosteriorAboveHalf | analytics-engine-py/src/filter_engine.py:234-236 | a leg is more likely than not exactly when its weighted sum is positive and the cap is above one half |
| Filter.DrawClosesMarket | analytics-engine-py/src/filter_engine.py:221-224 | the three legs add up to one exactly when what home and away leave over lies between nothing and the draw cap |
| Filter.FittedPosterior | analytics-engine-py/src/filter_engine.py:226-236 | with the coefficients of a fit in force the posterior is the fit's own sigmoid of the trained weights on the standardised row, at the live temperature and under the cap |
| Filter.AdmissibleQuote | analytics-engine-py/src/filter_engine.py:121-126 | a leg of a snapshot may be bet exactly when its own market quoted that side within the bounds, the draw only where draws are selected |
| Filter.ExecutedOrderPays | execution-engine-go/internal/broker/interfaces.go:79-94 | the order an executed verdict sends, filled on paper and graded on a home win, a draw and an away win, is worth in expectation more than 0.995 (1 + slack * floor) - 1 of its stake less half a cent, under every belief that gives the bet side the posterior |
| Filter.DefaultOrderPays | analytics-engine-py/src/filter_engine.py:149 | with floor 5.0 and slack 0.02 that is more than 0.0945 of the stake less half a cent |
| Envelope.EnvelopeRoundTrip | execution-engine-go/internal/broker/client.go:371-404 | every sealed payload opens under the same secret to the same bytes, and the dashboard recovers them too unless empty |
| Envelope.OtherSecret | execution-engine-go/internal/broker/client.go:392-404 | under another secret it opens exactly when the digests collide |
| Envelope.OpensWhen | execution-engine-go/internal/broker/client.go:371-404 | an arbitrary text opens exactly when the part before its first dot decodes to the body and, unless the secret is empty, the part after it decodes to the digest of that body |
| Envelope.DecodesWhen | execution-engine-go/internal/broker/client.go:376-399 | a text decodes exactly when, line breaks aside, it holds only base64url digits and none left over, and the bytes encode to it again but for spare bits of the last digit |
| Envelope.ShowsFirstPart | web-interface-js/frontend/src/components/CommandsLog.jsx:9-21 | the dashboard decodes what stands before the first dot, the whole text when there is none |
| Envelope.DigitsOfAlphabet | analytics-engine-py/src/filter_engine.py:86-92 | a digit is the letter of the base64url alphabet that its value numbers; the standard alphabet differs in the last two |
| Envelope.SameNumber | analytics-engine-py/src/filter_engine.py:86-92 | four sextets spell the same number as their three bytes, most significant first |
| Envelope.RawRoundTrip | analytics-engine-py/src/filter_engine.py:86-92 | raw decoding undoes unpadded encoding |
| Envelope.RepaddedRoundTrip | web-interface-js/frontend/src/components/CommandsLog.jsx:9-21 | so does translating, padding and standard decoding |
| Envelope.EncodeRawIsDigits | analytics-engine-py/src/filter_engine.py:262-270 | stripping the padding strips no digit |

## Left out

- Transport: Redis connections, HTTP, WebSocket, pub/sub reconnects, environment parsing and logging. Redis is maps, a queue and a sequence, and its writes succeed.
- Parsing: JSON, timestamps and numbers in strings; frames arrive decoded, with kickoff and receive time as numbers. Text is trimmed and upper-cased for ASCII only.
- Floating point: all arithmetic is exact over the reals, so rounding error, overflow and NaN are not modelled. Exponential, logarithm and square root are parameters; only what the code needs of them is assumed.
- HMAC-SHA256 is a parameter, and so is the order in which a Go map is ranged over: every order is allowed.
- Concurrency of grading: no lock spans read, grade and delete of a full-time pass or of a sweep, so exactly-once grading across the two loops is out of reach of the code. Each pass is one atomic step.
- Concurrency of the study: frames reach the live study in history order, and settling and observing one frame are one step, as a single event loop runs them.
- PaperLedger.PaperBroker.ExecuteEnvelope: envelope decoding and a failed write of the fill are not part of it; the signature is modelled separately.
- PaperLedger.PaperBroker.PublishMatch: market odds, statistics and the `winner` labels of the match hash are not read by settlement and not modelled.
- ReplayExact.ParityExact: two fixtures of one match id whose ingestible frames interleave, a live clock that runs backwards, and frames that live shed from its queue in the middle of a fixture (main.py:120-126) are outside its premise, because a window that misses an inner frame can by chance have the same mean possession; ReplayCore.CoreParity covers all of them for score, odds and counters, and Replay.ReplayParity covers any clock within one spell.
- Replay.ReplayParity: fixtures with frames after their full time, after one never closed, or cut off for offline are outside its premise; ReplayExact.ParityExact covers them.
- LogisticFit.FitScaleFree: a column whose variance falls under 1e-12 in one unit but not in the other is outside its premise, because the fallback to one depends on the unit.
- LogisticFit.FitLogistic: convergence to a minimum is not claimed; the code promises none. LogisticLoss.StandstillIsBest says what a standstill is worth.
- LogisticLoss.LossAbove: weights under which some row's label has a probability below 1e-12 are outside its premise, because there the code clips the loss but not the gradient; TangentExactly says that it fails there.
- LedgerBridge.RewritesOnPaperLedger: states in which a handler has run already, or the hash started from other totals, are outside it; MixedLedger.MixedAgreement and LedgerBridge.PruneOnPaperLedger cover them.
- Filter.Evaluate: the verdict carries unrounded probabilities; rounding to four digits, the reason texts and the unused minimum draw odds are left out.
- ReplayShift.LaggingRows: a lag that is constant but not of whole minutes moves bucket borders and is not claimed.
- RecentQueue.MixedShowsFirst: seed lists that repeat an id are outside its premise; SeedKeepsStream and OthersClears say what such a list does.
- FeedToLedger.FeedGradesOnce: one poller process; after a restart the frames of both are joined, and FeedToLedger.GradedOnOneScore speaks of those.
- Features.BehindFlag: time pressure is computed by the code but read by no row, so it is left out.
- Helabet.Poller.OnTick: one clock reading a tick; team names, leagues and statistics are not carried.
- Betpawa.Poller.OnTick: a tick whose fetch failed is no tick; receive times are not carried; the market and participant loops are a single "quoted" flag and a score.
- PositionGate.GateSafe: verdicts are unconstrained, so the result does not depend on what the study or the filter computes.
- Envelope.ShowsFirstPart: white space that the browser decoder skips is not modelled; the engine writes none.
- Metrics, log-loss, the adoption gate, baseline distributions, season trends, decay tables and diagnostics: formulas without state.
- The API-Football ingestor, the mock vendor's scenarios, the live bookmaker round trip, admin login and health checks, rendering.
- A negative study window and a non-positive temperature or odds floor, which only the environment could set.
