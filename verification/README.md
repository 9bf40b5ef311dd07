# Verified model of the trading research platform

A Dafny model of the algorithmic parts of the platform, with proofs of the
properties its documentation and code promise. Each module names the source file
it follows. `dafny verify dfyconfig.toml` checks everything.

## What is modelled

- **Broker-history reconstruction** (`scripts/rh_sync.py`): the union-find with path
  halving over a mutable forest (`ContractLinks`, `EpisodeBuilder`), the ledger pass
  that splits a linked group into round trips and synthesises expiry fills
  (`FlatSplit` says what one pass computes, `FlatSplitter` runs it on mutable fields,
  `EpisodeStarts` and `EpisodeShapes` tell from the fills alone where episodes begin and what
  they hold), what makes the rebuild raise (`RebuildErrors`) and what a re-run keeps
  (`RebuildRerun`, `RerunExactly`),
  opening legs and cash identities (`OpeningLegs`, `Fills`), and the work list of
  `sync` (`SyncWorklist`, `SyncOrder`, `SyncErrors`).
- **Rate limiting** (`app/providers/ratelimit.py`): the priority token bucket as a step
  system over every interleaving of waiters (`TokenBuckets`, `BucketRuns`), the daily
  budget and the two together (`RequestBudgets`).
- **Defined-risk structures end to end**: selection (`ContractSelection`,
  `StructureSelection`, `SelectionMeaning`), sizing and planning (`TradePlanning`,
  `PlanMeaning`), exact settlement (`OptionStructures`) and the independent breakeven grader (`Grading`, `PlanGrading`).
- **Exit-policy replays**: daily (`DailyReplay`, `ReplayMeaning`), minute bars (`MinuteReplay`,
  `MinuteMeaning`, `MinutePessimism`, `MinuteBooking`), their agreement (`ReplayAgreement`), and
  real marks (`RealMarkFills`, `RealMarkWalk`, `RealMarkMeaning`, `RealMarkReport`).
- **Statistics**: average ranks, Spearman correlation, its bootstrap, drawdown (`Ranks`,
  `RankCorrelation`, `Bootstrap`, `BootstrapLevels`, `Drawdown`).
- **Leak-safe walk-forward** (`WalkForward`, `FeaturePairs`).
- **TTL cache and degrading backend** (`Caches`, `CacheClock`, `CacheFailures`) and the
  **contract-symbol printer and parser** (`OccSymbols`).

`Basics`, `Seqs`, `Cutting` and `ListDicts` hold shared vocabulary: Python's rounding, the
stable sort, filters, sums, cutting a list at marks, and a `defaultdict(list)`.

## Conventions

Prices and strikes are whole 1e-4 dollars per share; since a contract is 100 shares, the
same number read in cents is the dollar amount of one contract. Contract quantities are
whole, so the code's 1e-9 tolerances are equality with zero. Dates, timestamps and
minutes are integers. The real-mark model, the statistics and the token bucket use exact
reals. `round` is half to even and is written out wherever it is not the identity on this
grid. Dicts keyed by date or minute are lists of entries. Exceptions are results.

A loop in the source that updates variables is a method with a loop, proved equal to a
function; lemmas about that function carry the properties. The modules whose names end in
`Meaning` say what such a function returns on the inputs themselves, without the functions it
is built from. Inductions are written out, so
lemmas are marked `{:induction false}`. The table lists results first; the rows at its end
are those methods, which tie the imperative form to the function its results are about.

## What the code does not promise

Several claims hold only under a condition; the lemmas named give the exact condition or a
concrete input.

- `build_episodes` raises if any episode has no opening fill, because the final sort reads
  `opened_at`: exactly when some linked fills have a stretch without an opening fill between
  two moments at which nothing is held (`RebuildErrors.RaisesExactly`), as a lone close does
  (`RebuildErrors.OnlyClosesRaise`).
- In `sync` the label of a closed episode without a closing fill is built outside the `try`
  and raises. Which incoming episodes can make that happen is exact
  (`SyncErrors.NeverRaisesExactly`); a round trip of two opening fills is one
  (`SyncErrors.RoundTripOfOpensRaises`).
- Re-running the rebuild on a longer history does not keep every closed episode: an order that
  links contracts traded apart can merge two of them (`RebuildRerun.LinkingOrderRewrites`). A
  closed episode comes back exactly when its real fills are still one stretch between two
  moments at which nothing is held, among all the fills now linked to them
  (`RerunExactly.ClosedEpisodeSurvivesExactly`); without new links that is always so
  (`RebuildRerun.ClosedEpisodesSurvive`).
- The daily cap is kept exactly when no date comes back after another one
  (`RequestBudgets.CapHoldsExactly`).
- The breakeven proxy is exact at expiry precisely when the premium lies strictly inside
  what the structure can be worth and the breakevens are whole cents, or, with a breakeven at
  or below zero, when its one remaining reading fits (`Grading.AgreementCondition`); for the
  plans that are built this comes down to a few comparisons
  (`PlanGrading.PlanGradedExactly`).
- A debit vertical that costs more than its width is accepted, with a negative stated best
  case (`PlanGrading.LosingPairIsFeasible`); such a plan earns at no close
  (`PlanGrading.VerticalCanWinExactly`).
- A strangle may be selected with crossed strikes
  (`StructureSelection.CrossedStrangleIsSelected`); exactly then its stated loss is never
  reached (`OptionStructures.WorstCaseAttainedExactly`).
- The minute replay is pessimistic about when it exits and about stops, and optimistic about
  the two other values it books: a profit target and a forced session close are both booked at
  the best value of the bar (`MinuteBooking.TargetFillIsOptimistic`,
  `MinuteBooking.SessionCloseIsOptimistic`). A booked value is pessimistic exactly when it is
  a stop or every leg traded at one price that minute
  (`MinuteBooking.BookingIsPessimisticExactly`); read before the run, the booking is
  pessimistic under all rules and entry times exactly when that holds of every priced minute
  (`MinuteBooking.AlwaysPessimisticExactly`).
- The minute replay has no time stop; where the daily replay takes one it has not exited yet
  (`ReplayAgreement.ReplaysAgree`). The two exits are equal exactly when no priced day is due
  before a level is met (`ReplayAgreement.ExitsEqualExactly`).
- The fill model's documentation calls k = 0.5 a fill at mid; the code fills halfway from
  the mid to the touch (`RealMarkFills.HalfFractionIsNotTheMid`). The model follows the
  code.
- The real-mark walk checks the target before the stop, the replays check the stop first;
  the model keeps both orders.
- The exclusion `entry_no_quote` is never given: the liquidity guard before it already needs a
  mid of both legs (`RealMarkMeaning.EvaluateMeans`). A size that is traded always has a
  `capped_reason` (`PlanMeaning.ReasonMeans`).
- With an embargo of 0 a row that enters and resolves on the opening day of a segment is in
  both halves of a fold (`WalkForward.OverlapExactly`); the reverse walk purges nothing from
  its test half, which is harmless exactly when rows are held at most the embargo and a day
  (`WalkForward.StraddlersExactly`).
- `spearman_ci` raises exactly when it resamples and is asked for no resample, or for one that
  comes out constant on a side (`Bootstrap.RaisesExactly`).
- `ResilientBackend.clear` swallows a failure of the primary and may leave stale values
  (`Caches.LostClearServesStale`). Some answer is neither the ideal one nor a miss exactly when
  a read reaches, on a primary that has not failed yet, an unexpired write cleared in the
  meantime by lost clears only (`CacheFailures.NeverWrongExactly`).
- A clock that goes back can make the in-memory
  cache forget a live entry (`Caches.ClockMustBeMonotone`), and which clocks cannot is exact
  (`CacheClock.ClockExactly`).

## Model

| member | source | states |
|---|---|---|
| `Fills.FlatIff` | scripts/rh_sync.py:124-128 | an episode is closed (each contract it touched nets to zero) exactly when no contract at all has a position |
| `Fills.NetsReproduceCash` | scripts/rh_sync.py:110-122 | for any episode with a closing fill, (exit net - entry net) x lots is minus the cash of all its fills, within one 1e-4 unit per lot of rounding |
| `Fills.NetsReproduceCashExactly` | scripts/rh_sync.py:110-122 | the identity is exact whenever both totals divide evenly by the lots |
| `Fills.OpenedAtIsEarliest` | scripts/rh_sync.py:72-74 | opened_at is the time of an opening fill no opening fill of the episode precedes, and missing exactly when there is none |
| `OpeningLegs.ComputeOpeningLegs` | scripts/rh_sync.py:87-104 | the legs are exactly the contracts with a net opening position, once each, with their signed quantity and size-weighted average price, sorted by type and strike |
| `OpeningLegs.AverageWithinPrices` | scripts/rh_sync.py:100-103 | the reported average price of a leg lies between the cheapest and the dearest opening fill of that contract |
| `OpeningLegs.LotsIsSmallest` | scripts/rh_sync.py:106-108 | no leg is smaller than the lot count and some leg attains it |
| `FlatSplit.RunKeeps` | scripts/rh_sync.py:189-197 | after any number of fills the ledger mirrors the open episode contract by contract and is empty without one, the open episode is not flat, every finished one is closed and minimal, and the real fills are those fed, in order |
| `FlatSplit.SplitIsSound` | scripts/rh_sync.py:164-201 | each real fill lands in exactly one episode in time order; all but possibly the last episode are closed; no proper beginning of an episode is flat; a synthetic fill flattens exactly its position; an open last episode holds only contracts expiring on or after as_of |
| `FlatSplit.NothingExpiresEarly` | scripts/rh_sync.py:172-187 | when no fill is dated after as_of, only contracts expired before as_of get a synthetic fill |
| `FlatSplit.SplitKeepsCash` | scripts/rh_sync.py:164-201 | splitting a group neither creates nor destroys cash |
| `FlatSplit.RerunStable` | scripts/rh_sync.py:164-201 | appending fills no earlier than the old ones and dated on or after as_of, with a later as_of, reproduces every closed episode unchanged and in the same position |
| `EpisodeStarts.EpisodesAreChunks` | scripts/rh_sync.py:164-201 | the real fills of the episodes of a group are its fills in time order, cut exactly where a fill finds no position in any contract still alive that day; as_of does not matter |
| `ContractLinks.HalvingKeepsRoot` | scripts/rh_sync.py:214-219 | one path-halving step changes no root |
| `ContractLinks.Forest.Find` | scripts/rh_sync.py:214-219 | find terminates and returns the representative; no representative changes and every root stays a root |
| `ContractLinks.Forest.Union` | scripts/rh_sync.py:221-222 | union merges exactly the two classes and no others |
| `ContractLinks.ConnectedKeepsSymbol` | scripts/rh_sync.py:225-231 | fills linked through orders are of one symbol |
| `EpisodeBuilder.LinkOrders` | scripts/rh_sync.py:211-231 | after all orders are processed two nodes share a representative exactly when they are connected by a chain of fills sharing orders |
| `EpisodeBuilder.BuildGroups` | scripts/rh_sync.py:233-235 | the groups are the connected components, in the order of their first fills: every fill is in exactly one, in input order, and fills of two groups are never connected |
| `EpisodeBuilder.BuildEpisodes` | scripts/rh_sync.py:204-239 | the episodes are those of the split groups; each has an opening fill, and no episode opens with a fill earlier than the one an episode before it opens with; it raises exactly when some episode has no opening fill |
| `EpisodeBuilder.TiesKeepTheirOrder` | scripts/rh_sync.py:239-239 | episodes opened at one time keep the order in which they were built |
| `EpisodeBuilder.RebuildConserves` | scripts/rh_sync.py:204-239 | over the whole rebuild the real fills are the input fills, as a multiset, and total cash is unchanged |
| `EpisodeBuilder.EpisodesAreLinked` | scripts/rh_sync.py:225-239 | each rebuilt episode is well shaped, of one symbol, and all its real fills are input fills connected to each other |
| `RebuildErrors.RaisesExactly` | scripts/rh_sync.py:204-239 | the rebuild raises if and only if the fills linked to some fill have, in time order, a stretch without an opening fill between two moments at which nothing alive is held |
| `RebuildErrors.OnlyClosesRaise` | scripts/rh_sync.py:239-239 | a log that opens nothing, such as a lone close, raises |
| `RebuildErrors.ClosesHeldIsBuilt` | scripts/rh_sync.py:204-239 | if in time order each close meets a position of its contract and nothing trades after its expiration, the rebuild succeeds |
| `EpisodeShapes.EpisodesAreShaped` | scripts/rh_sync.py:164-201 | every episode is its real fills in time order, each preceded by the synthetic fills of what it holds then that has expired, in the order in which the group first traded those contracts; a last sweep, at as_of if the episode is open, adds the rest; all told without the ledger |
| `RerunExactly.RealsRebuiltExactly` | scripts/rh_sync.py:204-239 | some fills are the real fills of a rebuilt episode if and only if they are one stretch between two empty moments of all the fills linked to the first of them, in time order |
| `RerunExactly.ClosedEpisodeSurvivesExactly` | scripts/rh_sync.py:204-239 | re-run on a longer history, a closed episode is rebuilt unchanged, synthetic fills included, if and only if its real fills are still such a stretch of the fills now linked to them |
| `RebuildRerun.ClosedEpisodesSurvive` | scripts/rh_sync.py:204-239 | a sufficient condition on the links alone: with later fills that link no old contracts anew and a later as_of, every closed episode is rebuilt unchanged |
| `RebuildRerun.LinkingOrderRewrites` | scripts/rh_sync.py:211-231 | a concrete log: an order in two calls that were traded apart makes a closed episode disappear |
| `SyncWorklist.SplitPerContractConserves` | scripts/rh_sync.py:242-253 | the pieces are well shaped, hold one contract each, hold at least one real fill each, and together have the real fills and the cash of the episode |
| `SyncWorklist.SplitLowersWeight` | scripts/rh_sync.py:316-328 | replacing an episode by two or more pieces lowers the sum of 2 x real fills - 1 |
| `SyncWorklist.Sync` | scripts/rh_sync.py:295-345 | for arbitrary answers of the database and of episode_to_trade the work list terminates; every real fill ends in exactly one reported episode; a line says closed_in_place exactly when the episode is open in the database and holds nothing, already_tracked for every other known one, created_closed or created_open for a new trade that holds nothing or something, and skipped exactly for an unknown, unrecognised episode, which falls into at most one piece; it stops early only on an episode whose label cannot be built |
| `SyncOrder.ReportIsInPlace` | scripts/rh_sync.py:295-345 | the report falls into consecutive stretches, one for each incoming episode in turn, and each stretch accounts for exactly its real fills: pieces stand in the place of what was split |
| `SyncErrors.NeverRaisesExactly` | scripts/rh_sync.py:295-328 | no answers make the loop raise if and only if every incoming episode has an opening fill and, if flat, a closing one, and so has each part its contracts fall into when there are several |
| `SyncErrors.PieceStays` | scripts/rh_sync.py:242-253 | a piece of the fallback split is never split again, on any later day |
| `SyncErrors.RoundTripOfOpensRaises` | scripts/rh_sync.py:299-302 | a position bought and sold back by orders marked as opening raises at once |
| `TokenBuckets.HeadIsLeast` | app/providers/ratelimit.py:104-116 | the head of the heap is the smallest (priority, sequence) ticket waiting |
| `BucketRuns.TokensStayInRange` | app/providers/ratelimit.py:99-136 | in every run of any waiters with a monotone clock tokens stay within 0 and capacity |
| `BucketRuns.RateBound` | app/providers/ratelimit.py:99-136 | grants between two times never exceed capacity + rate x the time between them, for every interleaving |
| `BucketRuns.WaitingAccounted` | app/providers/ratelimit.py:104-136 | the waiting set is always those entered minus those granted minus those cancelled, and no ticket is granted twice |
| `BucketRuns.NoOvertaking` | app/providers/ratelimit.py:115-121 | a ticket is never granted while a smaller one that does not give up is waiting: the smaller one is granted first |
| `BucketRuns.LeaderIsServed` | app/providers/ratelimit.py:111-128 | a ticket that stays smallest is granted by the time it has slept 4 x (1 - tokens) / rate times |
| `TokenBuckets.DelayMeans` | app/providers/ratelimit.py:122-129 | a leader sleeps exactly until the missing part of its token is earned, but at least 1 and at most 250 milliseconds; others look again in 5 |
| `BucketRuns.CountersTell` | app/providers/ratelimit.py:104-121 | over every run sequence numbers count those who entered, and waited_count the grants that had to wait |
| `RequestBudgets.FreshBudgetHolds` | app/providers/ratelimit.py:139-157 | as long as no date returns after another one, requests permitted on any one date never exceed the cap, whatever the charges |
| `RequestBudgets.CapHoldsExactly` | app/providers/ratelimit.py:149-157 | for unit charges every cap is kept on every date if and only if no date returns after a different one |
| `RequestBudgets.CountersAreExact` | app/providers/ratelimit.py:149-157 | over every run blocked grows by one for each refused request, and within a date count is what was permitted on it |
| `RequestBudgets.LimiterHolds` | app/providers/ratelimit.py:194-204 | bucket and budget together: what passes the limiter obeys both the rate bound and the daily cap |
| `OptionStructures.ProfitIsBounded` | app/analytics/expiry_settlement.py:40-54 | for every recognised structure and every close, expiry profit is at least minus the stated worst case and at most the stated best case |
| `OptionStructures.WorstCaseAttainedExactly` | app/analytics/expiry_settlement.py:40-54 | the stated worst case is reached at some non-negative close if and only if the structure is not a strangle with crossed strikes |
| `OptionStructures.CrossedStrangleKeepsGap` | app/engine/contract_selection.py:514-548 | a strangle bought with the put strike above the call strike never loses more than its debit less the gap |
| `ContractSelection.SelectLong` | app/engine/contract_selection.py:110-167 | the first eligible contract of greatest fit, and none only when none is eligible |
| `ContractSelection.SelectVertical` | app/engine/contract_selection.py:170-304 | the nested search keeps the first feasible pair of greatest fit |
| `ContractSelection.VerticalIsBest` | app/engine/contract_selection.py:170-304 | it returns none only when no pair is feasible, and otherwise a feasible pair no feasible pair beats |
| `SelectionMeaning.EligibleMeans` | app/engine/contract_selection.py:110-167 | a long option is eligible exactly when type, days to expiration and the liquidity gate fit and its delta is in the band or its strike near the spot |
| `SelectionMeaning.FeasibleMeans` | app/engine/contract_selection.py:202-275 | a pair is feasible exactly under conditions on its types, strikes, days, deltas, debit and probability of profit; the spot is asked only of a leg without a usable delta |
| `SelectionMeaning.LiquidMeans` | app/engine/liquidity.py:54-78 | the gate passes exactly contracts of positive mid in range, enough interest and volume, and a quote no wider than a share of the mid |
| `SelectionMeaning.LongFitIsMean` | app/engine/contract_selection.py:140-164 | the fit is a weighted mean of qualities of at most one: never above one, and one for a perfect contract, with and without a preferred strike |
| `SelectionMeaning.SpreadFitIsMean` | app/engine/contract_selection.py:276-300 | the fit of a spread is at most one, and one for a certain profit of twice the debit on strikes a twentieth apart |
| `StructureSelection.ChooseExpiration` | app/engine/contract_selection.py:361-366 | an expiration in the window as close to its middle as any, none exactly when the window is empty |
| `StructureSelection.LiquidByDeltaIsNearest` | app/engine/contract_selection.py:369-387 | a liquid contract as near the target delta as any, none exactly when there is no candidate |
| `StructureSelection.CreditVerticalOk` | app/engine/contract_selection.py:390-450 | a credit vertical is a bull put or bear call spread for its direction, taken for a credit, with positive risk within the cap and figures that are those of its legs |
| `StructureSelection.StraddleOk` | app/engine/contract_selection.py:453-511 | a straddle is struck at the strike nearest the spot, with positive risk within the cap and figures that are those of its legs |
| `StructureSelection.StrangleOk` | app/engine/contract_selection.py:514-548 | a strangle has positive risk within the cap and figures that are those of its legs |
| `StructureSelection.CrossedStrangleIsSelected` | app/engine/contract_selection.py:514-548 | the strangle selector returns crossed strikes: a concrete chain |
| `StructureSelection.CondorOk` | app/engine/contract_selection.py:551-603 | a condor has its four strikes in order, is sold for a credit, and its figures are those of its legs with the wider wing at risk |
| `SelectionMeaning.CreditVerticalExactly` | app/engine/contract_selection.py:390-450 | the credit selector takes the legs nearest a 30 and a 15 delta, and fails only when one is missing, the long one is not further out, there is no credit, or the rest of the width is no positive risk within the cap |
| `SelectionMeaning.StraddleExactly` | app/engine/contract_selection.py:453-511 | the straddle is a call struck nearest the spot and a put of the same strike, and fails only without such a call or such a put, or for its price |
| `SelectionMeaning.CondorExactly` | app/engine/contract_selection.py:551-603 | four legs make a condor exactly when their strikes are in order, they pay a credit, and the wider wing less the credit is a positive risk within the cap |
| `SelectionMeaning.CondorTriesNearest` | app/engine/contract_selection.py:551-603 | the condor selector tries one set of legs, those sold nearest a 20 and those bought nearest a 10 delta, and has none exactly without a liquid put or a liquid call with a delta |
| `TradePlanning.SizingIsMaximal` | app/risk/position_sizing.py:33-77 | a trade is sized exactly when one contract fits both caps, and then to the largest count allowed by the caps and the contract limit |
| `PlanMeaning.CapsMean` | app/risk/policy.py:27-36 | the per-trade cap is the tighter of the share of equity and the absolute limit, the account cap a share of equity, each to the cent |
| `PlanMeaning.FitsExactly` | app/risk/position_sizing.py:53-59 | a new risk is within the effective cap exactly when it is within the per-trade cap and, with what is open, within the account cap |
| `PlanMeaning.ReasonMeans` | app/risk/position_sizing.py:50-77 | what capped_reason says: which cap refused the first contract, whether the count limit bound, or the risk cap; a traded size always has a reason |
| `TradePlanning.PlanIsDefinedRisk` | app/risk/trade_plan.py:24-268 | a plan gross result at any close lies between minus max_loss_usd and max_profit_usd; max_loss_usd is within the per-trade cap and what the account has left |
| `TradePlanning.PlanLossIsTight` | app/risk/trade_plan.py:24-268 | some non-negative close realises the stated maximum loss in full |
| `TradePlanning.PlanExpressesThesis` | app/engine/strategy_selector.py:83-96 | a bullish plan never earns less on a higher close, a bearish one never less on a lower close, a neutral one is never directional |
| `TradePlanning.DebitVerticalFailsExactly` | app/engine/strategy_selector.py:55-59 | the debit-vertical attempt fails exactly when there is no direction or no feasible pair within the remaining risk: sizing never rejects what was selected |
| `TradePlanning.AttemptedPlanOk` | app/engine/strategy_selector.py:55-82 | whatever an attempt yields has every promised figure and the structure of that attempt |
| `PlanMeaning.LongBreakeven` | app/risk/trade_plan.py:24-97 | the stated breakeven of a long option is the one the breakeven grader will use, and the exit rules are those of the policy |
| `PlanMeaning.VerticalBreakeven` | app/risk/trade_plan.py:100-186 | so is that of a debit vertical |
| `TradePlanning.BuildBestPlan` | app/engine/strategy_selector.py:40-102 | directional with IV rank of at least 0.50: anything but the credit spread means the credit attempt failed; otherwise a credit spread means debit vertical and long option both failed; a long option always means the debit vertical failed; neutral and rich gives only a condor, neutral with rank of at most 0.35 and a catalyst a strangle, or a straddle when the strangle failed, all else nothing; none only when no risk is left or every attempt for the regime failed; every returned plan keeps its loss and profit bounds at every close and both risk caps |
| `Grading.BreakevensAre` | app/quant/analytics.py:75-110 | on a recognised structure the proxy breakevens are the exact ones rounded to the cent |
| `Grading.ProxyReadsAlways` | app/analytics/outcomes.py:40-63 | what WIN, LOSS and SCRATCH say about where the close lies relative to the breakevens, for any band |
| `Grading.ProfitSign` | app/analytics/expiry_settlement.py:40-54 | with the premium inside its bounds exact profit is positive strictly beyond the breakevens, zero exactly on them and negative inside |
| `Grading.GradersAgree` | app/analytics/outcomes.py:40-63 | with premium inside and whole-cent positive breakevens: WIN only when exact profit is positive, LOSS only when negative, for any band; without a band SCRATCH exactly at zero profit |
| `Grading.AgreementCondition` | app/analytics/outcomes.py:40-63 | the proxy agrees with exact settlement at every positive close if and only if, with positive breakevens, the premium is inside and the breakevens are whole cents, and, with a breakeven at or below zero, its one remaining reading fits |
| `PlanGrading.PlanGradedExactly` | app/engine/strategy_selector.py:50-102 | for every plan that is built, breakeven grading and exact settlement agree at all positive closes if and only if a debit vertical costs less than its width, a condor credit is below its narrower wing, a strangle debit exceeds its gap, and the breakevens are whole cents (or fit, at or below zero) |
| `PlanGrading.VerticalCanWinExactly` | app/engine/contract_selection.py:264-275 | a planned debit vertical earns something at some close if and only if it costs less than its width |
| `PlanGrading.LosingPairIsFeasible` | app/engine/contract_selection.py:264-275 | the search accepts a pair that costs more than its width, with a negative stated best case: a concrete chain |
| `OccSymbols.RoundTrip` | scripts/validate_flow_features.py:61-75 | parsing a printed symbol returns the contract if and only if the root is non-empty and upper case, the year is 2000-2099 and the strike is whole thousandths that fit eight characters |
| `OccSymbols.WideStrikeIsRejected` | scripts/validate_flow_features.py:61-75 | a strike too wide for its field is never misread: the parse fails |
| `OccSymbols.SymbolsAreDistinct` | app/analytics/policy_settlement.py:37-40 | distinct such contracts have distinct symbols |
| `OccSymbols.LegsShareMarksExactly` | app/analytics/policy_settlement.py:37-63 | under any calendar, two such legs have the same mark key if and only if they are the same contract |
| `DailyReplay.PricedWhenEveryLegIs` | app/analytics/policy_settlement.py:50-63 | a structure is priced on a day exactly when every leg is |
| `DailyReplay.StopsAtFirstTrigger` | app/analytics/policy_settlement.py:88-98 | the exit is that of the first day on which any rule is met |
| `ReplayMeaning.PolicyMeans` | app/analytics/policy_settlement.py:66-102 | the whole replay told on the marks: a rule exit is at the value of a priced day after entry and up to expiry, no earlier such day meets a level or is due, a stop is a move of at most minus the stop times the premium, a target one of at least the target times it with the stop not met, a time stop a day with no more days left than the limit and neither level met; without one it is the value at expiry, or none without a close |
| `DailyReplay.ReasonMeans` | app/analytics/policy_settlement.py:93-98 | an exit is a stop whenever the stop level is met; a target exit means the stop was not met; a time stop means neither the target nor the stop |
| `DailyReplay.LevelsOverlapExactly` | app/analytics/policy_settlement.py:93-96 | one mark can meet both levels if and only if the target is not above minus the stop, so with positive thresholds never |
| `DailyReplay.NoLookAhead` | app/analytics/policy_settlement.py:66-102 | once a rule fired, any change to later marks or to the expiry close leaves the exit as it was |
| `MinuteReplay.RangeBounds` | app/analytics/intraday_settlement.py:74-95 | any marks inside the legs bars have a net between worst and best |
| `MinutePessimism.ReplayIsPessimistic` | app/analytics/intraday_settlement.py:124-149 | for every price path inside the bars the replay exits no later than the path own first trigger, books a stop at or below the path value, and calls a profit target only when the path had not touched its stop |
| `MinutePessimism.ExcursionBoundsEveryPath` | app/analytics/intraday_settlement.py:132-137 | at every priced minute looked at, the change of any path inside the bars lies between MAE and MFE, also after rounding |
| `MinuteMeaning.IntradayMeans` | app/analytics/intraday_settlement.py:98-156 | the whole replay told on the minutes it looked at, which run from the entry to the first that meets a level: the exit is that minute, stop asked first, or the last priced minute when the close is forced; the excursion is missing exactly when none was priced, and otherwise its gain and its loss are the greatest of those minutes, rounded, each with the time it was first reached or 0 with none, and it counts the priced minutes |
| `MinuteMeaning.ExcursionHoldsPaths` | app/analytics/intraday_settlement.py:132-152 | the reported rounded extremes hold the rounded change of every path inside the bars of every priced minute looked at |
| `MinuteBooking.TargetFillIsOptimistic` | app/analytics/intraday_settlement.py:145-149 | a target is booked at the bar best, above a path that reached the target lower down: a concrete minute |
| `MinutePessimism.LaterBarsDoNotMatter` | app/analytics/intraday_settlement.py:98-156 | bars after the minute a rule fired change neither the exit nor the excursion |
| `MinuteBooking.IntradayAgainstPath` | app/analytics/intraday_settlement.py:98-156 | the whole replay, forced close included, against any path inside the bars: it exits no later than the path first touches a level; a stop is at or below the path; a target means no touched stop; a session close means no level touched all session; targets and closes are at or above the path; with the close forced there is no exit only when no minute is priced |
| `MinuteBooking.BookingIsPessimisticExactly` | app/analytics/intraday_settlement.py:98-156 | the booked value is at most the value of every path inside the bars of its minute if and only if the exit is a stop or every leg traded at one price that minute |
| `MinuteBooking.AlwaysPessimisticExactly` | app/analytics/intraday_settlement.py:98-156 | under all rules and entry times the booked value is at most every path inside the bars of its minute if and only if every leg trades at one price in every priced minute |
| `MinuteBooking.SessionCloseIsOptimistic` | app/analytics/intraday_settlement.py:126-153 | a session close is booked at the bar best, above a path that touched nothing: a concrete minute |
| `ReplayAgreement.ReplaysAgree` | app/analytics/intraday_settlement.py:98-156 | for any rules, on bars with one price each and nothing marked after expiry, the minute replay takes the exit of the daily replay unless that is a time stop; then it has no exit up to that date |
| `ReplayAgreement.ExitsEqualExactly` | app/analytics/intraday_settlement.py:98-156 | with no ending forced, the two exits are equal if and only if no day in the window is priced and due for the time stop before any day meets a level |
| `ReplayAgreement.EndingsCompared` | app/analytics/intraday_settlement.py:126-153 | where no rule ends the daily replay, a forced session close takes the last priced mark of the window and the expiry close takes what the legs are worth at expiry |
| `RealMarkFills.CrossingReachesTheTouch` | app/backtest/fill_model.py:27-34 | k = 1 buys at the ask and sells at the bid, k = 0 fills at the mid, and a quote has a mid exactly when it has a half spread |
| `RealMarkFills.HalfFractionIsNotTheMid` | app/backtest/fill_model.py:27-34 | k = 0.5 fills at the mid only when bid equals ask |
| `RealMarkFills.FullSpreadIsCash` | app/backtest/fill_model.py:85-104 | at k = 1 the net is the cash exchanged at asks and bids on both days less four commissions per contract |
| `RealMarkFills.SlippageOnlyCosts` | app/backtest/fill_model.py:85-104 | a larger fraction never earns more and never changes whether a trade could be filled |
| `RealMarkWalk.ExitsAfterEntry` | app/backtest/real_mark.py:163-188 | every repriced trade leaves strictly after its entry date |
| `RealMarkWalk.LaterQuotesDoNotMatter` | app/backtest/real_mark.py:133-209 | when a rule fired, any change to quotes dated after the exit leaves the whole result as it was |
| `RealMarkMeaning.AlignMeans` | app/backtest/real_mark.py:64-71 | the aligned days are those of the long bars whose date the short leg traded, each with the last such bar, in date order |
| `RealMarkMeaning.EvaluateMeans` | app/backtest/real_mark.py:133-209 | the whole result told on the quotes: the exit is the first forward day whose mark meets target, stop or time limit, asked in that order, and no earlier day meets any; a data end means none does, at the last quoted day; days held count to it; the four exclusions hold each under its own condition, one of them never; every fraction is repriced and the trade is fragile exactly when its net is positive at one half and not at one |
| `RealMarkReport.ReportIsByExit` | app/backtest/real_mark_runner.py:96-110 | the rows of a report are included rows, in the order of their exit dates |
| `RealMarkReport.ConservativeReportIsNoBetter` | app/backtest/real_mark_runner.py:113-198 | for any population the k = 1 report has the same n, no larger net, no fewer losses, and slippage_fragile_n is wins at 0.5 minus wins at 1 |
| `RealMarkReport.TallyExclusions` | app/backtest/real_mark_runner.py:176-180 | the tally holds each exclusion reason seen, with how often |
| `RealMarkReport.EveryRowIsAccountedFor` | app/backtest/real_mark_runner.py:175-187 | every row is included or excluded for exactly one reason |
| `RealMarkReport.Grouped` | app/backtest/real_mark_runner.py:130-141 | each key once, in sorted order, with the count, total and wins of its own rows |
| `RealMarkReport.GroupsConserve` | app/backtest/real_mark_runner.py:130-141 | grouped by any key the counts, totals and wins add up to those of the whole |
| `Ranks.ComputeRanks` | app/analytics/metrics.py:34-47 | the in-place tie-block loop gives every element the number below it plus half of one more than the number equal to it |
| `Ranks.RanksSum` | app/analytics/metrics.py:34-47 | ranks add up to n(n+1)/2 whatever the ties |
| `Ranks.RanksIgnoreScale` | app/analytics/metrics.py:34-47 | a strictly increasing transform changes no rank |
| `RankCorrelation.CauchySchwarz` | app/analytics/metrics.py:110-112 | the squared covariance is at most the product of the variances |
| `RankCorrelation.RhoInUnitRange` | app/analytics/metrics.py:101-114 | whenever it is defined the correlation lies in [-1, 1], after rounding too |
| `RankCorrelation.RhoDefinedExactly` | app/analytics/metrics.py:101-114 | there is a correlation if and only if the sides pair up, have three points or more, and neither is constant |
| `RankCorrelation.RhoIgnoresScale` | app/analytics/metrics.py:101-114 | rescaling either side by a strictly increasing function leaves the correlation unchanged |
| `RankCorrelation.MonotoneIsPerfect` | app/analytics/metrics.py:101-114 | a sample and a strictly increasing image of it correlate to exactly 1 |
| `Bootstrap.IntervalIgnoresRowOrder` | app/analytics/metrics.py:68-83 | every permutation of the paired rows gives the same interval, or none |
| `Bootstrap.IntervalIsSound` | app/analytics/metrics.py:84-98 | at a level from 0 to 1 an interval is ordered and inside [-1, 1], and with two or more resamples the lookup cannot raise |
| `Bootstrap.RaisesExactly` | app/analytics/metrics.py:84-98 | at a level from 0 to 1 it raises if and only if the sample is resampled and no resample is asked for, or the only one is constant on a side |
| `BootstrapLevels.IntervalMeans` | app/analytics/metrics.py:68-98 | there is no interval exactly when the sample is not resampled or fewer than half the rounds are usable; otherwise its ends are the rounded quantiles, alpha/2 from below and from above, of one correlation of a resample of the paired rows for each usable round |
| `Drawdown.DeepestIsTheLargestDrop` | app/analytics/metrics.py:9-18 | before rounding it is the maximum of P_i - P_j over i <= j, P the cumulative curve from 0 |
| `WalkForward.HeldOutSomewhere` | app/backtest/walk_forward.py:27-53 | a row is in some test segment exactly when it enters at or after the first cut |
| `WalkForward.HeldOutAtMostOnce` | app/backtest/walk_forward.py:27-53 | no row is in two test segments |
| `WalkForward.CutsAreEven` | app/backtest/walk_forward.py:27-31 | the cuts are evenly spaced by as many whole days as go n + 1 times into the span of the corpus, at least one, and the last segment ends after its last day |
| `WalkForward.FoldsExactly` | app/backtest/walk_forward.py:34-62 | a segment has a fold exactly when some row enters in it and some row resolves by its embargoed start, or in reverse enters past its embargoed end |
| `WalkForward.FoldHolds` | app/backtest/walk_forward.py:49-61 | a fold holds exactly the rows entering in its segment and those its embargoed barrier lets through |
| `WalkForward.TrainIsEmbargoed` | app/backtest/walk_forward.py:54-59 | forward: every train row resolves at least the embargo before every test entry; reverse: it enters more than the embargo after every test entry |
| `WalkForward.OverlapExactly` | app/backtest/walk_forward.py:54-59 | a row is in both halves of a forward fold exactly when the embargo is 0 and it entered and resolved on the opening day of the segment |
| `WalkForward.ZeroEmbargoCanLeak` | app/backtest/walk_forward.py:54-59 | that corner is reachable: a concrete corpus whose fold shares a row |
| `WalkForward.TrainExpands` | app/backtest/walk_forward.py:54-56 | forward training sets only grow from fold to fold |
| `WalkForward.StraddlersExactly` | app/backtest/walk_forward.py:57-59 | no reverse fold of any corpus held at most h days has a test row still open when a train row enters, if and only if h is at most the embargo and a day |
| `FeaturePairs.EncodingIsTrainMean` | app/backtest/feature_validation.py:69-85 | each test row is scored by the mean train outcome of its own category, or of all train rows when its category was not seen |
| `FeaturePairs.OrientationReadsPositive` | app/backtest/feature_validation.py:53-66 | the orientation makes the train correlation positive, for any correlation that is odd in its first argument |
| `FeaturePairs.OrientationExactly` | app/backtest/feature_validation.py:53-66 | there is no orientation exactly when fewer than five train rows carry the feature or their correlation is missing or zero |
| `FeaturePairs.PairsCount` | app/backtest/feature_validation.py:53-105 | how many pairs a fold gives: none below eight test rows, none without an orientation or a known category, else one for each test row that carries the feature, or for each test row |
| `FeaturePairs.OnlyTrainOutcomesMatter` | app/backtest/feature_validation.py:88-105 | changing the outcomes of any rows outside a fold train set changes no predictor value of that fold |
| `FeaturePairs.TestRowNeverInformsItself` | app/backtest/feature_validation.py:88-105 | changing the outcome of one test row changes no predictor of its fold: in the reverse walk always, forward with an embargo or rows that resolve after their entry day |
| `Caches.InMemoryCache.Get` | app/providers/cache.py:70-78 | evicts on read, yet answers as the map of last writes that have not expired |
| `Caches.CacheIsIdeal` | app/providers/cache.py:63-84 | over any run with a monotone clock the answers are those of the ideal map |
| `Caches.ClockMustBeMonotone` | app/providers/cache.py:70-78 | with a clock that goes back they are not: a concrete run |
| `CacheClock.ClockExactly` | app/providers/cache.py:63-84 | for every run on a clock the answers are those of the ideal map if and only if the clock never falls back across the expiry of an earlier write that some reading in between had passed |
| `CacheFailures.NeverWrongExactly` | app/providers/cache.py:106-144 | for every run: each answer is the ideal one or a miss if and only if no read reaches, before any read or write has failed, an unexpired write of its key with only lost clears, and at least one, in between |
| `Caches.DegradedIsNeverWrong` | app/providers/cache.py:106-144 | a sufficient condition: as long as no clear is lost on a primary in use, each answer is the ideal one or a miss however the primary fails |
| `Caches.LostClearServesStale` | app/providers/cache.py:138-144 | a clear whose primary failure is swallowed leaves the old value being served: a concrete run |
| `OpeningLegs.ComputeContracts` | scripts/rh_sync.py:106-108 | the lot count is the smallest absolute leg, 0 when nothing was opened |
| `FlatSplitter.Splitter.ZeroStale` | scripts/rh_sync.py:172-182 | the loop over the ledger, in place: stale positions go to zero and each leaves its synthetic fill in the open episode |
| `FlatSplitter.Splitter.ExpireStale` | scripts/rh_sync.py:172-187 | expire_stale on the mutable state is the specified step |
| `FlatSplitter.Splitter.Book` | scripts/rh_sync.py:191-197 | booking one fill updates ledger, open episode and finished episodes as specified |
| `FlatSplitter.SplitFlat` | scripts/rh_sync.py:164-201 | the imperative pass over a group computes the specified list of episodes |
| `SyncWorklist.SplitPerContract` | scripts/rh_sync.py:242-253 | the fallback split groups an episode by contract and splits each group again without its old synthetic fills |
| `TokenBuckets.TokenBucket.Refill` | app/providers/ratelimit.py:99-102 | refilling adds rate x elapsed, capped at capacity |
| `TokenBuckets.TokenBucket.EnterQueue` | app/providers/ratelimit.py:104-109 | entering the queue takes the next sequence number and adds the ticket, heap order intact |
| `TokenBuckets.TokenBucket.PollOnce` | app/providers/ratelimit.py:111-128 | one poll grants exactly the leading ticket with a whole token available, and otherwise asks for the specified sleep |
| `TokenBuckets.TokenBucket.Abandon` | app/providers/ratelimit.py:130-136 | an interrupted waiter leaves the queue and changes nothing else |
| `RequestBudgets.RequestBudget.Charge` | app/providers/ratelimit.py:149-157 | a charge rolls the day over, is refused exactly when it would pass the cap, and otherwise counts |
| `OptionStructures.StructureValueAtExpiry` | app/analytics/expiry_settlement.py:40-54 | the loop over legs sums signed intrinsic values |
| `OptionStructures.ComputeNetPerShare` | app/quant/analytics.py:24-29 | the loop over legs sums signed entry prices |
| `DailyReplay.StructureNet` | app/analytics/policy_settlement.py:50-63 | the loop sums signed marks and gives up exactly when a leg has none |
| `DailyReplay.WalkPolicy` | app/analytics/policy_settlement.py:66-102 | the day loop returns the specified exit, or the expiry settlement, or none |
| `MinuteReplay.StructureRange` | app/analytics/intraday_settlement.py:74-95 | the loop pairs long lows with short highs for the worst and the reverse for the best, none exactly when a leg has no bar |
| `MinuteReplay.WalkIntraday` | app/analytics/intraday_settlement.py:98-156 | the minute loop returns the specified exit and excursion |
| `RealMarkWalk.FindExit` | app/backtest/real_mark.py:166-180 | the loop over forward days leaves at the first rule that fires: target, then stop, then time stop |
| `RealMarkWalk.EvaluateTrade` | app/backtest/real_mark.py:133-209 | the whole evaluation with its four exclusions computes the specified result |
| `RealMarkReport.NetPnlsAtK` | app/backtest/real_mark_runner.py:96-110 | the loop collects the fillable included trades with their net, in order of exit date |
| `RankCorrelation.Spearman` | app/analytics/metrics.py:101-114 | the correlation computed from the rank arrays is the specified one |
| `Bootstrap.ComputeInterval` | app/analytics/metrics.py:50-98 | the resampling computes the specified interval |
| `Drawdown.MaxDrawdown` | app/analytics/metrics.py:9-18 | the running loop computes the specified drawdown, rounded to cents |
| `WalkForward.WalkForwardFolds` | app/backtest/walk_forward.py:34-62 | the loop over segments appends the specified folds |
| `FeaturePairs.ComputeCategoricalPairs` | app/backtest/feature_validation.py:69-85 | the bucket loop and the scoring compute the specified pairs |
| `FeaturePairs.OosPairs` | app/backtest/feature_validation.py:88-105 | the pooling loop skips small folds and concatenates the pairs of the rest |
| `Caches.InMemoryCache.Set` | app/providers/cache.py:80-81 | a write is remembered until now + ttl |
| `Caches.ResilientBackend.Get` | app/providers/cache.py:120-127 | a failing read degrades for good and is served by the fallback |
| `Caches.ResilientBackend.Set` | app/providers/cache.py:129-136 | a failing write degrades for good and goes to the fallback |
| `Caches.ResponseCache.Get` | app/providers/cache.py:168-176 | when enabled every lookup the backend answers is one hit or one miss and answers as the store; a backend error counts nothing and reaches the caller; when disabled it is a miss that counts nothing |
| `Caches.ResponseCache.Set` | app/providers/cache.py:178-187 | nothing is stored when disabled, when the scaled time to live is not positive, or when the backend raises, which is swallowed |

## Left out

- Network, database, scheduler, command line, web application and file caches: plumbing with no algorithmic property.
- Floating-point error and the 1e-6 and 1e-9 tolerances: arithmetic is exact.
- `heapq`: push, pop and heapify are taken by their contracts (heap order and contents), not by their sift loops.
- `load_fills`, trade ids, hashes and report strings: parsing and formatting; `episode_to_trade` and the database answers of `sync` are arbitrary functions.
- Fractional contract quantities and prices finer than 1e-4: the grid makes the rounding of sums the identity.
- `Fill.option_type` is call or put; in the source it is a free string.
- Liquidity scores, the modelled probability of profit and the Black-Scholes pricing behind it: arbitrary functions wherever they are used.
- Fit scores and notes of multi-leg structures: nothing downstream reads them.
- Snapshot economics in `settle_at_expiry`: the gross result uses the plan's own net and contracts; costs, scratch band and commissions of settlement are not modelled.
- RerunExactly.ClosedEpisodeSurvivesExactly: is stated for a re-run whose as_of is no earlier than the day of any old fill, as the source calls it (its default is today); with an earlier one the last expiry pass would run in the past of the log.
- RequestBudgets.FreshBudgetHolds: is stated for a cap of zero or more; a negative cap permits nothing.
- Square roots: `RankCorrelation` takes any function that is a root on non-negative reals.
- The random generator of the bootstrap is a fixed function from round and position to an index; `app/backtest/stats.py` has its own rank correlation, which the feature pairs take as an arbitrary function.
- The win rate, expectancy, profit factor and averages of a report: quotients of the counts and totals that are modelled.
- `n_folds` below zero: the walk-forward takes a natural number of folds.
- Bonferroni correction, per-regime signs and registry weights: shallow arithmetic on top of the pairs.
- Cache keys, the table of times to live per path and the Redis client: the primary backend is an ideal TTL map that may fail at any call, and a failing call is taken to have had no effect that is ever read again.
- Concurrency inside the cache backends: each call is one step.
- Roots of option symbols are upper-cased as ASCII, and `int` accepts ASCII digits, signs, spaces and underscores only.
- Which of two equally central expirations `_choose_expiration` takes: it minimises over a set, whose order Python does not fix, so the model leaves the tie open.
