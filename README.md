# graphgg rake model

graphgg is a browser extension. It reads a PokerCraft cash-game results chart
(a cumulative series of per-hand results and all-in EV) and the session table
shown beside it. It assigns every hand to a session and charges each winning
hand a share of the pot as rake. From this it re-accumulates a "rake-adjusted"
series and tables of results per stake level. This project models that batch
transform in Dafny and proves what each step promises.

The modules follow the program's parts:

- `Common`, `Series`, `Strings`, `Sorting`: shared vocabulary.
  - optional values and JavaScript truthiness;
  - sums, per-hand differences and prefix sums;
  - `split`, `indexOf`, `replace` and `trim` on strings;
  - the stable descending sort that `Array.prototype.sort` performs.
- `Chart`: the session and hand records of the page script. It also holds the
  "H:M:S" duration arithmetic, the end timestamp and the session sort.
- `GreedySelection`, `GreedyMatching`: the greedy interval rule of
  `matchHandsToSessions`.
  - `GreedySelection` chooses the session for one hand.
  - `GreedyMatching` is the pass over all hands. It updates `assignedHands`,
    `sessionStats`, the stake buckets and the unmatched count.
  - `extension/pageScript.js` and `extract-data-create-graph.js` have the same
    text here, apart from logging behind a debug flag, so the rule is modelled
    once.
- `RakeAdjust`: `calculateRakeAdjustedData` of both scripts. An `EvPolicy` picks
  the EV formula:
  - `EquityShare` for `extension/pageScript.js`: EV pays rake in proportion to
    the hand's equity;
  - `FullRake` for `extract-data-create-graph.js`: EV pays the whole rake.
- `StakeReport`: the per-stake aggregation, the totals and the rake impact that
  the comparison view of either script computes.
- `KuhnMatching`: the refactored `dataProcessing.js`. It holds the compatibility
  graph, Kuhn's augmenting-path search over in-place `matching` and `visited`
  arrays, and the split into matched and unmatched hands. The search is proved
  to give a maximum matching through a certificate: a set of "dead" sessions
  that no augmenting path can reach.
- `Calculations`: the refactored `calculations.js`. It holds the flat-capped
  rake, the grouping of hands by stakes, the nested loops that adjust a copy
  of the series, and the relabelling.
- `DataExtraction`: the refactored `dataExtraction.js`. It covers the "Xh Ym"
  duration parser, the stake split, the row filter and the end time.
- `Visualization`: the refactored `visualization.js`. It covers totals, per-stake
  results, stake values, BB/100 and value colours.

Modelling conventions:

- Money is `real` and timestamps are `int`.
- Values the page may leave out are `Option`s. JavaScript truthiness is written
  out: `0`, `""` and `null` are falsy.
- `parseFloat`, `parseInt`, `Number` and date parsing are parameters of the
  functions that use them.
- Objects that the scripts update in place are values that the methods hand
  back: the sessions whose `assignedHands` grows, the copied series and the
  stake dictionaries. The one exception is the Kuhn search, whose `matching`
  and `visited` arrays stay arrays.

## Model

| member | source | states |
|---|---|---|
| Chart.DurationMs | extension/pageScript.js:113-119 | a missing or empty duration gives 0 ms; a duration with fewer than three ":" fields cannot be converted |
| Chart.DurationOfFields | extension/pageScript.js:117-118 | for "H:M:S" whose fields convert to H, M and S, the duration is (H·3600 + M·60 + S)·1000 ms |
| Chart.EndTimestamp | extension/pageScript.js:171 | a session without a truthy start has no end; otherwise end = start + duration, so end − duration gives back the start |
| Chart.SortSessions | extract-data-create-graph.js:192 | the sessions come out in descending order of start timestamp (missing as 0), as a permutation of the input, keeping the input order among equal starts |
| Sorting.SortDescSorted | extension/refactored/visualization.js:302-306 | the sort yields a sequence in descending key order |
| Sorting.SortDescPermutation | extension/refactored/visualization.js:302-306 | the sort yields a permutation of its input |
| Sorting.SortDescStable | extension/pageScript.js:187 | the elements sharing one key keep their input order; this is the stability of `Array.prototype.sort` |
| GreedySelection.KeepFacts | extension/pageScript.js:260-266 | the filter keeps exactly the sessions it accepts, in increasing index order; for candidates: both timestamps set and start ≤ t ≤ end |
| GreedySelection.HighestStakes | extension/pageScript.js:252-256 | with sessions present, the highest-stakes session has the largest big blind, and is the first one on ties; with none there is no such session |
| GreedySelection.FirstMaxPosFacts | extension/pageScript.js:311-320 | the `reduce` with a strict `>` returns a maximum of the key, the first one in list order |
| GreedySelection.UniqueBigBlindsSize | extension/pageScript.js:303-304 | the candidates have more than one distinct big blind exactly when some candidate's big blind differs from the first one's |
| GreedySelection.Choose | extension/pageScript.js:259-322 | a hand with candidates goes to a candidate; it is unmatched exactly when it has no candidate and no session has a start; an unmatched hand goes to the highest-stakes session |
| GreedySelection.Fallback | extension/pageScript.js:268-299 | with no candidate, a hand goes to a session that has a start whenever one exists; otherwise it goes to the highest-stakes session and counts as unmatched |
| GreedySelection.ChooseMixedStakes | extension/pageScript.js:303-309 | among candidates with differing big blinds, the chosen one has the largest big blind and is the first such |
| GreedySelection.ChooseSameStakes | extension/pageScript.js:310-321 | among candidates sharing one big blind, the chosen one has the most room left (`hands − assignedHands`) and is the first such |
| GreedySelection.ChooseClosest | extension/pageScript.js:271-299 | with no candidate, the chosen session has a start and minimises the smaller distance from t to its start or its end over the sessions that have one, the first one on ties |
| GreedySelection.KeptBest | extension/pageScript.js:300-321 | the first maximum of any ordering over the kept sessions is a kept session that no kept session beats, and every earlier one is strictly worse |
| GreedySelection.BestCandidate | extension/pageScript.js:305-320 | the same, over the candidate list |
| GreedyMatching.InitialStats | extension/pageScript.js:241-247 | each session starts with expected hands from the table, 0 matched hands and its big blind and stakes copied |
| GreedyMatching.HandAmount | extension/pageScript.js:342-347 | the first hand's result is its cumulative amount; later hands' results are the difference to the hand labelled one lower; a label outside the data makes the lookup fail |
| GreedyMatching.HandAmountIsDelta | extension/pageScript.js:342-347 | with labels 1, 2, … in order, a hand's result is its per-hand difference of the cumulative series |
| GreedyMatching.Step | extension/pageScript.js:324-355 | one hand's bookkeeping keeps the number of sessions, session stats and hands |
| GreedyMatching.Run | extension/pageScript.js:258-356 | the pass over the first k hands keeps the number of sessions, session stats and hands |
| GreedyMatching.RunShape | extension/pageScript.js:258-356 | after k hands there is at most one stake bucket per hand; each bucket key is listed once in insertion order; hands from k on are untouched and earlier hands only gain session facts |
| GreedyMatching.RowRatios | extension/pageScript.js:362-382 | a bucket with hands and a positive big blind has BB result · big blind = win/loss and BB/100 · count = BB result · 100; otherwise both are 0; and percentage · total hands = count · 100 |
| GreedyMatching.Rows | extension/pageScript.js:373-383 | one row per bucket, in the buckets' insertion order |
| GreedyMatching.MatchHand | extension/pageScript.js:258-356 | the loop body for one hand does what the greedy choice followed by the bookkeeping step specifies |
| GreedyMatching.ApplyChoice | extension/pageScript.js:324-355 | the in-place bookkeeping for a chosen session: `assignedHands`, `matchedHands` unless unmatched, the stake bucket, the copied session facts |
| GreedyMatching.MatchHandsToSessions | extension/pageScript.js:240-391 | the method's result is the outcome of the greedy pass over all hands, and it fails only when that pass does |
| GreedyMatching.PassTurn | extension/pageScript.js:258-356 | each iteration keeps the loop invariant that the state is the pass over the hands seen so far, or shows that the whole pass fails |
| GreedyMatching.StepMatched | extension/pageScript.js:324-331 | each hand adds one to the sum of matched and unmatched counts; the sum of `assignedHands` grows by one when there are sessions |
| GreedyMatching.StepOneSession | extension/pageScript.js:324-331 | the chosen session alone gains one assigned hand, and one matched hand unless the hand is only a fallback; every other session and its statistics are unchanged; with no session only the unmatched count grows |
| GreedyMatching.StepBuckets | extension/pageScript.js:333-348 | when there are sessions, each hand adds one to the sum of bucket counts and its own result to the sum of bucket totals |
| GreedyMatching.StepOneBucket | extension/pageScript.js:333-348 | the bucket under the chosen session's stakes key is the only one that changes: its count grows by one and its total by the hand's result, a new key is opened with the session's big blind and appended to the key order, and every other bucket is unchanged |
| GreedyMatching.RunMatched | extension/pageScript.js:324-331 | after k hands, matched hands plus unmatched hands = k; the highest-stakes fallback is not counted as matched |
| GreedyMatching.RunAssigned | extension/pageScript.js:325 | after k hands the sessions' `assignedHands` have grown by k in total, when there are sessions |
| GreedyMatching.RunBucketCounts | extension/pageScript.js:333-341 | after k hands the stake counts add up to k, when there are sessions |
| GreedyMatching.RunSucceeds | extension/pageScript.js:342-347 | with labels 1, 2, … in order, no lookup fails |
| GreedyMatching.RunTotals | extension/pageScript.js:347 | with dense labels, the bucket totals add up to the sum of the first k per-hand results |
| GreedyMatching.RunFails | extension/pageScript.js:258-356 | once a lookup has failed, every longer pass fails too |
| GreedyMatching.TotalAmountConserved | extension/pageScript.js:362-390 | with dense labels, hands and sessions, the rows' win/loss adds up to the final cumulative amount |
| GreedyMatching.CountsAddUp | extension/pageScript.js:324-390 | matched plus unmatched equals the number of hands; `assignedHands` grows by the number of hands; with hands and sessions the rows' hand counts add up to the number of hands |
| RakeAdjust.ExtractHandResults | extension/pageScript.js:398-421 | the loop produces the per-hand differences of the cumulative amount and EV, each hand keeping its session facts |
| RakeAdjust.BigBlindSize | extension/pageScript.js:426 | the session's big blind when it is truthy, otherwise 0.1; never 0 |
| RakeAdjust.RakeHand | extension/pageScript.js:424-462 | a losing or break-even hand pays no rake and keeps amount and EV; a winning hand pays min(2·amount·pct, capBB·bb) and its amount drops by exactly that |
| RakeAdjust.RakeBounds | extension/pageScript.js:427-429 | with non-negative rate, cap and big blind: 0 ≤ rake ≤ capBB·bb; a winning hand stays non-negative when the rate is at most 50% |
| RakeAdjust.EquityShareEv | extension/pageScript.js:432-446 | when amount and EV are positive, EV drops by rake·(pot/2 + ev)/pot, a share above one half that is at most 1 when ev ≤ amount |
| RakeAdjust.FullRakeEv | extract-data-create-graph.js:474-484 | under the variant, amount and EV both drop by the full rake |
| RakeAdjust.NoRateNoRake | extension/pageScript.js:424-462 | a zero rate charges nothing and leaves the hand unchanged |
| RakeAdjust.RakeAll | extension/pageScript.js:424-462 | the `map` rakes every hand on its own, keeping the length |
| RakeAdjust.UptoStep | extension/pageScript.js:471-485 | each running total grows by exactly the next hand's quantity |
| RakeAdjust.Accumulated | extension/pageScript.js:464-495 | point i holds hand i's label and time, the running sums of amount, EV, rake and BB result up to i, and the rake in BB only under the equity policy |
| RakeAdjust.Accumulate | extension/pageScript.js:464-495 | the re-accumulation loop computes exactly those points |
| RakeAdjust.CalculateRakeAdjustedData | extension/pageScript.js:393-497 | the whole transform: differences, rake, re-accumulation, one output point per input point |
| RakeAdjust.AmountConserved | extension/pageScript.js:471-495 | every adjusted point keeps its label and time, and adjusted amount + total rake so far = the original cumulative amount |
| RakeAdjust.FullRakeEvConserved | extract-data-create-graph.js:503-525 | under the variant, adjusted EV + total rake so far = the original cumulative EV |
| RakeAdjust.TotalRakeMonotone | extension/pageScript.js:476-483 | with non-negative rate, cap and big blinds, the running total rake never decreases and is never negative |
| RakeAdjust.TotalRakeInBBMonotone | extension/pageScript.js:476-490 | under the equity-share policy, with non-negative rate, cap and big blinds, the running rake in big blinds is present on every point, never decreases and is never negative |
| RakeAdjust.RakeNonNegative | extension/pageScript.js:424-462 | with non-negative rate, cap and big blinds, no hand pays negative rake |
| RakeAdjust.NoRateIsIdentity | extension/pageScript.js:398-495 | with a zero rate the re-accumulated series equals the original cumulative series (the per-hand differences telescope) |
| RakeAdjust.AdjustedDeltas | extension/pageScript.js:471-495 | the per-hand differences of the adjusted series are the raked per-hand results |
| StakeReport.AddLine | extension/pageScript.js:760-772 | opening a stake sets a blank row for it and leaves other stakes' rows alone |
| StakeReport.OpenedFacts | extension/pageScript.js:760-784 | the opened table lists each entry once, has a row for every listed stake, and every row starts at 0 win/loss and 0 BB |
| StakeReport.OpenedDistinct | extension/pageScript.js:760-784 | with distinct stake names, the object's key order is the distribution's order and each row is that stake's blank row |
| StakeReport.OpenStakes | extension/pageScript.js:760-784 | the `forEach` builds exactly the opened table |
| StakeReport.StakeKeys | extension/pageScript.js:788-791 | a hand counts toward a stake exactly when it has a truthy stakes key, a non-zero big blind and that key is a row |
| StakeReport.CreditHand | extension/pageScript.js:804-811 | crediting adds the amount and amount/bb to that stake's row only, and only when the row exists |
| StakeReport.AddHand | extension/pageScript.js:787-813 | each loop turn keeps the invariant that every row holds the sums over the hands seen so far that count toward it |
| StakeReport.FilledFromCredited | extension/pageScript.js:787-813 | sums over all hands are the filled table |
| StakeReport.AddStakeResults | extension/pageScript.js:787-813 | the loop fills every row with its counted hands' win/loss and BB result sums; a hand without session data makes the script fail |
| StakeReport.Closed | extension/pageScript.js:815-826 | setting BB/100 keeps the order, the keys and every row's stake, hands, win/loss and BB result |
| StakeReport.SetBBPer100 | extension/pageScript.js:815-826 | the loop over `Object.values` closes exactly every listed row |
| StakeReport.StakeTable | extension/pageScript.js:756-826 | a stake table exists exactly when every hand has session data, and it keeps the distribution's first-insertion order |
| StakeReport.BuildStakeTable | extension/pageScript.js:756-826 | the three loops build that table |
| StakeReport.Entries | extension/pageScript.js:816 | `Object.values` lists the rows in key order |
| StakeReport.EquityReport | extension/pageScript.js:620-625 | the comparison report exists exactly when both series are non-empty and every adjusted hand has session data |
| StakeReport.FullRakeReport | extract-data-create-graph.js:732-835 | the variant's report exists exactly when the adjusted series is non-empty and every hand has session data |
| StakeReport.RowsPartitionHands | extension/pageScript.js:787-813 | the rows' win/loss and BB results add up to the per-hand results of exactly the hands that count toward a row |
| StakeReport.RowsAddUpToTotal | extension/pageScript.js:828-837 | when every hand counts toward a row, the rows' win/loss adds up to the total line's (the series' last value) |
| StakeReport.SessionsKept | extension/pageScript.js:493 | the adjusted series keeps every hand's session facts |
| StakeReport.EquityImpactIsChargedRake | extension/pageScript.js:852-860 | when every hand is matched, the rake impact is the total rake charged and its BB amount is the sum of rake/bb over all hands |
| StakeReport.EquityAssembled | extension/pageScript.js:852-860 | the impact is the original minus the adjusted final amount, in BB the last point's running rake in BB |
| StakeReport.FullRakeImpactIsCountedRake | extract-data-create-graph.js:805-835 | in the variant the impact's amount is the total rake; its BB amount is the rake/bb summed over the hands the tables count, which is all hands when every hand counts |
| StakeReport.FullRakeImpactInMoney | extract-data-create-graph.js:644-647 | in the variant the impact amount is the last point's total rake |
| StakeReport.CountedDifference | extract-data-create-graph.js:761-822 | original BB total minus adjusted BB total is the sum of the per-hand BB differences over the counted hands |
| StakeReport.FullRakeAssembled | extract-data-create-graph.js:805-835 | the variant's report is its two tables with totals and the impact = original final − adjusted final |
| StakeReport.RakeInBBPolicyFree | extract-data-create-graph.js:474-492 | the rake in BB per hand does not depend on the EV policy, so both scripts' BB rake impacts agree when every hand counts |
| KuhnMatching.IndexOf | extension/refactored/dataProcessing.js:120-121 | `indexOf` gives the first position holding the value, or −1 when none does |
| KuhnMatching.CreateBipartiteGraph | extension/refactored/dataProcessing.js:44-61 | `graph[h]` lists, in increasing order, exactly the sessions whose window contains hand h's time |
| KuhnMatching.FindAugmentingPath | extension/refactored/dataProcessing.js:111-130 | keeps a unit-capacity matching on graph edges; only adds marks to `visited`; on failure leaves `matching` unchanged and closes every tried session; on success matches exactly one more hand, this one, and keeps earlier ones matched |
| KuhnMatching.TakeFree | extension/refactored/dataProcessing.js:120-123 | taking a free session adds the hand to the matching |
| KuhnMatching.TakeFreed | extension/refactored/dataProcessing.js:120-124 | taking a session whose holder found another one adds the hand and keeps the holder matched |
| KuhnMatching.FindMaximumBipartiteMatching | extension/refactored/dataProcessing.js:93-108 | the result has one entry per hand, is a unit-capacity matching on graph edges and no matching of the graph has more hands |
| KuhnMatching.Augmented | extension/refactored/dataProcessing.js:99-105 | a successful search keeps the dead sessions dead, unmatches nobody and leaves later hands alone |
| KuhnMatching.Failed | extension/refactored/dataProcessing.js:100-105 | after a failed search, every session it visited joins the dead set, and all the hand's sessions are among them |
| KuhnMatching.MaximumFromCertificate | extension/refactored/dataProcessing.js:93-94 | a matching whose unmatched hands see only dead sessions is maximum |
| KuhnMatching.CertificateBound | extension/refactored/dataProcessing.js:93-94 | no matching of the graph matches more hands than such a matching |
| KuhnMatching.MapHandsToSessions | extension/refactored/dataProcessing.js:63-76 | the map's keys are exactly the matched hands, each mapped to its matched session |
| KuhnMatching.UnmatchedAmongSound | extension/refactored/dataProcessing.js:78-91 | every listed hand is unmatched and carries its own data point |
| KuhnMatching.UnmatchedAmongComplete | extension/refactored/dataProcessing.js:78-91 | every unmatched hand is listed |
| KuhnMatching.UnmatchedAmongCount | extension/refactored/dataProcessing.js:78-91 | listed hands plus matched hands = all hands |
| KuhnMatching.FindUnmatchedHands | extension/refactored/dataProcessing.js:78-91 | the unmatched hands in increasing index order; with the matched ones they account for every hand |
| KuhnMatching.MatchHandsToSessions | extension/refactored/dataProcessing.js:7-41 | missing input gives null; every matched hand lies in its session's window; no compatible assignment matches more hands; the map comes from a compatible assignment in which no session holds two hands; the unmatched list holds, in increasing order and once each, exactly the hands the map leaves out |
| Calculations.CalculateRakeAmount | extension/refactored/calculations.js:90-102 | a hand without winnings pays nothing; a winning hand pays min(bbWon·bb·pct, cap) |
| Calculations.RakeBounds | extension/refactored/calculations.js:90-102 | with non-negative rate, cap and big blind: 0 ≤ rake ≤ cap |
| Calculations.FlatCap | extension/refactored/calculations.js:17-20 | the default cap is a flat 3.0 whatever the big blind |
| Calculations.HandKeys | extension/refactored/calculations.js:76-79 | a hand's group key is its session's stakes, or none when it has no session |
| Calculations.GroupedSpec | extension/refactored/calculations.js:72-88 | the groups are keyed by the sessions' stakes, listed once each in first-seen order; each holds exactly the indices of its hands, in increasing order |
| Calculations.GroupHandsByStakes | extension/refactored/calculations.js:72-88 | each hand with a session is in its stakes' group, group members are exactly such hands, and each group is increasing |
| Calculations.Rakes | extension/refactored/calculations.js:41-42 | a hand's rake is computed from its own big blinds won and its session's big blind, and is 0 without a session |
| Calculations.AdjustedPointsShift | extension/refactored/calculations.js:35-50 | a grouped hand's `c` and `ev` each rise by exactly its rake; its time and BB stay; ungrouped hands are unchanged |
| Calculations.AdjustedTotalSplits | extension/refactored/calculations.js:43-49 | the adjusted cash total = the grouped hands' original cash + the total rake |
| Calculations.TotalRakeBounds | extension/refactored/calculations.js:17-20 | under the default configuration the total rake lies between 0 and 3.0 per hand |
| Calculations.AdjustHand | extension/refactored/calculations.js:37-49 | the inner loop body extends the adjusted copy and the totals by one more hand of the stake |
| Calculations.AdjustStake | extension/refactored/calculations.js:35-50 | the inner loop adjusts every hand of one stake and adds their rakes and adjusted cash |
| Calculations.AdjustAllStakes | extension/refactored/calculations.js:32-51 | the nested loops give the adjusted series, the total rake and the adjusted cash total |
| Calculations.AllStakesDone | extension/refactored/calculations.js:43-49 | once every stake is done, the partial facts are the full ones |
| Calculations.UpdateLabels | extension/refactored/calculations.js:104-120 | missing labels give an empty object; otherwise other labels are copied, and present `c`/`ev` labels get the suffix appended while absent ones stay absent |
| Calculations.UpdateLabelsRoundTrip | extension/refactored/calculations.js:110-117 | stripping the suffix from relabelled `c` and `ev` gives back the original labels |
| Calculations.SuffixRoundTrip | extension/refactored/calculations.js:110-117 | appending then stripping a non-empty suffix is the identity |
| Calculations.CalculateRakeAdjustedData | extension/refactored/calculations.js:7-69 | missing data, series or matching gives null; otherwise the adjusted series, relabelled labels, totals, the default configuration and the stake groups |
| DataExtraction.NumberBefore | extension/refactored/dataExtraction.js:153-161 | the first digit run directly followed by the unit, or none when no such run exists |
| DataExtraction.ParseDuration | extension/refactored/dataExtraction.js:147-169 | a string with neither part gives 0 minutes |
| DataExtraction.DurationRoundTrip | extension/refactored/dataExtraction.js:147-164 | "Hh Mm" written out parses back to 60·H + M |
| DataExtraction.DurationHours | extension/refactored/dataExtraction.js:153-155 | in "Hh Mm" the hours are the digits before "h" |
| DataExtraction.DurationMinutes | extension/refactored/dataExtraction.js:159-161 | in "Hh Mm" the minutes are the digits before "m", not the hours |
| DataExtraction.StakesOfBlinds | extension/refactored/dataExtraction.js:52-58 | "small/big" splits into the two parsed blinds |
| DataExtraction.RowSession | extension/refactored/dataExtraction.js:28-73 | end time = start + duration, the duration is parsed from the trimmed cell, and stakes without "/" give zero blinds |
| DataExtraction.RowSessions | extension/refactored/dataExtraction.js:25-74 | the kept sessions are never more than the rows |
| DataExtraction.RowSessionsFail | extension/refactored/dataExtraction.js:45-46 | the mapping fails exactly when some row's date cannot be parsed |
| DataExtraction.RowSessionsKept | extension/refactored/dataExtraction.js:28-74 | the sessions are exactly the kept rows, in order, each with its parsed fields |
| DataExtraction.KeptRows | extension/refactored/dataExtraction.js:28-42 | the filter keeps exactly the cash-game rows of at least 8 cells that are not tournaments |
| DataExtraction.ExtractSessions | extension/refactored/dataExtraction.js:10-81 | a missing or empty table gives null; otherwise the kept rows' sessions, or null when a date throws inside the `try` |
| Visualization.CalculateTotal | extension/refactored/visualization.js:145-147 | the sum of the named field over all points, 0 for none |
| Visualization.CalculateTotalAppend | extension/refactored/visualization.js:145-147 | the total of two series joined is the sum of their totals |
| Visualization.SummaryRakeAmount | extension/refactored/visualization.js:124-132 | the summary's rake, adjusted total minus original total, is the total rake, for both cash and EV |
| Visualization.GetValueColor | extension/refactored/visualization.js:242-255 | empty gives the default; a leading "+" or a "$" without "-" gives positive; a leading "-" gives negative; nothing else gives either |
| Visualization.DollarAmountColors | extension/refactored/visualization.js:242-255 | "$x" is positive, "-$x" negative, "$-x" the default |
| Visualization.ParseStakeValue | extension/refactored/visualization.js:309-318 | no "/" gives 0 |
| Visualization.StakeValueIsBigBlind | extension/refactored/visualization.js:309-318 | the stake value is the big blind of the stake split |
| Visualization.CalculateWinRateBB | extension/refactored/visualization.js:320-331 | 0 without a stake value or hands; otherwise rate · bb · hands = win/loss · 100 |
| Visualization.WinRateExact | extension/refactored/visualization.js:326-329 | dividing by bb and hands then scaling undoes exactly |
| Visualization.SumGroup | extension/refactored/visualization.js:283-290 | the loop sums cash and EV over the group's indices |
| Visualization.UnsortedResults | extension/refactored/visualization.js:280-299 | one result per stake group, in group order |
| Visualization.StakeRowsCountStakeHands | extension/refactored/visualization.js:280-299 | each stake's row counts its hands and sums their cash and EV |
| Visualization.CalculateStakeResults | extension/refactored/visualization.js:277-307 | the rows sorted by stake value descending, as a permutation of the per-group rows |

## Left out

- DOM scraping is modelled only as its results: the table cells, `extractEVGraphData`'s Angular walk and the component search. The scraped series and session table are inputs.
- Reading dates is left out. Session start times come from `new Date(...)` with the current year and local timezone, and `Date` parsing in the refactored extractor; both are given integers or a parameter.
- IEEE floating point is left out. Money is exact `real`; `parseFloat`, `parseInt` and `Number` are parameters. A `NaN` duration or end time is folded into a missing value, since every consumer tests it for truthiness or uses `|| 0`.
- Number formatting (`toFixed`, `formatCurrency`, percentages as text) is left out. The rake suffix takes its percentage as text, fixed to "5" for the default.
- Rendering is left out: the charts, the tables and their display sort by big blind, styling, observers, timers, click handlers, script injection and the JSON download.
- The debug logging in both matchers is left out.
- GreedyMatching.MatchHandsToSessions: the chart point's `y` is the same number as `amount` and is not repeated. The hand history id is not modelled.
- Aliasing is left out. The scripts update the session objects, the copied series and the stake dictionaries in place; the model hands back new values. So aliasing between the caller's objects and the result is not captured. For the same reason the refactored code's deep copy, and the promise that the input stays unchanged, hold by construction.
- JavaScript object key order is modelled only as first-insertion order of string keys. Keys that look like array indices would be ordered differently; stake names never do.
- GreedyMatching.Rows: that the percentages add up to 100 is not proved. Real division with variable denominators in every row makes the proof too costly.
- StakeReport.BuildStakeTable: the scripts fill two tables in one pass over the hands. The model builds each table with its own call. The values equal those of the single pass, since each table only reads the series.
- StakeReport.FullRakeReport: requires the original and adjusted series to have equal length. The variant reads `originalData[index]` for each adjusted hand, and the rake transform always keeps the length.
- StakeReport.EquityReport: the stake distribution's `sessionData` parameter is not used by the script and is not modelled.
- RakeAdjust.Accumulate: the first iteration's `=` and the later `+=` are one running sum, which is the same over exact reals. The `appliedRake || 0` coercion is the identity here, since the rake is always a number.
- Visualization.CalculateStakeResults: requires every group index to name a point, which the grouping guarantees (Calculations.GroupHandsByStakes).
- DataExtraction.RowSession: `trim` is modelled for the ASCII and Latin-1 white space and the byte-order mark only, not every Unicode space separator or line terminator.
- DataExtraction.RowSessions: `toISOString` on an invalid date throws. This is modelled as failure; valid dates are a parameter.
- The old content scripts, `extension/refactored/pageScript.js`, the observers and the UI enhancements are not part of this model.
