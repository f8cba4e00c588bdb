/** `calculateRakeAdjustedData` of extension/pageScript.js:393-497 and of
    extract-data-create-graph.js:429-529: the cumulative series is taken
    apart into per-hand results, rake is charged on every winning hand, and
    the series is put back together with running rake totals. The two
    scripts differ only in how a winning hand's EV is charged and in whether
    rake is also totalled in big blinds. */
module RakeAdjust {
  import opened Common
  import opened Series
  import opened Chart

  /** How a winning hand's EV is charged: in proportion to the estimated
      equity (pageScript.js) or by the whole rake (extract-data-create-graph.js). */
  datatype EvPolicy = EquityShare | FullRake

  /** One hand taken out of the cumulative series. */
  datatype HandDelta = HandDelta(amount: real, ev: real, sessionData: Option<SessionData>)

  /** One hand after rake. */
  datatype HandResult = HandResult(
    amount: real, ev: real, sessionData: Option<SessionData>, appliedRake: real, bigBlindSize: real)

  /** A point of the adjusted series. `totalRakeInBB` is `None` where the
      script does not write it; `y` of the chart point equals `amount` and is
      not repeated. */
  datatype AdjustedHand = AdjustedHand(
    handLabel: int, timestamp: int, amount: real, ev: real, totalRake: real,
    totalRakeInBB: Option<real>, bbResult: real, sessionData: Option<SessionData>, bigBlindSize: real)

  // ---------------------------------------------------------------------
  // Taking the series apart (pageScript.js:398-421).

  /** The per-hand results: the cash and EV differences of the cumulative
      series, each hand keeping its session facts. */
  function HandDeltas(data: seq<Hand>): (r: seq<HandDelta>)
    ensures |r| == |data|
  {
    seq(|data|, i requires 0 <= i < |data| =>
      HandDelta(Deltas(Amounts(data))[i], Deltas(Evs(data))[i], data[i].sessionData))
  }

  method ExtractHandResults(adjustedData: seq<Hand>) returns (handResults: seq<HandDelta>)
    ensures handResults == HandDeltas(adjustedData)
  {
    handResults := [];
    for i := 0 to |adjustedData|
      invariant handResults == HandDeltas(adjustedData)[..i]
    {
      if i == 0 {
        handResults := handResults + [HandDelta(adjustedData[i].amount, adjustedData[i].ev, adjustedData[i].sessionData)];
      } else {
        var amountDiff := adjustedData[i].amount - adjustedData[i - 1].amount;
        var evDiff := adjustedData[i].ev - adjustedData[i - 1].ev;
        handResults := handResults + [HandDelta(amountDiff, evDiff, adjustedData[i].sessionData)];
      }
    }
    assert HandDeltas(adjustedData)[..|adjustedData|] == HandDeltas(adjustedData);
  }

  // ---------------------------------------------------------------------
  // Rake on one hand (pageScript.js:424-462, extract-data-create-graph.js:462-493).

  /** `hand.sessionData?.bigBlind || 0.1`: never 0, so dividing by it is
      always defined. */
  function BigBlindSize(sd: Option<SessionData>): (bb: real)
    ensures bb != 0.0
    ensures sd.Some? && TruthyReal(sd.value.bigBlind) ==> bb == sd.value.bigBlind.value
    ensures !(sd.Some? && TruthyReal(sd.value.bigBlind)) ==> bb == 0.1
  {
    if sd.Some? && TruthyReal(sd.value.bigBlind) then sd.value.bigBlind.value else 0.1
  }

  /** The EV a winning hand keeps: with `EquityShare` a positive EV pays the
      rake in proportion to the estimated equity `(pot / 2 + ev) / pot`,
      where the pot is estimated as twice the win. */
  function ChargedEv(amount: real, ev: real, rake: real, policy: EvPolicy): real
    requires amount > 0.0
  {
    match policy
    case FullRake => ev - rake
    case EquityShare =>
      var estimatedPotSize := amount * 2.0;
      if ev > 0.0 then ev - rake * ((estimatedPotSize / 2.0 + ev) / estimatedPotSize) else ev
  }

  /** The rake of one hand: on a win, twice the win times the rake rate,
      at most `rakeCapBB` big blinds; nothing on a loss or a break-even. */
  function RakeHand(hand: HandDelta, rakePercentage: real, rakeCapBB: real, policy: EvPolicy): (r: HandResult)
    ensures r.sessionData == hand.sessionData && r.bigBlindSize == BigBlindSize(hand.sessionData)
    ensures hand.amount <= 0.0 ==> r.appliedRake == 0.0 && r.amount == hand.amount && r.ev == hand.ev
    ensures hand.amount > 0.0 ==>
              r.appliedRake <= hand.amount * 2.0 * rakePercentage &&
              r.appliedRake <= rakeCapBB * r.bigBlindSize &&
              (r.appliedRake == hand.amount * 2.0 * rakePercentage || r.appliedRake == rakeCapBB * r.bigBlindSize)
    ensures hand.amount > 0.0 ==> r.amount == hand.amount - r.appliedRake
    ensures hand.amount > 0.0 ==> r.ev == ChargedEv(hand.amount, hand.ev, r.appliedRake, policy)
  {
    var bigBlindSize := BigBlindSize(hand.sessionData);
    if hand.amount > 0.0 then
      var rakeCap := rakeCapBB * bigBlindSize;
      var estimatedPotSize := hand.amount * 2.0;
      var rake := Min(estimatedPotSize * rakePercentage, rakeCap);
      HandResult(hand.amount - rake, ChargedEv(hand.amount, hand.ev, rake, policy), hand.sessionData, rake, bigBlindSize)
    else
      HandResult(hand.amount, hand.ev, hand.sessionData, 0.0, bigBlindSize)
  }

  /** With a non-negative rate and cap and a positive big blind, the rake is
      between 0 and the cap, and a win never turns into a loss as long as the
      rate is at most one half. */
  lemma RakeBounds(hand: HandDelta, rakePercentage: real, rakeCapBB: real, policy: EvPolicy)
    requires rakePercentage >= 0.0 && rakeCapBB >= 0.0 && BigBlindSize(hand.sessionData) > 0.0
    ensures var r := RakeHand(hand, rakePercentage, rakeCapBB, policy);
      0.0 <= r.appliedRake <= rakeCapBB * r.bigBlindSize
    ensures var r := RakeHand(hand, rakePercentage, rakeCapBB, policy);
      hand.amount > 0.0 && rakePercentage <= 0.5 ==> r.amount >= 0.0
  {
    var r := RakeHand(hand, rakePercentage, rakeCapBB, policy);
    MulNonNegative(rakeCapBB, r.bigBlindSize);
    if hand.amount > 0.0 {
      var pot := hand.amount * 2.0;
      MulNonNegative(pot, rakePercentage);
      if rakePercentage <= 0.5 {
        MulMonotone(pot, rakePercentage, 0.5);
      }
    }
  }

  lemma MulNonNegative(a: real, b: real)
    requires a >= 0.0 && b >= 0.0
    ensures a * b >= 0.0
  {
  }

  lemma MulPositive(a: real, b: real)
    requires a > 0.0 && b > 0.0
    ensures a * b > 0.0
  {
  }

  lemma MulMonotone(a: real, b: real, c: real)
    requires a >= 0.0 && b <= c
    ensures a * b <= a * c
  {
    MulNonNegative(a, c - b);
    assert a * (c - b) == a * c - a * b;
  }

  /** Under either policy, the cash and EV a hand loses to rake add up to
      the rake: with `FullRake` the EV pays exactly the rake. */
  lemma FullRakeEv(hand: HandDelta, rakePercentage: real, rakeCapBB: real)
    ensures var r := RakeHand(hand, rakePercentage, rakeCapBB, FullRake);
      r.ev == hand.ev - r.appliedRake && r.amount == hand.amount - r.appliedRake
  {
  }

  /** With `EquityShare`, a positive EV pays a share of the rake of more
      than one half (the estimated equity exceeds one half) and at most the
      whole rake when the EV does not exceed the win. */
  lemma EquityShareEv(hand: HandDelta, rakePercentage: real, rakeCapBB: real)
    requires hand.amount > 0.0 && hand.ev > 0.0
    ensures var r := RakeHand(hand, rakePercentage, rakeCapBB, EquityShare);
      var share := (hand.amount + hand.ev) / (2.0 * hand.amount);
      r.ev == hand.ev - r.appliedRake * share && share > 0.5 &&
      (hand.ev <= hand.amount ==> share <= 1.0)
  {
    var a, e := hand.amount, hand.ev;
    var pot := a * 2.0;
    assert pot / 2.0 == a;
    assert pot == 2.0 * a;
    RatioBounds(a + e, 2.0 * a, 0.5);
    RatioBounds(a + e, 2.0 * a, 1.0);
  }

  /** How a quotient compares with `k` follows how the numerator compares
      with `k` times the denominator. */
  lemma RatioBounds(num: real, den: real, k: real)
    requires den > 0.0
    ensures num > k * den ==> num / den > k
    ensures num <= k * den ==> num / den <= k
  {
    var q := num / den;
    assert q * den == num;
    if q > k {
      MulPositive(den, q - k);
      assert den * (q - k) == num - k * den;
    } else {
      MulMonotone(den, q, k);
    }
  }

  /** With no rake rate, no hand is charged. */
  lemma NoRateNoRake(hand: HandDelta, rakeCapBB: real, policy: EvPolicy)
    requires rakeCapBB >= 0.0 && BigBlindSize(hand.sessionData) > 0.0
    ensures var r := RakeHand(hand, 0.0, rakeCapBB, policy);
      r.appliedRake == 0.0 && r.amount == hand.amount && r.ev == hand.ev
  {
    assert rakeCapBB * BigBlindSize(hand.sessionData) >= 0.0;
  }

  /** The `map` over the per-hand results. */
  function RakeAll(hands: seq<HandDelta>, rakePercentage: real, rakeCapBB: real, policy: EvPolicy): (r: seq<HandResult>)
    ensures |r| == |hands|
    ensures forall i :: 0 <= i < |hands| ==> r[i] == RakeHand(hands[i], rakePercentage, rakeCapBB, policy)
  {
    seq(|hands|, i requires 0 <= i < |hands| => RakeHand(hands[i], rakePercentage, rakeCapBB, policy))
  }

  // ---------------------------------------------------------------------
  // Putting the series back together (pageScript.js:464-496).

  /** The per-hand quantities the second loop adds up. */
  datatype Quantity = Cash | Equity | Rake | RakeInBB | ResultInBB

  function Of(q: Quantity, h: HandResult): real
    requires h.bigBlindSize != 0.0
  {
    match q
    case Cash => h.amount
    case Equity => h.ev
    case Rake => h.appliedRake
    case RakeInBB => h.appliedRake / h.bigBlindSize
    case ResultInBB => h.amount / h.bigBlindSize
  }

  predicate SizesKnown(results: seq<HandResult>)
  {
    forall i :: 0 <= i < |results| ==> results[i].bigBlindSize != 0.0
  }

  /** One quantity of every hand. */
  function Column(results: seq<HandResult>, q: Quantity): (c: seq<real>)
    requires SizesKnown(results)
    ensures |c| == |results|
    ensures forall i :: 0 <= i < |results| ==> c[i] == Of(q, results[i])
  {
    seq(|results|, i requires 0 <= i < |results| => Of(q, results[i]))
  }

  /** The running total of one quantity over the first `n` hands. */
  function Upto(results: seq<HandResult>, q: Quantity, n: nat): real
    requires SizesKnown(results) && n <= |results|
  {
    Sum(Column(results, q)[..n])
  }

  /** Each hand adds its own quantity to the running totals. */
  lemma UptoStep(results: seq<HandResult>, n: nat)
    requires SizesKnown(results) && n < |results|
    ensures Upto(results, Cash, n + 1) == Upto(results, Cash, n) + results[n].amount
    ensures Upto(results, Equity, n + 1) == Upto(results, Equity, n) + results[n].ev
    ensures Upto(results, Rake, n + 1) == Upto(results, Rake, n) + results[n].appliedRake
    ensures Upto(results, RakeInBB, n + 1) == Upto(results, RakeInBB, n) + results[n].appliedRake / results[n].bigBlindSize
    ensures Upto(results, ResultInBB, n + 1) == Upto(results, ResultInBB, n) + results[n].amount / results[n].bigBlindSize
  {
    SumSnoc(Column(results, Cash), n);
    SumSnoc(Column(results, Equity), n);
    SumSnoc(Column(results, Rake), n);
    SumSnoc(Column(results, RakeInBB), n);
    SumSnoc(Column(results, ResultInBB), n);
  }

  /** Point `i` of the adjusted series. */
  function AdjustedPoint(data: seq<Hand>, results: seq<HandResult>, policy: EvPolicy, i: nat): AdjustedHand
    requires |results| == |data| && SizesKnown(results) && i < |data|
  {
    AdjustedHand(data[i].handLabel, data[i].timestamp,
                 Upto(results, Cash, i + 1), Upto(results, Equity, i + 1), Upto(results, Rake, i + 1),
                 if policy == EquityShare then Some(Upto(results, RakeInBB, i + 1)) else None,
                 Upto(results, ResultInBB, i + 1), results[i].sessionData, results[i].bigBlindSize)
  }

  function Accumulated(data: seq<Hand>, results: seq<HandResult>, policy: EvPolicy): (r: seq<AdjustedHand>)
    requires |results| == |data| && SizesKnown(results)
    ensures |r| == |data|
    ensures forall i :: 0 <= i < |data| ==> r[i] == AdjustedPoint(data, results, policy, i)
  {
    seq(|data|, i requires 0 <= i < |data| => AdjustedPoint(data, results, policy, i))
  }

  /** The whole transform. */
  function RakeAdjusted(originalData: seq<Hand>, rakePercentage: real, rakeCapBB: real, policy: EvPolicy):
    (r: seq<AdjustedHand>)
    ensures |r| == |originalData|
  {
    var results := RakeAll(HandDeltas(originalData), rakePercentage, rakeCapBB, policy);
    Accumulated(originalData, results, policy)
  }

  /** The five running totals of `calculateRakeAdjustedData` after `n` hands. */
  ghost predicate RunningTotals(results: seq<HandResult>, n: nat, cumulativeAmount: real, cumulativeEv: real,
                                totalRake: real, totalRakeInBB: real, cumulativeBBResult: real)
    requires SizesKnown(results)
  {
    n <= |results| &&
    cumulativeAmount == Upto(results, Cash, n) && cumulativeEv == Upto(results, Equity, n) &&
    totalRake == Upto(results, Rake, n) && totalRakeInBB == Upto(results, RakeInBB, n) &&
    cumulativeBBResult == Upto(results, ResultInBB, n)
  }

  /** Adding hand `n`'s quantities carries the running totals from `n` to `n + 1` hands. */
  lemma TotalsStep(results: seq<HandResult>, n: nat, cumulativeAmount: real, cumulativeEv: real,
                   totalRake: real, totalRakeInBB: real, cumulativeBBResult: real)
    requires SizesKnown(results) && n < |results|
    requires RunningTotals(results, n, cumulativeAmount - results[n].amount, cumulativeEv - results[n].ev,
                           totalRake - results[n].appliedRake,
                           totalRakeInBB - results[n].appliedRake / results[n].bigBlindSize,
                           cumulativeBBResult - results[n].amount / results[n].bigBlindSize)
    ensures RunningTotals(results, n + 1, cumulativeAmount, cumulativeEv, totalRake, totalRakeInBB, cumulativeBBResult)
  {
    UptoStep(results, n);
  }

  /** With the totals after `n + 1` hands, the point built for hand `n` is point `n` of the series. */
  lemma PointAt(data: seq<Hand>, results: seq<HandResult>, policy: EvPolicy, n: nat, cumulativeAmount: real,
                cumulativeEv: real, totalRake: real, totalRakeInBB: real, cumulativeBBResult: real)
    requires |results| == |data| && SizesKnown(results) && n < |data|
    requires RunningTotals(results, n + 1, cumulativeAmount, cumulativeEv, totalRake, totalRakeInBB, cumulativeBBResult)
    ensures AdjustedHand(data[n].handLabel, data[n].timestamp, cumulativeAmount, cumulativeEv, totalRake,
                         if policy == EquityShare then Some(totalRakeInBB) else None,
                         cumulativeBBResult, results[n].sessionData, results[n].bigBlindSize)
            == AdjustedPoint(data, results, policy, n)
  {
  }

  method Accumulate(adjustedData: seq<Hand>, adjustedHandResults: seq<HandResult>, policy: EvPolicy)
    returns (r: seq<AdjustedHand>)
    requires |adjustedHandResults| == |adjustedData| && SizesKnown(adjustedHandResults)
    ensures r == Accumulated(adjustedData, adjustedHandResults, policy)
  {
    var cumulativeAmount, cumulativeEv, totalRake, totalRakeInBB, cumulativeBBResult := 0.0, 0.0, 0.0, 0.0, 0.0;
    r := [];
    for i := 0 to |adjustedData|
      invariant |r| == i
      invariant forall j :: 0 <= j < i ==> r[j] == AdjustedPoint(adjustedData, adjustedHandResults, policy, j)
      invariant RunningTotals(adjustedHandResults, i, cumulativeAmount, cumulativeEv, totalRake, totalRakeInBB, cumulativeBBResult)
    {
      var h := adjustedHandResults[i];
      var bigBlindSize := h.bigBlindSize;
      cumulativeAmount := cumulativeAmount + h.amount;
      cumulativeEv := cumulativeEv + h.ev;
      totalRake := totalRake + h.appliedRake;
      totalRakeInBB := totalRakeInBB + h.appliedRake / bigBlindSize;
      cumulativeBBResult := cumulativeBBResult + h.amount / bigBlindSize;
      TotalsStep(adjustedHandResults, i, cumulativeAmount, cumulativeEv, totalRake, totalRakeInBB, cumulativeBBResult);
      PointAt(adjustedData, adjustedHandResults, policy, i,
              cumulativeAmount, cumulativeEv, totalRake, totalRakeInBB, cumulativeBBResult);
      var point := AdjustedHand(adjustedData[i].handLabel, adjustedData[i].timestamp,
                                cumulativeAmount, cumulativeEv, totalRake,
                                if policy == EquityShare then Some(totalRakeInBB) else None,
                                cumulativeBBResult, h.sessionData, bigBlindSize);
      r := r + [point];
    }
  }

  /** `calculateRakeAdjustedData(originalData, rakePercentage, rakeCap_BB)`. */
  method CalculateRakeAdjustedData(originalData: seq<Hand>, rakePercentage: real, rakeCapBB: real, policy: EvPolicy)
    returns (adjustedData: seq<AdjustedHand>)
    ensures adjustedData == RakeAdjusted(originalData, rakePercentage, rakeCapBB, policy)
  {
    var handResults := ExtractHandResults(originalData);
    var adjustedHandResults := RakeAll(handResults, rakePercentage, rakeCapBB, policy);
    adjustedData := Accumulate(originalData, adjustedHandResults, policy);
  }

  // ---------------------------------------------------------------------
  // What the adjusted series promises.

  /** The results after rake, and their rakes. */
  function Results(data: seq<Hand>, rakePercentage: real, rakeCapBB: real, policy: EvPolicy): (r: seq<HandResult>)
    ensures |r| == |data| && SizesKnown(r)
  {
    RakeAll(HandDeltas(data), rakePercentage, rakeCapBB, policy)
  }

  /** Every adjusted point carries the label and time of its hand, and
      cash plus rake so far is the original cumulative amount so far. */
  lemma {:induction false} AmountConserved(data: seq<Hand>, rakePercentage: real, rakeCapBB: real,
                                           policy: EvPolicy, i: nat)
    requires i < |data|
    ensures var p := RakeAdjusted(data, rakePercentage, rakeCapBB, policy)[i];
      p.handLabel == data[i].handLabel && p.timestamp == data[i].timestamp &&
      p.amount + p.totalRake == data[i].amount
  {
    var results := Results(data, rakePercentage, rakeCapBB, policy);
    var cash, rake := Column(results, Cash), Column(results, Rake);
    var orig := Deltas(Amounts(data));
    var o, x, y := orig[..i + 1], cash[..i + 1], rake[..i + 1];
    forall j | 0 <= j < |o|
      ensures o[j] == x[j] + y[j]
    {
      var h := HandDeltas(data)[j];
      assert h.amount == orig[j];
    }
    SumPlus(x, y, o);
    SumDeltasPrefix(Amounts(data), i);
  }

  /** With `FullRake` the EV pays the same rake: EV plus rake so far is the
      original cumulative EV so far. */
  lemma {:induction false} FullRakeEvConserved(data: seq<Hand>, rakePercentage: real, rakeCapBB: real, i: nat)
    requires i < |data|
    ensures var p := RakeAdjusted(data, rakePercentage, rakeCapBB, FullRake)[i];
      p.ev + p.totalRake == data[i].ev
  {
    var results := Results(data, rakePercentage, rakeCapBB, FullRake);
    var ev, rake := Column(results, Equity), Column(results, Rake);
    var orig := Deltas(Evs(data));
    var o, x, y := orig[..i + 1], ev[..i + 1], rake[..i + 1];
    forall j | 0 <= j < |o|
      ensures o[j] == x[j] + y[j]
    {
      var h := HandDeltas(data)[j];
      assert h.ev == orig[j];
    }
    SumPlus(x, y, o);
    SumDeltasPrefix(Evs(data), i);
  }

  /** Sessions' big blinds are never negative. */
  predicate BigBlindsNonNegative(data: seq<Hand>)
  {
    forall i :: 0 <= i < |data| && data[i].sessionData.Some? && data[i].sessionData.value.bigBlind.Some? ==>
      data[i].sessionData.value.bigBlind.value >= 0.0
  }

  /** With a non-negative rate and cap and no negative big blind, the
      running rake total never decreases and never exceeds the caps of the
      hands so far. */
  lemma TotalRakeMonotone(data: seq<Hand>, rakePercentage: real, rakeCapBB: real,
                          policy: EvPolicy, i: nat, j: nat)
    requires i <= j < |data|
    requires rakePercentage >= 0.0 && rakeCapBB >= 0.0 && BigBlindsNonNegative(data)
    ensures var r := RakeAdjusted(data, rakePercentage, rakeCapBB, policy);
      0.0 <= r[i].totalRake <= r[j].totalRake
  {
    var results := Results(data, rakePercentage, rakeCapBB, policy);
    RakeNonNegative(data, rakePercentage, rakeCapBB, policy);
    SumPrefixMonotone(Column(results, Rake), i + 1, j + 1);
  }

  lemma RakeNonNegative(data: seq<Hand>, rakePercentage: real, rakeCapBB: real, policy: EvPolicy)
    requires rakePercentage >= 0.0 && rakeCapBB >= 0.0 && BigBlindsNonNegative(data)
    ensures forall k :: 0 <= k < |data| ==> Column(Results(data, rakePercentage, rakeCapBB, policy), Rake)[k] >= 0.0
  {
    var results := Results(data, rakePercentage, rakeCapBB, policy);
    forall k | 0 <= k < |data|
      ensures Column(results, Rake)[k] >= 0.0
    {
      var h := HandDeltas(data)[k];
      assert h.sessionData == data[k].sessionData;
      RakeBounds(h, rakePercentage, rakeCapBB, policy);
    }
  }

  /** Under the equity-share policy the running rake in big blinds, like the
      running rake itself, never decreases and is never negative. */
  lemma TotalRakeInBBMonotone(data: seq<Hand>, rakePercentage: real, rakeCapBB: real, i: nat, j: nat)
    requires i <= j < |data|
    requires rakePercentage >= 0.0 && rakeCapBB >= 0.0 && BigBlindsNonNegative(data)
    ensures var r := RakeAdjusted(data, rakePercentage, rakeCapBB, EquityShare);
      r[i].totalRakeInBB.Some? && r[j].totalRakeInBB.Some? &&
      0.0 <= r[i].totalRakeInBB.value <= r[j].totalRakeInBB.value
  {
    var results := Results(data, rakePercentage, rakeCapBB, EquityShare);
    RakeInBBNonNegative(data, rakePercentage, rakeCapBB, EquityShare);
    SumPrefixMonotone(Column(results, RakeInBB), i + 1, j + 1);
  }

  lemma RakeInBBNonNegative(data: seq<Hand>, rakePercentage: real, rakeCapBB: real, policy: EvPolicy)
    requires rakePercentage >= 0.0 && rakeCapBB >= 0.0 && BigBlindsNonNegative(data)
    ensures forall k :: 0 <= k < |data| ==> Column(Results(data, rakePercentage, rakeCapBB, policy), RakeInBB)[k] >= 0.0
  {
    var results := Results(data, rakePercentage, rakeCapBB, policy);
    forall k | 0 <= k < |data|
      ensures Column(results, RakeInBB)[k] >= 0.0
    {
      var h := HandDeltas(data)[k];
      assert h.sessionData == data[k].sessionData;
      RakeBounds(h, rakePercentage, rakeCapBB, policy);
      var r := results[k];
      assert r.appliedRake / r.bigBlindSize * r.bigBlindSize == r.appliedRake;
    }
  }

  /** With no rake rate (and no negative big blind), the adjusted series is
      the original one: cash and EV come back unchanged and no rake is
      charged. */
  lemma {:induction false} NoRateIsIdentity(data: seq<Hand>, rakeCapBB: real, policy: EvPolicy, i: nat)
    requires i < |data| && rakeCapBB >= 0.0 && BigBlindsNonNegative(data)
    ensures var p := RakeAdjusted(data, 0.0, rakeCapBB, policy)[i];
      p.amount == data[i].amount && p.ev == data[i].ev && p.totalRake == 0.0
  {
    var results := Results(data, 0.0, rakeCapBB, policy);
    var cash, ev, rake := Column(results, Cash), Column(results, Equity), Column(results, Rake);
    forall k | 0 <= k < |data|
      ensures cash[k] == Deltas(Amounts(data))[k] && ev[k] == Deltas(Evs(data))[k] && rake[k] == 0.0
    {
      var h := HandDeltas(data)[k];
      assert h.sessionData == data[k].sessionData;
      NoRateNoRake(h, rakeCapBB, policy);
    }
    assert cash[..i + 1] == Deltas(Amounts(data))[..i + 1];
    assert ev[..i + 1] == Deltas(Evs(data))[..i + 1];
    SumDeltasPrefix(Amounts(data), i);
    SumDeltasPrefix(Evs(data), i);
    SumZero(rake[..i + 1]);
  }

  lemma {:induction false} SumZero(xs: seq<real>)
    requires forall i :: 0 <= i < |xs| ==> xs[i] == 0.0
    ensures Sum(xs) == 0.0
    decreases |xs|
  {
    if |xs| > 0 {
      SumZero(xs[..|xs| - 1]);
    }
  }

  /** Taking differences of the adjusted series gives back the per-hand
      results after rake. */
  lemma AdjustedDeltas(data: seq<Hand>, rakePercentage: real, rakeCapBB: real, policy: EvPolicy)
    ensures var r := RakeAdjusted(data, rakePercentage, rakeCapBB, policy);
      var results := Results(data, rakePercentage, rakeCapBB, policy);
      Deltas(seq(|r|, i requires 0 <= i < |r| => r[i].amount)) == Column(results, Cash)
  {
    var r := RakeAdjusted(data, rakePercentage, rakeCapBB, policy);
    var results := Results(data, rakePercentage, rakeCapBB, policy);
    var cash := Column(results, Cash);
    assert seq(|r|, i requires 0 <= i < |r| => r[i].amount) == PrefixSums(cash);
    DeltasOfPrefixSums(cash);
  }
}
