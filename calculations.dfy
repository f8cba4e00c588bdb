/** extension/refactored/calculations.js: the refactored pipeline's rake
    adjustment. It groups the matched hands by stakes, works out the rake
    each winning pot would have paid, adds that rake back to the hand's
    cash result and EV, and labels the series as rake-adjusted. */
module Calculations {
  import opened Common
  import opened Series
  import opened DataExtraction

  /** The rake rule: a share of the pot, capped at a flat amount. */
  datatype RakeConfig = RakeConfig(percentage: real, cap: real)

  /** 5% of the pot, at most 3.0 whatever the stakes (calculations.js:17-20). */
  const DefaultRakeConfig := RakeConfig(0.05, 3.0)

  // ---------------------------------------------------------------------
  // Rake of one hand (calculations.js:90-102).

  /** The pot is the big blinds won times the big blind; the rake is the
      configured share of it, capped, and only a winning hand pays it. */
  function CalculateRakeAmount(bbWon: real, bigBlindSize: real, config: RakeConfig): (r: real)
    ensures bbWon <= 0.0 ==> r == 0.0
    ensures bbWon > 0.0 ==> r <= config.cap && r <= bbWon * bigBlindSize * config.percentage
    ensures bbWon > 0.0 ==> r == config.cap || r == bbWon * bigBlindSize * config.percentage
  {
    var potSize := AbsReal(bbWon) * bigBlindSize;
    var uncappedRake := potSize * config.percentage;
    var rakeAmount := Min(uncappedRake, config.cap);
    if bbWon > 0.0 then rakeAmount else 0.0
  }

  /** With a non-negative share, cap and big blind, the rake lies between
      0 and the cap. */
  lemma RakeBounds(bbWon: real, bigBlindSize: real, config: RakeConfig)
    requires config.percentage >= 0.0 && config.cap >= 0.0 && bigBlindSize >= 0.0
    ensures 0.0 <= CalculateRakeAmount(bbWon, bigBlindSize, config) <= config.cap
  {
    if bbWon > 0.0 {
      var pot := bbWon * bigBlindSize;
      assert pot >= 0.0;
      assert pot * config.percentage >= 0.0;
      assert bbWon * bigBlindSize * config.percentage == pot * config.percentage;
    }
  }

  /** The default cap is a flat 3.0, not a number of big blinds: every pot
      whose uncapped rake reaches 3.0 pays exactly 3.0, at any stakes. */
  lemma FlatCap(bbWon: real, bigBlindSize: real)
    requires bbWon > 0.0 && bbWon * bigBlindSize * 0.05 >= 3.0
    ensures CalculateRakeAmount(bbWon, bigBlindSize, DefaultRakeConfig) == 3.0
  {
  }

  // ---------------------------------------------------------------------
  // Grouping hands by stakes (calculations.js:72-88).

  /** The stake key of each of the first `n` hands: its session's
      `stakesStr`, or `None` for a hand with no session. */
  function HandKeys(n: nat, handsToSessions: map<int, Session>): (keys: seq<Option<string>>)
    ensures |keys| == n
    ensures forall i :: 0 <= i < n ==>
      keys[i] == (if i in handsToSessions then Some(handsToSessions[i].stakesStr) else None)
  {
    seq(n, i requires 0 <= i < n => if i in handsToSessions then Some(handsToSessions[i].stakesStr) else None)
  }

  /** `stakeGroups`: its keys in the order they are first met, and the hand
      indices filed under each key. */
  datatype StakeGroups = StakeGroups(order: seq<string>, groups: map<string, seq<nat>>)

  /** The groups of a sequence of stake keys, built as the loop builds
      them: a new key is appended to the order, and each position is
      pushed onto its key's list. */
  function Grouped(keys: seq<Option<string>>): (g: StakeGroups)
    ensures forall k :: k in g.order ==> k in g.groups
    ensures forall k, j :: k in g.groups && 0 <= j < |g.groups[k]| ==> g.groups[k][j] < |keys|
    decreases |keys|
  {
    if |keys| == 0 then StakeGroups([], map[])
    else
      var n := |keys| - 1;
      var g := Grouped(keys[..n]);
      match keys[n]
      case None => g
      case Some(k) =>
        var order := if k in g.groups then g.order else g.order + [k];
        var group := if k in g.groups then g.groups[k] else [];
        StakeGroups(order, g.groups[k := group + [n]])
  }

  /** Every key that occurs is listed once, and its list holds exactly
      the positions that carry it, in increasing order. */
  lemma {:induction false} GroupedSpec(keys: seq<Option<string>>)
    ensures var g := Grouped(keys);
      Distinct(g.order) &&
      (forall k :: k in g.groups <==> k in g.order) &&
      (forall k :: k in g.order <==> Some(k) in keys) &&
      (forall k :: k in g.groups ==> g.groups[k] == IndicesWhere(keys, Some(k)))
    decreases |keys|
  {
    if |keys| > 0 {
      var n := |keys| - 1;
      var g := Grouped(keys[..n]);
      GroupedSpec(keys[..n]);
      assert keys == keys[..n] + [keys[n]];
      forall k ensures IndicesWhere(keys, Some(k)) == IndicesWhere(keys[..n], Some(k)) + (if keys[n] == Some(k) then [n] else []) {
      }
      match keys[n]
      case None =>
      case Some(k) =>
        if k !in g.groups {
          assert Some(k) !in keys[..n];
          IndicesWhereAbsent(keys[..n], Some(k));
        }
    }
  }

  /** Files every hand that has a session under its session's stakes. */
  method GroupHandsByStakes(dataPoints: seq<ChartPoint>, handsToSessions: map<int, Session>)
    returns (stakeGroups: StakeGroups)
    ensures stakeGroups == Grouped(HandKeys(|dataPoints|, handsToSessions))
    ensures forall i :: 0 <= i < |dataPoints| && i in handsToSessions ==>
      handsToSessions[i].stakesStr in stakeGroups.groups && i in stakeGroups.groups[handsToSessions[i].stakesStr]
    ensures forall k, i :: k in stakeGroups.groups && i in stakeGroups.groups[k] ==>
      0 <= i < |dataPoints| && i in handsToSessions && handsToSessions[i].stakesStr == k
    ensures forall k :: k in stakeGroups.groups ==>
      forall a, b :: 0 <= a < b < |stakeGroups.groups[k]| ==> stakeGroups.groups[k][a] < stakeGroups.groups[k][b]
  {
    ghost var keys := HandKeys(|dataPoints|, handsToSessions);
    var order: seq<string> := [];
    var groups: map<string, seq<nat>> := map[];
    for handIndex := 0 to |dataPoints|
      invariant StakeGroups(order, groups) == Grouped(keys[..handIndex])
    {
      assert keys[..handIndex + 1][..handIndex] == keys[..handIndex];
      if handIndex in handsToSessions {
        var stakeKey := handsToSessions[handIndex].stakesStr;
        if stakeKey !in groups {
          order := order + [stakeKey];
          groups := groups[stakeKey := []];
        }
        groups := groups[stakeKey := groups[stakeKey] + [handIndex]];
      }
    }
    assert keys[..|dataPoints|] == keys;
    stakeGroups := StakeGroups(order, groups);
    GroupedSpec(keys);
  }

  // ---------------------------------------------------------------------
  // Adding the rake back (calculations.js:7-69).

  /** Each hand's rake under its session's big blind, 0 for a hand with no
      session. */
  function Rakes(points: seq<ChartPoint>, handsToSessions: map<int, Session>, config: RakeConfig): (r: seq<real>)
    ensures |r| == |points|
    ensures forall i :: 0 <= i < |points| ==>
      r[i] == (if i in handsToSessions then CalculateRakeAmount(points[i].bb, handsToSessions[i].bigBlind, config) else 0.0)
  {
    seq(|points|, i requires 0 <= i < |points| =>
      if i in handsToSessions then CalculateRakeAmount(points[i].bb, handsToSessions[i].bigBlind, config) else 0.0)
  }

  /** `dataPoint.c += rake; dataPoint.ev += rake`. */
  function AddRake(p: ChartPoint, rake: real): ChartPoint
  {
    p.(c := p.c + rake, ev := p.ev + rake)
  }

  /** The rake-adjusted series: every hand with a session gets its rake
      added back, every other hand is copied. */
  function AdjustedPoints(points: seq<ChartPoint>, handsToSessions: map<int, Session>, config: RakeConfig): (r: seq<ChartPoint>)
    ensures |r| == |points|
  {
    var rakes := Rakes(points, handsToSessions, config);
    seq(|points|, i requires 0 <= i < |points| =>
      if i in handsToSessions then AddRake(points[i], rakes[i]) else points[i])
  }

  /** The adjusted cash result of each hand with a session, 0 elsewhere:
      the terms of `totalRakeAdjustedAmount`. */
  function AdjustedCash(points: seq<ChartPoint>, handsToSessions: map<int, Session>, config: RakeConfig): (r: seq<real>)
    ensures |r| == |points|
  {
    var adjusted := AdjustedPoints(points, handsToSessions, config);
    seq(|points|, i requires 0 <= i < |points| => if i in handsToSessions then adjusted[i].c else 0.0)
  }

  /** The unadjusted cash result of each hand with a session, 0 elsewhere. */
  function GroupedCash(points: seq<ChartPoint>, handsToSessions: map<int, Session>): (r: seq<real>)
    ensures |r| == |points|
  {
    seq(|points|, i requires 0 <= i < |points| => if i in handsToSessions then points[i].c else 0.0)
  }

  /** What the adjustment does to one hand: time and big blinds won are
      kept, cash result and EV both rise by exactly the hand's rake, and a
      hand with no session is left as it was. */
  lemma AdjustedPointsShift(points: seq<ChartPoint>, handsToSessions: map<int, Session>, config: RakeConfig, i: nat)
    requires i < |points|
    ensures var p := AdjustedPoints(points, handsToSessions, config)[i];
      var rake := Rakes(points, handsToSessions, config)[i];
      p.time == points[i].time && p.bb == points[i].bb &&
      p.c == points[i].c + rake && p.ev == points[i].ev + rake &&
      (i !in handsToSessions ==> p == points[i])
  {
  }

  /** The adjusted total is the unadjusted total of the same hands plus
      the total rake. */
  lemma AdjustedTotalSplits(points: seq<ChartPoint>, handsToSessions: map<int, Session>, config: RakeConfig)
    ensures Sum(AdjustedCash(points, handsToSessions, config))
         == Sum(GroupedCash(points, handsToSessions)) + Sum(Rakes(points, handsToSessions, config))
  {
    SumPlus(GroupedCash(points, handsToSessions), Rakes(points, handsToSessions, config),
            AdjustedCash(points, handsToSessions, config));
  }

  /** Under the default rule every hand's rake is at most 3.0 and, with
      non-negative big blinds, never negative, so the total rake lies
      between 0 and 3.0 per hand. */
  lemma TotalRakeBounds(points: seq<ChartPoint>, handsToSessions: map<int, Session>)
    requires forall i :: i in handsToSessions ==> handsToSessions[i].bigBlind >= 0.0
    ensures 0.0 <= Sum(Rakes(points, handsToSessions, DefaultRakeConfig)) <= 3.0 * |points| as real
    decreases |points|
  {
    var rakes := Rakes(points, handsToSessions, DefaultRakeConfig);
    forall i | 0 <= i < |points| ensures 0.0 <= rakes[i] <= 3.0 {
      if i in handsToSessions {
        RakeBounds(points[i].bb, handsToSessions[i].bigBlind, DefaultRakeConfig);
      }
    }
    SumBounds(rakes, 3.0);
  }

  lemma {:induction false} SumBounds(xs: seq<real>, bound: real)
    requires forall i :: 0 <= i < |xs| ==> 0.0 <= xs[i] <= bound
    ensures 0.0 <= Sum(xs) <= bound * |xs| as real
    decreases |xs|
  {
    if |xs| > 0 {
      var n := |xs| - 1;
      SumSnoc(xs, n);
      SumBounds(xs[..n], bound);
    }
  }

  /** Exactly the hands of the stakes `done` and the hands `part` carry
      their adjusted point; every other hand still has its original one. */
  ghost predicate AdjustedData(points: seq<ChartPoint>, handsToSessions: map<int, Session>, config: RakeConfig,
                               done: seq<string>, part: seq<nat>, data: seq<ChartPoint>)
  {
    |data| == |points| &&
    (forall j :: 0 <= j < |part| ==> part[j] < |points|) &&
    (forall i :: 0 <= i < |points| ==>
      data[i] == if (i in handsToSessions && handsToSessions[i].stakesStr in done) || i in part
                 then AdjustedPoints(points, handsToSessions, config)[i] else points[i])
  }

  /** The loop's state after the stakes `done` and the first hands `part`
      of the current stake: exactly those hands are adjusted, and the two
      totals add up exactly their terms. */
  ghost predicate AdjustedUpTo(points: seq<ChartPoint>, handsToSessions: map<int, Session>, config: RakeConfig,
                               done: seq<string>, part: seq<nat>,
                               data: seq<ChartPoint>, totalRake: real, totalAdjusted: real)
  {
    var keys := HandKeys(|points|, handsToSessions);
    AdjustedData(points, handsToSessions, config, done, part, data) &&
    totalRake == SumOverKeys(Rakes(points, handsToSessions, config), keys, Somes(done))
               + SumAt(Rakes(points, handsToSessions, config), part) &&
    totalAdjusted == SumOverKeys(AdjustedCash(points, handsToSessions, config), keys, Somes(done))
                   + SumAt(AdjustedCash(points, handsToSessions, config), part)
  }

  /** Adjusting one more hand extends `part` by that hand. */
  lemma AdjustedDataSnoc(points: seq<ChartPoint>, handsToSessions: map<int, Session>, config: RakeConfig,
                         done: seq<string>, part: seq<nat>, h: nat, data: seq<ChartPoint>)
    requires AdjustedData(points, handsToSessions, config, done, part, data)
    requires h < |points|
    ensures AdjustedData(points, handsToSessions, config, done, part + [h],
                         data[h := AdjustedPoints(points, handsToSessions, config)[h]])
  {
  }

  /** The callback of the inner `forEach`: adds the rake back to hand
      `handsInStake[m]`. */
  method AdjustHand(points: seq<ChartPoint>, handsToSessions: map<int, Session>, config: RakeConfig,
                    ghost done: seq<string>, ghost stake: string, handsInStake: seq<nat>, m: nat,
                    data0: seq<ChartPoint>, totalRake0: real, totalAdjusted0: real)
    returns (data: seq<ChartPoint>, totalRake: real, totalAdjusted: real)
    requires handsInStake == IndicesWhere(HandKeys(|points|, handsToSessions), Some(stake))
    requires stake !in done && m < |handsInStake|
    requires AdjustedUpTo(points, handsToSessions, config, done, handsInStake[..m], data0, totalRake0, totalAdjusted0)
    ensures AdjustedUpTo(points, handsToSessions, config, done, handsInStake[..m + 1], data, totalRake, totalAdjusted)
  {
    ghost var keys := HandKeys(|points|, handsToSessions);
    ghost var adjusted := AdjustedPoints(points, handsToSessions, config);
    var handIndex := handsInStake[m];
    assert keys[handIndex] == Some(stake);
    assert handIndex !in handsInStake[..m];
    var dataPoint := data0[handIndex];
    assert dataPoint == points[handIndex];
    var session := handsToSessions[handIndex];
    var rakeAmount := CalculateRakeAmount(dataPoint.bb, session.bigBlind, config);
    totalRake := totalRake0 + rakeAmount;
    dataPoint := AddRake(dataPoint, rakeAmount);
    assert dataPoint == adjusted[handIndex];
    data := data0[handIndex := dataPoint];
    totalAdjusted := totalAdjusted0 + dataPoint.c;
    assert handsInStake[..m + 1] == handsInStake[..m] + [handIndex];
    AdjustedDataSnoc(points, handsToSessions, config, done, handsInStake[..m], handIndex, data0);
    SumAtSnoc(Rakes(points, handsToSessions, config), handsInStake[..m], handIndex);
    SumAtSnoc(AdjustedCash(points, handsToSessions, config), handsInStake[..m], handIndex);
  }

  /** Once every hand of `stake` is adjusted, `stake` counts as done. */
  lemma StakeDone(points: seq<ChartPoint>, handsToSessions: map<int, Session>, config: RakeConfig,
                  done: seq<string>, stake: string, data: seq<ChartPoint>, totalRake: real, totalAdjusted: real)
    requires AdjustedUpTo(points, handsToSessions, config, done,
                          IndicesWhere(HandKeys(|points|, handsToSessions), Some(stake)), data, totalRake, totalAdjusted)
    ensures AdjustedUpTo(points, handsToSessions, config, done + [stake], [], data, totalRake, totalAdjusted)
  {
    var keys := HandKeys(|points|, handsToSessions);
    SumOverKeysNext(Rakes(points, handsToSessions, config), keys, done, stake);
    SumOverKeysNext(AdjustedCash(points, handsToSessions, config), keys, done, stake);
    StakeDataDone(points, handsToSessions, config, done, stake, data);
  }

  lemma StakeDataDone(points: seq<ChartPoint>, handsToSessions: map<int, Session>, config: RakeConfig,
                      done: seq<string>, stake: string, data: seq<ChartPoint>)
    requires AdjustedData(points, handsToSessions, config, done,
                          IndicesWhere(HandKeys(|points|, handsToSessions), Some(stake)), data)
    ensures AdjustedData(points, handsToSessions, config, done + [stake], [], data)
  {
    var keys := HandKeys(|points|, handsToSessions);
    var group := IndicesWhere(keys, Some(stake));
    forall i | 0 <= i < |points|
      ensures (i in handsToSessions && handsToSessions[i].stakesStr in done + [stake])
          <==> (i in handsToSessions && handsToSessions[i].stakesStr in done) || i in group
    {
      if i in group {
        var j :| 0 <= j < |group| && group[j] == i;
        assert keys[group[j]] == Some(stake);
      }
    }
  }

  /** Adding whole stakes extends the sum over keys by that stake's sum. */
  lemma SumOverKeysNext(xs: seq<real>, keys: seq<Option<string>>, done: seq<string>, stake: string)
    requires |xs| == |keys|
    ensures SumOverKeys(xs, keys, Somes(done + [stake]))
         == SumOverKeys(xs, keys, Somes(done)) + SumAt(xs, IndicesWhere(keys, Some(stake)))
  {
    assert Somes(done + [stake])[..|done|] == Somes(done);
    SumAtIndicesWhere(xs, keys, Some(stake));
  }

  /** The inner `forEach`: adds the rake back to every hand of one stake. */
  method AdjustStake(points: seq<ChartPoint>, handsToSessions: map<int, Session>, config: RakeConfig,
                     ghost done: seq<string>, stake: string, handsInStake: seq<nat>,
                     data0: seq<ChartPoint>, totalRake0: real, totalAdjusted0: real)
    returns (data: seq<ChartPoint>, totalRake: real, totalAdjusted: real)
    requires handsInStake == IndicesWhere(HandKeys(|points|, handsToSessions), Some(stake))
    requires stake !in done
    requires AdjustedUpTo(points, handsToSessions, config, done, [], data0, totalRake0, totalAdjusted0)
    ensures AdjustedUpTo(points, handsToSessions, config, done + [stake], [], data, totalRake, totalAdjusted)
  {
    data, totalRake, totalAdjusted := data0, totalRake0, totalAdjusted0;
    assert handsInStake[..0] == [];
    for m := 0 to |handsInStake|
      invariant AdjustedUpTo(points, handsToSessions, config, done, handsInStake[..m], data, totalRake, totalAdjusted)
    {
      data, totalRake, totalAdjusted :=
        AdjustHand(points, handsToSessions, config, done, stake, handsInStake, m, data, totalRake, totalAdjusted);
    }
    assert handsInStake[..|handsInStake|] == handsInStake;
    StakeDone(points, handsToSessions, config, done, stake, data, totalRake, totalAdjusted);
  }

  /** The outer `forEach`: every stake of `stakeGroups` in turn. */
  method AdjustAllStakes(points: seq<ChartPoint>, handsToSessions: map<int, Session>, config: RakeConfig,
                         stakeGroups: StakeGroups)
    returns (data: seq<ChartPoint>, totalRake: real, totalAdjusted: real)
    requires stakeGroups == Grouped(HandKeys(|points|, handsToSessions))
    ensures data == AdjustedPoints(points, handsToSessions, config)
    ensures totalRake == Sum(Rakes(points, handsToSessions, config))
    ensures totalAdjusted == Sum(AdjustedCash(points, handsToSessions, config))
  {
    var order := stakeGroups.order;
    data, totalRake, totalAdjusted := points, 0.0, 0.0;
    for j := 0 to |order|
      invariant AdjustedUpTo(points, handsToSessions, config, order[..j], [], data, totalRake, totalAdjusted)
    {
      NextStake(HandKeys(|points|, handsToSessions), j);
      data, totalRake, totalAdjusted :=
        AdjustStake(points, handsToSessions, config, order[..j], order[j], stakeGroups.groups[order[j]],
                    data, totalRake, totalAdjusted);
    }
    assert order[..|order|] == order;
    GroupedSpec(HandKeys(|points|, handsToSessions));
    AllStakesDone(points, handsToSessions, config, order, data, totalRake, totalAdjusted);
  }

  /** The next stake of the outer loop is new, and its list is its hands. */
  lemma NextStake(keys: seq<Option<string>>, j: nat)
    requires j < |Grouped(keys).order|
    ensures var g := Grouped(keys);
      g.order[..j + 1] == g.order[..j] + [g.order[j]] && g.order[j] !in g.order[..j] &&
      g.groups[g.order[j]] == IndicesWhere(keys, Some(g.order[j]))
  {
    GroupedSpec(keys);
    FreshAt(Grouped(keys).order, j);
  }

  /** Once every stake is done, every hand with a session is adjusted and
      the sums over the stakes are the sums over all hands, as the hands
      without a session contribute 0. */
  lemma AllStakesDone(points: seq<ChartPoint>, handsToSessions: map<int, Session>, config: RakeConfig,
                      order: seq<string>, data: seq<ChartPoint>, totalRake: real, totalAdjusted: real)
    requires Distinct(order)
    requires forall k :: k in order <==> Some(k) in HandKeys(|points|, handsToSessions)
    requires AdjustedUpTo(points, handsToSessions, config, order, [], data, totalRake, totalAdjusted)
    ensures data == AdjustedPoints(points, handsToSessions, config)
    ensures totalRake == Sum(Rakes(points, handsToSessions, config))
    ensures totalAdjusted == Sum(AdjustedCash(points, handsToSessions, config))
  {
    var keys := HandKeys(|points|, handsToSessions);
    SomesDistinct(order);
    forall i | 0 <= i < |points| && i in handsToSessions
      ensures handsToSessions[i].stakesStr in order && keys[i] in Somes(order)
    {
      assert keys[i] in keys;
      var j :| 0 <= j < |order| && order[j] == handsToSessions[i].stakesStr;
      assert Somes(order)[j] == keys[i];
    }
    PartitionSum(Rakes(points, handsToSessions, config), keys, Somes(order));
    SumWhereInAll(Rakes(points, handsToSessions, config), keys, Somes(order));
    PartitionSum(AdjustedCash(points, handsToSessions, config), keys, Somes(order));
    SumWhereInAll(AdjustedCash(points, handsToSessions, config), keys, Somes(order));
  }

  // ---------------------------------------------------------------------
  // Labels (calculations.js:104-120).

  /** The series labels: cash result `c`, EV `ev`, and whatever other
      labels the object carries. */
  datatype Labels = Labels(c: Option<string>, ev: Option<string>, others: map<string, string>)

  /** ` (Rake-Adj ${percentage * 100}%)`, with the percentage already
      written out as text (JavaScript number formatting is not modelled). */
  function RakeAdjSuffix(percentText: string): string
  {
    " (Rake-Adj " + percentText + "%)"
  }

  function Suffixed(text: Option<string>, suffix: string): Option<string>
  {
    if TruthyString(text) then Some(text.value + suffix) else text
  }

  /** Missing labels become `{}`; otherwise the labels are copied and the
      present, non-empty `c` and `ev` labels get the suffix. */
  function UpdateLabels(labels: Option<Labels>, percentText: string): (r: Labels)
    ensures labels.None? ==> r == Labels(None, None, map[])
    ensures labels.Some? ==> r.others == labels.value.others
    ensures labels.Some? ==> r.c.Some? == labels.value.c.Some? && r.ev.Some? == labels.value.ev.Some?
    ensures labels.Some? && TruthyString(labels.value.c) ==>
      |r.c.value| == |labels.value.c.value| + |RakeAdjSuffix(percentText)| &&
      r.c.value[..|labels.value.c.value|] == labels.value.c.value &&
      r.c.value[|labels.value.c.value|..] == RakeAdjSuffix(percentText)
    ensures labels.Some? && TruthyString(labels.value.ev) ==>
      |r.ev.value| == |labels.value.ev.value| + |RakeAdjSuffix(percentText)| &&
      r.ev.value[..|labels.value.ev.value|] == labels.value.ev.value &&
      r.ev.value[|labels.value.ev.value|..] == RakeAdjSuffix(percentText)
    ensures labels.Some? && !TruthyString(labels.value.c) ==> r.c == labels.value.c
    ensures labels.Some? && !TruthyString(labels.value.ev) ==> r.ev == labels.value.ev
  {
    match labels
    case None => Labels(None, None, map[])
    case Some(l) =>
      var suffix := RakeAdjSuffix(percentText);
      Labels(Suffixed(l.c, suffix), Suffixed(l.ev, suffix), l.others)
  }

  /** Removes one trailing rake-adjustment suffix, if there is one. */
  function StripSuffix(text: Option<string>, suffix: string): Option<string>
  {
    match text
    case None => None
    case Some(s) =>
      if |suffix| <= |s| && s[|s| - |suffix|..] == suffix then Some(s[..|s| - |suffix|]) else text
  }

  /** Stripping the suffix from the updated labels gives back the original
      `c` and `ev` labels, so `updateLabels` loses nothing. */
  lemma UpdateLabelsRoundTrip(l: Labels, percentText: string)
    ensures StripSuffix(UpdateLabels(Some(l), percentText).c, RakeAdjSuffix(percentText)) == l.c
    ensures StripSuffix(UpdateLabels(Some(l), percentText).ev, RakeAdjSuffix(percentText)) == l.ev
  {
    SuffixRoundTrip(l.c, RakeAdjSuffix(percentText));
    SuffixRoundTrip(l.ev, RakeAdjSuffix(percentText));
  }

  lemma SuffixRoundTrip(text: Option<string>, suffix: string)
    requires |suffix| > 0
    ensures StripSuffix(Suffixed(text, suffix), suffix) == text
  {
    if TruthyString(text) {
      var s := text.value + suffix;
      assert s[|s| - |suffix|..] == suffix;
      assert s[..|s| - |suffix|] == text.value;
    } else if text.Some? {
      assert text.value == "";
    }
  }

  // ---------------------------------------------------------------------
  // The whole transform (calculations.js:7-69).

  /** The chart data: its point series and its labels, either of which
      may be missing. */
  datatype GraphData = GraphData(data: Option<seq<ChartPoint>>, labels: Option<Labels>)

  datatype RakeMetadata = RakeMetadata(
    totalRakeAmount: real,
    totalRakeAdjustedAmount: real,
    rakeConfig: RakeConfig,
    stakeGroups: StakeGroups)

  datatype RakeAdjustedData = RakeAdjustedData(data: seq<ChartPoint>, labels: Labels, rakeMetadata: RakeMetadata)

  /** `null` when the data, its series or the matching is missing;
      otherwise the adjusted series, the relabelled labels and the totals.
      The input is a value, so the copy the source makes before editing is
      the only series the method changes. */
  method CalculateRakeAdjustedData(originalData: Option<GraphData>, handsToSessions: Option<map<int, Session>>)
    returns (r: Option<RakeAdjustedData>)
    ensures r.None? <==> originalData.None? || originalData.value.data.None? || handsToSessions.None?
    ensures r.Some? ==>
      var points := originalData.value.data.value;
      var hs := handsToSessions.value;
      r.value.data == AdjustedPoints(points, hs, DefaultRakeConfig) &&
      r.value.labels == UpdateLabels(originalData.value.labels, "5") &&
      r.value.rakeMetadata == RakeMetadata(
        Sum(Rakes(points, hs, DefaultRakeConfig)),
        Sum(AdjustedCash(points, hs, DefaultRakeConfig)),
        DefaultRakeConfig,
        Grouped(HandKeys(|points|, hs)))
  {
    if originalData.None? || originalData.value.data.None? || handsToSessions.None? {
      return None;
    }
    var rakeConfig := DefaultRakeConfig;
    var points := originalData.value.data.value;
    var hs := handsToSessions.value;
    var stakeGroups := GroupHandsByStakes(points, hs);
    var data, totalRakeAmount, totalRakeAdjustedAmount := AdjustAllStakes(points, hs, rakeConfig, stakeGroups);
    // 0.05 * 100 prints as "5".
    var labels := UpdateLabels(originalData.value.labels, "5");
    r := Some(RakeAdjustedData(data, labels,
      RakeMetadata(totalRakeAmount, totalRakeAdjustedAmount, rakeConfig, stakeGroups)));
  }
}
