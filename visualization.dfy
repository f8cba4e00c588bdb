/** extension/refactored/visualization.js: the numbers behind the
    refactored pipeline's summary card and per-stake table, and the colour
    rule for the values it prints. */
module Visualization {
  import opened Common
  import opened Strings
  import opened Series
  import opened Sorting
  import opened DataExtraction
  import opened Calculations

  // ---------------------------------------------------------------------
  // Totals (visualization.js:124-147).

  /** The properties of a chart point the script adds up. */
  datatype PointField = Cash | Ev | BigBlinds

  /** `point[property]`. */
  function FieldOf(p: ChartPoint, property: PointField): real
  {
    match property
    case Cash => p.c
    case Ev => p.ev
    case BigBlinds => p.bb
  }

  function FieldColumn(data: seq<ChartPoint>, property: PointField): (col: seq<real>)
    ensures |col| == |data| && forall i :: 0 <= i < |data| ==> col[i] == FieldOf(data[i], property)
  {
    seq(|data|, i requires 0 <= i < |data| => FieldOf(data[i], property))
  }

  /** `data.reduce((total, point) => total + point[property], 0)`: the sum
      of the named property over all points, 0 for no points. */
  function CalculateTotal(data: seq<ChartPoint>, property: PointField): (total: real)
    ensures total == Sum(FieldColumn(data, property))
    ensures |data| == 0 ==> total == 0.0
    decreases |data|
  {
    if |data| == 0 then 0.0
    else
      var n := |data| - 1;
      assert FieldColumn(data, property)[..n] == FieldColumn(data[..n], property);
      CalculateTotal(data[..n], property) + FieldOf(data[n], property)
  }

  /** Totals of two runs of points add up. */
  lemma CalculateTotalAppend(a: seq<ChartPoint>, b: seq<ChartPoint>, property: PointField)
    ensures CalculateTotal(a + b, property) == CalculateTotal(a, property) + CalculateTotal(b, property)
  {
    assert FieldColumn(a + b, property) == FieldColumn(a, property) + FieldColumn(b, property);
    SumAppend(FieldColumn(a, property), FieldColumn(b, property));
  }

  /** The summary card's rake amount, the rake-adjusted cash total minus
      the original one, is the rake the adjustment recorded as
      `totalRakeAmount`; the EV totals differ by the same amount. */
  lemma SummaryRakeAmount(points: seq<ChartPoint>, handsToSessions: map<int, Session>, config: RakeConfig)
    ensures CalculateTotal(AdjustedPoints(points, handsToSessions, config), Cash) - CalculateTotal(points, Cash)
         == Sum(Rakes(points, handsToSessions, config))
    ensures CalculateTotal(AdjustedPoints(points, handsToSessions, config), Ev) - CalculateTotal(points, Ev)
         == Sum(Rakes(points, handsToSessions, config))
  {
    var adjusted := AdjustedPoints(points, handsToSessions, config);
    var rakes := Rakes(points, handsToSessions, config);
    SumPlus(FieldColumn(points, Cash), rakes, FieldColumn(adjusted, Cash));
    SumPlus(FieldColumn(points, Ev), rakes, FieldColumn(adjusted, Ev));
  }

  // ---------------------------------------------------------------------
  // Value colours (visualization.js:242-255).

  const DefaultColor := "#f0f0f0"
  const PositiveColor := "#16d609"
  const NegativeColor := "#FF0000"

  predicate StartsWith(s: string, c: char)
  {
    |s| > 0 && s[0] == c
  }

  /** Green for a leading "+" or a "$" amount without a "-", red for a
      leading "-", the default colour for anything else and for a missing
      or empty value. */
  function GetValueColor(value: Option<string>): (color: string)
    ensures !TruthyString(value) ==> color == DefaultColor
    ensures TruthyString(value) && StartsWith(value.value, '+') ==> color == PositiveColor
    ensures TruthyString(value) && '$' in value.value && '-' !in value.value ==> color == PositiveColor
    ensures TruthyString(value) && StartsWith(value.value, '-') ==> color == NegativeColor
    ensures color == PositiveColor ==> TruthyString(value) && (StartsWith(value.value, '+') || ('$' in value.value && '-' !in value.value))
    ensures color == NegativeColor ==> TruthyString(value) && StartsWith(value.value, '-')
  {
    if !TruthyString(value) then DefaultColor
    else
      var v := value.value;
      if StartsWith(v, '+') || ('$' in v && '-' !in v) then PositiveColor
      else if StartsWith(v, '-') then NegativeColor
      else DefaultColor
  }

  /** A "$" amount is green when it has no minus sign and red when it
      starts with one ("-$12.50"); one with a minus sign elsewhere
      ("$-12.50") gets the default colour. */
  lemma DollarAmountColors(digits: string)
    requires '-' !in digits && '+' !in digits
    ensures GetValueColor(Some("$" + digits)) == PositiveColor
    ensures GetValueColor(Some("-$" + digits)) == NegativeColor
    ensures GetValueColor(Some("$-" + digits)) == DefaultColor
  {
    assert ("$" + digits)[0] == '$';
    assert ("-$" + digits)[0] == '-';
    var s := "$-" + digits;
    assert s[0] == '$' && s[1] == '-';
    assert forall k :: 0 <= k < |digits| ==> s[k + 2] == digits[k];
  }

  // ---------------------------------------------------------------------
  // Stake values and win rates (visualization.js:309-331).

  /** The big blind of a stakes text, the number after its first "/", or 0
      when it has none. `parseFloat` is a parameter. */
  function ParseStakeValue(stakeStr: string, parseFloat: string -> real): (value: real)
    ensures '/' !in stakeStr ==> value == 0.0
  {
    if '/' in stakeStr then
      assert IndexOfChar(stakeStr, '/').Some?;
      SplitFirst(stakeStr, '/', IndexOfChar(stakeStr, '/').value);
      parseFloat(Split(stakeStr, '/')[1])
    else 0.0
  }

  /** The table sorts by the same big blind that the session reader takes
      from the same stakes text. */
  lemma StakeValueIsBigBlind(stakeStr: string, parseFloat: string -> real)
    ensures ParseStakeValue(stakeStr, parseFloat) == SplitStakes(stakeStr, parseFloat).1
  {
  }

  /** Big blinds won per 100 hands, 0 when the stakes have no "/" or the
      big blind or the hand count is 0. */
  function CalculateWinRateBB(winLoss: real, hands: int, stakeStr: string, parseFloat: string -> real): (rate: real)
    ensures '/' !in stakeStr || ParseStakeValue(stakeStr, parseFloat) == 0.0 || hands == 0 ==> rate == 0.0
    ensures '/' in stakeStr && ParseStakeValue(stakeStr, parseFloat) != 0.0 && hands != 0 ==>
      rate * ParseStakeValue(stakeStr, parseFloat) * (hands as real) == winLoss * 100.0
  {
    if '/' in stakeStr then
      var bigBlind := ParseStakeValue(stakeStr, parseFloat);
      if bigBlind != 0.0 && hands != 0 then
        WinRateExact(winLoss, bigBlind, hands as real);
        (winLoss / bigBlind / (hands as real)) * 100.0
      else 0.0
    else 0.0
  }

  lemma WinRateExact(winLoss: real, bigBlind: real, hands: real)
    requires bigBlind != 0.0 && hands != 0.0
    ensures (winLoss / bigBlind / hands) * 100.0 * bigBlind * hands == winLoss * 100.0
  {
    var q := winLoss / bigBlind;
    assert q * bigBlind == winLoss;
    var r := q / hands;
    assert r * hands == q;
    calc {
      r * 100.0 * bigBlind * hands;
      == (r * hands) * bigBlind * 100.0;
      == q * bigBlind * 100.0;
      == winLoss * 100.0;
    }
  }

  // ---------------------------------------------------------------------
  // Per-stake results (visualization.js:277-307).

  datatype StakeResult = StakeResult(stake: string, hands: nat, winLoss: real, ev: real, winRateBB: real)

  /** Every hand index of every group names a point. */
  predicate GroupsInRange(stakeGroups: StakeGroups, n: nat)
  {
    forall k, j :: k in stakeGroups.groups && 0 <= j < |stakeGroups.groups[k]| ==> stakeGroups.groups[k][j] < n
  }

  /** The row of one stake before sorting: the group's size and the sums of
      `c` and `ev` over its hands. */
  function StakeRowOf(stake: string, handsInStake: seq<nat>, data: seq<ChartPoint>, parseFloat: string -> real): StakeResult
    requires forall j :: 0 <= j < |handsInStake| ==> handsInStake[j] < |data|
  {
    var winLoss := SumAt(FieldColumn(data, Cash), handsInStake);
    StakeResult(stake, |handsInStake|, winLoss, SumAt(FieldColumn(data, Ev), handsInStake),
                CalculateWinRateBB(winLoss, |handsInStake|, stake, parseFloat))
  }

  /** One row per stake, in the order of the keys. */
  function UnsortedResults(stakeGroups: StakeGroups, data: seq<ChartPoint>, parseFloat: string -> real): (rows: seq<StakeResult>)
    requires forall k :: k in stakeGroups.order ==> k in stakeGroups.groups
    requires GroupsInRange(stakeGroups, |data|)
    ensures |rows| == |stakeGroups.order|
    ensures forall j :: 0 <= j < |rows| ==>
      rows[j] == StakeRowOf(stakeGroups.order[j], stakeGroups.groups[stakeGroups.order[j]], data, parseFloat)
  {
    seq(|stakeGroups.order|, j requires 0 <= j < |stakeGroups.order| =>
      StakeRowOf(stakeGroups.order[j], stakeGroups.groups[stakeGroups.order[j]], data, parseFloat))
  }

  function StakeKey(parseFloat: string -> real): StakeResult -> real
  {
    (r: StakeResult) => ParseStakeValue(r.stake, parseFloat)
  }

  /** The inner `forEach`: the sums of `c` and `ev` over one group. */
  method SumGroup(handsInStake: seq<nat>, data: seq<ChartPoint>) returns (totalWinLoss: real, totalEV: real)
    requires forall j :: 0 <= j < |handsInStake| ==> handsInStake[j] < |data|
    ensures totalWinLoss == SumAt(FieldColumn(data, Cash), handsInStake)
    ensures totalEV == SumAt(FieldColumn(data, Ev), handsInStake)
  {
    totalWinLoss, totalEV := 0.0, 0.0;
    for m := 0 to |handsInStake|
      invariant totalWinLoss == SumAt(FieldColumn(data, Cash), handsInStake[..m])
      invariant totalEV == SumAt(FieldColumn(data, Ev), handsInStake[..m])
    {
      var handIndex := handsInStake[m];
      totalWinLoss := totalWinLoss + data[handIndex].c;
      totalEV := totalEV + data[handIndex].ev;
      assert handsInStake[..m + 1] == handsInStake[..m] + [handIndex];
      SumAtSnoc(FieldColumn(data, Cash), handsInStake[..m], handIndex);
      SumAtSnoc(FieldColumn(data, Ev), handsInStake[..m], handIndex);
    }
    assert handsInStake[..|handsInStake|] == handsInStake;
  }

  /** `calculateStakeResults`: one row per stake group, sorted by big
      blind, highest first; stakes with the same big blind keep their key
      order. */
  method CalculateStakeResults(stakeGroups: StakeGroups, data: seq<ChartPoint>, parseFloat: string -> real)
    returns (results: seq<StakeResult>)
    requires forall k :: k in stakeGroups.order ==> k in stakeGroups.groups
    requires GroupsInRange(stakeGroups, |data|)
    ensures results == SortDesc(UnsortedResults(stakeGroups, data, parseFloat), StakeKey(parseFloat))
    ensures SortedDesc(results, StakeKey(parseFloat))
    ensures multiset(results) == multiset(UnsortedResults(stakeGroups, data, parseFloat))
  {
    var rows: seq<StakeResult> := [];
    var order := stakeGroups.order;
    for j := 0 to |order|
      invariant rows == UnsortedResults(stakeGroups, data, parseFloat)[..j]
    {
      var stake := order[j];
      var handsInStake := stakeGroups.groups[stake];
      var totalHands := |handsInStake|;
      var totalWinLoss, totalEV := SumGroup(handsInStake, data);
      rows := rows + [StakeResult(stake, totalHands, totalWinLoss, totalEV,
                                  CalculateWinRateBB(totalWinLoss, totalHands, stake, parseFloat))];
    }
    assert rows == UnsortedResults(stakeGroups, data, parseFloat);
    results := SortDesc(rows, StakeKey(parseFloat));
    SortDescSorted(rows, StakeKey(parseFloat));
    SortDescPermutation(rows, StakeKey(parseFloat));
  }

  /** On the groups the adjustment builds, each stake's row counts exactly
      the hands played at those stakes and adds up exactly their cash
      results and EVs. */
  lemma StakeRowsCountStakeHands(data: seq<ChartPoint>, handsToSessions: map<int, Session>,
                                 parseFloat: string -> real, j: nat)
    requires var g := Grouped(HandKeys(|data|, handsToSessions)); j < |g.order|
    ensures var keys := HandKeys(|data|, handsToSessions);
      var g := Grouped(keys);
      var row := UnsortedResults(g, data, parseFloat)[j];
      row.stake == g.order[j] &&
      row.hands == |IndicesWhere(keys, Some(row.stake))| &&
      row.winLoss == SumWhere(FieldColumn(data, Cash), keys, Some(row.stake)) &&
      row.ev == SumWhere(FieldColumn(data, Ev), keys, Some(row.stake))
  {
    var keys := HandKeys(|data|, handsToSessions);
    GroupedSpec(keys);
    var g := Grouped(keys);
    SumAtIndicesWhere(FieldColumn(data, Cash), keys, Some(g.order[j]));
    SumAtIndicesWhere(FieldColumn(data, Ev), keys, Some(g.order[j]));
  }
}
