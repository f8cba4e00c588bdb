/** The per-stake results tables under the rake-adjusted graph
    (extension/pageScript.js:756-860, extract-data-create-graph.js:732-835).
    Each table starts from the matcher's stake distribution, adds the
    per-hand differences of one cumulative series stake by stake, and is
    closed by a total line; the rake impact compares two of them. */
module StakeReport {
  import opened Common
  import opened Series
  import opened Chart
  import GreedyMatching
  import opened RakeAdjust

  /** A row of the stake distribution and of every results table. */
  type StakeRow = GreedyMatching.StakeRow

  /** A results table: the JavaScript object keyed by stakes, together with
      the order in which `Object.values` lists its entries (the order in
      which their keys were first written). */
  datatype Table = Table(order: seq<string>, rows: map<string, StakeRow>)

  /** The order lists every entry of the object exactly once. */
  ghost predicate Listed(t: Table)
  {
    Distinct(t.order) && forall k :: k in t.rows <==> k in t.order
  }

  // ---------------------------------------------------------------------
  // Opening the table (pageScript.js:760-784).

  /** The row a line of the stake distribution opens: its stakes, hands,
      big blind and share, with nothing added up yet. */
  function Blank(stake: StakeRow): StakeRow
  {
    stake.(winloss := 0.0, bbResult := 0.0, bbPer100 := 0.0)
  }

  /** The table the `forEach` over the stake distribution writes; a later line
      with the same stakes overwrites the earlier row but keeps its place. */
  function Opened(stakeDistribution: seq<StakeRow>): (t: Table)
    decreases |stakeDistribution|
  {
    if |stakeDistribution| == 0 then Table([], map[])
    else
      var n := |stakeDistribution| - 1;
      var t := Opened(stakeDistribution[..n]);
      AddLine(t, stakeDistribution[n])
  }

  /** One line of the `forEach`: a new key goes to the end of the order, a
      known one keeps its place, and either way the row is opened afresh. */
  function AddLine(t: Table, stake: StakeRow): (u: Table)
    ensures stake.stakes in u.rows && u.rows[stake.stakes] == Blank(stake)
    ensures forall k :: k in t.rows && k != stake.stakes ==> k in u.rows && u.rows[k] == t.rows[k]
  {
    Table(if stake.stakes in t.rows then t.order else t.order + [stake.stakes],
          t.rows[stake.stakes := Blank(stake)])
  }

  lemma OpenedSnoc(front: seq<StakeRow>, x: StakeRow)
    ensures Opened(front + [x]) == AddLine(Opened(front), x)
  {
    assert (front + [x])[..|front|] == front;
  }

  /** A row opened under stakes `k` with nothing added up yet. */
  predicate BlankRow(row: StakeRow, k: string)
  {
    row.stakes == k && row.winloss == 0.0 && row.bbResult == 0.0
  }

  /** The opened table lists each of its rows once, has a row for every
      line, and every row starts from nothing under its own stakes. */
  lemma OpenedFacts(stakeDistribution: seq<StakeRow>)
    ensures var t := Opened(stakeDistribution);
      Listed(t) &&
      (forall i :: 0 <= i < |stakeDistribution| ==> stakeDistribution[i].stakes in t.rows) &&
      (forall k :: k in t.rows ==>
         t.rows[k].stakes == k && t.rows[k].winloss == 0.0 && t.rows[k].bbResult == 0.0)
  {
    OpenedListed(stakeDistribution);
    OpenedHasLines(stakeDistribution);
    OpenedBlank(stakeDistribution);
  }

  lemma {:induction false} OpenedListed(stakeDistribution: seq<StakeRow>)
    ensures Listed(Opened(stakeDistribution))
    decreases |stakeDistribution|
  {
    if |stakeDistribution| > 0 {
      var n := |stakeDistribution| - 1;
      OpenedListed(stakeDistribution[..n]);
      ListedStep(Opened(stakeDistribution[..n]), stakeDistribution[n]);
    }
  }

  lemma ListedStep(t: Table, x: StakeRow)
    requires Listed(t)
    ensures Listed(AddLine(t, x))
  {
    if x.stakes !in t.rows {
      var o := t.order + [x.stakes];
      forall i, j | 0 <= i < j < |o| ensures o[i] != o[j] {
        if j == |t.order| {
          assert o[i] == t.order[i];
        }
      }
    }
  }

  lemma {:induction false} OpenedHasLines(stakeDistribution: seq<StakeRow>)
    ensures forall i :: 0 <= i < |stakeDistribution| ==> stakeDistribution[i].stakes in Opened(stakeDistribution).rows
    decreases |stakeDistribution|
  {
    if |stakeDistribution| > 0 {
      var n := |stakeDistribution| - 1;
      var front := stakeDistribution[..n];
      OpenedHasLines(front);
      var t := Opened(front);
      assert Opened(stakeDistribution).rows == t.rows[stakeDistribution[n].stakes := Blank(stakeDistribution[n])];
      forall i | 0 <= i < n ensures stakeDistribution[i].stakes in t.rows {
        assert front[i] == stakeDistribution[i];
      }
    }
  }

  lemma {:induction false} OpenedBlank(stakeDistribution: seq<StakeRow>)
    ensures forall k :: k in Opened(stakeDistribution).rows ==> BlankRow(Opened(stakeDistribution).rows[k], k)
    decreases |stakeDistribution|
  {
    if |stakeDistribution| > 0 {
      var n := |stakeDistribution| - 1;
      var t := Opened(stakeDistribution[..n]);
      var x := stakeDistribution[n];
      OpenedBlank(stakeDistribution[..n]);
      var rows := Opened(stakeDistribution).rows;
      assert rows == t.rows[x.stakes := Blank(x)];
      forall k | k in rows
        ensures BlankRow(rows[k], k)
      {
        if k != x.stakes {
          assert rows[k] == t.rows[k];
        }
      }
    }
  }

  function StakesOf(stakeDistribution: seq<StakeRow>): (r: seq<string>)
    ensures |r| == |stakeDistribution|
    ensures forall i :: 0 <= i < |r| ==> r[i] == stakeDistribution[i].stakes
  {
    seq(|stakeDistribution|, i requires 0 <= i < |stakeDistribution| => stakeDistribution[i].stakes)
  }

  /** With distinct stakes (as the matcher produces them) the table lists
      the distribution's lines in their order, one row per line. */
  lemma {:induction false} OpenedDistinct(stakeDistribution: seq<StakeRow>)
    requires Distinct(StakesOf(stakeDistribution))
    ensures Opened(stakeDistribution).order == StakesOf(stakeDistribution)
    ensures forall i :: 0 <= i < |stakeDistribution| ==>
      stakeDistribution[i].stakes in Opened(stakeDistribution).rows &&
      Opened(stakeDistribution).rows[stakeDistribution[i].stakes] == Blank(stakeDistribution[i])
    decreases |stakeDistribution|
  {
    if |stakeDistribution| > 0 {
      var n := |stakeDistribution| - 1;
      var front := stakeDistribution[..n];
      var x := stakeDistribution[n];
      DistinctStakesLast(stakeDistribution);
      OpenedDistinct(front);
      assert stakeDistribution == front + [x];
      OpenedExtend(front, x);
    }
  }

  /** Distinct stakes stay distinct on a prefix, and the last line's stakes
      are new. */
  lemma DistinctStakesLast(stakeDistribution: seq<StakeRow>)
    requires |stakeDistribution| > 0 && Distinct(StakesOf(stakeDistribution))
    ensures var n := |stakeDistribution| - 1;
      Distinct(StakesOf(stakeDistribution[..n])) &&
      forall i :: 0 <= i < n ==> stakeDistribution[..n][i].stakes != stakeDistribution[n].stakes
  {
    var n := |stakeDistribution| - 1;
    var ks := StakesOf(stakeDistribution);
    assert StakesOf(stakeDistribution[..n]) == ks[..n];
    forall i | 0 <= i < n
      ensures stakeDistribution[..n][i].stakes != stakeDistribution[n].stakes
    {
      assert ks[i] != ks[n];
    }
  }

  lemma OpenedExtend(front: seq<StakeRow>, x: StakeRow)
    requires Opened(front).order == StakesOf(front)
    requires forall i :: 0 <= i < |front| ==>
      front[i].stakes in Opened(front).rows && Opened(front).rows[front[i].stakes] == Blank(front[i])
    requires forall i :: 0 <= i < |front| ==> front[i].stakes != x.stakes
    ensures Opened(front + [x]).order == StakesOf(front + [x])
    ensures forall i :: 0 <= i < |front| + 1 ==>
      (front + [x])[i].stakes in Opened(front + [x]).rows &&
      Opened(front + [x]).rows[(front + [x])[i].stakes] == Blank((front + [x])[i])
  {
    OpenedSnoc(front, x);
    OpenedListed(front);
    FreshLine(Opened(front), front, x);
  }

  /** A last line with new stakes appends its row to a table that lists
      the earlier lines in order. */
  lemma FreshLine(t: Table, front: seq<StakeRow>, x: StakeRow)
    requires Listed(t) && t.order == StakesOf(front)
    requires forall i :: 0 <= i < |front| ==> front[i].stakes in t.rows && t.rows[front[i].stakes] == Blank(front[i])
    requires forall i :: 0 <= i < |front| ==> front[i].stakes != x.stakes
    ensures AddLine(t, x).order == StakesOf(front + [x])
    ensures forall i :: 0 <= i < |front| + 1 ==>
      (front + [x])[i].stakes in AddLine(t, x).rows &&
      AddLine(t, x).rows[(front + [x])[i].stakes] == Blank((front + [x])[i])
  {
    assert x.stakes !in t.order;
    assert x.stakes !in t.rows;
    assert StakesOf(front + [x]) == StakesOf(front) + [x.stakes];
    forall i | 0 <= i < |front| + 1
      ensures (front + [x])[i].stakes in AddLine(t, x).rows &&
              AddLine(t, x).rows[(front + [x])[i].stakes] == Blank((front + [x])[i])
    {
      if i < |front| {
        assert (front + [x])[i] == front[i];
      }
    }
  }

  method OpenStakes(stakeDistribution: seq<StakeRow>) returns (t: Table)
    ensures t == Opened(stakeDistribution)
  {
    var order: seq<string> := [];
    var rows: map<string, StakeRow> := map[];
    for i := 0 to |stakeDistribution|
      invariant Table(order, rows) == Opened(stakeDistribution[..i])
    {
      var stake := stakeDistribution[i];
      assert stakeDistribution[..i + 1][..i] == stakeDistribution[..i];
      if stake.stakes !in rows {
        order := order + [stake.stakes];
      }
      rows := rows[stake.stakes := Blank(stake)];
    }
    assert stakeDistribution[..|stakeDistribution|] == stakeDistribution;
    t := Table(order, rows);
  }

  // ---------------------------------------------------------------------
  // Adding the hands up stake by stake (pageScript.js:786-813).

  /** The stakes a hand is counted under, or `None` where the loop passes
      it by: falsy stakes, a falsy big blind, or stakes without a row. */
  function StakeKey(hand: AdjustedHand, t: Table): Option<string>
  {
    match hand.sessionData
    case None => None
    case Some(sd) =>
      if TruthyString(sd.stakes) && hand.bigBlindSize != 0.0 && sd.stakes.value in t.rows
      then sd.stakes else None
  }

  function StakeKeys(hands: seq<AdjustedHand>, t: Table): (r: seq<Option<string>>)
    ensures |r| == |hands|
    ensures forall i :: 0 <= i < |hands| ==> r[i] == StakeKey(hands[i], t)
  {
    seq(|hands|, i requires 0 <= i < |hands| => StakeKey(hands[i], t))
  }

  /** Every hand's result in big blinds; a hand whose big blind is 0 is
      passed by, so its value here never counts. */
  function InBB(hands: seq<AdjustedHand>, amounts: seq<real>): (r: seq<real>)
    requires |amounts| == |hands|
    ensures |r| == |hands|
  {
    seq(|hands|, i requires 0 <= i < |hands| =>
      if hands[i].bigBlindSize != 0.0 then amounts[i] / hands[i].bigBlindSize else 0.0)
  }

  /** `hand.sessionData.stakes` throws for a hand without session facts. */
  predicate HasSessions(hands: seq<AdjustedHand>)
  {
    forall i :: 0 <= i < |hands| ==> hands[i].sessionData.Some?
  }

  /** Row `k` after the loop: what it started with plus the results of the
      hands counted under `k`. */
  function Credited(row: StakeRow, k: string, results: seq<real>, inBB: seq<real>,
                    keys: seq<Option<string>>): StakeRow
    requires |results| == |inBB| == |keys|
  {
    row.(winloss := row.winloss + SumWhere(results, keys, Some(k)),
         bbResult := row.bbResult + SumWhere(inBB, keys, Some(k)))
  }

  /** The table after the loop over the cumulative series `values`
      (one value per hand, differenced hand by hand). */
  function Filled(t: Table, hands: seq<AdjustedHand>, values: seq<real>): (r: Table)
    requires |values| == |hands|
    ensures r.order == t.order && r.rows.Keys == t.rows.Keys
  {
    var d := Deltas(values);
    var keys := StakeKeys(hands, t);
    Table(t.order, map k | k in t.rows :: Credited(t.rows[k], k, d, InBB(hands, d), keys))
  }

  /** The loop body for one hand that is counted. */
  method CreditHand(rows: map<string, StakeRow>, key: string, amount: real, bigBlind: real)
    returns (r: map<string, StakeRow>)
    requires bigBlind != 0.0
    ensures r.Keys == rows.Keys
    ensures forall k :: k in rows && k != key ==> r[k] == rows[k]
    ensures key in rows ==> r[key] == rows[key].(winloss := rows[key].winloss + amount,
                                                bbResult := rows[key].bbResult + amount / bigBlind)
  {
    r := rows;
    if key in rows {
      var row := rows[key];
      r := rows[key := row.(winloss := row.winloss + amount, bbResult := row.bbResult + amount / bigBlind)];
    }
  }

  /** `rows` holds the results of the first `n` hands. */
  ghost predicate CreditedUpTo(t: Table, hands: seq<AdjustedHand>, values: seq<real>,
                               rows: map<string, StakeRow>, n: nat)
    requires |values| == |hands| && n <= |hands|
  {
    var d := Deltas(values);
    rows.Keys == t.rows.Keys &&
    forall k :: k in rows ==>
      rows[k] == Credited(t.rows[k], k, d[..n], InBB(hands, d)[..n], StakeKeys(hands, t)[..n])
  }

  /** The loop body for hand `index`, which has session facts. */
  method AddHand(t: Table, hands: seq<AdjustedHand>, values: seq<real>, index: nat,
                 rows: map<string, StakeRow>) returns (next: map<string, StakeRow>)
    requires |values| == |hands| && index < |hands| && hands[index].sessionData.Some?
    requires CreditedUpTo(t, hands, values, rows, index)
    ensures CreditedUpTo(t, hands, values, next, index + 1)
  {
    var hand := hands[index];
    var stakesKey := hand.sessionData.value.stakes;
    var bigBlind := hand.bigBlindSize;
    if !TruthyString(stakesKey) || bigBlind == 0.0 {
      next := rows;
      CreditedAfter(t, hands, values, rows, index, None, 0.0, 0.0, next);
    } else {
      var amount := if index == 0 then values[index] else values[index] - values[index - 1];
      next := CreditHand(rows, stakesKey.value, amount, bigBlind);
      var key := if stakesKey.value in rows then stakesKey else None;
      CreditedAfter(t, hands, values, rows, index, key, amount, amount / bigBlind, next);
    }
  }

  /** Hand `index` adds its result to the row it is counted under, `key`,
      and to no other row. */
  lemma CreditedAfter(t: Table, hands: seq<AdjustedHand>, values: seq<real>, rows: map<string, StakeRow>,
                      index: nat, key: Option<string>, amount: real, inBB: real, next: map<string, StakeRow>)
    requires |values| == |hands| && index < |hands|
    requires CreditedUpTo(t, hands, values, rows, index)
    requires key == StakeKey(hands[index], t)
    requires key.Some? ==> amount == Deltas(values)[index] && inBB == InBB(hands, Deltas(values))[index]
    requires next.Keys == rows.Keys
    requires forall k :: k in rows ==>
               next[k] == if key == Some(k)
                          then rows[k].(winloss := rows[k].winloss + amount, bbResult := rows[k].bbResult + inBB)
                          else rows[k]
    ensures CreditedUpTo(t, hands, values, next, index + 1)
  {
    var d := Deltas(values);
    var b := InBB(hands, d);
    var keys := StakeKeys(hands, t);
    forall k | k in next
      ensures next[k] == Credited(t.rows[k], k, d[..index + 1], b[..index + 1], keys[..index + 1])
    {
      SumWhereSnoc(d, keys, Some(k), index);
      SumWhereSnoc(b, keys, Some(k), index);
    }
  }

  /** After the last hand the rows are those of `Filled`. */
  lemma FilledFromCredited(t: Table, hands: seq<AdjustedHand>, values: seq<real>, rows: map<string, StakeRow>)
    requires |values| == |hands| && CreditedUpTo(t, hands, values, rows, |hands|)
    ensures Table(t.order, rows) == Filled(t, hands, values)
  {
    var d := Deltas(values);
    assert d[..|hands|] == d;
    assert InBB(hands, d)[..|hands|] == InBB(hands, d);
    assert StakeKeys(hands, t)[..|hands|] == StakeKeys(hands, t);
  }

  /** The `forEach` over the adjusted hands for one table; the scripts fill
      two tables in the same pass, each exactly as this method fills one. */
  method AddStakeResults(t: Table, hands: seq<AdjustedHand>, values: seq<real>) returns (r: Option<Table>)
    requires |values| == |hands|
    ensures HasSessions(hands) ==> r == Some(Filled(t, hands, values))
    ensures !HasSessions(hands) ==> r.None?
  {
    var rows := t.rows;
    for index := 0 to |hands|
      invariant HasSessions(hands[..index])
      invariant CreditedUpTo(t, hands, values, rows, index)
    {
      if hands[index].sessionData.None? {
        assert !HasSessions(hands) by {
          assert hands[index].sessionData.None?;
        }
        return None;
      }
      assert HasSessions(hands[..index + 1]) by {
        assert forall j :: 0 <= j < index ==> hands[..index + 1][j] == hands[..index][j];
      }
      rows := AddHand(t, hands, values, index, rows);
    }
    assert hands[..|hands|] == hands;
    FilledFromCredited(t, hands, values, rows);
    r := Some(Table(t.order, rows));
  }

  // ---------------------------------------------------------------------
  // Big blinds per 100 hands (pageScript.js:815-826).

  function WithBBPer100(row: StakeRow): StakeRow
  {
    if row.hands > 0 then row.(bbPer100 := (row.bbResult / row.hands as real) * 100.0) else row
  }

  /** The table after the `forEach` over `Object.values`: each row's
      win/loss and big-blind result stay, and a row with hands gets its rate. */
  function Closed(t: Table): (r: Table)
    ensures r.order == t.order && r.rows.Keys == t.rows.Keys
    ensures forall k :: k in t.rows ==>
      r.rows[k].winloss == t.rows[k].winloss && r.rows[k].bbResult == t.rows[k].bbResult &&
      r.rows[k].stakes == t.rows[k].stakes && r.rows[k].hands == t.rows[k].hands
  {
    Table(t.order, map k | k in t.rows :: WithBBPer100(t.rows[k]))
  }

  method SetBBPer100(t: Table) returns (r: Table)
    requires Listed(t)
    ensures r == Closed(t)
  {
    var rows := t.rows;
    for j := 0 to |t.order|
      invariant rows.Keys == t.rows.Keys
      invariant forall k :: k in rows ==>
        rows[k] == if k in t.order[..j] then WithBBPer100(t.rows[k]) else t.rows[k]
    {
      var key := t.order[j];
      FreshAt(t.order, j);
      rows := rows[key := WithBBPer100(rows[key])];
    }
    assert t.order[..|t.order|] == t.order;
    r := Table(t.order, rows);
  }

  // ---------------------------------------------------------------------
  // One whole table.

  /** The table for the cumulative series `values`, or `None` when a hand
      without session facts makes the loop throw. */
  function StakeTable(stakeDistribution: seq<StakeRow>, hands: seq<AdjustedHand>, values: seq<real>):
    (r: Option<Table>)
    requires |values| == |hands|
    ensures r.Some? <==> HasSessions(hands)
    ensures r.Some? ==> Listed(r.value) && r.value.order == Opened(stakeDistribution).order
  {
    OpenedFacts(stakeDistribution);
    if HasSessions(hands) then Some(Closed(Filled(Opened(stakeDistribution), hands, values))) else None
  }

  method BuildStakeTable(stakeDistribution: seq<StakeRow>, hands: seq<AdjustedHand>, values: seq<real>)
    returns (r: Option<Table>)
    requires |values| == |hands|
    ensures r == StakeTable(stakeDistribution, hands, values)
  {
    var t := OpenStakes(stakeDistribution);
    OpenedFacts(stakeDistribution);
    var filled := AddStakeResults(t, hands, values);
    if filled.None? {
      return None;
    }
    var closed := SetBBPer100(filled.value);
    r := Some(closed);
  }

  /** The rows in the order `Object.values` lists them. */
  function Entries(t: Table): (r: seq<StakeRow>)
    requires Listed(t)
    ensures |r| == |t.order|
    ensures forall i :: 0 <= i < |r| ==> r[i] == t.rows[t.order[i]]
  {
    seq(|t.order|, i requires 0 <= i < |t.order| => t.rows[t.order[i]])
  }

  datatype Measure = Won | InBigBlinds

  function Value(row: StakeRow, m: Measure): real
  {
    match m
    case Won => row.winloss
    case InBigBlinds => row.bbResult
  }

  /** One column of the rows added up in the order `Object.values` lists them. */
  function SumRows(order: seq<string>, rows: map<string, StakeRow>, m: Measure): real
    requires forall k :: k in order ==> k in rows
    decreases |order|
  {
    if |order| == 0 then 0.0
    else
      var n := |order| - 1;
      assert forall k :: k in order[..n] ==> k in order;
      SumRows(order[..n], rows, m) + Value(rows[order[n]], m)
  }

  // ---------------------------------------------------------------------
  // Total line and rake impact (pageScript.js:828-860,
  // extract-data-create-graph.js:816-835).

  datatype TotalRow = TotalRow(hands: int, winloss: real, bbResult: real, bbPer100: real)

  /** The total line: all hands of the chart, the series' last value as
      win/loss, and the stakes' big-blind results added up. */
  function TotalLine(totalHands: nat, final: real, t: Table): TotalRow
    requires totalHands > 0 && Listed(t)
  {
    TotalRow(totalHands, final, BBTotal(t), Per100(BBTotal(t), totalHands))
  }

  /** `Object.values(table).reduce((sum, stake) => sum + stake.bbResult, 0)`. */
  function BBTotal(t: Table): real
    requires Listed(t)
  {
    SumRows(t.order, t.rows, InBigBlinds)
  }

  /** `(amount / hands) * 100`. */
  function Per100(amount: real, hands: nat): real
    requires hands > 0
  {
    (amount / hands as real) * 100.0
  }

  /** The rake taken, in money, in big blinds and in big blinds per 100 hands;
      `None` stands for JavaScript's `undefined` and the `NaN` it leads to. */
  datatype RakeImpact = RakeImpact(amount: real, bbAmount: Option<real>, bbPer100: Option<real>)

  datatype Report = Report(
    first: seq<StakeRow>, firstTotal: TotalRow,
    second: seq<StakeRow>, secondTotal: TotalRow,
    rakeImpact: RakeImpact)

  function AdjustedAmounts(data: seq<AdjustedHand>): (r: seq<real>)
    ensures |r| == |data| && forall i :: 0 <= i < |data| ==> r[i] == data[i].amount
  {
    seq(|data|, i requires 0 <= i < |data| => data[i].amount)
  }

  function AdjustedEvs(data: seq<AdjustedHand>): (r: seq<real>)
    ensures |r| == |data| && forall i :: 0 <= i < |data| ==> r[i] == data[i].ev
  {
    seq(|data|, i requires 0 <= i < |data| => data[i].ev)
  }

  /** extension/pageScript.js: the adjusted win/loss table, the all-in EV
      table after rake, and the rake impact read off the series' last
      point. An empty series makes the script throw. */
  function EquityReport(originalData: seq<Hand>, rakeAdjustedData: seq<AdjustedHand>,
                        stakeDistribution: seq<StakeRow>): (r: Option<Report>)
    ensures r.Some? <==> |originalData| > 0 && |rakeAdjustedData| > 0 && HasSessions(rakeAdjustedData)
  {
    if |originalData| == 0 || |rakeAdjustedData| == 0 then None
    else
      match (StakeTable(stakeDistribution, rakeAdjustedData, AdjustedAmounts(rakeAdjustedData)),
             StakeTable(stakeDistribution, rakeAdjustedData, AdjustedEvs(rakeAdjustedData)))
      case (Some(adjusted), Some(ev)) =>
        Some(EquityTables(|originalData|, originalData[|originalData| - 1].amount,
                          rakeAdjustedData[|rakeAdjustedData| - 1], adjusted, ev))
      case _ => None
  }

  /** The report once both tables are filled: `totalHands` hands, the
      original series ending at `originalFinal`, the adjusted one at `last`. */
  function EquityTables(totalHands: nat, originalFinal: real, last: AdjustedHand, adjusted: Table, ev: Table): Report
    requires totalHands > 0 && Listed(adjusted) && Listed(ev)
  {
    Report(
      Entries(adjusted), TotalLine(totalHands, last.amount, adjusted),
      Entries(ev), TotalLine(totalHands, last.ev, ev),
      RakeImpact(
        originalFinal - last.amount,
        last.totalRakeInBB,
        match last.totalRakeInBB
        case Some(x) => Some(Per100(x, totalHands))
        case None => None))
  }

  /** extract-data-create-graph.js: the original and the adjusted win/loss
      tables, and the rake impact as the difference of their totals. The
      adjusted series is always derived from the original one, so the two
      have the same length. */
  function FullRakeReport(originalData: seq<Hand>, rakeAdjustedData: seq<AdjustedHand>,
                          stakeDistribution: seq<StakeRow>): (r: Option<Report>)
    requires |originalData| == |rakeAdjustedData|
    ensures r.Some? <==> |rakeAdjustedData| > 0 && HasSessions(rakeAdjustedData)
  {
    if |rakeAdjustedData| == 0 then None
    else
      match (StakeTable(stakeDistribution, rakeAdjustedData, Amounts(originalData)),
             StakeTable(stakeDistribution, rakeAdjustedData, AdjustedAmounts(rakeAdjustedData)))
      case (Some(original), Some(adjusted)) =>
        var n := |originalData|;
        Some(FullRakeTables(n, originalData[n - 1].amount, rakeAdjustedData[n - 1].amount, original, adjusted))
      case _ => None
  }

  function FullRakeTables(totalHands: nat, originalFinal: real, adjustedFinal: real,
                          original: Table, adjusted: Table): Report
    requires totalHands > 0 && Listed(original) && Listed(adjusted)
  {
    var o := TotalLine(totalHands, originalFinal, original);
    var a := TotalLine(totalHands, adjustedFinal, adjusted);
    Report(Entries(original), o, Entries(adjusted), a,
           RakeImpact(originalFinal - adjustedFinal,
                      Some(o.bbResult - a.bbResult), Some(o.bbPer100 - a.bbPer100)))
  }

  // ---------------------------------------------------------------------
  // What the tables promise.

  /** Adding the rows up stake by stake is adding up, over the hands, each
      hand's own value under its stakes. */
  lemma {:induction false} SumRowsOverKeys(order: seq<string>, rows: map<string, StakeRow>, m: Measure,
                                           xs: seq<real>, keys: seq<Option<string>>)
    requires |xs| == |keys|
    requires forall k :: k in order ==> k in rows && Value(rows[k], m) == SumWhere(xs, keys, Some(k))
    ensures SumRows(order, rows, m) == SumOverKeys(xs, keys, Somes(order))
    decreases |order|
  {
    if |order| > 0 {
      var n := |order| - 1;
      assert Somes(order)[..n] == Somes(order[..n]);
      assert forall k :: k in order[..n] ==> k in order;
      SumRowsOverKeys(order[..n], rows, m, xs, keys);
    }
  }

  /** The rows of a table add up to the results of exactly the hands the
      loop counts: win/loss to their differences, the big-blind column
      (and so the total line) to their results in big blinds. */
  lemma RowsPartitionHands(stakeDistribution: seq<StakeRow>, hands: seq<AdjustedHand>, values: seq<real>)
    requires |values| == |hands| && HasSessions(hands)
    ensures var t := StakeTable(stakeDistribution, hands, values).value;
      var keys := StakeKeys(hands, Opened(stakeDistribution));
      var d := Deltas(values);
      SumRows(t.order, t.rows, Won) == SumWhereIn(d, keys, Somes(t.order)) &&
      SumRows(t.order, t.rows, InBigBlinds) == SumWhereIn(InBB(hands, d), keys, Somes(t.order))
  {
    var t0 := Opened(stakeDistribution);
    var t := StakeTable(stakeDistribution, hands, values).value;
    var keys := StakeKeys(hands, t0);
    var d := Deltas(values);
    var b := InBB(hands, d);
    var f := Filled(t0, hands, values);
    OpenedFacts(stakeDistribution);
    assert forall k :: k in t.order ==> k in t.rows && t.rows[k].winloss == f.rows[k].winloss;
    SumRowsOverKeys(t.order, t.rows, Won, d, keys);
    SumRowsOverKeys(t.order, t.rows, InBigBlinds, b, keys);
    SomesDistinct(t.order);
    PartitionSum(d, keys, Somes(t.order));
    PartitionSum(b, keys, Somes(t.order));
  }

  /** Every hand is counted: it has stakes with a row and a big blind. */
  ghost predicate AllCounted(stakeDistribution: seq<StakeRow>, hands: seq<AdjustedHand>)
  {
    forall i :: 0 <= i < |hands| ==> StakeKey(hands[i], Opened(stakeDistribution)).Some?
  }

  /** When every hand is counted, the win/loss column adds up to the total
      line's win/loss: the last value of the series. */
  lemma RowsAddUpToTotal(stakeDistribution: seq<StakeRow>, hands: seq<AdjustedHand>, values: seq<real>)
    requires |values| == |hands| > 0 && HasSessions(hands) && AllCounted(stakeDistribution, hands)
    ensures var t := StakeTable(stakeDistribution, hands, values).value;
      SumRows(t.order, t.rows, Won) == TotalLine(|hands|, values[|values| - 1], t).winloss
  {
    var t0 := Opened(stakeDistribution);
    var t := StakeTable(stakeDistribution, hands, values).value;
    var keys := StakeKeys(hands, t0);
    RowsPartitionHands(stakeDistribution, hands, values);
    KeysListed(stakeDistribution, hands);
    SumWhereInAll(Deltas(values), keys, Somes(t.order));
    SumDeltas(values);
  }

  lemma KeysListed(stakeDistribution: seq<StakeRow>, hands: seq<AdjustedHand>)
    requires AllCounted(stakeDistribution, hands)
    ensures var t := Opened(stakeDistribution);
      forall i :: 0 <= i < |hands| ==> StakeKeys(hands, t)[i] in Somes(t.order)
  {
    var t := Opened(stakeDistribution);
    var keys := StakeKeys(hands, t);
    OpenedListed(stakeDistribution);
    forall i | 0 <= i < |keys|
      ensures keys[i] in Somes(t.order)
    {
      var k := keys[i].value;
      assert k in t.order;
      var j :| 0 <= j < |t.order| && t.order[j] == k;
      assert Somes(t.order)[j] == keys[i];
    }
  }

  // ---------------------------------------------------------------------
  // The rake impact against the rake the adjusted series charged.

  predicate Matched(data: seq<Hand>)
  {
    forall i :: 0 <= i < |data| ==> data[i].sessionData.Some?
  }

  /** The adjusted series keeps each hand's session facts. */
  lemma SessionsKept(data: seq<Hand>, rakePercentage: real, rakeCapBB: real, policy: EvPolicy)
    ensures var r := RakeAdjusted(data, rakePercentage, rakeCapBB, policy);
      forall i :: 0 <= i < |data| ==> r[i].sessionData == data[i].sessionData
  {
    var results := Results(data, rakePercentage, rakeCapBB, policy);
    forall i | 0 <= i < |data|
      ensures results[i].sessionData == data[i].sessionData
    {
      assert HandDeltas(data)[i].sessionData == data[i].sessionData;
    }
  }

  /** extension/pageScript.js reports as rake impact the rake the adjusted
      series charged: in money the last running rake total, in big blinds
      the sum over all hands of each hand's rake over its own big blind. */
  lemma EquityImpactIsChargedRake(data: seq<Hand>, rakePercentage: real, rakeCapBB: real,
                                  stakeDistribution: seq<StakeRow>)
    requires |data| > 0 && Matched(data)
    ensures var rad := RakeAdjusted(data, rakePercentage, rakeCapBB, EquityShare);
      var results := Results(data, rakePercentage, rakeCapBB, EquityShare);
      var r := EquityReport(data, rad, stakeDistribution);
      r.Some? &&
      r.value.rakeImpact.amount == rad[|data| - 1].totalRake &&
      r.value.rakeImpact.bbAmount == Some(Sum(Column(results, RakeInBB)))
  {
    var rad := RakeAdjusted(data, rakePercentage, rakeCapBB, EquityShare);
    var results := Results(data, rakePercentage, rakeCapBB, EquityShare);
    var n := |data|;
    SessionsKept(data, rakePercentage, rakeCapBB, EquityShare);
    EquityAssembled(data, rad, stakeDistribution);
    AmountConserved(data, rakePercentage, rakeCapBB, EquityShare, n - 1);
    LastRakeInBB(data, rakePercentage, rakeCapBB);
  }

  /** Under the equity share, the adjusted series' last running rake in big
      blinds is the sum of every hand's rake in big blinds. */
  lemma LastRakeInBB(data: seq<Hand>, rakePercentage: real, rakeCapBB: real)
    requires |data| > 0
    ensures RakeAdjusted(data, rakePercentage, rakeCapBB, EquityShare)[|data| - 1].totalRakeInBB ==
            Some(Sum(Column(Results(data, rakePercentage, rakeCapBB, EquityShare), RakeInBB)))
  {
    var results := Results(data, rakePercentage, rakeCapBB, EquityShare);
    var n := |data|;
    assert Column(results, RakeInBB)[..n] == Column(results, RakeInBB);
  }

  /** The equity report's rake impact is the drop between the two series'
      final amounts and the adjusted series' final rake in big blinds. */
  lemma EquityAssembled(data: seq<Hand>, rad: seq<AdjustedHand>, stakeDistribution: seq<StakeRow>)
    requires |data| > 0 && |rad| > 0 && HasSessions(rad)
    ensures var r := EquityReport(data, rad, stakeDistribution);
      r.Some? &&
      r.value.rakeImpact.amount == data[|data| - 1].amount - rad[|rad| - 1].amount &&
      r.value.rakeImpact.bbAmount == rad[|rad| - 1].totalRakeInBB
  {
    var n := |data|;
    var adjusted := StakeTable(stakeDistribution, rad, AdjustedAmounts(rad)).value;
    var ev := StakeTable(stakeDistribution, rad, AdjustedEvs(rad)).value;
    assert EquityReport(data, rad, stakeDistribution)
           == Some(EquityTables(n, data[n - 1].amount, rad[|rad| - 1], adjusted, ev));
  }

  /** Per hand, the adjusted result is the original one less the rake, and
      the adjusted series keeps each hand's big blind. */
  lemma AdjustedResults(data: seq<Hand>, rakePercentage: real, rakeCapBB: real)
    ensures var rad := RakeAdjusted(data, rakePercentage, rakeCapBB, FullRake);
      var results := Results(data, rakePercentage, rakeCapBB, FullRake);
      forall i :: 0 <= i < |data| ==>
        Deltas(AdjustedAmounts(rad))[i] == Deltas(Amounts(data))[i] - results[i].appliedRake &&
        rad[i].bigBlindSize == results[i].bigBlindSize
  {
    var rad := RakeAdjusted(data, rakePercentage, rakeCapBB, FullRake);
    var results := Results(data, rakePercentage, rakeCapBB, FullRake);
    AdjustedDeltas(data, rakePercentage, rakeCapBB, FullRake);
    assert AdjustedAmounts(rad) == seq(|rad|, i requires 0 <= i < |rad| => rad[i].amount);
    forall i | 0 <= i < |data|
      ensures results[i].amount == Deltas(Amounts(data))[i] - results[i].appliedRake
    {
      assert HandDeltas(data)[i].amount == Deltas(Amounts(data))[i];
    }
  }

  lemma DivDifference(x: real, y: real, bb: real)
    requires bb != 0.0
    ensures x / bb - y / bb == (x - y) / bb
  {
  }

  /** Per hand, the original result in big blinds less the adjusted one is
      the hand's rake in big blinds. */
  lemma HandRakeInBB(data: seq<Hand>, rakePercentage: real, rakeCapBB: real)
    ensures var rad := RakeAdjusted(data, rakePercentage, rakeCapBB, FullRake);
      var results := Results(data, rakePercentage, rakeCapBB, FullRake);
      var a := InBB(rad, Deltas(Amounts(data)));
      var b := InBB(rad, Deltas(AdjustedAmounts(rad)));
      var c := Column(results, RakeInBB);
      forall i :: 0 <= i < |data| ==> c[i] == a[i] - b[i]
  {
    var rad := RakeAdjusted(data, rakePercentage, rakeCapBB, FullRake);
    var results := Results(data, rakePercentage, rakeCapBB, FullRake);
    AdjustedResults(data, rakePercentage, rakeCapBB);
    RakeInBBDifference(rad, results, Deltas(Amounts(data)), Deltas(AdjustedAmounts(rad)));
  }

  lemma RakeInBBDifference(rad: seq<AdjustedHand>, results: seq<HandResult>, d: seq<real>, e: seq<real>)
    requires |rad| == |results| == |d| == |e| && SizesKnown(results)
    requires forall i :: 0 <= i < |rad| ==>
      e[i] == d[i] - results[i].appliedRake && rad[i].bigBlindSize == results[i].bigBlindSize
    ensures forall i :: 0 <= i < |rad| ==> Column(results, RakeInBB)[i] == InBB(rad, d)[i] - InBB(rad, e)[i]
  {
    forall i | 0 <= i < |rad|
      ensures Column(results, RakeInBB)[i] == InBB(rad, d)[i] - InBB(rad, e)[i]
    {
      DivDifference(d[i], e[i], results[i].bigBlindSize);
    }
  }

  /** extract-data-create-graph.js reports as rake impact in big blinds the
      difference of the original and adjusted totals: the rake, in each
      hand's big blinds, of exactly the hands the tables count. When every
      hand is counted it is the rake over all hands, the same figure the
      main script reads off the series. Its money figure is the last running
      rake total in both scripts. */
  lemma FullRakeImpactIsCountedRake(data: seq<Hand>, rakePercentage: real, rakeCapBB: real,
                                    stakeDistribution: seq<StakeRow>)
    requires |data| > 0 && Matched(data)
    ensures var rad := RakeAdjusted(data, rakePercentage, rakeCapBB, FullRake);
      var results := Results(data, rakePercentage, rakeCapBB, FullRake);
      var t := Opened(stakeDistribution);
      var r := FullRakeReport(data, rad, stakeDistribution);
      r.Some? &&
      r.value.rakeImpact.amount == rad[|data| - 1].totalRake &&
      r.value.rakeImpact.bbAmount
        == Some(SumWhereIn(Column(results, RakeInBB), StakeKeys(rad, t), Somes(t.order))) &&
      (AllCounted(stakeDistribution, rad) ==>
         r.value.rakeImpact.bbAmount == Some(Sum(Column(results, RakeInBB))))
  {
    FullRakeImpactInMoney(data, rakePercentage, rakeCapBB, stakeDistribution);
    var rad := RakeAdjusted(data, rakePercentage, rakeCapBB, FullRake);
    var results := Results(data, rakePercentage, rakeCapBB, FullRake);
    HandRakeInBB(data, rakePercentage, rakeCapBB);
    ImpactOfDifferences(data, rad, stakeDistribution, Column(results, RakeInBB));
  }

  lemma FullRakeImpactInMoney(data: seq<Hand>, rakePercentage: real, rakeCapBB: real,
                              stakeDistribution: seq<StakeRow>)
    requires |data| > 0 && Matched(data)
    ensures var rad := RakeAdjusted(data, rakePercentage, rakeCapBB, FullRake);
      var r := FullRakeReport(data, rad, stakeDistribution);
      HasSessions(rad) && r.Some? && r.value.rakeImpact.amount == rad[|data| - 1].totalRake
  {
    var rad := RakeAdjusted(data, rakePercentage, rakeCapBB, FullRake);
    SessionsKept(data, rakePercentage, rakeCapBB, FullRake);
    AmountConserved(data, rakePercentage, rakeCapBB, FullRake, |data| - 1);
    FullRakeImpactOf(data, rad, stakeDistribution);
  }

  lemma FullRakeImpactOf(data: seq<Hand>, rad: seq<AdjustedHand>, stakeDistribution: seq<StakeRow>)
    requires |data| == |rad| > 0 && Matched(data)
    requires forall i :: 0 <= i < |data| ==> rad[i].sessionData == data[i].sessionData
    requires rad[|data| - 1].amount + rad[|data| - 1].totalRake == data[|data| - 1].amount
    ensures var r := FullRakeReport(data, rad, stakeDistribution);
      HasSessions(rad) && r.Some? && r.value.rakeImpact.amount == rad[|data| - 1].totalRake
  {
    FullRakeAssembled(data, rad, stakeDistribution);
  }

  /** The big-blind rake impact of the variant script is the counted sum of
      the per-hand differences between the two series in big blinds. */
  lemma ImpactOfDifferences(data: seq<Hand>, rad: seq<AdjustedHand>, stakeDistribution: seq<StakeRow>,
                            c: seq<real>)
    requires |data| == |rad| == |c| > 0 && HasSessions(rad)
    requires var a := InBB(rad, Deltas(Amounts(data)));
      var b := InBB(rad, Deltas(AdjustedAmounts(rad)));
      forall i :: 0 <= i < |c| ==> c[i] == a[i] - b[i]
    ensures var t := Opened(stakeDistribution);
      var r := FullRakeReport(data, rad, stakeDistribution);
      r.Some? &&
      r.value.rakeImpact.bbAmount == Some(SumWhereIn(c, StakeKeys(rad, t), Somes(t.order))) &&
      (AllCounted(stakeDistribution, rad) ==> r.value.rakeImpact.bbAmount == Some(Sum(c)))
  {
    FullRakeAssembled(data, rad, stakeDistribution);
    CountedDifference(data, rad, stakeDistribution, c);
    FullRakeTablesBB(|data|, data[|data| - 1].amount, rad[|data| - 1].amount,
                     StakeTable(stakeDistribution, rad, Amounts(data)).value,
                     StakeTable(stakeDistribution, rad, AdjustedAmounts(rad)).value,
                     SumWhereIn(c, StakeKeys(rad, Opened(stakeDistribution)), Somes(Opened(stakeDistribution).order)));
    if AllCounted(stakeDistribution, rad) {
      FullRakeTablesBB(|data|, data[|data| - 1].amount, rad[|data| - 1].amount,
                       StakeTable(stakeDistribution, rad, Amounts(data)).value,
                       StakeTable(stakeDistribution, rad, AdjustedAmounts(rad)).value,
                       Sum(c));
    }
  }

  /** The two tables' big-blind totals differ by the counted sum of the
      per-hand differences. */
  lemma CountedDifference(data: seq<Hand>, rad: seq<AdjustedHand>, stakeDistribution: seq<StakeRow>,
                          c: seq<real>)
    requires |data| == |rad| == |c| > 0 && HasSessions(rad)
    requires var a := InBB(rad, Deltas(Amounts(data)));
      var b := InBB(rad, Deltas(AdjustedAmounts(rad)));
      forall i :: 0 <= i < |c| ==> c[i] == a[i] - b[i]
    ensures BBTotal(StakeTable(stakeDistribution, rad, Amounts(data)).value)
            - BBTotal(StakeTable(stakeDistribution, rad, AdjustedAmounts(rad)).value)
            == SumWhereIn(c, StakeKeys(rad, Opened(stakeDistribution)), Somes(Opened(stakeDistribution).order))
    ensures AllCounted(stakeDistribution, rad) ==>
            BBTotal(StakeTable(stakeDistribution, rad, Amounts(data)).value)
            - BBTotal(StakeTable(stakeDistribution, rad, AdjustedAmounts(rad)).value)
            == Sum(c)
  {
    var t := Opened(stakeDistribution);
    var keys := StakeKeys(rad, t);
    RowsPartitionHands(stakeDistribution, rad, Amounts(data));
    RowsPartitionHands(stakeDistribution, rad, AdjustedAmounts(rad));
    var a := InBB(rad, Deltas(Amounts(data)));
    var b := InBB(rad, Deltas(AdjustedAmounts(rad)));
    SumWhereInMinus(a, b, c, keys, Somes(t.order));
    if AllCounted(stakeDistribution, rad) {
      KeysListed(stakeDistribution, rad);
      SumWhereInAll(c, keys, Somes(t.order));
    }
  }

  /** The variant's report is assembled from its two tables. */
  lemma FullRakeAssembled(data: seq<Hand>, rad: seq<AdjustedHand>, stakeDistribution: seq<StakeRow>)
    requires |data| == |rad| > 0 && HasSessions(rad)
    ensures var n := |data|;
      var o := StakeTable(stakeDistribution, rad, Amounts(data)).value;
      var a := StakeTable(stakeDistribution, rad, AdjustedAmounts(rad)).value;
      var r := FullRakeReport(data, rad, stakeDistribution);
      r == Some(FullRakeTables(n, data[n - 1].amount, rad[n - 1].amount, o, a)) &&
      r.value.rakeImpact.amount == data[n - 1].amount - rad[n - 1].amount
  {
  }

  lemma FullRakeTablesBB(totalHands: nat, originalFinal: real, adjustedFinal: real,
                         original: Table, adjusted: Table, v: real)
    requires totalHands > 0 && Listed(original) && Listed(adjusted)
    requires BBTotal(original) - BBTotal(adjusted) == v
    ensures FullRakeTables(totalHands, originalFinal, adjustedFinal, original, adjusted).rakeImpact.bbAmount == Some(v)
  {
  }

  /** The rake of a hand does not depend on how the EV pays it, so both
      scripts charge the same rake in big blinds. */
  lemma RakeInBBPolicyFree(data: seq<Hand>, rakePercentage: real, rakeCapBB: real)
    ensures Column(Results(data, rakePercentage, rakeCapBB, FullRake), RakeInBB)
            == Column(Results(data, rakePercentage, rakeCapBB, EquityShare), RakeInBB)
  {
  }
}
