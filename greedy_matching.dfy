/** `matchHandsToSessions` of extension/pageScript.js:240-391 (and its copy in
    extract-data-create-graph.js:246-427): one pass over the hands that
    picks a session per hand, bumps that session's `assignedHands`, its
    `sessionStats` entry and the stake bucket of `stakeDistribution`, and
    copies the session's facts onto the hand. */
module GreedyMatching {
  import opened Common
  import opened Series
  import opened Chart
  import opened GreedySelection

  /** `sessionStats[i]`: what the table promised and what the pass matched. */
  datatype SessionStat = SessionStat(expectedHands: int, matchedHands: int, bigBlind: Option<real>, stakes: Option<string>)

  /** One bucket of `stakeDistribution`. */
  datatype StakeInfo = StakeInfo(count: int, bigBlind: real, totalAmount: real)

  /** Everything the `forEach` over the hands updates: the sessions (their
      `assignedHands`), `sessionStats`, the stake buckets in key insertion
      order, `unmatchedHandsCount` and the copied hands. */
  datatype State = State(
    sessions: seq<Session>,
    stats: seq<SessionStat>,
    order: seq<string>,
    dist: map<string, StakeInfo>,
    unmatched: int,
    matchedData: seq<Hand>)

  function InitialStats(sessions: seq<Session>): (r: seq<SessionStat>)
    ensures |r| == |sessions|
    ensures forall i :: 0 <= i < |sessions| ==>
              r[i] == SessionStat(sessions[i].hands, 0, sessions[i].bigBlind, sessions[i].stakes)
  {
    seq(|sessions|, i requires 0 <= i < |sessions| =>
      SessionStat(sessions[i].hands, 0, sessions[i].bigBlind, sessions[i].stakes))
  }

  function Initial(hands: seq<Hand>, sessions: seq<Session>): State
  {
    State(sessions, InitialStats(sessions), [], map[], 0, hands)
  }

  /** The bucket key: `matchedSession.stakes || "Unknown"`. */
  function StakesKey(s: Session): string
  {
    if TruthyString(s.stakes) then s.stakes.value else "Unknown"
  }

  /** The hand's own result: the first hand's cumulative amount, otherwise
      the difference to the hand numbered one lower. A label pointing
      outside the data makes the lookup throw (`None`). */
  function HandAmount(hands: seq<Hand>, i: nat): (r: Option<real>)
    requires i < |hands|
    ensures hands[i].handLabel == 1 ==> r == Some(hands[i].amount)
    ensures hands[i].handLabel != 1 && 0 <= hands[i].handLabel - 2 < |hands| ==>
              r == Some(hands[i].amount - hands[hands[i].handLabel - 2].amount)
    ensures hands[i].handLabel != 1 && !(0 <= hands[i].handLabel - 2 < |hands|) ==> r.None?
  {
    var h := hands[i];
    if h.handLabel == 1 then Some(h.amount)
    else if 0 <= h.handLabel - 2 < |hands| then Some(h.amount - hands[h.handLabel - 2].amount)
    else None
  }

  /** Labels numbered 1, 2, ... in order. */
  predicate DenseLabels(hands: seq<Hand>)
  {
    forall i :: 0 <= i < |hands| ==> hands[i].handLabel == i + 1
  }

  /** With dense labels the hand amounts are the per-hand differences of
      the cumulative series. */
  lemma HandAmountIsDelta(hands: seq<Hand>, i: nat)
    requires DenseLabels(hands) && i < |hands|
    ensures HandAmount(hands, i) == Some(Deltas(Amounts(hands))[i])
  {
  }

  ghost predicate KeysListed(order: seq<string>, dist: map<string, StakeInfo>)
  {
    Distinct(order) && forall k :: k in dist <==> k in order
  }

  /** What the bookkeeping needs of a choice among `n` sessions: a valid
      index; a matched hand always has a session; an unmatched hand has one
      (the highest-stakes session) exactly when there are sessions. */
  predicate ChoiceFits(c: Choice, n: nat)
  {
    (c.session.Some? ==> c.session.value < n) &&
    (!c.unmatched ==> c.session.Some?) &&
    (c.unmatched ==> (c.session.Some? <==> n > 0))
  }

  /** A rule that picks a session for a hand at a given time. */
  type Chooser = (seq<Session>, int) --> Choice

  ghost predicate Lawful(choose: Chooser, n: nat)
  {
    forall ss: seq<Session>, t: int :: |ss| == n ==> choose.requires(ss, t) && ChoiceFits(choose(ss, t), n)
  }

  /** The rule of the source: `Choose` with the highest-stakes session of the
      table the pass started from. */
  function GreedyChoice(sessions: seq<Session>): Chooser
  {
    var highest := HighestStakes(sessions);
    (ss: seq<Session>, t: int) requires highest.Some? ==> highest.value < |ss| => Choose(ss, t, highest)
  }

  lemma GreedyChoiceLawful(sessions: seq<Session>)
    ensures Lawful(GreedyChoice(sessions), |sessions|)
  {
    var highest := HighestStakes(sessions);
    forall ss: seq<Session>, t: int | |ss| == |sessions|
      ensures GreedyChoice(sessions).requires(ss, t) && ChoiceFits(GreedyChoice(sessions)(ss, t), |sessions|)
    {
      var c := Choose(ss, t, highest);
      assert GreedyChoice(sessions)(ss, t) == c;
    }
  }

  /** One hand of the pass once its session is chosen
      (extension/pageScript.js:324-355). */
  function Step(st: State, hands: seq<Hand>, i: nat, choice: Choice): (r: Option<State>)
    requires i < |hands| == |st.matchedData| && |st.stats| == |st.sessions|
    requires choice.session.Some? ==> choice.session.value < |st.sessions|
    ensures r.Some? ==> |r.value.sessions| == |st.sessions| && |r.value.stats| == |st.stats|
    ensures r.Some? ==> |r.value.matchedData| == |hands|
  {
    var unmatched := st.unmatched + (if choice.unmatched then 1 else 0);
    match choice.session
    case None => Some(st.(unmatched := unmatched))
    case Some(k) =>
      var s := st.sessions[k];
      var sessions := st.sessions[k := s.(assignedHands := s.assignedHands + 1)];
      var stats := if choice.unmatched then st.stats
                   else st.stats[k := st.stats[k].(matchedHands := st.stats[k].matchedHands + 1)];
      match HandAmount(hands, i)
      case None => None
      case Some(a) =>
        var buckets := AddToBucket(st.order, st.dist, StakesKey(s), OrElse(s.bigBlind, 0.0), a);
        var hand := st.matchedData[i].(sessionData := Some(SessionData(s.bigBlind, s.stakes, s.gameType)));
        Some(State(sessions, stats, buckets.0, buckets.1, unmatched, st.matchedData[i := hand]))
  }

  /** The state after the first `k` hands, `None` once a lookup threw. */
  function Run(hands: seq<Hand>, sessions: seq<Session>, choose: Chooser, k: nat): (r: Option<State>)
    requires k <= |hands| && Lawful(choose, |sessions|)
    ensures r.Some? ==> |r.value.sessions| == |sessions| && |r.value.stats| == |sessions|
    ensures r.Some? ==> |r.value.matchedData| == |hands|
    decreases k
  {
    if k == 0 then Some(Initial(hands, sessions))
    else
      match Run(hands, sessions, choose, k - 1)
      case None => None
      case Some(st) => Step(st, hands, k - 1, choose(st.sessions, st.matchedData[k - 1].timestamp))
  }

  /** What holds of the state after `k` hands: at most one bucket per hand,
      each bucket listed once, the hands from `k` on untouched and the
      earlier ones changed only in their session facts. */
  ghost predicate Shaped(st: State, hands: seq<Hand>, k: nat)
  {
    |st.matchedData| == |hands| && k <= |hands| &&
    |st.order| <= k && KeysListed(st.order, st.dist) &&
    (forall j :: k <= j < |hands| ==> st.matchedData[j] == hands[j]) &&
    (forall j :: 0 <= j < |hands| ==> st.matchedData[j] == hands[j].(sessionData := st.matchedData[j].sessionData))
  }

  lemma StepShape(st: State, hands: seq<Hand>, i: nat, c: Choice)
    requires i < |hands| == |st.matchedData| && |st.stats| == |st.sessions|
    requires c.session.Some? ==> c.session.value < |st.sessions|
    requires Shaped(st, hands, i)
    requires Step(st, hands, i, c).Some?
    ensures Shaped(Step(st, hands, i, c).value, hands, i + 1)
  {
  }

  lemma {:induction false} RunShape(hands: seq<Hand>, sessions: seq<Session>, choose: Chooser, k: nat)
    requires k <= |hands| && Lawful(choose, |sessions|)
    requires Run(hands, sessions, choose, k).Some?
    ensures Shaped(Run(hands, sessions, choose, k).value, hands, k)
    decreases k
  {
    if k > 0 {
      RunShape(hands, sessions, choose, k - 1);
      var st := Run(hands, sessions, choose, k - 1).value;
      StepShape(st, hands, k - 1, choose(st.sessions, st.matchedData[k - 1].timestamp));
    }
  }

  // ---------------------------------------------------------------------
  // The imperative pass.

  /** One bucket of the result array (extension/pageScript.js:362-382);
      `percentage` is the number before `toFixed(1) + "%"`. */
  datatype StakeRow = StakeRow(
    stakes: string, hands: int, bigBlind: real, winloss: real,
    bbResult: real, bbPer100: real, percentage: real)

  /** What `matchHandsToSessions` hands back, plus the sessions whose
      `assignedHands` it advanced. */
  datatype MatchOutcome = MatchOutcome(
    matchedData: seq<Hand>,
    sessionStats: seq<SessionStat>,
    stakeDistribution: seq<StakeRow>,
    unmatchedHandsCount: int,
    sessions: seq<Session>)

  /** A bucket's row: BB result and BB/100 only when the bucket has hands
      and a positive big blind, and its share of all hands in percent. */
  function Row(key: string, info: StakeInfo, total: nat): (row: StakeRow)
    requires total > 0
    ensures row.stakes == key && row.hands == info.count && row.bigBlind == info.bigBlind
    ensures row.winloss == info.totalAmount
  {
    var bbResult := if info.count > 0 && info.bigBlind > 0.0 then info.totalAmount / info.bigBlind else 0.0;
    var bbPer100 := if info.count > 0 && info.bigBlind > 0.0
                    then (info.totalAmount / info.bigBlind) * (100.0 / info.count as real) else 0.0;
    StakeRow(key, info.count, info.bigBlind, info.totalAmount, bbResult, bbPer100,
             (info.count as real / total as real) * 100.0)
  }

  /** The BB result converts the win/loss back at the big blind, BB/100
      scales it to a hundred hands, and the percentage is the bucket's share
      of all hands. */
  lemma RowRatios(key: string, info: StakeInfo, total: nat)
    requires total > 0
    ensures var row := Row(key, info, total);
      (info.count > 0 && info.bigBlind > 0.0 ==>
         row.bbResult * info.bigBlind == info.totalAmount &&
         row.bbPer100 * (info.count as real) == row.bbResult * 100.0) &&
      (!(info.count > 0 && info.bigBlind > 0.0) ==> row.bbResult == 0.0 && row.bbPer100 == 0.0) &&
      row.percentage * (total as real) == (info.count as real) * 100.0
  {
  }

  function Rows(order: seq<string>, dist: map<string, StakeInfo>, total: nat): (rows: seq<StakeRow>)
    requires forall k :: k in order ==> k in dist
    requires |order| <= total
    ensures |rows| == |order|
    ensures forall i :: 0 <= i < |order| ==> rows[i] == Row(order[i], dist[order[i]], total)
    decreases |order|
  {
    if |order| == 0 then []
    else Rows(order[..|order| - 1], dist, total) + [Row(order[|order| - 1], dist[order[|order| - 1]], total)]
  }

  /** The outcome of the whole pass under a chooser, `None` when a lookup
      throws. */
  function OutcomeWith(hands: seq<Hand>, sessions: seq<Session>, choose: Chooser): Option<MatchOutcome>
    requires Lawful(choose, |sessions|)
  {
    match Run(hands, sessions, choose, |hands|)
    case None => None
    case Some(st) =>
      RunShape(hands, sessions, choose, |hands|);
      Some(MatchOutcome(st.matchedData, st.stats, Rows(st.order, st.dist, |hands|), st.unmatched, st.sessions))
  }

  /** The outcome of `matchHandsToSessions`. */
  function Outcome(hands: seq<Hand>, sessions: seq<Session>): Option<MatchOutcome>
  {
    GreedyChoiceLawful(sessions);
    OutcomeWith(hands, sessions, GreedyChoice(sessions))
  }

  /** The body of the loop over `matchedData` for hand `i`
      (extension/pageScript.js:258-356): count it unmatched when the choice
      says so, advance the chosen session's counters, open or extend the
      bucket of its stakes, and copy its facts onto the hand. */
  method MatchHand(st: State, handData: seq<Hand>, i: nat, highestStakesSession: Option<nat>)
    returns (r: Option<State>)
    requires i < |handData| == |st.matchedData| && |st.stats| == |st.sessions|
    requires highestStakesSession.Some? ==> highestStakesSession.value < |st.sessions|
    requires forall j :: 0 <= j < |handData| ==>
               st.matchedData[j] == handData[j].(sessionData := st.matchedData[j].sessionData)
    ensures r == Step(st, handData, i, Choose(st.sessions, st.matchedData[i].timestamp, highestStakesSession))
  {
    var choice := Choose(st.sessions, st.matchedData[i].timestamp, highestStakesSession);
    r := ApplyChoice(st, handData, i, choice);
  }

  /** The bookkeeping of `MatchHand` once the session is chosen. */
  method ApplyChoice(st: State, handData: seq<Hand>, i: nat, choice: Choice) returns (r: Option<State>)
    requires i < |handData| == |st.matchedData| && |st.stats| == |st.sessions|
    requires choice.session.Some? ==> choice.session.value < |st.sessions|
    requires forall j :: 0 <= j < |handData| ==>
               st.matchedData[j] == handData[j].(sessionData := st.matchedData[j].sessionData)
    ensures r == Step(st, handData, i, choice)
  {
    var current, sessionStats, order, stakeDistribution, unmatchedHandsCount, matchedData :=
      st.sessions, st.stats, st.order, st.dist, st.unmatched, st.matchedData;
    var hand := matchedData[i];
    if choice.unmatched {
      unmatchedHandsCount := unmatchedHandsCount + 1;
    }
    if choice.session.None? {
      r := Some(State(current, sessionStats, order, stakeDistribution, unmatchedHandsCount, matchedData));
      assert r == Step(st, handData, i, choice);
      return;
    }
    var k := choice.session.value;
    var matchedSession := current[k];
    current := current[k := matchedSession.(assignedHands := matchedSession.assignedHands + 1)];
    if !choice.unmatched {
      sessionStats := sessionStats[k := sessionStats[k].(matchedHands := sessionStats[k].matchedHands + 1)];
    }
    var stakesKey := StakesKey(matchedSession);
    var info := if stakesKey in stakeDistribution then stakeDistribution[stakesKey]
                else StakeInfo(0, OrElse(matchedSession.bigBlind, 0.0), 0.0);
    if stakesKey !in stakeDistribution {
      order := order + [stakesKey];
    }
    info := info.(count := info.count + 1);
    stakeDistribution := stakeDistribution[stakesKey := info];
    // `matchedData[label - 2]` still holds the amounts of `handData`.
    assert HandAmount(matchedData, i) == HandAmount(handData, i);
    var handAmount := HandAmount(matchedData, i);
    if handAmount.None? {
      r := None;
      assert r == Step(st, handData, i, choice);
      return;
    }
    info := info.(totalAmount := info.totalAmount + handAmount.value);
    stakeDistribution := stakeDistribution[stakesKey := info];
    assert stakeDistribution == st.dist[stakesKey := info];
    assert (order, stakeDistribution) ==
           AddToBucket(st.order, st.dist, stakesKey, OrElse(matchedSession.bigBlind, 0.0), handAmount.value);
    matchedData := matchedData[i := hand.(sessionData := Some(SessionData(matchedSession.bigBlind, matchedSession.stakes, matchedSession.gameType)))];
    r := Some(State(current, sessionStats, order, stakeDistribution, unmatchedHandsCount, matchedData));
    assert r == Step(st, handData, i, choice);
  }

  /** `matchHandsToSessions` (extension/pageScript.js:240-391): one pass over
      the hands in chart order, then the bucket table in first-seen order. */
  method MatchHandsToSessions(handData: seq<Hand>, sessions: seq<Session>) returns (r: Option<MatchOutcome>)
    ensures r == Outcome(handData, sessions)
  {
    var highestStakesSession := HighestStakes(sessions);
    var st := Initial(handData, sessions);
    PassedInitially(handData, sessions);
    for i := 0 to |handData|
      invariant Passed(handData, sessions, i, st)
    {
      var next := PassTurn(handData, sessions, i, st, highestStakesSession);
      if next.None? {
        return None;
      }
      st := next.value;
    }
    r := Some(MatchOutcome(st.matchedData, st.stats, Rows(st.order, st.dist, |handData|), st.unmatched, st.sessions));
    OutcomeOfRun(handData, sessions, st);
  }

  /** The loop invariant of `MatchHandsToSessions`: `st` is the state of
      the greedy pass after `i` hands. */
  ghost predicate Passed(handData: seq<Hand>, sessions: seq<Session>, i: nat, st: State)
  {
    i <= |handData| && Lawful(GreedyChoice(sessions), |sessions|) &&
    Run(handData, sessions, GreedyChoice(sessions), i) == Some(st) && Shaped(st, handData, i)
  }

  /** Before the loop, no hand is passed. */
  lemma PassedInitially(handData: seq<Hand>, sessions: seq<Session>)
    ensures Passed(handData, sessions, 0, Initial(handData, sessions))
  {
    GreedyChoiceLawful(sessions);
  }

  /** One turn of the loop of `MatchHandsToSessions`: `MatchHand` is one
      step of `Run` under the greedy rule, and a lookup that throws ends
      the whole call without an outcome. */
  method PassTurn(handData: seq<Hand>, sessions: seq<Session>, i: nat, st: State, highestStakesSession: Option<nat>)
    returns (next: Option<State>)
    requires i < |handData| && highestStakesSession == HighestStakes(sessions)
    requires Passed(handData, sessions, i, st)
    ensures next.Some? ==> Passed(handData, sessions, i + 1, next.value)
    ensures next.None? ==> Outcome(handData, sessions).None?
  {
    next := MatchHand(st, handData, i, highestStakesSession);
    TurnRun(handData, sessions, i, st, next);
    if next.Some? {
      PassShaped(handData, sessions, i, st, Choose(st.sessions, st.matchedData[i].timestamp, highestStakesSession), next);
    } else {
      TurnFails(handData, sessions, i, next);
    }
  }

  /** `MatchHand` under the greedy rule is one step of `Run`. */
  lemma TurnRun(handData: seq<Hand>, sessions: seq<Session>, i: nat, st: State, next: Option<State>)
    requires i < |handData| && Passed(handData, sessions, i, st)
    requires next == Step(st, handData, i, Choose(st.sessions, st.matchedData[i].timestamp, HighestStakes(sessions)))
    ensures Run(handData, sessions, GreedyChoice(sessions), i + 1) == next
  {
    GreedyChoiceAt(sessions, st.sessions, st.matchedData[i].timestamp);
    PassStep(handData, sessions, GreedyChoice(sessions), i, st, next);
  }

  /** A lookup that throws ends the whole call without an outcome. */
  lemma TurnFails(handData: seq<Hand>, sessions: seq<Session>, i: nat, next: Option<State>)
    requires i < |handData| && Lawful(GreedyChoice(sessions), |sessions|)
    requires Run(handData, sessions, GreedyChoice(sessions), i + 1) == next && next.None?
    ensures Outcome(handData, sessions).None?
  {
    RunFails(handData, sessions, GreedyChoice(sessions), i + 1, |handData|);
    OutcomeFails(handData, sessions);
  }

  /** The greedy rule applied to a table of the right size. */
  lemma GreedyChoiceAt(sessions: seq<Session>, ss: seq<Session>, t: int)
    requires |ss| == |sessions|
    ensures GreedyChoice(sessions).requires(ss, t)
    ensures GreedyChoice(sessions)(ss, t) == Choose(ss, t, HighestStakes(sessions))
  {
  }

  /** A pass that threw gives no outcome. */
  lemma OutcomeFails(hands: seq<Hand>, sessions: seq<Session>)
    requires Lawful(GreedyChoice(sessions), |sessions|)
    requires Run(hands, sessions, GreedyChoice(sessions), |hands|).None?
    ensures Outcome(hands, sessions).None?
  {
  }

  /** A pass that ran through gives its final state's outcome. */
  lemma OutcomeOfRun(hands: seq<Hand>, sessions: seq<Session>, st: State)
    requires Lawful(GreedyChoice(sessions), |sessions|)
    requires Run(hands, sessions, GreedyChoice(sessions), |hands|) == Some(st)
    requires Shaped(st, hands, |hands|)
    ensures Outcome(hands, sessions) == Some(MatchOutcome(st.matchedData, st.stats, Rows(st.order, st.dist, |hands|), st.unmatched, st.sessions))
  {
  }

  /** One turn of the loop in `MatchHandsToSessions` is one step of `Run`. */
  lemma PassStep(handData: seq<Hand>, sessions: seq<Session>, choose: Chooser, i: nat, st: State, next: Option<State>)
    requires i < |handData| && Lawful(choose, |sessions|)
    requires Run(handData, sessions, choose, i) == Some(st)
    requires choose.requires(st.sessions, st.matchedData[i].timestamp)
    requires next == Step(st, handData, i, choose(st.sessions, st.matchedData[i].timestamp))
    ensures Run(handData, sessions, choose, i + 1) == next
  {
  }

  /** A turn that went through keeps the state `Shaped`. */
  lemma PassShaped(handData: seq<Hand>, sessions: seq<Session>, i: nat, st: State, c: Choice, next: Option<State>)
    requires i < |handData| == |st.matchedData| && |st.stats| == |st.sessions|
    requires ChoiceFits(c, |st.sessions|) && Shaped(st, handData, i)
    requires next == Step(st, handData, i, c) && next.Some?
    ensures Shaped(next.value, handData, i + 1)
  {
    StepShape(st, handData, i, c);
  }

  /** Once a lookup has thrown, the pass has failed. */
  lemma {:induction false} RunFails(hands: seq<Hand>, sessions: seq<Session>, choose: Chooser, k: nat, n: nat)
    requires k <= n <= |hands| && Lawful(choose, |sessions|)
    requires Run(hands, sessions, choose, k).None?
    ensures Run(hands, sessions, choose, n).None?
    decreases n - k
  {
    if k < n {
      RunFails(hands, sessions, choose, k + 1, n);
    }
  }

  // ---------------------------------------------------------------------
  // What the pass keeps track of.

  function SumMatched(stats: seq<SessionStat>): int
    decreases |stats|
  {
    if |stats| == 0 then 0 else SumMatched(stats[..|stats| - 1]) + stats[|stats| - 1].matchedHands
  }

  function SumAssigned(sessions: seq<Session>): int
    decreases |sessions|
  {
    if |sessions| == 0 then 0 else SumAssigned(sessions[..|sessions| - 1]) + sessions[|sessions| - 1].assignedHands
  }

  lemma {:induction false} SumMatchedBump(stats: seq<SessionStat>, k: nat)
    requires k < |stats|
    ensures SumMatched(stats[k := stats[k].(matchedHands := stats[k].matchedHands + 1)]) == SumMatched(stats) + 1
    decreases |stats|
  {
    var n := |stats| - 1;
    var bumped := stats[k := stats[k].(matchedHands := stats[k].matchedHands + 1)];
    if k < n {
      assert bumped[..n] == stats[..n][k := stats[k].(matchedHands := stats[k].matchedHands + 1)];
      SumMatchedBump(stats[..n], k);
    } else {
      assert bumped[..n] == stats[..n];
    }
  }

  lemma {:induction false} SumAssignedBump(sessions: seq<Session>, k: nat)
    requires k < |sessions|
    ensures SumAssigned(sessions[k := sessions[k].(assignedHands := sessions[k].assignedHands + 1)])
            == SumAssigned(sessions) + 1
    decreases |sessions|
  {
    var n := |sessions| - 1;
    var bumped := sessions[k := sessions[k].(assignedHands := sessions[k].assignedHands + 1)];
    if k < n {
      assert bumped[..n] == sessions[..n][k := sessions[k].(assignedHands := sessions[k].assignedHands + 1)];
      SumAssignedBump(sessions[..n], k);
    } else {
      assert bumped[..n] == sessions[..n];
    }
  }

  lemma {:induction false} NothingMatchedYet(sessions: seq<Session>)
    ensures SumMatched(InitialStats(sessions)) == 0
    decreases |sessions|
  {
    if |sessions| > 0 {
      var n := |sessions| - 1;
      assert InitialStats(sessions)[..n] == InitialStats(sessions[..n]);
      NothingMatchedYet(sessions[..n]);
    }
  }

  /** The two bucket fields that add up over the buckets. */
  datatype Field = Count | Total

  function Of(f: Field, info: StakeInfo): real
  {
    match f
    case Count => info.count as real
    case Total => info.totalAmount
  }

  /** Sum of a bucket field over the buckets, in key order; a key without
      a bucket adds nothing. */
  function SumInfo(order: seq<string>, dist: map<string, StakeInfo>, f: Field): real
    decreases |order|
  {
    if |order| == 0 then 0.0
    else
      var key := order[|order| - 1];
      SumInfo(order[..|order| - 1], dist, f) + (if key in dist then Of(f, dist[key]) else 0.0)
  }

  lemma {:induction false} SumInfoFrame(order: seq<string>, dist: map<string, StakeInfo>, key: string,
                                        v: StakeInfo, f: Field)
    requires forall k :: k in order ==> k in dist
    requires key !in order
    ensures SumInfo(order, dist[key := v], f) == SumInfo(order, dist, f)
    decreases |order|
  {
    if |order| > 0 {
      SumInfoFrame(order[..|order| - 1], dist, key, v, f);
    }
  }

  lemma {:induction false} SumInfoUpdate(order: seq<string>, dist: map<string, StakeInfo>, key: string,
                                         v: StakeInfo, f: Field)
    requires forall k :: k in order ==> k in dist
    requires Distinct(order) && key in order
    ensures SumInfo(order, dist[key := v], f) == SumInfo(order, dist, f) - Of(f, dist[key]) + Of(f, v)
    decreases |order|
  {
    var n := |order| - 1;
    var front := order[..n];
    assert Distinct(front);
    if order[n] == key {
      assert key !in front;
      SumInfoFrame(front, dist, key, v, f);
    } else {
      assert key in front;
      SumInfoUpdate(front, dist, key, v, f);
    }
  }

  /** Adding one hand of amount `a` to the bucket `key`, opening it with
      big blind `bb` when it is new. */
  function AddToBucket(order: seq<string>, dist: map<string, StakeInfo>, key: string, bb: real, a: real):
    (r: (seq<string>, map<string, StakeInfo>))
    ensures 0 <= |r.0| - |order| <= 1
    ensures KeysListed(order, dist) ==> KeysListed(r.0, r.1)
  {
    var info := if key in dist then dist[key] else StakeInfo(0, bb, 0.0);
    (if key in dist then order else order + [key],
     dist[key := info.(count := info.count + 1, totalAmount := info.totalAmount + a)])
  }

  /** Adding a hand of amount `a` to an open bucket adds 1 to the count sum
      and `a` to the total sum. */
  lemma BucketUpdate(order: seq<string>, dist: map<string, StakeInfo>, key: string, a: real, f: Field)
    requires KeysListed(order, dist) && key in dist
    ensures var v := dist[key].(count := dist[key].count + 1, totalAmount := dist[key].totalAmount + a);
      SumInfo(order, dist[key := v], f) == SumInfo(order, dist, f) + (if f == Count then 1.0 else a)
  {
    var v := dist[key].(count := dist[key].count + 1, totalAmount := dist[key].totalAmount + a);
    SumInfoUpdate(order, dist, key, v, f);
  }

  /** Opening a bucket with one hand of amount `a` does the same. */
  lemma BucketOpen(order: seq<string>, dist: map<string, StakeInfo>, key: string, bb: real, a: real, f: Field)
    requires KeysListed(order, dist) && key !in dist
    ensures SumInfo(order + [key], dist[key := StakeInfo(1, bb, a)], f)
            == SumInfo(order, dist, f) + (if f == Count then 1.0 else a)
  {
    var v := StakeInfo(1, bb, a);
    SumInfoFrame(order, dist, key, v, f);
    assert (order + [key])[..|order|] == order;
  }

  /** One step moves the hand onto the books: into a session's matched
      count or the unmatched count. */
  lemma StepMatched(st: State, hands: seq<Hand>, i: nat, c: Choice)
    requires i < |hands| == |st.matchedData| && |st.stats| == |st.sessions|
    requires ChoiceFits(c, |st.sessions|)
    requires Step(st, hands, i, c).Some?
    ensures var r := Step(st, hands, i, c).value;
      SumMatched(r.stats) + r.unmatched == SumMatched(st.stats) + st.unmatched + 1 &&
      SumAssigned(r.sessions) == SumAssigned(st.sessions) + (if |st.sessions| > 0 then 1 else 0)
  {
    if c.session.Some? {
      var k := c.session.value;
      SumAssignedBump(st.sessions, k);
      if !c.unmatched {
        SumMatchedBump(st.stats, k);
      }
    }
  }

  /** One step touches exactly one session: the chosen session `k` gains
      one assigned hand (and one matched hand unless it is only the
      fallback), and every other session and its statistics stay as they
      were. Without a session only the unmatched count moves. */
  lemma StepOneSession(st: State, hands: seq<Hand>, i: nat, c: Choice)
    requires i < |hands| == |st.matchedData| && |st.stats| == |st.sessions|
    requires ChoiceFits(c, |st.sessions|)
    requires Step(st, hands, i, c).Some?
    ensures var r := Step(st, hands, i, c).value;
      c.session.None? ==> r == st.(unmatched := st.unmatched + 1)
    ensures var r := Step(st, hands, i, c).value;
      c.session.Some? ==>
        var k := c.session.value;
        |r.sessions| == |st.sessions| && |r.stats| == |st.stats| &&
        r.sessions[k] == st.sessions[k].(assignedHands := st.sessions[k].assignedHands + 1) &&
        r.stats[k] == st.stats[k].(matchedHands := st.stats[k].matchedHands + (if c.unmatched then 0 else 1)) &&
        r.unmatched == st.unmatched + (if c.unmatched then 1 else 0) &&
        forall j :: 0 <= j < |st.sessions| && j != k ==> r.sessions[j] == st.sessions[j] && r.stats[j] == st.stats[j]
  {
  }

  /** The chosen session's stakes key is the one bucket a step changes: its
      count grows by one and its total by the hand's amount (opening it with
      the session's big blind if it is new), and every other bucket stays. */
  lemma StepOneBucket(st: State, hands: seq<Hand>, i: nat, c: Choice)
    requires i < |hands| == |st.matchedData| && |st.stats| == |st.sessions|
    requires ChoiceFits(c, |st.sessions|) && c.session.Some?
    requires Step(st, hands, i, c).Some?
    ensures var r := Step(st, hands, i, c).value;
      var s := st.sessions[c.session.value];
      var key := StakesKey(s);
      var was := if key in st.dist then st.dist[key] else StakeInfo(0, OrElse(s.bigBlind, 0.0), 0.0);
      r.dist.Keys == st.dist.Keys + {key} &&
      r.dist[key] == was.(count := was.count + 1, totalAmount := was.totalAmount + HandAmount(hands, i).value) &&
      (forall k :: k in st.dist && k != key ==> r.dist[k] == st.dist[k]) &&
      r.order == (if key in st.dist then st.order else st.order + [key])
  {
  }

  /** With a session at all, one step adds one hand and its amount to one
      bucket. */
  lemma StepBuckets(st: State, hands: seq<Hand>, i: nat, c: Choice, f: Field)
    requires i < |hands| == |st.matchedData| && |st.stats| == |st.sessions|
    requires ChoiceFits(c, |st.sessions|)
    requires KeysListed(st.order, st.dist)
    requires Step(st, hands, i, c).Some?
    ensures var r := Step(st, hands, i, c).value;
      SumInfo(r.order, r.dist, f) == SumInfo(st.order, st.dist, f) +
        (if |st.sessions| == 0 then 0.0 else if f == Count then 1.0 else HandAmount(hands, i).value)
  {
    if c.session.Some? {
      var s := st.sessions[c.session.value];
      var a := HandAmount(hands, i).value;
      var key := StakesKey(s);
      if key in st.dist {
        BucketUpdate(st.order, st.dist, key, a, f);
      } else {
        BucketOpen(st.order, st.dist, key, OrElse(s.bigBlind, 0.0), a, f);
      }
    }
  }

  /** After `k` hands every hand is counted once, either as matched to a
      session or as unmatched. */
  lemma {:induction false} RunMatched(hands: seq<Hand>, sessions: seq<Session>, choose: Chooser, k: nat)
    requires k <= |hands| && Lawful(choose, |sessions|)
    requires Run(hands, sessions, choose, k).Some?
    ensures var st := Run(hands, sessions, choose, k).value;
      SumMatched(st.stats) + st.unmatched == k
    decreases k
  {
    if k == 0 {
      NothingMatchedYet(sessions);
    } else {
      RunMatched(hands, sessions, choose, k - 1);
      var st := Run(hands, sessions, choose, k - 1).value;
      StepMatched(st, hands, k - 1, choose(st.sessions, st.matchedData[k - 1].timestamp));
    }
  }

  /** With at least one session, every hand raised one session's
      `assignedHands`. */
  lemma {:induction false} RunAssigned(hands: seq<Hand>, sessions: seq<Session>, choose: Chooser, k: nat)
    requires k <= |hands| && Lawful(choose, |sessions|)
    requires Run(hands, sessions, choose, k).Some?
    ensures SumAssigned(Run(hands, sessions, choose, k).value.sessions) ==
            SumAssigned(sessions) + (if |sessions| > 0 then k else 0)
    decreases k
  {
    if k > 0 {
      RunAssigned(hands, sessions, choose, k - 1);
      var st := Run(hands, sessions, choose, k - 1).value;
      StepMatched(st, hands, k - 1, choose(st.sessions, st.matchedData[k - 1].timestamp));
    }
  }

  /** With at least one session, every hand raised one bucket's count. */
  lemma {:induction false} RunBucketCounts(hands: seq<Hand>, sessions: seq<Session>, choose: Chooser, k: nat)
    requires k <= |hands| && Lawful(choose, |sessions|)
    requires Run(hands, sessions, choose, k).Some?
    ensures var st := Run(hands, sessions, choose, k).value;
      SumInfo(st.order, st.dist, Count) == (if |sessions| > 0 then k as real else 0.0)
    decreases k
  {
    if k > 0 {
      RunBucketCounts(hands, sessions, choose, k - 1);
      RunShape(hands, sessions, choose, k - 1);
      var st := Run(hands, sessions, choose, k - 1).value;
      StepBuckets(st, hands, k - 1, choose(st.sessions, st.matchedData[k - 1].timestamp), Count);
    }
  }

  /** With labels numbered 1, 2, ... no lookup throws. */
  lemma {:induction false} RunSucceeds(hands: seq<Hand>, sessions: seq<Session>, choose: Chooser, k: nat)
    requires k <= |hands| && DenseLabels(hands) && Lawful(choose, |sessions|)
    ensures Run(hands, sessions, choose, k).Some?
    decreases k
  {
    if k > 0 {
      RunSucceeds(hands, sessions, choose, k - 1);
      HandAmountIsDelta(hands, k - 1);
    }
  }

  /** With labels numbered 1, 2, ... and at least one session, the bucket
      totals add up to the hand amounts so far. */
  lemma RunTotals(hands: seq<Hand>, sessions: seq<Session>, choose: Chooser, k: nat)
    requires k <= |hands| && DenseLabels(hands) && Lawful(choose, |sessions|)
    requires Run(hands, sessions, choose, k).Some?
    ensures var st := Run(hands, sessions, choose, k).value;
      SumInfo(st.order, st.dist, Total) == (if |sessions| > 0 then Sum(Deltas(Amounts(hands))[..k]) else 0.0)
  {
    RunTotalsAt(hands, sessions, choose, k, Run(hands, sessions, choose, k).value);
  }

  /** `RunTotals` for the state `st` the pass reached after `k` hands. */
  lemma {:induction false} RunTotalsAt(hands: seq<Hand>, sessions: seq<Session>, choose: Chooser, k: nat, st: State)
    requires k <= |hands| && DenseLabels(hands) && Lawful(choose, |sessions|)
    requires Run(hands, sessions, choose, k) == Some(st)
    ensures SumInfo(st.order, st.dist, Total) == (if |sessions| > 0 then Sum(Deltas(Amounts(hands))[..k]) else 0.0)
    decreases k
  {
    if k > 0 {
      var prev, c := RunPrev(hands, sessions, choose, k, st);
      RunTotalsAt(hands, sessions, choose, k - 1, prev);
      TotalsStep(prev, hands, k - 1, c, st, |sessions|, k);
    }
  }

  /** The state `st` can take step `i` with choice `c` without a lookup
      throwing, and its buckets are listed in their order, each once. */
  ghost predicate Steppable(st: State, hands: seq<Hand>, i: nat, c: Choice)
  {
    i < |hands| == |st.matchedData| && |st.stats| == |st.sessions| &&
    ChoiceFits(c, |st.sessions|) && KeysListed(st.order, st.dist) &&
    Step(st, hands, i, c).Some?
  }

  /** A pass that reached `cur` after `k` hands reached some `st` after
      `k - 1`, and its last step was the chooser's choice for hand `k - 1`. */
  lemma RunPrev(hands: seq<Hand>, sessions: seq<Session>, choose: Chooser, k: nat, cur: State) returns (st: State, c: Choice)
    requires 0 < k <= |hands| && Lawful(choose, |sessions|)
    requires Run(hands, sessions, choose, k) == Some(cur)
    ensures Run(hands, sessions, choose, k - 1) == Some(st) && |st.sessions| == |sessions|
    ensures Steppable(st, hands, k - 1, c) && Step(st, hands, k - 1, c) == Some(cur)
  {
    st := Run(hands, sessions, choose, k - 1).value;
    c := choose(st.sessions, st.matchedData[k - 1].timestamp);
    RunShape(hands, sessions, choose, k - 1);
  }

  /** One step of `RunTotalsAt`, away from `Run`: step `i` from `st`, a
      state with `n` sessions, leads to `next`. */
  lemma TotalsStep(st: State, hands: seq<Hand>, i: nat, c: Choice, next: State, n: nat, k: nat)
    requires Steppable(st, hands, i, c) && DenseLabels(hands)
    requires Step(st, hands, i, c) == Some(next) && |st.sessions| == n && k == i + 1
    requires SumInfo(st.order, st.dist, Total) == (if n > 0 then Sum(Deltas(Amounts(hands))[..i]) else 0.0)
    ensures SumInfo(next.order, next.dist, Total) == (if n > 0 then Sum(Deltas(Amounts(hands))[..k]) else 0.0)
  {
    HandAmountIsDelta(hands, i);
    StepBuckets(st, hands, i, c, Total);
    SumSnoc(Deltas(Amounts(hands)), i);
  }

  /** The columns of the stake table that add up. */
  datatype Column = Hands | Winloss

  function Cell(c: Column, row: StakeRow): real
  {
    match c
    case Hands => row.hands as real
    case Winloss => row.winloss
  }

  function SumColumn(rows: seq<StakeRow>, c: Column): real
    decreases |rows|
  {
    if |rows| == 0 then 0.0 else SumColumn(rows[..|rows| - 1], c) + Cell(c, rows[|rows| - 1])
  }

  /** The hands and win/loss columns add up like the bucket fields. */
  lemma {:induction false} RowsSumField(order: seq<string>, dist: map<string, StakeInfo>, total: nat, c: Column)
    requires forall k :: k in order ==> k in dist
    requires |order| <= total
    ensures SumColumn(Rows(order, dist, total), c) == SumInfo(order, dist, if c == Hands then Count else Total)
    decreases |order|
  {
    if |order| > 0 {
      var n := |order| - 1;
      RowsSumField(order[..n], dist, total, c);
      assert Rows(order, dist, total)[..n] == Rows(order[..n], dist, total);
    }
  }

  /** With labels numbered 1, 2, ... and at least one session, the pass
      succeeds under any chooser and the stake buckets' win/loss adds up to
      the final cumulative amount. */
  lemma TotalAmountConservedWith(hands: seq<Hand>, sessions: seq<Session>, choose: Chooser)
    requires DenseLabels(hands) && |hands| > 0 && |sessions| > 0 && Lawful(choose, |sessions|)
    ensures OutcomeWith(hands, sessions, choose).Some?
    ensures SumColumn(OutcomeWith(hands, sessions, choose).value.stakeDistribution, Winloss) == hands[|hands| - 1].amount
  {
    RunSucceeds(hands, sessions, choose, |hands|);
    var st := Run(hands, sessions, choose, |hands|).value;
    RunTotalsAt(hands, sessions, choose, |hands|, st);
    RunShape(hands, sessions, choose, |hands|);
    WinlossIsLastAmount(hands, st);
  }

  /** Once the buckets hold all the hand amounts, the win/loss column of
      the stake table adds up to the final cumulative amount. */
  lemma WinlossIsLastAmount(hands: seq<Hand>, st: State)
    requires |hands| > 0 && Shaped(st, hands, |hands|)
    requires SumInfo(st.order, st.dist, Total) == Sum(Deltas(Amounts(hands))[..|hands|])
    ensures SumColumn(Rows(st.order, st.dist, |hands|), Winloss) == hands[|hands| - 1].amount
  {
    RowsSumField(st.order, st.dist, |hands|, Winloss);
    var amounts := Amounts(hands);
    assert Deltas(amounts)[..|hands|] == Deltas(amounts);
    SumDeltas(amounts);
    assert amounts[|amounts| - 1] == hands[|hands| - 1].amount;
  }

  /** The same for the pass itself. */
  lemma TotalAmountConserved(hands: seq<Hand>, sessions: seq<Session>)
    requires DenseLabels(hands) && |hands| > 0 && |sessions| > 0
    ensures Outcome(hands, sessions).Some?
    ensures SumColumn(Outcome(hands, sessions).value.stakeDistribution, Winloss) == hands[|hands| - 1].amount
  {
    GreedyChoiceLawful(sessions);
    TotalAmountConservedWith(hands, sessions, GreedyChoice(sessions));
  }

  /** Under any chooser every hand is counted exactly once; with at least
      one session each hand raised one session's `assignedHands`, and the
      stake table's hands add up to all hands. */
  lemma CountsAddUpWith(hands: seq<Hand>, sessions: seq<Session>, choose: Chooser)
    requires Lawful(choose, |sessions|) && OutcomeWith(hands, sessions, choose).Some?
    ensures var out := OutcomeWith(hands, sessions, choose).value;
      SumMatched(out.sessionStats) + out.unmatchedHandsCount == |hands| &&
      SumAssigned(out.sessions) == SumAssigned(sessions) + (if |sessions| > 0 then |hands| else 0)
    ensures var rows := OutcomeWith(hands, sessions, choose).value.stakeDistribution;
      |sessions| > 0 && |hands| > 0 ==>
        SumColumn(rows, Hands) == |hands| as real
  {
    var n := |hands|;
    RunMatched(hands, sessions, choose, n);
    RunAssigned(hands, sessions, choose, n);
    RunBucketCounts(hands, sessions, choose, n);
    RunShape(hands, sessions, choose, n);
    var st := Run(hands, sessions, choose, n).value;
    if n > 0 && |sessions| > 0 {
      RowsSumField(st.order, st.dist, n, Hands);
    }
  }

  /** The same for the pass itself. */
  lemma CountsAddUp(hands: seq<Hand>, sessions: seq<Session>)
    requires Outcome(hands, sessions).Some?
    ensures var out := Outcome(hands, sessions).value;
      SumMatched(out.sessionStats) + out.unmatchedHandsCount == |hands| &&
      SumAssigned(out.sessions) == SumAssigned(sessions) + (if |sessions| > 0 then |hands| else 0)
    ensures var rows := Outcome(hands, sessions).value.stakeDistribution;
      |sessions| > 0 && |hands| > 0 ==>
        SumColumn(rows, Hands) == |hands| as real
  {
    GreedyChoiceLawful(sessions);
    CountsAddUpWith(hands, sessions, GreedyChoice(sessions));
  }
}
