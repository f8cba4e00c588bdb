/** The records that extension/pageScript.js and extract-data-create-graph.js
    pass between their steps: sessions scraped from the session table and
    the hands of the chart's cumulative data series. */
module Chart {
  import opened Common
  import opened Strings
  import opened Sorting

  /** A scraped session. A timestamp that JavaScript would hold as `null`
      or `NaN` is `None`; 0 is kept but is falsy like `null`. The mutable
      counter `assignedHands` is carried along as a value. */
  datatype Session = Session(
    startTimestamp: Option<int>,
    endTimestamp: Option<int>,
    hands: int,
    bigBlind: Option<real>,
    stakes: Option<string>,
    gameType: Option<string>,
    assignedHands: int)

  /** The session facts copied onto a hand once it is matched. */
  datatype SessionData = SessionData(bigBlind: Option<real>, stakes: Option<string>, gameType: Option<string>)

  /** A point of the cumulative series: hand number `label` (`handLabel`), time, and the
      running cash result `amount` and all-in EV `ev`. */
  datatype Hand = Hand(handLabel: int, timestamp: int, amount: real, ev: real, sessionData: Option<SessionData>)

  function Amounts(hands: seq<Hand>): (r: seq<real>)
    ensures |r| == |hands| && forall i :: 0 <= i < |hands| ==> r[i] == hands[i].amount
  {
    seq(|hands|, i requires 0 <= i < |hands| => hands[i].amount)
  }

  function Evs(hands: seq<Hand>): (r: seq<real>)
    ensures |r| == |hands| && forall i :: 0 <= i < |hands| ==> r[i] == hands[i].ev
  {
    seq(|hands|, i requires 0 <= i < |hands| => hands[i].ev)
  }

  // ---------------------------------------------------------------------
  // Duration and end time (extension/pageScript.js:115-119, 171).

  /** The duration cell "H:M:S" in milliseconds. `Number` is a parameter
      (`None` is NaN); a missing or empty cell gives 0, a cell with fewer
      than three fields gives NaN, because the missing field reads as
      `undefined`. */
  function DurationMs(durationStr: Option<string>, number: string -> Option<int>): (r: Option<int>)
    ensures !TruthyString(durationStr) ==> r == Some(0)
    ensures TruthyString(durationStr) && |Split(durationStr.value, ':')| < 3 ==> r.None?
  {
    if !TruthyString(durationStr) then Some(0)
    else
      var parts := Split(durationStr.value, ':');
      if |parts| < 3 then None
      else
        match (number(parts[0]), number(parts[1]), number(parts[2]))
        case (Some(h), Some(m), Some(s)) => Some((h * 3600 + m * 60 + s) * 1000)
        case _ => None
  }

  /** Decoding a cell written as "H:M:S" gives back its hours, minutes and
      seconds as milliseconds. */
  lemma DurationOfFields(h: string, m: string, s: string, number: string -> Option<int>,
                         hv: int, mv: int, sv: int)
    requires ':' !in h && ':' !in m && ':' !in s
    requires number(h) == Some(hv) && number(m) == Some(mv) && number(s) == Some(sv)
    ensures DurationMs(Some(h + ":" + m + ":" + s), number) == Some((hv * 3600 + mv * 60 + sv) * 1000)
  {
    SplitThree(h, m, s);
  }

  /** The three fields of "H:M:S" come back out of the split. */
  lemma SplitThree(h: string, m: string, s: string)
    requires ':' !in h && ':' !in m && ':' !in s
    ensures Split(h + ":" + m + ":" + s, ':') == [h, m, s]
  {
    var parts := [h, m, s];
    assert Join(parts[2..], ':') == s;
    assert Join(parts[1..], ':') == m + [':'] + s;
    assert Join(parts, ':') == h + ":" + m + ":" + s;
    SplitJoin(parts, ':');
  }

  /** `startTimestamp ? startTimestamp + durationMs : null`: a NaN duration
      makes the end NaN. */
  function EndTimestamp(startTimestamp: Option<int>, durationMs: Option<int>): (r: Option<int>)
    ensures !TruthyInt(startTimestamp) ==> r.None?
    ensures TruthyInt(startTimestamp) && durationMs.Some? ==> r == Some(startTimestamp.value + durationMs.value)
    ensures r.Some? ==> durationMs.Some? && r.value - durationMs.value == startTimestamp.value
  {
    if TruthyInt(startTimestamp) && durationMs.Some? then Some(startTimestamp.value + durationMs.value)
    else None
  }

  // ---------------------------------------------------------------------
  // Session order (extension/pageScript.js:187, extract-data-create-graph.js:192).

  /** `startTimestamp || 0`. */
  function StartKey(s: Session): real
  {
    if TruthyInt(s.startTimestamp) then s.startTimestamp.value as real else 0.0
  }

  /** Newest first, a missing start counting as 0; equal starts keep their
      table order. */
  function SortSessions(sessions: seq<Session>): (r: seq<Session>)
    ensures SortedDesc(r, StartKey)
    ensures multiset(r) == multiset(sessions) && |r| == |sessions|
    ensures forall v :: WithKey(r, StartKey, v) == WithKey(sessions, StartKey, v)
  {
    SortDescSorted(sessions, StartKey);
    SortDescPermutation(sessions, StartKey);
    forall v ensures WithKey(SortDesc(sessions, StartKey), StartKey, v) == WithKey(sessions, StartKey, v) {
      SortDescStable(sessions, StartKey, v);
    }
    SortDesc(sessions, StartKey)
  }
}
