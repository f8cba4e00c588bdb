/** The session a hand goes to under the greedy interval rule of
    extension/pageScript.js:240-391 (repeated verbatim, up to logging, in
    extract-data-create-graph.js:246-427). Every `reduce` there keeps its
    accumulator unless a later session is strictly better, so each choice is
    the first best one in table order. */
module GreedySelection {
  import opened Common
  import opened Chart

  /** A session can take a hand when both its timestamps are truthy and the
      hand's time lies between them, both ends included. */
  predicate Candidate(s: Session, t: int)
  {
    TruthyInt(s.startTimestamp) && TruthyInt(s.endTimestamp) &&
    s.startTimestamp.value <= t <= s.endTimestamp.value
  }

  /** The two `filter`s of the pass: sessions with a start (the closest
      session `reduce` skips the others) and sessions covering time `t`. */
  datatype Filter = HasStart | Covers(t: int)

  predicate Accepts(f: Filter, s: Session)
  {
    match f
    case HasStart => TruthyInt(s.startTimestamp)
    case Covers(t) => Candidate(s, t)
  }

  /** The indices of the sessions that `f` accepts, in table order
      (`sessions.filter(...)`, by position). */
  function Keep(sessions: seq<Session>, f: Filter): (r: seq<nat>)
    ensures forall p :: 0 <= p < |r| ==> r[p] < |sessions|
    decreases |sessions|
  {
    if |sessions| == 0 then []
    else
      var n := |sessions| - 1;
      Keep(sessions[..n], f) + (if Accepts(f, sessions[n]) then [n] else [])
  }

  /** `Keep` lists exactly the accepted sessions, each once, in order. */
  lemma {:induction false} KeepFacts(sessions: seq<Session>, f: Filter)
    ensures forall p :: 0 <= p < |Keep(sessions, f)| ==> Accepts(f, sessions[Keep(sessions, f)[p]])
    ensures forall i :: 0 <= i < |sessions| && Accepts(f, sessions[i]) ==> i in Keep(sessions, f)
    ensures forall a, b :: 0 <= a < b < |Keep(sessions, f)| ==> Keep(sessions, f)[a] < Keep(sessions, f)[b]
    decreases |sessions|
  {
    if |sessions| > 0 {
      var n := |sessions| - 1;
      var front := sessions[..n];
      KeepFacts(front, f);
      var r0 := Keep(front, f);
      var r := Keep(sessions, f);
      assert r == r0 + (if Accepts(f, sessions[n]) then [n] else []);
      forall p | 0 <= p < |r0| ensures r[p] == r0[p] && sessions[r0[p]] == front[r0[p]] {
      }
      forall i | 0 <= i < n && Accepts(f, sessions[i]) ensures i in r {
        assert front[i] == sessions[i];
        var p :| 0 <= p < |r0| && r0[p] == i;
        assert r[p] == i;
      }
    }
  }

  function WithStart(sessions: seq<Session>): seq<nat>
  {
    Keep(sessions, HasStart)
  }

  function Candidates(sessions: seq<Session>, t: int): seq<nat>
  {
    Keep(sessions, Covers(t))
  }

  /** `session.bigBlind` as `>` compares it: `null` counts as 0. */
  function BigBlindKey(s: Session): real
  {
    OrElse(s.bigBlind, 0.0)
  }

  /** `session.hands - session.assignedHands`. */
  function SpaceKey(s: Session): real
  {
    (s.hands - s.assignedHands) as real
  }

  /** `Math.min(|t - start|, |t - (end || 0)|)` for a session with a start. */
  function Distance(s: Session, t: int): real
    requires s.startTimestamp.Some?
  {
    Min(Abs(t - s.startTimestamp.value) as real, Abs(t - OrElse(s.endTimestamp, 0)) as real)
  }

  /** The three orders the pass ranks sessions by; a larger key wins. */
  datatype Order = Closeness(t: int) | ByBigBlind | BySpace

  /** Closeness is the negated distance, 0 for sessions without a start
      (those are never ranked by it). */
  function Key(o: Order, s: Session): real
  {
    match o
    case Closeness(t) => if TruthyInt(s.startTimestamp) then -Distance(s, t) else 0.0
    case ByBigBlind => BigBlindKey(s)
    case BySpace => SpaceKey(s)
  }

  /** Position in `idxs` of the first largest key: `reduce((best, x) =>
      !best || key(x) > key(best) ? x : best, null)` over `idxs`. */
  function FirstMaxPos(idxs: seq<nat>, sessions: seq<Session>, o: Order): (p: nat)
    requires |idxs| > 0
    requires forall j :: 0 <= j < |idxs| ==> idxs[j] < |sessions|
    ensures p < |idxs|
    decreases |idxs|
  {
    if |idxs| == 1 then 0
    else
      var n := |idxs| - 1;
      var b := FirstMaxPos(idxs[..n], sessions, o);
      if Key(o, sessions[idxs[n]]) > Key(o, sessions[idxs[b]]) then n else b
  }

  /** The position found holds a largest key, and every earlier key is
      strictly smaller. */
  lemma {:induction false} FirstMaxPosFacts(idxs: seq<nat>, sessions: seq<Session>, o: Order)
    requires |idxs| > 0
    requires forall j :: 0 <= j < |idxs| ==> idxs[j] < |sessions|
    ensures var p := FirstMaxPos(idxs, sessions, o);
      (forall j :: 0 <= j < |idxs| ==> Key(o, sessions[idxs[j]]) <= Key(o, sessions[idxs[p]])) &&
      (forall j :: 0 <= j < p ==> Key(o, sessions[idxs[j]]) < Key(o, sessions[idxs[p]]))
    decreases |idxs|
  {
    if |idxs| > 1 {
      var n := |idxs| - 1;
      FirstMaxPosFacts(idxs[..n], sessions, o);
      assert forall j :: 0 <= j < n ==> idxs[..n][j] == idxs[j];
    }
  }

  /** The first largest key is the only position with both properties. */
  lemma FirstMaxPosUnique(idxs: seq<nat>, sessions: seq<Session>, o: Order, q: nat)
    requires |idxs| > 0
    requires forall j :: 0 <= j < |idxs| ==> idxs[j] < |sessions|
    requires q < |idxs|
    requires forall j :: 0 <= j < |idxs| ==> Key(o, sessions[idxs[j]]) <= Key(o, sessions[idxs[q]])
    requires forall j :: 0 <= j < q ==> Key(o, sessions[idxs[j]]) < Key(o, sessions[idxs[q]])
    ensures FirstMaxPos(idxs, sessions, o) == q
  {
    FirstMaxPosFacts(idxs, sessions, o);
  }

  function AllIndices(n: nat): (r: seq<nat>)
    ensures |r| == n && forall i :: 0 <= i < n ==> r[i] == i
  {
    if n == 0 then [] else AllIndices(n - 1) + [n - 1]
  }

  /** `highestStakesSession`: the first session with the largest big blind,
      or `null` when there are none. */
  function HighestStakes(sessions: seq<Session>): (r: Option<nat>)
    ensures r.None? <==> |sessions| == 0
    ensures r.Some? ==> r.value < |sessions|
    ensures r.Some? ==> forall i :: 0 <= i < |sessions| ==> BigBlindKey(sessions[i]) <= BigBlindKey(sessions[r.value])
    ensures r.Some? ==> forall i :: 0 <= i < r.value ==> BigBlindKey(sessions[i]) < BigBlindKey(sessions[r.value])
  {
    if |sessions| == 0 then None
    else
      var p := FirstMaxPos(AllIndices(|sessions|), sessions, ByBigBlind);
      FirstMaxOfAll(sessions, p);
      Some(p)
  }

  lemma FirstMaxOfAll(sessions: seq<Session>, p: nat)
    requires |sessions| > 0 && p == FirstMaxPos(AllIndices(|sessions|), sessions, ByBigBlind)
    ensures p < |sessions|
    ensures forall i :: 0 <= i < |sessions| ==> BigBlindKey(sessions[i]) <= BigBlindKey(sessions[p])
    ensures forall i :: 0 <= i < p ==> BigBlindKey(sessions[i]) < BigBlindKey(sessions[p])
  {
    var all := AllIndices(|sessions|);
    FirstMaxPosFacts(all, sessions, ByBigBlind);
    assert all[p] == p;
    forall i | 0 <= i < |sessions|
      ensures BigBlindKey(sessions[i]) <= BigBlindKey(sessions[p])
      ensures i < p ==> BigBlindKey(sessions[i]) < BigBlindKey(sessions[p])
    {
      assert all[i] == i;
    }
  }

  /** `new Set(possibleSessions.map((s) => s.bigBlind))`. */
  function UniqueBigBlinds(sessions: seq<Session>, cands: seq<nat>): set<Option<real>>
    requires forall p :: 0 <= p < |cands| ==> cands[p] < |sessions|
    decreases |cands|
  {
    if |cands| == 0 then {}
    else UniqueBigBlinds(sessions, cands[..|cands| - 1]) + {sessions[cands[|cands| - 1]].bigBlind}
  }

  /** The set holds the candidates' big blinds and nothing else. */
  lemma {:induction false} UniqueBigBlindsMembers(sessions: seq<Session>, cands: seq<nat>, x: Option<real>)
    requires forall p :: 0 <= p < |cands| ==> cands[p] < |sessions|
    ensures x in UniqueBigBlinds(sessions, cands) <==>
            exists p :: 0 <= p < |cands| && sessions[cands[p]].bigBlind == x
    decreases |cands|
  {
    if |cands| > 0 {
      var n := |cands| - 1;
      UniqueBigBlindsMembers(sessions, cands[..n], x);
      if exists p :: 0 <= p < n && sessions[cands[..n][p]].bigBlind == x {
        var p :| 0 <= p < n && sessions[cands[..n][p]].bigBlind == x;
        assert sessions[cands[p]].bigBlind == x;
      }
      if exists p :: 0 <= p < |cands| && sessions[cands[p]].bigBlind == x {
        var p :| 0 <= p < |cands| && sessions[cands[p]].bigBlind == x;
        if p < n {
          assert sessions[cands[..n][p]].bigBlind == x;
        }
      }
    }
  }

  /** The set has more than one element exactly when two candidates
      differ in big blind. */
  lemma UniqueBigBlindsSize(sessions: seq<Session>, cands: seq<nat>)
    requires |cands| > 0
    requires forall p :: 0 <= p < |cands| ==> cands[p] < |sessions|
    ensures |UniqueBigBlinds(sessions, cands)| > 1 <==>
            exists p :: 0 <= p < |cands| && sessions[cands[p]].bigBlind != sessions[cands[0]].bigBlind
  {
    var u := UniqueBigBlinds(sessions, cands);
    var first := sessions[cands[0]].bigBlind;
    UniqueBigBlindsMembers(sessions, cands, first);
    if exists p :: 0 <= p < |cands| && sessions[cands[p]].bigBlind != first {
      var p :| 0 <= p < |cands| && sessions[cands[p]].bigBlind != first;
      var other := sessions[cands[p]].bigBlind;
      UniqueBigBlindsMembers(sessions, cands, other);
      assert {first, other} <= u;
      assert |{first, other}| == 2;
      SubsetSize(u, {first, other});
    } else {
      forall x | x in u ensures x == first {
        UniqueBigBlindsMembers(sessions, cands, x);
      }
      assert u == {first};
    }
  }

  lemma SubsetSize<T>(u: set<T>, small: set<T>)
    requires small <= u
    ensures |small| <= |u|
  {
    assert u == small + (u - small);
  }

  /** Where a hand goes: the session index (`null` when there are no
      sessions at all), and whether it counts as unmatched. */
  datatype Choice = Choice(session: Option<nat>, unmatched: bool)

  /** One hand's choice (extension/pageScript.js:259-322): the only
      candidate; among several, the first with the largest big blind when
      their big blinds differ and otherwise the first with the most room
      left; with no candidate, the first closest session that has a start;
      with none of those either, the highest-stakes session, and the hand
      is counted as unmatched. */
  function Choose(sessions: seq<Session>, t: int, highest: Option<nat>): (c: Choice)
    requires highest.Some? ==> highest.value < |sessions|
    ensures c.session.Some? ==> c.session.value < |sessions|
    ensures c.unmatched <==> |Candidates(sessions, t)| == 0 &&
                             forall i :: 0 <= i < |sessions| ==> !TruthyInt(sessions[i].startTimestamp)
    ensures c.unmatched ==> c.session == highest
    ensures !c.unmatched ==> c.session.Some?
    ensures |Candidates(sessions, t)| > 0 ==> Candidate(sessions[c.session.value], t)
  {
    if |Candidates(sessions, t)| == 0 then Fallback(sessions, t, highest)
    else Choice(Some(AmongCandidates(sessions, t)), false)
  }

  /** No session covers the hand: the first closest session with a start,
      else the highest-stakes session, counted as unmatched. */
  function Fallback(sessions: seq<Session>, t: int, highest: Option<nat>): (c: Choice)
    requires highest.Some? ==> highest.value < |sessions|
    ensures c.session.Some? ==> c.session.value < |sessions|
    ensures c.unmatched <==> forall i :: 0 <= i < |sessions| ==> !TruthyInt(sessions[i].startTimestamp)
    ensures c.unmatched ==> c.session == highest
    ensures !c.unmatched ==> c.session.Some?
  {
    KeepFacts(sessions, HasStart);
    var withStart := WithStart(sessions);
    if |withStart| > 0 then
      assert Accepts(HasStart, sessions[withStart[0]]);
      Choice(Some(withStart[FirstMaxPos(withStart, sessions, Closeness(t))]), false)
    else
      Choice(highest, true)
  }

  /** Some session covers the hand: the only one, or the first best by big
      blind when the big blinds differ, else the first best by room left. */
  function AmongCandidates(sessions: seq<Session>, t: int): (v: nat)
    requires |Candidates(sessions, t)| > 0
    ensures v < |sessions| && Candidate(sessions[v], t)
  {
    KeepFacts(sessions, Covers(t));
    var cands := Candidates(sessions, t);
    var p := if |cands| == 1 then 0
             else if |UniqueBigBlinds(sessions, cands)| > 1 then FirstMaxPos(cands, sessions, ByBigBlind)
             else FirstMaxPos(cands, sessions, BySpace);
    assert Accepts(Covers(t), sessions[cands[p]]);
    cands[p]
  }

  /** With no candidate, the hand goes to the first session, among those
      with a start, at the smallest distance. */
  lemma ChooseClosest(sessions: seq<Session>, t: int, highest: Option<nat>)
    requires highest.Some? ==> highest.value < |sessions|
    requires |Candidates(sessions, t)| == 0
    requires exists i :: 0 <= i < |sessions| && TruthyInt(sessions[i].startTimestamp)
    ensures var v := Choose(sessions, t, highest).session.value;
              TruthyInt(sessions[v].startTimestamp) &&
              (forall i :: 0 <= i < |sessions| && TruthyInt(sessions[i].startTimestamp) ==>
                 Distance(sessions[v], t) <= Distance(sessions[i], t)) &&
              (forall i :: 0 <= i < v && TruthyInt(sessions[i].startTimestamp) ==>
                 Distance(sessions[v], t) < Distance(sessions[i], t))
  {
    var withStart := WithStart(sessions);
    KeepFacts(sessions, HasStart);
    var i0 :| 0 <= i0 < |sessions| && TruthyInt(sessions[i0].startTimestamp);
    assert Accepts(HasStart, sessions[i0]);
    assert i0 in withStart;
    var p := FirstMaxPos(withStart, sessions, Closeness(t));
    assert Choose(sessions, t, highest).session.value == withStart[p];
    ClosestFacts(sessions, t, withStart, p);
  }

  lemma ClosestFacts(sessions: seq<Session>, t: int, withStart: seq<nat>, p: nat)
    requires withStart == WithStart(sessions)
    requires |withStart| > 0 && p == FirstMaxPos(withStart, sessions, Closeness(t))
    ensures TruthyInt(sessions[withStart[p]].startTimestamp)
    ensures var v := withStart[p];
              (forall i :: 0 <= i < |sessions| && TruthyInt(sessions[i].startTimestamp) ==>
                 Distance(sessions[v], t) <= Distance(sessions[i], t)) &&
              (forall i :: 0 <= i < v && TruthyInt(sessions[i].startTimestamp) ==>
                 Distance(sessions[v], t) < Distance(sessions[i], t))
  {
    var o := Closeness(t);
    KeptBest(sessions, HasStart, o);
    var v := withStart[p];
    forall i | 0 <= i < |sessions| && TruthyInt(sessions[i].startTimestamp)
      ensures Key(o, sessions[i]) == -Distance(sessions[i], t)
    {
    }
  }

  /** Among several candidates whose big blinds differ, the hand goes to
      the first candidate with the largest big blind. */
  lemma ChooseMixedStakes(sessions: seq<Session>, t: int, highest: Option<nat>)
    requires highest.Some? ==> highest.value < |sessions|
    requires var cands := Candidates(sessions, t);
      |cands| > 1 && exists p :: 0 <= p < |cands| && sessions[cands[p]].bigBlind != sessions[cands[0]].bigBlind
    ensures var v := Choose(sessions, t, highest).session.value;
      (forall i :: 0 <= i < |sessions| && Candidate(sessions[i], t) ==>
         BigBlindKey(sessions[i]) <= BigBlindKey(sessions[v])) &&
      (forall i :: 0 <= i < v && Candidate(sessions[i], t) ==>
         BigBlindKey(sessions[i]) < BigBlindKey(sessions[v]))
  {
    var cands := Candidates(sessions, t);
    UniqueBigBlindsSize(sessions, cands);
    BestCandidate(sessions, t, cands, ByBigBlind);
  }

  /** Among several candidates sharing one big blind, the hand goes to the
      first candidate with the most room left. */
  lemma ChooseSameStakes(sessions: seq<Session>, t: int, highest: Option<nat>)
    requires highest.Some? ==> highest.value < |sessions|
    requires var cands := Candidates(sessions, t);
      |cands| > 1 && forall p :: 0 <= p < |cands| ==> sessions[cands[p]].bigBlind == sessions[cands[0]].bigBlind
    ensures var v := Choose(sessions, t, highest).session.value;
      (forall i :: 0 <= i < |sessions| && Candidate(sessions[i], t) ==>
         SpaceKey(sessions[i]) <= SpaceKey(sessions[v])) &&
      (forall i :: 0 <= i < v && Candidate(sessions[i], t) ==>
         SpaceKey(sessions[i]) < SpaceKey(sessions[v]))
  {
    var cands := Candidates(sessions, t);
    UniqueBigBlindsSize(sessions, cands);
    BestCandidate(sessions, t, cands, BySpace);
  }

  /** The first largest key among the sessions a filter keeps, read back
      on session indices. */
  lemma KeptBest(sessions: seq<Session>, f: Filter, o: Order)
    requires |Keep(sessions, f)| > 0
    ensures var w := Keep(sessions, f);
      var v := w[FirstMaxPos(w, sessions, o)];
      Accepts(f, sessions[v]) &&
      (forall i :: 0 <= i < |sessions| && Accepts(f, sessions[i]) ==> Key(o, sessions[i]) <= Key(o, sessions[v])) &&
      (forall i :: 0 <= i < v && Accepts(f, sessions[i]) ==> Key(o, sessions[i]) < Key(o, sessions[v]))
  {
    var w := Keep(sessions, f);
    var p := FirstMaxPos(w, sessions, o);
    KeepFacts(sessions, f);
    FirstMaxPosFacts(w, sessions, o);
    var v := w[p];
    forall i | 0 <= i < |sessions| && Accepts(f, sessions[i])
      ensures Key(o, sessions[i]) <= Key(o, sessions[v])
      ensures i < v ==> Key(o, sessions[i]) < Key(o, sessions[v])
    {
      var q :| 0 <= q < |w| && w[q] == i;
      assert Key(o, sessions[w[q]]) <= Key(o, sessions[v]);
      if i < v {
        assert q < p;
      }
    }
  }

  /** The first largest key among the candidates, read back on session indices. */
  lemma BestCandidate(sessions: seq<Session>, t: int, cands: seq<nat>, o: Order)
    requires cands == Candidates(sessions, t) && |cands| > 0
    ensures var v := cands[FirstMaxPos(cands, sessions, o)];
      (forall i :: 0 <= i < |sessions| && Candidate(sessions[i], t) ==> Key(o, sessions[i]) <= Key(o, sessions[v])) &&
      (forall i :: 0 <= i < v && Candidate(sessions[i], t) ==> Key(o, sessions[i]) < Key(o, sessions[v]))
  {
    KeptBest(sessions, Covers(t), o);
  }
}
