/** extension/refactored/dataProcessing.js: hands are matched to sessions by
    Kuhn's augmenting-path algorithm over a compatibility graph. Every
    session takes at most one hand (occupancy is looked up with
    `matching.indexOf(session)`), so the result is a unit-capacity bipartite
    matching; the recorded per-session hand counts play no part. */
module KuhnMatching {
  import opened Common
  import opened DataExtraction

  /** A hand may go to a session when its time lies inside the session's
      window, both ends included. */
  predicate Compatible(p: ChartPoint, s: Session)
  {
    s.startTime <= p.time <= s.endTime
  }

  /** Every edge of the graph names a session index below `numSessions`. */
  predicate ValidGraph(graph: seq<seq<nat>>, numSessions: nat)
  {
    forall h, k :: 0 <= h < |graph| && 0 <= k < |graph[h]| ==> graph[h][k] < numSessions
  }

  /** `matching.indexOf(v)`: the first hand holding `v`, or -1. */
  function IndexOf(m: seq<int>, v: int): (r: int)
    ensures -1 <= r < |m|
    ensures r >= 0 ==> m[r] == v && forall i :: 0 <= i < r ==> m[i] != v
    ensures r == -1 ==> forall i :: 0 <= i < |m| ==> m[i] != v
    decreases |m|
  {
    if |m| == 0 then -1
    else if m[0] == v then 0
    else
      var r := IndexOf(m[1..], v);
      if r == -1 then -1 else r + 1
  }

  /** No session is held by two hands. */
  predicate UnitCapacity(m: seq<int>)
  {
    forall i, j :: 0 <= i < j < |m| && m[i] != -1 ==> m[i] != m[j]
  }

  /** Every hand is unmatched (-1) or holds a session it has an edge to. */
  predicate OnEdges(graph: seq<seq<nat>>, m: seq<int>)
    requires |m| == |graph|
  {
    forall h :: 0 <= h < |m| ==> m[h] == -1 || m[h] in graph[h]
  }

  predicate IsMatching(graph: seq<seq<nat>>, m: seq<int>)
  {
    |m| == |graph| && OnEdges(graph, m) && UnitCapacity(m)
  }

  /** The hands that hold a session. */
  function MatchedHands(m: seq<int>): set<int>
  {
    set h | 0 <= h < |m| && m[h] != -1
  }

  /** The hands that hold no session. */
  function UnmatchedHands(m: seq<int>): set<int>
  {
    set h | 0 <= h < |m| && m[h] == -1
  }

  /** No matching of the same graph matches more hands. */
  ghost predicate IsMaximum(graph: seq<seq<nat>>, m: seq<int>)
  {
    forall m' :: IsMatching(graph, m') ==> |MatchedHands(m')| <= |MatchedHands(m)|
  }

  // ---------------------------------------------------------------------
  // Building the graph.

  /** `createBipartiteGraph`: for each hand, in increasing session index, the
      sessions whose window contains the hand's time. */
  method CreateBipartiteGraph(sessions: seq<Session>, points: seq<ChartPoint>)
    returns (graph: seq<seq<nat>>)
    ensures |graph| == |points|
    ensures ValidGraph(graph, |sessions|)
    ensures forall h, s :: 0 <= h < |points| && 0 <= s < |sessions| ==>
              (s in graph[h] <==> Compatible(points[h], sessions[s]))
    ensures forall h, a, b :: 0 <= h < |graph| && 0 <= a < b < |graph[h]| ==> graph[h][a] < graph[h][b]
  {
    graph := [];
    for handIndex := 0 to |points|
      invariant |graph| == handIndex
      invariant ValidGraph(graph, |sessions|)
      invariant forall h, s :: 0 <= h < handIndex && 0 <= s < |sessions| ==>
                  (s in graph[h] <==> Compatible(points[h], sessions[s]))
      invariant forall h, a, b :: 0 <= h < handIndex && 0 <= a < b < |graph[h]| ==> graph[h][a] < graph[h][b]
    {
      var edges: seq<nat> := [];
      for sessionIndex := 0 to |sessions|
        invariant forall k :: 0 <= k < |edges| ==> edges[k] < sessionIndex
        invariant forall s :: 0 <= s < sessionIndex ==> (s in edges <==> Compatible(points[handIndex], sessions[s]))
        invariant forall a, b :: 0 <= a < b < |edges| ==> edges[a] < edges[b]
      {
        if Compatible(points[handIndex], sessions[sessionIndex]) {
          edges := edges + [sessionIndex];
        }
      }
      graph := graph + [edges];
    }
  }

  // ---------------------------------------------------------------------
  // The augmenting-path search.

  /** The sessions not yet tried in the current search; it shrinks with
      every session the search marks, which is why the recursion ends. */
  function Unvisited(visited: seq<bool>): set<int>
  {
    set s | 0 <= s < |visited| && !visited[s]
  }

  /** A certificate that the hands of failed searches can never be matched
      later: every session in `dead` is held, and the hand holding it has
      edges only into `dead`. */
  ghost predicate DeadSessions(graph: seq<seq<nat>>, m: seq<int>, dead: set<int>)
    requires |m| == |graph|
  {
    forall s :: s in dead ==>
      s >= 0 && IndexOf(m, s) != -1 && forall t :: t in graph[IndexOf(m, s)] ==> t in dead
  }

  /** Marks are never removed. */
  predicate Grows(v0: seq<bool>, v: seq<bool>)
  {
    |v| == |v0| && forall s :: 0 <= s < |v0| && v0[s] ==> v[s]
  }

  /** Every session in `edges` is marked. */
  predicate Tried(edges: seq<nat>, v: seq<bool>)
  {
    forall t :: t in edges ==> t < |v| && v[t]
  }

  /** Every session marked since `v0` is held, and its holder's sessions are
      all marked. */
  predicate ClosedMarks(graph: seq<seq<nat>>, m: seq<int>, v0: seq<bool>, v: seq<bool>)
    requires |m| == |graph| && |v| == |v0|
  {
    forall s :: 0 <= s < |v| && v[s] && !v0[s] ==>
      IndexOf(m, s) != -1 && Tried(graph[IndexOf(m, s)], v)
  }

  /** `m` is `m0` after an augmenting path from `hand`: the hand now holds a
      different session, and every hand that changed moved onto a session
      unmarked in `v0` and outside `dead`; every hand but the first one was
      matched before, to such a session too. */
  ghost predicate Augments(m0: seq<int>, m: seq<int>, v0: seq<bool>, dead: set<int>, hand: nat)
    requires |m| == |m0|
  {
    hand < |m| && m[hand] != -1 && m[hand] != m0[hand] &&
    forall y :: 0 <= y < |m| && m[y] != m0[y] ==>
      var now, was := m[y], m0[y];
      0 <= now < |v0| && !v0[now] && now !in dead &&
      (y == hand || (0 <= was < |v0| && !v0[was] && was !in dead))
  }

  /** `findAugmentingPath`: tries the hand's sessions in graph order; a
      session not visited in this search is marked and taken when free, or
      when the hand holding it can move elsewhere. On success every hand on
      the path holds a new session, so exactly one more hand is matched; on
      failure nothing changes and every session marked is held by a hand
      whose sessions are all marked. */
  method FindAugmentingPath(graph: seq<seq<nat>>, hand: nat, visited: array<bool>,
                            matching: array<int>, ghost dead: set<int>)
    returns (found: bool)
    requires ValidGraph(graph, visited.Length)
    requires hand < |graph| == matching.Length
    requires IsMatching(graph, matching[..])
    requires DeadSessions(graph, matching[..], dead)
    requires matching[hand] == -1 || (0 <= matching[hand] < visited.Length && visited[matching[hand]])
    modifies visited, matching
    decreases Unvisited(visited[..])
    ensures IsMatching(graph, matching[..])
    ensures Grows(old(visited[..]), visited[..])
    ensures !found ==> matching[..] == old(matching[..])
    ensures !found ==> Tried(graph[hand], visited[..])
    ensures !found ==> ClosedMarks(graph, matching[..], old(visited[..]), visited[..])
    ensures (forall t :: t in graph[hand] ==> t in dead) ==> !found
    ensures found ==> Augments(old(matching[..]), matching[..], old(visited[..]), dead, hand)
    ensures found ==> MatchedHands(matching[..]) == MatchedHands(old(matching[..])) + {hand}
  {
    ghost var m0 := matching[..];
    ghost var v0 := visited[..];
    var edges := graph[hand];
    for k := 0 to |edges|
      invariant matching[..] == m0
      invariant Grows(v0, visited[..])
      invariant Tried(edges[..k], visited[..])
      invariant ClosedMarks(graph, m0, v0, visited[..])
      invariant Unvisited(visited[..]) <= Unvisited(v0)
    {
      var session := edges[k];
      ghost var vk := visited[..];
      if !visited[session] {
        visited[session] := true;
        ghost var vc := visited[..];
        Mark(graph, m0, v0, vk, vc, edges, k, session);
        var holder := IndexOf(matching[..], session);
        if holder == -1 {
          matching[hand] := session;
          TakeFree(graph, m0, hand, session, v0, dead);
          return true;
        }
        var moved := FindAugmentingPath(graph, holder, visited, matching, dead);
        if moved {
          ghost var m1 := matching[..];
          matching[hand] := session;
          TakeFreed(graph, m0, m1, hand, holder, session, v0, vc, dead);
          return true;
        }
        Blocked(graph, m0, v0, vc, visited[..], holder, session, edges, k);
      } else {
        assert edges[..k + 1] == edges[..k] + [session];
      }
    }
    assert edges[..|edges|] == edges;
    return false;
  }

  /** Marking the next unmarked session shrinks the unmarked set and keeps
      the loop's claims about the sessions tried so far. */
  lemma Mark(graph: seq<seq<nat>>, m0: seq<int>, v0: seq<bool>, vk: seq<bool>, vc: seq<bool>,
             edges: seq<nat>, k: nat, session: nat)
    requires k < |edges| && edges[k] == session && session < |vk|
    requires Grows(v0, vk) && Unvisited(vk) <= Unvisited(v0) && !vk[session]
    requires vc == vk[session := true]
    requires Tried(edges[..k], vk)
    ensures Grows(v0, vc) && Grows(vk, vc)
    ensures Unvisited(vc) < Unvisited(v0)
    ensures Tried(edges[..k + 1], vc)
    ensures !v0[session]
  {
    assert session in Unvisited(v0) && session !in Unvisited(vc);
    assert edges[..k + 1] == edges[..k] + [session];
  }

  /** A failed search from the holder leaves the just-marked session held by a
      hand whose sessions are all marked. */
  lemma Blocked(graph: seq<seq<nat>>, m0: seq<int>, v0: seq<bool>, vc: seq<bool>, v: seq<bool>,
                holder: int, session: nat, edges: seq<nat>, k: nat)
    requires |m0| == |graph| && |vc| == |v0|
    requires k < |edges| && edges[k] == session && session < |vc| && vc[session]
    requires 0 <= holder < |m0| && IndexOf(m0, session) == holder
    requires Grows(v0, vc) && Grows(vc, v)
    requires ClosedMarks(graph, m0, v0, vc[session := false])
    requires ClosedMarks(graph, m0, vc, v)
    requires Tried(graph[holder], v)
    requires Tried(edges[..k + 1], vc)
    requires Unvisited(vc) < Unvisited(v0)
    ensures Grows(v0, v)
    ensures Tried(edges[..k + 1], v)
    ensures ClosedMarks(graph, m0, v0, v)
    ensures Unvisited(v) <= Unvisited(v0)
  {
    forall s | 0 <= s < |v| && v[s] && !v0[s]
      ensures IndexOf(m0, s) != -1 && Tried(graph[IndexOf(m0, s)], v)
    {
      if s != session && vc[s] {
        assert vc[session := false][s];
      }
    }
  }

  /** Taking a free session completes an augmenting path of length one. */
  lemma TakeFree(graph: seq<seq<nat>>, m0: seq<int>, hand: nat, session: nat, v0: seq<bool>, dead: set<int>)
    requires IsMatching(graph, m0) && DeadSessions(graph, m0, dead)
    requires hand < |m0| && session in graph[hand] && session < |v0| && !v0[session]
    requires m0[hand] == -1 || (0 <= m0[hand] < |v0| && v0[m0[hand]])
    requires IndexOf(m0, session) == -1
    ensures IsMatching(graph, m0[hand := session])
    ensures Augments(m0, m0[hand := session], v0, dead, hand)
    ensures MatchedHands(m0[hand := session]) == MatchedHands(m0) + {hand}
    ensures session !in dead
  {
  }

  /** Taking the session the holder gave up extends the holder's augmenting
      path by one hand. */
  lemma TakeFreed(graph: seq<seq<nat>>, m0: seq<int>, m1: seq<int>, hand: nat, holder: nat,
                  session: nat, v0: seq<bool>, vc: seq<bool>, dead: set<int>)
    requires IsMatching(graph, m0) && IsMatching(graph, m1)
    requires DeadSessions(graph, m0, dead)
    requires hand < |m0| && session in graph[hand] && IndexOf(m0, session) == holder
    requires |vc| == |v0| && session < |v0| && vc[session] && !v0[session]
    requires Grows(v0, vc)
    requires m0[hand] == -1 || (0 <= m0[hand] < |v0| && v0[m0[hand]])
    requires Augments(m0, m1, vc, dead, holder)
    requires MatchedHands(m1) == MatchedHands(m0) + {holder}
    ensures IsMatching(graph, m1[hand := session])
    ensures Augments(m0, m1[hand := session], v0, dead, hand)
    ensures MatchedHands(m1[hand := session]) == MatchedHands(m0) + {hand}
    ensures session !in dead
  {
    assert m0[holder] == session;
    assert hand != holder;
    assert m1[hand] == m0[hand];
    assert forall i :: 0 <= i < |m1| && i != hand ==> m1[i] != session;
    assert m1[holder] in graph[holder] && m1[holder] !in dead;
    TakeSession(graph, m1, hand, session);
    assert holder in MatchedHands(m0);
  }

  /** Giving a hand a session nobody else holds keeps a matching and matches the hand. */
  lemma TakeSession(graph: seq<seq<nat>>, m: seq<int>, hand: nat, session: nat)
    requires IsMatching(graph, m)
    requires hand < |m| && session in graph[hand]
    requires forall i :: 0 <= i < |m| && i != hand ==> m[i] != session
    ensures IsMatching(graph, m[hand := session])
    ensures MatchedHands(m[hand := session]) == MatchedHands(m) + {hand}
  {
  }

  /** The search for the next hand starts from a fresh `visited` array; the
      matching collects every successful augmentation. The ghost set `dead`
      collects the sessions marked by failed searches: they stay held by
      hands that cannot move, which certifies that the final matching is
      maximum. */
  method FindMaximumBipartiteMatching(graph: seq<seq<nat>>, numHands: nat, numSessions: nat)
    returns (matching: array<int>)
    requires |graph| == numHands
    requires ValidGraph(graph, numSessions)
    ensures fresh(matching)
    ensures matching.Length == numHands
    ensures IsMatching(graph, matching[..])
    ensures IsMaximum(graph, matching[..])
  {
    matching := new int[numHands](_ => -1);
    ghost var dead: set<int> := {};
    for hand := 0 to numHands
      invariant IsMatching(graph, matching[..])
      invariant forall h :: hand <= h < numHands ==> matching[h] == -1
      invariant DeadSessions(graph, matching[..], dead)
      invariant forall u :: 0 <= u < hand && matching[u] == -1 ==> forall t :: t in graph[u] ==> t in dead
    {
      var visited := new bool[numSessions](_ => false);
      ghost var before := matching[..];
      ghost var cleared := visited[..];
      var found := FindAugmentingPath(graph, hand, visited, matching, dead);
      if found {
        Augmented(graph, before, matching[..], cleared, hand, dead);
      } else {
        ghost var marked := set s | 0 <= s < numSessions && visited[s];
        Failed(graph, matching[..], cleared, visited[..], hand, dead, marked);
        dead := dead + marked;
      }
    }
    MaximumFromCertificate(graph, matching[..], dead);
  }

  /** An augmentation from an unmatched hand that avoids the dead sessions
      keeps the dead certificate. */
  lemma Augmented(graph: seq<seq<nat>>, m0: seq<int>, m1: seq<int>, v: seq<bool>, hand: nat, dead: set<int>)
    requires IsMatching(graph, m0) && IsMatching(graph, m1)
    requires hand < |m0| && m0[hand] == -1
    requires DeadSessions(graph, m0, dead)
    requires Augments(m0, m1, v, dead, hand)
    ensures DeadSessions(graph, m1, dead)
    ensures forall h :: 0 <= h < |m1| && m1[h] == -1 ==> m0[h] == -1
    ensures forall h :: hand < h < |m1| && m0[h] == -1 ==> m1[h] == -1
  {
    forall s | s in dead
      ensures s >= 0 && IndexOf(m1, s) != -1 && forall t :: t in graph[IndexOf(m1, s)] ==> t in dead
    {
      var h := IndexOf(m0, s);
      assert m0[h] == s && s != -1;
      assert m1[h] == s;
      Holder(m1, h, s);
    }
  }

  /** A failed search from a fresh `visited` array adds its marked sessions
      to the certificate, together with the searching hand. */
  lemma Failed(graph: seq<seq<nat>>, m: seq<int>, v0: seq<bool>, v: seq<bool>, hand: nat,
                dead: set<int>, marked: set<int>)
    requires IsMatching(graph, m) && hand < |m|
    requires DeadSessions(graph, m, dead)
    requires |v0| == |v| && forall s :: 0 <= s < |v0| ==> !v0[s]
    requires marked == set s | 0 <= s < |v| && v[s]
    requires Tried(graph[hand], v)
    requires ClosedMarks(graph, m, v0, v)
    ensures DeadSessions(graph, m, dead + marked)
    ensures forall t :: t in graph[hand] ==> t in marked
  {
    forall s | s in marked
      ensures s >= 0 && IndexOf(m, s) != -1 && forall t :: t in graph[IndexOf(m, s)] ==> t in dead + marked
    {
      assert !v0[s];
    }
  }

  /** In a unit-capacity assignment the holder of a session is the first one. */
  lemma Holder(m: seq<int>, h: nat, s: int)
    requires UnitCapacity(m) && h < |m| && m[h] == s && s != -1
    ensures IndexOf(m, s) == h
  {
  }

  // ---------------------------------------------------------------------
  // Maximality.

  /** A dead certificate proves maximality: the unmatched hands and the
      holders of dead sessions only have edges into the dead sessions, so
      any matching matches at most |dead| of them, and that is how many of
      them the given matching matches. */
  lemma MaximumFromCertificate(graph: seq<seq<nat>>, m: seq<int>, dead: set<int>)
    requires IsMatching(graph, m)
    requires DeadSessions(graph, m, dead)
    requires forall u :: 0 <= u < |m| && m[u] == -1 ==> forall t :: t in graph[u] ==> t in dead
    ensures IsMaximum(graph, m)
  {
    forall m' | IsMatching(graph, m')
      ensures |MatchedHands(m')| <= |MatchedHands(m)|
    {
      CertificateBound(graph, m, dead, m');
    }
  }

  lemma CertificateBound(graph: seq<seq<nat>>, m: seq<int>, dead: set<int>, m': seq<int>)
    requires IsMatching(graph, m) && IsMatching(graph, m')
    requires DeadSessions(graph, m, dead)
    requires forall u :: 0 <= u < |m| && m[u] == -1 ==> forall t :: t in graph[u] ==> t in dead
    ensures |MatchedHands(m')| <= |MatchedHands(m)|
  {
    var holders := Holders(graph, m, dead);
    var closed := UnmatchedHands(m) + holders;
    var inside := MatchedHands(m') * closed;
    ClosedEdges(graph, m, dead, m');
    assert -1 !in dead;
    ImageBound(m', inside, dead);
    OutsideBound(m, m', holders);
  }

  /** Outside the closed hands another matching matches no more hands than
      the given matching matches there. */
  lemma OutsideBound(m: seq<int>, m': seq<int>, holders: set<int>)
    requires |m'| == |m| && holders <= MatchedHands(m)
    ensures |MatchedHands(m')| <= |MatchedHands(m') * (UnmatchedHands(m) + holders)| + |MatchedHands(m)| - |holders|
  {
    var matched := MatchedHands(m);
    var closed := UnmatchedHands(m) + holders;
    var matched' := MatchedHands(m');
    forall h | h in matched' - closed ensures h in matched - holders {
      assert 0 <= h < |m|;
    }
    SubsetSize(matched' - closed, matched - holders);
    SplitSize(matched', closed);
    SplitSize(matched, holders);
  }

  /** A set splits into its part inside `b` and its part outside. */
  lemma SplitSize(a: set<int>, b: set<int>)
    ensures |a| == |a * b| + |a - b|
  {
    assert a == (a * b) + (a - b);
    assert (a * b) * (a - b) == {};
  }

  /** The hands holding dead sessions: matched, and as many as the dead sessions. */
  function Holders(graph: seq<seq<nat>>, m: seq<int>, dead: set<int>): (holders: set<int>)
    requires IsMatching(graph, m) && DeadSessions(graph, m, dead)
    ensures holders <= MatchedHands(m)
    ensures |dead| <= |holders|
    ensures forall h :: h in holders ==> forall t :: t in graph[h] ==> t in dead
  {
    var holders := set s | s in dead :: IndexOf(m, s);
    InjectionBound(dead, holders, s => IndexOf(m, s));
    holders
  }

  /** Every hand among the unmatched ones and the dead sessions' holders
      that another matching matches holds a dead session there. */
  lemma ClosedEdges(graph: seq<seq<nat>>, m: seq<int>, dead: set<int>, m': seq<int>)
    requires IsMatching(graph, m) && IsMatching(graph, m')
    requires DeadSessions(graph, m, dead)
    requires forall u :: 0 <= u < |m| && m[u] == -1 ==> forall t :: t in graph[u] ==> t in dead
    ensures forall h :: h in MatchedHands(m') * (UnmatchedHands(m) + Holders(graph, m, dead)) ==>
              0 <= h < |m'| && m'[h] in dead
  {
    var holders := Holders(graph, m, dead);
    forall h | h in MatchedHands(m') * (UnmatchedHands(m) + holders)
      ensures 0 <= h < |m'| && m'[h] in dead
    {
      assert m'[h] in graph[h];
    }
  }

  /** Hands of a unit-capacity assignment that all hold sessions of `target`
      are at most as many as `target`. */
  lemma ImageBound(m: seq<int>, hands: set<int>, target: set<int>)
    requires UnitCapacity(m) && -1 !in target
    requires forall h :: h in hands ==> 0 <= h < |m| && m[h] in target
    ensures |hands| <= |target|
  {
    var f := h => if 0 <= h < |m| then m[h] else -1;
    forall x, y | x in hands && y in hands && x != y ensures f(x) != f(y) {
      if x < y { assert m[x] != m[y]; } else { assert m[y] != m[x]; }
    }
    InjectionBound(hands, target, f);
  }

  lemma SubsetSize(a: set<int>, b: set<int>)
    requires a <= b
    ensures |a| <= |b|
  {
    assert b == a + (b - a);
    assert a * (b - a) == {};
  }

  /** A map that is one-to-one from `a` into `b` shows `|a| <= |b|`. */
  lemma {:induction false} InjectionBound(a: set<int>, b: set<int>, f: int -> int)
    requires forall x :: x in a ==> f(x) in b
    requires forall x, y :: x in a && y in a && x != y ==> f(x) != f(y)
    ensures |a| <= |b|
    decreases |a|
  {
    if exists x :: x in a {
      var x :| x in a;
      InjectionBound(a - {x}, b - {f(x)}, f);
    } else {
      assert a == {};
    }
  }

  // ---------------------------------------------------------------------
  // Reading the matching back.

  /** `mapHandsToSessions`: each matched hand index mapped to its session. */
  method MapHandsToSessions(matching: seq<int>, points: seq<ChartPoint>, sessions: seq<Session>)
    returns (handsToSessions: map<int, Session>)
    requires |matching| == |points|
    requires forall h :: 0 <= h < |matching| ==> matching[h] == -1 || 0 <= matching[h] < |sessions|
    ensures handsToSessions.Keys == MatchedHands(matching)
    ensures forall h :: h in handsToSessions ==> handsToSessions[h] == sessions[matching[h]]
  {
    handsToSessions := map[];
    for handIndex := 0 to |points|
      invariant handsToSessions.Keys == MatchedHands(matching[..handIndex])
      invariant forall h :: h in handsToSessions ==> 0 <= h < handIndex && handsToSessions[h] == sessions[matching[h]]
    {
      MatchedHandsSnoc(matching, handIndex);
      var sessionIndex := matching[handIndex];
      if sessionIndex != -1 {
        handsToSessions := handsToSessions[handIndex := sessions[sessionIndex]];
      }
    }
    assert matching[..|points|] == matching;
  }

  lemma MatchedHandsSnoc(m: seq<int>, i: nat)
    requires i < |m|
    ensures MatchedHands(m[..i + 1]) == MatchedHands(m[..i]) + (if m[i] != -1 then {i} else {})
  {
  }

  /** The hands among the first `n` that the matching leaves out, in index
      order. */
  function UnmatchedAmong(matching: seq<int>, points: seq<ChartPoint>, n: nat): seq<UnmatchedHand>
    requires n <= |matching| == |points|
  {
    if n == 0 then []
    else UnmatchedAmong(matching, points, n - 1) +
         (if matching[n - 1] == -1 then [UnmatchedHand(n - 1, points[n - 1])] else [])
  }

  /** Each listed hand is a left-out hand among the first `n`, with its own
      chart point. */
  lemma {:induction false} UnmatchedAmongSound(matching: seq<int>, points: seq<ChartPoint>, n: nat)
    requires n <= |matching| == |points|
    ensures forall k :: 0 <= k < |UnmatchedAmong(matching, points, n)| ==>
      var x := UnmatchedAmong(matching, points, n)[k];
      0 <= x.index < n && matching[x.index] == -1 && x.data == points[x.index]
  {
    if n > 0 {
      UnmatchedAmongSound(matching, points, n - 1);
      var front := UnmatchedAmong(matching, points, n - 1);
      var u := UnmatchedAmong(matching, points, n);
      assert forall k :: 0 <= k < |front| ==> u[k] == front[k];
    }
  }

  /** Hand `h` is among the listed ones. */
  predicate Lists(u: seq<UnmatchedHand>, h: int)
  {
    exists k :: 0 <= k < |u| && u[k].index == h
  }

  /** Every left-out hand among the first `n` is listed. */
  lemma {:induction false} UnmatchedAmongComplete(matching: seq<int>, points: seq<ChartPoint>, n: nat)
    requires n <= |matching| == |points|
    ensures forall h :: 0 <= h < n && matching[h] == -1 ==> Lists(UnmatchedAmong(matching, points, n), h)
  {
    if n > 0 {
      UnmatchedAmongComplete(matching, points, n - 1);
      var front := UnmatchedAmong(matching, points, n - 1);
      var u := UnmatchedAmong(matching, points, n);
      forall h | 0 <= h < n && matching[h] == -1
        ensures Lists(u, h)
      {
        if h < n - 1 {
          var k :| 0 <= k < |front| && front[k].index == h;
          assert u[k] == front[k];
        } else {
          assert u[|front|].index == h;
        }
      }
    }
  }

  /** The list is in strictly increasing index order. */
  lemma {:induction false} UnmatchedAmongSorted(matching: seq<int>, points: seq<ChartPoint>, n: nat)
    requires n <= |matching| == |points|
    ensures forall a, b :: 0 <= a < b < |UnmatchedAmong(matching, points, n)| ==>
      UnmatchedAmong(matching, points, n)[a].index < UnmatchedAmong(matching, points, n)[b].index
  {
    if n > 0 {
      UnmatchedAmongSorted(matching, points, n - 1);
      UnmatchedAmongSound(matching, points, n - 1);
      var front := UnmatchedAmong(matching, points, n - 1);
      var u := UnmatchedAmong(matching, points, n);
      assert forall k :: 0 <= k < |front| ==> u[k] == front[k];
    }
  }

  /** The left-out and the matched hands among the first `n` are `n`. */
  lemma {:induction false} UnmatchedAmongCount(matching: seq<int>, points: seq<ChartPoint>, n: nat)
    requires n <= |matching| == |points|
    ensures |UnmatchedAmong(matching, points, n)| + |MatchedHands(matching[..n])| == n
  {
    if n > 0 {
      UnmatchedAmongCount(matching, points, n - 1);
      MatchedHandsSnoc(matching, n - 1);
      assert n - 1 !in MatchedHands(matching[..n - 1]);
    } else {
      assert MatchedHands(matching[..0]) == {};
    }
  }

  /** A hand the matching leaves out, with its chart point. */
  datatype UnmatchedHand = UnmatchedHand(index: int, data: ChartPoint)

  /** `findUnmatchedHands`: the unmatched hands in increasing index order;
      together with the matched ones they account for every hand. */
  method FindUnmatchedHands(matching: seq<int>, points: seq<ChartPoint>)
    returns (unmatched: seq<UnmatchedHand>)
    requires |matching| == |points|
    ensures unmatched == UnmatchedAmong(matching, points, |points|)
    ensures forall k :: 0 <= k < |unmatched| ==>
              0 <= unmatched[k].index < |points| && matching[unmatched[k].index] == -1 &&
              unmatched[k].data == points[unmatched[k].index]
    ensures forall h :: 0 <= h < |points| && matching[h] == -1 ==> exists k :: 0 <= k < |unmatched| && unmatched[k].index == h
    ensures forall a, b :: 0 <= a < b < |unmatched| ==> unmatched[a].index < unmatched[b].index
    ensures |unmatched| + |MatchedHands(matching)| == |points|
  {
    unmatched := [];
    for handIndex := 0 to |points|
      invariant unmatched == UnmatchedAmong(matching, points, handIndex)
    {
      if matching[handIndex] == -1 {
        unmatched := unmatched + [UnmatchedHand(handIndex, points[handIndex])];
      }
    }
    UnmatchedAmongSound(matching, points, |points|);
    UnmatchedAmongComplete(matching, points, |points|);
    UnmatchedAmongSorted(matching, points, |points|);
    UnmatchedAmongCount(matching, points, |points|);
    assert matching[..|points|] == matching;
  }

  // ---------------------------------------------------------------------
  // The whole step.

  /** An assignment of hands to compatible sessions, each session to at
      most one hand; -1 leaves a hand out. */
  predicate CompatibleAssignment(sessions: seq<Session>, points: seq<ChartPoint>, m: seq<int>)
  {
    |m| == |points| && UnitCapacity(m) &&
    forall h :: 0 <= h < |m| ==> m[h] == -1 || (0 <= m[h] < |sessions| && Compatible(points[h], sessions[m[h]]))
  }

  datatype MatchResult = MatchResult(handsToSessions: map<int, Session>, unmatchedHands: seq<UnmatchedHand>)

  /** `matchHandsToSessions`: missing inputs give null; otherwise every
      matched hand lies inside its session's window, no assignment of hands
      to compatible sessions matches more hands, and the unmatched hands are
      exactly the others. */
  method MatchHandsToSessions(sessions: Option<seq<Session>>, points: Option<seq<ChartPoint>>)
    returns (r: Option<MatchResult>)
    ensures r.None? <==> sessions.None? || points.None?
    ensures r.Some? ==>
      var hs := r.value.handsToSessions;
      (forall h :: h in hs ==> 0 <= h < |points.value| && hs[h] in sessions.value && Compatible(points.value[h], hs[h])) &&
      (forall m' :: CompatibleAssignment(sessions.value, points.value, m') ==> |MatchedHands(m')| <= |hs|) &&
      |hs| + |r.value.unmatchedHands| == |points.value| &&
      (forall k :: 0 <= k < |r.value.unmatchedHands| ==>
         r.value.unmatchedHands[k].index !in hs && 0 <= r.value.unmatchedHands[k].index < |points.value|)
    ensures r.Some? ==>
      var hs := r.value.handsToSessions;
      var u := r.value.unmatchedHands;
      (exists m :: CompatibleAssignment(sessions.value, points.value, m) && hs.Keys == MatchedHands(m) &&
         forall h :: h in hs ==> hs[h] == sessions.value[m[h]]) &&
      (forall h :: 0 <= h < |points.value| && h !in hs ==> exists k :: 0 <= k < |u| && u[k].index == h) &&
      (forall a, b :: 0 <= a < b < |u| ==> u[a].index < u[b].index)
  {
    if sessions.None? || points.None? {
      return None;
    }
    var sessionList := sessions.value;
    var dataPoints := points.value;
    var graph := CreateBipartiteGraph(sessionList, dataPoints);
    var matching := FindMaximumBipartiteMatching(graph, |dataPoints|, |sessionList|);
    var handsToSessions := MapHandsToSessions(matching[..], dataPoints, sessionList);
    var unmatchedHands := FindUnmatchedHands(matching[..], dataPoints);
    forall m' | CompatibleAssignment(sessionList, dataPoints, m')
      ensures |MatchedHands(m')| <= |handsToSessions|
    {
      assert IsMatching(graph, m');
    }
    MatchedKeysSize(handsToSessions, matching[..]);
    assert CompatibleAssignment(sessionList, dataPoints, matching[..]);
    return Some(MatchResult(handsToSessions, unmatchedHands));
  }

  lemma MatchedKeysSize(hs: map<int, Session>, m: seq<int>)
    requires hs.Keys == MatchedHands(m)
    ensures |hs| == |MatchedHands(m)|
  {
  }
}
