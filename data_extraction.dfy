/** extension/refactored/dataExtraction.js: the session table rows and the
    chart points, as the refactored pipeline reads them. */
module DataExtraction {
  import opened Common
  import opened Strings

  /** One cash-game session of the session table. Times are epoch
      milliseconds; `new Date(text)` is resolved before the model sees it. */
  datatype Session = Session(
    startTime: int,
    endTime: int,
    durationMinutes: nat,
    stakesStr: string,
    smallBlind: real,
    bigBlind: real,
    hands: int,
    result: real)

  /** One point of the chart's data series: `new Date(point.name)` as epoch
      milliseconds, big blinds won `bb`, cash result `c` and all-in EV `ev`. */
  datatype ChartPoint = ChartPoint(time: int, bb: real, c: real, ev: real)

  // ---------------------------------------------------------------------
  // Duration "Xh Ym" (dataExtraction.js:147-169).

  /** `/(\d+)u/` matches with its digits at `q..e`: a non-empty digit run
      immediately followed by the unit letter. */
  predicate MatchesAt(s: string, unit: char, q: nat, e: nat)
  {
    q < e < |s| && AllDigits(s[q..e]) && s[e] == unit
  }

  /** A run of digits can only be extended up to where `RunEnd` stops. */
  lemma RunEndMaximal(s: string, q: nat, e: nat)
    requires q <= e <= |s| && AllDigits(s[q..e])
    ensures e <= RunEnd(s, q)
    ensures AllDigits(s[q..RunEnd(s, q)])
    decreases e - q
  {
    if q < e {
      assert s[q..e][0] == s[q];
      assert s[q + 1..e] == s[q..e][1..];
      RunEndMaximal(s, q + 1, e);
    }
  }

  /** The number of the leftmost match of `/(\d+)u/` that starts at `p` or
      later, as `parseInt(match[1], 10)` reads it; `None` when there is no
      match. The engine tries each start in turn; from a digit it takes the
      whole run and needs the unit right after it. */
  function NumberBefore(s: string, unit: char, p: nat): (r: Option<nat>)
    requires !IsDigit(unit)
    ensures r.None? <==> forall q: nat, e: nat :: p <= q && MatchesAt(s, unit, q, e) ==> false
    ensures r.Some? ==> exists q: nat, e: nat ::
      p <= q && MatchesAt(s, unit, q, e) && r.value == DigitsValue(s[q..e]) &&
      (forall q': nat, e': nat :: p <= q' < q ==> !MatchesAt(s, unit, q', e'))
    decreases |s| - p
  {
    if p >= |s| then None
    else if IsDigit(s[p]) && RunEnd(s, p) < |s| && s[RunEnd(s, p)] == unit then
      var e := RunEnd(s, p);
      assert MatchesAt(s, unit, p, e);
      Some(DigitsValue(s[p..e]))
    else
      NoMatchAt(s, unit, p);
      NumberBefore(s, unit, p + 1)
  }

  /** From a position where the digit run is not followed by the unit, no
      match starts. */
  lemma NoMatchAt(s: string, unit: char, p: nat)
    requires !IsDigit(unit) && p < |s|
    requires !(IsDigit(s[p]) && RunEnd(s, p) < |s| && s[RunEnd(s, p)] == unit)
    ensures forall e: nat :: !MatchesAt(s, unit, p, e)
  {
    forall e: nat | MatchesAt(s, unit, p, e) ensures false {
      RunEndMaximal(s, p, e);
    }
  }

  /** `parseDuration`: 60 minutes per hour of the first "<digits>h" and the
      minutes of the first "<digits>m"; a part that is missing adds 0. */
  function ParseDuration(durationStr: string): (minutes: nat)
    ensures NumberBefore(durationStr, 'h', 0).None? && NumberBefore(durationStr, 'm', 0).None? ==> minutes == 0
  {
    var hours := NumberBefore(durationStr, 'h', 0);
    var mins := NumberBefore(durationStr, 'm', 0);
    (if hours.Some? then hours.value * 60 else 0) + (if mins.Some? then mins.value else 0)
  }

  /** The decimal digits of `n`, without leading zeros. */
  function NatText(n: nat): (s: string)
    ensures |s| > 0 && AllDigits(s)
    decreases n
  {
    var d := ['0' + ((n % 10) as char)];
    if n < 10 then d else NatText(n / 10) + d
  }

  /** `parseInt` reads back what `NatText` writes. */
  lemma {:induction false} NatTextValue(n: nat)
    ensures DigitsValue(NatText(n)) == n
    decreases n
  {
    var s := NatText(n);
    if n >= 10 {
      NatTextValue(n / 10);
      assert s[..|s| - 1] == NatText(n / 10);
    }
  }

  /** Where the run of digits of a piece `a + rest` stops. */
  lemma RunEndOfDigits(s: string, q: nat, e: nat)
    requires q <= e <= |s| && AllDigits(s[q..e]) && (e == |s| || !IsDigit(s[e]))
    ensures RunEnd(s, q) == e
  {
    RunEndMaximal(s, q, e);
  }

  /** The only match that a unit letter closes is the digit run right
      before it. */
  lemma MatchEnds(s: string, unit: char, q: nat, e: nat, q0: nat, e0: nat)
    requires MatchesAt(s, unit, q, e) && MatchesAt(s, unit, q0, e0) && q0 <= q <= e0
    requires !IsDigit(unit)
    ensures e == e0
  {
  }

  /** A match with no match starting before it is the one the regular
      expression finds. */
  lemma FirstMatch(s: string, unit: char, q: nat, e: nat)
    requires !IsDigit(unit) && MatchesAt(s, unit, q, e)
    requires forall q': nat, e': nat :: q' < q ==> !MatchesAt(s, unit, q', e')
    ensures NumberBefore(s, unit, 0) == Some(DigitsValue(s[q..e]))
  {
    var r := NumberBefore(s, unit, 0);
    var q2: nat, e2: nat :| MatchesAt(s, unit, q2, e2) && r.value == DigitsValue(s[q2..e2]) &&
      forall q': nat, e': nat :: q' < q2 ==> !MatchesAt(s, unit, q', e');
    assert q2 == q;
    MatchEnds(s, unit, q, e2, q, e);
  }

  /** Reading "<h>h <m>m" gives back 60·h + m minutes. */
  lemma DurationRoundTrip(h: nat, m: nat)
    ensures ParseDuration(NatText(h) + "h " + NatText(m) + "m") == 60 * h + m
  {
    DurationHours(NatText(h), NatText(m));
    DurationMinutes(NatText(h), NatText(m));
    NatTextValue(h);
    NatTextValue(m);
  }

  /** Where the pieces of "<hs>h <ms>m" sit. */
  lemma DurationLayout(hs: string, ms: string)
    ensures var s := hs + "h " + ms + "m";
      var a := |hs|;
      var b := a + 2 + |ms|;
      |s| == b + 1 && s[..a] == hs && s[a] == 'h' && s[a + 1] == ' ' && s[a + 2..b] == ms && s[b] == 'm'
  {
  }

  /** The hours of "<hs>h <ms>m" are the digits `hs`. */
  lemma DurationHours(hs: string, ms: string)
    requires |hs| > 0 && AllDigits(hs) && |ms| > 0 && AllDigits(ms)
    ensures NumberBefore(hs + "h " + ms + "m", 'h', 0) == Some(DigitsValue(hs))
  {
    var s := hs + "h " + ms + "m";
    DurationLayout(hs, ms);
    FirstMatch(s, 'h', 0, |hs|);
  }

  /** The minutes of "<hs>h <ms>m" are the digits `ms`. */
  lemma DurationMinutes(hs: string, ms: string)
    requires |hs| > 0 && AllDigits(hs) && |ms| > 0 && AllDigits(ms)
    ensures NumberBefore(hs + "h " + ms + "m", 'm', 0) == Some(DigitsValue(ms))
  {
    var s := hs + "h " + ms + "m";
    var a := |hs|;
    DurationLayout(hs, ms);
    forall q': nat, e': nat | q' < a + 2 ensures !MatchesAt(s, 'm', q', e') {
      NoMinutesBefore(s, a, q', e');
    }
    FirstMatch(s, 'm', a + 2, a + 2 + |ms|);
  }

  /** In "<digits>h <rest>", no "<digits>m" starts before the rest. */
  lemma NoMinutesBefore(s: string, a: nat, q: nat, e: nat)
    requires a + 2 <= |s| && AllDigits(s[..a]) && s[a] == 'h' && s[a + 1] == ' '
    requires q < a + 2
    ensures !MatchesAt(s, 'm', q, e)
  {
    if MatchesAt(s, 'm', q, e) {
      assert s[q..e][0] == s[q];
      assert q < a;
      assert AllDigits(s[q..a]) by {
        forall k | 0 <= k < a - q ensures IsDigit(s[q..a][k]) {
          assert s[q..a][k] == s[..a][q + k];
        }
      }
      RunEndOfDigits(s, q, a);
      RunEndMaximal(s, q, e);
    }
  }

  // ---------------------------------------------------------------------
  // Stakes "0.25/0.50" (dataExtraction.js:52-58).

  /** Small and big blind of a stakes text: the numbers before and after
      the first "/", or both 0 when there is none. `parseFloat` is a
      parameter. */
  function SplitStakes(stakesStr: string, parseFloat: string -> real): (blinds: (real, real))
  {
    if '/' in stakesStr then
      var parts := Split(stakesStr, '/');
      assert IndexOfChar(stakesStr, '/').Some?;
      SplitFirst(stakesStr, '/', IndexOfChar(stakesStr, '/').value);
      (parseFloat(parts[0]), parseFloat(parts[1]))
    else (0.0, 0.0)
  }

  /** The blinds of "<small>/<big>" are the two numbers written. */
  lemma StakesOfBlinds(small: string, big: string, parseFloat: string -> real)
    requires '/' !in small && '/' !in big
    ensures SplitStakes(small + "/" + big, parseFloat) == (parseFloat(small), parseFloat(big))
  {
    var parts := [small, big];
    assert Join(parts, '/') == small + "/" + big;
    SplitJoin(parts, '/');
    assert '/' in small + "/" + big by {
      assert (small + "/" + big)[|small|] == '/';
    }
  }

  // ---------------------------------------------------------------------
  // The row mapper and filter (dataExtraction.js:25-74).

  /** A row the mapper keeps: at least 8 cells and not a tournament. */
  predicate CashRow(cells: seq<string>)
  {
    |cells| >= 8 && Trim(cells[4]) != "Tournament"
  }

  /** The session of a kept row that starts at `startTime`, the row's
      date as `new Date(text)` reads it; `parseFloat` and `parseInt` are
      the number parsers. The end adds the duration's minutes. */
  function RowSession(cells: seq<string>, startTime: int, parseFloat: string -> real, parseInt: string -> int): (s: Session)
    requires CashRow(cells)
    ensures s.endTime == s.startTime + s.durationMinutes * 60000
    ensures s.durationMinutes == ParseDuration(Trim(cells[1]))
    ensures '/' !in s.stakesStr ==> s.smallBlind == 0.0 && s.bigBlind == 0.0
  {
    var durationStr := Trim(cells[1]);
    var stakesStr := Trim(ReplaceFirst(Trim(cells[2]), "BB", ""));
    var handsStr := ReplaceFirst(Trim(cells[3]), ",", "");
    var rawResStr := ReplaceFirst(Trim(cells[7]), ",", "");
    var durationMinutes := ParseDuration(durationStr);
    var blinds := SplitStakes(stakesStr, parseFloat);
    Session(startTime, startTime + durationMinutes * 60000, durationMinutes, stakesStr,
            blinds.0, blinds.1, parseInt(handsStr), parseFloat(ReplaceFirst(rawResStr, "$", "")))
  }

  /** `rows.map(...).filter(session => session !== null)`: the sessions of
      the kept rows, in row order. `parseDate` is `new Date(text)` (`None`
      for an invalid date). A kept row with an invalid date makes
      `toISOString` throw and the whole extraction give `null`. */
  function RowSessions(rows: seq<seq<string>>, parseDate: string -> Option<int>,
                       parseFloat: string -> real, parseInt: string -> int): (r: Option<seq<Session>>)
    ensures r.Some? ==> |r.value| <= |rows|
    decreases |rows|
  {
    if |rows| == 0 then Some([])
    else
      var n := |rows| - 1;
      var row := rows[n];
      match RowSessions(rows[..n], parseDate, parseFloat, parseInt)
      case None => None
      case Some(front) =>
        if !CashRow(row) then Some(front)
        else
          match parseDate(Trim(row[0]))
          case None => None
          case Some(t) => Some(front + [RowSession(row, t, parseFloat, parseInt)])
  }

  /** A kept row whose date does not parse. */
  predicate BadDate(row: seq<string>, parseDate: string -> Option<int>)
  {
    CashRow(row) && parseDate(Trim(row[0])).None?
  }

  /** The extraction gives `null` exactly when some kept row has a date
      that does not parse. */
  lemma {:induction false} RowSessionsFail(rows: seq<seq<string>>, parseDate: string -> Option<int>,
                                           parseFloat: string -> real, parseInt: string -> int)
    ensures RowSessions(rows, parseDate, parseFloat, parseInt).None? <==>
            exists i :: 0 <= i < |rows| && BadDate(rows[i], parseDate)
    decreases |rows|
  {
    if |rows| > 0 {
      var n := |rows| - 1;
      var front := rows[..n];
      RowSessionsFail(front, parseDate, parseFloat, parseInt);
      if RowSessions(front, parseDate, parseFloat, parseInt).None? {
        var i :| 0 <= i < n && BadDate(front[i], parseDate);
        assert front[i] == rows[i];
      } else {
        forall i | 0 <= i < n ensures !BadDate(rows[i], parseDate) {
          assert front[i] == rows[i];
        }
      }
    }
  }

  /** Every kept row yields its session, in row order, and every session
      comes from a kept row: short and tournament rows are the only ones
      dropped. */
  lemma {:induction false} RowSessionsKept(rows: seq<seq<string>>, parseDate: string -> Option<int>,
                                           parseFloat: string -> real, parseInt: string -> int)
    requires RowSessions(rows, parseDate, parseFloat, parseInt).Some?
    ensures var sessions := RowSessions(rows, parseDate, parseFloat, parseInt).value;
      |sessions| == |KeptRows(rows)| &&
      forall k :: 0 <= k < |sessions| ==> KeptSession(KeptRows(rows)[k], sessions[k], parseDate, parseFloat, parseInt)
    decreases |rows|
  {
    if |rows| > 0 {
      var n := |rows| - 1;
      var front := RowSessions(rows[..n], parseDate, parseFloat, parseInt);
      RowSessionsKept(rows[..n], parseDate, parseFloat, parseInt);
      var sessions := RowSessions(rows, parseDate, parseFloat, parseInt).value;
      var kept := KeptRows(rows);
      if CashRow(rows[n]) {
        var t := parseDate(Trim(rows[n][0])).value;
        var last := RowSession(rows[n], t, parseFloat, parseInt);
        assert sessions == front.value + [last];
        assert kept == KeptRows(rows[..n]) + [rows[n]];
        KeptSnoc(front.value, KeptRows(rows[..n]), last, rows[n], parseDate, parseFloat, parseInt);
      } else {
        assert sessions == front.value;
        assert kept == KeptRows(rows[..n]);
      }
    }
  }

  lemma KeptSnoc(sessions: seq<Session>, kept: seq<seq<string>>, last: Session, row: seq<string>,
                 parseDate: string -> Option<int>, parseFloat: string -> real, parseInt: string -> int)
    requires |sessions| == |kept|
    requires forall k :: 0 <= k < |sessions| ==> KeptSession(kept[k], sessions[k], parseDate, parseFloat, parseInt)
    requires KeptSession(row, last, parseDate, parseFloat, parseInt)
    ensures forall k :: 0 <= k < |sessions| + 1 ==>
      KeptSession((kept + [row])[k], (sessions + [last])[k], parseDate, parseFloat, parseInt)
  {
  }

  /** `session` is what the mapper makes of the kept row `row`. */
  ghost predicate KeptSession(row: seq<string>, session: Session, parseDate: string -> Option<int>,
                              parseFloat: string -> real, parseInt: string -> int)
  {
    CashRow(row) && parseDate(Trim(row[0])).Some? &&
    session == RowSession(row, parseDate(Trim(row[0])).value, parseFloat, parseInt)
  }

  /** The rows that pass the filter, in order. */
  function KeptRows(rows: seq<seq<string>>): (kept: seq<seq<string>>)
    ensures |kept| <= |rows|
    ensures forall k :: 0 <= k < |kept| ==> CashRow(kept[k]) && kept[k] in rows
    ensures forall i :: 0 <= i < |rows| && CashRow(rows[i]) ==> rows[i] in kept
    decreases |rows|
  {
    if |rows| == 0 then []
    else
      var n := |rows| - 1;
      var front := KeptRows(rows[..n]);
      assert forall i :: 0 <= i < n ==> rows[..n][i] == rows[i];
      if CashRow(rows[n]) then front + [rows[n]] else front
  }

  /** `extractPokerSessionData`: `null` when the table is missing, has no
      rows, or a kept row's date is invalid. */
  function ExtractSessions(table: Option<seq<seq<string>>>, parseDate: string -> Option<int>,
                           parseFloat: string -> real, parseInt: string -> int): (r: Option<seq<Session>>)
    ensures table.None? || |table.value| == 0 ==> r.None?
    ensures table.Some? && |table.value| > 0 ==> r == RowSessions(table.value, parseDate, parseFloat, parseInt)
  {
    match table
    case None => None
    case Some(rows) => if |rows| == 0 then None else RowSessions(rows, parseDate, parseFloat, parseInt)
  }
}
