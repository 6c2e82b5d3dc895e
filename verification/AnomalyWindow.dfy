/**
 The window of alerts one detection run looks at, split at the start of the day, and what the detector's
 conditions on the two halves say of the stored alerts themselves.
 */
module AnomalyWindow {
  import opened Common
  import opened DailyBaseline
  import opened Reals
  import opened AnomalySignals

  function DayStart(now: int): int {
    Day(now) * SECONDS_PER_DAY
  }

  function InWindow(alerts: seq<Alert>, now: int, baselineDays: nat, today: bool): (r: seq<Alert>)
    ensures forall i :: 0 <= i < |r| ==>
      r[i].createdAt >= now - baselineDays * SECONDS_PER_DAY && (r[i].createdAt >= DayStart(now) <==> today)
  {
    if alerts == [] then [] else
    var before, a := InWindow(alerts[..|alerts| - 1], now, baselineDays, today), alerts[|alerts| - 1];
    var recent := a.createdAt >= now - baselineDays * SECONDS_PER_DAY;
    if recent && (a.createdAt >= DayStart(now)) == today then before + [a] else before
  }

  // ---- The two halves ----

  /** In the window of `n` days, on the given side of the last midnight. */
  predicate OnSide(a: Alert, now: int, n: nat, today: bool) {
    && a.createdAt >= now - n * 86400
    && if today then a.createdAt >= now - now % 86400 else a.createdAt < now - now % 86400
  }

  lemma LastMidnight(now: int)
    ensures DayStart(now) == now - now % 86400
  {
  }

  /** A half holds exactly the alerts of its side, each as often as the table does. */
  lemma {:induction false} InWindowExact(alerts: seq<Alert>, now: int, n: nat, today: bool, a: Alert)
    ensures multiset(InWindow(alerts, now, n, today))[a] == if OnSide(a, now, n, today) then multiset(alerts)[a] else 0
  {
    LastMidnight(now);
    if alerts != [] {
      var init, last := alerts[..|alerts| - 1], alerts[|alerts| - 1];
      InWindowExact(init, now, n, today, a);
      assert alerts == init + [last];
    }
  }

  lemma InWindowMembers(alerts: seq<Alert>, now: int, n: nat, today: bool, a: Alert)
    ensures a in InWindow(alerts, now, n, today) <==> a in alerts && OnSide(a, now, n, today)
  {
    InWindowExact(alerts, now, n, today, a);
    assert a in InWindow(alerts, now, n, today) <==> a in multiset(InWindow(alerts, now, n, today));
    assert a in alerts <==> a in multiset(alerts);
  }

  lemma InWindowSnoc(alerts: seq<Alert>, a: Alert, now: int, n: nat, today: bool)
    ensures InWindow(alerts + [a], now, n, today) ==
      InWindow(alerts, now, n, today) + if OnSide(a, now, n, today) then [a] else []
  {
    LastMidnight(now);
    assert (alerts + [a])[..|alerts|] == alerts;
    assert InWindow(alerts, now, n, today) + [] == InWindow(alerts, now, n, today);
  }

  /** Where an alert of the table stands in its half. */
  lemma {:induction false} InWindowAt(alerts: seq<Alert>, now: int, n: nat, today: bool, i: nat)
    requires i < |alerts| && OnSide(alerts[i], now, n, today)
    ensures var w, before := InWindow(alerts, now, n, today), InWindow(alerts[..i], now, n, today);
      |before| < |w| && w[|before|] == alerts[i] && w[..|before|] == before
  {
    var m := |alerts| - 1;
    assert alerts == alerts[..m] + [alerts[m]];
    InWindowSnoc(alerts[..m], alerts[m], now, n, today);
    if i < m {
      InWindowAt(alerts[..m], now, n, today, i);
      assert alerts[..m][..i] == alerts[..i];
    }
  }

  /** Where an alert of a half stands in the table. */
  lemma {:induction false} InWindowFrom(alerts: seq<Alert>, now: int, n: nat, today: bool, k: nat) returns (i: nat)
    requires k < |InWindow(alerts, now, n, today)|
    ensures i < |alerts| && OnSide(alerts[i], now, n, today)
    ensures var w := InWindow(alerts, now, n, today);
      w[k] == alerts[i] && w[..k] == InWindow(alerts[..i], now, n, today)
  {
    var m := |alerts| - 1;
    var init := alerts[..m];
    assert alerts == init + [alerts[m]];
    InWindowSnoc(init, alerts[m], now, n, today);
    if k < |InWindow(init, now, n, today)| {
      i := InWindowFrom(init, now, n, today, k);
      assert init[..i] == alerts[..i];
    } else {
      i := m;
    }
  }

  // ---- first_seen_ip ----

  predicate Of(a: Alert, pair: Pair) {
    a.partner == pair.partner && a.rule == pair.rule
  }

  /** The address occurs today, is not empty, and did not occur earlier in the window, for this partner and rule. */
  ghost predicate FirstSeenIn(alerts: seq<Alert>, now: int, n: nat, k: Key) {
    && k.kind == FirstSeenIp && k.ip != None && k.ip != Some("")
    && (exists a :: a in alerts && OnSide(a, now, n, true) && Of(a, k.pair) && a.ip == k.ip)
    && !(exists a :: a in alerts && OnSide(a, now, n, false) && Of(a, k.pair) && a.ip == k.ip)
  }

  lemma OccursInWindow(alerts: seq<Alert>, now: int, n: nat, today: bool, p: Pair, ip: Option<string>)
    ensures Occurs(InWindow(alerts, now, n, today), p, ip) <==>
      exists a :: a in alerts && OnSide(a, now, n, today) && Of(a, p) && a.ip == ip
  {
    var w := InWindow(alerts, now, n, today);
    if Occurs(w, p, ip) {
      var i :| 0 <= i < |w| && PairOf(w[i]) == p && w[i].ip == ip;
      InWindowMembers(alerts, now, n, today, w[i]);
      assert Of(w[i], p);
    }
    if a :| a in alerts && OnSide(a, now, n, today) && Of(a, p) && a.ip == ip {
      InWindowMembers(alerts, now, n, today, a);
      var i :| 0 <= i < |w| && w[i] == a;
      assert PairOf(w[i]) == p;
    }
  }

  lemma FirstSeenMeans(alerts: seq<Alert>, now: int, n: nat, k: Key)
    ensures NewAddress(InWindow(alerts, now, n, false), InWindow(alerts, now, n, true), k) <==>
      FirstSeenIn(alerts, now, n, k)
  {
    OccursInWindow(alerts, now, n, true, k.pair, k.ip);
    OccursInWindow(alerts, now, n, false, k.pair, k.ip);
  }

  // ---- new_severity ----

  /** Alert `j` comes before alert `i` for the same partner and rule: it is from an earlier day, or before it today. */
  predicate Precedes(alerts: seq<Alert>, now: int, n: nat, j: int, i: int)
    requires 0 <= i < |alerts|
  {
    && 0 <= j < |alerts| && alerts[j].partner == alerts[i].partner && alerts[j].rule == alerts[i].rule
    && (OnSide(alerts[j], now, n, false) || (j < i && OnSide(alerts[j], now, n, true)))
  }

  /** An alert of today outranks all that precede it, and some do. */
  ghost predicate Outranks(alerts: seq<Alert>, now: int, n: nat, i: int)
    requires 0 <= i < |alerts|
  {
    && OnSide(alerts[i], now, n, true)
    && (exists j :: Precedes(alerts, now, n, j, i))
    && forall j :: Precedes(alerts, now, n, j, i) ==> Rank(alerts[j].severity) < Rank(alerts[i].severity)
  }

  ghost predicate RisesIn(alerts: seq<Alert>, now: int, n: nat, k: Key) {
    k.kind == NewSeverity &&
    exists i :: 0 <= i < |alerts| && Outranks(alerts, now, n, i) && Of(alerts[i], k.pair) && alerts[i].ip == k.ip
  }

  /** The running best is below a rank and not missing exactly when there are earlier alerts and all are below it. */
  lemma BestBelow(history: seq<Alert>, before: seq<Alert>, p: Pair, rank: nat)
    ensures 0 <= Best(HistoryMax(history, p), before, p) < rank <==>
      && (exists a :: (a in history || a in before) && PairOf(a) == p)
      && forall a :: (a in history || a in before) && PairOf(a) == p ==> Rank(a.severity) < rank
  {
    var m, b := HistoryMax(history, p), Best(HistoryMax(history, p), before, p);
    BestIsMaximum(-1, history, p);
    BestIsMaximum(m, before, p);
    forall a | (a in history || a in before) && PairOf(a) == p ensures Rank(a.severity) <= b {
      if a in history {
        var i :| 0 <= i < |history| && history[i] == a;
      } else {
        var i :| 0 <= i < |before| && before[i] == a;
      }
    }
    if b >= 0 {
      BestAttained(history, before, p);
    }
  }

  lemma BestAttained(history: seq<Alert>, before: seq<Alert>, p: Pair)
    requires Best(HistoryMax(history, p), before, p) >= 0
    ensures
      exists a :: (a in history || a in before) && PairOf(a) == p &&
        Rank(a.severity) == Best(HistoryMax(history, p), before, p)
  {
    var m, b := HistoryMax(history, p), Best(HistoryMax(history, p), before, p);
    BestIsMaximum(-1, history, p);
    BestIsMaximum(m, before, p);
    if b == m {
      var i :| 0 <= i < |history| && PairOf(history[i]) == p && Rank(history[i].severity) == m;
      assert history[i] in history;
    } else {
      var i :| 0 <= i < |before| && PairOf(before[i]) == p && Rank(before[i].severity) == b;
      assert before[i] in before;
    }
  }

  /** The detector compares alert `i` with this one. */
  ghost predicate Earlier(alerts: seq<Alert>, now: int, n: nat, i: nat, a: Alert)
    requires i < |alerts|
  {
    && (a in InWindow(alerts, now, n, false) || a in InWindow(alerts[..i], now, n, true))
    && PairOf(a) == PairOf(alerts[i])
  }

  /** What the detector compares alert `i` with are the alerts that precede it. */
  lemma Compared(alerts: seq<Alert>, now: int, n: nat, i: nat, a: Alert)
    requires i < |alerts|
    ensures Earlier(alerts, now, n, i, a) <==>
      exists j :: Precedes(alerts, now, n, j, i) && alerts[j] == a
  {
    InWindowMembers(alerts, now, n, false, a);
    InWindowMembers(alerts[..i], now, n, true, a);
    if a in alerts && OnSide(a, now, n, false) && PairOf(a) == PairOf(alerts[i]) {
      var j :| 0 <= j < |alerts| && alerts[j] == a;
      assert Precedes(alerts, now, n, j, i);
    }
    if a in alerts[..i] && OnSide(a, now, n, true) && PairOf(a) == PairOf(alerts[i]) {
      var j :| 0 <= j < i && alerts[..i][j] == a;
      assert Precedes(alerts, now, n, j, i);
    }
    if j :| Precedes(alerts, now, n, j, i) && alerts[j] == a {
      assert j < i ==> alerts[..i][j] == a;
    }
  }

  lemma RisesAtIndex(alerts: seq<Alert>, now: int, n: nat, i: nat, k: Key)
    requires i < |alerts| && OnSide(alerts[i], now, n, true)
    ensures RisesAt(InWindow(alerts, now, n, false), InWindow(alerts[..i], now, n, true), alerts[i], k) <==>
      Outranks(alerts, now, n, i) && Of(alerts[i], k.pair) && alerts[i].ip == k.ip
  {
    var history, before := InWindow(alerts, now, n, false), InWindow(alerts[..i], now, n, true);
    var p, rank := PairOf(alerts[i]), Rank(alerts[i].severity);
    BestBelow(history, before, p, rank);
    forall a
      ensures Earlier(alerts, now, n, i, a) <==> exists j :: Precedes(alerts, now, n, j, i) && alerts[j] == a
    {
      Compared(alerts, now, n, i, a);
    }
    forall j | Precedes(alerts, now, n, j, i) ensures Earlier(alerts, now, n, i, alerts[j]) {
      Compared(alerts, now, n, i, alerts[j]);
    }
    assert forall a :: Earlier(alerts, now, n, i, a) <==> (a in history || a in before) && PairOf(a) == p;
  }

  lemma RisesMeans(alerts: seq<Alert>, now: int, n: nat, k: Key)
    requires k.kind == NewSeverity
    ensures Rises(InWindow(alerts, now, n, false), InWindow(alerts, now, n, true), k) <==> RisesIn(alerts, now, n, k)
  {
    var history, current := InWindow(alerts, now, n, false), InWindow(alerts, now, n, true);
    if Rises(history, current, k) {
      var m :| 0 <= m < |current| && RisesAt(history, current[..m], current[m], k);
      var i := InWindowFrom(alerts, now, n, true, m);
      RisesAtIndex(alerts, now, n, i, k);
    }
    if RisesIn(alerts, now, n, k) {
      var i :| 0 <= i < |alerts| && Outranks(alerts, now, n, i) && Of(alerts[i], k.pair) && alerts[i].ip == k.ip;
      InWindowAt(alerts, now, n, true, i);
      RisesAtIndex(alerts, now, n, i, k);
      var m := |InWindow(alerts[..i], now, n, true)|;
      assert RisesAt(history, current[..m], current[m], k);
    }
  }

  // ---- count_spike ----

  /** The alerts of a partner, rule and address on a side of the window, on one day of it when one is given. */
  function CountOf(alerts: seq<Alert>, now: int, n: nat, today: bool, p: Pair, ip: Option<string>,
                   day: Option<int>): nat {
    if alerts == [] then 0 else
    var a := alerts[|alerts| - 1];
    var counted := Of(a, p) && a.ip == ip && (day == None || a.createdAt / 86400 == day.value);
    CountOf(alerts[..|alerts| - 1], now, n, today, p, ip, day) +
    if OnSide(a, now, n, today) && counted then 1 else 0
  }

  lemma {:induction false} CountsAreDays(alerts: seq<Alert>, now: int, n: nat, today: bool, p: Pair, ip: Option<string>,
                                         d: int)
    ensures var days := DaysOf(InWindow(alerts, now, n, today), p, ip);
      && |days| == CountOf(alerts, now, n, today, p, ip, None)
      && DayCount(days, d) == CountOf(alerts, now, n, today, p, ip, Some(d))
  {
    if alerts != [] {
      var init, a := alerts[..|alerts| - 1], alerts[|alerts| - 1];
      CountsAreDays(init, now, n, today, p, ip, d);
      assert alerts == init + [a];
      InWindowSnoc(init, a, now, n, today);
      DaysOfSnoc(InWindow(init, now, n, today), a, p, ip);
      DayCountSnoc(DaysOf(InWindow(init, now, n, today), p, ip), Day(a.createdAt), d);
    }
  }

  lemma DaysOfSnoc(alerts: seq<Alert>, a: Alert, p: Pair, ip: Option<string>)
    ensures DaysOf(alerts + [a], p, ip) ==
      DaysOf(alerts, p, ip) + if PairOf(a) == p && a.ip == ip then [Day(a.createdAt)] else []
    ensures DaysOf(alerts + [], p, ip) == DaysOf(alerts, p, ip)
  {
    assert (alerts + [a])[..|alerts|] == alerts && alerts + [] == alerts;
    assert DaysOf(alerts, p, ip) + [] == DaysOf(alerts, p, ip);
  }

  /** The squares of the key's daily counts on the days of the window before today. */
  function DailySquares(alerts: seq<Alert>, now: int, n: nat, p: Pair, ip: Option<string>): int -> nat {
    (d: int) => CountOf(alerts, now, n, false, p, ip, Some(d)) * CountOf(alerts, now, n, false, p, ip, Some(d))
  }

  /**
   The integer test on the stored alerts: with S alerts of the key in the window before today, Q the sum of
   the squared daily counts of its n days, and c alerts today.
   */
  ghost predicate SpikesIn(alerts: seq<Alert>, now: int, n: nat, k: Key) {
    var s := CountOf(alerts, now, n, false, k.pair, k.ip, None);
    var c := CountOf(alerts, now, n, true, k.pair, k.ip, None);
    var q := WindowTotal(DailySquares(alerts, now, n, k.pair, k.ip), now / 86400 - n, n);
    s > 0 && c > 0 && IntegerTest(n, s, q, c)
  }

  /** The history of a run lies in `baselineDays` days, so every count-spike decision is the integer one. */
  lemma {:induction false} HistoryWithinWindow(history: seq<Alert>, now: int, n: nat, p: Pair, ip: Option<string>)
    requires forall i :: 0 <= i < |history| ==>
      now - n * SECONDS_PER_DAY <= history[i].createdAt < DayStart(now)
    ensures Within(DaysOf(history, p, ip), Day(now) - n, n)
  {
    if history != [] {
      HistoryWithinWindow(history[..|history| - 1], now, n, p, ip);
      HistoryDaysInWindow(history[|history| - 1].createdAt, now, n);
    }
  }

  lemma HistoryTotals(alerts: seq<Alert>, now: int, n: nat, p: Pair, ip: Option<string>)
    ensures var days := DaysOf(InWindow(alerts, now, n, false), p, ip);
      && |days| == CountOf(alerts, now, n, false, p, ip, None)
      && WindowTotal(PerDaySquared(days), Day(now) - n, n) ==
        WindowTotal(DailySquares(alerts, now, n, p, ip), now / 86400 - n, n)
  {
    var days := DaysOf(InWindow(alerts, now, n, false), p, ip);
    forall d ensures PerDaySquared(days)(d) == DailySquares(alerts, now, n, p, ip)(d) {
      CountsAreDays(alerts, now, n, false, p, ip, d);
    }
    SameWindow(PerDaySquared(days), DailySquares(alerts, now, n, p, ip), Day(now) - n, n);
    CountsAreDays(alerts, now, n, false, p, ip, 0);
  }

  lemma SpikesOnDays(history: seq<Alert>, current: seq<Alert>, now: int, n: nat, k: Key, root: real -> real)
    requires n >= 1 && IsRoot(root) && k.kind == CountSpiked
    requires Within(DaysOf(history, k.pair, k.ip), Day(now) - n, n)
    ensures var days, c := DaysOf(history, k.pair, k.ip), |DaysOf(current, k.pair, k.ip)|;
      SpikesNow(history, current, k, n, root) <==>
        |days| > 0 && c > 0 && IntegerTest(n, |days|, WindowTotal(PerDaySquared(days), Day(now) - n, n), c)
  {
    SpikeDecision(DaysOf(history, k.pair, k.ip), Day(now) - n, n, |DaysOf(current, k.pair, k.ip)|, root);
  }

  /** For every key of a run, the mean, deviation and z-score test decides as the integer test on the stored alerts. */
  lemma RunSpikeDecision(alerts: seq<Alert>, now: int, n: nat, k: Key, root: real -> real)
    requires n >= 1 && IsRoot(root) && k.kind == CountSpiked
    ensures SpikesNow(InWindow(alerts, now, n, false), InWindow(alerts, now, n, true), k, n, root) <==>
      SpikesIn(alerts, now, n, k)
  {
    var history, current := InWindow(alerts, now, n, false), InWindow(alerts, now, n, true);
    HistoryWithinWindow(history, now, n, k.pair, k.ip);
    SpikesOnDays(history, current, now, n, k, root);
    HistoryTotals(alerts, now, n, k.pair, k.ip);
    CountsAreDays(alerts, now, n, true, k.pair, k.ip, 0);
  }
}
