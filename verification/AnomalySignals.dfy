/** The three anomaly heuristics over one batch of alerts, and the rows that repeated runs store. */
module AnomalySignals {
  import opened Common
  import opened Text
  import opened CountSpike
  import opened DailyBaseline

  datatype Alert = Alert(partner: Option<string>, rule: Option<string>, ip: Option<string>, severity: Option<string>,
                         createdAt: int)

  datatype Pair = Pair(partner: Option<string>, rule: Option<string>)

  datatype Kind = FirstSeenIp | NewSeverity | CountSpiked

  datatype Key = Key(kind: Kind, pair: Pair, ip: Option<string>)

  datatype Signal = Signal(key: Key, severity: Option<string>)

  function PairOf(a: Alert): Pair {
    Pair(a.partner, a.rule)
  }

  /** Unknown and missing labels rank lowest. */
  function Rank(severity: Option<string>): nat {
    if severity == None then 0 else
    var s := Lower(severity.value);
    if s == "critical" then 4
    else if s == "high" then 3
    else if s == "medium" || s == "moderate" then 2
    else if s == "low" then 1
    else 0
  }

  predicate Named(ip: Option<string>) {
    ip.Some? && ip.value != ""
  }

  predicate Occurs(alerts: seq<Alert>, pair: Pair, ip: Option<string>) {
    exists i :: 0 <= i < |alerts| && PairOf(alerts[i]) == pair && alerts[i].ip == ip
  }

  /** A named address that occurs now and never in the history of its pair. */
  predicate NewAddress(history: seq<Alert>, current: seq<Alert>, k: Key) {
    k.kind == FirstSeenIp && Named(k.ip) && Occurs(current, k.pair, k.ip) && !Occurs(history, k.pair, k.ip)
  }

  /** The days of the alerts of one key. */
  function DaysOf(alerts: seq<Alert>, p: Pair, ip: Option<string>): seq<int> {
    if alerts == [] then [] else
    var before, a := DaysOf(alerts[..|alerts| - 1], p, ip), alerts[|alerts| - 1];
    if PairOf(a) == p && a.ip == ip then before + [Day(a.createdAt)] else before
  }

  predicate SpikesNow(history: seq<Alert>, current: seq<Alert>, k: Key, baselineDays: nat, root: real -> real) {
    k.kind == CountSpiked && baselineDays >= 1 &&
    var days, count := DaysOf(history, k.pair, k.ip), |DaysOf(current, k.pair, k.ip)|;
    days != [] && count > 0 && Spikes(Baseline(days, baselineDays), count, 3.0, root)
  }

  // ---- Severity ranks ----

  /** The known labels in their order. */
  lemma RankOrder()
    ensures Rank(Some("critical")) > Rank(Some("high")) > Rank(Some("medium")) == Rank(Some("moderate")) >
      Rank(Some("low")) > Rank(None)
  {
    UpperRanks();
    LowerRanks();
  }

  lemma UpperRanks()
    ensures Rank(Some("critical")) == 4 && Rank(Some("high")) == 3
  {
    LowerFixed("critical");
    LowerFixed("high");
    assert |"critical"| == 8 && |"high"| == 4;
  }

  lemma LowerRanks()
    ensures Rank(Some("medium")) == Rank(Some("moderate")) == 2 && Rank(Some("low")) == 1
  {
    LowerFixed("medium");
    LowerFixed("moderate");
    LowerFixed("low");
    assert |"critical"| == 8 && |"high"| == 4 && |"medium"| == 6 && |"moderate"| == 8 && |"low"| == 3;
    assert "critical"[0] == 'c' && "moderate"[0] == 'm';
  }

  /** The letter case does not matter. */
  lemma RankIgnoresCase(s: string)
    ensures Rank(Some(s)) == Rank(Some(Lower(s)))
  {
    LowerFixed(Lower(s));
  }

  /** A label that is none of the known ones ranks with a missing label. */
  lemma RankOfUnknown(s: string)
    requires Lower(s) != "critical" && Lower(s) != "high" && Lower(s) != "low"
    requires Lower(s) != "medium" && Lower(s) != "moderate"
    ensures Rank(Some(s)) == Rank(None)
  {
  }

  lemma LowerFixed(s: string)
    requires forall i :: 0 <= i < |s| ==> !('A' <= s[i] <= 'Z')
    ensures Lower(s) == s
  {
    assert forall i :: 0 <= i < |s| ==> Lower(s)[i] == s[i];
  }

  /** The highest rank a pair has had, or -1. */
  function HistoryMax(alerts: seq<Alert>, pair: Pair): (m: int)
    ensures m >= -1
  {
    Best(-1, alerts, pair)
  }

  /** The running maximum, starting from `start`. */
  function Best(start: int, alerts: seq<Alert>, pair: Pair): (m: int)
    ensures m >= start
  {
    if alerts == [] then start else
    var before, a := Best(start, alerts[..|alerts| - 1], pair), alerts[|alerts| - 1];
    if PairOf(a) == pair && Rank(a.severity) > before then Rank(a.severity) else before
  }

  /** The rank that has to be exceeded: the history's, or else that of the pair's first alert now. */
  function Threshold(history: seq<Alert>, current: seq<Alert>, pair: Pair): int {
    var m := HistoryMax(history, pair);
    if m >= 0 || current == [] then m else
    var before := Threshold(history, current[..|current| - 1], pair);
    if before >= 0 then before
    else if PairOf(current[|current| - 1]) == pair then Rank(current[|current| - 1].severity)
    else before
  }

  lemma {:induction false} BestIsMaximum(start: int, alerts: seq<Alert>, pair: Pair)
    ensures forall i :: 0 <= i < |alerts| && PairOf(alerts[i]) == pair ==>
      Rank(alerts[i].severity) <= Best(start, alerts, pair)
    ensures Best(start, alerts, pair) == start ||
      exists i :: 0 <= i < |alerts| && PairOf(alerts[i]) == pair &&
        Rank(alerts[i].severity) == Best(start, alerts, pair)
  {
    if alerts != [] {
      var init := alerts[..|alerts| - 1];
      BestIsMaximum(start, init, pair);
      assert forall i :: 0 <= i < |init| ==> init[i] == alerts[i];
    }
  }

  class Detector {
    var signals: seq<Signal>
    var seen: set<Key>

    /** `seen` is the set of emitted keys, and no key is emitted twice. */
    ghost predicate Valid()
      reads this
    {
      && (forall i :: 0 <= i < |signals| ==> signals[i].key in seen)
      && (forall k :: k in seen ==> exists i :: 0 <= i < |signals| && signals[i].key == k)
      && forall i, j :: 0 <= i < j < |signals| ==> signals[i].key != signals[j].key
    }

    constructor ()
      ensures Valid() && signals == [] && seen == {}
    {
      signals, seen := [], {};
    }

    method Emit(s: Signal)
      requires Valid()
      modifies this
      ensures Valid() && seen == old(seen) + {s.key}
      ensures signals == if s.key in old(seen) then old(signals) else old(signals) + [s]
    {
      if s.key in seen {
        return;
      }
      ghost var was := signals;
      signals := signals + [s];
      forall k | k in seen + {s.key} ensures exists i :: 0 <= i < |signals| && signals[i].key == k {
        if k in seen {
          var i :| 0 <= i < |was| && was[i].key == k;
          assert signals[i].key == k;
        } else {
          assert signals[|was|].key == k;
        }
      }
      seen := seen + {s.key};
    }

    /** Exactly the named addresses that occur now and never in the history of their pair, once each. */
    method FirstSeenPass(history: seq<Alert>, current: seq<Alert>)
      requires Valid()
      modifies this
      ensures Valid() && old(signals) <= signals
      ensures forall k: Key :: k in seen <==> (k in old(seen) || NewAddress(history, current, k))
    {
      var ips: set<(Pair, Option<string>)> := {};
      for i := 0 to |history|
        invariant forall p, ip :: (p, ip) in ips <==> Occurs(history[..i], p, ip)
      {
        ghost var before := ips;
        ips := ips + {(PairOf(history[i]), history[i].ip)};
        forall p, ip ensures (p, ip) in ips <==> Occurs(history[..i + 1], p, ip) {
          OccursSnoc(history, i, p, ip);
        }
      }
      assert history[..|history|] == history;
      ghost var wasSeen, wasSignals := seen, signals;
      for i := 0 to |current|
        invariant Valid() && wasSignals <= signals
        invariant forall p, ip :: (p, ip) in ips <==>
          Occurs(history, p, ip) || (Named(ip) && Occurs(current[..i], p, ip))
        invariant forall k: Key :: k in seen <==> (k in wasSeen || NewAddress(history, current[..i], k))
      {
        var a := current[i];
        forall p, ip ensures Occurs(current[..i + 1], p, ip) <==>
          Occurs(current[..i], p, ip) || (PairOf(a) == p && a.ip == ip) {
          OccursSnoc(current, i, p, ip);
        }
        if Named(a.ip) && (PairOf(a), a.ip) !in ips {
          Emit(Signal(Key(FirstSeenIp, PairOf(a), a.ip), a.severity));
          ips := ips + {(PairOf(a), a.ip)};
        }
      }
      assert current[..|current|] == current;
    }

    /**
     A key is emitted exactly when an alert of its address exceeds every rank its pair had before, and there
     was one.
     */
    method NewSeverityPass(history: seq<Alert>, current: seq<Alert>)
      requires Valid() && (forall k :: k in seen ==> k.kind != NewSeverity)
      requires forall i :: 0 <= i < |signals| ==> signals[i].key.kind != NewSeverity
      modifies this
      ensures Valid() && old(signals) <= signals
      ensures forall k: Key :: k.kind != NewSeverity ==> (k in seen <==> k in old(seen))
      ensures forall k: Key :: k.kind == NewSeverity ==> (k in seen <==> Rises(history, current, k))
      ensures forall p :: Fired(seen, p) <==> Escalates(history, current, p)
      ensures Increasing(signals)
    {
      var best := HistoryBest(history);
      ghost var wasSeen, wasSignals := seen, signals;
      TracksStart(best, history);
      for i := 0 to |current|
        invariant Valid() && wasSignals <= signals
        invariant forall k: Key :: k.kind != NewSeverity ==> (k in seen <==> k in wasSeen)
        invariant Loop(seen, best, history, current[..i])
        invariant Increasing(signals) && Bounded(signals, best)
      {
        assert current[..i + 1] == current[..i] + [current[i]];
        best := CompareSeverity(best, current[i], history, current[..i]);
      }
      assert current[..|current|] == current;
      FiresFinally(seen, best, history, current);
    }

    /** One alert of the batch against the highest rank of its pair so far. */
    method CompareSeverity(best: map<Pair, nat>, a: Alert, ghost history: seq<Alert>, ghost done: seq<Alert>)
      returns (raised: map<Pair, nat>)
      requires Valid() && Loop(seen, best, history, done)
      requires Increasing(signals) && Bounded(signals, best)
      modifies this
      ensures Valid() && old(signals) <= signals
      ensures forall k: Key :: k.kind != NewSeverity ==> (k in seen <==> k in old(seen))
      ensures Loop(seen, raised, history, done + [a])
      ensures Increasing(signals) && Bounded(signals, raised)
    {
      var p, rank := PairOf(a), Rank(a.severity);
      LoopSnoc(seen, best, history, done, a);
      if p !in best {
        BoundedMore(signals, best, p, rank);
        return best[p := rank];
      }
      if rank > best[p] {
        EmitRise(best, a);
        return best[p := rank];
      }
      return best;
    }

    /** The signal for an alert that exceeds its pair's best. */
    method EmitRise(ghost best: map<Pair, nat>, a: Alert)
      requires Valid() && Increasing(signals) && Bounded(signals, best)
      requires PairOf(a) in best && Rank(a.severity) > best[PairOf(a)]
      modifies this
      ensures Valid() && old(signals) <= signals && seen == old(seen) + {Key(NewSeverity, PairOf(a), a.ip)}
      ensures Increasing(signals) && Bounded(signals, best[PairOf(a) := Rank(a.severity)])
    {
      IncreasingSnoc(signals, best, a);
      Emit(Signal(Key(NewSeverity, PairOf(a), a.ip), a.severity));
    }

    /** The keys counted today, in the order of their first alert. */
    method CurrentKeys(current: seq<Alert>) returns (order: seq<(Pair, Option<string>)>)
      ensures forall p, ip :: (p, ip) in order <==> DaysOf(current, p, ip) != []
    {
      order := [];
      for i := 0 to |current|
        invariant forall p, ip :: (p, ip) in order <==> DaysOf(current[..i], p, ip) != []
      {
        assert current[..i + 1][..i] == current[..i];
        if (PairOf(current[i]), current[i].ip) !in order {
          order := order + [(PairOf(current[i]), current[i].ip)];
        }
      }
      assert current[..|current|] == current;
    }

    /** One key: a signal exactly when it has history and its count now is a spike over its daily baseline. */
    method SpikeOf(history: seq<Alert>, current: seq<Alert>, p: Pair, ip: Option<string>, baselineDays: nat,
                   root: real -> real)
      requires Valid() && baselineDays >= 1 && DaysOf(current, p, ip) != []
      modifies this
      ensures Valid() && old(signals) <= signals
      ensures var k := Key(CountSpiked, p, ip);
        seen == old(seen) + if SpikesNow(history, current, k, baselineDays, root) then {k} else {}
    {
      var fires := DetectSpike(DaysOf(history, p, ip), |DaysOf(current, p, ip)|, baselineDays, root);
      if fires == Some(true) {
        Emit(Signal(Key(CountSpiked, p, ip), None));
      }
    }

    /** A key fires exactly when it has history and its count now is a spike over its daily baseline. */
    method CountSpikePass(history: seq<Alert>, current: seq<Alert>, baselineDays: nat, root: real -> real)
      requires Valid() && baselineDays >= 1
      modifies this
      ensures Valid() && old(signals) <= signals
      ensures forall k: Key :: k in seen <==> (k in old(seen) || SpikesNow(history, current, k, baselineDays, root))
    {
      var order := CurrentKeys(current);
      ghost var wasSeen, wasSignals := seen, signals;
      for i := 0 to |order|
        invariant Valid() && wasSignals <= signals
        invariant forall k: Key :: k in seen <==>
          (k in wasSeen || (SpikesNow(history, current, k, baselineDays, root) && (k.pair, k.ip) in order[..i]))
      {
        assert order[..i + 1] == order[..i] + [order[i]];
        var (p, ip) := order[i];
        assert (p, ip) in order;
        SpikeOf(history, current, p, ip, baselineDays, root);
      }
      assert order[..|order|] == order;
    }

    method HistoryBest(history: seq<Alert>) returns (best: map<Pair, nat>)
      ensures forall p :: HistoryMax(history, p) == if p in best then best[p] else -1
    {
      best := map[];
      for i := 0 to |history|
        invariant forall p :: HistoryMax(history[..i], p) == if p in best then best[p] else -1
      {
        assert history[..i + 1][..i] == history[..i];
        var p, rank := PairOf(history[i]), Rank(history[i].severity);
        if rank > if p in best then best[p] else -1 {
          best := best[p := rank];
        }
      }
      assert history[..|history|] == history;
    }
  }

  // ---- What the severity loop maintains ----

  /** The dictionary holds each pair's running maximum; a pair is in it once it has a threshold. */
  ghost predicate Tracks(best: map<Pair, nat>, history: seq<Alert>, done: seq<Alert>) {
    forall p ::
      && Best(HistoryMax(history, p), done, p) == (if p in best then best[p] else -1)
      && (p in best <==> Threshold(history, done, p) >= 0)
      && Threshold(history, done, p) <= Best(HistoryMax(history, p), done, p)
  }

  ghost predicate FiresRight(seen: set<Key>, best: map<Pair, nat>, history: seq<Alert>, done: seq<Alert>) {
    forall p :: Fired(seen, p) <==> p in best && best[p] > Threshold(history, done, p)
  }

  ghost predicate Bounded(signals: seq<Signal>, best: map<Pair, nat>) {
    forall j :: 0 <= j < |signals| && signals[j].key.kind == NewSeverity ==>
      signals[j].key.pair in best && Rank(signals[j].severity) <= best[signals[j].key.pair]
  }

  /** The dictionary and the emitted keys after the alerts `done`. */
  ghost predicate Loop(seen: set<Key>, best: map<Pair, nat>, history: seq<Alert>, done: seq<Alert>) {
    && Tracks(best, history, done)
    && FiresRight(seen, best, history, done)
    && EmittedRises(seen, history, done)
  }

  ghost predicate EmittedRises(seen: set<Key>, history: seq<Alert>, done: seq<Alert>) {
    forall k: Key :: k.kind == NewSeverity ==> (k in seen <==> Rises(history, done, k))
  }

  /** Some alert of the key's pair and address exceeds every rank the pair had before it, and there was one. */
  ghost predicate Rises(history: seq<Alert>, current: seq<Alert>, k: Key) {
    k.kind == NewSeverity && exists i :: 0 <= i < |current| && RisesAt(history, current[..i], current[i], k)
  }

  predicate RisesAt(history: seq<Alert>, before: seq<Alert>, a: Alert, k: Key) {
    PairOf(a) == k.pair && a.ip == k.ip && 0 <= Best(HistoryMax(history, k.pair), before, k.pair) < Rank(a.severity)
  }

  lemma RisesSnoc(history: seq<Alert>, done: seq<Alert>, a: Alert, k: Key)
    requires k.kind == NewSeverity
    ensures Rises(history, done + [a], k) <==> Rises(history, done, k) || RisesAt(history, done, a, k)
  {
    var all := done + [a];
    assert all[..|done|] == done && all[|done|] == a;
    assert forall i :: 0 <= i < |done| ==> all[..i] == done[..i] && all[i] == done[i];
    if Rises(history, done, k) {
      var i :| 0 <= i < |done| && RisesAt(history, done[..i], done[i], k);
      assert RisesAt(history, all[..i], all[i], k);
    }
  }

  /** One alert keeps the dictionary and the emitted keys right. */
  lemma LoopSnoc(seen: set<Key>, best: map<Pair, nat>, history: seq<Alert>, done: seq<Alert>, a: Alert)
    requires Loop(seen, best, history, done)
    ensures var p, rank := PairOf(a), Rank(a.severity);
      var raised := p !in best || rank > best[p];
      var best' := if raised then best[p := rank] else best;
      var seen' := if raised && p in best then seen + {Key(NewSeverity, p, a.ip)} else seen;
      Loop(seen', best', history, done + [a])
  {
    var p, rank := PairOf(a), Rank(a.severity);
    TracksSnoc(seen, best, history, done, a);
    assert Best(HistoryMax(history, p), done, p) == (if p in best then best[p] else -1);
    forall k: Key | k.kind == NewSeverity
      ensures Rises(history, done + [a], k) <==>
        k in seen || (k == Key(NewSeverity, p, a.ip) && p in best && rank > best[p])
    {
      RisesSnoc(history, done, a, k);
    }
  }

  lemma BoundedMore(signals: seq<Signal>, best: map<Pair, nat>, p: Pair, rank: nat)
    requires Bounded(signals, best) && p !in best
    ensures Bounded(signals, best[p := rank])
  {
  }

  lemma TracksStart(best: map<Pair, nat>, history: seq<Alert>)
    requires forall p :: HistoryMax(history, p) == if p in best then best[p] else -1
    ensures Tracks(best, history, []) && forall k :: !Rises(history, [], k)
  {
  }

  lemma RanksSnoc(history: seq<Alert>, done: seq<Alert>, a: Alert, p: Pair)
    ensures Best(HistoryMax(history, p), done + [a], p) ==
      var m := Best(HistoryMax(history, p), done, p);
      if PairOf(a) == p && Rank(a.severity) > m then Rank(a.severity) else m
    ensures Threshold(history, done + [a], p) ==
      var t := Threshold(history, done, p); if t < 0 && PairOf(a) == p then Rank(a.severity) else t
  {
    assert (done + [a])[..|done|] == done;
    ThresholdOfKnownPair(history, done, p);
  }

  lemma ThresholdOfKnownPair(history: seq<Alert>, done: seq<Alert>, p: Pair)
    ensures HistoryMax(history, p) >= 0 ==> Threshold(history, done, p) == HistoryMax(history, p)
    ensures HistoryMax(history, p) < 0 ==> Threshold(history, done, p) >= -1
  {
  }

  /** One alert: the pair's maximum rises, and the pair fires exactly if it had a maximum to exceed. */
  lemma TracksSnoc(seen: set<Key>, best: map<Pair, nat>, history: seq<Alert>, done: seq<Alert>, a: Alert)
    requires Tracks(best, history, done) && FiresRight(seen, best, history, done)
    ensures var p, rank := PairOf(a), Rank(a.severity);
      var raised := p !in best || rank > best[p];
      var best' := if raised then best[p := rank] else best;
      var seen' := if raised && p in best then seen + {Key(NewSeverity, p, a.ip)} else seen;
      Tracks(best', history, done + [a]) && FiresRight(seen', best', history, done + [a])
  {
    var p, rank := PairOf(a), Rank(a.severity);
    var raised := p !in best || rank > best[p];
    var best' := if raised then best[p := rank] else best;
    var seen' := if raised && p in best then seen + {Key(NewSeverity, p, a.ip)} else seen;
    forall q
      ensures Best(HistoryMax(history, q), done + [a], q) == (if q in best' then best'[q] else -1)
      ensures q in best' <==> Threshold(history, done + [a], q) >= 0
      ensures Threshold(history, done + [a], q) <= Best(HistoryMax(history, q), done + [a], q)
      ensures Fired(seen', q) <==> q in best' && best'[q] > Threshold(history, done + [a], q)
    {
      RanksSnoc(history, done, a, q);
      FiredMore(seen, Key(NewSeverity, p, a.ip), q);
      assert Fired(seen, q) <==> q in best && best[q] > Threshold(history, done, q);
    }
  }

  ghost predicate Escalates(history: seq<Alert>, current: seq<Alert>, p: Pair) {
    exists i :: 0 <= i < |current| && PairOf(current[i]) == p &&
      Rank(current[i].severity) > Threshold(history, current, p)
  }

  lemma FiresFinally(seen: set<Key>, best: map<Pair, nat>, history: seq<Alert>, current: seq<Alert>)
    requires Tracks(best, history, current) && FiresRight(seen, best, history, current)
    ensures forall p :: Fired(seen, p) <==> Escalates(history, current, p)
  {
    forall p ensures Fired(seen, p) <==> Escalates(history, current, p) {
      BestIsMaximum(HistoryMax(history, p), current, p);
      ThresholdOfKnownPair(history, current, p);
      assert Fired(seen, p) <==> p in best && best[p] > Threshold(history, current, p);
      assert Best(HistoryMax(history, p), current, p) == (if p in best then best[p] else -1);
    }
  }

  /** For a pair with history the threshold is the highest rank it ever had. */
  lemma EscalationOverHistory(history: seq<Alert>, current: seq<Alert>, p: Pair)
    requires exists i :: 0 <= i < |history| && PairOf(history[i]) == p
    ensures Escalates(history, current, p) <==>
      exists i :: 0 <= i < |current| && PairOf(current[i]) == p &&
        forall j :: 0 <= j < |history| && PairOf(history[j]) == p ==>
          Rank(current[i].severity) > Rank(history[j].severity)
  {
    BestIsMaximum(-1, history, p);
    ThresholdOfKnownPair(history, current, p);
  }

  lemma FiredMore(seen: set<Key>, k: Key, p: Pair)
    ensures Fired(seen + {k}, p) <==> Fired(seen, p) || (k.kind == NewSeverity && k.pair == p)
  {
    if Fired(seen, p) {
      var l :| l in seen && l.kind == NewSeverity && l.pair == p;
      assert l in seen + {k};
    }
    if k.kind == NewSeverity && k.pair == p {
      assert k in seen + {k};
    }
  }

  lemma IncreasingSnoc(signals: seq<Signal>, best: map<Pair, nat>, a: Alert)
    requires Increasing(signals) && Bounded(signals, best)
    requires PairOf(a) in best && Rank(a.severity) > best[PairOf(a)]
    ensures var s := Signal(Key(NewSeverity, PairOf(a), a.ip), a.severity);
      && Increasing(signals + [s]) && Bounded(signals + [s], best[PairOf(a) := Rank(a.severity)])
      && Bounded(signals, best[PairOf(a) := Rank(a.severity)])
  {
  }

  lemma OccursSnoc(alerts: seq<Alert>, i: int, p: Pair, ip: Option<string>)
    requires 0 <= i < |alerts|
    ensures Occurs(alerts[..i + 1], p, ip) <==>
      Occurs(alerts[..i], p, ip) || (PairOf(alerts[i]) == p && alerts[i].ip == ip)
  {
    if Occurs(alerts[..i], p, ip) {
      var j :| 0 <= j < i && PairOf(alerts[..i][j]) == p && alerts[..i][j].ip == ip;
      assert alerts[..i + 1][j] == alerts[..i][j];
    }
    if PairOf(alerts[i]) == p && alerts[i].ip == ip {
      assert alerts[..i + 1][i] == alerts[i];
    }
  }

  /** Some new-severity signal was emitted for the pair. */
  ghost predicate Fired(seen: set<Key>, p: Pair) {
    exists k :: k in seen && k.kind == NewSeverity && k.pair == p
  }

  predicate SamePairSeverities(k: Key, l: Key) {
    k.kind == NewSeverity && l.kind == NewSeverity && k.pair == l.pair
  }

  /** The new-severity signals of one pair have strictly increasing ranks. */
  ghost predicate Increasing(signals: seq<Signal>) {
    forall i, j :: 0 <= i < j < |signals| && SamePairSeverities(signals[i].key, signals[j].key) ==>
      Rank(signals[i].severity) < Rank(signals[j].severity)
  }
}
