/** Detection runs against the stored alerts, and the anomaly rows they leave. */
module AnomalyRuns {
  import opened Common
  import opened DailyBaseline
  import opened Reals
  import opened AnomalySignals
  import opened AnomalyWindow

  datatype Row = Row(key: Key, createdAt: int)

  /** No key is stored twice on one UTC day. */
  ghost predicate OncePerDay(rows: seq<Row>) {
    forall i, j :: 0 <= i < j < |rows| && rows[i].key == rows[j].key ==>
      Day(rows[i].createdAt) != Day(rows[j].createdAt)
  }

  ghost predicate StoredSince(rows: seq<Row>, key: Key, start: int) {
    exists i :: 0 <= i < |rows| && rows[i].key == key && rows[i].createdAt >= start
  }

  /** A row for one of the signals, with its time, whose key was not stored since the start of the day. */
  ghost predicate Inserted(was: seq<Row>, signals: seq<Signal>, stamps: seq<int>, now: int, r: Row)
    requires |stamps| == |signals|
  {
    && !StoredSince(was, r.key, DayStart(now))
    && exists i :: 0 <= i < |signals| && r == Row(signals[i].key, stamps[i])
  }

  class AnomalyTable {
    var rows: seq<Row>

    constructor ()
      ensures rows == []
    {
      rows := [];
    }

    /** Stores the signals not yet stored since the start of the day; `stamps` are the insertion times. */
    method Persist(signals: seq<Signal>, now: int, stamps: seq<int>) returns (inserted: nat)
      requires |stamps| == |signals| && forall i :: 0 <= i < |stamps| ==> stamps[i] >= now
      modifies this
      ensures old(rows) <= rows && inserted == |rows| - |old(rows)|
      ensures OncePerDay(old(rows)) ==> OncePerDay(rows)
      ensures forall i :: 0 <= i < |signals| ==> StoredSince(rows, signals[i].key, DayStart(now))
      ensures forall i :: |old(rows)| <= i < |rows| ==> Inserted(old(rows), signals, stamps, now, rows[i])
    {
      var seen: set<Key> := set i | 0 <= i < |rows| && rows[i].createdAt >= DayStart(now) :: rows[i].key;
      ghost var was := rows;
      inserted := 0;
      for i := 0 to |signals|
        invariant was <= rows && inserted == |rows| - |was|
        invariant OncePerDay(was) ==> OncePerDay(rows)
        invariant forall k :: k in seen <==> StoredSince(rows, k, DayStart(now))
        invariant forall j :: 0 <= j < i ==> signals[j].key in seen
        invariant forall k :: StoredSince(was, k, DayStart(now)) ==> k in seen
        invariant forall j :: |was| <= j < |rows| ==> Inserted(was, signals, stamps, now, rows[j])
      {
        var key := signals[i].key;
        if key !in seen {
          ghost var before := rows;
          rows := rows + [Row(key, stamps[i])];
          seen := seen + {key};
          inserted := inserted + 1;
          StoredSnoc(before, Row(key, stamps[i]), now);
          assert Inserted(was, signals, stamps, now, Row(key, stamps[i]));
        }
      }
    }

    /** One run: split the window into history and today, detect, persist. */
    method RunAnomalyDetection(alerts: seq<Alert>, now: int, baselineDays: nat, root: real -> real, stamps: nat -> int)
      returns (inserted: nat, ghost emitted: set<Key>)
      requires baselineDays >= 1 && forall i :: stamps(i) >= now
      modifies this
      ensures old(rows) <= rows && inserted == |rows| - |old(rows)|
      ensures OncePerDay(old(rows)) ==> OncePerDay(rows)
      ensures forall k :: k in emitted ==> StoredSince(rows, k, DayStart(now))
      ensures forall i :: |old(rows)| <= i < |rows| ==>
        rows[i].key in emitted && !StoredSince(old(rows), rows[i].key, DayStart(now))
      ensures forall k: Key :: k.kind == FirstSeenIp ==> (k in emitted <==> FirstSeenIn(alerts, now, baselineDays, k))
      ensures forall k: Key :: k.kind == NewSeverity ==> (k in emitted <==> RisesIn(alerts, now, baselineDays, k))
      ensures IsRoot(root) ==>
        forall k: Key :: k.kind == CountSpiked ==> (k in emitted <==> SpikesIn(alerts, now, baselineDays, k))
    {
      var history, current := InWindow(alerts, now, baselineDays, false), InWindow(alerts, now, baselineDays, true);
      var signals;
      signals, emitted := Detect(history, current, baselineDays, root);
      forall k: Key ensures k.kind == FirstSeenIp ==> (k in emitted <==> FirstSeenIn(alerts, now, baselineDays, k))
        ensures k.kind == NewSeverity ==> (k in emitted <==> RisesIn(alerts, now, baselineDays, k))
        ensures IsRoot(root) && k.kind == CountSpiked ==> (k in emitted <==> SpikesIn(alerts, now, baselineDays, k))
      {
        FirstSeenMeans(alerts, now, baselineDays, k);
        if k.kind == NewSeverity {
          RisesMeans(alerts, now, baselineDays, k);
        }
        if IsRoot(root) && k.kind == CountSpiked {
          RunSpikeDecision(alerts, now, baselineDays, k, root);
        }
      }
      inserted := Persist(signals, now, seq(|signals|, i requires 0 <= i => stamps(i)));
    }
  }

  /** The three heuristics over one batch. */
  method Detect(history: seq<Alert>, current: seq<Alert>, baselineDays: nat, root: real -> real)
    returns (signals: seq<Signal>, ghost emitted: set<Key>)
    requires baselineDays >= 1
    ensures forall k :: k in emitted <==> exists i :: 0 <= i < |signals| && signals[i].key == k
    ensures forall k: Key :: k.kind == FirstSeenIp ==> (k in emitted <==> NewAddress(history, current, k))
    ensures forall k: Key :: k.kind == NewSeverity ==> (k in emitted <==> Rises(history, current, k))
    ensures forall k: Key :: k.kind == CountSpiked ==>
      (k in emitted <==> SpikesNow(history, current, k, baselineDays, root))
  {
    var d := new Detector();
    d.FirstSeenPass(history, current);
    assert forall i :: 0 <= i < |d.signals| ==> d.signals[i].key in d.seen;
    d.NewSeverityPass(history, current);
    d.CountSpikePass(history, current, baselineDays, root);
    signals, emitted := d.signals, d.seen;
  }

  lemma StoredSnoc(rows: seq<Row>, r: Row, now: int)
    requires r.createdAt >= now
    ensures forall k :: StoredSince(rows + [r], k, DayStart(now)) <==> StoredSince(rows, k, DayStart(now)) || k == r.key
    ensures OncePerDay(rows) && !StoredSince(rows, r.key, DayStart(now)) ==> OncePerDay(rows + [r])
  {
    var all := rows + [r];
    assert DayStart(now) <= now && Day(r.createdAt) >= Day(now);
    forall k ensures StoredSince(all, k, DayStart(now)) <==> StoredSince(rows, k, DayStart(now)) || k == r.key {
      if StoredSince(rows, k, DayStart(now)) {
        var i :| 0 <= i < |rows| && rows[i].key == k && rows[i].createdAt >= DayStart(now);
        assert all[i] == rows[i];
      }
      assert all[|rows|] == r;
    }
    if OncePerDay(rows) && !StoredSince(rows, r.key, DayStart(now)) {
      forall i | 0 <= i < |rows| && rows[i].key == r.key ensures Day(rows[i].createdAt) != Day(r.createdAt) {
        assert rows[i].createdAt < DayStart(now);
      }
    }
  }
}
