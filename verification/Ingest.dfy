/**
 Webhook ingest: deduplication by source and source id, duplicate counting, and the correlation id
 an alert is given. UUIDs are minted from a counter, so a fresh one has never been used before.
 */
module Ingest {
  import opened Common

  datatype Webhook = Webhook(source: string, sourceId: Option<string>, payload: string)
  datatype Alert = Alert(
    source: string, sourceId: Option<string>, payload: string, duplicates: nat, correlation: Option<nat>)

  /** The alert table in insertion order, the next unused UUID, and the correlation id of the calling context. */
  datatype Table = Table(alerts: seq<Alert>, minted: nat, context: Option<nat>)

  datatype Outcome = Stored(alert: nat) | MultipleResults

  /** A missing or empty source id is never looked up. */
  predicate Keyed(w: Webhook) {
    w.sourceId.Some? && w.sourceId.value != ""
  }

  predicate Has(a: Alert, source: string, id: string) {
    a.source == source && a.sourceId == Some(id)
  }

  /** The positions of the alerts with this source and source id. */
  function Hits(alerts: seq<Alert>, source: string, id: string): (r: seq<nat>)
    ensures forall x :: x in r <==> (0 <= x < |alerts| && Has(alerts[x], source, id))
    ensures forall i, j :: 0 <= i < j < |r| ==> r[i] < r[j]
  {
    if alerts == [] then [] else
    var n := |alerts| - 1;
    var r := Hits(alerts[..n], source, id);
    assert forall i :: 0 <= i < |r| ==> r[i] in r;
    if Has(alerts[n], source, id) then r + [n] else r
  }

  function Created(t: Table, w: Webhook): Table {
    Table(t.alerts + [Alert(w.source, w.sourceId, w.payload, 1, Some(t.minted))], t.minted + 1, Some(t.minted))
  }

  /** One more occurrence of a known alert; an alert without a correlation id is given one. */
  function Bumped(t: Table, w: Webhook, i: nat): Table
    requires i < |t.alerts|
  {
    var a := t.alerts[i];
    var id := if a.correlation.Some? then a.correlation.value else t.minted;
    Table(t.alerts[i := a.(duplicates := a.duplicates + 1, payload := w.payload, correlation := Some(id))],
          if a.correlation.Some? then t.minted else t.minted + 1,
          Some(id))
  }

  function HitsOf(t: Table, w: Webhook): seq<nat> {
    if Keyed(w) then Hits(t.alerts, w.source, w.sourceId.value) else []
  }

  function Ingested(t: Table, w: Webhook): Table {
    var hits := HitsOf(t, w);
    assert |hits| == 1 ==> hits[0] in hits;
    if |hits| == 0 then Created(t, w) else if |hits| == 1 then Bumped(t, w, hits[0]) else t
  }

  function OutcomeOf(t: Table, w: Webhook): Outcome {
    var hits := HitsOf(t, w);
    if |hits| == 0 then Stored(|t.alerts|) else if |hits| == 1 then Stored(hits[0]) else MultipleResults
  }

  class Session {
    var alerts: seq<Alert>
    var minted: nat
    var context: Option<nat>

    constructor (t: Table)
      ensures Now() == t
    {
      alerts, minted, context := t.alerts, t.minted, t.context;
    }

    ghost function Now(): Table
      reads this
    {
      Table(alerts, minted, context)
    }

    method Mint() returns (id: nat)
      modifies this`minted
      ensures id == old(minted) && minted == id + 1
    {
      id := minted;
      minted := minted + 1;
    }

    method ProcessWebhook(w: Webhook) returns (r: Outcome)
      modifies this
      ensures Now() == Ingested(old(Now()), w) && r == OutcomeOf(old(Now()), w)
    {
      if Keyed(w) {
        var hits := Hits(alerts, w.source, w.sourceId.value);
        if |hits| > 1 {
          return MultipleResults;
        }
        if |hits| == 1 {
          var i := hits[0];
          assert i in hits;
          alerts := alerts[i := alerts[i].(duplicates := alerts[i].duplicates + 1)];
          alerts := alerts[i := alerts[i].(payload := w.payload)];
          if alerts[i].correlation.None? {
            var id := Mint();
            alerts := alerts[i := alerts[i].(correlation := Some(id))];
          }
          context := alerts[i].correlation;
          assert alerts == Ingested(old(Now()), w).alerts;
          return Stored(i);
        }
      }
      var id := Mint();
      context := Some(id);
      r := Stored(|alerts|);
      alerts := alerts + [Alert(w.source, w.sourceId, w.payload, 1, Some(id))];
    }
  }

  // ---- One alert per key ----

  /** No two alerts share a source and a non-empty source id. */
  ghost predicate OnePerKey(alerts: seq<Alert>) {
    forall i, j :: 0 <= i < j < |alerts| ==> !SameKey(alerts[i], alerts[j])
  }

  ghost predicate SameKey(a: Alert, b: Alert) {
    a.source == b.source && a.sourceId == b.sourceId && a.sourceId.Some? && a.sourceId.value != ""
  }

  lemma HitsShareKey(alerts: seq<Alert>, source: string, id: string)
    requires id != ""
    ensures var hits := Hits(alerts, source, id);
      |hits| > 1 ==> hits[0] < hits[1] < |alerts| && SameKey(alerts[hits[0]], alerts[hits[1]])
  {
    var hits := Hits(alerts, source, id);
    if |hits| > 1 {
      assert hits[0] in hits && hits[1] in hits;
    }
  }

  lemma AtMostOneHit(t: Table, w: Webhook)
    requires OnePerKey(t.alerts)
    ensures |HitsOf(t, w)| <= 1
  {
    if Keyed(w) {
      HitsShareKey(t.alerts, w.source, w.sourceId.value);
    }
  }

  /** Where the webhook lands. */
  lemma Landed(t: Table, w: Webhook)
    requires OnePerKey(t.alerts)
    ensures HitsOf(t, w) == [] ==> Ingested(t, w) == Created(t, w) && OutcomeOf(t, w) == Stored(|t.alerts|)
    ensures HitsOf(t, w) != [] ==> var i := HitsOf(t, w)[0];
      && i < |t.alerts| && Keyed(w) && Has(t.alerts[i], w.source, w.sourceId.value)
      && Ingested(t, w) == Bumped(t, w, i) && OutcomeOf(t, w) == Stored(i)
    ensures OutcomeOf(t, w).Stored?
  {
    AtMostOneHit(t, w);
    var hits := HitsOf(t, w);
    if hits != [] {
      assert hits[0] in hits;
    }
  }

  /** A table with one alert per key keeps that, and looking a key up never finds several rows. */
  lemma OnePerKeyKept(t: Table, w: Webhook)
    requires OnePerKey(t.alerts)
    ensures OnePerKey(Ingested(t, w).alerts) && OutcomeOf(t, w).Stored?
  {
    Landed(t, w);
    var now := Ingested(t, w).alerts;
    forall i, j | 0 <= i < j < |now| ensures !SameKey(now[i], now[j]) {
      if HitsOf(t, w) == [] && j == |t.alerts| && Keyed(w) {
        assert i !in HitsOf(t, w);
      } else if j < |t.alerts| {
        assert !SameKey(t.alerts[i], t.alerts[j]);
      }
    }
  }

  ghost predicate At(alerts: seq<Alert>, i: int, w: Webhook) {
    0 <= i < |alerts| && w.sourceId.Some? && Has(alerts[i], w.source, w.sourceId.value)
  }

  /** The lookup raises, and the webhook is lost, exactly when two alerts already share its key. */
  lemma RaisesExactlyOnDuplicates(t: Table, w: Webhook)
    ensures OutcomeOf(t, w) == MultipleResults <==>
      (Keyed(w) && exists i, j :: i < j && At(t.alerts, i, w) && At(t.alerts, j, w))
    ensures OutcomeOf(t, w) == MultipleResults ==> Ingested(t, w) == t
  {
    var hits := HitsOf(t, w);
    if |hits| > 1 {
      assert hits[0] in hits && hits[1] in hits;
      assert At(t.alerts, hits[0], w) && At(t.alerts, hits[1], w);
    }
    if Keyed(w) {
      if i, j :| i < j && At(t.alerts, i, w) && At(t.alerts, j, w) {
        assert i in hits && j in hits;
      }
    }
  }

  /** The alert has the webhook's source and source id, and there is one. */
  predicate Names(w: Webhook, a: Alert) {
    w.sourceId.Some? && w.sourceId.value != "" && a.source == w.source && a.sourceId == w.sourceId
  }

  lemma HitsName(t: Table, w: Webhook)
    ensures forall x :: x in HitsOf(t, w) <==> 0 <= x < |t.alerts| && Names(w, t.alerts[x])
    ensures HitsOf(t, w) == [] || HitsOf(t, w)[0] in HitsOf(t, w)
  {
  }

  /** A webhook that names no stored alert, as every one without a source id, adds an alert with an id of its own. */
  lemma UnknownIsAdded(t: Table, w: Webhook)
    requires forall i :: 0 <= i < |t.alerts| ==> !Names(w, t.alerts[i])
    ensures Ingested(t, w) ==
      Table(t.alerts + [Alert(w.source, w.sourceId, w.payload, 1, Some(t.minted))], t.minted + 1, Some(t.minted))
    ensures OutcomeOf(t, w) == Stored(|t.alerts|)
  {
    HitsName(t, w);
  }

  /** A webhook that names one stored alert counts there, replaces its payload and fills a missing id in. */
  lemma KnownIsCounted(t: Table, w: Webhook, i: nat)
    requires i < |t.alerts| && Names(w, t.alerts[i])
    requires forall j :: 0 <= j < |t.alerts| && j != i ==> !Names(w, t.alerts[j])
    ensures OutcomeOf(t, w) == Stored(i)
    ensures var now, a, b := Ingested(t, w), t.alerts[i], Ingested(t, w).alerts[i];
      && now.alerts == t.alerts[i := b]
      && b.source == a.source && b.sourceId == a.sourceId
      && b.payload == w.payload && b.duplicates == a.duplicates + 1
      && b.correlation == (if a.correlation == None then Some(t.minted) else a.correlation)
      && now.context == b.correlation
      && now.minted == (if a.correlation == None then t.minted + 1 else t.minted)
  {
    var hits := HitsOf(t, w);
    assert i in hits;
    if |hits| > 1 {
      assert hits[0] in hits && hits[1] in hits;
      assert Names(w, t.alerts[hits[0]]) && Names(w, t.alerts[hits[1]]);
    }
  }

  // ---- Counting ----

  function Total(alerts: seq<Alert>): nat {
    if alerts == [] then 0 else Total(alerts[..|alerts| - 1]) + alerts[|alerts| - 1].duplicates
  }

  /** The occurrences counted by the alerts with this source and source id. */
  function KeyTotal(alerts: seq<Alert>, source: string, id: string): nat {
    if alerts == [] then 0 else
    var n := |alerts| - 1;
    KeyTotal(alerts[..n], source, id) + if Has(alerts[n], source, id) then alerts[n].duplicates else 0
  }

  lemma {:induction false} TotalBumped(alerts: seq<Alert>, i: nat, a: Alert, source: string, id: string)
    requires i < |alerts| && a.duplicates == alerts[i].duplicates + 1
    requires a.source == alerts[i].source && a.sourceId == alerts[i].sourceId
    ensures Total(alerts[i := a]) == Total(alerts) + 1
    ensures KeyTotal(alerts[i := a], source, id) ==
      KeyTotal(alerts, source, id) + if Has(alerts[i], source, id) then 1 else 0
  {
    var n := |alerts| - 1;
    if i == n {
      assert alerts[i := a][..n] == alerts[..n];
    } else {
      assert alerts[i := a][..n] == alerts[..n][i := a];
      TotalBumped(alerts[..n], i, a, source, id);
    }
  }

  predicate IsFor(w: Webhook, source: string, id: string) {
    w.source == source && w.sourceId == Some(id)
  }

  lemma CountsOneMore(t: Table, w: Webhook, source: string, id: string)
    requires OnePerKey(t.alerts)
    ensures Total(Ingested(t, w).alerts) == Total(t.alerts) + 1
    ensures KeyTotal(Ingested(t, w).alerts, source, id) ==
      KeyTotal(t.alerts, source, id) + if IsFor(w, source, id) then 1 else 0
  {
    Landed(t, w);
    var now := Ingested(t, w).alerts;
    if HitsOf(t, w) == [] {
      assert now[..|now| - 1] == t.alerts;
    } else {
      var i := HitsOf(t, w)[0];
      TotalBumped(t.alerts, i, now[i], source, id);
    }
  }

  // ---- Runs of webhooks ----

  function IngestAll(t: Table, ws: seq<Webhook>): Table {
    if ws == [] then t else Ingested(IngestAll(t, ws[..|ws| - 1]), ws[|ws| - 1])
  }

  function CountFor(ws: seq<Webhook>, source: string, id: string): nat {
    if ws == [] then 0 else
    CountFor(ws[..|ws| - 1], source, id) + if IsFor(ws[|ws| - 1], source, id) then 1 else 0
  }

  /** Every webhook is counted exactly once, and under its own key. */
  lemma {:induction false} IngestConserves(t: Table, ws: seq<Webhook>, source: string, id: string)
    requires OnePerKey(t.alerts)
    ensures OnePerKey(IngestAll(t, ws).alerts)
    ensures Total(IngestAll(t, ws).alerts) == Total(t.alerts) + |ws|
    ensures KeyTotal(IngestAll(t, ws).alerts, source, id) == KeyTotal(t.alerts, source, id) + CountFor(ws, source, id)
  {
    if ws != [] {
      var before := ws[..|ws| - 1];
      IngestConserves(t, before, source, id);
      OnePerKeyKept(IngestAll(t, before), ws[|ws| - 1]);
      CountsOneMore(IngestAll(t, before), ws[|ws| - 1], source, id);
    }
  }

  lemma {:induction false} KeyTotalAbsent(alerts: seq<Alert>, source: string, id: string)
    requires forall i :: 0 <= i < |alerts| ==> !Has(alerts[i], source, id)
    ensures KeyTotal(alerts, source, id) == 0
  {
    if alerts != [] {
      KeyTotalAbsent(alerts[..|alerts| - 1], source, id);
    }
  }

  /** With one alert per key, the total of a key is the counter of its alert. */
  lemma {:induction false} KeyTotalOfAlert(alerts: seq<Alert>, i: nat, source: string, id: string)
    requires OnePerKey(alerts) && i < |alerts| && Has(alerts[i], source, id) && id != ""
    ensures KeyTotal(alerts, source, id) == alerts[i].duplicates
  {
    var n := |alerts| - 1;
    if i == n {
      forall k | 0 <= k < n ensures !Has(alerts[..n][k], source, id) {
        assert !SameKey(alerts[k], alerts[i]);
      }
      KeyTotalAbsent(alerts[..n], source, id);
    } else {
      assert !SameKey(alerts[i], alerts[n]);
      KeyTotalOfAlert(alerts[..n], i, source, id);
    }
  }

  /** Ingesting into an empty table: an alert's counter is the number of webhooks with its key. */
  lemma CounterIsWebhooks(minted: nat, ws: seq<Webhook>, i: nat, id: string)
    requires id != "" && i < |IngestAll(Table([], minted, None), ws).alerts|
    requires IngestAll(Table([], minted, None), ws).alerts[i].sourceId == Some(id)
    ensures var a := IngestAll(Table([], minted, None), ws).alerts[i]; a.duplicates == CountFor(ws, a.source, id)
  {
    var alerts := IngestAll(Table([], minted, None), ws).alerts;
    IngestConserves(Table([], minted, None), ws, alerts[i].source, id);
    KeyTotalOfAlert(alerts, i, alerts[i].source, id);
  }

  function Keyless(ws: seq<Webhook>): nat {
    if ws == [] then 0 else
    var w := ws[|ws| - 1];
    Keyless(ws[..|ws| - 1]) + if w.sourceId == None || w.sourceId == Some("") then 1 else 0
  }

  function KeysOf(ws: seq<Webhook>): set<(string, string)> {
    if ws == [] then {} else
    var w := ws[|ws| - 1];
    KeysOf(ws[..|ws| - 1]) +
    if w.sourceId == None || w.sourceId == Some("") then {} else {(w.source, w.sourceId.value)}
  }

  ghost predicate HasKey(alerts: seq<Alert>, source: string, id: string) {
    exists i :: 0 <= i < |alerts| && Has(alerts[i], source, id)
  }

  lemma HasKeyStep(t: Table, w: Webhook, source: string, id: string)
    requires OnePerKey(t.alerts)
    ensures HasKey(Ingested(t, w).alerts, source, id) <==> HasKey(t.alerts, source, id) || IsFor(w, source, id)
  {
    Landed(t, w);
    var now := Ingested(t, w).alerts;
    if HitsOf(t, w) == [] {
      assert now[|t.alerts|] == Alert(w.source, w.sourceId, w.payload, 1, Some(t.minted));
      if i :| 0 <= i < |t.alerts| && Has(t.alerts[i], source, id) {
        assert now[i] == t.alerts[i];
      }
    } else {
      var k := HitsOf(t, w)[0];
      assert forall i :: 0 <= i < |now| ==> (Has(now[i], source, id) <==> Has(t.alerts[i], source, id));
      assert IsFor(w, source, id) ==> Has(t.alerts[k], source, id);
    }
  }

  lemma AddsWhenUnknown(t: Table, w: Webhook)
    requires OnePerKey(t.alerts)
    ensures |Ingested(t, w).alerts| ==
      |t.alerts| + if w.sourceId.Some? && w.sourceId.value != "" && HasKey(t.alerts, w.source, w.sourceId.value)
        then 0 else 1
  {
    Landed(t, w);
    if Keyed(w) && HasKey(t.alerts, w.source, w.sourceId.value) {
      var i :| 0 <= i < |t.alerts| && Has(t.alerts[i], w.source, w.sourceId.value);
      assert i in HitsOf(t, w);
    }
  }

  /** After ingesting into an empty table, the stored keys are those that came. */
  lemma {:induction false} StoredKeys(minted: nat, ws: seq<Webhook>, source: string, id: string)
    requires id != ""
    ensures var alerts := IngestAll(Table([], minted, None), ws).alerts;
      OnePerKey(alerts) && (HasKey(alerts, source, id) <==> (source, id) in KeysOf(ws))
  {
    if ws != [] {
      var before, w := ws[..|ws| - 1], ws[|ws| - 1];
      StoredKeys(minted, before, source, id);
      OnePerKeyKept(IngestAll(Table([], minted, None), before), w);
      HasKeyStep(IngestAll(Table([], minted, None), before), w, source, id);
    }
  }

  /** One alert for each key that came, and one for each webhook without a key. */
  lemma {:induction false} AlertsAreKeys(minted: nat, ws: seq<Webhook>)
    ensures |IngestAll(Table([], minted, None), ws).alerts| == |KeysOf(ws)| + Keyless(ws)
  {
    if ws != [] {
      var before, w := ws[..|ws| - 1], ws[|ws| - 1];
      AlertsAreKeys(minted, before);
      StoredKeys(minted, before, w.source, if Keyed(w) then w.sourceId.value else "-");
      AddsWhenUnknown(IngestAll(Table([], minted, None), before), w);
    }
  }

  // ---- Correlation ids ----

  /** Later tables keep every alert, its key and its correlation id once set. */
  ghost predicate Extends(t: Table, now: Table) {
    && |t.alerts| <= |now.alerts|
    && t.minted <= now.minted
    && forall i :: 0 <= i < |t.alerts| ==> KeepsIdentity(t.alerts[i], now.alerts[i])
  }

  ghost predicate KeepsIdentity(a: Alert, b: Alert) {
    && b.source == a.source && b.sourceId == a.sourceId
    && (a.correlation.Some? ==> b.correlation == a.correlation)
  }

  lemma IngestExtends(t: Table, w: Webhook)
    requires OnePerKey(t.alerts)
    ensures Extends(t, Ingested(t, w))
    ensures OutcomeOf(t, w).Stored?
    ensures var i, now := OutcomeOf(t, w).alert, Ingested(t, w);
      i < |now.alerts| && now.alerts[i].correlation.Some? && now.context == now.alerts[i].correlation
      && now.alerts[i].payload == w.payload
  {
    Landed(t, w);
  }

  /** Over any run of webhooks an alert's correlation id never changes once set. */
  lemma {:induction false} CorrelationNeverChanges(t: Table, ws: seq<Webhook>)
    requires OnePerKey(t.alerts)
    ensures Extends(t, IngestAll(t, ws))
  {
    if ws != [] {
      var before := ws[..|ws| - 1];
      CorrelationNeverChanges(t, before);
      IngestConserves(t, before, "", "");
      IngestExtends(IngestAll(t, before), ws[|ws| - 1]);
    }
  }

  /** Ids come from the counter, and no two alerts share one. */
  ghost predicate SeparateIds(t: Table) {
    && (forall i :: 0 <= i < |t.alerts| && t.alerts[i].correlation.Some? ==> t.alerts[i].correlation.value < t.minted)
    && (forall i, j :: 0 <= i < j < |t.alerts| && t.alerts[i].correlation.Some? ==>
          t.alerts[i].correlation != t.alerts[j].correlation)
  }

  lemma SeparateIdsStep(t: Table, w: Webhook)
    requires OnePerKey(t.alerts) && SeparateIds(t)
    ensures SeparateIds(Ingested(t, w))
  {
    Landed(t, w);
  }

  /** Different alerts never share a correlation id, so a trace belongs to one alert. */
  lemma {:induction false} TracesStaySeparate(t: Table, ws: seq<Webhook>)
    requires OnePerKey(t.alerts) && SeparateIds(t)
    ensures SeparateIds(IngestAll(t, ws))
  {
    if ws != [] {
      var before := ws[..|ws| - 1];
      TracesStaySeparate(t, before);
      IngestConserves(t, before, "", "");
      SeparateIdsStep(IngestAll(t, before), ws[|ws| - 1]);
    }
  }
}
