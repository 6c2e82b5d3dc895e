/** What every run of purges, interleaved with other changes to the tables, keeps. */
module RetentionSafety {
  import opened Common
  import opened Retention

  datatype Kind = Alerts | Incidents

  /** A committed purge: what it found, when it read the clock, what became of the rows, and what it noted. */
  datatype Purge = Purge(before: Db, clock: Clock, fate: Fate, auditId: Id, note: AuditNote)

  function PurgeOf(s: Settings, db: Db, c: Clock, auditId: Id): Purge {
    Purge(db, c, FateOf(s, db, c), auditId, AuditNote(PurgeReport(s, db, c), s.grace))
  }

  datatype World = World(db: Db, purges: seq<Purge>)

  datatype Event =
    | RunPurge(clock: Clock, dryRun: bool, auditId: Id)
    | PutRow(kind: Kind, id: Id, row: Row)
    | DeleteAlert(id: Id)
    | PutActivity(id: Id, activity: Activity)
    | SetRunRefs(refs: set<Id>)

  function Rows(db: Db, kind: Kind): map<Id, Row> {
    if kind == Alerts then db.alerts else db.incidents
  }

  function RetentionOf(s: Settings, kind: Kind): int {
    if kind == Alerts then s.alerts else s.incidents
  }

  function ArchivedBy(p: Purge, kind: Kind): set<Id> {
    if kind == Alerts then p.fate.archivedAlerts else p.fate.archivedIncidents
  }

  function RemovedBy(p: Purge, kind: Kind): set<Id> {
    if kind == Alerts then p.fate.removedAlerts else p.fate.removedIncidents
  }

  function GraceReading(c: Clock, kind: Kind): int {
    if kind == Alerts then c.alertGrace else c.incidentGrace
  }

  function LastSoftReading(c: Clock, kind: Kind): int {
    if kind == Alerts then c.alertCreated else c.incidentCreated
  }

  function EndTime(r: Row): int {
    match r.endedAt
    case Some(t) => t
    case None => r.createdAt
  }

  /**
   Other code inserts rows unarchived and never touches `archived_at`. It may insert an activity under any
   action, the purge's own included, but what it edits later are comments.
   */
  ghost predicate Allowed(db: Db, e: Event) {
    match e
    case RunPurge(c, dryRun, auditId) => Ordered(c) && auditId !in db.activities
    case PutRow(kind, id, row) =>
      row.archivedAt == if id in Rows(db, kind) then Rows(db, kind)[id].archivedAt else None
    case DeleteAlert(id) => id in db.alerts
    case PutActivity(id, activity) =>
      && (id in db.activities ==>
        && db.activities[id].action != PURGE_ACTION
        && activity.action == db.activities[id].action && activity.archivedAt == db.activities[id].archivedAt)
      && (id !in db.activities ==> activity.archivedAt == None)
    case SetRunRefs(refs) => true
  }

  /** A playbook run that refers to an alert makes its deletion fail, one by one as well as by a purge. */
  ghost function Step(s: Settings, w: World, e: Event): World
  {
    match e
    case RunPurge(c, dryRun, auditId) =>
      if dryRun || Blocked(s, w.db, c) then w else
      var p := PurgeOf(s, w.db, c, auditId);
      World(AfterPurge(w.db, p.fate, c, auditId, p.note), w.purges + [p])
    case PutRow(kind, id, row) =>
      if kind == Alerts then w.(db := w.db.(alerts := w.db.alerts[id := row]))
      else w.(db := w.db.(incidents := w.db.incidents[id := row]))
    case DeleteAlert(id) =>
      if id in w.db.runRefs then w else
      w.(db := w.db.(alerts := w.db.alerts - {id}, activities := w.db.activities - Cascaded(w.db.activities, {id}, {})))
    case PutActivity(id, activity) => w.(db := w.db.(activities := w.db.activities[id := activity]))
    case SetRunRefs(refs) => w.(db := w.db.(runRefs := refs))
  }

  ghost predicate Legal(s: Settings, w: World, es: seq<Event>)
    decreases |es|
  {
    es == [] || (Allowed(w.db, es[0]) && Legal(s, Step(s, w, es[0]), es[1..]))
  }

  ghost function Run(s: Settings, w: World, es: seq<Event>): World
    decreases |es|
  {
    if es == [] then w else Run(s, Step(s, w, es[0]), es[1..])
  }

  // ---- Lifetime safety ----

  /** The purge archived the row, which was closed and past its retention period. */
  ghost predicate ArchivedInTime(s: Settings, p: Purge, kind: Kind, id: Id) {
    && id in ArchivedBy(p, kind) && id in Rows(p.before, kind)
    && Terminal(Rows(p.before, kind)[id].status)
    && EndTime(Rows(p.before, kind)[id]) < LastSoftReading(p.clock, kind) - RetentionOf(s, kind)
  }

  ghost predicate ArchivedAt(s: Settings, purges: seq<Purge>, j: int, kind: Kind, id: Id, at: int) {
    0 <= j < |purges| && ArchivedInTime(s, purges[j], kind, id) && purges[j].clock.now == at
  }

  /** Every archived row was archived by a recorded purge, at that purge's time. */
  ghost predicate ArchivesExplained(s: Settings, w: World, kind: Kind) {
    forall id :: id in Rows(w.db, kind) && Rows(w.db, kind)[id].archivedAt.Some? ==>
      exists j :: ArchivedAt(s, w.purges, j, kind, id, Rows(w.db, kind)[id].archivedAt.value)
  }

  /**
   Purge `k` removed the row, and the purge `j` that had archived this very row did so more than the grace
   period before.
   */
  ghost predicate RemovalJustified(s: Settings, purges: seq<Purge>, k: int, kind: Kind, id: Id)
    requires 0 <= k < |purges|
  {
    exists j :: 0 <= j <= k && Justifies(s, purges, j, k, kind, id)
  }

  /** The row purge `k` found had been archived by purge `j`, or was archived by purge `k` itself. */
  ghost predicate Justifies(s: Settings, purges: seq<Purge>, j: int, k: int, kind: Kind, id: Id)
    requires 0 <= j <= k < |purges|
  {
    && ArchivedInTime(s, purges[j], kind, id)
    && GraceReading(purges[k].clock, kind) - purges[j].clock.now > s.grace
    && (j < k ==>
          && id in Rows(purges[k].before, kind)
          && Rows(purges[k].before, kind)[id].archivedAt == Some(purges[j].clock.now))
  }

  ghost predicate RemovalsJustified(s: Settings, purges: seq<Purge>, kind: Kind) {
    forall k, id :: 0 <= k < |purges| && id in RemovedBy(purges[k], kind) ==> RemovalJustified(s, purges, k, kind, id)
  }

  lemma ArchivesExplainedByPurge(s: Settings, w: World, c: Clock, auditId: Id, kind: Kind)
    requires ArchivesExplained(s, w, kind) && Ordered(c) && !Blocked(s, w.db, c)
    ensures var v := Step(s, w, RunPurge(c, false, auditId));
      var archived := ArchiveRows(Rows(w.db, kind), ArchivedBy(v.purges[|w.purges|], kind), c.now);
      && (forall id :: id in archived && archived[id].archivedAt.Some? ==>
        exists j :: ArchivedAt(s, v.purges, j, kind, id, archived[id].archivedAt.value))
  {
    var v, t := Step(s, w, RunPurge(c, false, auditId)), Rows(w.db, kind);
    var p := v.purges[|w.purges|];
    var archived := ArchiveRows(t, ArchivedBy(p, kind), c.now);
    forall id | id in archived && archived[id].archivedAt.Some?
      ensures exists j :: ArchivedAt(s, v.purges, j, kind, id, archived[id].archivedAt.value)
    {
      if id in ArchivedBy(p, kind) {
        assert ArchivedAt(s, v.purges, |w.purges|, kind, id, c.now);
      } else {
        var j :| ArchivedAt(s, w.purges, j, kind, id, t[id].archivedAt.value);
        assert ArchivedAt(s, v.purges, j, kind, id, archived[id].archivedAt.value);
      }
    }
  }

  /** A row the new purge removes was archived by an earlier purge, or just now. */
  lemma RemovalByNewPurge(s: Settings, w: World, c: Clock, auditId: Id, p: Purge, kind: Kind, id: Id)
    requires ArchivesExplained(s, w, kind) && Ordered(c)
    requires p == PurgeOf(s, w.db, c, auditId) && id in RemovedBy(p, kind)
    ensures RemovalJustified(s, w.purges + [p], |w.purges|, kind, id)
  {
    var purges, k, t := w.purges + [p], |w.purges|, Rows(w.db, kind);
    if id in ArchivedBy(p, kind) {
      assert Justifies(s, purges, k, k, kind, id);
    } else {
      assert id in t && t[id].archivedAt.Some?;
      var j :| ArchivedAt(s, w.purges, j, kind, id, t[id].archivedAt.value);
      assert purges[j] == w.purges[j];
      assert Justifies(s, purges, j, k, kind, id);
    }
  }

  /** Later purges do not take a justification away. */
  lemma JustifiedGrows(s: Settings, purges: seq<Purge>, p: Purge, k: int, kind: Kind, id: Id)
    requires 0 <= k < |purges| && RemovalJustified(s, purges, k, kind, id)
    ensures RemovalJustified(s, purges + [p], k, kind, id)
  {
    var j :| 0 <= j <= k && Justifies(s, purges, j, k, kind, id);
    assert Justifies(s, purges + [p], j, k, kind, id);
  }

  lemma RemovalsSnoc(s: Settings, purges: seq<Purge>, p: Purge, kind: Kind)
    requires RemovalsJustified(s, purges, kind)
    requires forall id :: id in RemovedBy(p, kind) ==> RemovalJustified(s, purges + [p], |purges|, kind, id)
    ensures RemovalsJustified(s, purges + [p], kind)
  {
    var all := purges + [p];
    forall k, id | 0 <= k < |all| && id in RemovedBy(all[k], kind) ensures RemovalJustified(s, all, k, kind, id) {
      if k < |purges| {
        JustifiedGrows(s, purges, p, k, kind, id);
      }
    }
  }

  lemma PurgeKeepsSafety(s: Settings, w: World, c: Clock, auditId: Id, kind: Kind)
    requires ArchivesExplained(s, w, kind) && RemovalsJustified(s, w.purges, kind) && Ordered(c) && !Blocked(s, w.db, c)
    ensures ArchivesExplained(s, Step(s, w, RunPurge(c, false, auditId)), kind)
    ensures RemovalsJustified(s, Step(s, w, RunPurge(c, false, auditId)).purges, kind)
  {
    var v, p := Step(s, w, RunPurge(c, false, auditId)), PurgeOf(s, w.db, c, auditId);
    forall id | id in RemovedBy(p, kind) ensures RemovalJustified(s, w.purges + [p], |w.purges|, kind, id) {
      RemovalByNewPurge(s, w, c, auditId, p, kind, id);
    }
    RemovalsSnoc(s, w.purges, p, kind);
    ArchivesExplainedByPurge(s, w, c, auditId, kind);
    var archived := ArchiveRows(Rows(w.db, kind), ArchivedBy(p, kind), c.now);
    assert forall id :: id in Rows(v.db, kind) ==> id in archived && Rows(v.db, kind)[id] == archived[id];
  }

  lemma SafetyStep(s: Settings, w: World, e: Event, kind: Kind)
    requires ArchivesExplained(s, w, kind) && RemovalsJustified(s, w.purges, kind) && Allowed(w.db, e)
    ensures ArchivesExplained(s, Step(s, w, e), kind) && RemovalsJustified(s, Step(s, w, e).purges, kind)
  {
    var v := Step(s, w, e);
    if e.RunPurge? && v != w {
      PurgeKeepsSafety(s, w, e.clock, e.auditId, kind);
    } else {
      assert v.purges == w.purges;
      assert forall id :: id in Rows(v.db, kind) && Rows(v.db, kind)[id].archivedAt.Some? ==>
        id in Rows(w.db, kind) && Rows(w.db, kind)[id].archivedAt == Rows(v.db, kind)[id].archivedAt;
    }
  }

  ghost predicate NothingArchived(db: Db) {
    forall kind: Kind, id :: id in Rows(db, kind) ==> Rows(db, kind)[id].archivedAt == None
  }

  lemma {:induction false} SafetyRun(s: Settings, w: World, es: seq<Event>, kind: Kind)
    requires ArchivesExplained(s, w, kind) && RemovalsJustified(s, w.purges, kind) && Legal(s, w, es)
    ensures RemovalsJustified(s, Run(s, w, es).purges, kind)
    decreases |es|
  {
    if es != [] {
      SafetyStep(s, w, es[0], kind);
      SafetyRun(s, Step(s, w, es[0]), es[1..], kind);
    }
  }

  /**
   Over any run, a row that a purge removed had been archived, as that very row, more than the grace
   period before, when it was resolved or closed and past retention; and by an earlier purge, when the
   removing purge itself lasted no longer than the grace period.
   */
  lemma LifetimeSafety(s: Settings, db: Db, es: seq<Event>, kind: Kind, k: int, id: Id)
    requires NothingArchived(db) && Legal(s, World(db, []), es)
    requires var w := Run(s, World(db, []), es); 0 <= k < |w.purges| && id in RemovedBy(w.purges[k], kind)
    ensures var purges := Run(s, World(db, []), es).purges;
      exists j :: 0 <= j <= k && Justifies(s, purges, j, k, kind, id)
        && (GraceReading(purges[k].clock, kind) - purges[k].clock.now <= s.grace ==> j < k)
  {
    SafetyRun(s, World(db, []), es, kind);
    var purges := Run(s, World(db, []), es).purges;
    assert RemovalJustified(s, purges, k, kind, id);
    var j :| 0 <= j <= k && Justifies(s, purges, j, k, kind, id);
  }

  // ---- What a purge does to one row ----

  function EndedReading(c: Clock, kind: Kind): int {
    if kind == Alerts then c.alertEnded else c.incidentEnded
  }

  /** The row's archive time once the archiving statements have passed over it. */
  function ArchiveTime(s: Settings, c: Clock, kind: Kind, r: Row): Option<int> {
    if Archivable(r, RetentionOf(s, kind), EndedReading(c, kind), LastSoftReading(c, kind))
    then Some(c.now)
    else r.archivedAt
  }

  predicate PastGrace(archivedAt: Option<int>, reading: int, grace: int) {
    archivedAt.Some? && reading - archivedAt.value > grace
  }

  /** A purge is refused exactly when a playbook run refers to an alert whose grace period is over. */
  lemma BlockedExactly(s: Settings, db: Db, c: Clock)
    ensures Blocked(s, db, c) <==>
      exists id :: id in db.alerts && id in db.runRefs &&
        PastGrace(ArchiveTime(s, c, Alerts, db.alerts[id]), c.alertGrace, s.grace)
  {
    var f := FateOf(s, db, c);
    var archived := ArchiveRows(db.alerts, f.archivedAlerts, c.now);
    forall id ensures id in f.removedAlerts <==>
      id in db.alerts && PastGrace(ArchiveTime(s, c, Alerts, db.alerts[id]), c.alertGrace, s.grace)
    {
      if id in db.alerts {
        assert archived[id].archivedAt == ArchiveTime(s, c, Alerts, db.alerts[id]);
      }
    }
    if Blocked(s, db, c) {
      var id :| id in f.removedAlerts && id in db.runRefs;
    }
  }

  /**
   The whole fate of an alert or incident. A refused purge leaves it. Else a row that is closed and past its
   retention period is archived and nothing else about it changes, a row archived for longer than the grace
   period goes, and every other row stays as it is; nothing is inserted.
   */
  lemma RowFate(s: Settings, w: World, c: Clock, auditId: Id, kind: Kind, id: Id)
    ensures var was, now := Rows(w.db, kind), Rows(Step(s, w, RunPurge(c, false, auditId)).db, kind);
      if Blocked(s, w.db, c) then now == was
      else if id !in was then id !in now
      else
        var at := ArchiveTime(s, c, kind, was[id]);
        && (id in now <==> !PastGrace(at, GraceReading(c, kind), s.grace))
        && (id in now ==> now[id] == was[id].(archivedAt := at))
  {
    if !Blocked(s, w.db, c) && id in Rows(w.db, kind) {
      var r := Rows(w.db, kind)[id];
      var archived := ArchiveRows(Rows(w.db, kind), ArchivedBy(PurgeOf(s, w.db, c, auditId), kind), c.now);
      assert archived[id] == r.(archivedAt := ArchiveTime(s, c, kind, r));
    }
  }

  /**
   Exactly which open alerts a purge archives: those that are "resolved" or "closed" and whose resolution, or
   creation when there is none, lies more than the retention period back. Such a row is archived at the
   purge's time, or already gone when that is past the grace period; every other one is left alone.
   */
  lemma AlertArchivedExactly(s: Settings, w: World, c: Clock, auditId: Id, id: Id)
    requires id in w.db.alerts && w.db.alerts[id].archivedAt == None && !Blocked(s, w.db, c)
    ensures var r, now := w.db.alerts[id], Step(s, w, RunPurge(c, false, auditId)).db.alerts;
      if (r.status == "resolved" || r.status == "closed") &&
        (if r.endedAt == None then c.alertCreated - r.createdAt > s.alerts
         else c.alertEnded - r.endedAt.value > s.alerts)
      then
        if c.alertGrace - c.now > s.grace then id !in now
        else id in now && now[id] == r.(archivedAt := Some(c.now))
      else id in now && now[id] == r
  {
    RowFate(s, w, c, auditId, Alerts, id);
  }

  /** The same for incidents, with their own period and readings. */
  lemma IncidentArchivedExactly(s: Settings, w: World, c: Clock, auditId: Id, id: Id)
    requires id in w.db.incidents && w.db.incidents[id].archivedAt == None && !Blocked(s, w.db, c)
    ensures var r, now := w.db.incidents[id], Step(s, w, RunPurge(c, false, auditId)).db.incidents;
      if (r.status == "resolved" || r.status == "closed") &&
        (if r.endedAt == None then c.incidentCreated - r.createdAt > s.incidents
         else c.incidentEnded - r.endedAt.value > s.incidents)
      then
        if c.incidentGrace - c.now > s.grace then id !in now
        else id in now && now[id] == r.(archivedAt := Some(c.now))
      else id in now && now[id] == r
  {
    RowFate(s, w, c, auditId, Incidents, id);
  }

  /**
   An archived alert or incident goes exactly when its grace period is over and the purge is not refused,
   whatever its status is by then.
   */
  lemma ArchivedRemovedExactly(s: Settings, w: World, c: Clock, auditId: Id, kind: Kind, id: Id)
    requires id in Rows(w.db, kind) && Rows(w.db, kind)[id].archivedAt.Some?
    ensures id !in Rows(Step(s, w, RunPurge(c, false, auditId)).db, kind) <==>
      !Blocked(s, w.db, c) && GraceReading(c, kind) - Rows(w.db, kind)[id].archivedAt.value > s.grace
  {
    RowFate(s, w, c, auditId, kind, id);
  }

  // ---- One referenced alert stops every purge ----

  /** An archived alert that a playbook run refers to. */
  ghost predicate Stuck(db: Db, id: Id, at: int) {
    id in db.alerts && id in db.runRefs && db.alerts[id].archivedAt == Some(at)
  }

  /** The reference is never given up, and purges come after the grace period of an archiving at `at`. */
  ghost predicate KeepsReference(s: Settings, w: World, es: seq<Event>, id: Id, at: int)
    decreases |es|
  {
    es == [] ||
    var v := Step(s, w, es[0]);
    && id in v.db.runRefs
    && (es[0].RunPurge? ==> es[0].clock.alertGrace - at > s.grace)
    && KeepsReference(s, v, es[1..], id, at)
  }

  lemma StuckStep(s: Settings, w: World, e: Event, id: Id, at: int)
    requires Stuck(w.db, id, at) && Allowed(w.db, e) && id in Step(s, w, e).db.runRefs
    requires e.RunPurge? ==> e.clock.alertGrace - at > s.grace
    ensures Stuck(Step(s, w, e).db, id, at) && Step(s, w, e).purges == w.purges
  {
    if e.RunPurge? {
      assert PastGrace(ArchiveTime(s, e.clock, Alerts, w.db.alerts[id]), e.clock.alertGrace, s.grace);
      BlockedExactly(s, w.db, e.clock);
    }
  }

  /**
   From the end of its grace period on, as long as the reference stays, the alert stays too and no purge
   commits, whatever else there would be to archive or to remove.
   */
  lemma {:induction false} PurgesStall(s: Settings, w: World, es: seq<Event>, id: Id, at: int)
    requires Stuck(w.db, id, at) && Legal(s, w, es) && KeepsReference(s, w, es, id, at)
    ensures Run(s, w, es).purges == w.purges && Stuck(Run(s, w, es).db, id, at)
    decreases |es|
  {
    if es != [] {
      StuckStep(s, w, es[0], id, at);
      PurgesStall(s, Step(s, w, es[0]), es[1..], id, at);
    }
  }

  /** The activity's archive time once the archiving statement has passed over it. */
  function ActivityArchiveTime(s: Settings, c: Clock, a: Activity): Option<int> {
    if a.action != PURGE_ACTION && a.archivedAt == None && c.activity - a.createdAt > s.activities
    then Some(c.now)
    else a.archivedAt
  }

  /** An activity's fate in terms of the rows the purge removes. */
  lemma ActivityFateByRows(s: Settings, w: World, c: Clock, auditId: Id, id: Id)
    requires id in w.db.activities && auditId !in w.db.activities && !Blocked(s, w.db, c)
    ensures var now := Step(s, w, RunPurge(c, false, auditId)).db.activities;
      var a, f := w.db.activities[id], FateOf(s, w.db, c);
      var at := ActivityArchiveTime(s, c, a);
      && (id !in now <==>
            (RefersTo(a.alertId, f.removedAlerts) || RefersTo(a.incidentId, f.removedIncidents)
             || (a.action != "retention_purge" && PastGrace(at, c.activityGrace, s.grace))))
      && (id in now ==> now[id] == a.(archivedAt := at))
  {
    var f, a := FateOf(s, w.db, c), w.db.activities[id];
    var archived := ArchiveActivities(w.db.activities, f.archivedActivities, c.now);
    assert archived[id] == a.(archivedAt := ActivityArchiveTime(s, c, a));
  }

  /**
   The whole fate of an activity. A refused purge leaves it. Else it goes when its alert or incident does, or
   on its own when it has been archived for longer than the grace period and is no audit row; otherwise it
   stays, archived when it is due.
   */
  lemma ActivityFate(s: Settings, w: World, c: Clock, auditId: Id, id: Id)
    requires id in w.db.activities && auditId !in w.db.activities
    ensures var was, now := w.db, Step(s, w, RunPurge(c, false, auditId)).db;
      if Blocked(s, w.db, c) then now.activities == was.activities
      else
        var a := was.activities[id];
        var at := ActivityArchiveTime(s, c, a);
        && (id !in now.activities <==>
              (WentWith(a.alertId, was.alerts, now.alerts) || WentWith(a.incidentId, was.incidents, now.incidents)
               || (a.action != "retention_purge" && PastGrace(at, c.activityGrace, s.grace))))
        && (id in now.activities ==> now.activities[id] == a.(archivedAt := at))
  {
    if !Blocked(s, w.db, c) {
      ActivityFateByRows(s, w, c, auditId, id);
      RemovedRowsWent(s, w, c, auditId);
    }
  }

  /** The row an activity refers to was there and is not any more. */
  predicate WentWith(ref: Option<Id>, was: map<Id, Row>, now: map<Id, Row>) {
    ref.Some? && ref.value in was && ref.value !in now
  }

  lemma RemovedRowsWent(s: Settings, w: World, c: Clock, auditId: Id)
    requires !Blocked(s, w.db, c)
    ensures var now, f := Step(s, w, RunPurge(c, false, auditId)).db, FateOf(s, w.db, c);
      && (forall id :: id in f.removedAlerts <==> id in w.db.alerts && id !in now.alerts)
      && (forall id :: id in f.removedIncidents <==> id in w.db.incidents && id !in now.incidents)
  {
  }

  // ---- Audit conservation ----

  function AuditIds(purges: seq<Purge>): (ids: set<Id>)
    ensures forall k :: 0 <= k < |purges| ==> purges[k].auditId in ids
  {
    set k | 0 <= k < |purges| :: purges[k].auditId
  }

  /** Every recorded purge has its own audit row, as it wrote it. */
  ghost predicate AuditInv(w: World) {
    && |AuditIds(w.purges)| == |w.purges|
    && forall k :: 0 <= k < |w.purges| ==> PurgeAudited(w, k)
  }

  ghost predicate PurgeAudited(w: World, k: nat)
    requires k < |w.purges|
  {
    var p := w.purges[k];
    p.auditId in w.db.activities && w.db.activities[p.auditId] == AuditRow(p.clock, p.note)
  }

  /** A purge neither archives, removes nor cascades an audit row. */
  lemma AuditRowsUntouched(s: Settings, w: World, c: Clock, k: int)
    requires AuditInv(w) && 0 <= k < |w.purges|
    ensures var f := FateOf(s, w.db, c);
      w.purges[k].auditId !in f.archivedActivities + f.cascaded + f.removedActivities
  {
    assert PurgeAudited(w, k);
  }

  function KeptActivities(s: Settings, db: Db, c: Clock): map<Id, Activity> {
    var f := FateOf(s, db, c);
    ArchiveActivities(db.activities, f.archivedActivities, c.now) - f.cascaded - f.removedActivities
  }

  lemma AuditRowKept(s: Settings, w: World, c: Clock, k: int)
    requires AuditInv(w) && 0 <= k < |w.purges|
    ensures var kept, id := KeptActivities(s, w.db, c), w.purges[k].auditId;
      id in kept && kept[id] == w.db.activities[id]
  {
    assert PurgeAudited(w, k);
    AuditRowsUntouched(s, w, c, k);
  }

  lemma PurgeShape(s: Settings, w: World, c: Clock, auditId: Id)
    requires !Blocked(s, w.db, c)
    ensures var v := Step(s, w, RunPurge(c, false, auditId));
      && |v.purges| == |w.purges| + 1 && v.purges[..|w.purges|] == w.purges
      && v.purges[|w.purges|] == PurgeOf(s, w.db, c, auditId)
      && v.db.activities == KeptActivities(s, w.db, c)[auditId := AuditRow(c, v.purges[|w.purges|].note)]
  {
  }

  lemma PurgesStayAudited(s: Settings, w: World, c: Clock, auditId: Id, k: nat)
    requires AuditInv(w) && auditId !in w.db.activities && !Blocked(s, w.db, c) && k < |w.purges|
    ensures var v := Step(s, w, RunPurge(c, false, auditId)); k < |v.purges| && PurgeAudited(v, k)
  {
    assert PurgeAudited(w, k);
    PurgeShape(s, w, c, auditId);
    AuditRowKept(s, w, c, k);
  }

  lemma AuditIdsStored(w: World)
    requires AuditInv(w)
    ensures AuditIds(w.purges) <= AuditRows(w.db.activities)
  {
    forall id | id in AuditIds(w.purges) ensures id in AuditRows(w.db.activities) {
      var k :| 0 <= k < |w.purges| && w.purges[k].auditId == id;
      assert PurgeAudited(w, k);
    }
  }

  lemma AuditInvPurge(s: Settings, w: World, c: Clock, auditId: Id)
    requires AuditInv(w) && auditId !in w.db.activities && !Blocked(s, w.db, c)
    ensures AuditInv(Step(s, w, RunPurge(c, false, auditId)))
  {
    var v, n := Step(s, w, RunPurge(c, false, auditId)), |w.purges|;
    PurgeShape(s, w, c, auditId);
    assert v.purges == w.purges + [v.purges[n]];
    forall k | 0 <= k <= n ensures PurgeAudited(v, k) {
      if k < n {
        PurgesStayAudited(s, w, c, auditId, k);
      }
    }
    AuditIdsExtend(w.purges, v.purges[n]);
    AuditIdsStored(w);
  }

  lemma AuditIdsExtend(purges: seq<Purge>, p: Purge)
    ensures AuditIds(purges + [p]) == AuditIds(purges) + {p.auditId}
  {
    var all := purges + [p];
    assert all[|purges|] == p && forall k :: 0 <= k < |purges| ==> all[k] == purges[k];
  }

  lemma AuditInvStep(s: Settings, w: World, e: Event)
    requires AuditInv(w) && Allowed(w.db, e)
    ensures AuditInv(Step(s, w, e))
  {
    var v := Step(s, w, e);
    if e.RunPurge? {
      if v != w {
        AuditInvPurge(s, w, e.clock, e.auditId);
      }
    } else {
      forall k | 0 <= k < |v.purges| ensures PurgeAudited(v, k) {
        assert PurgeAudited(w, k);
      }
    }
  }

  /** After any run, the audit row of every committed purge is there, untouched, whoever else writes such activities. */
  lemma {:induction false} AuditRowsSurvive(s: Settings, w: World, es: seq<Event>)
    requires AuditInv(w) && Legal(s, w, es)
    ensures AuditInv(Run(s, w, es))
    decreases |es|
  {
    if es != [] {
      AuditInvStep(s, w, es[0]);
      AuditRowsSurvive(s, Step(s, w, es[0]), es[1..]);
    }
  }

  /** The note of a purge gives the sizes of the sets of rows it archived and removed. */
  predicate NoteTells(p: Purge) {
    var r := p.note.report;
    && r.alerts.softDeleted == |p.fate.archivedAlerts| && r.alerts.hardDeleted == |p.fate.removedAlerts|
    && r.incidents.softDeleted == |p.fate.archivedIncidents| && r.incidents.hardDeleted == |p.fate.removedIncidents|
    && r.activities.softDeleted == |p.fate.archivedActivities| && r.activities.hardDeleted == |p.fate.removedActivities|
  }

  ghost predicate NotesTell(purges: seq<Purge>) {
    forall k :: 0 <= k < |purges| ==> NoteTells(purges[k])
  }

  lemma NotesTellStep(s: Settings, w: World, e: Event)
    requires NotesTell(w.purges) && Allowed(w.db, e)
    ensures NotesTell(Step(s, w, e).purges)
  {
    if e.RunPurge? {
      ReportedDeletions(s, w.db, e.clock);
      assert NoteTells(PurgeOf(s, w.db, e.clock, e.auditId));
    }
  }

  lemma {:induction false} NotesTellRun(s: Settings, w: World, es: seq<Event>)
    requires Legal(s, w, es) && NotesTell(w.purges)
    ensures NotesTell(Run(s, w, es).purges)
    decreases |es|
  {
    if es != [] {
      NotesTellStep(s, w, es[0]);
      NotesTellRun(s, Step(s, w, es[0]), es[1..]);
    }
  }

  /** After any run, the audit row of each purge still tells how many rows that purge archived and removed. */
  lemma AuditRowsTell(s: Settings, db: Db, es: seq<Event>, k: nat)
    requires Legal(s, World(db, []), es) && k < |Run(s, World(db, []), es).purges|
    ensures var w := Run(s, World(db, []), es);
      var p := w.purges[k];
      && p.auditId in w.db.activities
      && var row := w.db.activities[p.auditId];
      && row.action == "retention_purge" && row.createdAt == p.clock.commit && row.archivedAt == None
      && row.note == Some(p.note) && NoteTells(p)
  {
    var w := Run(s, World(db, []), es);
    AuditRowsSurvive(s, World(db, []), es);
    NotesTellRun(s, World(db, []), es);
    assert PurgeAudited(w, k);
  }

  /** There is exactly one such row per committed purge if and only if nobody else wrote one. */
  lemma AuditCountExact(w: World)
    requires AuditInv(w)
    ensures |AuditRows(w.db.activities)| >= |w.purges|
    ensures |AuditRows(w.db.activities)| == |w.purges| <==>
      forall id :: id in w.db.activities && w.db.activities[id].action == PURGE_ACTION ==> id in AuditIds(w.purges)
  {
    var ids, rows := AuditIds(w.purges), AuditRows(w.db.activities);
    AuditIdsStored(w);
    SplitSize(rows, ids, rows - ids);
    assert |rows - ids| == 0 <==> rows <= ids;
  }

  /** Someone else's "retention_purge" activity is spared by the clean-up like an audit row, but goes with its alert. */
  lemma PosingRowsCascade(s: Settings, w: World, c: Clock, auditId: Id, id: Id)
    requires auditId !in w.db.activities
    requires id in w.db.activities && w.db.activities[id].action == "retention_purge"
    ensures var was, now := w.db, Step(s, w, RunPurge(c, false, auditId)).db;
      id !in now.activities <==>
        (WentWith(was.activities[id].alertId, was.alerts, now.alerts)
         || WentWith(was.activities[id].incidentId, was.incidents, now.incidents))
  {
    ActivityFate(s, w, c, auditId, id);
  }

  ghost predicate NoAuditArchived(db: Db) {
    forall id :: id in AuditRows(db.activities) ==> db.activities[id].archivedAt == None
  }

  lemma {:induction false} AuditRowsStayOpen(s: Settings, w: World, es: seq<Event>)
    requires NoAuditArchived(w.db) && Legal(s, w, es)
    ensures NoAuditArchived(Run(s, w, es).db)
    decreases |es|
  {
    if es != [] {
      AuditOpenStep(s, w, es[0]);
      AuditRowsStayOpen(s, Step(s, w, es[0]), es[1..]);
    }
  }

  lemma AuditOpenStep(s: Settings, w: World, e: Event)
    requires NoAuditArchived(w.db) && Allowed(w.db, e)
    ensures NoAuditArchived(Step(s, w, e).db)
  {
    var v := Step(s, w, e);
    forall id | id in AuditRows(v.db.activities) ensures v.db.activities[id].archivedAt == None {
      if id in w.db.activities && e.RunPurge? && v != w {
        ActivityFate(s, w, e.clock, e.auditId, id);
      }
    }
  }

  // ---- What the report says ----

  lemma KeysAfterPurge(db: Db, f: Fate, c: Clock, auditId: Id, note: AuditNote)
    requires auditId !in db.activities
    requires f.removedAlerts <= db.alerts.Keys && f.removedIncidents <= db.incidents.Keys
    requires f.cascaded + f.removedActivities <= db.activities.Keys && f.cascaded !! f.removedActivities
    ensures var after := AfterPurge(db, f, c, auditId, note);
      && db.alerts.Keys - after.alerts.Keys == f.removedAlerts
      && db.incidents.Keys - after.incidents.Keys == f.removedIncidents
      && db.activities.Keys - after.activities.Keys == f.removedActivities + f.cascaded
  {
    RowKeys(db.alerts, f.archivedAlerts, c.now, f.removedAlerts);
    RowKeys(db.incidents, f.archivedIncidents, c.now, f.removedIncidents);
    ActivityKeys(db.activities, f.archivedActivities, c.now, f.cascaded, f.removedActivities, auditId,
      AuditRow(c, note));
  }

  lemma RowKeys(t: map<Id, Row>, ids: set<Id>, now: int, removed: set<Id>)
    requires removed <= t.Keys
    ensures t.Keys - (ArchiveRows(t, ids, now) - removed).Keys == removed
  {
  }

  lemma ActivityKeys(t: map<Id, Activity>, ids: set<Id>, now: int, a: set<Id>, b: set<Id>, auditId: Id, row: Activity)
    requires auditId !in t && a + b <= t.Keys
    ensures t.Keys - (ArchiveActivities(t, ids, now) - a - b)[auditId := row].Keys == b + a
  {
    var kept := ArchiveActivities(t, ids, now) - a - b;
    assert kept.Keys == t.Keys - a - b;
    assert kept[auditId := row].Keys == kept.Keys + {auditId};
  }

  lemma FateWithin(s: Settings, db: Db, c: Clock)
    ensures var f := FateOf(s, db, c);
      && f.removedAlerts <= db.alerts.Keys && f.removedIncidents <= db.incidents.Keys
      && f.cascaded + f.removedActivities <= db.activities.Keys && f.cascaded !! f.removedActivities
  {
  }

  /**
   The removals noted in the audit row are the rows that went; activities also went with their alert or
   incident. A refused purge takes nothing and notes nothing.
   */
  lemma ReportAccountsForLosses(s: Settings, w: World, c: Clock, auditId: Id)
    requires auditId !in w.db.activities
    ensures var after, f := Step(s, w, RunPurge(c, false, auditId)).db, FateOf(s, w.db, c);
      if Blocked(s, w.db, c) then after == w.db
      else
        && auditId in after.activities && after.activities[auditId].note.Some?
        && var r := after.activities[auditId].note.value.report;
        && |w.db.alerts.Keys - after.alerts.Keys| == r.alerts.hardDeleted
        && |w.db.incidents.Keys - after.incidents.Keys| == r.incidents.hardDeleted
        && |w.db.activities.Keys - after.activities.Keys| == r.activities.hardDeleted + |f.cascaded|
  {
    if !Blocked(s, w.db, c) {
      var f := FateOf(s, w.db, c);
      FateWithin(s, w.db, c);
      ReportedDeletions(s, w.db, c);
      KeysAfterPurge(w.db, f, c, auditId, PurgeOf(s, w.db, c, auditId).note);
      SplitSize(f.removedActivities + f.cascaded, f.removedActivities, f.cascaded);
    }
  }

  /** The reported deletions, archived and removed, are the sizes of the sets of rows. */
  lemma ReportedDeletions(s: Settings, db: Db, c: Clock)
    ensures var r, f := PurgeReport(s, db, c), FateOf(s, db, c);
      && r.alerts.softDeleted == |f.archivedAlerts| && r.alerts.hardDeleted == |f.removedAlerts|
      && r.incidents.softDeleted == |f.archivedIncidents| && r.incidents.hardDeleted == |f.removedIncidents|
      && r.activities.softDeleted == |f.archivedActivities| && r.activities.hardDeleted == |f.removedActivities|
  {
  }

  lemma SplitSize(whole: set<Id>, part: set<Id>, rest: set<Id>)
    requires whole == part + rest && part !! rest
    ensures |whole| == |part| + |rest|
  {
  }

  /** What is archived now is not yet past the grace period. */
  lemma FreshArchivesStay(t: map<Id, Row>, ids: set<Id>, grace: int, now: int)
    requires grace >= 0 && forall k :: k in t && k in ids ==> t[k].archivedAt == None
    ensures ExpiredRows(ArchiveRows(t, ids, now), grace, now) == ExpiredRows(t, grace, now)
  {
  }

  lemma FreshActivityArchivesStay(t: map<Id, Activity>, ids: set<Id>, grace: int, now: int)
    requires grace >= 0 && forall k :: k in t && k in ids ==> t[k].archivedAt == None
    ensures ExpiredActivities(ArchiveActivities(t, ids, now), grace, now) == ExpiredActivities(t, grace, now)
  {
  }

  /** A dry run under a frozen clock counts the rows that are due at that time. */
  lemma DryCounts(s: Settings, db: Db, c: Clock)
    requires Frozen(c)
    ensures var dry := DryReport(s, db, c);
      && dry.alerts.softCandidates == |ArchivableRows(db.alerts, s.alerts, c.now, c.now)|
      && dry.alerts.hardCandidates == |ExpiredRows(db.alerts, s.grace, c.now)|
      && dry.incidents.softCandidates == |ArchivableRows(db.incidents, s.incidents, c.now, c.now)|
      && dry.incidents.hardCandidates == |ExpiredRows(db.incidents, s.grace, c.now)|
      && dry.activities.softCandidates == |ArchivableActivities(db.activities, s.activities, c.now)|
      && dry.activities.hardCandidates == |ExpiredActivities(db.activities, s.grace, c.now)|
  {
    OneReading(c);
    var (a, i, v) := Candidates(s, db, c);
    assert a.softCandidates == |ArchivableRows(db.alerts, s.alerts, c.countAlertEnded, c.countAlertCreated)|;
    assert a.hardCandidates == |ExpiredRows(db.alerts, s.grace, c.countAlertGrace)|;
    assert i.softCandidates ==
      |ArchivableRows(db.incidents, s.incidents, c.countIncidentEnded, c.countIncidentCreated)|;
    assert i.hardCandidates == |ExpiredRows(db.incidents, s.grace, c.countIncidentGrace)|;
    assert v.softCandidates == |ArchivableActivities(db.activities, s.activities, c.countActivity)|;
    assert v.hardCandidates == |ExpiredActivities(db.activities, s.grace, c.countActivityGrace)|;
  }

  /** The candidates a purge reports are those a dry run would have reported, and a dry run deletes nothing. */
  lemma ReportedCandidates(s: Settings, db: Db, c: Clock)
    ensures var dry, r := DryReport(s, db, c), PurgeReport(s, db, c);
      && r.alerts.softCandidates == dry.alerts.softCandidates && r.alerts.hardCandidates == dry.alerts.hardCandidates
      && r.incidents.softCandidates == dry.incidents.softCandidates
      && r.incidents.hardCandidates == dry.incidents.hardCandidates
      && r.activities.softCandidates == dry.activities.softCandidates
      && r.activities.hardCandidates == dry.activities.hardCandidates
      && dry.alerts.softDeleted == dry.alerts.hardDeleted == dry.incidents.softDeleted == 0
      && dry.incidents.hardDeleted == dry.activities.softDeleted == dry.activities.hardDeleted == 0
  {
  }

  lemma OneReading(c: Clock)
    requires Frozen(c)
    ensures c.countAlertEnded == c.countAlertCreated == c.countAlertGrace == c.countIncidentEnded
      == c.countIncidentCreated == c.countIncidentGrace == c.countActivity == c.countActivityGrace == c.now
  {
  }

  /**
   With a frozen clock a dry run predicts alerts and incidents exactly. For activities it also counts
   the old audit rows, which are never archived, and the expired rows that go with their alert or incident.
   */
  lemma DryRunPredicts(s: Settings, db: Db, c: Clock)
    requires s.grace >= 0 && Frozen(c) && NoAuditArchived(db)
    ensures var dry, r, f := DryReport(s, db, c), PurgeReport(s, db, c), FateOf(s, db, c);
      && dry.alerts.softCandidates == r.alerts.softDeleted && dry.alerts.hardCandidates == r.alerts.hardDeleted
      && dry.incidents.softCandidates == r.incidents.softDeleted
      && dry.incidents.hardCandidates == r.incidents.hardDeleted
      && dry.activities.softCandidates ==
        r.activities.softDeleted + |AuditRows(db.activities) * ArchivableActivities(db.activities, s.activities, c.now)|
      && dry.activities.hardCandidates ==
        r.activities.hardDeleted + |f.cascaded * ExpiredActivities(db.activities, s.grace, c.now)|
  {
    DryCounts(s, db, c);
    ReportedDeletions(s, db, c);
    FrozenRows(s, db, c);
    FrozenActivities(s, db, c);
  }

  lemma FrozenRows(s: Settings, db: Db, c: Clock)
    requires s.grace >= 0 && Frozen(c)
    ensures var f := FateOf(s, db, c);
      && ArchivableRows(db.alerts, s.alerts, c.now, c.now) == f.archivedAlerts
      && ArchivableRows(db.incidents, s.incidents, c.now, c.now) == f.archivedIncidents
      && ExpiredRows(db.alerts, s.grace, c.now) == f.removedAlerts
      && ExpiredRows(db.incidents, s.grace, c.now) == f.removedIncidents
  {
    FreshArchivesStay(db.alerts, ArchivableRows(db.alerts, s.alerts, c.now, c.now), s.grace, c.now);
    FreshArchivesStay(db.incidents, ArchivableRows(db.incidents, s.incidents, c.now, c.now), s.grace, c.now);
  }

  lemma FrozenFate(s: Settings, db: Db, c: Clock)
    requires s.grace >= 0 && Frozen(c)
    ensures var f, audit := FateOf(s, db, c), AuditRows(db.activities);
      && f.archivedActivities == ArchivableActivities(db.activities, s.activities, c.now) - audit
      && f.removedActivities == ExpiredActivities(db.activities, s.grace, c.now) - audit - f.cascaded
  {
    var ids := ArchivableActivities(db.activities, s.activities, c.now) - AuditRows(db.activities);
    FreshActivityArchivesStay(db.activities, ids, s.grace, c.now);
  }

  lemma FrozenActivities(s: Settings, db: Db, c: Clock)
    requires s.grace >= 0 && Frozen(c) && NoAuditArchived(db)
    ensures var f := FateOf(s, db, c);
      var soft := ArchivableActivities(db.activities, s.activities, c.now);
      var hard := ExpiredActivities(db.activities, s.grace, c.now);
      && |soft| == |f.archivedActivities| + |AuditRows(db.activities) * soft|
      && |hard| == |f.removedActivities| + |f.cascaded * hard|
  {
    FrozenFate(s, db, c);
    var audit, cascaded := AuditRows(db.activities), FateOf(s, db, c).cascaded;
    var soft := ArchivableActivities(db.activities, s.activities, c.now);
    var hard := ExpiredActivities(db.activities, s.grace, c.now);
    SplitByExclusion(soft, audit);
    NoAuditExpired(db.activities, s.grace, c.now);
    assert hard - audit - cascaded == hard - cascaded;
    SplitByExclusion(hard, cascaded);
  }

  lemma NoAuditExpired(t: map<Id, Activity>, grace: int, now: int)
    requires forall k :: k in AuditRows(t) ==> t[k].archivedAt == None
    ensures AuditRows(t) !! ExpiredActivities(t, grace, now)
  {
  }

  lemma SplitByExclusion(whole: set<Id>, out: set<Id>)
    ensures |whole| == |whole - out| + |out * whole|
  {
    SplitSize(whole, whole - out, out * whole);
  }
}
