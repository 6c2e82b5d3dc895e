/**
 The two-phase retention purge: archive what is past retention, remove what has been archived past the
 grace period, cascade to activities, write an audit row. Every statement reads the clock again.
 */
module Retention {
  import opened Common

  type Id = nat

  datatype Settings = Settings(alerts: int, incidents: int, activities: int, grace: int)

  /** An alert or an incident, as far as the purge sees it; `endedAt` is resolved_at or closed_at. */
  datatype Row = Row(status: string, endedAt: Option<int>, createdAt: int, archivedAt: Option<int>)

  /** `note` is the metadata of an audit row: what its purge counted, and the grace period it ran with. */
  datatype Activity = Activity(action: string, alertId: Option<Id>, incidentId: Option<Id>, createdAt: int,
                               archivedAt: Option<int>, note: Option<AuditNote>)

  datatype AuditNote = AuditNote(report: Report, grace: int)

  const PURGE_ACTION := "retention_purge"

  /** The clock readings of one purge, in the order the source takes them. */
  datatype Clock = Clock(
    countAlertEnded: int, countAlertCreated: int, countAlertGrace: int,
    countIncidentEnded: int, countIncidentCreated: int, countIncidentGrace: int,
    countActivity: int, countActivityGrace: int,
    now: int,
    alertEnded: int, alertCreated: int, incidentEnded: int, incidentCreated: int, activity: int,
    alertGrace: int, incidentGrace: int, activityGrace: int, commit: int)

  predicate Ordered(c: Clock) {
    c.countAlertEnded <= c.countAlertCreated <= c.countAlertGrace <=
    c.countIncidentEnded <= c.countIncidentCreated <= c.countIncidentGrace <=
    c.countActivity <= c.countActivityGrace <= c.now <=
    c.alertEnded <= c.alertCreated <= c.incidentEnded <= c.incidentCreated <= c.activity <=
    c.alertGrace <= c.incidentGrace <= c.activityGrace <= c.commit
  }

  predicate Frozen(c: Clock) {
    Ordered(c) && c.countAlertEnded == c.commit
  }

  /** The committed tables; `runRefs` are the alerts that playbook runs refer to without a cascade. */
  datatype Db = Db(alerts: map<Id, Row>, incidents: map<Id, Row>, activities: map<Id, Activity>, runRefs: set<Id>)

  datatype Counts = Counts(softCandidates: nat, hardCandidates: nat, softDeleted: nat, hardDeleted: nat)

  datatype Report = Report(alerts: Counts, incidents: Counts, activities: Counts)

  datatype Outcome = Committed(report: Report) | Aborted

  // ---- What each statement selects ----

  predicate Terminal(status: string) {
    status == "resolved" || status == "closed"
  }

  predicate Archivable(r: Row, retention: int, endedClock: int, createdClock: int) {
    r.archivedAt == None && Terminal(r.status) &&
    match r.endedAt
    case Some(t) => t < endedClock - retention
    case None => r.createdAt < createdClock - retention
  }

  predicate Expired(archivedAt: Option<int>, grace: int, clock: int) {
    archivedAt.Some? && archivedAt.value < clock - grace
  }

  function ArchivableRows(t: map<Id, Row>, retention: int, endedClock: int, createdClock: int): set<Id> {
    set k | k in t && Archivable(t[k], retention, endedClock, createdClock)
  }

  function ExpiredRows(t: map<Id, Row>, grace: int, clock: int): set<Id> {
    set k | k in t && Expired(t[k].archivedAt, grace, clock)
  }

  function ArchivableActivities(t: map<Id, Activity>, retention: int, clock: int): set<Id> {
    set k | k in t && t[k].archivedAt == None && t[k].createdAt < clock - retention
  }

  function ExpiredActivities(t: map<Id, Activity>, grace: int, clock: int): set<Id> {
    set k | k in t && Expired(t[k].archivedAt, grace, clock)
  }

  function AuditRows(t: map<Id, Activity>): set<Id> {
    set k | k in t && t[k].action == PURGE_ACTION
  }

  function ArchiveRows(t: map<Id, Row>, ids: set<Id>, now: int): map<Id, Row> {
    map k | k in t :: if k in ids then t[k].(archivedAt := Some(now)) else t[k]
  }

  function ArchiveActivities(t: map<Id, Activity>, ids: set<Id>, now: int): map<Id, Activity> {
    map k | k in t :: if k in ids then t[k].(archivedAt := Some(now)) else t[k]
  }

  predicate RefersTo(ref: Option<Id>, ids: set<Id>) {
    ref.Some? && ref.value in ids
  }

  /** `ON DELETE CASCADE` from alerts and from incidents. */
  function Cascaded(t: map<Id, Activity>, alertIds: set<Id>, incidentIds: set<Id>): set<Id> {
    set k | k in t && (RefersTo(t[k].alertId, alertIds) || RefersTo(t[k].incidentId, incidentIds))
  }

  // ---- One purge as a relation between databases ----

  /** The rows one purge archives and removes. */
  datatype Fate = Fate(
    archivedAlerts: set<Id>, archivedIncidents: set<Id>, archivedActivities: set<Id>,
    removedAlerts: set<Id>, removedIncidents: set<Id>, cascaded: set<Id>, removedActivities: set<Id>)

  function FateOf(s: Settings, db: Db, c: Clock): Fate {
    var archivedAlerts := ArchivableRows(db.alerts, s.alerts, c.alertEnded, c.alertCreated);
    var archivedIncidents := ArchivableRows(db.incidents, s.incidents, c.incidentEnded, c.incidentCreated);
    var archivedActivities := ArchivableActivities(db.activities, s.activities, c.activity) - AuditRows(db.activities);
    var removedAlerts := ExpiredRows(ArchiveRows(db.alerts, archivedAlerts, c.now), s.grace, c.alertGrace);
    var removedIncidents := ExpiredRows(ArchiveRows(db.incidents, archivedIncidents, c.now), s.grace, c.incidentGrace);
    var cascaded := Cascaded(db.activities, removedAlerts, removedIncidents);
    var activities := ArchiveActivities(db.activities, archivedActivities, c.now);
    Fate(archivedAlerts, archivedIncidents, archivedActivities, removedAlerts, removedIncidents, cascaded,
         ExpiredActivities(activities, s.grace, c.activityGrace) - AuditRows(db.activities) - cascaded)
  }

  function AuditRow(c: Clock, note: AuditNote): Activity {
    Activity(PURGE_ACTION, None, None, c.commit, None, Some(note))
  }

  function AfterPurge(db: Db, f: Fate, c: Clock, auditId: Id, note: AuditNote): Db {
    Db(ArchiveRows(db.alerts, f.archivedAlerts, c.now) - f.removedAlerts,
       ArchiveRows(db.incidents, f.archivedIncidents, c.now) - f.removedIncidents,
       (ArchiveActivities(db.activities, f.archivedActivities, c.now) - f.cascaded - f.removedActivities)[
         auditId := AuditRow(c, note)],
       db.runRefs)
  }

  /** The counts a dry run reports, and a real purge reports first. */
  function Candidates(s: Settings, db: Db, c: Clock): (Counts, Counts, Counts) {
    (Counts(|ArchivableRows(db.alerts, s.alerts, c.countAlertEnded, c.countAlertCreated)|,
            |ExpiredRows(db.alerts, s.grace, c.countAlertGrace)|, 0, 0),
     Counts(|ArchivableRows(db.incidents, s.incidents, c.countIncidentEnded, c.countIncidentCreated)|,
            |ExpiredRows(db.incidents, s.grace, c.countIncidentGrace)|, 0, 0),
     Counts(|ArchivableActivities(db.activities, s.activities, c.countActivity)|,
            |ExpiredActivities(db.activities, s.grace, c.countActivityGrace)|, 0, 0))
  }

  function DryReport(s: Settings, db: Db, c: Clock): Report {
    var (a, i, v) := Candidates(s, db, c);
    Report(a, i, v)
  }

  /** A playbook run refers to an alert the purge would remove. */
  ghost predicate Blocked(s: Settings, db: Db, c: Clock) {
    !(FateOf(s, db, c).removedAlerts !! db.runRefs)
  }

  function PurgeReport(s: Settings, db: Db, c: Clock): Report {
    var f := FateOf(s, db, c);
    var (a, i, v) := Candidates(s, db, c);
    Report(
      a.(softDeleted := |f.archivedAlerts|, hardDeleted := |f.removedAlerts|),
      i.(softDeleted := |f.archivedIncidents|, hardDeleted := |f.removedIncidents|),
      v.(softDeleted := |f.archivedActivities|, hardDeleted := |f.removedActivities|))
  }

  class Session {
    const settings: Settings
    var alerts: map<Id, Row>
    var incidents: map<Id, Row>
    var activities: map<Id, Activity>
    var runRefs: set<Id>

    ghost function Contents(): Db
      reads this
    {
      Db(alerts, incidents, activities, runRefs)
    }

    constructor (settings: Settings, db: Db)
      ensures this.settings == settings && Contents() == db
    {
      this.settings := settings;
      alerts, incidents, activities, runRefs := db.alerts, db.incidents, db.activities, db.runRefs;
    }

    method SoftDeleteAlerts(c: Clock) returns (n: nat)
      modifies this`alerts
      ensures var ids := ArchivableRows(old(alerts), settings.alerts, c.alertEnded, c.alertCreated);
        alerts == ArchiveRows(old(alerts), ids, c.now) && n == |ids|
    {
      var ids := ArchivableRows(alerts, settings.alerts, c.alertEnded, c.alertCreated);
      alerts := ArchiveRows(alerts, ids, c.now);
      n := |ids|;
    }

    method SoftDeleteIncidents(c: Clock) returns (n: nat)
      modifies this`incidents
      ensures var ids := ArchivableRows(old(incidents), settings.incidents, c.incidentEnded, c.incidentCreated);
        incidents == ArchiveRows(old(incidents), ids, c.now) && n == |ids|
    {
      var ids := ArchivableRows(incidents, settings.incidents, c.incidentEnded, c.incidentCreated);
      incidents := ArchiveRows(incidents, ids, c.now);
      n := |ids|;
    }

    method SoftDeleteActivities(c: Clock) returns (n: nat)
      modifies this`activities
      ensures var due := ArchivableActivities(old(activities), settings.activities, c.activity);
        var ids := due - AuditRows(old(activities));
        activities == ArchiveActivities(old(activities), ids, c.now) && n == |ids|
    {
      var ids := ArchivableActivities(activities, settings.activities, c.activity) - AuditRows(activities);
      activities := ArchiveActivities(activities, ids, c.now);
      n := |ids|;
    }

    /** Fails on the foreign key when a playbook run still refers to an alert about to go. */
    method HardDeleteAlerts(c: Clock) returns (ok: bool, n: nat)
      modifies this`alerts, this`activities
      ensures var ids := ExpiredRows(old(alerts), settings.grace, c.alertGrace);
        && ok == (ids !! runRefs) && n == |ids|
        && (ok ==> alerts == old(alerts) - ids && activities == old(activities) - Cascaded(old(activities), ids, {}))
    {
      var ids := ExpiredRows(alerts, settings.grace, c.alertGrace);
      n := |ids|;
      ok := ids !! runRefs;
      if ok {
        alerts := alerts - ids;
        activities := activities - Cascaded(activities, ids, {});
      }
    }

    method HardDeleteIncidents(c: Clock) returns (n: nat)
      modifies this`incidents, this`activities
      ensures var ids := ExpiredRows(old(incidents), settings.grace, c.incidentGrace);
        && n == |ids| && incidents == old(incidents) - ids
        && activities == old(activities) - Cascaded(old(activities), {}, ids)
    {
      var ids := ExpiredRows(incidents, settings.grace, c.incidentGrace);
      n := |ids|;
      incidents := incidents - ids;
      activities := activities - Cascaded(activities, {}, ids);
    }

    method HardDeleteActivities(c: Clock) returns (n: nat)
      modifies this`activities
      ensures var due := ExpiredActivities(old(activities), settings.grace, c.activityGrace);
        var ids := due - AuditRows(old(activities));
        activities == old(activities) - ids && n == |ids|
    {
      var ids := ExpiredActivities(activities, settings.grace, c.activityGrace) - AuditRows(activities);
      n := |ids|;
      activities := activities - ids;
    }

    /** A dry run counts; a purge archives, removes and writes its audit row, or leaves no trace at all. */
    method RunRetentionPurge(c: Clock, dryRun: bool, auditId: Id) returns (outcome: Outcome)
      requires auditId !in activities
      modifies this
      ensures dryRun ==> Contents() == old(Contents()) && outcome == Committed(DryReport(settings, old(Contents()), c))
      ensures !dryRun && Blocked(settings, old(Contents()), c) ==> Contents() == old(Contents()) && outcome == Aborted
      ensures !dryRun && !Blocked(settings, old(Contents()), c) ==>
        var report := PurgeReport(settings, old(Contents()), c);
        && Contents() == AfterPurge(old(Contents()), FateOf(settings, old(Contents()), c), c, auditId,
          AuditNote(report, settings.grace))
        && outcome == Committed(report)
    {
      ghost var was := Contents();
      ghost var f := FateOf(settings, was, c);
      var (a, i, v) := Candidates(settings, Db(alerts, incidents, activities, runRefs), c);
      if dryRun {
        return Committed(Report(a, i, v));
      }
      var alerts0, incidents0, activities0 := alerts, incidents, activities;
      var alertsSoft := SoftDeleteAlerts(c);
      var incidentsSoft := SoftDeleteIncidents(c);
      var activitiesSoft := SoftDeleteActivities(c);
      var ok, alertsHard := HardDeleteAlerts(c);
      if !ok {
        alerts, incidents, activities := alerts0, incidents0, activities0;
        return Aborted;
      }
      var incidentsHard := HardDeleteIncidents(c);
      PurgedActivities(was, f.archivedActivities, c.now, f.removedAlerts, f.removedIncidents, settings.grace,
        c.activityGrace);
      var activitiesHard := HardDeleteActivities(c);
      var report := Report(
        a.(softDeleted := alertsSoft, hardDeleted := alertsHard),
        i.(softDeleted := incidentsSoft, hardDeleted := incidentsHard),
        v.(softDeleted := activitiesSoft, hardDeleted := activitiesHard));
      activities := activities[auditId := AuditRow(c, AuditNote(report, settings.grace))];
      outcome := Committed(report);
    }
  }

  /** Cascading twice and then removing selects what the purge's fate says. */
  lemma PurgedActivities(db: Db, archivedIds: set<Id>, now: int, alertIds: set<Id>, incidentIds: set<Id>, grace: int,
                         clock: int)
    ensures var archived := ArchiveActivities(db.activities, archivedIds, now);
      var cascaded := Cascaded(db.activities, alertIds, incidentIds);
      var once := archived - Cascaded(archived, alertIds, {});
      var rest := once - Cascaded(once, {}, incidentIds);
      && rest == archived - cascaded
      && ExpiredActivities(rest, grace, clock) - AuditRows(rest)
        == ExpiredActivities(archived, grace, clock) - AuditRows(db.activities) - cascaded
  {
    var archived := ArchiveActivities(db.activities, archivedIds, now);
    var cascaded := Cascaded(db.activities, alertIds, incidentIds);
    var once := archived - Cascaded(archived, alertIds, {});
    var rest := once - Cascaded(once, {}, incidentIds);
    assert rest == archived - cascaded;
  }
}
