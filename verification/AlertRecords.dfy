/** The alert record, updated in place by every operation, and the bulk endpoint over many of them. */
module AlertRecords {
  import opened Common
  import opened AlertLifecycle
  import opened AlertAudit

  class AlertRecord {
    var status: string
    var severity: string
    var determination: string
    var resolvedAt: Option<int>
    var resolveReason: Option<string>
    var partner: Option<string>
    var tags: Option<seq<string>>
    var assignedTo: Option<string>
    var assignedUsername: Option<string>
    var trail: seq<Activity>

    function View(): Alert
      reads this
    {
      Alert(status, severity, determination, resolvedAt, resolveReason, partner, tags, assignedTo, assignedUsername,
            trail)
    }

    /** The trail explains the status, and a resolved alert has its resolution time. */
    ghost predicate Sound()
      reads this
    {
      Consistent(View())
    }

    constructor (a: Alert)
      ensures View() == a
    {
      status, severity, determination, resolvedAt := a.status, a.severity, a.determination, a.resolvedAt;
      resolveReason, partner, tags := a.resolveReason, a.partner, a.tags;
      assignedTo, assignedUsername := a.assignedTo, a.assignedUsername;
      trail := a.trail;
    }

    method LogUpdate(u: Update, oldStatus: string, oldDetermination: string, oldSeverity: string)
      modifies this`trail
      ensures trail == old(trail) + UpdateActivities(u, oldStatus, oldDetermination, oldSeverity)
    {
      var added: seq<Activity> := [];
      if Truthy(u.status) && u.status.v != oldStatus {
        added := added + [Change("status_change", oldStatus, u.status.v, None)];
      }
      if Truthy(u.determination) && u.determination.v != oldDetermination {
        added := added + [Change("determination_set", oldDetermination, u.determination.v, None)];
      }
      if Truthy(u.severity) && u.severity.v != oldSeverity {
        added := added + [Change("severity_change", oldSeverity, u.severity.v, None)];
      }
      assert added == UpdateActivities(u, oldStatus, oldDetermination, oldSeverity);
      trail := trail + added;
    }

    method LogPlaybookUpdate(oldStatus: string, newStatus: string, oldDetermination: string,
                             newDetermination: string, note: Option<Activity>)
      modifies this`trail
      ensures trail == old(trail) + PlaybookActivities(oldStatus, newStatus, oldDetermination, newDetermination, note)
    {
      var added: seq<Activity> := [];
      if newStatus != oldStatus {
        added := added + [Change("status_change", oldStatus, newStatus, PLAYBOOK)];
      }
      if newDetermination != oldDetermination {
        added := added + [Change("determination_set", oldDetermination, newDetermination, PLAYBOOK)];
      }
      if note.Some? {
        added := added + [note.value];
      }
      assert added == PlaybookActivities(oldStatus, newStatus, oldDetermination, newDetermination, note);
      trail := trail + added;
    }

    method Reassign(u: Update)
      modifies this`assignedTo, this`assignedUsername, this`trail
      ensures (assignedTo, assignedUsername) == Assigned(old(View()), u)
      ensures trail == old(trail) + When(Truthy(u.assignedTo) && u.assignee.Found?, Plain("assigned"))
    {
      if Truthy(u.assignedTo) {
        if u.assignee.Found? {
          assignedTo, assignedUsername := Some(u.assignee.id), Some(u.assignee.username);
          trail := trail + [Plain("assigned")];
        }
      } else if !u.assignedTo.Unset? {
        assignedTo, assignedUsername := None, None;
      }
    }

    /** The fields the request gives; the first resolution sets the time. */
    method SetFields(u: Update, now: int)
      modifies this
      ensures View() == WithFields(old(View()), u, now)
    {
      status, severity := OverwriteText(u.status, status), OverwriteText(u.severity, severity);
      determination := OverwriteText(u.determination, determination);
      resolveReason, partner := Overwrite(u.resolveReason, resolveReason), Overwrite(u.partner, partner);
      tags := OverwriteTags(u.tags, tags);
      if u.status == Value("resolved") && resolvedAt == None {
        resolvedAt := Some(now);
      }
    }

    /** A null in a mandatory column makes the commit fail and the transaction roll back. */
    method ApplyUpdate(u: Update, now: int) returns (outcome: Outcome)
      modifies this
      ensures View() == Updated(old(View()), u, now) && outcome == UpdateOutcome(old(View()), u)
      ensures old(Sound()) ==> (Sound() <==> Traceable(old(View()), Patch(u, now)))
      ensures outcome == Refused <==>
        || (u.determination.Value? && u.determination.v != "" && u.determination.v != "unknown" &&
            u.determination.v != "malicious" && u.determination.v != "suspicious" && u.determination.v != "benign")
        || (u.status == Value("resolved") && u.determination == Value("unknown"))
        || (u.status == Value("resolved") && (!u.determination.Value? || u.determination.v == "") &&
            old(determination) == "unknown")
      ensures outcome != Refused ==>
        (outcome == Failed <==>
          || u.status.Null? || u.severity.Null? || u.determination.Null?
          || (u.assignedTo.Value? && u.assignedTo.v != "" && u.assignee.Malformed?))
      ensures outcome != Applied ==> View() == old(View())
      ensures outcome == Applied ==>
        && status == (if u.status.Value? then u.status.v else old(status))
        && severity == (if u.severity.Value? then u.severity.v else old(severity))
        && determination == (if u.determination.Value? then u.determination.v else old(determination))
      ensures outcome == Applied ==>
        && (u.resolveReason.Unset? ==> resolveReason == old(resolveReason))
        && (u.resolveReason.Null? ==> resolveReason == None)
        && (u.resolveReason.Value? ==> resolveReason == Some(u.resolveReason.v))
        && (u.partner.Unset? ==> partner == old(partner))
        && (u.partner.Null? ==> partner == None)
        && (u.partner.Value? ==> partner == Some(u.partner.v))
        && tags == (if u.tags.TagsSet? then u.tags.tags else old(tags))
      ensures outcome == Applied ==>
        resolvedAt == if old(resolvedAt) == None && u.status == Value("resolved") then Some(now) else old(resolvedAt)
      ensures outcome == Applied && u.assignedTo.Value? && u.assignedTo.v != "" && u.assignee.Found? ==>
        assignedTo == Some(u.assignee.id) && assignedUsername == Some(u.assignee.username)
      ensures outcome == Applied && (u.assignedTo.Null? || u.assignedTo == Value("")) ==>
        assignedTo == None && assignedUsername == None
      ensures u.assignedTo.Unset? || (u.assignee.Missing? && u.assignedTo.Value? && u.assignedTo.v != "") ==>
        assignedTo == old(assignedTo) && assignedUsername == old(assignedUsername)
      ensures outcome == Applied ==>
        trail == old(trail) +
          (if u.assignedTo.Value? && u.assignedTo.v != "" && u.assignee.Found?
           then [Activity("assigned", None, None, None, None)] else []) +
          ((if u.status.Value? && u.status.v != "" && u.status.v != old(status)
            then [Activity("status_change", Some(old(status)), Some(u.status.v), None, None)] else []) +
           (if u.determination.Value? && u.determination.v != "" && u.determination.v != old(determination)
            then [Activity("determination_set", Some(old(determination)), Some(u.determination.v), None, None)]
            else []) +
           (if u.severity.Value? && u.severity.v != "" && u.severity.v != old(severity)
            then [Activity("severity_change", Some(old(severity)), Some(u.severity.v), None, None)] else []))
    {
      ConsistentStep(View(), Patch(u, now));
      outcome := UpdateOutcome(View(), u);
      if outcome != Applied {
        return;
      }
      var oldStatus, oldSeverity, oldDetermination := status, severity, determination;
      Reassign(u);
      SetFields(u, now);
      LogUpdate(u, oldStatus, oldDetermination, oldSeverity);
    }

    method Claim(id: string, name: string)
      modifies this
      ensures View() == Claimed(old(View()), id, name)
      ensures old(Sound()) ==> Sound()
      ensures assignedTo == Some(id) && assignedUsername == Some(name)
      ensures status == if old(status) == "new" then "in_progress" else old(status)
      ensures View().(assignedTo := old(assignedTo), assignedUsername := old(assignedUsername),
                      status := old(status), trail := old(trail)) == old(View())
      ensures trail == old(trail) + [Activity("claimed", None, None, None, None)] +
        if old(status) == "new" then [Activity("status_change", Some("new"), Some("in_progress"), None, None)] else []
    {
      ConsistentStep(View(), Event.Claim(id, name));
      assignedTo, assignedUsername := Some(id), Some(name);
      trail := trail + [Plain("claimed")];
      if status == "new" {
        status := "in_progress";
        trail := trail + [Change("status_change", "new", "in_progress", None)];
      }
    }

    /** The "resolve" action of the bulk endpoint; it asks for a determination but logs only the status. */
    method ResolveInBulk(b: Bulk, id: string, name: string, now: int) returns (verdict: Verdict)
      requires b.action == "resolve"
      modifies this
      ensures View() == BulkApplied(old(View()), b, id, name, now) && verdict == BulkVerdict(old(View()), b)
      ensures verdict == Skipped <==> old(status) == "resolved"
      ensures verdict == UnknownDetermination <==>
        && old(status) != "resolved"
        && (if b.determination.Some? && b.determination.value != "" then b.determination.value else old(determination))
          == "unknown"
      ensures verdict in {Counted, Skipped, UnknownDetermination}
      ensures verdict != Counted ==> View() == old(View())
      ensures verdict == Counted ==>
        && status == "resolved" && resolvedAt == Some(now)
        && trail == old(trail) + [Activity("status_change", Some(old(status)), Some("resolved"), None, None)]
        && resolveReason == (if b.resolveReason.Some? && b.resolveReason.value != "" then b.resolveReason
                             else old(resolveReason))
        && determination == (if b.determination.Some? && b.determination.value != "" then b.determination.value
                             else old(determination))
        && View().(status := old(status), resolvedAt := old(resolvedAt), resolveReason := old(resolveReason),
                   determination := old(determination), trail := old(trail)) == old(View())
    {
      if status == "resolved" {
        return Skipped;
      }
      var effective := if Given(b.determination) then b.determination.value else determination;
      if effective == "unknown" {
        return UnknownDetermination;
      }
      var oldStatus := status;
      status, resolvedAt := "resolved", Some(now);
      if Given(b.resolveReason) {
        resolveReason := b.resolveReason;
      }
      if Given(b.determination) {
        determination := b.determination.value;
      }
      trail := trail + [Change("status_change", oldStatus, "resolved", None)];
      return Counted;
    }

    method ApplyBulk(b: Bulk, id: string, name: string, now: int) returns (verdict: Verdict)
      modifies this
      ensures View() == BulkApplied(old(View()), b, id, name, now) && verdict == BulkVerdict(old(View()), b)
      ensures old(Sound()) ==> Sound()
      ensures b.action == "resolve" ==> verdict != UnknownAction
      ensures b.action == "assign" ==>
        && verdict == Counted && assignedTo == Some(id) && assignedUsername == Some(name)
        && trail == old(trail) + [Activity("claimed", None, None, None, None)]
        && status == (if old(status) == "new" then "in_progress" else old(status))
        && View().(assignedTo := old(assignedTo), assignedUsername := old(assignedUsername),
                   status := old(status), trail := old(trail)) == old(View())
      ensures b.action == "change_severity" && b.severity.Some? && b.severity.value != "" ==>
        && verdict == Counted && severity == b.severity.value
        && trail == old(trail) + [Activity("severity_change", Some(old(severity)), b.severity, None, None)]
        && View().(severity := old(severity), trail := old(trail)) == old(View())
      ensures
        && b.action != "resolve" && b.action != "assign"
        && (b.action != "change_severity" || b.severity == None || b.severity == Some(""))
        ==> verdict == UnknownAction && View() == old(View())
    {
      ConsistentStep(View(), BulkItem(b, id, name, now));
      if b.action == "resolve" {
        verdict := ResolveInBulk(b, id, name, now);
      } else if b.action == "assign" {
        assignedTo, assignedUsername := Some(id), Some(name);
        if status == "new" {
          status := "in_progress";
        }
        trail := trail + [Plain("claimed")];
        verdict := Counted;
      } else if b.action == "change_severity" && Given(b.severity) {
        var oldSeverity := severity;
        severity := b.severity.value;
        trail := trail + [Change("severity_change", oldSeverity, severity, None)];
        verdict := Counted;
      } else {
        verdict := UnknownAction;
      }
    }

    /** The fields a playbook gives; the first resolution sets the time. */
    method SetPlaybookFields(p: PlaybookUpdate, now: int)
      requires PlaybookUpdateValid(p)
      modifies this
      ensures View() == PlaybookUpdated(old(View()), p, now).(trail := old(trail))
    {
      status, determination := GetOr(p.status, status), GetOr(p.determination, determination);
      if status == "resolved" && resolvedAt == None {
        resolvedAt := Some(now);
      }
      if p.reason.Some? {
        resolveReason := p.reason;
      }
      if p.partner.Some? {
        partner := p.partner;
      }
    }

    method ApplyPlaybookUpdate(p: PlaybookUpdate, now: int) returns (ok: bool)
      modifies this
      ensures View() == PlaybookUpdated(old(View()), p, now) && ok == PlaybookUpdateValid(p)
      ensures old(Sound()) ==> (Sound() <==> Traceable(old(View()), ByPlaybook(p, now)))
      ensures ok <==>
        && !(p.status == None && p.determination == None && p.reason == None && p.partner == None)
        && p.status in {None, Some("new"), Some("in_progress"), Some("resolved")}
        && p.determination in {None, Some("unknown"), Some("malicious"), Some("suspicious"), Some("benign")}
        && !(p.status == Some("resolved") && p.determination in {None, Some("unknown")})
      ensures !ok ==> View() == old(View())
      ensures ok ==>
        && status == (if p.status == None then old(status) else p.status.value)
        && determination == (if p.determination == None then old(determination) else p.determination.value)
        && resolveReason == (if p.reason == None then old(resolveReason) else p.reason)
        && partner == (if p.partner == None then old(partner) else p.partner)
        && resolvedAt == (if status == "resolved" && old(resolvedAt) == None then Some(now) else old(resolvedAt))
      ensures ok ==>
        trail == old(trail) +
          ((if status != old(status)
            then [Activity("status_change", Some(old(status)), Some(status), Some("playbook"), None)] else []) +
           (if determination != old(determination)
            then [Activity("determination_set", Some(old(determination)), Some(determination), Some("playbook"), None)]
            else []) +
           (if p.note.Some? then [p.note.value] else []))
      ensures severity == old(severity) && tags == old(tags)
      ensures assignedTo == old(assignedTo) && assignedUsername == old(assignedUsername)
    {
      ConsistentStep(View(), ByPlaybook(p, now));
      if !PlaybookUpdateValid(p) {
        return false;
      }
      var oldStatus, oldDetermination := status, determination;
      SetPlaybookFields(p, now);
      LogPlaybookUpdate(oldStatus, status, oldDetermination, determination, p.note);
      return true;
    }

    method AssignByPlaybook(target: Option<Assignee>)
      modifies this
      ensures View() == PlaybookAssigned(old(View()), target)
      ensures old(Sound()) ==> Sound()
      ensures target == None ==>
        && assignedTo == None && assignedUsername == None && status == old(status)
        && trail == old(trail) + [Activity("assigned", None, None, Some("playbook"), None)]
      ensures target.Some? && target.value.Found? ==>
        && assignedTo == Some(target.value.id) && assignedUsername == Some(target.value.username)
        && status == (if old(status) == "new" then "in_progress" else old(status))
        && trail == old(trail) + [Activity("assigned", None, None, Some("playbook"), assignedTo)]
      ensures target.Some? && !target.value.Found? ==> View() == old(View())
      ensures View().(assignedTo := old(assignedTo), assignedUsername := old(assignedUsername),
                      status := old(status), trail := old(trail)) == old(View())
    {
      ConsistentStep(View(), Event.AssignByPlaybook(target));
      match target
      case None =>
        assignedTo, assignedUsername := None, None;
        trail := trail + [Activity("assigned", None, None, PLAYBOOK, None)];
      case Some(Found(id, name)) =>
        assignedTo, assignedUsername := Some(id), Some(name);
        if status == "new" {
          status := "in_progress";
        }
        trail := trail + [Activity("assigned", None, None, PLAYBOOK, Some(id))];
      case Some(_) =>
    }
  }

  // ---- The bulk endpoint ----

  type Id = nat

  datatype Request = Request(bulk: Bulk, analystId: string, analystName: string, denied: set<Id>)

  function ItemVerdict(alerts: map<Id, Alert>, id: Id, r: Request): Verdict {
    if id !in alerts then NotFound
    else if id in r.denied then Denied
    else BulkVerdict(alerts[id], r.bulk)
  }

  function AfterItem(alerts: map<Id, Alert>, id: Id, r: Request, now: int): map<Id, Alert> {
    if id !in alerts || id in r.denied then alerts
    else alerts[id := BulkApplied(alerts[id], r.bulk, r.analystId, r.analystName, now)]
  }

  /** The alerts and the verdicts after the requested ids, in order; an id may be requested twice. */
  function BulkRun(alerts: map<Id, Alert>, ids: seq<Id>, r: Request, now: int): (map<Id, Alert>, seq<Verdict>) {
    if ids == [] then (alerts, []) else
    var (before, verdicts) := BulkRun(alerts, ids[..|ids| - 1], r, now);
    var id := ids[|ids| - 1];
    (AfterItem(before, id, r, now), verdicts + [ItemVerdict(before, id, r)])
  }

  predicate IsFailure(v: Verdict) {
    v != Counted && v != Skipped
  }

  function Tally(verdicts: seq<Verdict>, p: Verdict -> bool): nat {
    if verdicts == [] then 0 else Tally(verdicts[..|verdicts| - 1], p) + if p(verdicts[|verdicts| - 1]) then 1 else 0
  }

  function Failures(verdicts: seq<Verdict>): seq<Verdict> {
    if verdicts == [] then [] else
    var before, last := Failures(verdicts[..|verdicts| - 1]), verdicts[|verdicts| - 1];
    before + if IsFailure(last) then [last] else []
  }

  ghost function Views(records: map<Id, AlertRecord>): map<Id, Alert>
    reads records.Values
  {
    map id | id in records :: records[id].View()
  }

  ghost predicate Separate(records: map<Id, AlertRecord>) {
    forall i, j :: i in records && j in records && i != j ==> records[i] != records[j]
  }

  method BulkItemUpdate(records: map<Id, AlertRecord>, id: Id, r: Request, now: int) returns (verdict: Verdict)
    requires Separate(records)
    modifies records.Values
    ensures Views(records) == AfterItem(old(Views(records)), id, r, now)
    ensures verdict == ItemVerdict(old(Views(records)), id, r)
    ensures forall k :: k in records && old(records[k].Sound()) ==> records[k].Sound()
  {
    if id !in records {
      verdict := NotFound;
    } else if id in r.denied {
      verdict := Denied;
    } else {
      verdict := records[id].ApplyBulk(r.bulk, r.analystId, r.analystName, now);
    }
  }

  /** One bad row does not abort the batch: it is counted and reported, and the loop goes on. */
  method BulkUpdate(records: map<Id, AlertRecord>, ids: seq<Id>, r: Request, now: int)
    returns (updated: nat, failed: nat, errors: seq<Verdict>, ghost verdicts: seq<Verdict>)
    requires Separate(records)
    modifies records.Values
    ensures (Views(records), verdicts) == BulkRun(old(Views(records)), ids, r, now)
    ensures updated == Tally(verdicts, v => v == Counted) && failed == Tally(verdicts, v => IsFailure(v))
    ensures errors == Failures(verdicts)
    ensures forall k :: k in records && old(records[k].Sound()) ==> records[k].Sound()
  {
    ghost var was := Views(records);
    updated, failed, errors, verdicts := 0, 0, [], [];
    for k := 0 to |ids|
      invariant (Views(records), verdicts) == BulkRun(was, ids[..k], r, now)
      invariant updated == Tally(verdicts, v => v == Counted) && failed == Tally(verdicts, v => IsFailure(v))
      invariant errors == Failures(verdicts)
      invariant forall k :: k in records && old(records[k].Sound()) ==> records[k].Sound()
    {
      assert ids[..k + 1][..k] == ids[..k];
      var verdict := BulkItemUpdate(records, ids[k], r, now);
      if verdict == Counted {
        updated := updated + 1;
      } else if verdict != Skipped {
        failed := failed + 1;
        errors := errors + [verdict];
      }
      assert (verdicts + [verdict])[..|verdicts|] == verdicts;
      verdicts := verdicts + [verdict];
    }
    assert ids[..|ids|] == ids;
  }

  /** Every requested id is updated, skipped as already resolved, or failed; each failure has one error. */
  lemma {:induction false} BulkCountsAddUp(verdicts: seq<Verdict>)
    ensures Tally(verdicts, v => v == Counted) + Tally(verdicts, v => IsFailure(v)) +
      Tally(verdicts, v => v == Skipped) == |verdicts|
    ensures |Failures(verdicts)| == Tally(verdicts, v => IsFailure(v))
  {
    if verdicts != [] {
      BulkCountsAddUp(verdicts[..|verdicts| - 1]);
    }
  }

  /** The errors are the failing verdicts, in the order of the ids. */
  lemma FailuresSnoc(xs: seq<Verdict>, v: Verdict)
    ensures Failures(xs + [v]) == if v == Counted || v == Skipped then Failures(xs) else Failures(xs) + [v]
  {
    assert (xs + [v])[..|xs|] == xs;
  }

  /** An alert after the bulk operation was applied to it `k` times. */
  function Repeated(a: Alert, r: Request, now: int, k: nat): Alert {
    if k == 0 then a else BulkApplied(Repeated(a, r, now, k - 1), r.bulk, r.analystId, r.analystName, now)
  }

  lemma {:induction false} BulkKeeps(alerts: map<Id, Alert>, ids: seq<Id>, r: Request, now: int)
    ensures var (after, verdicts) := BulkRun(alerts, ids, r, now);
      after.Keys == alerts.Keys && |verdicts| == |ids|
  {
    if ids != [] {
      BulkKeeps(alerts, ids[..|ids| - 1], r, now);
    }
  }

  /** A stored alert is changed, by itself, once for every time it is requested; not at all when access is denied. */
  lemma {:induction false} BulkActsOnEach(alerts: map<Id, Alert>, ids: seq<Id>, r: Request, now: int, id: Id)
    requires id in alerts
    ensures var after := BulkRun(alerts, ids, r, now).0;
      && after.Keys == alerts.Keys
      && after[id] == if id in r.denied then alerts[id] else Repeated(alerts[id], r, now, multiset(ids)[id])
  {
    BulkKeeps(alerts, ids, r, now);
    if ids != [] {
      var init, last := ids[..|ids| - 1], ids[|ids| - 1];
      BulkKeeps(alerts, init, r, now);
      BulkActsOnEach(alerts, init, r, now, id);
      assert ids == init + [last];
    }
  }

  /** Each request is judged on the alert as the requests before it left it. */
  lemma {:induction false} BulkJudgesEach(alerts: map<Id, Alert>, ids: seq<Id>, r: Request, now: int, i: nat)
    requires i < |ids|
    ensures var verdicts, id := BulkRun(alerts, ids, r, now).1, ids[i];
      && |verdicts| == |ids|
      && verdicts[i] ==
        if id !in alerts then NotFound
        else if id in r.denied then Denied
        else BulkVerdict(Repeated(alerts[id], r, now, multiset(ids[..i])[id]), r.bulk)
  {
    BulkKeeps(alerts, ids, r, now);
    var m := |ids| - 1;
    BulkKeeps(alerts, ids[..m], r, now);
    if i < m {
      BulkJudgesEach(alerts, ids[..m], r, now, i);
      assert ids[..m][..i] == ids[..i];
    } else if ids[m] in alerts {
      BulkActsOnEach(alerts, ids[..m], r, now, ids[m]);
    }
  }
}
