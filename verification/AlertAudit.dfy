/** The activity trail of an alert, and what every run of alert operations keeps. */
module AlertAudit {
  import opened Common
  import opened AlertLifecycle

  // ---- Replaying the trail ----

  /** What one activity says about the status. */
  function Replayed(status: string, a: Activity): string {
    if a.action == "status_change" && a.became.Some? then a.became.value
    else if status == "new" &&
      (a.action == "claimed" || (a.action == "assigned" && a.source == PLAYBOOK && a.assignedTo.Some?))
    then "in_progress"
    else status
  }

  function Replay(trail: seq<Activity>): string {
    if trail == [] then "new" else Replayed(Replay(trail[..|trail| - 1]), trail[|trail| - 1])
  }

  /** `Log` is an activity of other code that touches nothing else: a comment, a link, a manual action. */
  datatype Event =
    | Patch(update: Update, now: int)
    | Claim(id: string, name: string)
    | BulkItem(bulk: Bulk, id: string, name: string, now: int)
    | ByPlaybook(change: PlaybookUpdate, now: int)
    | AssignByPlaybook(target: Option<Assignee>)
    | Log(activity: Activity)

  function Step(a: Alert, e: Event): Alert {
    match e
    case Patch(u, now) => Updated(a, u, now)
    case Claim(id, name) => Claimed(a, id, name)
    case BulkItem(b, id, name, now) => BulkApplied(a, b, id, name, now)
    case ByPlaybook(p, now) => PlaybookUpdated(a, p, now)
    case AssignByPlaybook(target) => PlaybookAssigned(a, target)
    case Log(activity) => a.(trail := a.trail + [activity])
  }

  /** No empty status, and a playbook's own activity does not pose as one that speaks of the status. */
  predicate Proper(e: Event) {
    match e
    case Patch(u, _) => u.status != Value("")
    case ByPlaybook(p, _) => p.note.Some? ==> Silent(p.note.value)
    case Log(activity) => Silent(activity)
    case _ => true
  }

  predicate Silent(a: Activity) {
    a.action != "status_change" && a.action != "claimed" && a.action != "assigned"
  }

  lemma ReplaySnoc(trail: seq<Activity>, a: Activity)
    ensures Replay(trail + [a]) == Replayed(Replay(trail), a)
  {
    assert (trail + [a])[..|trail|] == trail;
  }

  lemma ReplayWhen(trail: seq<Activity>, c: bool, a: Activity)
    ensures Replay(trail + When(c, a)) == if c then Replayed(Replay(trail), a) else Replay(trail)
  {
    if c {
      ReplaySnoc(trail, a);
    } else {
      assert trail + [] == trail;
    }
  }

  lemma ReplayThree(trail: seq<Activity>, c: bool, x: Activity, d: bool, y: Activity, e: bool, z: Activity)
    requires x.action == "status_change" && x.became.Some?
    requires d ==> Silent(y)
    ensures var status := if c then x.became.value else Replay(trail);
      Replay(trail + (When(c, x) + When(d, y) + When(e, z))) == if e then Replayed(status, z) else status
  {
    var t1 := trail + When(c, x);
    var t2 := t1 + When(d, y);
    assert trail + (When(c, x) + When(d, y) + When(e, z)) == t2 + When(e, z);
    ReplayWhen(trail, c, x);
    ReplayWhen(t1, d, y);
    ReplayWhen(t2, e, z);
  }

  /**
   Exactly the operations that keep the trail and the status together: an update must not store an
   empty status, and a playbook's own activity must not change what the trail says.
   */
  predicate Traceable(a: Alert, e: Event) {
    match e
    case Patch(u, _) => u.status == Value("") && UpdateOutcome(a, u) == Applied ==> a.status == ""
    case ByPlaybook(p, _) =>
      PlaybookUpdateValid(p) && p.note.Some? ==>
        Replayed(GetOr(p.status, a.status), p.note.value) == GetOr(p.status, a.status)
    case Log(activity) => Replayed(a.status, activity) == a.status
    case _ => true
  }

  lemma ReplayUpdateActivities(trail: seq<Activity>, u: Update, status: string, determination: string, severity: string)
    ensures Replay(trail + UpdateActivities(u, status, determination, severity)) ==
      if Truthy(u.status) && u.status.v != status then u.status.v else Replay(trail)
  {
    ReplayThree(trail,
      Truthy(u.status) && u.status.v != status, Change("status_change", status, OverwriteText(u.status, status), None),
      Truthy(u.determination) && u.determination.v != determination,
      Change("determination_set", determination, OverwriteText(u.determination, determination), None),
      Truthy(u.severity) && u.severity.v != severity,
      Change("severity_change", severity, OverwriteText(u.severity, severity), None));
  }

  /** An analyst's own assignment says nothing about the status. */
  lemma ReplayAssignment(trail: seq<Activity>, c: bool)
    ensures Replay(trail + When(c, Plain("assigned"))) == Replay(trail)
  {
    ReplayWhen(trail, c, Plain("assigned"));
  }

  lemma ReplayUpdated(a: Alert, u: Update, now: int)
    requires Replay(a.trail) == a.status
    ensures Replay(Updated(a, u, now).trail) == Updated(a, u, now).status <==> Traceable(a, Patch(u, now))
  {
    if UpdateOutcome(a, u) == Applied {
      var named := Truthy(u.assignedTo) && u.assignee.Found?;
      ReplayAssignment(a.trail, named);
      ReplayUpdateActivities(a.trail + When(named, Plain("assigned")), u, a.status, a.determination, a.severity);
    }
  }

  lemma ReplayPlaybookUpdated(a: Alert, p: PlaybookUpdate, now: int)
    requires Replay(a.trail) == a.status
    ensures Replay(PlaybookUpdated(a, p, now).trail) == PlaybookUpdated(a, p, now).status <==>
      Traceable(a, ByPlaybook(p, now))
  {
    if PlaybookUpdateValid(p) {
      var status, determination := GetOr(p.status, a.status), GetOr(p.determination, a.determination);
      ReplayThree(a.trail,
        a.status != status, Change("status_change", a.status, status, PLAYBOOK),
        a.determination != determination, Change("determination_set", a.determination, determination, PLAYBOOK),
        p.note.Some?, GetOr(p.note, Plain("")));
    }
  }

  lemma ReplayClaimed(a: Alert, id: string, name: string)
    requires Replay(a.trail) == a.status
    ensures Replay(Claimed(a, id, name).trail) == Claimed(a, id, name).status
  {
    ReplaySnoc(a.trail, Plain("claimed"));
    ReplaySnoc(a.trail + [Plain("claimed")], Change("status_change", "new", "in_progress", None));
  }

  lemma SeverityIsSilent(was: string, became: string)
    ensures Silent(Change("severity_change", was, became, None))
  {
    assert |"severity_change"| == 15 && |"status_change"| == 13 && |"claimed"| == 7 && |"assigned"| == 8;
  }

  lemma ReplaySilent(trail: seq<Activity>, a: Activity)
    requires Silent(a)
    ensures Replay(trail + [a]) == Replay(trail)
  {
    ReplaySnoc(trail, a);
  }

  lemma ReplayBulkResolve(a: Alert, b: Bulk, id: string, name: string, now: int)
    requires Replay(a.trail) == a.status && BulkVerdict(a, b) == Counted && b.action == "resolve"
    ensures Replay(BulkApplied(a, b, id, name, now).trail) == BulkApplied(a, b, id, name, now).status
  {
    ReplaySnoc(a.trail, Change("status_change", a.status, "resolved", None));
  }

  lemma ReplayBulkAssign(a: Alert, b: Bulk, id: string, name: string, now: int)
    requires Replay(a.trail) == a.status && b.action == "assign"
    ensures Replay(BulkApplied(a, b, id, name, now).trail) == BulkApplied(a, b, id, name, now).status
  {
    ReplaySnoc(a.trail, Plain("claimed"));
  }

  lemma ReplayBulkSeverity(a: Alert, b: Bulk, id: string, name: string, now: int)
    requires Replay(a.trail) == a.status && BulkVerdict(a, b) == Counted
    requires b.action != "resolve" && b.action != "assign"
    ensures Replay(BulkApplied(a, b, id, name, now).trail) == BulkApplied(a, b, id, name, now).status
  {
    SeverityIsSilent(a.severity, b.severity.value);
    ReplaySilent(a.trail, Change("severity_change", a.severity, b.severity.value, None));
  }

  lemma ReplayBulk(a: Alert, b: Bulk, id: string, name: string, now: int)
    requires Replay(a.trail) == a.status
    ensures Replay(BulkApplied(a, b, id, name, now).trail) == BulkApplied(a, b, id, name, now).status
  {
    if BulkVerdict(a, b) == Counted {
      if b.action == "resolve" {
        ReplayBulkResolve(a, b, id, name, now);
      } else if b.action == "assign" {
        ReplayBulkAssign(a, b, id, name, now);
      } else {
        ReplayBulkSeverity(a, b, id, name, now);
      }
    }
  }

  lemma ReplayPlaybookAssigned(a: Alert, target: Option<Assignee>)
    requires Replay(a.trail) == a.status
    ensures Replay(PlaybookAssigned(a, target).trail) == PlaybookAssigned(a, target).status
  {
    match target
    case None => ReplaySnoc(a.trail, Activity("assigned", None, None, PLAYBOOK, None));
    case Some(Found(id, _)) => ReplaySnoc(a.trail, Activity("assigned", None, None, PLAYBOOK, Some(id)));
    case Some(_) =>
  }

  /** One operation keeps the trail and the status together if and only if it is traceable. */
  lemma ReplayStep(a: Alert, e: Event)
    requires Replay(a.trail) == a.status
    ensures Replay(Step(a, e).trail) == Step(a, e).status <==> Traceable(a, e)
  {
    match e
    case Patch(u, now) => ReplayUpdated(a, u, now);
    case Claim(id, name) => ReplayClaimed(a, id, name);
    case BulkItem(b, id, name, now) => ReplayBulk(a, b, id, name, now);
    case ByPlaybook(p, now) => ReplayPlaybookUpdated(a, p, now);
    case AssignByPlaybook(target) => ReplayPlaybookAssigned(a, target);
    case Log(activity) => ReplaySnoc(a.trail, activity);
  }

  /** What the record of an alert keeps: the trail explains the status, and a resolved alert has its time. */
  ghost predicate Consistent(a: Alert) {
    Replay(a.trail) == a.status && (a.status == "resolved" ==> a.resolvedAt.Some?)
  }

  /** One operation on a consistent alert leaves a consistent one if and only if it is traceable. */
  lemma ConsistentStep(a: Alert, e: Event)
    ensures Consistent(a) ==> (Consistent(Step(a, e)) <==> Traceable(a, e))
  {
    if Consistent(a) {
      ReplayStep(a, e);
    }
  }

  function Run(a: Alert, es: seq<Event>): Alert {
    if es == [] then a else Step(Run(a, es[..|es| - 1]), es[|es| - 1])
  }

  /** A freshly ingested alert. */
  predicate Fresh(a: Alert) {
    a.status == "new" && a.trail == [] && a.determination == "unknown" && a.resolvedAt == None
  }

  /** Over any run of proper operations, the trail alone reconstructs the status. */
  lemma {:induction false} TrailReconstructsStatus(a: Alert, es: seq<Event>)
    requires Fresh(a) && forall i :: 0 <= i < |es| ==> Proper(es[i])
    ensures Replay(Run(a, es).trail) == Run(a, es).status
  {
    if es != [] {
      TrailReconstructsStatus(a, es[..|es| - 1]);
      ReplayStep(Run(a, es[..|es| - 1]), es[|es| - 1]);
    }
  }

  /** Over any run, without conditions, a resolved alert has its resolution time. */
  lemma {:induction false} ResolvedHasTime(a: Alert, es: seq<Event>)
    requires Fresh(a)
    ensures Run(a, es).status == "resolved" ==> Run(a, es).resolvedAt.Some?
  {
    if es != [] {
      ResolvedHasTime(a, es[..|es| - 1]);
    }
  }

  /** Whatever the operation, an alert enters "resolved" only with a determination other than "unknown". */
  lemma EnteringResolvedIsDetermined(a: Alert, e: Event)
    requires a.status != "resolved" && Step(a, e).status == "resolved"
    ensures Step(a, e).determination != "unknown"
  {
  }

  /** A resolved alert has a determination other than "unknown": kept by most steps, but not by all. */
  predicate Determined(a: Alert) {
    a.status == "resolved" ==> a.determination != "unknown"
  }

  /** An update of a resolved alert that names the determination "unknown" and no status. */
  predicate TakesBack(a: Alert, e: Event) {
    a.status == "resolved" &&
    match e
    case Patch(u, _) => UpdateOutcome(a, u) == Applied && u.status.Unset? && u.determination == Value("unknown")
    case ByPlaybook(p, _) => PlaybookUpdateValid(p) && p.status.None? && p.determination == Some("unknown")
    case _ => false
  }

  /** A step keeps the determination of resolved alerts if and only if it does not take one back. */
  lemma DeterminedStep(a: Alert, e: Event)
    requires Determined(a)
    ensures Determined(Step(a, e)) <==> !TakesBack(a, e)
  {
  }

  ghost predicate NeverTakesBack(a: Alert, es: seq<Event>) {
    forall i :: 0 <= i < |es| ==> !TakesBack(Run(a, es[..i]), es[i])
  }

  /** Over a run without such a step, every resolved alert is determined. */
  lemma {:induction false} ResolvedIsDetermined(a: Alert, es: seq<Event>)
    requires Fresh(a) && NeverTakesBack(a, es)
    ensures Determined(Run(a, es))
  {
    if es != [] {
      var n := |es| - 1;
      forall i | 0 <= i < n ensures !TakesBack(Run(a, es[..n][..i]), es[..n][i]) {
        assert es[..n][..i] == es[..i];
      }
      ResolvedIsDetermined(a, es[..n]);
      DeterminedStep(Run(a, es[..n]), es[n]);
    }
  }

  /** Both an analyst and a playbook can take a determination back. */
  lemma DeterminationCanBeTakenBack(a: Alert, now: int)
    requires a.status == "resolved"
    ensures var u := Update(Unset, Unset, Unset, Value("unknown"), Unset, TagsUnset, Unset, Missing);
      !Determined(Step(a, Patch(u, now)))
    ensures !Determined(Step(a, ByPlaybook(PlaybookUpdate(None, Some("unknown"), None, None, None), now)))
  {
  }

  /** An empty status is stored but leaves no trace, and a posing activity leaves a false one. */
  lemma ImproperOperationsMislead(a: Alert, now: int)
    requires Fresh(a)
    ensures var u := Update(Value(""), Unset, Unset, Unset, Unset, TagsUnset, Unset, Missing);
      Replay(Updated(a, u, now).trail) == "new" != Updated(a, u, now).status
    ensures var note := Activity("claimed", None, None, PLAYBOOK, None);
      var p := PlaybookUpdate(None, None, Some("triage"), None, Some(note));
      Replay(PlaybookUpdated(a, p, now).trail) == "in_progress" != PlaybookUpdated(a, p, now).status
  {
    var u := Update(Value(""), Unset, Unset, Unset, Unset, TagsUnset, Unset, Missing);
    assert Updated(a, u, now).trail == [];
    var note := Activity("claimed", None, None, PLAYBOOK, None);
    assert PlaybookUpdated(a, PlaybookUpdate(None, None, Some("triage"), None, Some(note)), now).trail == [] + [note];
    ReplaySnoc([], note);
  }
}
