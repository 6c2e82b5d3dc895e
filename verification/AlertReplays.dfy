/** What the trail tells of the severity and the determination, and exactly when it tells the truth. */
module AlertReplays {
  import opened Common
  import opened AlertLifecycle
  import opened AlertAudit

  /** The value last logged under an action, or the one the alert started with. */
  function Told(trail: seq<Activity>, action: string, start: string): string {
    if trail == [] then start else
    var last := trail[|trail| - 1];
    if last.action == action && last.became.Some? then last.became.value
    else Told(trail[..|trail| - 1], action, start)
  }

  /** Logging `x` leaves what is told of `action` at `value`. */
  predicate Leaves(x: Activity, action: string, value: string) {
    x.action == action && x.became.Some? ==> x.became.value == value
  }

  lemma ToldWhen(trail: seq<Activity>, c: bool, x: Activity, action: string, start: string)
    ensures Told(trail + When(c, x), action, start) ==
      if c && x.action == action && x.became.Some? then x.became.value else Told(trail, action, start)
  {
    if c {
      assert (trail + [x])[..|trail|] == trail;
    } else {
      assert trail + [] == trail;
    }
  }

  lemma ToldSnoc(trail: seq<Activity>, x: Activity, action: string, start: string)
    ensures Told(trail + [x], action, start) ==
      if x.action == action && x.became.Some? then x.became.value else Told(trail, action, start)
  {
    ToldWhen(trail, true, x, action, start);
  }

  lemma ToldThree(trail: seq<Activity>, c: bool, x: Activity, d: bool, y: Activity, e: bool, z: Activity,
                  action: string, start: string)
    ensures Told(trail + (When(c, x) + When(d, y) + When(e, z)), action, start) ==
      if e && z.action == action && z.became.Some? then z.became.value
      else if d && y.action == action && y.became.Some? then y.became.value
      else if c && x.action == action && x.became.Some? then x.became.value
      else Told(trail, action, start)
  {
    assert trail + (When(c, x) + When(d, y) + When(e, z)) == trail + When(c, x) + When(d, y) + When(e, z);
    ToldWhen(trail, c, x, action, start);
    ToldWhen(trail + When(c, x), d, y, action, start);
    ToldWhen(trail + When(c, x) + When(d, y), e, z, action, start);
  }

  lemma ActionsDiffer()
    ensures "severity_change" != "status_change" && "severity_change" != "determination_set"
    ensures "determination_set" != "status_change"
    ensures "claimed" != "severity_change" && "claimed" != "determination_set"
    ensures "assigned" != "severity_change" && "assigned" != "determination_set"
  {
    assert |"severity_change"| == 15 && |"status_change"| == 13 && |"determination_set"| == 17;
    assert |"claimed"| == 7 && |"assigned"| == 8;
  }

  /** What an update's three activities tell, after the assignment. */
  lemma ToldUpdated(a: Alert, u: Update, now: int, action: string, start: string)
    requires action == "severity_change" || action == "determination_set"
    requires UpdateOutcome(a, u) == Applied
    ensures Told(Updated(a, u, now).trail, action, start) ==
      if action == "severity_change" && Truthy(u.severity) && u.severity.v != a.severity then u.severity.v
      else if action == "determination_set" && Truthy(u.determination) && u.determination.v != a.determination
        then u.determination.v
      else Told(a.trail, action, start)
  {
    ActionsDiffer();
    var named := Truthy(u.assignedTo) && u.assignee.Found?;
    ToldWhen(a.trail, named, Plain("assigned"), action, start);
    ToldThree(a.trail + When(named, Plain("assigned")),
      Truthy(u.status) && u.status.v != a.status,
      Change("status_change", a.status, OverwriteText(u.status, a.status), None),
      Truthy(u.determination) && u.determination.v != a.determination,
      Change("determination_set", a.determination, OverwriteText(u.determination, a.determination), None),
      Truthy(u.severity) && u.severity.v != a.severity,
      Change("severity_change", a.severity, OverwriteText(u.severity, a.severity), None), action, start);
  }

  lemma ToldClaimed(a: Alert, id: string, name: string, action: string, start: string)
    requires action == "severity_change" || action == "determination_set"
    ensures Told(Claimed(a, id, name).trail, action, start) == Told(a.trail, action, start)
  {
    ActionsDiffer();
    ToldSnoc(a.trail, Plain("claimed"), action, start);
    ToldSnoc(a.trail + [Plain("claimed")], Change("status_change", "new", "in_progress", None), action, start);
  }

  lemma ToldBulk(a: Alert, b: Bulk, id: string, name: string, now: int, action: string, start: string)
    requires action == "severity_change" || action == "determination_set"
    requires BulkVerdict(a, b) == Counted
    ensures Told(BulkApplied(a, b, id, name, now).trail, action, start) ==
      if action == "severity_change" && b.action != "resolve" && b.action != "assign" then b.severity.value
      else Told(a.trail, action, start)
  {
    ActionsDiffer();
    if b.action == "resolve" {
      ToldSnoc(a.trail, Change("status_change", a.status, "resolved", None), action, start);
    } else if b.action == "assign" {
      ToldSnoc(a.trail, Plain("claimed"), action, start);
    } else {
      ToldSnoc(a.trail, Change("severity_change", a.severity, b.severity.value, None), action, start);
    }
  }

  lemma ToldPlaybookUpdated(a: Alert, p: PlaybookUpdate, now: int, action: string, start: string)
    requires action == "severity_change" || action == "determination_set"
    requires PlaybookUpdateValid(p)
    ensures Told(PlaybookUpdated(a, p, now).trail, action, start) ==
      if p.note.Some? && p.note.value.action == action && p.note.value.became.Some? then p.note.value.became.value
      else if action == "determination_set" && p.determination.Some? && p.determination.value != a.determination
        then p.determination.value
      else Told(a.trail, action, start)
  {
    ActionsDiffer();
    var status, determination := GetOr(p.status, a.status), GetOr(p.determination, a.determination);
    ToldThree(a.trail,
      a.status != status, Change("status_change", a.status, status, PLAYBOOK),
      a.determination != determination, Change("determination_set", a.determination, determination, PLAYBOOK),
      p.note.Some?, GetOr(p.note, Plain("")), action, start);
  }

  lemma ToldPlaybookAssigned(a: Alert, target: Option<Assignee>, action: string, start: string)
    requires action == "severity_change" || action == "determination_set"
    ensures Told(PlaybookAssigned(a, target).trail, action, start) == Told(a.trail, action, start)
  {
    ActionsDiffer();
    match target
    case None => ToldSnoc(a.trail, Activity("assigned", None, None, PLAYBOOK, None), action, start);
    case Some(Found(id, _)) => ToldSnoc(a.trail, Activity("assigned", None, None, PLAYBOOK, Some(id)), action, start);
    case Some(_) =>
  }

  // ---- Severity ----

  /** Exactly the operations after which the trail still tells the severity: no empty one, no posing activity. */
  predicate TellsSeverity(a: Alert, e: Event) {
    match e
    case Patch(u, _) => UpdateOutcome(a, u) == Applied && u.severity == Value("") ==> a.severity == ""
    case ByPlaybook(p, _) =>
      PlaybookUpdateValid(p) && p.note.Some? ==> Leaves(p.note.value, "severity_change", a.severity)
    case Log(x) => Leaves(x, "severity_change", a.severity)
    case _ => true
  }

  lemma SeverityStep(a: Alert, e: Event, start: string)
    requires Told(a.trail, "severity_change", start) == a.severity
    ensures Told(Step(a, e).trail, "severity_change", start) == Step(a, e).severity <==> TellsSeverity(a, e)
  {
    ActionsDiffer();
    match e
    case Patch(u, now) =>
      if UpdateOutcome(a, u) == Applied {
        ToldUpdated(a, u, now, "severity_change", start);
      }
    case Claim(id, name) => ToldClaimed(a, id, name, "severity_change", start);
    case BulkItem(b, id, name, now) =>
      if BulkVerdict(a, b) == Counted {
        ToldBulk(a, b, id, name, now, "severity_change", start);
      }
    case ByPlaybook(p, now) =>
      if PlaybookUpdateValid(p) {
        ToldPlaybookUpdated(a, p, now, "severity_change", start);
      }
    case AssignByPlaybook(target) => ToldPlaybookAssigned(a, target, "severity_change", start);
    case Log(x) => ToldSnoc(a.trail, x, "severity_change", start);
  }

  ghost predicate SeverityTold(start: string, b: Alert) {
    Told(b.trail, "severity_change", start) == b.severity
  }

  lemma RunStep(a: Alert, es: seq<Event>, n: nat)
    requires n < |es|
    ensures Run(a, es[..n + 1]) == Step(Run(a, es[..n]), es[n])
  {
    assert es[..n + 1][..n] == es[..n];
  }

  lemma SeverityAfter(a: Alert, es: seq<Event>, n: nat)
    requires n < |es| && SeverityTold(a.severity, Run(a, es[..n]))
    ensures SeverityTold(a.severity, Run(a, es[..n + 1])) <==> TellsSeverity(Run(a, es[..n]), es[n])
  {
    RunStep(a, es, n);
    SeverityStep(Run(a, es[..n]), es[n], a.severity);
  }

  lemma {:induction false} SeverityToldUpTo(a: Alert, es: seq<Event>, m: nat)
    requires a.trail == [] && m <= |es| && forall n :: 0 <= n < m ==> TellsSeverity(Run(a, es[..n]), es[n])
    ensures SeverityTold(a.severity, Run(a, es[..m]))
  {
    if m > 0 {
      SeverityToldUpTo(a, es, m - 1);
      SeverityAfter(a, es, m - 1);
    }
  }

  /** The trail tells the severity all along a run if and only if every operation of it keeps it told. */
  lemma TrailTellsSeverity(a: Alert, es: seq<Event>)
    requires a.trail == []
    ensures (forall n :: 0 <= n <= |es| ==> SeverityTold(a.severity, Run(a, es[..n]))) <==>
      forall n :: 0 <= n < |es| ==> TellsSeverity(Run(a, es[..n]), es[n])
  {
    if forall n :: 0 <= n < |es| ==> TellsSeverity(Run(a, es[..n]), es[n]) {
      forall n | 0 <= n <= |es| ensures SeverityTold(a.severity, Run(a, es[..n])) {
        SeverityToldUpTo(a, es, n);
      }
    }
    if forall n :: 0 <= n <= |es| ==> SeverityTold(a.severity, Run(a, es[..n])) {
      forall n | 0 <= n < |es| ensures TellsSeverity(Run(a, es[..n]), es[n]) {
        assert SeverityTold(a.severity, Run(a, es[..n + 1]));
        SeverityAfter(a, es, n);
      }
    }
  }

  // ---- Determination ----

  /** Here a bulk resolution counts too: it stores the requested determination but logs only the status. */
  predicate TellsDetermination(a: Alert, e: Event) {
    match e
    case Patch(u, _) => UpdateOutcome(a, u) == Applied && u.determination == Value("") ==> a.determination == ""
    case BulkItem(b, _, _, _) =>
      b.action == "resolve" && BulkVerdict(a, b) == Counted && Given(b.determination) ==>
        b.determination.value == a.determination
    case ByPlaybook(p, _) =>
      PlaybookUpdateValid(p) && p.note.Some? ==>
        Leaves(p.note.value, "determination_set", GetOr(p.determination, a.determination))
    case Log(x) => Leaves(x, "determination_set", a.determination)
    case _ => true
  }

  lemma DeterminationStep(a: Alert, e: Event, start: string)
    requires Told(a.trail, "determination_set", start) == a.determination
    ensures Told(Step(a, e).trail, "determination_set", start) == Step(a, e).determination <==> TellsDetermination(a, e)
  {
    ActionsDiffer();
    match e
    case Patch(u, now) =>
      if UpdateOutcome(a, u) == Applied {
        ToldUpdated(a, u, now, "determination_set", start);
      }
    case Claim(id, name) => ToldClaimed(a, id, name, "determination_set", start);
    case BulkItem(b, id, name, now) =>
      if BulkVerdict(a, b) == Counted {
        ToldBulk(a, b, id, name, now, "determination_set", start);
      }
    case ByPlaybook(p, now) =>
      if PlaybookUpdateValid(p) {
        ToldPlaybookUpdated(a, p, now, "determination_set", start);
      }
    case AssignByPlaybook(target) => ToldPlaybookAssigned(a, target, "determination_set", start);
    case Log(x) => ToldSnoc(a.trail, x, "determination_set", start);
  }

  ghost predicate DeterminationTold(start: string, b: Alert) {
    Told(b.trail, "determination_set", start) == b.determination
  }

  lemma DeterminationAfter(a: Alert, es: seq<Event>, n: nat)
    requires n < |es| && DeterminationTold(a.determination, Run(a, es[..n]))
    ensures DeterminationTold(a.determination, Run(a, es[..n + 1])) <==> TellsDetermination(Run(a, es[..n]), es[n])
  {
    RunStep(a, es, n);
    DeterminationStep(Run(a, es[..n]), es[n], a.determination);
  }

  lemma {:induction false} DeterminationToldUpTo(a: Alert, es: seq<Event>, m: nat)
    requires a.trail == [] && m <= |es| && forall n :: 0 <= n < m ==> TellsDetermination(Run(a, es[..n]), es[n])
    ensures DeterminationTold(a.determination, Run(a, es[..m]))
  {
    if m > 0 {
      DeterminationToldUpTo(a, es, m - 1);
      DeterminationAfter(a, es, m - 1);
    }
  }

  /** The same law for the determination; a bulk resolution that changes it is what breaks it. */
  lemma TrailTellsDetermination(a: Alert, es: seq<Event>)
    requires a.trail == []
    ensures (forall n :: 0 <= n <= |es| ==> DeterminationTold(a.determination, Run(a, es[..n]))) <==>
      forall n :: 0 <= n < |es| ==> TellsDetermination(Run(a, es[..n]), es[n])
  {
    if forall n :: 0 <= n < |es| ==> TellsDetermination(Run(a, es[..n]), es[n]) {
      forall n | 0 <= n <= |es| ensures DeterminationTold(a.determination, Run(a, es[..n])) {
        DeterminationToldUpTo(a, es, n);
      }
    }
    if forall n :: 0 <= n <= |es| ==> DeterminationTold(a.determination, Run(a, es[..n])) {
      forall n | 0 <= n < |es| ensures TellsDetermination(Run(a, es[..n]), es[n]) {
        assert DeterminationTold(a.determination, Run(a, es[..n + 1]));
        DeterminationAfter(a, es, n);
      }
    }
  }

  /** A bulk resolution with a determination of its own leaves a trail that still tells the old one. */
  lemma BulkResolutionUntold(a: Alert, id: string, name: string, now: int)
    requires a.trail == [] && a.status != "resolved" && a.determination == "unknown"
    ensures var b := BulkApplied(a, Bulk("resolve", None, Some("benign"), None), id, name, now);
      b.determination == "benign" && Told(b.trail, "determination_set", "unknown") == "unknown"
  {
    ActionsDiffer();
    ToldSnoc(a.trail, Change("status_change", a.status, "resolved", None), "determination_set", "unknown");
  }
}
