/**
 An alert and the five ways it changes: analyst update, claim, bulk operation, playbook update and playbook
 assignment. Each sets fields and appends activities; the trail must still explain the status.
 */
module AlertLifecycle {
  import opened Common

  predicate ValidStatus(s: string) {
    s == "new" || s == "in_progress" || s == "resolved"
  }

  predicate ValidDetermination(d: string) {
    d == "unknown" || d == "malicious" || d == "suspicious" || d == "benign"
  }

  /** A JSON field of a request body: absent, null, or a string. */
  datatype Field = Unset | Null | Value(v: string)

  predicate Truthy(f: Field) {
    f.Value? && f.v != ""
  }

  datatype Activity = Activity(action: string, was: Option<string>, became: Option<string>, source: Option<string>,
                               assignedTo: Option<string>)

  function Plain(action: string): Activity {
    Activity(action, None, None, None, None)
  }

  function Change(action: string, was: string, became: string, source: Option<string>): Activity {
    Activity(action, Some(was), Some(became), source, None)
  }

  const PLAYBOOK := Some("playbook")

  function When(c: bool, x: Activity): seq<Activity> {
    if c then [x] else []
  }

  datatype Alert = Alert(
    status: string, severity: string, determination: string,
    resolvedAt: Option<int>, resolveReason: Option<string>, partner: Option<string>, tags: Option<seq<string>>,
    assignedTo: Option<string>, assignedUsername: Option<string>,
    trail: seq<Activity>)

  /** What the lookup of a requested assignee finds. */
  datatype Assignee = Missing | Malformed | Found(id: string, username: string)

  /** The list-valued field: absent, null, or a list. */
  datatype TagsField = TagsUnset | TagsSet(tags: Option<seq<string>>)

  datatype Update = Update(status: Field, severity: Field, resolveReason: Field, determination: Field, partner: Field,
                           tags: TagsField, assignedTo: Field, assignee: Assignee)

  /** A refusal or an error leaves the committed alert as it was. */
  datatype Outcome = Applied | Refused | Failed

  function GetOr<T>(o: Option<T>, default: T): T {
    match o
    case Some(v) => v
    case None => default
  }

  // ---- Analyst update ----

  function Overwrite(f: Field, current: Option<string>): Option<string> {
    match f
    case Unset => current
    case Null => None
    case Value(v) => Some(v)
  }

  function OverwriteTags(f: TagsField, current: Option<seq<string>>): Option<seq<string>> {
    if f.TagsSet? then f.tags else current
  }

  function OverwriteText(f: Field, current: string): string {
    if f.Value? then f.v else current
  }

  function EffectiveDetermination(f: Field, current: string): string {
    if Truthy(f) then f.v else current
  }

  function UpdateOutcome(a: Alert, u: Update): Outcome {
    if Truthy(u.determination) && !ValidDetermination(u.determination.v) then Refused
    else if u.status == Value("resolved") && EffectiveDetermination(u.determination, a.determination) == "unknown"
      then Refused
    else if Truthy(u.assignedTo) && u.assignee.Malformed? then Failed
    else if u.status.Null? || u.severity.Null? || u.determination.Null? then Failed
    else Applied
  }

  /** The activities of an update: status, determination, severity, in this order. */
  function UpdateActivities(u: Update, status: string, determination: string, severity: string): seq<Activity> {
    When(Truthy(u.status) && u.status.v != status,
         Change("status_change", status, OverwriteText(u.status, status), None)) +
    When(Truthy(u.determination) && u.determination.v != determination,
         Change("determination_set", determination, OverwriteText(u.determination, determination), None)) +
    When(Truthy(u.severity) && u.severity.v != severity,
         Change("severity_change", severity, OverwriteText(u.severity, severity), None))
  }

  function Assigned(a: Alert, u: Update): (Option<string>, Option<string>) {
    if Truthy(u.assignedTo) then
      if u.assignee.Found? then (Some(u.assignee.id), Some(u.assignee.username)) else (a.assignedTo, a.assignedUsername)
    else if u.assignedTo.Unset? then (a.assignedTo, a.assignedUsername)
    else (None, None)
  }

  function WithFields(a: Alert, u: Update, now: int): Alert {
    a.(status := OverwriteText(u.status, a.status), severity := OverwriteText(u.severity, a.severity),
       determination := OverwriteText(u.determination, a.determination),
       resolvedAt := if u.status == Value("resolved") && a.resolvedAt == None then Some(now) else a.resolvedAt,
       resolveReason := Overwrite(u.resolveReason, a.resolveReason), partner := Overwrite(u.partner, a.partner),
       tags := OverwriteTags(u.tags, a.tags))
  }

  function Updated(a: Alert, u: Update, now: int): Alert {
    if UpdateOutcome(a, u) != Applied then a else
    var (id, name) := Assigned(a, u);
    WithFields(a, u, now).(assignedTo := id, assignedUsername := name,
      trail := a.trail + When(Truthy(u.assignedTo) && u.assignee.Found?, Plain("assigned"))
        + UpdateActivities(u, a.status, a.determination, a.severity))
  }

  // ---- Claim ----

  function Claimed(a: Alert, id: string, name: string): Alert {
    var b := a.(assignedTo := Some(id), assignedUsername := Some(name), trail := a.trail + [Plain("claimed")]);
    if a.status == "new"
    then b.(status := "in_progress", trail := b.trail + [Change("status_change", "new", "in_progress", None)])
    else b
  }

  // ---- Bulk ----

  datatype Bulk = Bulk(action: string, resolveReason: Option<string>, determination: Option<string>,
                       severity: Option<string>)

  datatype Verdict = Counted | Skipped | UnknownDetermination | UnknownAction | Denied | NotFound

  predicate Given(o: Option<string>) {
    o.Some? && o.value != ""
  }

  function BulkVerdict(a: Alert, b: Bulk): Verdict {
    if b.action == "resolve" then
      if a.status == "resolved" then Skipped
      else if (if Given(b.determination) then b.determination.value else a.determination) == "unknown"
        then UnknownDetermination
      else Counted
    else if b.action == "assign" then Counted
    else if b.action == "change_severity" && Given(b.severity) then Counted
    else UnknownAction
  }

  function BulkApplied(a: Alert, b: Bulk, id: string, name: string, now: int): Alert {
    if BulkVerdict(a, b) != Counted then a
    else if b.action == "resolve" then
      a.(status := "resolved", resolvedAt := Some(now),
         resolveReason := if Given(b.resolveReason) then b.resolveReason else a.resolveReason,
         determination := if Given(b.determination) then b.determination.value else a.determination,
         trail := a.trail + [Change("status_change", a.status, "resolved", None)])
    else if b.action == "assign" then
      a.(assignedTo := Some(id), assignedUsername := Some(name),
         status := if a.status == "new" then "in_progress" else a.status,
         trail := a.trail + [Plain("claimed")])
    else
      a.(severity := b.severity.value,
         trail := a.trail + [Change("severity_change", a.severity, b.severity.value, None)])
  }

  // ---- Playbook update ----

  /** `note` is the playbook's own activity: an action and, possibly, its metadata. */
  datatype PlaybookUpdate = PlaybookUpdate(status: Option<string>, determination: Option<string>,
                                           reason: Option<string>,
                                           partner: Option<string>, note: Option<Activity>)

  predicate PlaybookUpdateValid(p: PlaybookUpdate) {
    && (p.status.Some? || p.determination.Some? || p.reason.Some? || p.partner.Some?)
    && (p.status.Some? ==> ValidStatus(p.status.value))
    && (p.determination.Some? ==> ValidDetermination(p.determination.value))
    && (p.status == Some("resolved") ==> p.determination.Some? && p.determination.value != "unknown")
  }

  function PlaybookActivities(status: string, status': string, determination: string, determination': string,
                              note: Option<Activity>): seq<Activity> {
    When(status != status', Change("status_change", status, status', PLAYBOOK)) +
    When(determination != determination', Change("determination_set", determination, determination', PLAYBOOK)) +
    When(note.Some?, GetOr(note, Plain("")))
  }

  function PlaybookUpdated(a: Alert, p: PlaybookUpdate, now: int): Alert {
    if !PlaybookUpdateValid(p) then a else
    var (status, determination) := (GetOr(p.status, a.status), GetOr(p.determination, a.determination));
    a.(status := status, determination := determination,
       resolvedAt := if status == "resolved" && a.resolvedAt == None then Some(now) else a.resolvedAt,
       resolveReason := if p.reason.Some? then p.reason else a.resolveReason,
       partner := if p.partner.Some? then p.partner else a.partner,
       trail := a.trail + PlaybookActivities(a.status, status, a.determination, determination, p.note))
  }

  // ---- Playbook assignment ----

  /** `target` is None to unassign; otherwise what the lookup of an active analyst found. */
  function PlaybookAssigned(a: Alert, target: Option<Assignee>): Alert {
    match target
    case None =>
      a.(assignedTo := None, assignedUsername := None,
         trail := a.trail + [Activity("assigned", None, None, PLAYBOOK, None)])
    case Some(Found(id, name)) =>
      a.(assignedTo := Some(id), assignedUsername := Some(name),
         status := if a.status == "new" then "in_progress" else a.status,
         trail := a.trail + [Activity("assigned", None, None, PLAYBOOK, Some(id))])
    case Some(_) => a
  }
}
