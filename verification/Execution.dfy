/**
 Playbook execution: the status of a run, the correlation id it and its action results carry, and
 sequences of playbooks for one alert.
 */
module Execution {
  import opened Common
  import opened Ingest
  import Retry

  datatype Status = Running | Success | Failed | Cancelled

  /** The place of a run in a sequence. */
  datatype Place = Place(sequence: nat, position: nat, total: nat)

  datatype Run = Run(
    playbook: string, alert: Option<nat>, place: Option<Place>, status: Status, error: Option<string>,
    finished: bool, correlation: nat)

  datatype ActionRow = ActionRow(run: nat, result: Retry.ActionResult, correlation: nat)

  /** The tables an execution sees; an alert is named by its position. */
  datatype World = World(table: Table, database: set<string>, runs: seq<Run>, rows: seq<ActionRow>)

  /** How a playbook ends; `Killed` is an exception outside `Exception` other than a cancellation. */
  datatype Ending = Returns | Raises(error: string) | Cancels | Killed

  /** What a playbook does: the results its wrapped actions record, and its end. */
  datatype Behaviour = Behaviour(actions: seq<Retry.ActionResult>, ending: Ending)

  datatype Request = Request(playbook: string, alert: Option<nat>, place: Option<Place>)

  datatype Reply = Done(run: nat) | NotInDatabase | ForeignKeyViolation | Propagated(run: nat)

  /** The correlation id a run can take over: the alert's, else the calling context's. */
  function KnownId(t: Table, alert: Option<nat>): Option<nat> {
    if alert.Some? && alert.value < |t.alerts| && t.alerts[alert.value].correlation.Some?
    then t.alerts[alert.value].correlation
    else t.context
  }

  function RunId(t: Table, alert: Option<nat>): nat {
    if KnownId(t, alert).Some? then KnownId(t, alert).value else t.minted
  }

  function AfterResolving(t: Table, alert: Option<nat>): Table {
    if KnownId(t, alert).Some? then t else t.(minted := t.minted + 1)
  }

  function StatusOf(e: Ending): Status {
    match e
    case Returns => Success
    case Raises(_) => Failed
    case Cancels => Cancelled
    case Killed => Running
  }

  function ErrorOf(e: Ending): Option<string> {
    if e.Raises? then Some(e.error) else None
  }

  predicate Missing(t: Table, alert: Option<nat>) {
    alert.Some? && alert.value >= |t.alerts|
  }

  function RowsOf(run: nat, actions: seq<Retry.ActionResult>, id: nat): (rows: seq<ActionRow>)
    ensures |rows| == |actions| && forall i :: 0 <= i < |rows| ==> rows[i] == ActionRow(run, actions[i], id)
  {
    seq(|actions|, i requires 0 <= i < |actions| => ActionRow(run, actions[i], id))
  }

  function Executed(w: World, q: Request, b: Behaviour): World {
    if q.playbook !in w.database then w
    else if Missing(w.table, q.alert) then w.(table := AfterResolving(w.table, q.alert))
    else
      var id := RunId(w.table, q.alert);
      w.(table := AfterResolving(w.table, q.alert),
         runs := w.runs + [Run(q.playbook, q.alert, q.place, StatusOf(b.ending), ErrorOf(b.ending), true, id)],
         rows := w.rows + RowsOf(|w.runs|, b.actions, id))
  }

  function ReplyOf(w: World, q: Request, b: Behaviour): Reply {
    if q.playbook !in w.database then NotInDatabase
    else if Missing(w.table, q.alert) then ForeignKeyViolation
    else if b.ending.Killed? then Propagated(|w.runs|)
    else Done(|w.runs|)
  }

  // ---- Traces ----

  datatype Event =
    | Deliver(webhook: Webhook)
    | Execute(request: Request, behaviour: Behaviour)
    | Enter(context: Option<nat>)
    | Sync(names: set<string>)
    | TakeId

  function Step(w: World, e: Event): World {
    match e
    case Deliver(webhook) => w.(table := Ingested(w.table, webhook))
    case Execute(q, b) => Executed(w, q, b)
    case Enter(context) => w.(table := w.table.(context := context))
    case Sync(names) => w.(database := w.database + names)
    case TakeId => w.(table := w.table.(minted := w.table.minted + 1))
  }

  function After(w: World, es: seq<Event>): World {
    if es == [] then w else Step(After(w, es[..|es| - 1]), es[|es| - 1])
  }

  /** The alert had a correlation id when the events began, or was ingested by one of them. */
  ghost predicate BornTraced(t: Table, alert: nat) {
    alert >= |t.alerts| || t.alerts[alert].correlation.Some?
  }

  ghost predicate HasId(t: Table, alert: nat, id: nat) {
    alert < |t.alerts| && t.alerts[alert].correlation == Some(id)
  }

  /** Every alert ingested since `t` has an id. */
  ghost predicate IngestedHaveIds(t: Table, now: Table) {
    forall a :: |t.alerts| <= a < |now.alerts| ==> now.alerts[a].correlation.Some?
  }

  /** Every run recorded since `start` for such an alert carries the alert's id. */
  ghost predicate RunsTraced(start: World, w: World) {
    forall i :: |start.runs| <= i < |w.runs| ==> RunTraced(start.table, w, w.runs[i])
  }

  ghost predicate RunTraced(t: Table, w: World, r: Run) {
    r.alert.Some? && BornTraced(t, r.alert.value) ==> HasId(w.table, r.alert.value, r.correlation)
  }

  /** Every action result recorded since `start` belongs to a run and carries the run's id. */
  ghost predicate RowsTraced(start: World, w: World) {
    forall i :: |start.rows| <= i < |w.rows| ==>
      w.rows[i].run < |w.runs| && w.rows[i].correlation == w.runs[w.rows[i].run].correlation
  }

  ghost predicate TraceInv(start: World, w: World) {
    && OnePerKey(w.table.alerts)
    && Extends(start.table, w.table)
    && IngestedHaveIds(start.table, w.table)
    && |start.runs| <= |w.runs| && |start.rows| <= |w.rows|
    && RunsTraced(start, w)
    && RowsTraced(start, w)
  }

  lemma DeliverKeepsTraces(start: World, w: World, webhook: Webhook)
    requires TraceInv(start, w)
    ensures TraceInv(start, Step(w, Deliver(webhook)))
  {
    var now := Step(w, Deliver(webhook));
    OnePerKeyKept(w.table, webhook);
    Landed(w.table, webhook);
    forall i | |start.runs| <= i < |now.runs| ensures RunTraced(start.table, now, now.runs[i]) {
      assert RunTraced(start.table, w, w.runs[i]);
    }
  }

  /** The new run of an execution takes the alert's id when there is one. */
  lemma NewRunTraced(start: World, w: World, q: Request, b: Behaviour)
    requires TraceInv(start, w) && q.playbook in w.database && !Missing(w.table, q.alert)
    ensures var now := Executed(w, q, b); RunTraced(start.table, now, now.runs[|w.runs|])
  {
    if q.alert.Some? && BornTraced(start.table, q.alert.value) {
      assert q.alert.value < |start.table.alerts| ==>
        KeepsIdentity(start.table.alerts[q.alert.value], w.table.alerts[q.alert.value]);
    }
  }

  lemma ExecuteKeepsTraces(start: World, w: World, q: Request, b: Behaviour)
    requires TraceInv(start, w)
    ensures TraceInv(start, Executed(w, q, b))
  {
    var now := Executed(w, q, b);
    if q.playbook in w.database && !Missing(w.table, q.alert) {
      NewRunTraced(start, w, q, b);
    }
    forall i | |start.runs| <= i < |now.runs| ensures RunTraced(start.table, now, now.runs[i]) {
      if i < |w.runs| {
        assert RunTraced(start.table, w, w.runs[i]);
      }
    }
  }

  /** Whatever is delivered, executed and entered, every run and action result carries its alert's id. */
  lemma {:induction false} TracesHold(start: World, es: seq<Event>)
    requires OnePerKey(start.table.alerts)
    ensures TraceInv(start, After(start, es))
  {
    if es != [] {
      var w, e := After(start, es[..|es| - 1]), es[|es| - 1];
      TracesHold(start, es[..|es| - 1]);
      match e
      case Deliver(webhook) => DeliverKeepsTraces(start, w, webhook);
      case Execute(q, b) => ExecuteKeepsTraces(start, w, q, b);
      case Enter(_) | Sync(_) | TakeId =>
        assert forall i :: |start.runs| <= i < |w.runs| ==> RunTraced(start.table, w, w.runs[i]);
    }
  }

  /** An id filled in later was never handed out before. */
  lemma {:induction false} BackfillIsNew(start: World, es: seq<Event>, alert: nat)
    requires OnePerKey(start.table.alerts) && alert < |start.table.alerts|
    requires start.table.alerts[alert].correlation.None?
    ensures var t := After(start, es).table;
      && OnePerKey(t.alerts) && alert < |t.alerts| && start.table.minted <= t.minted
      && (t.alerts[alert].correlation.Some? ==> t.alerts[alert].correlation.value >= start.table.minted)
  {
    if es != [] {
      var w, e := After(start, es[..|es| - 1]), es[|es| - 1];
      BackfillIsNew(start, es[..|es| - 1], alert);
      if e.Deliver? {
        OnePerKeyKept(w.table, e.webhook);
        Landed(w.table, e.webhook);
      }
    }
  }

  /**
   A run carries the id its alert ends up with exactly when the alert had one at the time of the run:
   the id a later duplicate fills in for an old alert is never that of an earlier run.
   */
  lemma TracedExactlyWhenKnown(w: World, q: Request, b: Behaviour, es: seq<Event>)
    requires OnePerKey(w.table.alerts) && q.playbook in w.database
    requires q.alert.Some? && q.alert.value < |w.table.alerts|
    requires w.table.context.Some? ==> w.table.context.value < w.table.minted
    ensures var later, a := After(Executed(w, q, b), es), q.alert.value;
      a < |later.table.alerts| && (later.table.alerts[a].correlation.Some? ==>
        (HasId(later.table, a, RunId(w.table, q.alert)) <==> w.table.alerts[a].correlation.Some?))
  {
    var ran, a := Executed(w, q, b), q.alert.value;
    TracesHold(ran, es);
    assert KeepsIdentity(ran.table.alerts[a], After(ran, es).table.alerts[a]);
    if w.table.alerts[a].correlation.None? {
      BackfillIsNew(ran, es, a);
    }
  }

  // ---- The executor ----

  class PlaybookExecutor {
    const session: Session
    var database: set<string>
    var runs: seq<Run>
    var rows: seq<ActionRow>

    constructor (session: Session, database: set<string>, runs: seq<Run>, rows: seq<ActionRow>)
      ensures this.session == session && Now() == World(session.Now(), database, runs, rows)
    {
      this.session, this.database, this.runs, this.rows := session, database, runs, rows;
    }

    ghost function Now(): World
      reads this, session
    {
      World(session.Now(), database, runs, rows)
    }

    /** The `record_action` callback, once for each result the playbook's actions record. */
    method RecordActions(run: nat, actions: seq<Retry.ActionResult>, id: nat)
      modifies this`rows
      ensures rows == old(rows) + RowsOf(run, actions, id)
    {
      for i := 0 to |actions|
        invariant rows == old(rows) + RowsOf(run, actions, id)[..i]
      {
        rows := rows + [ActionRow(run, actions[i], id)];
      }
    }

    /** The alert's id, else the context's, else a fresh one. */
    method ResolveId(alert: Option<nat>) returns (id: nat)
      modifies session`minted
      ensures id == RunId(old(session.Now()), alert) && session.Now() == AfterResolving(old(session.Now()), alert)
    {
      if alert.Some? && alert.value < |session.alerts| && session.alerts[alert.value].correlation.Some? {
        id := session.alerts[alert.value].correlation.value;
      } else if session.context.Some? {
        id := session.context.value;
      } else {
        id := session.Mint();
      }
    }

    /** The end of a run: status and error by how the playbook ended, and in any case the finish time. */
    method Close(run: nat, ending: Ending)
      requires run < |runs| && runs[run].status == Running && runs[run].error == None
      modifies this`runs
      ensures runs == old(runs)[
        run := old(runs[run]).(status := StatusOf(ending), error := ErrorOf(ending), finished := true)]
    {
      match ending {
        case Returns => runs := runs[run := runs[run].(status := Success)];
        case Cancels => runs := runs[run := runs[run].(status := Cancelled)];
        case Raises(error) =>
          runs := runs[run := runs[run].(status := Failed)];
          runs := runs[run := runs[run].(error := Some(error))];
        case Killed =>
      }
      runs := runs[run := runs[run].(finished := true)];
    }

    method Execute(q: Request, b: Behaviour) returns (reply: Reply)
      modifies this, session
      ensures Now() == Executed(old(Now()), q, b) && reply == ReplyOf(old(Now()), q, b)
      ensures session.alerts == old(session.alerts) && session.context == old(session.context)
      ensures database == old(database)
      ensures q.playbook !in database ==> reply == NotInDatabase && Now() == old(Now())
      ensures q.playbook in database && q.alert.Some? && q.alert.value >= |session.alerts| ==>
        reply == ForeignKeyViolation && runs == old(runs) && rows == old(rows)
      ensures q.playbook in database && (q.alert.Some? ==> q.alert.value < |session.alerts|) ==>
        && reply == (if b.ending.Killed? then Propagated(|old(runs)|) else Done(|old(runs)|))
        && |runs| == |old(runs)| + 1 && runs[..|old(runs)|] == old(runs)
        && var r := runs[|old(runs)|];
        && r.playbook == q.playbook && r.alert == q.alert && r.place == q.place && r.finished
        && (b.ending.Returns? ==> r.status == Success && r.error == None)
        && (b.ending.Raises? ==> r.status == Failed && r.error == Some(b.ending.error))
        && (b.ending.Cancels? ==> r.status == Cancelled && r.error == None)
        && (b.ending.Killed? ==> r.status == Running && r.error == None)
        && (if q.alert.Some? && session.alerts[q.alert.value].correlation.Some?
            then session.alerts[q.alert.value].correlation == Some(r.correlation)
            else if session.context.Some? then session.context == Some(r.correlation)
            else r.correlation == old(session.minted) && session.minted == old(session.minted) + 1)
        && |rows| == |old(rows)| + |b.actions| && rows[..|old(rows)|] == old(rows)
        && forall i :: 0 <= i < |b.actions| ==>
          rows[|old(rows)| + i] == ActionRow(|old(runs)|, b.actions[i], r.correlation)
    {
      if q.playbook !in database {
        return NotInDatabase;
      }
      var id := ResolveId(q.alert);
      if q.alert.Some? && q.alert.value >= |session.alerts| {
        return ForeignKeyViolation;
      }
      var run := |runs|;
      runs := runs + [Run(q.playbook, q.alert, q.place, Running, None, false, id)];
      var token := session.context;
      session.context := Some(id);
      RecordActions(run, b.actions, id);
      Close(run, b.ending);
      session.context := token;
      reply := if b.ending.Killed? then Propagated(run) else Done(run);
    }

    /** The registered playbooks are synchronised to the database, and the sequence gets its id. */
    method BeginSequence(names: seq<string>, alert: Option<nat>, registered: set<string>, script: seq<Behaviour>)
      returns (sequence: nat, ghost events: seq<Event>)
      requires |script| == |names|
      modifies this, session
      ensures Now() == After(old(Now()), events) && registered <= database
      ensures sequence == old(session.minted) && Recorded(old(Now()), Now(), names, alert, script, 0)
    {
      ghost var start := Now();
      database := database + registered;
      sequence := session.Mint();
      events := [Sync(registered), TakeId];
      AfterSnoc(start, [], Sync(registered));
      AfterSnoc(start, [Sync(registered)], TakeId);
    }

    /** One turn of the sequence loop. */
    method ExecuteNext(names: seq<string>, alert: Option<nat>, sequence: nat, position: nat, script: seq<Behaviour>,
                       ghost start: World, ghost events: seq<Event>)
      returns (r: Reply, ghost events': seq<Event>)
      requires 1 <= position <= |names| == |script| && names[position - 1] in database
      requires sequence == start.table.minted
      requires Now() == After(start, events) && Recorded(start, Now(), names, alert, script, position - 1)
      modifies this, session
      ensures Now() == After(start, events') && database == old(database)
      ensures r == if Missing(start.table, alert) then ForeignKeyViolation
        else if script[position - 1].ending.Killed? then Propagated(|start.runs| + position - 1)
        else Done(|start.runs| + position - 1)
      ensures r.Done? ==> r.run < |runs| && runs[r.run].status == StatusOf(script[position - 1].ending)
      ensures Recorded(start, Now(), names, alert, script, if r.ForeignKeyViolation? then position - 1 else position)
    {
      var n := position - 1;
      var q := Request(names[n], alert, Some(Place(sequence, position, |names|)));
      ghost var before := Now();
      r := Execute(q, script[n]);
      AfterSnoc(start, events, Event.Execute(q, script[n]));
      events' := events + [Event.Execute(q, script[n])];
      if !Missing(start.table, alert) {
        RecordedSnoc(start, before, names, alert, script, n);
      }
    }

    /** One turn of the sequence loop: the reply if the sequence stops here, else one more result. */
    method Turn(names: seq<string>, alert: Option<nat>, registered: set<string>, sequence: nat, script: seq<Behaviour>,
                results: seq<Summary>, ghost start: World, ghost events: seq<Event>)
      returns (stop: Option<SequenceReply>, results': seq<Summary>, recorded: nat, ghost events': seq<Event>)
      requires |results| < |names| == |script| && registered <= database && sequence == start.table.minted
      requires Now() == After(start, events) && Recorded(start, Now(), names, alert, script, |results|)
      requires Reached(names, registered, script, |results|) && Summarizes(results, names, script, start, |results|)
      modifies this, session
      ensures Now() == After(start, events') && database == old(database)
      ensures Recorded(start, Now(), names, alert, script, recorded)
      ensures stop.Some? ==> ExplainsStop(stop.value, names, alert, registered, script, recorded, start)
      ensures stop.None? ==> recorded == |results| + 1
      ensures stop.None? ==>
        Reached(names, registered, script, recorded) && Summarizes(results', names, script, start, recorded)
    {
      stop, results', recorded, events' := None, results, |results|, events;
      var position := |results| + 1;
      var name := names[recorded];
      if name !in registered {
        return Some(Unregistered(name)), results, recorded, events;
      }
      var r;
      r, events' := ExecuteNext(names, alert, sequence, position, script, start, events);
      if r.Done? {
        ReachedSnoc(names, registered, script, recorded);
        SummarizesSnoc(results, names, script, start, recorded);
        results' := results + [Summary(name, r.run, position, runs[r.run].status)];
      } else {
        stop := Some(Aborted(r));
      }
      recorded := if r.ForeignKeyViolation? then recorded else position;
    }

    /** Runs the playbooks one after the other, stopping at the first that is not registered. */
    method ExecuteSequence(names: seq<string>, alert: Option<nat>, registered: set<string>, script: seq<Behaviour>)
      returns (reply: SequenceReply, recorded: nat, ghost events: seq<Event>)
      requires |script| == |names|
      modifies this, session
      ensures Now() == After(old(Now()), events)
      ensures Recorded(old(Now()), Now(), names, alert, script, recorded)
      ensures ExplainsStop(reply, names, alert, registered, script, recorded, old(Now()))
    {
      ghost var start := Now();
      var sequence;
      sequence, events := BeginSequence(names, alert, registered, script);
      var results := [];
      recorded := 0;
      while recorded < |names|
        invariant recorded <= |names|
        invariant registered <= database
        invariant Now() == After(start, events)
        invariant Recorded(start, Now(), names, alert, script, recorded)
        invariant Reached(names, registered, script, recorded)
        invariant Summarizes(results, names, script, start, recorded)
      {
        var stop;
        stop, results, recorded, events :=
          Turn(names, alert, registered, sequence, script, results, start, events);
        if stop.Some? {
          return stop.value, recorded, events;
        }
      }
      reply := Finished(results);
    }
  }

  // ---- Sequences ----

  datatype Summary = Summary(playbook: string, run: nat, position: nat, status: Status)

  datatype SequenceReply = Finished(results: seq<Summary>) | Unregistered(name: string) | Aborted(cause: Reply)

  lemma AfterSnoc(w: World, es: seq<Event>, e: Event)
    ensures After(w, es + [e]) == Step(After(w, es), e)
  {
    assert (es + [e])[..|es|] == es;
  }

  /** The `i`-th run of a sequence with id `sequence`. */
  function SequenceRun(names: seq<string>, alert: Option<nat>, script: seq<Behaviour>, start: World, i: nat): Run
    requires i < |names| == |script|
  {
    var known := KnownId(start.table, alert);
    Run(names[i], alert, Some(Place(start.table.minted, i + 1, |names|)), StatusOf(script[i].ending),
        ErrorOf(script[i].ending), true,
        if known.Some? then known.value else start.table.minted + 1 + i)
  }

  /**
   The first `n` playbooks have been recorded, in order and one run each, and nothing about the alerts has
   changed.
   */
  ghost predicate Recorded(start: World, now: World, names: seq<string>, alert: Option<nat>, script: seq<Behaviour>,
                           n: nat) {
    && n <= |names| == |script|
    && |now.runs| == |start.runs| + n
    && now.runs[..|start.runs|] == start.runs
    && (forall i :: 0 <= i < n ==> now.runs[|start.runs| + i] == SequenceRun(names, alert, script, start, i))
    && now.table.alerts == start.table.alerts
    && now.table.context == start.table.context
    && (n > 0 ==> !Missing(start.table, alert))
    && (KnownId(start.table, alert).None? && !Missing(start.table, alert) ==>
      now.table.minted == start.table.minted + 1 + n)
  }

  /** The `i`-th recorded run names its playbook and alert, its place from 1 to the number of names, and its end. */
  lemma RecordedRun(start: World, now: World, names: seq<string>, alert: Option<nat>, script: seq<Behaviour>, n: nat,
                    i: nat)
    requires Recorded(start, now, names, alert, script, n) && i < n
    ensures |now.runs| == |start.runs| + n
    ensures var r := now.runs[|start.runs| + i];
      && r.playbook == names[i] && r.alert == alert && r.finished
      && r.place == Some(Place(start.table.minted, i + 1, |names|))
      && (r.status == Success <==> script[i].ending == Returns)
      && (r.status == Cancelled <==> script[i].ending == Cancels)
      && (r.status == Running <==> script[i].ending == Killed)
      && (r.error.Some? <==> r.status == Failed)
      && (r.error.Some? ==> script[i].ending == Raises(r.error.value))
  {
    assert now.runs[|start.runs| + i] == SequenceRun(names, alert, script, start, i);
  }

  lemma RecordedSnoc(start: World, w: World, names: seq<string>, alert: Option<nat>, script: seq<Behaviour>, n: nat)
    requires n < |names| && Recorded(start, w, names, alert, script, n)
    requires names[n] in w.database && !Missing(start.table, alert)
    ensures var q := Request(names[n], alert, Some(Place(start.table.minted, n + 1, |names|)));
      Recorded(start, Executed(w, q, script[n]), names, alert, script, n + 1)
  {
    assert KnownId(w.table, alert) == KnownId(start.table, alert);
  }

  /** The first `n` playbooks were registered, and each gave control back. */
  ghost predicate Reached(names: seq<string>, registered: set<string>, script: seq<Behaviour>, n: nat) {
    n <= |names| == |script| && forall i :: 0 <= i < n ==> GaveBack(names, registered, script, i)
  }

  ghost predicate GaveBack(names: seq<string>, registered: set<string>, script: seq<Behaviour>, i: nat)
    requires i < |names| == |script|
  {
    names[i] in registered && !script[i].ending.Killed?
  }

  ghost predicate Summarizes(results: seq<Summary>, names: seq<string>, script: seq<Behaviour>, start: World, n: nat) {
    && |results| == n <= |names| == |script|
    && forall i :: 0 <= i < n ==> results[i] == SummaryOf(names, script, start, i)
  }

  function SummaryOf(names: seq<string>, script: seq<Behaviour>, start: World, i: nat): Summary
    requires i < |names| == |script|
  {
    Summary(names[i], |start.runs| + i, i + 1, StatusOf(script[i].ending))
  }

  lemma ReachedSnoc(names: seq<string>, registered: set<string>, script: seq<Behaviour>, n: nat)
    requires Reached(names, registered, script, n) && n < |names|
    requires names[n] in registered && !script[n].ending.Killed?
    ensures Reached(names, registered, script, n + 1)
  {
  }

  lemma SummarizesSnoc(results: seq<Summary>, names: seq<string>, script: seq<Behaviour>, start: World, n: nat)
    requires Summarizes(results, names, script, start, n) && n < |names|
    ensures Summarizes(results + [SummaryOf(names, script, start, n)], names, script, start, n + 1)
  {
  }

  /** What a sequence reports of a playbook is what its recorded run says. */
  lemma SummaryTellsRun(start: World, now: World, names: seq<string>, alert: Option<nat>, script: seq<Behaviour>,
                        results: seq<Summary>, n: nat, i: nat)
    requires Recorded(start, now, names, alert, script, n) && Summarizes(results, names, script, start, n) && i < n
    ensures |results| == n && |start.runs| <= results[i].run < |now.runs|
    ensures var r := now.runs[results[i].run];
      && r.playbook == results[i].playbook && r.status == results[i].status
      && r.place == Some(Place(start.table.minted, results[i].position, |names|))
  {
    assert now.runs[|start.runs| + i] == SequenceRun(names, alert, script, start, i);
  }

  /** Why a sequence stopped after recording `n` runs: no other reason exists. */
  ghost predicate ExplainsStop(
    reply: SequenceReply, names: seq<string>, alert: Option<nat>, registered: set<string>, script: seq<Behaviour>,
    n: nat, start: World)
  {
    match reply
    case Finished(results) =>
      n == |names| && Reached(names, registered, script, n) && Summarizes(results, names, script, start, n)
    case Unregistered(name) =>
      n < |names| && Reached(names, registered, script, n) && name == names[n] && name !in registered
    case Aborted(ForeignKeyViolation) =>
      n == 0 && Missing(start.table, alert) && names != [] && names[0] in registered
    case Aborted(Propagated(run)) =>
      && 0 < n <= |names| && run == |start.runs| + n - 1
      && Reached(names, registered, script, n - 1)
      && |script| == |names| && names[n - 1] in registered && script[n - 1].ending.Killed?
    case Aborted(_) => false
  }

  /**
   The runs of a sequence share one correlation id exactly when there was one to take over, or there is just
   one run.
   */
  lemma SequenceSharesId(start: World, now: World, names: seq<string>, alert: Option<nat>, script: seq<Behaviour>,
                         n: nat)
    requires Recorded(start, now, names, alert, script, n)
    ensures (forall i, j :: |start.runs| <= i < j < |now.runs| ==> now.runs[i].correlation == now.runs[j].correlation)
      <==> (KnownId(start.table, alert).Some? || n <= 1)
  {
    var b := |start.runs|;
    forall i | b <= i < b + n ensures now.runs[i] == SequenceRun(names, alert, script, start, i - b) {
      assert now.runs[b + (i - b)] == SequenceRun(names, alert, script, start, i - b);
    }
    if n > 1 && KnownId(start.table, alert).None? {
      assert now.runs[b].correlation != now.runs[b + 1].correlation;
    }
  }
}
