/**
 Many scheduler processes sharing one lock server. Every step of every process is one event, so a
 sequence of events is one interleaving; a lock key lives from its `SET` until its expiry.
 */
module TickProtocol {
  import opened Common
  import opened Scheduler

  /** `intervals` is the job table every process registers; `offset` is wall minus monotonic time. */
  datatype Config = Config(intervals: map<string, int>, lockTtl: int, maxDelay: real)

  datatype Pc =
    | Idle
    | Looping(now: real, todo: seq<string>)
    | Formed(now: real, todo: seq<string>, name: string, bucket: nat, at: real)
    | Running(now: real, todo: seq<string>, name: string, bucket: nat)

  datatype Node = Node(offset: real, jobs: map<string, Job>, pc: Pc)

  datatype Entry =
    | Attempt(id: nat, name: string, bucket: nat)
    | Execution(id: nat, name: string, bucket: nat)
    | Settlement(id: nat, name: string, bucket: nat)
    | Failure(id: nat, name: string, bucket: nat)

  datatype World = World(wall: Instant, store: map<string, real>, nodes: map<nat, Node>, log: seq<Entry>)

  /** An answered `SET`, or one that raised with or without having taken effect on the server. */
  datatype Outcome = Answered | RaisedUnapplied | RaisedApplied

  datatype Event =
    | Pass(dt: real)
    | Begin(id: nat, order: seq<string>)
    | SkipNotDue(id: nat)
    | FormKey(id: nat)
    | SetKey(id: nat, outcome: Outcome)
    | Return(id: nat, ok: bool)
    | End(id: nat)

  function Mono(w: World, id: nat): real
    requires id in w.nodes
  {
    w.wall - w.nodes[id].offset
  }

  /** `ex=max(1, int(ttl_seconds))`. */
  function Expiry(cfg: Config): (ex: int)
    ensures ex >= 1 && ex >= cfg.lockTtl && (ex == 1 || ex == cfg.lockTtl)
  {
    if cfg.lockTtl < 1 then 1 else cfg.lockTtl
  }

  predicate Live(w: World, key: string) {
    key in w.store && w.wall < w.store[key]
  }

  ghost predicate Enabled(cfg: Config, w: World, e: Event) {
    match e
    case Pass(dt) => dt >= 0.0
    case Begin(id, order) =>
      id in w.nodes && w.nodes[id].pc.Idle? && Distinct(order) &&
      forall n :: n in order <==> n in w.nodes[id].jobs
    case SkipNotDue(id) =>
      id in w.nodes && w.nodes[id].pc.Looping? && w.nodes[id].pc.todo != [] &&
      w.nodes[id].pc.todo[0] in w.nodes[id].jobs && !Due(w.nodes[id].jobs[w.nodes[id].pc.todo[0]], w.nodes[id].pc.now)
    case FormKey(id) =>
      id in w.nodes && w.nodes[id].pc.Looping? && w.nodes[id].pc.todo != [] &&
      w.nodes[id].pc.todo[0] in w.nodes[id].jobs && Due(w.nodes[id].jobs[w.nodes[id].pc.todo[0]], w.nodes[id].pc.now)
    case SetKey(id, outcome) =>
      id in w.nodes && w.nodes[id].pc.Formed? && w.nodes[id].pc.name in w.nodes[id].jobs &&
      w.wall - w.nodes[id].pc.at <= cfg.maxDelay
    case Return(id, ok) =>
      id in w.nodes && w.nodes[id].pc.Running? && w.nodes[id].pc.name in w.nodes[id].jobs
    case End(id) =>
      id in w.nodes && w.nodes[id].pc.Looping? && w.nodes[id].pc.todo == []
  }

  function WithNode(w: World, id: nat, node: Node): World {
    w.(nodes := w.nodes[id := node])
  }

  function SettleAt(w: World, id: nat, name: string, bucket: nat): Node
    requires id in w.nodes && name in w.nodes[id].jobs && (w.nodes[id].pc.Formed? || w.nodes[id].pc.Running?)
  {
    var node := w.nodes[id];
    Node(node.offset,
         node.jobs[name := Settled(node.jobs[name], Mono(w, id), TickId(name, bucket))],
         Looping(node.pc.now, node.pc.todo))
  }

  ghost function Step(cfg: Config, w: World, e: Event): World
    requires Enabled(cfg, w, e)
  {
    match e
    case Pass(dt) => w.(wall := w.wall + dt)
    case Begin(id, order) =>
      WithNode(w, id, w.nodes[id].(pc := Looping(Mono(w, id), order)))
    case SkipNotDue(id) =>
      WithNode(w, id, w.nodes[id].(pc := Looping(w.nodes[id].pc.now, w.nodes[id].pc.todo[1..])))
    case FormKey(id) =>
      var pc := w.nodes[id].pc;
      var name := pc.todo[0];
      var bucket := Bucket(w.nodes[id].jobs[name].interval, w.wall);
      WithNode(w, id, w.nodes[id].(pc := Formed(pc.now, pc.todo[1..], name, bucket, w.wall)))
      .(log := w.log + [Attempt(id, name, bucket)])
    case SetKey(id, outcome) =>
      var pc := w.nodes[id].pc;
      var key := LockKey(pc.name, pc.bucket);
      var created := outcome != RaisedUnapplied && !Live(w, key);
      var store := if created then w.store[key := w.wall + Expiry(cfg) as real] else w.store;
      if created && outcome == Answered then
        WithNode(w, id, w.nodes[id].(pc := Running(pc.now, pc.todo, pc.name, pc.bucket)))
        .(store := store, log := w.log + [Execution(id, pc.name, pc.bucket)])
      else
        WithNode(w, id, SettleAt(w, id, pc.name, pc.bucket))
        .(store := store, log := w.log + [Settlement(id, pc.name, pc.bucket)])
    case Return(id, ok) =>
      var pc := w.nodes[id].pc;
      if ok then
        WithNode(w, id, SettleAt(w, id, pc.name, pc.bucket)).(log := w.log + [Settlement(id, pc.name, pc.bucket)])
      else
        WithNode(w, id, w.nodes[id].(pc := Looping(pc.now, pc.todo))).(log := w.log + [Failure(id, pc.name, pc.bucket)])
    case End(id) =>
      WithNode(w, id, w.nodes[id].(pc := Idle))
  }

  /** Every process registers jobs out of the common table, and none has started a pass yet. */
  ghost predicate Initial(cfg: Config, w: World) {
    && w.log == []
    && forall id :: id in w.nodes ==>
      w.nodes[id].pc.Idle? && HasIntervals(cfg, w.nodes[id].jobs)
  }

  ghost predicate HasIntervals(cfg: Config, jobs: map<string, Job>) {
    forall n :: n in jobs ==> n in cfg.intervals && jobs[n].interval == cfg.intervals[n]
  }

  ghost predicate Legal(cfg: Config, w: World, es: seq<Event>)
    decreases |es|
  {
    es == [] || (Enabled(cfg, w, es[0]) && Legal(cfg, Step(cfg, w, es[0]), es[1..]))
  }

  ghost function Run(cfg: Config, w: World, es: seq<Event>): World
    requires Legal(cfg, w, es)
    decreases |es|
  {
    if es == [] then w else Run(cfg, Step(cfg, w, es[0]), es[1..])
  }

  // ---- At most one execution per bucket ----

  /** The lock outlives the bucket by the longest time a formed key can be late. */
  predicate LongEnough(cfg: Config, name: string)
    requires name in cfg.intervals
  {
    Expiry(cfg) as real >= Period(cfg.intervals[name]) as real + cfg.maxDelay
  }

  ghost predicate UnprefixedNames(cfg: Config) {
    forall n :: n in cfg.intervals ==> !(KEY_PREFIX <= n)
  }

  ghost predicate AtMostOnce(log: seq<Entry>, name: string) {
    forall j, k :: 0 <= j < k < |log| && log[j].Execution? && log[k].Execution? && log[j].name == log[k].name == name
      ==> log[j].bucket != log[k].bucket
  }

  function BucketStart(cfg: Config, name: string, bucket: nat): real
    requires name in cfg.intervals
  {
    (bucket * Period(cfg.intervals[name])) as real
  }

  ghost predicate NodeOk(cfg: Config, w: World, node: Node) {
    && HasIntervals(cfg, node.jobs)
    && (node.pc.Formed? ==>
      && node.pc.name in node.jobs && node.pc.at <= w.wall
      && BucketStart(cfg, node.pc.name, node.pc.bucket) <= node.pc.at
      && node.pc.at < BucketStart(cfg, node.pc.name, node.pc.bucket + 1))
  }

  ghost predicate NodesOk(cfg: Config, w: World) {
    forall id :: id in w.nodes ==> NodeOk(cfg, w, w.nodes[id])
  }

  /** Each bucket that ran holds its key until no late `SET` for the bucket can arrive. */
  ghost predicate KeysHeld(cfg: Config, w: World, name: string)
    requires name in cfg.intervals
  {
    forall e :: e in w.log && e.Execution? && e.name == name ==>
      && LockKey(name, e.bucket) in w.store
      && w.store[LockKey(name, e.bucket)] >= BucketStart(cfg, name, e.bucket) + Expiry(cfg) as real
  }

  ghost predicate LockInv(cfg: Config, w: World, name: string)
    requires name in cfg.intervals
  {
    NodesOk(cfg, w) && KeysHeld(cfg, w, name) && AtMostOnce(w.log, name)
  }

  lemma NodesOkStep(cfg: Config, w: World, e: Event)
    requires NodesOk(cfg, w) && Enabled(cfg, w, e)
    ensures NodesOk(cfg, Step(cfg, w, e))
  {
    var v := Step(cfg, w, e);
    if e.Pass? {
      forall id | id in w.nodes ensures NodeOk(cfg, v, w.nodes[id]) {
        assert NodeOk(cfg, w, w.nodes[id]);
      }
    } else {
      assert NodeOk(cfg, w, w.nodes[e.id]);
      assert NodeOk(cfg, v, v.nodes[e.id]);
      forall id | id in w.nodes && id != e.id ensures NodeOk(cfg, v, v.nodes[id]) {
        assert NodeOk(cfg, w, w.nodes[id]) && v.nodes[id] == w.nodes[id];
      }
    }
  }

  /** A `SET` that comes within the allowed delay finds the key of an executed bucket still live. */
  lemma ExecutedKeyIsLive(cfg: Config, w: World, id: nat, name: string, x: Entry)
    requires name in cfg.intervals && LongEnough(cfg, name) && LockInv(cfg, w, name)
    requires Enabled(cfg, w, SetKey(id, Answered)) && w.nodes[id].pc.name == name
    requires x in w.log && x.Execution? && x.name == name && x.bucket == w.nodes[id].pc.bucket
    ensures Live(w, LockKey(name, x.bucket))
  {
    assert NodeOk(cfg, w, w.nodes[id]);
    var p := Period(cfg.intervals[name]);
    assert (x.bucket + 1) * p == x.bucket * p + p;
  }

  /** A new execution of a job finds every earlier execution's key untouched, and its own key not claimed by one. */
  lemma SetKeySpares(cfg: Config, w: World, id: nat, outcome: Outcome, name: string, x: Entry)
    requires UnprefixedNames(cfg) && name in cfg.intervals && LongEnough(cfg, name)
    requires LockInv(cfg, w, name) && Enabled(cfg, w, SetKey(id, outcome))
    requires x in w.log && x.Execution? && x.name == name
    ensures var v, key := Step(cfg, w, SetKey(id, outcome)), LockKey(name, x.bucket);
      key in v.store && key in w.store && v.store[key] == w.store[key]
    ensures var pc := w.nodes[id].pc; pc.name == name && pc.bucket == x.bucket ==> Live(w, LockKey(name, x.bucket))
  {
    var pc := w.nodes[id].pc;
    assert NodeOk(cfg, w, w.nodes[id]);
    if LockKey(name, x.bucket) == LockKey(pc.name, pc.bucket) {
      LockKeyInjective(name, x.bucket, pc.name, pc.bucket);
      ExecutedKeyIsLive(cfg, w, id, name, x);
    }
  }

  lemma SetKeyKeeps(cfg: Config, w: World, id: nat, outcome: Outcome, name: string)
    requires UnprefixedNames(cfg) && name in cfg.intervals && LongEnough(cfg, name)
    requires LockInv(cfg, w, name) && Enabled(cfg, w, SetKey(id, outcome))
    ensures KeysHeld(cfg, Step(cfg, w, SetKey(id, outcome)), name)
  {
    assert NodeOk(cfg, w, w.nodes[id]);
    forall x | x in w.log && x.Execution? && x.name == name
      ensures var v, key := Step(cfg, w, SetKey(id, outcome)), LockKey(name, x.bucket);
        key in v.store && v.store[key] == w.store[key]
    {
      SetKeySpares(cfg, w, id, outcome, name, x);
    }
  }

  lemma SetKeyStep(cfg: Config, w: World, id: nat, outcome: Outcome, name: string)
    requires UnprefixedNames(cfg) && name in cfg.intervals && LongEnough(cfg, name)
    requires LockInv(cfg, w, name) && Enabled(cfg, w, SetKey(id, outcome))
    ensures KeysHeld(cfg, Step(cfg, w, SetKey(id, outcome)), name)
    ensures AtMostOnce(Step(cfg, w, SetKey(id, outcome)).log, name)
  {
    var pc := w.nodes[id].pc;
    SetKeyKeeps(cfg, w, id, outcome, name);
    assert NodeOk(cfg, w, w.nodes[id]);
    forall x | x in w.log && x.Execution? && x.name == name
      ensures pc.name == name && pc.bucket == x.bucket ==> Live(w, LockKey(name, x.bucket))
    {
      SetKeySpares(cfg, w, id, outcome, name, x);
    }
  }

  lemma LockInvStep(cfg: Config, w: World, e: Event, name: string)
    requires UnprefixedNames(cfg) && name in cfg.intervals && LongEnough(cfg, name)
    requires LockInv(cfg, w, name) && Enabled(cfg, w, e)
    ensures LockInv(cfg, Step(cfg, w, e), name)
  {
    NodesOkStep(cfg, w, e);
    if e.SetKey? {
      SetKeyStep(cfg, w, e.id, e.outcome, name);
    }
  }

  /** In every interleaving, a (job, bucket) is executed by at most one process, at most once. */
  lemma {:induction false} AtMostOneExecution(cfg: Config, w: World, es: seq<Event>, name: string)
    requires UnprefixedNames(cfg) && name in cfg.intervals && LongEnough(cfg, name)
    requires Legal(cfg, w, es) && LockInv(cfg, w, name)
    ensures LockInv(cfg, Run(cfg, w, es), name)
    decreases |es|
  {
    if es != [] {
      LockInvStep(cfg, w, es[0], name);
      AtMostOneExecution(cfg, Step(cfg, w, es[0]), es[1..], name);
    }
  }

  lemma ExecutedAtMostOnce(cfg: Config, w: World, es: seq<Event>, name: string)
    requires UnprefixedNames(cfg) && name in cfg.intervals && LongEnough(cfg, name)
    requires Initial(cfg, w) && Legal(cfg, w, es)
    ensures AtMostOnce(Run(cfg, w, es).log, name)
  {
    AtMostOneExecution(cfg, w, es, name);
  }

  // ---- Jobs do not block each other ----

  ghost predicate KeyClaimed(log: seq<Entry>, key: string) {
    exists e :: e in log && (e.Execution? || e.Settlement?) && key == LockKey(e.name, e.bucket)
  }

  lemma KeyClaimedStep(cfg: Config, w: World, e: Event)
    requires Enabled(cfg, w, e) && forall key :: key in w.store ==> KeyClaimed(w.log, key)
    ensures forall key :: key in Step(cfg, w, e).store ==> KeyClaimed(Step(cfg, w, e).log, key)
  {
    var v := Step(cfg, w, e);
    assert forall x :: x in w.log ==> x in v.log;
    if e.SetKey? {
      var pc := w.nodes[e.id].pc;
      var x := v.log[|v.log| - 1];
      assert x in v.log && LockKey(pc.name, pc.bucket) == LockKey(x.name, x.bucket);
    }
  }

  lemma {:induction false} KeysClaimed(cfg: Config, w: World, es: seq<Event>)
    requires Legal(cfg, w, es) && forall key :: key in w.store ==> KeyClaimed(w.log, key)
    ensures forall key :: key in Run(cfg, w, es).store ==> KeyClaimed(Run(cfg, w, es).log, key)
    decreases |es|
  {
    if es != [] {
      KeyClaimedStep(cfg, w, es[0]);
      KeysClaimed(cfg, Step(cfg, w, es[0]), es[1..]);
    }
  }

  /** A job finds its key live only if that very job already claimed that very bucket. */
  lemma BlockedOnlyByItself(cfg: Config, w: World, es: seq<Event>, name: string, bucket: nat)
    requires UnprefixedNames(cfg) && name in cfg.intervals
    requires Initial(cfg, w) && w.store == map[] && Legal(cfg, w, es)
    requires Live(Run(cfg, w, es), LockKey(name, bucket))
    ensures exists e ::
      e in Run(cfg, w, es).log && (e.Execution? || e.Settlement?) && e.name == name && e.bucket == bucket
  {
    KeysClaimed(cfg, w, es);
    LogNamesKnown(cfg, w, es);
    var v := Run(cfg, w, es);
    var e :| e in v.log && (e.Execution? || e.Settlement?) && LockKey(name, bucket) == LockKey(e.name, e.bucket);
    LockKeyInjective(name, bucket, e.name, e.bucket);
  }

  ghost predicate KnownNames(cfg: Config, w: World) {
    NodesOk(cfg, w) && forall e :: e in w.log ==> e.name in cfg.intervals
  }

  ghost predicate RunningKnown(cfg: Config, w: World) {
    forall id :: id in w.nodes && w.nodes[id].pc.Running? ==> w.nodes[id].pc.name in w.nodes[id].jobs
  }

  lemma {:induction false} LogNamesKnown(cfg: Config, w: World, es: seq<Event>)
    requires KnownNames(cfg, w) && RunningKnown(cfg, w) && Legal(cfg, w, es)
    ensures KnownNames(cfg, Run(cfg, w, es))
    decreases |es|
  {
    if es != [] {
      NodesOkStep(cfg, w, es[0]);
      if es[0].Pass? {
      } else {
        assert NodeOk(cfg, w, w.nodes[es[0].id]);
      }
      LogNamesKnown(cfg, Step(cfg, w, es[0]), es[1..]);
    }
  }

  // ---- A process moves on to later buckets ----

  predicate Concerns(e: Entry, id: nat, name: string) {
    e.id == id && e.name == name
  }

  ghost predicate SettledBefore(log: seq<Entry>, id: nat, name: string, bucket: nat) {
    forall e :: e in log && e.Settlement? && Concerns(e, id, name) ==> e.bucket < bucket
  }

  predicate Resolves(e: Entry, a: Entry) {
    (e.Settlement? || e.Failure?) && Concerns(e, a.id, a.name) && e.bucket == a.bucket
  }

  predicate Pending(node: Node, a: Entry) {
    (node.pc.Formed? || node.pc.Running?) && node.pc.name == a.name && node.pc.bucket == a.bucket
  }

  /** After a settlement every later attempt of the process at the job is for a later bucket. */
  ghost predicate MovesOn(log: seq<Entry>, id: nat, name: string) {
    forall j, k :: 0 <= j < k < |log| && log[j].Settlement? && log[k].Attempt?
      && Concerns(log[j], id, name) && Concerns(log[k], id, name)
      ==> log[j].bucket < log[k].bucket
  }

  ghost predicate Resolved(log: seq<Entry>, j: int)
    requires 0 <= j < |log|
  {
    exists m :: j < m < |log| && Resolves(log[m], log[j])
  }

  ghost predicate ClockOk(cfg: Config, w: World, id: nat, name: string)
    requires name in cfg.intervals && id in w.nodes
  {
    var node := w.nodes[id];
    && (!node.pc.Idle? ==> node.pc.now + node.offset <= w.wall)
    && ((node.pc.Formed? || node.pc.Running?) && node.pc.name == name ==>
      BucketStart(cfg, name, node.pc.bucket) <= w.wall && SettledBefore(w.log, id, name, node.pc.bucket))
    && (forall e :: e in w.log && e.Settlement? && Concerns(e, id, name) ==>
      && name in node.jobs
      && BucketStart(cfg, name, e.bucket) <= node.jobs[name].lastRun + node.offset
      && BucketStart(cfg, name, e.bucket) <= w.wall)
  }

  /** Every attempt has been resolved, or its callback is still running. */
  ghost predicate Accounted(w: World, id: nat, name: string)
    requires id in w.nodes
  {
    forall j :: 0 <= j < |w.log| && w.log[j].Attempt? && Concerns(w.log[j], id, name) ==>
      Resolved(w.log, j) || Pending(w.nodes[id], w.log[j])
  }

  ghost predicate ProgressInv(cfg: Config, w: World, id: nat, name: string)
    requires name in cfg.intervals
  {
    && NodesOk(cfg, w) && id in w.nodes && ClockOk(cfg, w, id, name)
    && MovesOn(w.log, id, name)
    && Accounted(w, id, name)
  }

  /** A due job that was settled before is due for a strictly later bucket. */
  lemma DueMeansLater(cfg: Config, w: World, id: nat, name: string)
    requires name in cfg.intervals && cfg.intervals[name] >= 1
    requires ProgressInv(cfg, w, id, name) && Enabled(cfg, w, FormKey(id)) && w.nodes[id].pc.todo[0] == name
    ensures SettledBefore(w.log, id, name, Bucket(cfg.intervals[name], w.wall))
  {
    assert NodeOk(cfg, w, w.nodes[id]);
    var p := Period(cfg.intervals[name]);
    forall e | e in w.log && e.Settlement? && Concerns(e, id, name)
      ensures e.bucket < Bucket(cfg.intervals[name], w.wall)
    {
      assert (e.bucket + 1) * p == e.bucket * p + p;
      LaterBucket(cfg.intervals[name], w.wall, e.bucket);
    }
  }

  /** Forming a key: the bucket is later than every settled one. */
  lemma ClockOkForm(cfg: Config, w: World, id: nat, name: string)
    requires name in cfg.intervals && cfg.intervals[name] >= 1
    requires ProgressInv(cfg, w, id, name) && Enabled(cfg, w, FormKey(id))
    ensures ClockOk(cfg, Step(cfg, w, FormKey(id)), id, name)
  {
    var v := Step(cfg, w, FormKey(id));
    assert NodeOk(cfg, w, w.nodes[id]) && v.nodes[id].jobs == w.nodes[id].jobs;
    assert forall e :: e in v.log && e.Settlement? ==> e in w.log;
    if w.nodes[id].pc.todo[0] == name {
      DueMeansLater(cfg, w, id, name);
    }
  }

  /** A `SET` reply or a returning callback: a settled job's clock is now, not before any settled bucket. */
  lemma ClockOkReply(cfg: Config, w: World, e: Event, id: nat, name: string)
    requires name in cfg.intervals && (e.SetKey? || e.Return?) && e.id == id
    requires ProgressInv(cfg, w, id, name) && Enabled(cfg, w, e)
    ensures ClockOk(cfg, Step(cfg, w, e), id, name)
  {
    var v := Step(cfg, w, e);
    var last := v.log[|w.log|];
    assert v.log == w.log + [last] && v.wall == w.wall && v.nodes[id].offset == w.nodes[id].offset;
    assert last.id == id && last.name == w.nodes[id].pc.name && last.bucket == w.nodes[id].pc.bucket;
    forall x | x in v.log && x.Settlement? && Concerns(x, id, name)
      ensures name in v.nodes[id].jobs
      ensures BucketStart(cfg, name, x.bucket) <= v.nodes[id].jobs[name].lastRun + v.nodes[id].offset
      ensures BucketStart(cfg, name, x.bucket) <= v.wall
    {
      assert x in w.log || x == last;
    }
  }

  /** A step other than this instance's own key or reply leaves its clock facts alone. */
  lemma ClockOkOther(cfg: Config, w: World, e: Event, id: nat, name: string)
    requires name in cfg.intervals && e != FormKey(id) && !((e.SetKey? || e.Return?) && e.id == id)
    requires NodesOk(cfg, w) && id in w.nodes && ClockOk(cfg, w, id, name) && Enabled(cfg, w, e)
    ensures ClockOk(cfg, Step(cfg, w, e), id, name)
  {
    var v := Step(cfg, w, e);
    assert v.nodes[id].jobs == w.nodes[id].jobs && v.nodes[id].offset == w.nodes[id].offset && v.wall >= w.wall;
    assert forall x :: x in v.log && Concerns(x, id, name) ==> x in w.log;
  }

  lemma ClockOkStep(cfg: Config, w: World, e: Event, id: nat, name: string)
    requires name in cfg.intervals && cfg.intervals[name] >= 1
    requires ProgressInv(cfg, w, id, name) && Enabled(cfg, w, e)
    ensures ClockOk(cfg, Step(cfg, w, e), id, name)
  {
    if e == FormKey(id) {
      ClockOkForm(cfg, w, id, name);
    } else if (e.SetKey? || e.Return?) && e.id == id {
      ClockOkReply(cfg, w, e, id, name);
    } else {
      ClockOkOther(cfg, w, e, id, name);
    }
  }

  lemma AccountedStep(cfg: Config, w: World, e: Event, id: nat, name: string)
    requires name in cfg.intervals
    requires ProgressInv(cfg, w, id, name) && Enabled(cfg, w, e)
    ensures Accounted(Step(cfg, w, e), id, name)
  {
    var v := Step(cfg, w, e);
    assert NodeOk(cfg, w, w.nodes[id]);
    forall j | 0 <= j < |v.log| && v.log[j].Attempt? && Concerns(v.log[j], id, name)
      ensures Resolved(v.log, j) || Pending(v.nodes[id], v.log[j])
    {
      if j < |w.log| {
        assert v.log[j] == w.log[j];
        if Resolved(w.log, j) {
          var m :| j < m < |w.log| && Resolves(w.log[m], w.log[j]);
          assert Resolves(v.log[m], v.log[j]);
        } else if !Pending(v.nodes[id], v.log[j]) {
          assert Resolves(v.log[|w.log|], v.log[j]);
        }
      }
    }
  }

  lemma MovesOnStep(cfg: Config, w: World, e: Event, id: nat, name: string)
    requires name in cfg.intervals && cfg.intervals[name] >= 1
    requires ProgressInv(cfg, w, id, name) && Enabled(cfg, w, e)
    ensures MovesOn(Step(cfg, w, e).log, id, name)
  {
    assert NodeOk(cfg, w, w.nodes[id]);
    if e == FormKey(id) && w.nodes[id].pc.todo[0] == name {
      DueMeansLater(cfg, w, id, name);
    }
  }

  lemma ProgressInvStep(cfg: Config, w: World, e: Event, id: nat, name: string)
    requires name in cfg.intervals && cfg.intervals[name] >= 1
    requires ProgressInv(cfg, w, id, name) && Enabled(cfg, w, e)
    ensures ProgressInv(cfg, Step(cfg, w, e), id, name)
  {
    NodesOkStep(cfg, w, e);
    ClockOkStep(cfg, w, e, id, name);
    MovesOnStep(cfg, w, e, id, name);
    AccountedStep(cfg, w, e, id, name);
  }

  lemma {:induction false} ProgressInvRun(cfg: Config, w: World, es: seq<Event>, id: nat, name: string)
    requires name in cfg.intervals && cfg.intervals[name] >= 1
    requires ProgressInv(cfg, w, id, name) && Legal(cfg, w, es)
    ensures ProgressInv(cfg, Run(cfg, w, es), id, name)
    decreases |es|
  {
    if es != [] {
      ProgressInvStep(cfg, w, es[0], id, name);
      ProgressInvRun(cfg, Step(cfg, w, es[0]), es[1..], id, name);
    }
  }

  /**
   After a completed callback or a lost lock the next attempt is for a strictly later bucket.
   So one process attempts one key twice only after a callback of that key failed in between.
   */
  lemma {:induction false} SelfProgress(cfg: Config, w: World, es: seq<Event>, id: nat, name: string)
    requires name in cfg.intervals && cfg.intervals[name] >= 1
    requires Initial(cfg, w) && id in w.nodes && Legal(cfg, w, es)
    ensures MovesOn(Run(cfg, w, es).log, id, name)
    ensures RetriesOnlyFailures(Run(cfg, w, es).log, id, name)
  {
    assert NodeOk(cfg, w, w.nodes[id]);
    ProgressInvRun(cfg, w, es, id, name);
    RetriesRun(cfg, w, es, id, name);
  }

  ghost predicate FailedBetween(log: seq<Entry>, j: int, k: int)
    requires 0 <= j < k < |log|
  {
    exists m :: j < m < k && log[m].Failure? && Resolves(log[m], log[j])
  }

  ghost predicate RetriesOnlyFailures(log: seq<Entry>, id: nat, name: string) {
    forall j, k :: 0 <= j < k < |log| && log[j].Attempt? && log[k] == log[j] && Concerns(log[j], id, name)
      ==> FailedBetween(log, j, k)
  }

  /** A log that grows keeps what lies between two of its entries. */
  lemma FailedBetweenGrows(log: seq<Entry>, more: seq<Entry>, j: int, k: int)
    requires 0 <= j < k < |log| && FailedBetween(log, j, k)
    ensures FailedBetween(log + more, j, k)
  {
    var m :| j < m < k && log[m].Failure? && Resolves(log[m], log[j]);
    assert (log + more)[m].Failure? && Resolves((log + more)[m], (log + more)[j]);
  }

  /** What resolved an attempt that is repeated now was a failure: a settlement would have moved the process on. */
  lemma RepeatedAfterFailure(log: seq<Entry>, a: Entry, id: nat, name: string, j: int)
    requires a.Attempt? && Concerns(a, id, name) && 0 <= j < |log| && log[j] == a && Resolved(log, j)
    requires MovesOn(log + [a], id, name)
    ensures FailedBetween(log + [a], j, |log|)
  {
    var all := log + [a];
    var m :| j < m < |log| && Resolves(log[m], log[j]);
    assert all[m] == log[m] && all[|log|] == a && all[j] == a;
    assert !all[m].Settlement?;
  }

  lemma RetriesStep(cfg: Config, w: World, e: Event, id: nat, name: string)
    requires name in cfg.intervals && cfg.intervals[name] >= 1
    requires ProgressInv(cfg, w, id, name) && RetriesOnlyFailures(w.log, id, name) && Enabled(cfg, w, e)
    ensures RetriesOnlyFailures(Step(cfg, w, e).log, id, name)
  {
    var v, n := Step(cfg, w, e), |w.log|;
    ProgressInvStep(cfg, w, e, id, name);
    assert v.log == w.log + v.log[n..];
    forall j, k | 0 <= j < k < |v.log| && v.log[j].Attempt? && v.log[k] == v.log[j] && Concerns(v.log[j], id, name)
      ensures FailedBetween(v.log, j, k)
    {
      assert v.log[j] == w.log[j];
      if k < n {
        FailedBetweenGrows(w.log, v.log[n..], j, k);
      } else {
        assert v.log[n..] == [v.log[k]];
        ResolvedBeforeRepeat(cfg, w, e, id, name, j);
        RepeatedAfterFailure(w.log, v.log[k], id, name, j);
      }
    }
  }

  /** A process that forms a key has no callback pending, so its earlier attempts are resolved. */
  lemma ResolvedBeforeRepeat(cfg: Config, w: World, e: Event, id: nat, name: string, j: int)
    requires name in cfg.intervals && ProgressInv(cfg, w, id, name) && Enabled(cfg, w, e)
    requires 0 <= j < |w.log| && w.log[j].Attempt? && Concerns(w.log[j], id, name)
    requires var v := Step(cfg, w, e); |v.log| > |w.log| && v.log[|w.log|].Attempt? && v.log[|w.log|].id == id
    ensures Resolved(w.log, j)
  {
  }

  lemma {:induction false} RetriesRun(cfg: Config, w: World, es: seq<Event>, id: nat, name: string)
    requires name in cfg.intervals && cfg.intervals[name] >= 1
    requires ProgressInv(cfg, w, id, name) && RetriesOnlyFailures(w.log, id, name) && Legal(cfg, w, es)
    ensures RetriesOnlyFailures(Run(cfg, w, es).log, id, name)
    decreases |es|
  {
    if es != [] {
      RetriesStep(cfg, w, es[0], id, name);
      ProgressInvStep(cfg, w, es[0], id, name);
      RetriesRun(cfg, Step(cfg, w, es[0]), es[1..], id, name);
    }
  }

  // ---- A shorter lock is not enough ----

  lemma {:induction false} Extend(cfg: Config, w: World, es: seq<Event>, e: Event)
    requires Legal(cfg, w, es) && Enabled(cfg, Run(cfg, w, es), e)
    ensures Legal(cfg, w, es + [e]) && Run(cfg, w, es + [e]) == Step(cfg, Run(cfg, w, es), e)
    decreases |es|
  {
    if es == [] {
      assert [] + [e] == [e];
      assert [e][1..] == [];
    } else {
      Extend(cfg, Step(cfg, w, es[0]), es[1..], e);
      assert (es + [e])[1..] == es[1..] + [e];
    }
  }

  function Newcomer(cfg: Config, name: string): Node
    requires name in cfg.intervals
  {
    Node(0.0, map[name := Job(cfg.intervals[name], 0.0, None)], Idle)
  }

  /** Two processes at the start of bucket 1 of one job. */
  function TwoProcesses(cfg: Config, name: string): World
    requires name in cfg.intervals
  {
    World(Period(cfg.intervals[name]) as real, map[], map[0 := Newcomer(cfg, name), 1 := Newcomer(cfg, name)], [])
  }

  /** How long before the end of the bucket the second process forms its key. */
  function Margin(cfg: Config, name: string): (m: real)
    requires name in cfg.intervals
  {
    var p := Period(cfg.intervals[name]) as real;
    var slack := p + cfg.maxDelay - Expiry(cfg) as real;
    if slack < p then slack else p
  }

  /** The first process runs the job at the start of the bucket. */
  lemma FirstProcessRuns(cfg: Config, name: string) returns (es: seq<Event>)
    requires name in cfg.intervals && cfg.maxDelay >= 0.0
    ensures Legal(cfg, TwoProcesses(cfg, name), es)
    ensures var w, p := Run(cfg, TwoProcesses(cfg, name), es), Period(cfg.intervals[name]);
      && w.wall == p as real
      && w.store == map[LockKey(name, 1) := p as real + Expiry(cfg) as real]
      && w.log == [Attempt(0, name, 1), Execution(0, name, 1)]
      && 0 in w.nodes && !w.nodes[0].pc.Formed?
      && w.nodes.Keys == {0, 1} && w.nodes[1] == Newcomer(cfg, name)
  {
    var w0 := TwoProcesses(cfg, name);
    es := Play(cfg, w0, [], Begin(0, [name]));
    BucketUnique(cfg.intervals[name], w0.wall, 1);
    es := Play(cfg, w0, es, FormKey(0));
    es := Play(cfg, w0, es, SetKey(0, Answered));
  }

  /** The first process runs at once; the second forms its key late and is delayed by `maxDelay`. */
  lemma ShortLockRunsTwice(cfg: Config, name: string) returns (es: seq<Event>)
    requires name in cfg.intervals && cfg.maxDelay >= 0.0 && !LongEnough(cfg, name)
    ensures Legal(cfg, TwoProcesses(cfg, name), es)
    ensures !AtMostOnce(Run(cfg, TwoProcesses(cfg, name), es).log, name)
  {
    var w0, p, m := TwoProcesses(cfg, name), Period(cfg.intervals[name]), Margin(cfg, name);
    es := FirstProcessRuns(cfg, name);
    es := Play(cfg, w0, es, Pass(p as real - m));
    es := Play(cfg, w0, es, Begin(1, [name]));
    var w5 := Run(cfg, w0, es);
    assert w5.wall == (2 * p) as real - m;
    BucketUnique(cfg.intervals[name], w5.wall, 1);
    es := Play(cfg, w0, es, FormKey(1));
    es := Play(cfg, w0, es, Pass(cfg.maxDelay));
    es := Play(cfg, w0, es, SetKey(1, Answered));
    var log := Run(cfg, w0, es).log;
    assert log[1] == Execution(0, name, 1) && log[3] == Execution(1, name, 1);
  }

  lemma Play(cfg: Config, w: World, es: seq<Event>, e: Event) returns (r: seq<Event>)
    requires Legal(cfg, w, es) && Enabled(cfg, Run(cfg, w, es), e)
    ensures r == es + [e] && Legal(cfg, w, r) && Run(cfg, w, r) == Step(cfg, Run(cfg, w, es), e)
  {
    Extend(cfg, w, es, e);
    r := es + [e];
  }

  /** Two passes in a row of one process, with nothing to keep the second from coming at once. */
  lemma RepeatsBucket(cfg: Config, name: string) returns (es: seq<Event>)
    requires name in cfg.intervals && cfg.maxDelay >= 0.0 && cfg.intervals[name] < 1
    ensures Legal(cfg, TwoProcesses(cfg, name), es)
    ensures Run(cfg, TwoProcesses(cfg, name), es).log ==
      [Attempt(0, name, 1), Settlement(0, name, 1), Attempt(0, name, 1)]
  {
    var w0 := TwoProcesses(cfg, name);
    BucketUnique(cfg.intervals[name], w0.wall, 1);
    es := Play(cfg, w0, [], Begin(0, [name]));
    es := Play(cfg, w0, es, FormKey(0));
    es := Play(cfg, w0, es, SetKey(0, RaisedUnapplied));
    es := Play(cfg, w0, es, End(0));
    var w4 := Run(cfg, w0, es);
    assert w4.log == [Attempt(0, name, 1), Settlement(0, name, 1)];
    assert w4.nodes[0].jobs == map[name := w4.nodes[0].jobs[name]];
    es := Play(cfg, w0, es, Begin(0, [name]));
    es := Play(cfg, w0, es, FormKey(0));
  }

  ghost predicate ProgressInEveryRun(cfg: Config, name: string) {
    forall w, es, id :: Initial(cfg, w) && id in w.nodes && Legal(cfg, w, es) ==> MovesOn(Run(cfg, w, es).log, id, name)
  }

  ghost predicate OnlyFailuresRetriedInEveryRun(cfg: Config, name: string) {
    forall w, es, id :: Initial(cfg, w) && id in w.nodes && Legal(cfg, w, es) ==>
      RetriesOnlyFailures(Run(cfg, w, es).log, id, name)
  }

  /**
   In every run processes move on to later buckets, and attempt a key again only after a failed callback,
   if and only if the job's interval is at least a second.
   */
  lemma ProgressExact(cfg: Config, name: string)
    requires name in cfg.intervals && cfg.maxDelay >= 0.0
    ensures ProgressInEveryRun(cfg, name) <==> cfg.intervals[name] >= 1
    ensures OnlyFailuresRetriedInEveryRun(cfg, name) <==> cfg.intervals[name] >= 1
  {
    if cfg.intervals[name] >= 1 {
      forall w, es, id | Initial(cfg, w) && id in w.nodes && Legal(cfg, w, es)
        ensures MovesOn(Run(cfg, w, es).log, id, name) && RetriesOnlyFailures(Run(cfg, w, es).log, id, name)
      {
        SelfProgress(cfg, w, es, id, name);
      }
    } else {
      var es := RepeatsBucket(cfg, name);
      var w0 := TwoProcesses(cfg, name);
      var log := Run(cfg, w0, es).log;
      assert Initial(cfg, w0) && 0 in w0.nodes;
      assert log[1].Settlement? && log[2].Attempt? && log[1].bucket == log[2].bucket;
      assert !MovesOn(log, 0, name);
      assert log[2] == log[0] && log[0].Attempt? && !FailedBetween(log, 0, 2);
      assert !RetriesOnlyFailures(log, 0, name);
    }
  }

  ghost predicate SafeInEveryRun(cfg: Config, name: string) {
    forall w, es :: Initial(cfg, w) && Legal(cfg, w, es) ==> AtMostOnce(Run(cfg, w, es).log, name)
  }

  /**
   The exact condition on the lock time-to-live: an execution is unique in every interleaving
   if and only if the key lives at least one interval plus the longest delay of a `SET`.
   */
  lemma LockTtlExact(cfg: Config, name: string)
    requires UnprefixedNames(cfg) && name in cfg.intervals && cfg.maxDelay >= 0.0
    ensures SafeInEveryRun(cfg, name) <==> LongEnough(cfg, name)
  {
    if LongEnough(cfg, name) {
      forall w, es | Initial(cfg, w) && Legal(cfg, w, es)
        ensures AtMostOnce(Run(cfg, w, es).log, name)
      {
        ExecutedAtMostOnce(cfg, w, es, name);
      }
    } else {
      var es := ShortLockRunsTwice(cfg, name);
      assert Initial(cfg, TwoProcesses(cfg, name));
    }
  }

  /** With the default time-to-live, a job of 60 seconds or more can run twice once any delay is possible. */
  lemma DefaultTtlTooShort(cfg: Config, name: string)
    requires UnprefixedNames(cfg) && name in cfg.intervals && cfg.maxDelay > 0.0
    requires cfg.lockTtl == DEFAULT_LOCK_TTL_SECONDS && cfg.intervals[name] >= 60
    ensures !SafeInEveryRun(cfg, name)
  {
    LockTtlExact(cfg, name);
  }

  // ---- The protocol's steps are the tick loop's ----

  function ReplySeen(w: World, key: string, outcome: Outcome): Reply {
    if outcome != Answered then Raised else if Live(w, key) then Held else Created
  }

  /** Forming the key and receiving the reply, with any delay in between. */
  lemma LockPhase(cfg: Config, w: World, id: nat, delay: real, outcome: Outcome) returns (es: seq<Event>)
    requires NodesOk(cfg, w) && Enabled(cfg, w, FormKey(id)) && 0.0 <= delay <= cfg.maxDelay
    ensures Legal(cfg, w, es)
    ensures var v, node := Run(cfg, w, es), w.nodes[id];
      var name := node.pc.todo[0];
      var b := Bucket(node.jobs[name].interval, w.wall);
      var created := ReplySeen(w.(wall := w.wall + delay), LockKey(name, b), outcome) == Created;
      && id in v.nodes && v.wall == w.wall + delay
      && v.log == w.log + [Attempt(id, name, b), if created then Execution(id, name, b) else Settlement(id, name, b)]
      && v.nodes[id] ==
        if created then node.(pc := Running(node.pc.now, node.pc.todo[1..], name, b))
        else Node(node.offset, node.jobs[name := Settled(node.jobs[name], v.wall - node.offset, TickId(name, b))],
                  Looping(node.pc.now, node.pc.todo[1..]))
  {
    es := Play(cfg, w, [], FormKey(id));
    es := Play(cfg, w, es, Pass(delay));
    ghost var u := Run(cfg, w, es);
    es := Play(cfg, w, es, SetKey(id, outcome));
    var node := w.nodes[id];
    var b := Bucket(node.jobs[node.pc.todo[0]].interval, w.wall);
    assert u.log == w.log + [Attempt(id, node.pc.todo[0], b)];
  }

  /**
   One due job of a pass, played as protocol events with any delays, leaves the job table exactly as
   the body of the tick loop does; its callback starts exactly when the loop invokes it.
   */
  lemma JobPassIsTickBody(cfg: Config, w: World, id: nat, delay: real, outcome: Outcome, busy: real, ok: bool)
    returns (es: seq<Event>, e: Encounter)
    requires NodesOk(cfg, w) && Enabled(cfg, w, FormKey(id))
    requires 0.0 <= delay <= cfg.maxDelay && busy >= 0.0
    ensures Legal(cfg, w, es)
    ensures var v, node := Run(cfg, w, es), w.nodes[id];
      var name := node.pc.todo[0];
      var job := node.jobs[name];
      var b := Bucket(job.interval, w.wall);
      && id in v.nodes && v.nodes[id].pc == Looping(node.pc.now, node.pc.todo[1..])
      && e.wall == w.wall && e.callbackOk == ok
      && e.reply == ReplySeen(w.(wall := w.wall + delay), LockKey(name, b), outcome)
      && v.nodes[id].jobs == node.jobs[name := Advanced(name, job, node.pc.now, true, e)]
      && |v.log| > |w.log| + 1 && (Invoked(job, node.pc.now, true, e) <==> v.log[|w.log| + 1] == Execution(id, name, b))
  {
    var node := w.nodes[id];
    var name := node.pc.todo[0];
    var key := LockKey(name, Bucket(node.jobs[name].interval, w.wall));
    var reply := ReplySeen(w.(wall := w.wall + delay), key, outcome);
    es := LockPhase(cfg, w, id, delay, outcome);
    e := Encounter(w.wall, reply, ok, w.wall + delay - node.offset);
    if reply == Created {
      es := Play(cfg, w, es, Pass(busy));
      es := Play(cfg, w, es, Return(id, ok));
      e := e.(mono := w.wall + delay + busy - node.offset);
      assert node.jobs[name := node.jobs[name]] == node.jobs;
    }
  }

  // ---- A whole pass is a tick ----

  /** What one job of a pass meets: the delay and outcome of its `SET`, and the length and end of its callback. */
  datatype Luck = Luck(delay: real, outcome: Outcome, busy: real, ok: bool)

  ghost predicate Bearable(cfg: Config, luck: seq<Luck>) {
    forall k :: 0 <= k < |luck| ==> 0.0 <= luck[k].delay <= cfg.maxDelay && luck[k].busy >= 0.0
  }

  /** Process `id` is about to go through the jobs `todo`. */
  ghost predicate AtJobs(cfg: Config, w: World, id: nat, now: real, todo: seq<string>) {
    && NodesOk(cfg, w) && id in w.nodes && w.nodes[id].pc == Looping(now, todo)
    && Distinct(todo) && forall n :: n in todo ==> n in w.nodes[id].jobs
  }

  /** The job table after a tick's loop over `order`: what the contract of the tick says of it. */
  ghost predicate Ticked(was: map<string, Job>, now: map<string, Job>, order: seq<string>, at: real,
                         env: seq<Encounter>) {
    && |env| == |order| && now.Keys == was.Keys
    && (forall n :: n in was && n !in order ==> now[n] == was[n])
    && forall k :: 0 <= k < |order| ==>
      order[k] in was && now[order[k]] == Advanced(order[k], was[order[k]], at, true, env[k])
  }

  lemma {:induction false} Chain(cfg: Config, w: World, es: seq<Event>, more: seq<Event>)
    requires Legal(cfg, w, es) && Legal(cfg, Run(cfg, w, es), more)
    ensures Legal(cfg, w, es + more) && Run(cfg, w, es + more) == Run(cfg, Run(cfg, w, es), more)
    decreases |es|
  {
    if es == [] {
      assert [] + more == more;
    } else {
      Chain(cfg, Step(cfg, w, es[0]), es[1..], more);
      assert (es + more)[1..] == es[1..] + more;
    }
  }

  lemma {:induction false} NodesOkRun(cfg: Config, w: World, es: seq<Event>)
    requires NodesOk(cfg, w) && Legal(cfg, w, es)
    ensures NodesOk(cfg, Run(cfg, w, es))
    decreases |es|
  {
    if es != [] {
      NodesOkStep(cfg, w, es[0]);
      NodesOkRun(cfg, Step(cfg, w, es[0]), es[1..]);
    }
  }

  /** The first job of the rest of a pass, due or not. */
  lemma FirstJob(cfg: Config, w: World, id: nat, now: real, todo: seq<string>, luck: Luck)
    returns (es: seq<Event>, e: Encounter)
    requires AtJobs(cfg, w, id, now, todo) && todo != [] && Bearable(cfg, [luck])
    ensures Legal(cfg, w, es) && AtJobs(cfg, Run(cfg, w, es), id, now, todo[1..])
    ensures var jobs, name := w.nodes[id].jobs, todo[0];
      Run(cfg, w, es).nodes[id].jobs == jobs[name := Advanced(name, jobs[name], now, true, e)]
  {
    var name := todo[0];
    var job := w.nodes[id].jobs[name];
    assert [luck][0] == luck;
    if Due(job, now) {
      es, e := JobPassIsTickBody(cfg, w, id, luck.delay, luck.outcome, luck.busy, luck.ok);
    } else {
      es := Play(cfg, w, [], SkipNotDue(id));
      e := Encounter(w.wall, Raised, false, now);
      assert w.nodes[id].jobs[name := job] == w.nodes[id].jobs;
    }
    NodesOkRun(cfg, w, es);
    assert Distinct(todo[1..]) by {
      assert forall i :: 0 <= i < |todo[1..]| ==> todo[1..][i] == todo[i + 1];
    }
  }

  /** One job and the rest of a tick make the whole tick. */
  lemma TickedCons(was: map<string, Job>, now: map<string, Job>, order: seq<string>, at: real, e: Encounter,
                   env: seq<Encounter>)
    requires order != [] && Distinct(order) && order[0] in was
    requires Ticked(was[order[0] := Advanced(order[0], was[order[0]], at, true, e)], now, order[1..], at, env)
    ensures Ticked(was, now, order, at, [e] + env)
  {
    var rest, all := order[1..], [e] + env;
    assert order == [order[0]] + rest;
    assert order[0] !in rest by {
      assert forall i :: 0 <= i < |rest| ==> rest[i] == order[i + 1];
    }
    forall k | 0 <= k < |order|
      ensures order[k] in was && now[order[k]] == Advanced(order[k], was[order[k]], at, true, all[k])
    {
      if k > 0 {
        assert order[k] == rest[k - 1] && all[k] == env[k - 1] && rest[k - 1] != order[0];
      }
    }
  }

  lemma {:induction false} JobsInTurn(cfg: Config, w: World, id: nat, now: real, todo: seq<string>, luck: seq<Luck>)
    returns (es: seq<Event>, env: seq<Encounter>)
    requires AtJobs(cfg, w, id, now, todo) && |luck| == |todo| && Bearable(cfg, luck)
    ensures Legal(cfg, w, es) && AtJobs(cfg, Run(cfg, w, es), id, now, [])
    ensures Ticked(w.nodes[id].jobs, Run(cfg, w, es).nodes[id].jobs, todo, now, env)
    decreases |todo|
  {
    es, env := [], [];
    if todo != [] {
      var first, e := FirstJob(cfg, w, id, now, todo, luck[0]);
      var rest, others := JobsInTurn(cfg, Run(cfg, w, first), id, now, todo[1..], luck[1..]);
      Chain(cfg, w, first, rest);
      es, env := first + rest, [e] + others;
      TickedCons(w.nodes[id].jobs, Run(cfg, w, es).nodes[id].jobs, todo, now, e, others);
    }
  }

  /**
   A whole pass of a process, from its beginning to its end, with any delays, replies and callbacks on the
   way, leaves the job table exactly as the tick loop leaves it.
   */
  lemma PassIsTick(cfg: Config, w: World, id: nat, order: seq<string>, luck: seq<Luck>)
    returns (es: seq<Event>, env: seq<Encounter>)
    requires NodesOk(cfg, w) && Enabled(cfg, w, Begin(id, order)) && |luck| == |order| && Bearable(cfg, luck)
    ensures Legal(cfg, w, es) && id in Run(cfg, w, es).nodes && Run(cfg, w, es).nodes[id].pc == Idle
    ensures Ticked(w.nodes[id].jobs, Run(cfg, w, es).nodes[id].jobs, order, Mono(w, id), env)
  {
    var begun := Play(cfg, w, [], Begin(id, order));
    NodesOkStep(cfg, w, Begin(id, order));
    var turns;
    turns, env := JobsInTurn(cfg, Run(cfg, w, begun), id, Mono(w, id), order, luck);
    Chain(cfg, w, begun, turns);
    es := Play(cfg, w, begun + turns, End(id));
  }
}
