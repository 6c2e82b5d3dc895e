/**
 Requests as coroutines on one event loop, between their suspension points: why the limiter's clock
 readings are processed in the order in which they were taken.
 */
module RateLimitLoop {
  import opened Common
  import opened RateLimit

  /** `Waiting` is the only state in which a request that has read the clock is suspended. */
  datatype Pc = Arrived | Read(now: real) | Waiting(now: real) | Locked(now: real) | Done

  datatype Task = Task(key: string, pc: Pc)

  /** `running` is the coroutine that has not reached a suspension point yet; nobody else gets a turn. */
  datatype World = World(clock: real, running: Option<nat>, holder: Option<nat>, tasks: map<nat, Task>,
                         history: seq<Request>)

  datatype Event =
    | Advance(dt: real)
    | Arrive(id: nat, key: string)
    | Resume(id: nat)

  predicate Enabled(w: World, e: Event) {
    match e
    case Advance(dt) => dt >= 0.0
    case Arrive(id, _) => id !in w.tasks
    case Resume(id) =>
      && id in w.tasks && w.tasks[id].pc != Done
      && (w.running == None || w.running == Some(id))
      && (w.tasks[id].pc.Waiting? ==> w.holder == None)
  }

  function Moved(w: World, id: nat, pc: Pc): map<nat, Task>
    requires id in w.tasks
  {
    w.tasks[id := w.tasks[id].(pc := pc)]
  }

  /**
   The next stretch of a coroutine: read the clock; take the lock without suspending if it is free, else
   wait for it; prune, decide and append, release the lock, and pass the request on or answer it.
   */
  function Step(w: World, e: Event, maxRequests: nat, window: real): World
    requires Enabled(w, e)
  {
    match e
    case Advance(dt) => w.(clock := w.clock + dt)
    case Arrive(id, key) => w.(tasks := w.tasks[id := Task(key, Arrived)])
    case Resume(id) =>
      match w.tasks[id].pc
      case Arrived => w.(running := Some(id), tasks := Moved(w, id, Read(w.clock)))
      case Read(now) =>
        if w.holder == None then w.(holder := Some(id), tasks := Moved(w, id, Locked(now)))
        else w.(running := None, tasks := Moved(w, id, Waiting(now)))
      case Waiting(now) => w.(running := Some(id), holder := Some(id), tasks := Moved(w, id, Locked(now)))
      case Locked(now) =>
        var key := w.tasks[id].key;
        var admitted := |Prune(Bucket(w.history, key, window), now - window)| < maxRequests;
        w.(running := None, holder := None, tasks := Moved(w, id, Done),
           history := w.history + [Request(key, now, admitted)])
      case Done => w
  }

  ghost predicate Legal(w: World, es: seq<Event>, maxRequests: nat, window: real)
    decreases |es|
  {
    es == [] || (Enabled(w, es[0]) && Legal(Step(w, es[0], maxRequests, window), es[1..], maxRequests, window))
  }

  ghost function Run(w: World, es: seq<Event>, maxRequests: nat, window: real): World
    requires Legal(w, es, maxRequests, window)
    decreases |es|
  {
    if es == [] then w else Run(Step(w, es[0], maxRequests, window), es[1..], maxRequests, window)
  }

  const START := World(0.0, None, None, map[], [])

  ghost predicate UpTo(history: seq<Request>, now: real) {
    forall i :: 0 <= i < |history| ==> history[i].now <= now
  }

  /** The running coroutine alone is past its reading, which is no earlier than any processed one. */
  ghost predicate TaskOk(w: World, id: nat)
    requires id in w.tasks
  {
    match w.tasks[id].pc
    case Arrived => w.running != Some(id)
    case Read(now) => w.running == Some(id) && w.holder == None && now <= w.clock && UpTo(w.history, now)
    case Waiting(_) => false
    case Locked(now) => w.running == Some(id) && w.holder == Some(id) && now <= w.clock && UpTo(w.history, now)
    case Done => w.running != Some(id)
  }

  ghost predicate LoopInv(w: World, maxRequests: nat, window: real) {
    && (w.running == None ==> w.holder == None)
    && (w.running.Some? ==> w.running.value in w.tasks)
    && (forall id :: id in w.tasks ==> TaskOk(w, id))
    && UpTo(w.history, w.clock) && InOrder(w.history)
    && RateLimit.Decided(w.history, maxRequests, window)
  }

  lemma HistorySnoc(history: seq<Request>, r: Request)
    requires InOrder(history) && UpTo(history, r.now)
    ensures InOrder(history + [r])
  {
  }

  lemma TasksStep(w: World, e: Event, maxRequests: nat, window: real)
    requires LoopInv(w, maxRequests, window) && Enabled(w, e)
    ensures var v := Step(w, e, maxRequests, window); forall id :: id in v.tasks ==> TaskOk(v, id)
  {
    var v := Step(w, e, maxRequests, window);
    forall id | id in v.tasks ensures TaskOk(v, id) {
      if id in w.tasks {
        assert TaskOk(w, id);
      }
      if e.Resume? {
        assert TaskOk(w, e.id);
      }
    }
  }

  lemma LoopStep(w: World, e: Event, maxRequests: nat, window: real)
    requires LoopInv(w, maxRequests, window) && Enabled(w, e)
    ensures LoopInv(Step(w, e, maxRequests, window), maxRequests, window)
  {
    var v := Step(w, e, maxRequests, window);
    TasksStep(w, e, maxRequests, window);
    if e.Resume? {
      assert TaskOk(w, e.id);
      if w.tasks[e.id].pc.Locked? {
        var r := v.history[|w.history|];
        HistorySnoc(w.history, r);
        DecidedSnoc(w.history, r, maxRequests, window);
      }
    }
  }

  lemma {:induction false} LoopRun(w: World, es: seq<Event>, maxRequests: nat, window: real)
    requires LoopInv(w, maxRequests, window) && Legal(w, es, maxRequests, window)
    ensures LoopInv(Run(w, es, maxRequests, window), maxRequests, window)
    decreases |es|
  {
    if es != [] {
      LoopStep(w, es[0], maxRequests, window);
      LoopRun(Step(w, es[0], maxRequests, window), es[1..], maxRequests, window);
    }
  }

  /** However the loop interleaves the requests, the readings are processed in order and nobody waits for the lock. */
  lemma ReadingsInOrder(es: seq<Event>, maxRequests: nat, window: real)
    requires Legal(START, es, maxRequests, window)
    ensures var w := Run(START, es, maxRequests, window);
      && InOrder(w.history) && RateLimit.Decided(w.history, maxRequests, window)
      && forall id :: id in w.tasks ==> !w.tasks[id].pc.Waiting?
  {
    LoopRun(START, es, maxRequests, window);
    var w := Run(START, es, maxRequests, window);
    assert forall id :: id in w.tasks ==> TaskOk(w, id);
  }

  /** So the bound on every window holds for whatever the event loop does. */
  lemma LoopWindowsBounded(es: seq<Event>, key: string, maxRequests: nat, window: real, x: real)
    requires Legal(START, es, maxRequests, window)
    ensures CountIn(Admissions(Run(START, es, maxRequests, window).history, key), x, x + window) <= maxRequests
  {
    ReadingsInOrder(es, maxRequests, window);
    EveryWindowBounded(Run(START, es, maxRequests, window).history, key, maxRequests, window, x);
  }
}
