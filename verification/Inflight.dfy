/**
 In-flight deduplication of enrichment tasks: a claim table with a time to live, and every
 interleaving of enqueues, broker failures, finishing tasks and passing time over it.
 */
module Inflight {
  import opened Common
  import opened Text

  const INFLIGHT_TTL_SECONDS := 300.0

  // ---- Slot keys ----

  const INFLIGHT_PREFIX := "opensoar:enrich:inflight:"

  /** `partner or '-'`. */
  function Tenant(partner: Option<string>): string {
    if partner == None || partner == Some("") then "-" else partner.value
  }

  function SlotKey(obsType: string, value: string, partner: Option<string>): string {
    INFLIGHT_PREFIX + (Tenant(partner) + ":" + (obsType + ":" + value))
  }

  /** With colon-free tenants and types, a slot belongs to exactly one (tenant, type, value). */
  lemma SlotKeysCoincide(t: string, v: string, p: Option<string>, t': string, v': string, p': Option<string>)
    requires ':' !in t && ':' !in t' && ':' !in Tenant(p) && ':' !in Tenant(p')
    ensures SlotKey(t, v, p) == SlotKey(t', v', p') <==> Tenant(p) == Tenant(p') && t == t' && v == v'
  {
    var k, k', n := SlotKey(t, v, p), SlotKey(t', v', p'), |INFLIGHT_PREFIX|;
    if k == k' {
      assert k[n..] == Tenant(p) + ":" + (t + ":" + v) && k'[n..] == Tenant(p') + ":" + (t' + ":" + v');
      SplitFirst(Tenant(p), Tenant(p'), t + ":" + v, t' + ":" + v');
      SplitFirst(t, t', v, v');
    }
  }

  /** Slots by partner names: no partner, the empty one and "-" are one tenant, and no other two are. */
  lemma PartnersShareSlots(t: string, v: string, p: Option<string>, t': string, v': string, p': Option<string>)
    requires ':' !in t && ':' !in t' && (p.Some? ==> ':' !in p.value) && (p'.Some? ==> ':' !in p'.value)
    ensures SlotKey(t, v, p) == SlotKey(t', v', p') <==>
      && t == t' && v == v'
      && (p == p' || (p in {None, Some(""), Some("-")} && p' in {None, Some(""), Some("-")}))
  {
    SlotKeysCoincide(t, v, p, t', v', p');
  }

  /** A slot key without the common prefix. */
  function SlotTail(tenant: string, obsType: string, value: string): string {
    tenant + ":" + (obsType + ":" + value)
  }

  /** `longer` is `tenant` with the same type, or continues it with the type. */
  ghost predicate Continues(tenant: string, obsType: string, longer: string, otherType: string) {
    || (longer == tenant && otherType == obsType)
    || longer == tenant + ":" + obsType
    || tenant + ":" + obsType + ":" <= longer
  }

  /** Equal slots of two tenants: the longer name continues the shorter one. */
  lemma EqualSlotsContinue(p: string, t: string, v: string, q: string, t': string, v': string)
    requires ':' !in t && ':' !in t' && |p| <= |q| && SlotTail(p, t, v) == SlotTail(q, t', v')
    ensures Continues(p, t, q, t')
  {
    var key, head := SlotTail(p, t, v), p + ":" + t;
    assert key == head + (":" + v) && key[|q|] == ':' && key[..|q|] == q;
    forall i | |p| < i < |head| ensures key[i] != ':' {
      assert t[i - |p| - 1] in t;
    }
    if |q| == |p| {
      assert q == key[..|p|] == p;
      assert t + ":" + v == key[|p| + 1..] == t' + ":" + v';
      SplitFirst(t, t', v, v');
    } else if |q| == |head| {
      assert q == key[..|head|] == head;
    } else {
      assert |q| > |head|;
      assert head + ":" == key[..|head| + 1] <= q;
    }
  }

  lemma ContinuesShares(p: string, t: string, q: string, t': string)
    requires Continues(p, t, q, t') && |p| <= |q|
    ensures exists v, v' :: SlotTail(p, t, v) == SlotTail(q, t', v')
  {
    var head := p + ":" + t;
    if q == p && t' == t {
      assert SlotTail(p, t, "") == SlotTail(q, t', "");
    } else if q == head {
      assert SlotTail(p, t, t' + ":") == SlotTail(q, t', "");
    } else {
      var rest := q[|head| + 1..];
      assert q == head + ":" + rest;
      assert SlotTail(p, t, rest + ":" + t' + ":") == SlotTail(q, t', "");
    }
  }

  /**
   Exactly which tenants can block each other: for colon-free types, the first of which goes with the tenant
   of the shorter name, some values share a slot if and only if tenant and type are the same or the longer
   name continues the shorter one with the type.
   */
  lemma TenantsShareSlots(t: string, p: Option<string>, t': string, q: Option<string>)
    requires ':' !in t && ':' !in t' && |Tenant(p)| <= |Tenant(q)|
    ensures (exists v, v' :: SlotKey(t, v, p) == SlotKey(t', v', q)) <==> Continues(Tenant(p), t, Tenant(q), t')
  {
    forall v, v'
      ensures SlotKey(t, v, p) == SlotKey(t', v', q) <==> SlotTail(Tenant(p), t, v) == SlotTail(Tenant(q), t', v')
    {
      PrefixedEqual(INFLIGHT_PREFIX, SlotTail(Tenant(p), t, v), SlotTail(Tenant(q), t', v'));
    }
    if v, v' :| SlotKey(t, v, p) == SlotKey(t', v', q) {
      EqualSlotsContinue(Tenant(p), t, v, Tenant(q), t', v');
    }
    if Continues(Tenant(p), t, Tenant(q), t') {
      ContinuesShares(Tenant(p), t, Tenant(q), t');
      var v, v' :| SlotTail(Tenant(p), t, v) == SlotTail(Tenant(q), t', v');
      assert SlotKey(t, v, p) == SlotKey(t', v', q);
    }
  }

  lemma PrefixedEqual(prefix: string, s: string, t: string)
    ensures prefix + s == prefix + t <==> s == t
  {
    if prefix + s == prefix + t {
      assert s == (prefix + s)[|prefix|..] == (prefix + t)[|prefix|..] == t;
    }
  }

  // ---- The claim table ----

  predicate Held(slots: map<string, real>, key: string, now: real) {
    key in slots && now < slots[key]
  }

  function LiveSlots(slots: map<string, real>, now: real): map<string, real> {
    map k | k in slots && now < slots[k] :: slots[k]
  }

  function Marked(slots: map<string, real>, key: string, now: real): map<string, real> {
    if Held(slots, key, now) then LiveSlots(slots, now)
    else LiveSlots(slots, now)[key := now + INFLIGHT_TTL_SECONDS]
  }

  class Tracker {
    var slots: map<string, real>

    constructor ()
      ensures slots == map[]
    {
      slots := map[];
    }

    /** Drops the stale entries one by one, then claims the slot if it is free. */
    method MarkInflight(key: string, now: real) returns (claimed: bool)
      modifies this
      ensures claimed <==> !Held(old(slots), key, now)
      ensures slots == Marked(old(slots), key, now)
    {
      ghost var was := slots;
      var stale := set k | k in slots && slots[k] <= now;
      while stale != {}
        invariant forall k :: k in stale ==> k in was && was[k] <= now
        invariant slots == map k | k in was && (was[k] <= now ==> k in stale) :: was[k]
        decreases stale
      {
        var k :| k in stale;
        slots := slots - {k};
        stale := stale - {k};
      }
      if key in slots {
        return false;
      }
      slots := slots[key := now + INFLIGHT_TTL_SECONDS];
      claimed := true;
    }

    /** Frees the key at every time, whoever claimed it, and no other. */
    method ClearInflight(key: string)
      modifies this
      ensures forall k, now :: Held(slots, k, now) <==> (k != key && Held(old(slots), k, now))
    {
      slots := slots - {key};
    }
  }

  // ---- Interleavings ----

  datatype Task = Task(key: string, claimedAt: real)

  datatype Entry = Granted(key: string, at: real) | Cleared(key: string)

  /** `tasks` are the enqueued tasks that have not cleared their slot yet. */
  datatype World = World(now: real, slots: map<string, real>, tasks: map<nat, Task>, log: seq<Entry>)

  datatype Event =
    | Advance(dt: real)
    | Enqueue(id: nat, key: string, brokerOk: bool)
    | Finish(id: nat)

  predicate Enabled(w: World, e: Event) {
    match e
    case Advance(dt) => dt >= 0.0
    case Enqueue(id, _, _) => id !in w.tasks
    case Finish(id) => id in w.tasks
  }

  /** A failed enqueue releases its claim; a finishing task clears the slot whoever holds it by then. */
  function Step(w: World, e: Event): World
    requires Enabled(w, e)
  {
    match e
    case Advance(dt) => w.(now := w.now + dt)
    case Enqueue(id, key, brokerOk) =>
      var slots := Marked(w.slots, key, w.now);
      if Held(w.slots, key, w.now) then w.(slots := slots)
      else if brokerOk then
        World(w.now, slots, w.tasks[id := Task(key, w.now)], w.log + [Granted(key, w.now)])
      else
        World(w.now, slots - {key}, w.tasks, w.log + [Granted(key, w.now), Cleared(key)])
    case Finish(id) =>
      World(w.now, w.slots - {w.tasks[id].key}, w.tasks - {id}, w.log + [Cleared(w.tasks[id].key)])
  }

  /** A free slot is granted; a failed enqueue leaves it free again, and every other slot as it was. */
  lemma EnqueueOutcome(w: World, id: nat, key: string, brokerOk: bool)
    requires id !in w.tasks
    ensures var v, free := Step(w, Enqueue(id, key, brokerOk)), !(key in w.slots && w.now < w.slots[key]);
      && v.now == w.now
      && v.tasks == (if free && brokerOk then w.tasks[id := Task(key, w.now)] else w.tasks)
      && forall k, t :: t >= w.now ==>
        (Held(v.slots, k, t) <==>
          if k == key && free then brokerOk && t < w.now + 300.0 else k in w.slots && t < w.slots[k])
  {
  }

  /** A task that finishes frees its slot at every time, and no other. */
  lemma FinishOutcome(w: World, id: nat)
    requires id in w.tasks
    ensures var v := Step(w, Finish(id));
      && v.now == w.now && v.tasks == w.tasks - {id}
      && forall k, t :: Held(v.slots, k, t) <==> k != w.tasks[id].key && k in w.slots && t < w.slots[k]
  {
  }

  ghost predicate Legal(w: World, es: seq<Event>)
    decreases |es|
  {
    es == [] || (Enabled(w, es[0]) && Legal(Step(w, es[0]), es[1..]))
  }

  ghost function Run(w: World, es: seq<Event>): World
    requires Legal(w, es)
    decreases |es|
  {
    if es == [] then w else Run(Step(w, es[0]), es[1..])
  }

  const START := World(0.0, map[], map[], [])

  // ---- Grants are separated, whatever the workers do ----

  ghost predicate ClearedAfter(log: seq<Entry>, j: int, k: int) {
    exists m :: 0 <= j < m < k <= |log| && log[m] == Cleared(log[j].key)
  }

  ghost predicate Separated(log: seq<Entry>) {
    forall j, k :: 0 <= j < k < |log| && log[j].Granted? && log[k].Granted? && log[j].key == log[k].key ==>
      log[k].at >= log[j].at + INFLIGHT_TTL_SECONDS || ClearedAfter(log, j, k)
  }

  /** A grant nobody cleared still holds its slot, unless its time is up. */
  ghost predicate GrantsHeld(w: World) {
    forall j :: 0 <= j < |w.log| && w.log[j].Granted? && !ClearedAfter(w.log, j, |w.log|) ==>
      w.now >= w.log[j].at + INFLIGHT_TTL_SECONDS ||
      (w.log[j].key in w.slots && w.slots[w.log[j].key] >= w.log[j].at + INFLIGHT_TTL_SECONDS)
  }

  lemma ClearedAfterGrows(log: seq<Entry>, more: seq<Entry>, j: int, k: int)
    requires 0 <= j < k <= |log|
    ensures ClearedAfter(log, j, k) <==> ClearedAfter(log + more, j, k)
    ensures ClearedAfter(log + more, j, k) ==> ClearedAfter(log + more, j, |log + more|)
  {
    var all := log + more;
    assert forall m :: 0 <= m < |log| ==> all[m] == log[m];
    if ClearedAfter(log, j, k) {
      var m :| j < m < k && log[m] == Cleared(log[j].key);
      assert all[m] == Cleared(all[j].key);
    }
    if ClearedAfter(all, j, k) {
      var m :| j < m < k && all[m] == Cleared(all[j].key);
      assert log[m] == Cleared(log[j].key);
    }
  }

  lemma SeparationStep(w: World, e: Event)
    requires Separated(w.log) && GrantsHeld(w) && Enabled(w, e)
    ensures Separated(Step(w, e).log)
  {
    var v, n := Step(w, e), |w.log|;
    assert v.log == w.log + v.log[n..];
    forall j, k | 0 <= j < k < |v.log| && v.log[j].Granted? && v.log[k].Granted? && v.log[j].key == v.log[k].key
      ensures v.log[k].at >= v.log[j].at + INFLIGHT_TTL_SECONDS || ClearedAfter(v.log, j, k)
    {
      assert v.log[j] == w.log[j];
      ClearedAfterGrows(w.log, v.log[n..], j, if k < n then k else n);
    }
  }

  lemma GrantsHeldStep(w: World, e: Event)
    requires GrantsHeld(w) && Enabled(w, e)
    ensures GrantsHeld(Step(w, e))
  {
    var v, n := Step(w, e), |w.log|;
    assert v.log == w.log + v.log[n..];
    if |v.log| == n + 2 {
      assert v.log[n + 1] == Cleared(v.log[n].key);
      assert ClearedAfter(v.log, n, n + 2);
    }
    forall j | 0 <= j < |v.log| && v.log[j].Granted? && !ClearedAfter(v.log, j, |v.log|)
      ensures v.now >= v.log[j].at + INFLIGHT_TTL_SECONDS ||
        (v.log[j].key in v.slots && v.slots[v.log[j].key] >= v.log[j].at + INFLIGHT_TTL_SECONDS)
    {
      if j < n {
        ClearedAfterGrows(w.log, v.log[n..], j, n);
        assert v.log[j] == w.log[j];
        if |v.log| > n {
          assert v.log[|v.log| - 1] != Cleared(v.log[j].key);
        }
      }
    }
  }

  /** Two grants of one slot are separated by a clear of it or by the time to live, in every run. */
  lemma {:induction false} GrantsSeparated(w: World, es: seq<Event>)
    requires Separated(w.log) && GrantsHeld(w) && Legal(w, es)
    ensures Separated(Run(w, es).log)
    decreases |es|
  {
    if es != [] {
      SeparationStep(w, es[0]);
      GrantsHeldStep(w, es[0]);
      GrantsSeparated(Step(w, es[0]), es[1..]);
    }
  }

  // ---- Mutual exclusion, when every task clears in time ----

  /** Every task that has not cleared yet is younger than the time to live. */
  predicate Prompt(w: World) {
    forall id :: id in w.tasks ==> w.now < w.tasks[id].claimedAt + INFLIGHT_TTL_SECONDS
  }

  ghost predicate AlwaysPrompt(w: World, es: seq<Event>)
    requires Legal(w, es)
    decreases |es|
  {
    Prompt(w) && (es != [] ==> AlwaysPrompt(Step(w, es[0]), es[1..]))
  }

  ghost predicate Exclusive(w: World) {
    forall i, j :: i in w.tasks && j in w.tasks && w.tasks[i].key == w.tasks[j].key ==> i == j
  }

  ghost predicate TasksHold(w: World) {
    forall id :: id in w.tasks ==>
      w.tasks[id].key in w.slots && w.slots[w.tasks[id].key] == w.tasks[id].claimedAt + INFLIGHT_TTL_SECONDS
  }

  lemma ExclusionStep(w: World, e: Event)
    requires Exclusive(w) && TasksHold(w) && Prompt(w) && Enabled(w, e)
    ensures Exclusive(Step(w, e)) && TasksHold(Step(w, e))
  {
  }

  /** While tasks clear in time, each slot has at most one claimed and uncleared task in every state. */
  lemma {:induction false} MutualExclusion(w: World, es: seq<Event>)
    requires Exclusive(w) && TasksHold(w) && Legal(w, es) && AlwaysPrompt(w, es)
    ensures Exclusive(Run(w, es))
    decreases |es|
  {
    if es != [] {
      ExclusionStep(w, es[0]);
      MutualExclusion(Step(w, es[0]), es[1..]);
    }
  }

  /** In every state of the run, no uncleared task is older than `d`. */
  ghost predicate AlwaysWithin(w: World, es: seq<Event>, d: real)
    requires Legal(w, es)
    decreases |es|
  {
    Within(w, d) && (es != [] ==> AlwaysWithin(Step(w, es[0]), es[1..], d))
  }

  predicate Within(w: World, d: real) {
    forall id :: id in w.tasks ==> w.now <= w.tasks[id].claimedAt + d
  }

  lemma {:induction false} WithinIsPrompt(w: World, es: seq<Event>, d: real)
    requires Legal(w, es) && AlwaysWithin(w, es, d) && d < INFLIGHT_TTL_SECONDS
    ensures AlwaysPrompt(w, es)
    decreases |es|
  {
    if es != [] {
      WithinIsPrompt(Step(w, es[0]), es[1..], d);
    }
  }

  /** A task exactly as old as the time to live no longer holds its slot. */
  lemma SecondClaimAtTtl(key: string, d: real) returns (es: seq<Event>)
    requires d >= INFLIGHT_TTL_SECONDS
    ensures Legal(START, es) && AlwaysWithin(START, es, d) && !Exclusive(Run(START, es))
  {
    var w1 := Step(START, Enqueue(0, key, true));
    var w2 := Step(w1, Advance(INFLIGHT_TTL_SECONDS));
    var w3 := Step(w2, Enqueue(1, key, true));
    assert w3.tasks == map[0 := Task(key, 0.0), 1 := Task(key, INFLIGHT_TTL_SECONDS)];
    assert 0 in w3.tasks && 1 in w3.tasks && !Exclusive(w3);
    es := PrependWithin(w2, Enqueue(1, key, true), [], d);
    es := PrependWithin(w1, Advance(INFLIGHT_TTL_SECONDS), es, d);
    es := PrependWithin(START, Enqueue(0, key, true), es, d);
  }

  lemma PrependWithin(w: World, e: Event, es: seq<Event>, d: real) returns (r: seq<Event>)
    requires Enabled(w, e) && Within(w, d) && Legal(Step(w, e), es) && AlwaysWithin(Step(w, e), es, d)
    ensures r == [e] + es && Legal(w, r) && AlwaysWithin(w, r, d) && Run(w, r) == Run(Step(w, e), es)
  {
    r := [e] + es;
    assert r[1..] == es;
  }

  /**
   The exact bound on the life of a task: with every uncleared task at most `d` old, each slot has one task
   in every reachable state if and only if `d` is less than the time to live.
   */
  lemma LifetimeExact(d: real)
    requires d >= 0.0
    ensures (forall es :: Legal(START, es) && AlwaysWithin(START, es, d) ==> Exclusive(Run(START, es)))
      <==> d < 300.0
  {
    if d < INFLIGHT_TTL_SECONDS {
      forall es | Legal(START, es) && AlwaysWithin(START, es, d) ensures Exclusive(Run(START, es)) {
        WithinIsPrompt(START, es, d);
        MutualExclusion(START, es);
      }
    } else {
      var es := SecondClaimAtTtl("", d);
    }
  }

  /**
   Without promptness it fails, even among young claims: task 0 is late by nothing more than reaching
   the time to live, task 1 takes the slot, task 0 clears it, and task 2 is granted beside task 1.
   */
  lemma LateClearFreesAnotherClaim(key: string)
    ensures exists es :: Legal(START, es) && var w := Run(START, es);
      !Exclusive(w) && Prompt(w)
  {
    var w1 := Step(START, Enqueue(0, key, true));
    var w2 := Step(w1, Advance(INFLIGHT_TTL_SECONDS));
    var w3 := Step(w2, Enqueue(1, key, true));
    var w4 := Step(w3, Finish(0));
    var w5 := Step(w4, Enqueue(2, key, true));
    assert w5.tasks == map[1 := Task(key, INFLIGHT_TTL_SECONDS), 2 := Task(key, INFLIGHT_TTL_SECONDS)];
    Prepend(w4, Enqueue(2, key, true), []);
    var es := [Enqueue(2, key, true)] + [];
    Prepend(w3, Finish(0), es);
    es := [Finish(0)] + es;
    Prepend(w2, Enqueue(1, key, true), es);
    es := [Enqueue(1, key, true)] + es;
    Prepend(w1, Advance(INFLIGHT_TTL_SECONDS), es);
    es := [Advance(INFLIGHT_TTL_SECONDS)] + es;
    Prepend(START, Enqueue(0, key, true), es);
    es := [Enqueue(0, key, true)] + es;
    assert Legal(START, es) && Run(START, es) == w5;
    assert 1 in w5.tasks && 2 in w5.tasks;
  }

  lemma Prepend(w: World, e: Event, es: seq<Event>)
    requires Enabled(w, e) && Legal(Step(w, e), es)
    ensures Legal(w, [e] + es) && Run(w, [e] + es) == Run(Step(w, e), es)
  {
    assert ([e] + es)[1..] == es;
  }
}
