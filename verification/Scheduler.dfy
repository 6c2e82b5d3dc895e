/**
 The interval scheduler of one process: its job table, the tick loop, and the lock keys it asks for.
 Clock readings, lock replies and callback outcomes are inputs.
 */
module Scheduler {
  import opened Common
  import opened Text

  const KEY_PREFIX := "opensoar:scheduler:"
  const DEFAULT_LOCK_TTL_SECONDS := 60

  datatype Job = Job(interval: int, lastRun: real, lastTickId: Option<string>)

  /** What `SET NX EX` did, as the caller sees it. */
  datatype Reply = Created | Held | Raised

  /** A wall-clock reading; seconds since the epoch are never negative. */
  type Instant = r: real | r >= 0.0 witness 0.0

  /** What one job meets during a tick. */
  datatype Encounter = Encounter(wall: Instant, reply: Reply, callbackOk: bool, mono: real)

  datatype Verdict = NotDue | LostRace | Completed | Failed

  function Period(interval: int): (p: int)
    ensures p >= 1 && p >= interval && (p == 1 || p == interval)
  {
    if interval < 1 then 1 else interval
  }

  /** `int(time.time()) // interval`, never with an interval below one second. */
  function Bucket(interval: int, wall: Instant): (b: nat)
    ensures (b * Period(interval)) as real <= wall < ((b + 1) * Period(interval)) as real
  {
    var seconds := wall.Floor;
    var b := seconds / Period(interval);
    BucketBounds(seconds, Period(interval));
    b
  }

  lemma BucketBounds(seconds: nat, period: int)
    requires period >= 1
    ensures 0 <= seconds / period
    ensures (seconds / period) * period <= seconds < (seconds / period + 1) * period
  {
  }

  lemma FactorOrder(x: int, y: int, p: int)
    requires p >= 1 && x * p < y * p
    ensures x < y
  {
  }

  /** A bucket is the only window of length `Period` that contains the reading. */
  lemma BucketUnique(interval: int, wall: Instant, b: nat)
    requires (b * Period(interval)) as real <= wall < ((b + 1) * Period(interval)) as real
    ensures Bucket(interval, wall) == b
  {
    var p, c := Period(interval), Bucket(interval, wall);
    FactorOrder(b, c + 1, p);
    FactorOrder(c, b + 1, p);
  }

  /** A reading one period later falls in a strictly later bucket. */
  lemma LaterBucket(interval: int, wall: Instant, b: nat)
    requires wall >= ((b + 1) * Period(interval)) as real
    ensures Bucket(interval, wall) > b
  {
    FactorOrder(b + 1, Bucket(interval, wall) + 1, Period(interval));
  }

  function TickId(name: string, bucket: nat): string {
    name + ":" + Decimal(bucket)
  }

  function FullKey(key: string): string {
    if KEY_PREFIX <= key then key else KEY_PREFIX + key
  }

  /** The lock key of a job's bucket. */
  function LockKey(name: string, bucket: nat): string {
    FullKey(TickId(name, bucket))
  }

  /** The name under which a job's keys are really stored. */
  function Qualified(name: string): string {
    if KEY_PREFIX <= name + ":" then name else KEY_PREFIX + name
  }

  /** A prefix that ends in a colon does not reach into a colon-free last field. */
  lemma PrefixStops(prefix: string, head: string, rest: string)
    requires prefix != "" && prefix[|prefix| - 1] == ':' && ':' !in rest
    ensures prefix <= head + rest <==> prefix <= head
  {
    var key, p := head + rest, |prefix|;
    forall i | |head| <= i < |key| ensures key[i] != ':' {
      assert rest[i - |head|] in rest;
    }
    if prefix <= key {
      assert key[p - 1] == ':';
      assert key[..p] == head[..p];
    }
  }

  lemma LockKeyQualified(name: string, bucket: nat)
    ensures LockKey(name, bucket) == Qualified(name) + ":" + Decimal(bucket)
  {
    var key := TickId(name, bucket);
    assert key == (name + ":") + Decimal(bucket);
    PrefixStops(KEY_PREFIX, name + ":", Decimal(bucket));
    assert KEY_PREFIX + key == (KEY_PREFIX + name) + ":" + Decimal(bucket);
  }

  /** Two lock keys coincide exactly when the bucket and the qualified name coincide. */
  lemma LockKeysCoincide(m: string, b: nat, n: string, c: nat)
    ensures LockKey(m, b) == LockKey(n, c) <==> b == c && Qualified(m) == Qualified(n)
  {
    LockKeyQualified(m, b);
    LockKeyQualified(n, c);
    if LockKey(m, b) == LockKey(n, c) {
      SplitLast(Qualified(m), Qualified(n), Decimal(b), Decimal(c));
      DecimalInjective(b, c);
    }
  }

  /** Names that do not start with the key prefix never share a lock key. */
  lemma LockKeyInjective(m: string, b: nat, n: string, c: nat)
    requires !(KEY_PREFIX <= m) && !(KEY_PREFIX <= n)
    requires LockKey(m, b) == LockKey(n, c)
    ensures m == n && b == c
  {
    LockKeysCoincide(m, b, n, c);
    var p := |KEY_PREFIX|;
    if KEY_PREFIX <= m + ":" {
      BarePrefix(m);
    }
    if KEY_PREFIX <= n + ":" {
      BarePrefix(n);
    }
    if Qualified(m) == KEY_PREFIX + m {
      assert Qualified(m)[p..] == m;
    }
    if Qualified(n) == KEY_PREFIX + n {
      assert Qualified(n)[p..] == n;
    }
    if |m| == p - 1 || |n| == p - 1 {
      assert |KEY_PREFIX + m| >= p && |KEY_PREFIX + n| >= p;
    }
  }

  lemma BarePrefix(name: string)
    requires KEY_PREFIX <= name + ":" && !(KEY_PREFIX <= name)
    ensures |name| == |KEY_PREFIX| - 1 && name == KEY_PREFIX[..|KEY_PREFIX| - 1]
  {
    var p := |KEY_PREFIX|;
    assert forall i :: 0 <= i < |name| ==> name[i] == (name + ":")[i];
    assert forall i :: 0 <= i < p ==> KEY_PREFIX[i] == (name + ":")[i];
    assert name == (name + ":")[..p - 1];
  }

  /** The lock really is shared when one name is the other with the prefix already on it. */
  lemma PrefixedNameCollides(n: string, bucket: nat)
    requires !(KEY_PREFIX <= n + ":")
    ensures LockKey(KEY_PREFIX + n, bucket) == LockKey(n, bucket)
  {
    assert (KEY_PREFIX + n + ":")[..|KEY_PREFIX|] == KEY_PREFIX;
    LockKeysCoincide(KEY_PREFIX + n, bucket, n, bucket);
  }

  predicate Due(job: Job, now: real) {
    now - job.lastRun >= job.interval as real
  }

  function Judge(job: Job, now: real, hasLock: bool, e: Encounter): Verdict {
    if !Due(job, now) then NotDue
    else if hasLock && e.reply != Created then LostRace
    else if e.callbackOk then Completed
    else Failed
  }

  /** The job after a lost race or a completed callback; the local clock moves on. */
  function Settled(job: Job, mono: real, tickId: string): Job {
    job.(lastRun := mono, lastTickId := Some(tickId))
  }

  /** The job table entry after one pass. A failed callback leaves its job due. */
  function Advanced(name: string, job: Job, now: real, hasLock: bool, e: Encounter): Job {
    if Judge(job, now, hasLock, e) in {LostRace, Completed}
    then Settled(job, e.mono, TickId(name, Bucket(job.interval, e.wall)))
    else job
  }

  predicate Invoked(job: Job, now: real, hasLock: bool, e: Encounter) {
    Judge(job, now, hasLock, e) in {Completed, Failed}
  }

  /** The other names, in their order. */
  function Without(s: seq<string>, name: string): (r: seq<string>)
    ensures forall n :: n in r <==> (n in s && n != name)
  {
    if s == [] then [] else
    assert s == s[..|s| - 1] + [s[|s| - 1]];
    if s[|s| - 1] == name then Without(s[..|s| - 1], name) else Without(s[..|s| - 1], name) + [s[|s| - 1]]
  }

  lemma {:induction false} WithoutAbsent(s: seq<string>, name: string)
    requires name !in s
    ensures Without(s, name) == s
  {
    if s != [] {
      WithoutAbsent(s[..|s| - 1], name);
    }
  }

  /** Cutting the only occurrence out leaves the others as they were. */
  lemma {:induction false} WithoutAt(s: seq<string>, k: nat)
    requires Distinct(s) && k < |s|
    ensures Without(s, s[k]) == s[..k] + s[k + 1..]
  {
    var n := |s| - 1;
    if k == n {
      WithoutAbsent(s[..n], s[n]);
    } else {
      WithoutAt(s[..n], k);
      assert s[..k] + s[k + 1..] == (s[..n][..k] + s[..n][k + 1..]) + [s[n]];
    }
  }

  /**
   Not due: nothing happens. Beaten to the lock, where there is one: the clock moves on without the callback.
   Otherwise the callback runs, and the clock moves on unless it raises.
   */
  predicate TurnsOut(name: string, was: Job, now: real, hasLock: bool, e: Encounter, job: Job, ran: bool) {
    var settled := Job(was.interval, e.mono, Some(name + ":" + Decimal(Bucket(was.interval, e.wall))));
    if now - was.lastRun < was.interval as real then job == was && !ran
    else if hasLock && e.reply != Created then job == settled && !ran
    else job == (if e.callbackOk then settled else was) && ran
  }

  class Scheduler {
    var jobs: map<string, Job>
    var order: seq<string>
    const hasLock: bool

    ghost predicate Valid()
      reads this
    {
      && Distinct(order)
      && forall n :: n in order <==> n in jobs
    }

    constructor (hasLock: bool)
      ensures Valid() && jobs == map[] && this.hasLock == hasLock
    {
      this.jobs := map[];
      this.order := [];
      this.hasLock := hasLock;
    }

    /** A job registered again starts afresh but keeps its place in the iteration order. */
    method Register(name: string, interval: int)
      requires Valid()
      modifies this
      ensures Valid()
      ensures jobs == old(jobs)[name := Job(interval, 0.0, None)]
      ensures order == if name in old(jobs) then old(order) else old(order) + [name]
    {
      if name !in jobs {
        order := order + [name];
      }
      jobs := jobs[name := Job(interval, 0.0, None)];
    }

    method Unregister(name: string)
      requires Valid()
      modifies this
      ensures Valid()
      ensures jobs == old(jobs) - {name}
      ensures order == Without(old(order), name)
    {
      if name in jobs {
        var k :| 0 <= k < |order| && order[k] == name;
        WithoutAt(order, k);
        order := order[..k] + order[k + 1..];
        jobs := jobs - {name};
      } else {
        WithoutAbsent(order, name);
      }
    }

    /** The body of the loop, for one job. */
    method TickJob(name: string, now: real, e: Encounter) returns (invoked: bool)
      requires name in jobs
      modifies this`jobs
      ensures jobs == old(jobs)[name := Advanced(name, old(jobs)[name], now, hasLock, e)]
      ensures invoked == Invoked(old(jobs)[name], now, hasLock, e)
    {
      var job := jobs[name];
      invoked := false;
      if !(now - job.lastRun < job.interval as real) {
        var tickId := TickId(name, Bucket(job.interval, e.wall));
        if hasLock && e.reply != Created {
          jobs := jobs[name := Settled(job, e.mono, tickId)];
        } else {
          invoked := true;
          if e.callbackOk {
            jobs := jobs[name := Settled(job, e.mono, tickId)];
          }
        }
      }
    }

    /** One pass over the job table; `ran` marks the positions whose callback was invoked. */
    method Tick(now: real, env: seq<Encounter>) returns (ran: seq<bool>)
      requires Valid() && |env| == |order|
      modifies this`jobs
      ensures Valid() && jobs.Keys == old(jobs).Keys && |ran| == |order|
      ensures forall k :: 0 <= k < |order| ==>
        && jobs[order[k]] == Advanced(order[k], old(jobs)[order[k]], now, hasLock, env[k])
        && ran[k] == Invoked(old(jobs)[order[k]], now, hasLock, env[k])
      ensures forall k :: 0 <= k < |order| ==>
        TurnsOut(order[k], old(jobs)[order[k]], now, hasLock, env[k], jobs[order[k]], ran[k])
    {
      ran := [];
      ghost var was := jobs;
      for k := 0 to |order|
        invariant jobs.Keys == was.Keys && |ran| == k
        invariant forall i :: k <= i < |order| ==> jobs[order[i]] == was[order[i]]
        invariant forall i :: 0 <= i < k ==>
          && jobs[order[i]] == Advanced(order[i], was[order[i]], now, hasLock, env[i])
          && ran[i] == Invoked(was[order[i]], now, hasLock, env[i])
      {
        var invoked := TickJob(order[k], now, env[k]);
        ran := ran + [invoked];
      }
    }
  }
}
