/** The in-memory rate limiter: pruned per-client buckets stand for a window over the full admission log. */
module RateLimit {

  datatype Request = Request(key: string, now: real, admitted: bool)

  /** `[t for t in s if t > cutoff]`. */
  function Prune(s: seq<real>, cutoff: real): (r: seq<real>)
    ensures |r| <= |s|
  {
    if s == [] then [] else
    var init := Prune(s[..|s| - 1], cutoff);
    if s[|s| - 1] > cutoff then init + [s[|s| - 1]] else init
  }

  /** The admission times of one client, oldest first. */
  function Admissions(history: seq<Request>, key: string): seq<real> {
    if history == [] then [] else
    var r := history[|history| - 1];
    var before := Admissions(history[..|history| - 1], key);
    if r.key == key && r.admitted then before + [r.now] else before
  }

  /** The bucket the source keeps: pruned at every request of the client, extended when it is admitted. */
  function Bucket(history: seq<Request>, key: string, window: real): seq<real> {
    if history == [] then [] else
    var r := history[|history| - 1];
    var before := Bucket(history[..|history| - 1], key, window);
    if r.key != key then before
    else Prune(before, r.now - window) + if r.admitted then [r.now] else []
  }

  /** Every request was decided by the size of its client's bucket. */
  ghost predicate Decided(history: seq<Request>, maxRequests: nat, window: real) {
    history == [] ||
    var h, r := history[..|history| - 1], history[|history| - 1];
    && Decided(h, maxRequests, window)
    && (r.admitted <==> |Prune(Bucket(h, r.key, window), r.now - window)| < maxRequests)
  }

  /** The clock readings follow the order in which the lock was taken. */
  ghost predicate InOrder(history: seq<Request>) {
    forall i, j :: 0 <= i < j < |history| ==> history[i].now <= history[j].now
  }

  function CountIn(s: seq<real>, after: real, upTo: real): (n: nat)
    ensures n <= |s|
  {
    if s == [] then 0 else
    CountIn(s[..|s| - 1], after, upTo) + if after < s[|s| - 1] <= upTo then 1 else 0
  }

  /** `_buckets[key]` of a defaultdict. */
  function Lookup(buckets: map<string, seq<real>>, key: string): seq<real> {
    if key in buckets then buckets[key] else []
  }

  ghost predicate Agrees(buckets: map<string, seq<real>>, history: seq<Request>, maxRequests: nat, window: real) {
    && Decided(history, maxRequests, window)
    && forall key :: Lookup(buckets, key) == Bucket(history, key, window)
  }

  class RateLimiter {
    const maxRequests: nat
    const windowSeconds: int
    var buckets: map<string, seq<real>>
    ghost var history: seq<Request>

    ghost predicate Valid()
      reads this
    {
      Agrees(buckets, history, maxRequests, windowSeconds as real)
    }

    constructor (maxRequests: nat, windowSeconds: int)
      ensures Valid() && history == []
      ensures this.maxRequests == maxRequests && this.windowSeconds == windowSeconds
    {
      this.maxRequests := maxRequests;
      this.windowSeconds := windowSeconds;
      buckets, history := map[], [];
    }

    /** Requests outside the webhook paths pass without being recorded. */
    method Dispatch(webhook: bool, key: string, now: real) returns (allowed: bool)
      requires Valid()
      modifies this
      ensures Valid()
      ensures !webhook ==> allowed && history == old(history) && buckets == old(buckets)
      ensures webhook ==> history == old(history) + [Request(key, now, allowed)]
      ensures webhook ==> (allowed <==> |Prune(Lookup(old(buckets), key), now - windowSeconds as real)| < maxRequests)
      ensures forall k :: k != key ==> Lookup(buckets, k) == Lookup(old(buckets), k)
    {
      if !webhook {
        return true;
      }
      ghost var was := buckets;
      var kept := Prune(Lookup(buckets, key), now - windowSeconds as real);
      buckets := buckets[key := kept];
      allowed := !(|kept| >= maxRequests);
      if allowed {
        buckets := buckets[key := kept + [now]];
      }
      AgreesSnoc(was, history, Request(key, now, allowed), maxRequests, windowSeconds as real);
      history := history + [Request(key, now, allowed)];
    }
  }

  /** Deciding one request keeps the buckets in agreement with the log. */
  lemma AgreesSnoc(buckets: map<string, seq<real>>, h: seq<Request>, r: Request, maxRequests: nat, window: real)
    requires Agrees(buckets, h, maxRequests, window)
    requires r.admitted <==> |Prune(Lookup(buckets, r.key), r.now - window)| < maxRequests
    ensures var kept := Prune(Lookup(buckets, r.key), r.now - window);
      Agrees(buckets[r.key := if r.admitted then kept + [r.now] else kept], h + [r], maxRequests, window)
  {
    var kept := Prune(Lookup(buckets, r.key), r.now - window);
    var after := buckets[r.key := if r.admitted then kept + [r.now] else kept];
    forall key ensures Lookup(after, key) == Bucket(h + [r], key, window) {
      assert Lookup(buckets, key) == Bucket(h, key, window);
      BucketSnoc(h, r, key, window);
    }
    DecidedSnoc(h, r, maxRequests, window);
  }

  lemma BucketSnoc(h: seq<Request>, r: Request, key: string, window: real)
    ensures Bucket(h + [r], key, window) ==
      if r.key != key then Bucket(h, key, window)
      else if r.admitted then Prune(Bucket(h, key, window), r.now - window) + [r.now]
      else Prune(Bucket(h, key, window), r.now - window)
  {
    assert (h + [r])[..|h|] == h;
    var p := Prune(Bucket(h, key, window), r.now - window);
    assert p + [] == p;
  }

  lemma DecidedSnoc(h: seq<Request>, r: Request, maxRequests: nat, window: real)
    ensures Decided(h + [r], maxRequests, window) <==>
      Decided(h, maxRequests, window) &&
        (r.admitted <==> |Prune(Bucket(h, r.key, window), r.now - window)| < maxRequests)
  {
    assert (h + [r])[..|h|] == h;
  }

  // ---- The bucket is a window over the log ----

  lemma {:induction false} PruneTwice(s: seq<real>, c: real, d: real)
    requires c <= d
    ensures Prune(Prune(s, c), d) == Prune(s, d)
  {
    if s != [] {
      var init, last := s[..|s| - 1], s[|s| - 1];
      PruneTwice(init, c, d);
      if last > c {
        assert (Prune(init, c) + [last])[..|Prune(init, c)|] == Prune(init, c);
      }
    }
  }

  lemma PruneSnoc(s: seq<real>, t: real, c: real)
    ensures Prune(s + [t], c) == Prune(s, c) + if t > c then [t] else []
  {
    assert (s + [t])[..|s|] == s;
  }

  /** One more request: the bucket and the log, pruned at any later time, still agree. */
  lemma WindowSnoc(before: seq<real>, log: seq<real>, t: real, admitted: bool, c: real, d: real)
    requires c <= d && Prune(before, d) == Prune(log, d)
    ensures Prune(Prune(before, c) + if admitted then [t] else [], d) == Prune(if admitted then log + [t] else log, d)
  {
    PruneTwice(before, c, d);
    if admitted {
      PruneSnoc(Prune(before, c), t, d);
      PruneSnoc(log, t, d);
    } else {
      assert Prune(before, c) + [] == Prune(before, c);
    }
  }

  /**
   Pruned at a time no earlier than the readings, the bucket is the whole admission log filtered to the last
   window.
   */
  lemma {:induction false} BucketIsWindow(history: seq<Request>, key: string, window: real, now: real)
    requires forall i :: 0 <= i < |history| ==> history[i].now <= now
    ensures Prune(Bucket(history, key, window), now - window) == Prune(Admissions(history, key), now - window)
  {
    if history != [] {
      var h, r := history[..|history| - 1], history[|history| - 1];
      BucketIsWindow(h, key, window, now);
      if r.key == key {
        WindowSnoc(Bucket(h, key, window), Admissions(h, key), r.now, r.admitted, r.now - window, now - window);
      }
    }
  }

  /** Readings in order: the part of the log after `cutoff` is the part between `cutoff` and now. */
  lemma {:induction false} WindowSize(s: seq<real>, after: real, now: real)
    requires forall i :: 0 <= i < |s| ==> s[i] <= now
    ensures |Prune(s, after)| == CountIn(s, after, now)
  {
    if s != [] {
      WindowSize(s[..|s| - 1], after, now);
    }
  }

  lemma {:induction false} AdmissionsBefore(history: seq<Request>, key: string, now: real)
    requires forall i :: 0 <= i < |history| ==> history[i].now <= now
    ensures forall i :: 0 <= i < |Admissions(history, key)| ==> Admissions(history, key)[i] <= now
  {
    if history != [] {
      AdmissionsBefore(history[..|history| - 1], key, now);
    }
  }

  /** A request is rejected exactly when `maxRequests` admissions of its client lie in the last window. */
  lemma RejectedExactlyWhenFull(history: seq<Request>, r: Request, maxRequests: nat, window: real)
    requires Decided(history + [r], maxRequests, window) && InOrder(history + [r])
    ensures r.admitted <==> CountIn(Admissions(history, r.key), r.now - window, r.now) < maxRequests
  {
    var all := history + [r];
    assert all[..|all| - 1] == history;
    assert forall i :: 0 <= i < |history| ==> history[i] == all[i];
    assert all[|history|] == r;
    BucketIsWindow(history, r.key, window, r.now);
    AdmissionsBefore(history, r.key, r.now);
    WindowSize(Admissions(history, r.key), r.now - window, r.now);
  }

  lemma {:induction false} PruneShrinks(s: seq<real>, c: real, d: real)
    requires c <= d
    ensures |Prune(s, d)| <= |Prune(s, c)|
  {
    if s != [] {
      PruneShrinks(s[..|s| - 1], c, d);
    }
  }

  lemma {:induction false} CountInPruned(s: seq<real>, after: real, upTo: real)
    ensures CountIn(s, after, upTo) <= |Prune(s, after)|
  {
    if s != [] {
      CountInPruned(s[..|s| - 1], after, upTo);
    }
  }

  lemma CountInSnoc(s: seq<real>, t: real, after: real, upTo: real)
    ensures CountIn(s + [t], after, upTo) == CountIn(s, after, upTo) + if after < t <= upTo then 1 else 0
  {
    assert (s + [t])[..|s|] == s;
  }

  /** No reading is earlier by more than `late` than one that was processed before it. */
  ghost predicate LateBy(history: seq<Request>, late: real) {
    forall i, j :: 0 <= i < j < |history| ==> history[i].now <= history[j].now + late
  }

  lemma LateByInit(history: seq<Request>, late: real)
    requires LateBy(history, late) && history != []
    ensures LateBy(history[..|history| - 1], late)
    ensures forall i :: 0 <= i < |history| - 1 ==> history[i].now <= history[|history| - 1].now + late
  {
  }

  /** Where the bucket and the log agree after `c`, room in the bucket is room in any window of the log from then on. */
  lemma RoomInWindow(bucket: seq<real>, log: seq<real>, cutoff: real, c: real, x: real, upTo: real)
    requires cutoff <= c <= x && Prune(bucket, c) == Prune(log, c)
    ensures CountIn(log, x, upTo) <= |Prune(bucket, cutoff)|
  {
    PruneShrinks(bucket, cutoff, c);
    PruneShrinks(log, c, x);
    CountInPruned(log, x, upTo);
  }

  /** When a request is admitted, there was room for it in every window that starts early enough. */
  lemma AdmittedHasRoom(h: seq<Request>, r: Request, maxRequests: nat, window: real, late: real, x: real, upTo: real)
    requires Decided(h + [r], maxRequests, window) && r.admitted
    requires late >= 0.0 && forall i :: 0 <= i < |h| ==> h[i].now <= r.now + late
    requires x >= r.now + late - window
    ensures CountIn(Admissions(h, r.key), x, upTo) < maxRequests
  {
    DecidedSnoc(h, r, maxRequests, window);
    BucketIsWindow(h, r.key, window, r.now + late);
    RoomInWindow(Bucket(h, r.key, window), Admissions(h, r.key), r.now - window, r.now + late - window, x, upTo);
  }

  /**
   Readings late by at most `late` shorten the protected window by as much: no window shorter than the
   configured one by `late`, wherever it starts, holds more than `maxRequests` admissions.
   */
  lemma {:induction false} LateWindowBounded(history: seq<Request>, key: string, maxRequests: nat, window: real,
                                             late: real, x: real)
    requires Decided(history, maxRequests, window) && late >= 0.0 && LateBy(history, late)
    ensures CountIn(Admissions(history, key), x, x + window - late) <= maxRequests
  {
    if history != [] {
      var h, r := history[..|history| - 1], history[|history| - 1];
      var s := Admissions(h, key);
      LateByInit(history, late);
      LateWindowBounded(h, key, maxRequests, window, late, x);
      CountInSnoc(s, r.now, x, x + window - late);
      if r.key == key && r.admitted && x < r.now <= x + window - late {
        assert h + [r] == history;
        AdmittedHasRoom(h, r, maxRequests, window, late, x, x + window - late);
      }
    }
  }

  /** No window of the configured length, wherever it starts, holds more than `maxRequests` admissions. */
  lemma EveryWindowBounded(history: seq<Request>, key: string, maxRequests: nat, window: real, x: real)
    requires Decided(history, maxRequests, window) && InOrder(history)
    ensures CountIn(Admissions(history, key), x, x + window) <= maxRequests
  {
    LateWindowBounded(history, key, maxRequests, window, 0.0, x);
  }
}
