/**
 The enrichment cache: a store that evicts lazily, counters, and the facade that lays out keys.
 The store is proved to answer as the log of its writes does.
 */
module EnrichmentCache {
  import opened Common
  import opened Text

  // ---- The log the store stands for ----

  datatype Op =
    | Set(key: string, value: string, ttl: int, at: real)
    | Delete(key: string)
    | DeletePrefix(prefix: string)

  datatype Entry = Entry(value: string, expiresAt: real)

  function EntryOf(value: string, ttl: int, at: real): Entry {
    Entry(value, at + (if ttl < 0 then 0 else ttl) as real)
  }

  predicate Touches(op: Op, key: string) {
    match op
    case Set(k, _, _, _) => k == key
    case Delete(k) => k == key
    case DeletePrefix(p) => p <= key
  }

  /** What the last operation on the key left behind. */
  function Latest(log: seq<Op>, key: string): Option<Entry> {
    if log == [] then None else
    var op := log[|log| - 1];
    if !Touches(op, key) then Latest(log[..|log| - 1], key)
    else if op.Set? then Some(EntryOf(op.value, op.ttl, op.at)) else None
  }

  /** The last value set since the last removal, while it is younger than its time to live. */
  function Answer(log: seq<Op>, key: string, now: real): Option<string> {
    match Latest(log, key)
    case Some(e) => if now < e.expiresAt then Some(e.value) else None
    case None => None
  }

  /** `i` is the set that answers for the key: nothing after it touches the key, and it is still fresh. */
  ghost predicate FreshSet(log: seq<Op>, key: string, now: real, i: int, value: string) {
    && 0 <= i < |log| && log[i].Set? && log[i].key == key && log[i].value == value
    && now < log[i].at + (if log[i].ttl < 0 then 0 else log[i].ttl) as real
    && forall j :: i < j < |log| ==> !Touches(log[j], key)
  }

  /** Some set of the key to this text is still in force. */
  ghost predicate Holds(log: seq<Op>, key: string, now: real, text: string) {
    exists i :: FreshSet(log, key, now, i, text)
  }

  /** An answer is exactly a set of the key, not removed or replaced since, less than its ttl ago. */
  lemma {:induction false} AnswerMeansFreshSet(log: seq<Op>, key: string, now: real, value: string)
    ensures Answer(log, key, now) == Some(value) <==> exists i :: FreshSet(log, key, now, i, value)
  {
    if log != [] {
      var init, n := log[..|log| - 1], |log| - 1;
      if Touches(log[n], key) {
        assert Answer(log, key, now) == Some(value) <==> FreshSet(log, key, now, n, value);
        assert forall i :: FreshSet(log, key, now, i, value) ==> i == n;
      } else {
        AnswerMeansFreshSet(init, key, now, value);
        if i :| FreshSet(init, key, now, i, value) {
          assert FreshSet(log, key, now, i, value);
        }
        if i :| FreshSet(log, key, now, i, value) {
          assert FreshSet(init, key, now, i, value);
        }
      }
    }
  }

  lemma LatestSnoc(log: seq<Op>, op: Op, key: string)
    ensures Latest(log + [op], key) ==
      if !Touches(op, key) then Latest(log, key)
      else if op.Set? then Some(EntryOf(op.value, op.ttl, op.at)) else None
  {
    assert (log + [op])[..|log|] == log;
  }

  /** The store holds the log's latest entries, except some that had expired by the last clock reading. */
  ghost predicate Represents(store: map<string, Entry>, log: seq<Op>, clock: real) {
    forall key ::
      if key in store then Latest(log, key) == Some(store[key])
      else match Latest(log, key) case Some(e) => e.expiresAt <= clock case None => true
  }

  function Applied(store: map<string, Entry>, op: Op): map<string, Entry> {
    match op
    case Set(k, v, ttl, at) => store[k := EntryOf(v, ttl, at)]
    case Delete(k) => store - {k}
    case DeletePrefix(p) => map k | k in store && !(p <= k) :: store[k]
  }

  lemma RepresentsSnoc(store: map<string, Entry>, log: seq<Op>, op: Op, clock: real)
    requires Represents(store, log, clock)
    ensures Represents(Applied(store, op), log + [op], clock)
  {
    forall key ensures var s := Applied(store, op);
      if key in s then Latest(log + [op], key) == Some(s[key])
      else match Latest(log + [op], key) case Some(e) => e.expiresAt <= clock case None => true
    {
      LatestSnoc(log, op, key);
    }
  }

  /** Other tasks' operations while the fetch is awaited, in clock order. */
  ghost predicate Timely(ops: seq<Op>, from: real, to: real) {
    && (forall i :: 0 <= i < |ops| && ops[i].Set? ==> from <= ops[i].at <= to)
    && (forall i, j :: 0 <= i < j < |ops| && ops[i].Set? && ops[j].Set? ==> ops[i].at <= ops[j].at)
  }

  class InMemoryCacheBackend {
    var store: map<string, Entry>
    ghost var log: seq<Op>
    ghost var clock: real

    ghost predicate Valid()
      reads this
    {
      Represents(store, log, clock)
    }

    constructor (ghost start: real)
      ensures Valid() && log == [] && clock == start && store == map[]
    {
      store, log, clock := map[], [], start;
    }

    method Get(key: string, now: real) returns (value: Option<string>)
      requires Valid() && now >= clock
      modifies this`store, this`clock
      ensures Valid() && clock == now
      ensures value == Answer(log, key, now)
      ensures forall k :: k != key ==> (k in store <==> k in old(store))
    {
      clock := now;
      if key !in store {
        return None;
      }
      var Entry(v, expiresAt) := store[key];
      if now >= expiresAt {
        store := store - {key};
        return None;
      }
      return Some(v);
    }

    method SetEntry(key: string, value: string, ttl: int, now: real)
      requires Valid() && now >= clock
      modifies this
      ensures Valid() && clock == now && log == old(log) + [Set(key, value, ttl, now)]
    {
      RepresentsSnoc(store, log, Set(key, value, ttl, now), clock);
      store := store[key := Entry(value, now + (if ttl > 0 then ttl else 0) as real)];
      log := log + [Set(key, value, ttl, now)];
      clock := now;
    }

    method Remove(key: string)
      requires Valid()
      modifies this`store, this`log
      ensures Valid() && log == old(log) + [Delete(key)]
    {
      RepresentsSnoc(store, log, Delete(key), clock);
      store := store - {key};
      log := log + [Delete(key)];
    }

    /** Collects the matching keys, then deletes them one by one. */
    method RemovePrefix(prefix: string) returns (count: nat)
      requires Valid()
      modifies this`store, this`log
      ensures Valid() && log == old(log) + [DeletePrefix(prefix)]
      ensures count == |set k | k in old(store) && prefix <= k|
      ensures store == map k | k in old(store) && !(prefix <= k) :: old(store)[k]
    {
      RepresentsSnoc(store, log, DeletePrefix(prefix), clock);
      ghost var was := store;
      var matching := set k | k in store && prefix <= k;
      var rest := matching;
      while rest != {}
        invariant rest <= matching
        invariant store == map k | k in was && (prefix <= k ==> k in rest) :: was[k]
        decreases rest
        modifies this`store
      {
        var k :| k in rest;
        store := store - {k};
        rest := rest - {k};
      }
      count := |matching|;
      log := log + [DeletePrefix(prefix)];
    }

    /** Another task's write; it happens at or after the last reading. */
    method Apply(op: Op)
      requires Valid() && (op.Set? ==> op.at >= clock)
      modifies this
      ensures Valid() && log == old(log) + [op]
      ensures clock == if op.Set? then op.at else old(clock)
    {
      match op
      case Set(k, v, ttl, at) => SetEntry(k, v, ttl, at);
      case Delete(k) => Remove(k);
      case DeletePrefix(p) => var n := RemovePrefix(p);
    }

    method ApplyAll(ops: seq<Op>, ghost from: real, ghost to: real)
      requires Valid() && clock <= from <= to && Timely(ops, from, to)
      modifies this
      ensures Valid() && clock <= to && log == old(log) + ops
    {
      ghost var was := log;
      for i := 0 to |ops|
        invariant Valid() && log == was + ops[..i] && clock <= to
        invariant forall j :: i <= j < |ops| && ops[j].Set? ==> clock <= ops[j].at
      {
        Apply(ops[i]);
        assert ops[..i + 1] == ops[..i] + [ops[i]];
      }
      assert ops[..|ops|] == ops;
    }
  }

  // ---- Counters ----

  datatype Tally = Tally(hits: nat, misses: nat, stores: nat, invalidations: nat)

  datatype Kind = Hits | Misses | Stores | Invalidations

  function Count(t: Tally, kind: Kind): nat {
    match kind
    case Hits => t.hits
    case Misses => t.misses
    case Stores => t.stores
    case Invalidations => t.invalidations
  }

  function Bumped(t: Tally, kind: Kind, n: nat): Tally {
    match kind
    case Hits => t.(hits := t.hits + n)
    case Misses => t.(misses := t.misses + n)
    case Stores => t.(stores := t.stores + n)
    case Invalidations => t.(invalidations := t.invalidations + n)
  }

  const NO_EVENTS := Tally(0, 0, 0, 0)

  function TallyOf(m: map<string, Tally>, source: string): Tally {
    if source in m then m[source] else NO_EVENTS
  }

  ghost function Sum(m: map<string, Tally>, kind: Kind): nat {
    if m == map[] then 0 else
    var k :| k in m;
    Count(m[k], kind) + Sum(m - {k}, kind)
  }

  lemma {:induction false} SumWithout(m: map<string, Tally>, k: string, kind: Kind)
    requires k in m
    ensures Sum(m, kind) == Count(m[k], kind) + Sum(m - {k}, kind)
    decreases |m|
  {
    var j :| j in m && Sum(m, kind) == Count(m[j], kind) + Sum(m - {j}, kind);
    if j != k {
      SumWithout(m - {j}, k, kind);
      SumWithout(m - {k}, j, kind);
      assert m - {j} - {k} == m - {k} - {j};
    }
  }

  /** Bumping one source's counter raises the sum over the sources by as much. */
  lemma SumBumped(m: map<string, Tally>, source: string, bumped: Kind, kind: Kind)
    ensures Sum(m[source := Bumped(TallyOf(m, source), bumped, 1)], kind) ==
      Sum(m, kind) + if kind == bumped then 1 else 0
  {
    var after := m[source := Bumped(TallyOf(m, source), bumped, 1)];
    SumWithout(after, source, kind);
    assert after - {source} == m - {source};
    if source in m {
      SumWithout(m, source, kind);
    } else {
      assert m - {source} == m;
    }
  }

  class CacheMetrics {
    var totals: Tally
    var bySource: map<string, Tally>

    /** Per-source hits, misses and stores add up to the global counters. */
    ghost predicate Valid()
      reads this
    {
      forall kind :: kind != Invalidations ==> Sum(bySource, kind) == Count(totals, kind)
    }

    constructor ()
      ensures Valid() && totals == NO_EVENTS && bySource == map[]
    {
      totals, bySource := NO_EVENTS, map[];
    }

    method Record(kind: Kind, source: string, count: nat)
      requires Valid() && (kind != Invalidations ==> count == 1)
      modifies this
      ensures Valid() && totals == Bumped(old(totals), kind, count)
      ensures bySource == old(bySource)[source := Bumped(TallyOf(old(bySource), source), kind, 1)]
      ensures Sum(bySource, Invalidations) == Sum(old(bySource), Invalidations) + if kind == Invalidations then 1 else 0
    {
      ghost var after := bySource[source := Bumped(TallyOf(bySource, source), kind, 1)];
      forall k: Kind
        ensures Sum(after, k) == Sum(bySource, k) + if k == kind then 1 else 0
        ensures k != Invalidations ==> Sum(after, k) == Count(Bumped(totals, kind, count), k)
      {
        SumBumped(bySource, source, kind, k);
        assert k != Invalidations ==> Sum(bySource, k) == Count(totals, k);
      }
      totals := Bumped(totals, kind, count);
      bySource := bySource[source := Bumped(TallyOf(bySource, source), kind, 1)];
    }
  }

  // ---- Keys ----

  const CACHE_KEY_PREFIX := "opensoar:enrichment:"

  /** `digest` stands for the truncated SHA-256 in hexadecimal. */
  function BuildKey(digest: string -> string, source: string, obsType: string, value: string): string {
    CACHE_KEY_PREFIX + (source + ":" + (obsType + ":" + digest(value)))
  }

  function SourcePrefix(source: string): string {
    CACHE_KEY_PREFIX + (source + ":")
  }

  ghost predicate ColonFreeDigests(digest: string -> string) {
    forall v :: ':' !in digest(v)
  }

  /** Keys of colon-free sources agree exactly on source, type and digest. */
  lemma KeysCoincide(digest: string -> string, s: string, t: string, v: string, s': string, t': string, v': string)
    requires ColonFreeDigests(digest) && ':' !in s && ':' !in s'
    ensures BuildKey(digest, s, t, v) == BuildKey(digest, s', t', v') <==> s == s' && t == t' && digest(v) == digest(v')
  {
    var k, k', n := BuildKey(digest, s, t, v), BuildKey(digest, s', t', v'), |CACHE_KEY_PREFIX|;
    if k == k' {
      assert k[n..] == s + ":" + (t + ":" + digest(v)) && k'[n..] == s' + ":" + (t' + ":" + digest(v'));
      SplitFirst(s, s', t + ":" + digest(v), t' + ":" + digest(v'));
      SplitLast(t, t', digest(v), digest(v'));
    }
  }

  /** A colon-free source's prefix matches exactly its own keys and those of sources that continue it after a colon. */
  lemma PrefixSelectsSource(digest: string -> string, source: string, s: string, t: string, v: string)
    requires ':' !in source
    ensures SourcePrefix(source) <= BuildKey(digest, s, t, v) <==> (s == source || source + ":" <= s)
  {
    var k, p, n := BuildKey(digest, s, t, v), SourcePrefix(source), |CACHE_KEY_PREFIX|;
    var rest := ":" + (t + ":" + digest(v));
    assert k[n..] == s + rest && p[n..] == source + ":" && k[..n] == p[..n];
    assert p <= k <==> source + ":" <= s + rest by {
      if p <= k {
        assert k[n..|p|] == source + ":";
        assert (s + rest)[..|source| + 1] == source + ":";
      }
      if source + ":" <= s + rest {
        assert p == k[..n] + (source + ":") == k[..|p|];
      }
    }
    ColonEndsField(source, s, rest);
  }

  /** `source` and a colon start `s` and a rest led by a colon exactly when `s` is the source or continues it. */
  lemma ColonEndsField(source: string, s: string, rest: string)
    requires ':' !in source && rest != "" && rest[0] == ':'
    ensures source + ":" <= s + rest <==> (s == source || source + ":" <= s)
  {
    var all, head := s + rest, source + ":";
    assert all[|s|] == ':';
    forall i | 0 <= i < |source| ensures head[i] != ':' {
      assert source[i] in source;
    }
    if head <= all {
      assert |s| >= |source|;
      if |s| == |source| {
        assert s == all[..|s|] == head[..|source|] == source;
      } else {
        assert head == all[..|head|] == s[..|head|];
      }
    }
    if s == source {
      assert head == all[..|head|];
    }
  }

  /** The key was built for the source. */
  ghost predicate BuiltFor(digest: string -> string, source: string, key: string) {
    exists t, v :: key == BuildKey(digest, source, t, v)
  }

  ghost predicate BuiltForColonFree(digest: string -> string, key: string) {
    exists s :: ':' !in s && BuiltFor(digest, s, key)
  }

  lemma PrefixElements(p: string, s: string)
    ensures p <= s ==> forall c :: c in p ==> c in s
  {
  }

  /** Among keys of colon-free sources, the prefix selects exactly those built for the source. */
  lemma PrefixSelectsBuilt(digest: string -> string, source: string, key: string)
    requires ':' !in source && BuiltForColonFree(digest, key)
    ensures SourcePrefix(source) <= key <==> BuiltFor(digest, source, key)
  {
    var s :| ':' !in s && BuiltFor(digest, s, key);
    var t, v :| key == BuildKey(digest, s, t, v);
    PrefixSelectsSource(digest, source, s, t, v);
    assert ':' in source + ":" by {
      assert (source + ":")[|source|] == ':';
    }
    PrefixElements(source + ":", s);
    if t', v' :| key == BuildKey(digest, source, t', v') {
      PrefixSelectsSource(digest, source, source, t', v');
    }
  }

  // ---- The facade ----

  /** A decoded payload; JSON null is what the source cannot tell from a miss. */
  datatype Payload = Null | Json(text: string)

  datatype Fetch = Raises | Fetched(payload: Payload)

  datatype Reply = Failed | Returned(payload: Payload)

  class EnrichmentCache {
    const backend: InMemoryCacheBackend
    const metrics: CacheMetrics
    const digest: string -> string
    const encode: Payload -> Option<string>
    const decode: string -> Option<Payload>

    ghost predicate Valid()
      reads this, backend, metrics
    {
      backend.Valid() && metrics.Valid()
    }

    constructor (backend: InMemoryCacheBackend, metrics: CacheMetrics, digest: string -> string,
                 encode: Payload -> Option<string>, decode: string -> Option<Payload>)
      requires backend.Valid() && metrics.Valid()
      ensures Valid() && this.backend == backend && this.metrics == metrics
      ensures this.digest == digest && this.encode == encode && this.decode == decode
    {
      this.backend, this.metrics := backend, metrics;
      this.digest, this.encode, this.decode := digest, encode, decode;
    }

    function Key(source: string, obsType: string, value: string): string {
      BuildKey(digest, source, obsType, value)
    }

    /** What a lookup yields from the raw answer; undecodable text is a miss. */
    function Decoded(raw: Option<string>): Payload {
      match raw
      case None => Null
      case Some(text) => match decode(text) case None => Null case Some(p) => p
    }

    method Get(source: string, obsType: string, value: string, now: real) returns (payload: Payload)
      requires Valid() && now >= backend.clock
      modifies backend`store, backend`clock
      ensures Valid() && backend.clock == now
      ensures payload == Decoded(Answer(backend.log, Key(source, obsType, value), now))
      ensures payload != Null <==>
        exists text, p ::
          Holds(backend.log, Key(source, obsType, value), now, text) && decode(text) == Some(p) && p != Null
      ensures forall text, p ::
        Holds(backend.log, Key(source, obsType, value), now, text) && decode(text) == Some(p) ==> payload == p
    {
      var raw := backend.Get(Key(source, obsType, value), now);
      payload := Decoded(raw);
      forall text ensures Holds(backend.log, Key(source, obsType, value), now, text) <==> raw == Some(text) {
        AnswerMeansFreshSet(backend.log, Key(source, obsType, value), now, text);
      }
    }

    method SetPayload(source: string, obsType: string, value: string, payload: Payload, ttl: int, now: real)
      requires Valid() && now >= backend.clock
      modifies backend, metrics
      ensures Valid()
      ensures encode(payload) == None ==> backend.log == old(backend.log) && metrics.totals == old(metrics.totals)
      ensures encode(payload) == None ==> backend.clock == old(backend.clock)
      ensures encode(payload) != None ==>
        && backend.log == old(backend.log) + [Set(Key(source, obsType, value), encode(payload).value, ttl, now)]
        && backend.clock == now
        && metrics.totals == old(metrics.totals).(stores := old(metrics.totals.stores) + 1)
    {
      match encode(payload)
      case None =>
      case Some(text) =>
        backend.SetEntry(Key(source, obsType, value), text, ttl, now);
        metrics.Record(Stores, source, 1);
    }

    method Invalidate(source: string, obsType: string, value: string) returns (n: nat)
      requires Valid()
      modifies backend, metrics
      ensures Valid() && n == 1 && backend.clock == old(backend.clock)
      ensures backend.log == old(backend.log) + [Delete(Key(source, obsType, value))]
      ensures metrics.totals == old(metrics.totals).(invalidations := old(metrics.totals.invalidations) + 1)
    {
      backend.Remove(Key(source, obsType, value));
      metrics.Record(Invalidations, source, 1);
      n := 1;
    }

    /**
     Removes exactly the stored keys under the source's prefix and returns their number: the keys of the
     source and of those that continue it after a colon, so the source's own where no source has a colon.
     */
    method InvalidateSource(source: string) returns (n: nat)
      requires Valid()
      modifies backend, metrics
      ensures Valid() && backend.clock == old(backend.clock)
      ensures n == |old(backend.store).Keys - backend.store.Keys|
      ensures forall k :: k in old(backend.store) ==> (k !in backend.store <==> SourcePrefix(source) <= k)
      ensures ':' !in source ==>
        forall s, t, v :: Key(s, t, v) in old(backend.store) ==>
          (Key(s, t, v) !in backend.store <==> (s == source || source + ":" <= s))
      ensures ':' !in source && (forall k :: k in old(backend.store) ==> BuiltForColonFree(digest, k)) ==>
        forall k :: k in old(backend.store) ==> (k !in backend.store <==> BuiltFor(digest, source, k))
      ensures backend.log == old(backend.log) + [DeletePrefix(SourcePrefix(source))]
      ensures metrics.totals == old(metrics.totals).(invalidations := old(metrics.totals.invalidations) + n)
    {
      ghost var was := backend.store;
      n := backend.RemovePrefix(SourcePrefix(source));
      assert was.Keys - backend.store.Keys == set k | k in was && SourcePrefix(source) <= k;
      metrics.Record(Invalidations, source, n);
      if ':' !in source {
        forall s, t, v ensures SourcePrefix(source) <= Key(s, t, v) <==> (s == source || source + ":" <= s) {
          PrefixSelectsSource(digest, source, s, t, v);
        }
        forall k | k in was && BuiltForColonFree(digest, k)
          ensures SourcePrefix(source) <= k <==> BuiltFor(digest, source, k)
        {
          PrefixSelectsBuilt(digest, source, k);
        }
      }
    }

    /**
     A hit returns a value set for the same key less than its ttl ago and not invalidated since, and changes
     nothing but the hit counter. A miss returns what the call's own fetch returns, or fails as it does; a
     fetched payload that can be encoded is stored under the key, after whatever others did meanwhile.
     */
    method GetOrFetch(source: string, obsType: string, value: string, fetch: Fetch, ttl: int,
                      now: real, during: seq<Op>, later: real) returns (reply: Reply, hit: bool)
      requires Valid() && backend.clock <= now <= later && Timely(during, now, later)
      modifies backend, metrics
      ensures Valid() && backend.clock <= later
      ensures hit <==>
        exists text, p ::
          Holds(old(backend.log), Key(source, obsType, value), now, text) && decode(text) == Some(p) && p != Null
      ensures hit ==>
        && reply.Returned? && backend.log == old(backend.log)
        && metrics.totals == old(metrics.totals).(hits := old(metrics.totals.hits) + 1)
        && forall text :: Holds(old(backend.log), Key(source, obsType, value), now, text) ==>
          decode(text) == Some(reply.payload)
      ensures !hit && fetch.Raises? ==>
        && reply == Failed && backend.log == old(backend.log) + during
        && metrics.totals == old(metrics.totals).(misses := old(metrics.totals.misses) + 1)
      ensures !hit && fetch.Fetched? && encode(fetch.payload) == None ==>
        && reply == Returned(fetch.payload) && backend.log == old(backend.log) + during
        && metrics.totals == old(metrics.totals).(misses := old(metrics.totals.misses) + 1)
      ensures !hit && fetch.Fetched? && encode(fetch.payload) != None ==>
        && reply == Returned(fetch.payload)
        && backend.log ==
          old(backend.log) + during + [Set(Key(source, obsType, value), encode(fetch.payload).value, ttl, later)]
        && metrics.totals ==
          old(metrics.totals).(misses := old(metrics.totals.misses) + 1, stores := old(metrics.totals.stores) + 1)
    {
      ghost var log := backend.log;
      var cached := Get(source, obsType, value, now);
      hit := cached != Null;
      if hit {
        metrics.Record(Hits, source, 1);
        return Returned(cached), hit;
      }
      metrics.Record(Misses, source, 1);
      backend.ApplyAll(during, now, later);
      if fetch.Raises? {
        return Failed, hit;
      }
      SetPayload(source, obsType, value, fetch.payload, ttl, later);
      reply := Returned(fetch.payload);
    }
  }

  /** Neither sets nor removes the key. */
  ghost predicate Spares(ops: seq<Op>, key: string) {
    forall i :: 0 <= i < |ops| ==>
      match ops[i]
      case Set(k, _, _, _) => k != key
      case Delete(k) => k != key
      case DeletePrefix(p) => !(p <= key)
  }

  lemma {:induction false} SparedStays(log: seq<Op>, since: seq<Op>, key: string)
    requires Spares(since, key)
    ensures Latest(log + since, key) == Latest(log, key)
  {
    if since == [] {
      assert log + since == log;
    } else {
      var init, last := since[..|since| - 1], since[|since| - 1];
      SparedStays(log, init, key);
      LatestSnoc(log + init, last, key);
      assert log + since == (log + init) + [last];
    }
  }

  /** What was set stays in force while the key is spared and its time to live lasts. */
  lemma SetHolds(log: seq<Op>, key: string, text: string, ttl: int, at: real, since: seq<Op>, now: real)
    requires Spares(since, key) && now < at + (if ttl < 0 then 0 else ttl) as real
    ensures forall t :: Holds(log + [Set(key, text, ttl, at)] + since, key, now, t) <==> t == text
  {
    var all := log + [Set(key, text, ttl, at)];
    LatestSnoc(log, Set(key, text, ttl, at), key);
    SparedStays(all, since, key);
    forall t ensures Holds(all + since, key, now, t) <==> t == text {
      AnswerMeansFreshSet(all + since, key, now, t);
    }
  }

  /**
   The point of the cache: after a call that missed and fetched, a second call for the same key returns that
   payload without fetching, while nobody touches the key and the time to live lasts.
   */
  method SecondCallHits(cache: EnrichmentCache, source: string, obsType: string, value: string, payload: Payload,
                        ttl: int, now: real, during: seq<Op>, later: real, since: seq<Op>, again: real, other: Fetch)
    returns (first: Reply, missed: bool, second: Reply, hit: bool)
    requires cache.Valid() && cache.backend.clock <= now <= later <= again
    requires Timely(during, now, later) && Timely(since, later, again)
    requires Spares(since, cache.Key(source, obsType, value))
    requires again < later + (if ttl < 0 then 0 else ttl) as real
    requires cache.encode(payload).Some? && cache.decode(cache.encode(payload).value).Some?
    requires cache.decode(cache.encode(payload).value) != Some(Null)
    modifies cache.backend, cache.metrics
    ensures cache.Valid()
    ensures missed ==> first == Returned(payload)
    ensures missed ==> hit && second == Returned(cache.decode(cache.encode(payload).value).value)
  {
    var key, text := cache.Key(source, obsType, value), cache.encode(payload).value;
    var stale;
    first, stale := cache.GetOrFetch(source, obsType, value, Fetched(payload), ttl, now, during, later);
    missed := !stale;
    ghost var log := cache.backend.log;
    cache.backend.ApplyAll(since, later, again);
    if missed {
      SetHolds(log[..|log| - 1], key, text, ttl, later, since, again);
      assert log == log[..|log| - 1] + [Set(key, text, ttl, later)];
    }
    second, hit := cache.GetOrFetch(source, obsType, value, other, ttl, again, [], again);
  }
}
