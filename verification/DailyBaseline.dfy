/**
 How the detector turns the alert history of one key into daily counts: an insertion-ordered
 dictionary of days, its last `baseline_days` values, padded with zeros.
 */
module DailyBaseline {
  import opened Common
  import opened CountSpike
  import opened Reals

  const SECONDS_PER_DAY := 86400

  function Day(time: int): int {
    time / SECONDS_PER_DAY
  }

  /** The distinct days in the order of their first alert, as dictionary keys. */
  function FirstDays(days: seq<int>): (order: seq<int>)
    ensures forall d :: d in order <==> d in days
    ensures Distinct(order)
  {
    if days == [] then [] else
    var init, d := days[..|days| - 1], days[|days| - 1];
    assert days == init + [d];
    if d in FirstDays(init) then FirstDays(init) else FirstDays(init) + [d]
  }

  /** How many alerts fall on the day. */
  function DayCount(days: seq<int>, d: int): nat {
    if days == [] then 0 else
    DayCount(days[..|days| - 1], d) + if days[|days| - 1] == d then 1 else 0
  }

  lemma DayCountSnoc(days: seq<int>, x: int, d: int)
    ensures DayCount(days + [x], d) == DayCount(days, d) + if x == d then 1 else 0
  {
    assert (days + [x])[..|days|] == days;
  }

  function Zeros(n: nat): (z: seq<nat>)
    ensures |z| == n
  {
    if n == 0 then [] else Zeros(n - 1) + [0]
  }

  function Counts(order: seq<int>, w: int -> nat): (v: seq<nat>)
    ensures |v| == |order|
  {
    if order == [] then [] else Counts(order[..|order| - 1], w) + [w(order[|order| - 1])]
  }

  function PerDay(days: seq<int>): int -> nat {
    (d: int) => DayCount(days, d)
  }

  function PerDaySquared(days: seq<int>): int -> nat {
    (d: int) => DayCount(days, d) * DayCount(days, d)
  }

  /** `values[-n:]`, then padded with zeros. */
  function Padded(all: seq<nat>, n: nat): (v: seq<nat>)
    ensures |v| == n
  {
    if |all| > n then all[|all| - n..] else all + Zeros(n - |all|)
  }

  function Baseline(days: seq<int>, baselineDays: nat): (v: seq<nat>)
    ensures |v| == baselineDays
  {
    Padded(Counts(FirstDays(days), PerDay(days)), baselineDays)
  }

  /** Counts alerts per day in a dictionary that remembers insertion order. */
  method TallyDays(days: seq<int>) returns (order: seq<int>, counts: map<int, nat>)
    ensures order == FirstDays(days)
    ensures forall i :: 0 <= i < |order| ==> order[i] in counts && counts[order[i]] == DayCount(days, order[i])
  {
    order, counts := [], map[];
    for i := 0 to |days|
      invariant order == FirstDays(days[..i])
      invariant forall d :: d in counts <==> d in order
      invariant forall d :: d in counts ==> counts[d] == DayCount(days[..i], d)
    {
      var x := days[i];
      assert days[..i + 1] == days[..i] + [x];
      forall d ensures DayCount(days[..i + 1], d) == DayCount(days[..i], d) + if x == d then 1 else 0 {
        DayCountSnoc(days[..i], x, d);
      }
      if x !in order {
        NoCountBefore(days[..i], x);
        order := order + [x];
        counts := counts[x := 0];
      }
      counts := counts[x := counts[x] + 1];
    }
    assert days[..|days|] == days;
    forall i | 0 <= i < |order|
      ensures order[i] in counts && counts[order[i]] == DayCount(days, order[i])
    {
      var d := order[i];
      assert d in order && d in counts;
    }
  }

  lemma {:induction false} NoCountBefore(days: seq<int>, d: int)
    requires d !in FirstDays(days)
    ensures DayCount(days, d) == 0
  {
    if days != [] {
      assert days[|days| - 1] in days && forall x :: x in days[..|days| - 1] ==> x in days;
      NoCountBefore(days[..|days| - 1], d);
    }
  }

  method DailyCounts(days: seq<int>) returns (values: seq<nat>)
    ensures values == Counts(FirstDays(days), PerDay(days))
  {
    var order, counts := TallyDays(days);
    values := [];
    for i := 0 to |order|
      invariant values == Counts(order[..i], PerDay(days))
    {
      assert order[..i + 1][..i] == order[..i];
      values := values + [counts[order[i]]];
    }
    assert order[..|order|] == order;
  }

  method PadWithZeros(kept: seq<nat>, n: nat) returns (values: seq<nat>)
    requires |kept| <= n
    ensures values == kept + Zeros(n - |kept|)
  {
    values := kept;
    assert kept + Zeros(0) == kept;
    while |values| < n
      invariant |kept| <= |values| <= n && values == kept + Zeros(|values| - |kept|)
    {
      ghost var missing := |values| - |kept|;
      values := values + [0];
      assert Zeros(missing + 1) == Zeros(missing) + [0];
    }
  }

  /** The heuristic for one key; None when the key has no history. */
  method DetectSpike(days: seq<int>, count: nat, baselineDays: nat, root: real -> real) returns (fires: Option<bool>)
    requires baselineDays >= 1
    ensures days == [] ==> fires == None
    ensures days != [] ==> fires == Some(Spikes(Baseline(days, baselineDays), count, 3.0, root))
  {
    var values := DailyCounts(days);
    ghost var all := values;
    NoDaysNoHistory(days);
    if |values| > baselineDays {
      values := values[|values| - baselineDays..];
    }
    if values == [] {
      return None;
    }
    if |values| < baselineDays {
      values := PadWithZeros(values, baselineDays);
    }
    assert all + Zeros(0) == all;
    assert values == Padded(all, baselineDays);
    var total := ComputeSum(values);
    var stdev := ComputeStdev(values, root);
    fires := Some(Exceeds(ZScore(count as real, total as real / |values| as real, stdev), 3.0));
  }

  lemma NoDaysNoHistory(days: seq<int>)
    ensures FirstDays(days) == [] <==> days == []
  {
    if days != [] {
      assert days[0] in FirstDays(days);
    }
  }

  // ---- Within the window, the order of the history does not matter ----

  function Total(order: seq<int>, w: int -> nat): nat {
    if order == [] then 0 else Total(order[..|order| - 1], w) + w(order[|order| - 1])
  }

  /** Over the days `from`, `from + 1`, … of a window of n days. */
  function WindowTotal(w: int -> nat, from: int, n: nat): nat {
    if n == 0 then 0 else WindowTotal(w, from, n - 1) + w(from + n - 1)
  }

  function Without(order: seq<int>, k: int): seq<int>
    requires 0 <= k < |order|
  {
    order[..k] + order[k + 1..]
  }

  lemma {:induction false} TotalWithout(order: seq<int>, k: int, w: int -> nat)
    requires 0 <= k < |order|
    ensures Total(order, w) == Total(Without(order, k), w) + w(order[k])
  {
    var n := |order| - 1;
    if k == n {
      assert Without(order, k) == order[..n];
    } else {
      TotalWithout(order[..n], k, w);
      assert Without(order, k)[..n - 1] == Without(order[..n], k);
      assert Without(order, k)[n - 1] == order[n];
    }
  }

  ghost predicate Within(order: seq<int>, from: int, n: nat) {
    forall i :: 0 <= i < |order| ==> from <= order[i] < from + n
  }

  /** Distinct days of the window, including every day of it that has weight. */
  ghost predicate Covers(order: seq<int>, w: int -> nat, from: int, n: nat) {
    && Distinct(order) && Within(order, from, n)
    && forall d :: from <= d < from + n && d !in order ==> w(d) == 0
  }

  lemma DayStays(order: seq<int>, k: int, d: int)
    requires 0 <= k < |order| && d in order && d != order[k]
    ensures d in Without(order, k)
  {
    var i :| 0 <= i < |order| && order[i] == d;
    assert Without(order, k)[if i < k then i else i - 1] == d;
  }

  lemma RemoveDay(order: seq<int>, k: int, w: int -> nat, from: int, n: nat)
    requires Covers(order, w, from, n) && n > 0
    requires 0 <= k < |order| && order[k] == from + n - 1
    ensures Covers(Without(order, k), w, from, n - 1)
  {
    var rest := Without(order, k);
    assert forall i :: 0 <= i < |rest| ==> rest[i] == order[if i < k then i else i + 1];
    forall d | from <= d < from + n - 1 && d !in rest ensures w(d) == 0 {
      if d in order {
        DayStays(order, k, d);
      }
    }
  }

  lemma KeepDays(order: seq<int>, w: int -> nat, from: int, n: nat)
    requires Covers(order, w, from, n) && n > 0 && from + n - 1 !in order
    ensures Covers(order, w, from, n - 1) && w(from + n - 1) == 0
  {
    assert forall i :: 0 <= i < |order| ==> order[i] in order;
  }

  /** The dictionary's distinct days, whatever their order, sum to the window's slots. */
  lemma {:induction false} TotalIsWindow(order: seq<int>, w: int -> nat, from: int, n: nat)
    requires Covers(order, w, from, n)
    ensures |order| <= n
    ensures Total(order, w) == WindowTotal(w, from, n)
  {
    if n > 0 {
      if from + n - 1 in order {
        var k :| 0 <= k < |order| && order[k] == from + n - 1;
        RemoveDay(order, k, w, from, n);
        TotalIsWindow(Without(order, k), w, from, n - 1);
        TotalWithout(order, k, w);
      } else {
        KeepDays(order, w, from, n);
        TotalIsWindow(order, w, from, n - 1);
      }
    }
  }

  lemma {:induction false} SumsOfCounts(order: seq<int>, days: seq<int>)
    ensures Sum(Counts(order, PerDay(days))) == Total(order, PerDay(days))
    ensures SquareSum(Counts(order, PerDay(days))) == Total(order, PerDaySquared(days))
  {
    if order != [] {
      var n := |order| - 1;
      SumsOfCounts(order[..n], days);
      SumsSnoc(Counts(order[..n], PerDay(days)), DayCount(days, order[n]));
    }
  }

  lemma SumsSnoc(v: seq<nat>, x: nat)
    ensures Sum(v + [x]) == Sum(v) + x && SquareSum(v + [x]) == SquareSum(v) + x * x
  {
    assert (v + [x])[..|v|] == v;
  }

  lemma {:induction false} SumsWithZeros(v: seq<nat>, n: nat)
    ensures Sum(v + Zeros(n)) == Sum(v) && SquareSum(v + Zeros(n)) == SquareSum(v)
  {
    if n == 0 {
      assert v + [] == v;
    } else {
      SumsWithZeros(v, n - 1);
      SumsSnoc(v + Zeros(n - 1), 0);
      assert v + Zeros(n) == (v + Zeros(n - 1)) + [0];
    }
  }

  /** The days before today that a window of `n` days can reach are exactly `n`. */
  lemma HistoryDaysInWindow(created: int, now: int, n: nat)
    requires now - n * SECONDS_PER_DAY <= created && created < Day(now) * SECONDS_PER_DAY
    ensures Day(now) - n <= Day(created) < Day(now)
  {
  }

  lemma DaysCovered(days: seq<int>, from: int, n: nat)
    requires Within(days, from, n)
    ensures Covers(FirstDays(days), PerDay(days), from, n) && Covers(FirstDays(days), PerDaySquared(days), from, n)
  {
    var order := FirstDays(days);
    assert forall i :: 0 <= i < |order| ==> order[i] in days;
    forall d | d !in order ensures DayCount(days, d) == 0 {
      NoCountBefore(days, d);
    }
  }

  lemma {:induction false} WindowAddsOne(w: int -> nat, w': int -> nat, x: int, from: int, n: nat)
    requires forall d :: w'(d) == w(d) + if d == x then 1 else 0
    ensures WindowTotal(w', from, n) == WindowTotal(w, from, n) + if from <= x < from + n then 1 else 0
  {
    if n > 0 {
      WindowAddsOne(w, w', x, from, n - 1);
    }
  }

  lemma {:induction false} EmptyWindow(w: int -> nat, from: int, n: nat)
    requires forall d :: w(d) == 0
    ensures WindowTotal(w, from, n) == 0
  {
    if n > 0 {
      EmptyWindow(w, from, n - 1);
    }
  }

  /** Every history alert is counted in exactly one slot. */
  lemma {:induction false} WindowHoldsAll(days: seq<int>, from: int, n: nat)
    requires Within(days, from, n)
    ensures WindowTotal(PerDay(days), from, n) == |days|
  {
    if days == [] {
      EmptyWindow(PerDay(days), from, n);
    } else {
      var init, x := days[..|days| - 1], days[|days| - 1];
      WindowHoldsAll(init, from, n);
      WindowAddsOne(PerDay(init), PerDay(days), x, from, n);
    }
  }

  /** In the window the baseline has one count per slot, so S is the number of history alerts. */
  lemma WindowBaseline(days: seq<int>, from: int, n: nat)
    requires Within(days, from, n)
    ensures Sum(Baseline(days, n)) == |days|
    ensures SquareSum(Baseline(days, n)) == WindowTotal(PerDaySquared(days), from, n)
  {
    var order := FirstDays(days);
    DaysCovered(days, from, n);
    TotalIsWindow(order, PerDay(days), from, n);
    TotalIsWindow(order, PerDaySquared(days), from, n);
    SumsOfCounts(order, days);
    SumsWithZeros(Counts(order, PerDay(days)), n - |order|);
    WindowHoldsAll(days, from, n);
  }

  /** The test on `n` days with sum `s` and square sum `q` against today's count `c`. */
  predicate IntegerTest(n: nat, s: nat, q: nat, c: nat) {
    var d := n * c - s;
    if n * q == s * s then d != 0 else d > 0 && (n - 1) * (d * d) > 9 * n * (n * q - s * s)
  }

  /**
   The decision for one key over a window: with S history alerts, Q the sum of squared daily counts
   over the window's n days and c alerts today, an integer test that ignores the order of the history.
   */
  lemma SpikeDecision(days: seq<int>, from: int, n: nat, c: nat, root: real -> real)
    requires n >= 1 && Within(days, from, n) && IsRoot(root)
    ensures Spikes(Baseline(days, n), c, 3.0, root) <==>
      IntegerTest(n, |days|, WindowTotal(PerDaySquared(days), from, n), c)
  {
    WindowBaseline(days, from, n);
    SpikeInIntegers(Baseline(days, n), c, root);
  }

  lemma {:induction false} DayCountIsMultiplicity(days: seq<int>, d: int)
    ensures DayCount(days, d) == multiset(days)[d]
  {
    if days != [] {
      var init, x := days[..|days| - 1], days[|days| - 1];
      DayCountIsMultiplicity(init, d);
      assert days == init + [x];
    }
  }

  /** The days of a shorter history come first: each stands where it first occurred. */
  lemma {:induction false} FirstDaysPrefix(days: seq<int>, k: nat)
    requires k <= |days|
    ensures FirstDays(days[..k]) <= FirstDays(days)
  {
    if k < |days| {
      var init := days[..|days| - 1];
      FirstDaysPrefix(init, k);
      assert init[..k] == days[..k];
      assert FirstDays(init) <= FirstDays(days);
    } else {
      assert days[..k] == days;
    }
  }

  lemma {:induction false} CountsAt(order: seq<int>, w: int -> nat, i: nat)
    requires i < |order|
    ensures Counts(order, w)[i] == w(order[i])
  {
    if i < |order| - 1 {
      CountsAt(order[..|order| - 1], w, i);
    }
  }

  lemma {:induction false} ZerosAt(n: nat, i: nat)
    requires i < n
    ensures Zeros(n)[i] == 0
  {
    if i < n - 1 {
      ZerosAt(n - 1, i);
    }
  }

  /** Slot by slot: how often the `n` days that first occurred last occur, and 0 where there are fewer days. */
  lemma BaselineAt(days: seq<int>, n: nat, i: nat)
    requires i < n
    ensures var order := FirstDays(days);
      Baseline(days, n)[i] ==
        if |order| > n then multiset(days)[order[|order| - n + i]]
        else if i < |order| then multiset(days)[order[i]]
        else 0
  {
    var order := FirstDays(days);
    var j := if |order| > n then |order| - n + i else i;
    if j < |order| {
      CountsAt(order, PerDay(days), j);
      DayCountIsMultiplicity(days, order[j]);
    } else {
      ZerosAt(n - |order|, i - |order|);
    }
  }

  lemma {:induction false} SameWindow(w: int -> nat, w': int -> nat, from: int, n: nat)
    requires forall d :: w(d) == w'(d)
    ensures WindowTotal(w, from, n) == WindowTotal(w', from, n)
  {
    if n > 0 {
      SameWindow(w, w', from, n - 1);
    }
  }

  lemma SameDays(days: seq<int>, days': seq<int>, from: int, n: nat)
    requires multiset(days) == multiset(days')
    ensures |days| == |days'|
    ensures WindowTotal(PerDaySquared(days), from, n) == WindowTotal(PerDaySquared(days'), from, n)
  {
    assert |days| == |multiset(days)| == |multiset(days')| == |days'|;
    forall d ensures PerDaySquared(days)(d) == PerDaySquared(days')(d) {
      DayCountIsMultiplicity(days, d);
      DayCountIsMultiplicity(days', d);
    }
    SameWindow(PerDaySquared(days), PerDaySquared(days'), from, n);
  }

  lemma HistoryOrderIrrelevant(days: seq<int>, days': seq<int>, from: int, n: nat, c: nat, root: real -> real)
    requires n >= 1 && Within(days, from, n) && IsRoot(root) && multiset(days) == multiset(days')
    ensures Spikes(Baseline(days, n), c, 3.0, root) <==> Spikes(Baseline(days', n), c, 3.0, root)
  {
    assert Within(days', from, n) by {
      assert forall i :: 0 <= i < |days'| ==> days'[i] in multiset(days);
    }
    SameDays(days, days', from, n);
    SpikeDecision(days, from, n, c, root);
    SpikeDecision(days', from, n, c, root);
  }
}
