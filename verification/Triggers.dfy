/**
 Playbook registration and trigger matching: one sorted segment per trigger type, merged in the
 order of the trigger types with a by-name deduplication.
 */
module Triggers {
  import opened Common

  // ---- Conditions ----

  datatype Value = Null | Scalar(text: string) | List(items: seq<Value>)
  datatype Condition = Condition(field: string, expected: Value)
  type AlertData = map<string, Value>

  predicate ValueMatches(expected: Value, actual: Value) {
    if actual.Null? then false
    else if actual.List? then
      if expected.List? then exists k :: 0 <= k < |actual.items| && actual.items[k] in expected.items
      else expected in actual.items
    else if expected.List? then actual in expected.items
    else actual == expected
  }

  function FieldOf(data: AlertData, field: string): Value {
    if field in data then data[field] else Null
  }

  predicate ConditionsMatch(conditions: seq<Condition>, data: AlertData) {
    forall k :: 0 <= k < |conditions| ==> ValueMatches(conditions[k].expected, FieldOf(data, conditions[k].field))
  }

  /** A scalar stands for the one-element list. */
  function Items(v: Value): seq<Value> {
    if v.List? then v.items else [v]
  }

  /** All four shapes ask one question: does the alert's field share an item with the expectation? */
  lemma MatchIsIntersection(expected: Value, actual: Value)
    ensures ValueMatches(expected, actual) <==> actual != Null && exists x :: x in Items(actual) && x in Items(expected)
  {
    if ValueMatches(expected, actual) {
      if actual.List? && expected.List? {
        var k :| 0 <= k < |actual.items| && actual.items[k] in expected.items;
        assert actual.items[k] in Items(actual);
      } else if actual.List? {
        assert expected in Items(actual) && expected in Items(expected);
      } else {
        assert actual in Items(actual) && actual in Items(expected);
      }
    }
  }

  // ---- Playbooks and their order ----

  datatype Playbook = Playbook(
    name: string, trigger: Option<string>, conditions: seq<Condition>, enabled: bool, order: int)

  ghost predicate DistinctNames(s: seq<Playbook>) {
    forall i, j :: 0 <= i < j < |s| ==> s[i].name != s[j].name
  }

  /** Code-point order on strings. */
  predicate Less(a: string, b: string) {
    b != "" && (a == "" || a[0] < b[0] || (a[0] == b[0] && Less(a[1..], b[1..])))
  }

  /** One string comes before another when it is a proper prefix of it or has the smaller character where they part. */
  lemma {:induction false} LessMeans(a: string, b: string)
    ensures Less(a, b) <==> exists n :: Parts(a, b, n)
  {
    if a != "" && b != "" {
      assert a == [a[0]] + a[1..] && b == [b[0]] + b[1..];
      LessMeans(a[1..], b[1..]);
      if Less(a, b) && a[0] == b[0] {
        var n :| Parts(a[1..], b[1..], n);
        assert Parts(a, b, n + 1);
      }
      if n :| Parts(a, b, n) && n > 0 {
        assert a[0] == a[..n][0] == b[..n][0] == b[0];
        assert a[1..][..n - 1] == a[..n][1..] && b[1..][..n - 1] == b[..n][1..];
        assert Parts(a[1..], b[1..], n - 1);
      }
    }
    assert Less(a, b) && (a == "" || a[0] < b[0]) ==> Parts(a, b, 0);
  }

  /** The strings agree on their first `n` characters, and there `a` ends or has the smaller one. */
  ghost predicate Parts(a: string, b: string, n: int) {
    0 <= n <= |a| && n < |b| && a[..n] == b[..n] && (n == |a| || a[n] < b[n])
  }

  lemma {:induction false} LessTotal(a: string, b: string)
    ensures Less(a, b) || a == b || Less(b, a)
    ensures !(Less(a, b) && Less(b, a)) && (a == b ==> !Less(a, b))
  {
    if a != "" && b != "" {
      LessTotal(a[1..], b[1..]);
      assert a == [a[0]] + a[1..] && b == [b[0]] + b[1..];
    }
  }

  lemma {:induction false} LessTransitive(a: string, b: string, c: string)
    requires Less(a, b) && Less(b, c)
    ensures Less(a, c)
  {
    if a != "" && a[0] == b[0] == c[0] {
      LessTransitive(a[1..], b[1..], c[1..]);
    }
  }

  /** The sort key `(order, name)`. */
  predicate Before(p: Playbook, q: Playbook) {
    p.order < q.order || (p.order == q.order && Less(p.name, q.name))
  }

  lemma BeforeTotal(p: Playbook, q: Playbook)
    ensures p.name != q.name ==> Before(p, q) || Before(q, p)
    ensures !(Before(p, q) && Before(q, p))
  {
    LessTotal(p.name, q.name);
  }

  lemma BeforeTransitive(p: Playbook, q: Playbook, r: Playbook)
    requires Before(p, q) && Before(q, r)
    ensures Before(p, r)
  {
    if p.order == q.order == r.order {
      LessTransitive(p.name, q.name, r.name);
    }
  }

  ghost predicate Sorted(s: seq<Playbook>) {
    forall i, j :: 0 <= i < j < |s| ==> Before(s[i], s[j])
  }

  /** A stable sort by key; the language's own sort is only relied on for being one. */
  function Insert(p: Playbook, s: seq<Playbook>): (r: seq<Playbook>)
    ensures forall x :: x in r <==> (x == p || x in s)
  {
    if s == [] || !Before(s[0], p) then [p] + s else
    var tail := Insert(p, s[1..]);
    assert s == [s[0]] + s[1..];
    [s[0]] + tail
  }

  function SortByKey(s: seq<Playbook>): (r: seq<Playbook>)
    ensures forall x :: x in r <==> x in s
  {
    if s == [] then [] else
    assert s == [s[0]] + s[1..];
    Insert(s[0], SortByKey(s[1..]))
  }

  ghost predicate HeadFirst(p: Playbook, s: seq<Playbook>) {
    forall x :: x in s ==> Before(p, x)
  }

  lemma SortedCons(p: Playbook, s: seq<Playbook>)
    ensures Sorted([p] + s) <==> Sorted(s) && HeadFirst(p, s)
  {
    var r := [p] + s;
    assert forall i :: 0 <= i < |s| ==> r[i + 1] == s[i];
    if Sorted(r) {
      forall x | x in s ensures Before(p, x) {
        var i :| 0 <= i < |s| && s[i] == x;
        assert Before(r[0], r[i + 1]);
      }
      forall i, j | 0 <= i < j < |s| ensures Before(s[i], s[j]) {
        assert Before(r[i + 1], r[j + 1]);
      }
    }
  }

  lemma {:induction false} InsertSorted(p: Playbook, s: seq<Playbook>)
    requires Sorted(s) && forall x :: x in s ==> x.name != p.name
    ensures Sorted(Insert(p, s))
  {
    if s == [] {
      SortedCons(p, s);
    } else {
      var tail := s[1..];
      assert s == [s[0]] + tail;
      SortedCons(s[0], tail);
      BeforeTotal(s[0], p);
      if Before(s[0], p) {
        InsertSorted(p, tail);
        SortedCons(s[0], Insert(p, tail));
      } else {
        forall x | x in s ensures Before(p, x) {
          if x != s[0] {
            BeforeTransitive(p, s[0], x);
          }
        }
        SortedCons(p, s);
      }
    }
  }

  lemma {:induction false} SortByKeySorted(s: seq<Playbook>)
    requires DistinctNames(s)
    ensures Sorted(SortByKey(s))
  {
    if s != [] {
      SortByKeySorted(s[1..]);
      forall x | x in s[1..] ensures x.name != s[0].name {
        var i :| 0 <= i < |s| - 1 && s[1..][i] == x;
        assert s[i + 1] == x;
      }
      InsertSorted(s[0], SortByKey(s[1..]));
    }
  }

  lemma HeadLeast(s: seq<Playbook>, x: Playbook)
    requires Sorted(s) && x in s
    ensures x == s[0] || Before(s[0], x)
  {
    var i :| 0 <= i < |s| && s[i] == x;
  }

  lemma SameEmptiness(s: seq<Playbook>, t: seq<Playbook>)
    requires forall x :: x in s <==> x in t
    ensures s == [] <==> t == []
  {
    if s != [] {
      assert s[0] in s;
    }
    if t != [] {
      assert t[0] in t;
    }
  }

  lemma SortedHeads(s: seq<Playbook>, t: seq<Playbook>)
    requires s != [] && t != [] && Sorted(s) && Sorted(t) && forall x :: x in s <==> x in t
    ensures s[0] == t[0]
  {
    HeadLeast(t, s[0]);
    HeadLeast(s, t[0]);
    BeforeTotal(s[0], t[0]);
  }

  /** Two sorted sequences of the same playbooks are the same sequence. */
  lemma {:induction false} SortedUnique(s: seq<Playbook>, t: seq<Playbook>)
    requires Sorted(s) && Sorted(t) && forall x :: x in s <==> x in t
    ensures s == t
  {
    SameEmptiness(s, t);
    if s != [] {
      SortedHeads(s, t);
      var head, s', t' := s[0], s[1..], t[1..];
      assert s == [head] + s' && t == [head] + t';
      SortedCons(head, s');
      SortedCons(head, t');
      BeforeTotal(head, head);
      forall x ensures x in s' <==> x in t' {
        assert x in s <==> (x == head || x in s');
        assert x in t <==> (x == head || x in t');
      }
      SortedUnique(s', t');
    }
  }

  // ---- Matching ----

  predicate Fires(p: Playbook, triggerType: string, data: AlertData) {
    p.enabled && p.trigger == Some(triggerType) && ConditionsMatch(p.conditions, data)
  }

  function Selected(playbooks: seq<Playbook>, triggerType: string, data: AlertData): (r: seq<Playbook>)
    ensures forall x :: x in r <==> (x in playbooks && Fires(x, triggerType, data))
  {
    if playbooks == [] then [] else
    var init, last := playbooks[..|playbooks| - 1], playbooks[|playbooks| - 1];
    assert playbooks == init + [last];
    if Fires(last, triggerType, data) then Selected(init, triggerType, data) + [last]
    else Selected(init, triggerType, data)
  }

  /** The playbooks of one trigger type, by `(order, name)`. */
  function Segment(playbooks: seq<Playbook>, triggerType: string, data: AlertData): seq<Playbook> {
    SortByKey(Selected(playbooks, triggerType, data))
  }

  function TriggerTypes(source: string): seq<string> {
    [source, source + ".alert", "webhook"]
  }

  /** What a match returns: one segment per trigger type; the source "webhook" names one of them twice. */
  function Matched(playbooks: seq<Playbook>, source: string, data: AlertData): seq<Playbook> {
    Segment(playbooks, source, data) + Segment(playbooks, source + ".alert", data) +
    if source == "webhook" then [] else Segment(playbooks, "webhook", data)
  }

  lemma {:induction false} SelectedDistinct(playbooks: seq<Playbook>, triggerType: string, data: AlertData)
    requires DistinctNames(playbooks)
    ensures DistinctNames(Selected(playbooks, triggerType, data))
  {
    if playbooks != [] {
      var n := |playbooks| - 1;
      var init, last := playbooks[..n], playbooks[n];
      SelectedDistinct(init, triggerType, data);
      var s := Selected(init, triggerType, data);
      forall i | 0 <= i < |s| ensures s[i].name != last.name {
        assert s[i] in init;
        var k :| 0 <= k < n && init[k] == s[i];
        assert playbooks[k] == s[i];
      }
    }
  }

  lemma SegmentSorted(playbooks: seq<Playbook>, triggerType: string, data: AlertData)
    requires DistinctNames(playbooks)
    ensures Sorted(Segment(playbooks, triggerType, data))
    ensures var s := Segment(playbooks, triggerType, data);
      forall i, j :: 0 <= i < j < |s| ==>
        s[i].order < s[j].order || (s[i].order == s[j].order && Less(s[i].name, s[j].name))
  {
    SelectedDistinct(playbooks, triggerType, data);
    SortByKeySorted(Selected(playbooks, triggerType, data));
    var s := Segment(playbooks, triggerType, data);
    forall i, j | 0 <= i < j < |s|
      ensures s[i].order < s[j].order || (s[i].order == s[j].order && Less(s[i].name, s[j].name))
    {
      assert Before(s[i], s[j]);
    }
  }

  /** The alert has the field, it is not null, and as a list (a scalar being a list of one) it shares an item. */
  ghost predicate Meets(data: AlertData, c: Condition) {
    && c.field in data && data[c.field] != Null
    && exists x :: IsItem(x, data[c.field]) && IsItem(x, c.expected)
  }

  predicate IsItem(x: Value, v: Value) {
    if v.List? then x in v.items else x == v
  }

  lemma MatchMeets(data: AlertData, c: Condition)
    ensures ValueMatches(c.expected, FieldOf(data, c.field)) <==> Meets(data, c)
  {
    MatchIsIntersection(c.expected, FieldOf(data, c.field));
    assert forall x, v :: x in Items(v) <==> IsItem(x, v);
  }

  lemma ConditionsMeet(conditions: seq<Condition>, data: AlertData)
    ensures ConditionsMatch(conditions, data) <==> forall k :: 0 <= k < |conditions| ==> Meets(data, conditions[k])
  {
    forall k | 0 <= k < |conditions|
      ensures ValueMatches(conditions[k].expected, FieldOf(data, conditions[k].field)) <==> Meets(data, conditions[k])
    {
      MatchMeets(data, conditions[k]);
    }
  }

  /**
   A playbook is matched exactly when it is registered, enabled, waits for one of the three types, and the
   alert meets all of its conditions.
   */
  lemma MatchExact(playbooks: seq<Playbook>, source: string, data: AlertData, p: Playbook)
    ensures p in Matched(playbooks, source, data) <==>
      && p in playbooks
      && p.enabled
      && (p.trigger == Some(source) || p.trigger == Some(source + ".alert") || p.trigger == Some("webhook"))
      && forall k :: 0 <= k < |p.conditions| ==> Meets(data, p.conditions[k])
  {
    ConditionsMeet(p.conditions, data);
  }

  /** No name is matched twice. */
  lemma MatchedDistinct(playbooks: seq<Playbook>, source: string, data: AlertData)
    requires DistinctNames(playbooks)
    ensures DistinctNames(Matched(playbooks, source, data))
  {
    var a, b := Segment(playbooks, source, data), Segment(playbooks, source + ".alert", data);
    var c := if source == "webhook" then [] else Segment(playbooks, "webhook", data);
    TypesDiffer(source);
    SegmentDistinct(playbooks, source, data);
    SegmentDistinct(playbooks, source + ".alert", data);
    SegmentDistinct(playbooks, "webhook", data);
    JoinDistinct(playbooks, a, b);
    JoinDistinct(playbooks, a + b, c);
  }

  lemma TypesDiffer(source: string)
    ensures source != source + ".alert" && source + ".alert" != "webhook"
  {
    var t := source + ".alert";
    assert |t| == |source| + 6 && t[|t| - 1] == 't';
    assert "webhook"[6] == 'k';
  }

  lemma SegmentDistinct(playbooks: seq<Playbook>, triggerType: string, data: AlertData)
    requires DistinctNames(playbooks)
    ensures DistinctNames(Segment(playbooks, triggerType, data))
  {
    SegmentSorted(playbooks, triggerType, data);
    var s := Segment(playbooks, triggerType, data);
    forall i, j | 0 <= i < j < |s| ensures s[i].name != s[j].name {
      assert Before(s[i], s[j]) && s[i] in playbooks && s[j] in playbooks;
      BeforeTotal(s[i], s[i]);
      SameName(playbooks, s[i], s[j]);
    }
  }

  /** In a registry a name stands for one playbook. */
  lemma SameName(playbooks: seq<Playbook>, p: Playbook, q: Playbook)
    requires DistinctNames(playbooks) && p in playbooks && q in playbooks
    ensures p.name == q.name ==> p == q
  {
    var i :| 0 <= i < |playbooks| && playbooks[i] == p;
    var j :| 0 <= j < |playbooks| && playbooks[j] == q;
  }

  lemma JoinDistinct(playbooks: seq<Playbook>, s: seq<Playbook>, t: seq<Playbook>)
    requires DistinctNames(playbooks) && DistinctNames(s) && DistinctNames(t)
    requires forall x :: x in s || x in t ==> x in playbooks
    requires forall x :: x in s ==> x !in t
    ensures DistinctNames(s + t)
  {
    forall i, j | 0 <= i < j < |s + t| ensures (s + t)[i].name != (s + t)[j].name {
      if i < |s| <= j {
        assert s[i] in s && t[j - |s|] in t;
        SameName(playbooks, s[i], t[j - |s|]);
      }
    }
  }

  lemma SegmentOrderIrrelevant(s: seq<Playbook>, t: seq<Playbook>, triggerType: string, data: AlertData)
    requires DistinctNames(s) && DistinctNames(t) && forall x :: x in s <==> x in t
    ensures Segment(s, triggerType, data) == Segment(t, triggerType, data)
  {
    SegmentSorted(s, triggerType, data);
    SegmentSorted(t, triggerType, data);
    SortedUnique(Segment(s, triggerType, data), Segment(t, triggerType, data));
  }

  /** The result depends on which playbooks are registered, not on the order of their registration. */
  lemma RegistrationOrderIrrelevant(s: seq<Playbook>, t: seq<Playbook>, source: string, data: AlertData)
    requires DistinctNames(s) && DistinctNames(t) && forall x :: x in s <==> x in t
    ensures Matched(s, source, data) == Matched(t, source, data)
  {
    SegmentOrderIrrelevant(s, t, source, data);
    SegmentOrderIrrelevant(s, t, source + ".alert", data);
    SegmentOrderIrrelevant(s, t, "webhook", data);
  }

  lemma SelectedFromTwo(p: Playbook, q: Playbook, triggerType: string, data: AlertData)
    ensures Selected([p, q], triggerType, data) ==
      (if Fires(p, triggerType, data) then [p] else []) + if Fires(q, triggerType, data) then [q] else []
  {
    assert [p, q][..1] == [p] && [p][..0] == [];
    assert Selected([p], triggerType, data) == if Fires(p, triggerType, data) then [p] else [];
  }

  lemma SortShort(s: seq<Playbook>)
    requires |s| <= 1
    ensures SortByKey(s) == s
  {
    if s != [] {
      assert SortByKey(s[1..]) == [];
      assert s == [s[0]] + [];
    }
  }

  /** Two playbooks waiting for different types are matched in the order of the types, whatever their orders. */
  lemma TypesComeFirst(late: Playbook, early: Playbook, source: string, data: AlertData)
    requires source != "webhook" && Fires(late, source, data) && Fires(early, "webhook", data)
    ensures Matched([late, early], source, data) == [late, early]
  {
    TypesDiffer(source);
    SelectedFromTwo(late, early, source, data);
    SelectedFromTwo(late, early, source + ".alert", data);
    SelectedFromTwo(late, early, "webhook", data);
    SortShort([late]);
    SortShort([early]);
    SortShort([]);
    assert Selected([late, early], source, data) == [late];
    assert Selected([late, early], "webhook", data) == [early];
  }

  /** The whole result need not be sorted. */
  lemma NotSortedAcrossTypes()
    ensures exists s, source, data :: DistinctNames(s) && !Sorted(Matched(s, source, data))
  {
    var late := Playbook("a", Some("edr"), [], true, 20);
    var early := Playbook("b", Some("webhook"), [], true, 10);
    var s, data: AlertData := [late, early], map[];
    assert |"edr"| != |"webhook"|;
    TypesComeFirst(late, early, "edr", data);
    var m := Matched(s, "edr", data);
    assert !Before(m[0], m[1]);
    assert DistinctNames(s) && !Sorted(m);
  }

  lemma SortedConcat(s: seq<Playbook>, t: seq<Playbook>)
    ensures Sorted(s + t) <==> Sorted(s) && Sorted(t) && AllBefore(s, t)
  {
    var r := s + t;
    assert forall i :: 0 <= i < |s| ==> r[i] == s[i];
    assert forall i :: 0 <= i < |t| ==> r[|s| + i] == t[i];
    if Sorted(r) {
      forall p, q | p in s && q in t ensures Before(p, q) {
        var i :| 0 <= i < |s| && s[i] == p;
        var j :| 0 <= j < |t| && t[j] == q;
        assert Before(r[i], r[|s| + j]);
      }
      forall i, j | 0 <= i < j < |t| ensures Before(t[i], t[j]) {
        assert Before(r[|s| + i], r[|s| + j]);
      }
    }
    if Sorted(s) && Sorted(t) && AllBefore(s, t) {
      forall i, j | 0 <= i < j < |r| ensures Before(r[i], r[j]) {
        if i < |s| <= j {
          assert s[i] in s && t[j - |s|] in t;
        }
      }
    }
  }

  ghost predicate AllBefore(s: seq<Playbook>, t: seq<Playbook>) {
    forall p, q :: p in s && q in t ==> Before(p, q)
  }

  lemma AllBeforeConcat(s: seq<Playbook>, t: seq<Playbook>, u: seq<Playbook>)
    ensures AllBefore(s + t, u) <==> AllBefore(s, u) && AllBefore(t, u)
  {
    assert forall x :: x in s + t <==> x in s || x in t;
  }

  /** The playbook would run if its trigger type came up. */
  predicate Ready(p: Playbook, data: AlertData) {
    p.enabled && ConditionsMatch(p.conditions, data)
  }

  /**
   The trigger type of `p` comes strictly before that of `q`; for the source "webhook" the third type is the
   first again.
   */
  predicate Ahead(source: string, p: Playbook, q: Playbook) {
    || (p.trigger == Some(source) && q.trigger == Some(source + ".alert"))
    || (source != "webhook" && p.trigger == Some(source) && q.trigger == Some("webhook"))
    || (source != "webhook" && p.trigger == Some(source + ".alert") && q.trigger == Some("webhook"))
  }

  /** Every ready playbook comes before every ready one of a later trigger type. */
  ghost predicate OrdersFollowTypes(s: seq<Playbook>, source: string, data: AlertData) {
    forall p, q :: p in s && q in s && Ready(p, data) && Ready(q, data) && Ahead(source, p, q) ==> Before(p, q)
  }

  lemma SegmentsBefore(s: seq<Playbook>, t1: string, t2: string, data: AlertData)
    ensures AllBefore(Segment(s, t1, data), Segment(s, t2, data)) <==>
      forall p, q :: p in s && q in s && Fires(p, t1, data) && Fires(q, t2, data) ==> Before(p, q)
  {
  }

  /** The whole result is sorted by order and name if and only if the orders follow the trigger types. */
  lemma SortedExactly(s: seq<Playbook>, source: string, data: AlertData)
    requires DistinctNames(s)
    ensures Sorted(Matched(s, source, data)) <==> OrdersFollowTypes(s, source, data)
  {
    var a, b, c := Segment(s, source, data), Segment(s, source + ".alert", data), Segment(s, "webhook", data);
    SegmentSorted(s, source, data);
    SegmentSorted(s, source + ".alert", data);
    SegmentSorted(s, "webhook", data);
    SortedConcat(a, b);
    SegmentsBefore(s, source, source + ".alert", data);
    if source == "webhook" {
      assert (a + b) + [] == a + b;
    } else {
      SortedConcat(a + b, c);
      AllBeforeConcat(a, b, c);
      SegmentsBefore(s, source, "webhook", data);
      SegmentsBefore(s, source + ".alert", "webhook", data);
    }
    FollowTypesUnfolded(s, source, data);
  }

  /** The condition, one pair of trigger types at a time. */
  lemma FollowTypesUnfolded(s: seq<Playbook>, source: string, data: AlertData)
    ensures OrdersFollowTypes(s, source, data) <==>
      && (forall p, q :: p in s && q in s && Fires(p, source, data) && Fires(q, source + ".alert", data) ==>
        Before(p, q))
      && (source != "webhook" ==>
            (forall p, q :: p in s && q in s && Fires(p, source, data) && Fires(q, "webhook", data) ==> Before(p, q)))
      && (source != "webhook" ==>
            (forall p, q :: p in s && q in s && Fires(p, source + ".alert", data) && Fires(q, "webhook", data) ==>
              Before(p, q)))
  {
  }

  // ---- The registry and the engine ----

  /** What one registration does to the dictionary: a known name is replaced in place, a new one goes last. */
  ghost predicate Registered(was: seq<Playbook>, p: Playbook, now: seq<Playbook>) {
    && DistinctNames(now)
    && (forall x :: x in now <==> (x == p || (x in was && x.name != p.name)))
    && (if exists x :: x in was && x.name == p.name then |now| == |was| else now == was + [p])
    && forall i :: 0 <= i < |was| <= |now| && was[i].name != p.name ==> now[i] == was[i]
  }

  class PlaybookRegistry {
    var playbooks: seq<Playbook>

    ghost predicate Valid()
      reads this
    {
      DistinctNames(playbooks)
    }

    constructor ()
      ensures Valid() && playbooks == []
    {
      playbooks := [];
    }

    method Register(p: Playbook)
      requires Valid()
      modifies this
      ensures Valid() && Registered(old(playbooks), p, playbooks)
    {
      var i := 0;
      while i < |playbooks| && playbooks[i].name != p.name
        invariant i <= |playbooks|
        invariant forall k :: 0 <= k < i ==> playbooks[k].name != p.name
        invariant playbooks == old(playbooks)
      {
        i := i + 1;
      }
      ghost var was := playbooks;
      if i < |playbooks| {
        playbooks := playbooks[i := p];
        assert playbooks[i] == p && was[i] in was;
        forall x ensures x in playbooks <==> (x == p || (x in was && x.name != p.name)) {
          if x in was && x.name != p.name {
            var k :| 0 <= k < |was| && was[k] == x;
            assert playbooks[k] == x;
          }
        }
      } else {
        playbooks := playbooks + [p];
      }
    }

    method GetPlaybooksForTrigger(triggerType: string, data: AlertData) returns (matches: seq<Playbook>)
      ensures matches == Segment(playbooks, triggerType, data)
    {
      matches := [];
      for i := 0 to |playbooks|
        invariant matches == Selected(playbooks[..i], triggerType, data)
      {
        assert playbooks[..i + 1][..i] == playbooks[..i];
        var p := playbooks[i];
        if !p.enabled {
          continue;
        }
        if p.trigger != Some(triggerType) {
          continue;
        }
        if ConditionsMatch(p.conditions, data) {
          matches := matches + [p];
        }
      }
      assert playbooks[..|playbooks|] == playbooks;
      matches := SortByKey(matches);
    }

    /** Appends to `before` what the trigger type adds, skipping the names already seen. */
    method MergeSegment(source: string, data: AlertData, t: nat, before: seq<Playbook>, known: set<string>)
      returns (matches: seq<Playbook>, seen: set<string>)
      requires Valid() && t < 3 && before == MatchedUpTo(playbooks, source, data, t) && SeenNames(known, before)
      ensures matches == MatchedUpTo(playbooks, source, data, t + 1) && SeenNames(seen, matches)
    {
      var segment := GetPlaybooksForTrigger(TriggerTypes(source)[t], data);
      matches, seen := before, known;
      for k := 0 to |segment|
        invariant matches == if Repeated(source, t) then before else before + segment[..k]
        invariant SeenNames(seen, matches)
      {
        assert segment[..k + 1] == segment[..k] + [segment[k]];
        SeenBefore(playbooks, source, data, t, k);
        if segment[k].name !in seen {
          SeenSnoc(seen, matches, segment[k]);
          matches := matches + [segment[k]];
          seen := seen + {segment[k].name};
        }
      }
      assert segment[..|segment|] == segment;
    }

    /** `TriggerEngine.match`: the by-name deduplication only ever drops a repeated segment. */
    method Match(source: string, data: AlertData) returns (matches: seq<Playbook>)
      requires Valid()
      ensures matches == Matched(playbooks, source, data)
    {
      var seen: set<string> := {};
      matches := [];
      for t := 0 to |TriggerTypes(source)|
        invariant matches == MatchedUpTo(playbooks, source, data, t)
        invariant SeenNames(seen, matches)
      {
        matches, seen := MergeSegment(source, data, t, matches, seen);
      }
    }
  }

  ghost predicate SeenNames(seen: set<string>, matches: seq<Playbook>) {
    forall n :: n in seen <==> HasName(matches, n)
  }

  ghost predicate HasName(matches: seq<Playbook>, n: string) {
    exists x :: x in matches && x.name == n
  }

  lemma SeenSnoc(seen: set<string>, matches: seq<Playbook>, p: Playbook)
    requires SeenNames(seen, matches)
    ensures SeenNames(seen + {p.name}, matches + [p])
  {
    forall n ensures HasName(matches + [p], n) <==> (n == p.name || HasName(matches, n)) {
      assert p in matches + [p];
      if HasName(matches, n) {
        var x :| x in matches && x.name == n;
        assert x in matches + [p];
      }
    }
  }

  /** The third trigger type repeats the first for the source "webhook". */
  predicate Repeated(source: string, t: nat) {
    t == 2 && source == "webhook"
  }

  ghost function MatchedUpTo(playbooks: seq<Playbook>, source: string, data: AlertData, t: nat): seq<Playbook>
    requires t <= 3
  {
    if t == 0 then []
    else if t == 1 then Segment(playbooks, source, data)
    else if t == 2 then Segment(playbooks, source, data) + Segment(playbooks, source + ".alert", data)
    else Matched(playbooks, source, data)
  }

  /** While segment `t` is merged, its `k`-th name was seen before exactly when the trigger type is a repetition. */
  lemma SeenBefore(playbooks: seq<Playbook>, source: string, data: AlertData, t: nat, k: nat)
    requires DistinctNames(playbooks) && t < 3
    requires k < |Segment(playbooks, TriggerTypes(source)[t], data)|
    ensures var segment := Segment(playbooks, TriggerTypes(source)[t], data);
      var before := MatchedUpTo(playbooks, source, data, t);
      var sofar := if Repeated(source, t) then before else before + segment[..k];
      HasName(sofar, segment[k].name) <==> Repeated(source, t)
  {
    var segment := Segment(playbooks, TriggerTypes(source)[t], data);
    var before := MatchedUpTo(playbooks, source, data, t);
    TypesDiffer(source);
    SegmentDistinct(playbooks, TriggerTypes(source)[t], data);
    assert segment[k] in segment;
    if Repeated(source, t) {
      assert segment[k] in before;
    } else {
      forall x | x in before + segment[..k] ensures x.name != segment[k].name {
        if x in before {
          SameName(playbooks, x, segment[k]);
        }
      }
    }
  }
}
