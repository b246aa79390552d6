/**
 * SQL aggregation over a sequence of rows: GROUP BY a text key, SUM of a whole number, COUNT,
 * with the groups in key order.
 */
module Grouping {
  import opened Basics

  /** One input row of a GROUP BY: its key and the summed column (0 where that is NULL). */
  datatype Entry = Entry(key: string, value: nat)

  datatype Group = Group(key: string, count: nat, total: nat)

  function Codes(s: string): seq<int> {
    seq(|s|, i requires 0 <= i < |s| => s[i] as int)
  }

  predicate TextBefore(a: string, b: string) {
    TextLess(Codes(a), Codes(b))
  }

  lemma {:induction false} NameOrder(a: string, b: string, c: string)
    ensures !TextBefore(a, a)
    ensures TextBefore(a, b) || a == b || TextBefore(b, a)
    ensures TextBefore(a, b) && TextBefore(b, c) ==> TextBefore(a, c)
  {
    TextOrder(Codes(a), Codes(b), Codes(c));
    if Codes(a) == Codes(b) {
      assert forall i :: 0 <= i < |a| ==> a[i] as int == Codes(a)[i] == Codes(b)[i] == b[i] as int;
      assert a == b;
    }
  }

  /** Text sorts by its characters' codes: the first difference decides, a prefix comes first. */
  lemma {:induction false} TextBeforeIff(a: string, b: string)
    ensures TextBefore(a, b) <==>
      exists k: nat :: k <= |a| && k < |b| && a[..k] == b[..k] && (k == |a| || a[k] < b[k])
  {
    TextLessIff(Codes(a), Codes(b));
    forall k: nat | k <= |a| && k < |b|
      ensures a[..k] == b[..k] <==> Codes(a)[..k] == Codes(b)[..k]
    {
      if Codes(a)[..k] == Codes(b)[..k] {
        assert forall i :: 0 <= i < k ==> a[i] as int == Codes(a)[..k][i] == Codes(b)[..k][i] == b[i] as int;
      }
      if a[..k] == b[..k] {
        assert forall i :: 0 <= i < k ==> Codes(a)[i] == a[..k][i] as int == b[..k][i] as int == Codes(b)[i];
      }
    }
    if k: nat :| FirstDiffer(Codes(a), Codes(b), k) {
      assert a[..k] == b[..k];
    }
    if k: nat :| k <= |a| && k < |b| && a[..k] == b[..k] && (k == |a| || a[k] < b[k]) {
      assert FirstDiffer(Codes(a), Codes(b), k);
    }
  }

  function Total(es: seq<Entry>): nat {
    if es == [] then 0 else Total(es[..|es| - 1]) + es[|es| - 1].value
  }

  function Of(es: seq<Entry>, key: string): seq<Entry> {
    if es == [] then []
    else if es[|es| - 1].key == key then Of(es[..|es| - 1], key) + [es[|es| - 1]]
    else Of(es[..|es| - 1], key)
  }

  function Keys(es: seq<Entry>): set<string> {
    set e | e in es :: e.key
  }

  function GroupOf(es: seq<Entry>, key: string): Group {
    Group(key, |Of(es, key)|, Total(Of(es, key)))
  }

  ghost predicate InKeyOrder(groups: seq<Group>) {
    forall i, j :: 0 <= i < j < |groups| ==> TextBefore(groups[i].key, groups[j].key)
  }

  ghost function KeysOf(groups: seq<Group>): set<string> {
    set g | g in groups :: g.key
  }

  /** The result of the query: one group for each key, in key order. */
  ghost predicate IsGroupBy(groups: seq<Group>, es: seq<Entry>) {
    && InKeyOrder(groups)
    && KeysOf(groups) == Keys(es)
    && forall i :: 0 <= i < |groups| ==> groups[i] == GroupOf(es, groups[i].key)
  }

  function Totals(groups: seq<Group>): nat {
    if groups == [] then 0 else Totals(groups[..|groups| - 1]) + groups[|groups| - 1].total
  }

  function Counts(groups: seq<Group>): nat {
    if groups == [] then 0 else Counts(groups[..|groups| - 1]) + groups[|groups| - 1].count
  }

  // ---- the query, as an in-order insertion of each key's group ----

  method GroupBy(es: seq<Entry>) returns (groups: seq<Group>)
    ensures IsGroupBy(groups, es)
  {
    groups := [];
    var i := 0;
    while i < |es|
      invariant 0 <= i <= |es|
      invariant IsGroupBy(groups, es[..i])
    {
      groups := AddEntry(groups, es[..i], es[i]);
      assert es[..i + 1] == es[..i] + [es[i]];
      i := i + 1;
    }
    assert es[..i] == es;
  }

  lemma {:induction false} GroupGrows(es: seq<Entry>, e: Entry, key: string)
    ensures GroupOf(es + [e], key) == (
      var g := GroupOf(es, key);
      if e.key == key then Group(key, g.count + 1, g.total + e.value) else g)
  {
    assert (es + [e])[..|es + [e]| - 1] == es;
    if e.key == key {
      assert (Of(es, key) + [e])[..|Of(es, key) + [e]| - 1] == Of(es, key);
    }
  }

  lemma {:induction false} NoneOfAbsent(es: seq<Entry>, key: string)
    requires key !in Keys(es)
    ensures Of(es, key) == []
    decreases |es|
  {
    if es == [] {
    } else {
      assert es[|es| - 1].key in Keys(es);
      assert forall e :: e in es[..|es| - 1] ==> e in es;
      NoneOfAbsent(es[..|es| - 1], key);
    }
  }

  lemma {:induction false} KeysGrow(es: seq<Entry>, e: Entry)
    ensures Keys(es + [e]) == Keys(es) + {e.key}
  {
    forall k | k in Keys(es) + {e.key}
      ensures k in Keys(es + [e])
    {
      if k == e.key {
        assert e in es + [e];
      } else {
        var d :| d in es && d.key == k;
        assert d in es + [e];
      }
    }
  }

  /** Where the key belongs: the number of groups before it. */
  method Position(groups: seq<Group>, key: string) returns (k: nat)
    requires InKeyOrder(groups)
    ensures k <= |groups|
    ensures forall i :: 0 <= i < k ==> TextBefore(groups[i].key, key)
    ensures forall i :: k <= i < |groups| ==> !TextBefore(groups[i].key, key)
    ensures forall i :: k < i < |groups| ==> groups[i].key != key
  {
    k := 0;
    while k < |groups| && TextBefore(groups[k].key, key)
      invariant k <= |groups|
      invariant forall i :: 0 <= i < k ==> TextBefore(groups[i].key, key)
    {
      k := k + 1;
    }
    forall i | k <= i < |groups|
      ensures !TextBefore(groups[i].key, key) && (i > k ==> groups[i].key != key)
    {
      if i > k { NameOrder(groups[k].key, groups[i].key, key); }
    }
  }

  lemma {:induction false} KeyAt(groups: seq<Group>, key: string)
    ensures key in KeysOf(groups) <==> exists i :: 0 <= i < |groups| && groups[i].key == key
  {
    if i :| 0 <= i < |groups| && groups[i].key == key {
      assert groups[i] in groups;
    }
  }

  lemma {:induction false} GroupsFollow(groups: seq<Group>, es: seq<Entry>, e: Entry, groups': seq<Group>)
    requires IsGroupBy(groups, es)
    requires forall i :: 0 <= i < |groups'| ==>
      (groups'[i] in groups && groups'[i].key != e.key) || groups'[i] == GroupOf(es + [e], e.key)
    ensures forall i :: 0 <= i < |groups'| ==> groups'[i] == GroupOf(es + [e], groups'[i].key)
  {
    forall i | 0 <= i < |groups'|
      ensures groups'[i] == GroupOf(es + [e], groups'[i].key)
    {
      GroupGrows(es, e, groups'[i].key);
    }
  }

  lemma {:induction false} SameKeys(groups: seq<Group>, r: seq<Group>)
    requires |r| == |groups| && InKeyOrder(groups)
    requires forall i :: 0 <= i < |r| ==> r[i].key == groups[i].key
    ensures InKeyOrder(r) && KeysOf(r) == KeysOf(groups)
  {
    forall key
      ensures key in KeysOf(r) <==> key in KeysOf(groups)
    {
      KeyAt(r, key);
      KeyAt(groups, key);
    }
  }

  lemma {:induction false} OneOfAKey(groups: seq<Group>, i: nat, k: nat)
    requires InKeyOrder(groups) && i < |groups| && k < |groups| && i != k
    ensures groups[i].key != groups[k].key
  {
    NameOrder(groups[k].key, groups[k].key, groups[k].key);
  }

  lemma {:induction false} CountedIn(groups: seq<Group>, es: seq<Entry>, e: Entry, k: nat)
    requires IsGroupBy(groups, es) && k < |groups| && groups[k].key == e.key
    ensures IsGroupBy(groups[k := GroupOf(es + [e], e.key)], es + [e])
  {
    var g := GroupOf(es + [e], e.key);
    var r := groups[k := g];
    assert forall i :: 0 <= i < |r| ==> r[i] == if i == k then g else groups[i];
    SameKeys(groups, r);
    KeysGrow(es, e);
    KeyAt(groups, e.key);
    forall i | 0 <= i < |r|
      ensures (r[i] in groups && r[i].key != e.key) || r[i] == g
    {
      if i != k { OneOfAKey(groups, i, k); }
    }
    GroupsFollow(groups, es, e, r);
  }

  lemma {:induction false} Started(groups: seq<Group>, es: seq<Entry>, e: Entry, k: nat)
    requires IsGroupBy(groups, es) && k <= |groups|
    requires forall i :: 0 <= i < k ==> TextBefore(groups[i].key, e.key)
    requires forall i :: k <= i < |groups| ==> !TextBefore(groups[i].key, e.key) && groups[i].key != e.key
    ensures IsGroupBy(groups[..k] + [Group(e.key, 1, e.value)] + groups[k..], es + [e])
  {
    forall i | 0 <= i < |groups|
      ensures groups[i].key != e.key
    {
      NameOrder(e.key, e.key, e.key);
    }
    KeyAt(groups, e.key);
    NoneOfAbsent(es, e.key);
    GroupGrows(es, e, e.key);
    var g := Group(e.key, 1, e.value);
    var r := groups[..k] + [g] + groups[k..];
    InsertedInOrder(groups, k, g);
    GroupsFollow(groups, es, e, r);
    InsertedKeys(groups, k, g);
    KeysGrow(es, e);
  }

  /** One more input row: its group counts it, or a new group starts at its place in the order. */
  method AddEntry(groups: seq<Group>, ghost es: seq<Entry>, e: Entry) returns (r: seq<Group>)
    requires IsGroupBy(groups, es)
    ensures IsGroupBy(r, es + [e])
  {
    var k := Position(groups, e.key);
    if k < |groups| && groups[k].key == e.key {
      GroupGrows(es, e, e.key);
      var g := Group(e.key, groups[k].count + 1, groups[k].total + e.value);
      assert g == GroupOf(es + [e], e.key);
      CountedIn(groups, es, e, k);
      r := groups[k := g];
    } else {
      Started(groups, es, e, k);
      r := groups[..k] + [Group(e.key, 1, e.value)] + groups[k..];
    }
  }

  lemma {:induction false} InsertedInOrder(groups: seq<Group>, k: nat, g: Group)
    requires InKeyOrder(groups) && k <= |groups|
    requires forall i :: 0 <= i < k ==> TextBefore(groups[i].key, g.key)
    requires forall i :: k <= i < |groups| ==> !TextBefore(groups[i].key, g.key) && groups[i].key != g.key
    ensures InKeyOrder(groups[..k] + [g] + groups[k..])
  {
    var r := groups[..k] + [g] + groups[k..];
    forall i, j | 0 <= i < j < |r|
      ensures TextBefore(r[i].key, r[j].key)
    {
      if i == k { NameOrder(g.key, r[j].key, r[j].key); }
      if i < k < j { assert TextBefore(groups[i].key, groups[j - 1].key); }
    }
  }

  lemma {:induction false} InsertedKeys(groups: seq<Group>, k: nat, g: Group)
    requires k <= |groups|
    ensures KeysOf(groups[..k] + [g] + groups[k..]) == KeysOf(groups) + {g.key}
  {
    var r := groups[..k] + [g] + groups[k..];
    forall key
      ensures key in KeysOf(r) <==> key in KeysOf(groups) + {g.key}
    {
      KeyAt(r, key);
      KeyAt(groups, key);
      if i :| 0 <= i < |groups| && groups[i].key == key {
        assert r[if i < k then i else i + 1] == groups[i];
      }
      if key == g.key { assert r[k] == g; }
    }
  }

  // ---- nothing is lost or counted twice ----

  function TotalOf(es: seq<Entry>, key: string): nat {
    Total(Of(es, key))
  }

  /** Splitting off one key. */
  function Without(es: seq<Entry>, key: string): seq<Entry> {
    if es == [] then []
    else if es[|es| - 1].key != key then Without(es[..|es| - 1], key) + [es[|es| - 1]]
    else Without(es[..|es| - 1], key)
  }

  lemma {:induction false} TotalOn(es: seq<Entry>, e: Entry)
    ensures Total(es + [e]) == Total(es) + e.value
  {
    assert (es + [e])[..|es + [e]| - 1] == es;
  }

  lemma {:induction false} SplitOff(es: seq<Entry>, key: string)
    ensures Total(es) == TotalOf(es, key) + Total(Without(es, key))
    ensures |es| == |Of(es, key)| + |Without(es, key)|
    decreases |es|
  {
    if es == [] {
    } else {
      var front, e := es[..|es| - 1], es[|es| - 1];
      SplitOff(front, key);
      if e.key == key {
        TotalOn(Of(front, key), e);
      } else {
        TotalOn(Without(front, key), e);
      }
    }
  }

  lemma {:induction false} OthersKeep(es: seq<Entry>, key: string, other: string)
    requires key != other
    ensures Of(Without(es, key), other) == Of(es, other)
    decreases |es|
  {
    if es == [] {
    } else {
      var front, e := es[..|es| - 1], es[|es| - 1];
      OthersKeep(front, key, other);
      if e.key != key {
        var w := Without(front, key);
        assert (w + [e])[..|w + [e]| - 1] == w;
      }
    }
  }

  lemma {:induction false} WithoutKeys(es: seq<Entry>, key: string)
    ensures Keys(Without(es, key)) <= Keys(es) - {key}
    decreases |es|
  {
    if es == [] {
    } else {
      var front, e := es[..|es| - 1], es[|es| - 1];
      WithoutKeys(front, key);
      assert es == front + [e];
      KeysGrow(front, e);
      if e.key != key { KeysGrow(Without(front, key), e); }
    }
  }

  ghost predicate Covers(groups: seq<Group>, es: seq<Entry>) {
    && InKeyOrder(groups) && Keys(es) <= KeysOf(groups)
    && forall i :: 0 <= i < |groups| ==> groups[i] == GroupOf(es, groups[i].key)
  }

  /** The groups together hold every row once: totals and counts add up. */
  lemma {:induction false} GroupsAddUp(groups: seq<Group>, es: seq<Entry>)
    requires Covers(groups, es)
    ensures Totals(groups) == Total(es) && Counts(groups) == |es|
    decreases |groups|
  {
    if es != [] { assert es[0].key in Keys(es); }
    if groups != [] {
      var front, g := groups[..|groups| - 1], groups[|groups| - 1];
      SplitOff(es, g.key);
      WithoutKeys(es, g.key);
      forall i | 0 <= i < |front|
        ensures front[i] == GroupOf(Without(es, g.key), front[i].key)
      {
        OneOfAKey(groups, i, |groups| - 1);
        OthersKeep(es, g.key, front[i].key);
        assert front[i] == groups[i];
      }
      assert KeysOf(groups) == KeysOf(front) + {g.key} by {
        assert groups == front + [g] + [];
        assert front[..|front|] == front && front[|front|..] == [];
        InsertedKeys(front, |front|, g);
      }
      GroupsAddUp(front, Without(es, g.key));
    }
  }
}
