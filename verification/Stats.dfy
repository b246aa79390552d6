/**
 * internal/query/queries.go, StatsPayments: payment counts and totals per asset over a time
 * range, and what they add up to.
 */
module Stats {
  import opened Basics
  import opened Timestamp
  import opened Conditions
  import opened Numeric
  import opened Grouping

  /** The columns of payments this query reads. */
  datatype Payment = Payment(createdAt: Nanos, asset: Option<string>, amount: Option<nat>)

  /** `total` is None where the response shows an empty string. */
  datatype StatRow = StatRow(asset: string, count: nat, total: Option<nat>)

  function RowOf(p: Payment): Row {
    map["created_at" := TimeValue(p.createdAt)]
  }

  predicate InWindow(p: Payment, from: Option<Nanos>, to: Option<Nanos>) {
    (from.Some? ==> from.value <= p.createdAt) && (to.Some? ==> p.createdAt <= to.value)
  }

  /** COALESCE(asset, 'unknown') and the summed amount, NULL adding nothing. */
  ghost function EntryOf(p: Payment): Entry {
    Entry(if p.asset.Some? then p.asset.value else "unknown", if p.amount.Some? then p.amount.value else 0)
  }

  /** The GROUP BY input: an entry for each payment in the window. */
  ghost function Within(ps: seq<Payment>, from: Option<Nanos>, to: Option<Nanos>): seq<Entry> {
    if ps == [] then []
    else
      var rest, p := Within(ps[..|ps| - 1], from, to), ps[|ps| - 1];
      if InWindow(p, from, to) then rest + [EntryOf(p)] else rest
  }

  /** hexOrEmpty of a sum. */
  function Shown(total: nat): Option<nat> {
    var a := ToAmount(FromAmount(total));
    if a.Ok? then Some(a.value) else None
  }

  ghost predicate AreStats(rows: seq<StatRow>, ps: seq<Payment>, from: Option<Nanos>, to: Option<Nanos>) {
    exists groups: seq<Group> ::
      IsGroupBy(groups, Within(ps, from, to)) && |groups| == |rows| && Renders(rows, groups)
  }

  predicate Renders(rows: seq<StatRow>, groups: seq<Group>)
    requires |groups| == |rows|
  {
    forall i :: 0 <= i < |rows| ==> rows[i] == StatRow(groups[i].key, groups[i].count, Shown(groups[i].total))
  }

  function Compiled(from: Option<Nanos>, to: Option<Nanos>): Built {
    AddRange(EMPTY, "created_at", from, to)
  }

  lemma {:induction false} WindowMeans(p: Payment, from: Option<Nanos>, to: Option<Nanos>)
    ensures Numbered(Compiled(from, to))
    ensures Selects(Compiled(from, to), RowOf(p)) <==> InWindow(p, from, to)
  {
    RangeMeans(EMPTY, "created_at", from, to, RowOf(p));
    assert Selects(EMPTY, RowOf(p));
  }

  method StatsPayments(ps: seq<Payment>, from: Option<Nanos>, to: Option<Nanos>) returns (rows: seq<StatRow>)
    ensures AreStats(rows, ps, from, to)
    ensures ShowsStats(rows, ps, from, to)
  {
    var c := new Conds();
    c.TsRange("created_at", from, to);
    var b := Built(c.conds, c.args);
    assert Numbered(b) by { WindowMeans(Payment(0, None, None), from, to); }
    var es := [];
    var i := 0;
    while i < |ps|
      invariant 0 <= i <= |ps| && b == Compiled(from, to) && Numbered(b)
      invariant es == Within(ps[..i], from, to)
    {
      WindowMeans(ps[i], from, to);
      assert ps[..i + 1][..i] == ps[..i];
      if Selects(b, RowOf(ps[i])) {
        var asset := if ps[i].asset.Some? then ps[i].asset.value else "unknown";
        var amount := if ps[i].amount.Some? then ps[i].amount.value else 0;
        es := es + [Entry(asset, amount)];
      }
      i := i + 1;
    }
    assert ps[..i] == ps;
    var groups := GroupBy(es);
    rows := [];
    var j := 0;
    while j < |groups|
      invariant 0 <= j <= |groups| && |rows| == j
      invariant Renders(rows, groups[..j])
    {
      rows := rows + [StatRow(groups[j].key, groups[j].count, Shown(groups[j].total))];
      j := j + 1;
    }
    assert groups[..j] == groups;
    StatsInColumns(rows, ps, from, to);
  }

  // ---- the same, column by column ----

  /** Payment p was created between the bounds, both included, in this asset; no asset is 'unknown'. */
  ghost predicate CountsFor(p: Payment, from: Option<Nanos>, to: Option<Nanos>, asset: string) {
    && (from == None || from.value <= p.createdAt) && (to == None || p.createdAt <= to.value)
    && (p.asset == Some(asset) || (p.asset == None && asset == "unknown"))
  }

  ghost function Counted(ps: seq<Payment>, from: Option<Nanos>, to: Option<Nanos>, asset: string): set<nat> {
    set i | 0 <= i < |ps| && CountsFor(ps[i], from, to, asset)
  }

  /** What the counted payments add up to. */
  ghost function Paid(ps: seq<Payment>, from: Option<Nanos>, to: Option<Nanos>, asset: string): nat {
    if ps == [] then 0 else
      var rest, p := Paid(ps[..|ps| - 1], from, to, asset), ps[|ps| - 1];
      if CountsFor(p, from, to, asset) && p.amount.Some? then rest + p.amount.value else rest
  }

  /** A row for each asset some payment counts for, with the number of those payments and their sum if it fits. */
  ghost predicate ShowsStats(rows: seq<StatRow>, ps: seq<Payment>, from: Option<Nanos>, to: Option<Nanos>) {
    && (forall i, j :: 0 <= i < j < |rows| ==> TextBefore(rows[i].asset, rows[j].asset))
    && (forall asset :: (exists i :: 0 <= i < |rows| && rows[i].asset == asset) <==> Counted(ps, from, to, asset) != {})
    && forall i :: 0 <= i < |rows| ==>
         && rows[i].count == |Counted(ps, from, to, rows[i].asset)|
         && var sum := Paid(ps, from, to, rows[i].asset);
            rows[i].total == if sum <= MAX_AMOUNT then Some(sum) else None
  }

  lemma {:induction false} CountedGrows(ps: seq<Payment>, from: Option<Nanos>, to: Option<Nanos>, asset: string)
    requires ps != []
    ensures var init, p := ps[..|ps| - 1], ps[|ps| - 1];
      |Counted(ps, from, to, asset)| ==
        |Counted(init, from, to, asset)| + if CountsFor(p, from, to, asset) then 1 else 0
    ensures var init, p := ps[..|ps| - 1], ps[|ps| - 1];
      Counted(ps, from, to, asset) != {} <==> Counted(init, from, to, asset) != {} || CountsFor(p, from, to, asset)
  {
    var n := |ps| - 1;
    var before := Counted(ps[..n], from, to, asset);
    assert forall i :: 0 <= i < n ==> ps[..n][i] == ps[i];
    assert n !in before;
    assert Counted(ps, from, to, asset) == if CountsFor(ps[n], from, to, asset) then before + {n} else before;
  }

  lemma {:induction false} WithinGrows(ps: seq<Payment>, from: Option<Nanos>, to: Option<Nanos>)
    requires ps != []
    ensures var p, es := ps[|ps| - 1], Within(ps[..|ps| - 1], from, to);
      Within(ps, from, to) == if InWindow(p, from, to) then es + [EntryOf(p)] else es
  {
  }

  lemma {:induction false} CountsByKey(p: Payment, from: Option<Nanos>, to: Option<Nanos>, asset: string)
    ensures CountsFor(p, from, to, asset) <==> InWindow(p, from, to) && EntryOf(p).key == asset
  {
  }

  lemma {:induction false} PaidGrows(ps: seq<Payment>, from: Option<Nanos>, to: Option<Nanos>, asset: string)
    requires ps != []
    ensures var p := ps[|ps| - 1];
      Paid(ps, from, to, asset) ==
        Paid(ps[..|ps| - 1], from, to, asset) + if CountsFor(p, from, to, asset) then EntryOf(p).value else 0
  {
  }

  /** Counted as the groups count. */
  ghost function GroupCounted(ps: seq<Payment>, from: Option<Nanos>, to: Option<Nanos>, asset: string): Group {
    Group(asset, |Counted(ps, from, to, asset)|, Paid(ps, from, to, asset))
  }

  lemma {:induction false} GroupIsCounted(ps: seq<Payment>, from: Option<Nanos>, to: Option<Nanos>, asset: string)
    ensures GroupOf(Within(ps, from, to), asset) == GroupCounted(ps, from, to, asset)
    decreases |ps|
  {
    if ps == [] {
      assert Within(ps, from, to) == [];
    } else {
      var init, p := ps[..|ps| - 1], ps[|ps| - 1];
      GroupIsCounted(init, from, to, asset);
      CountedGrows(ps, from, to, asset);
      PaidGrows(ps, from, to, asset);
      CountsByKey(p, from, to, asset);
      WithinGrows(ps, from, to);
      GroupGrows(Within(init, from, to), EntryOf(p), asset);
    }
  }

  lemma {:induction false} KeysAreCounted(ps: seq<Payment>, from: Option<Nanos>, to: Option<Nanos>, asset: string)
    ensures asset in Keys(Within(ps, from, to)) <==> Counted(ps, from, to, asset) != {}
    decreases |ps|
  {
    if ps == [] {
      assert Within(ps, from, to) == [];
    } else {
      var init, p := ps[..|ps| - 1], ps[|ps| - 1];
      KeysAreCounted(init, from, to, asset);
      CountedGrows(ps, from, to, asset);
      CountsByKey(p, from, to, asset);
      WithinGrows(ps, from, to);
      KeysGrow(Within(init, from, to), EntryOf(p));
    }
  }

  lemma {:induction false} StatsInColumns(rows: seq<StatRow>, ps: seq<Payment>, from: Option<Nanos>, to: Option<Nanos>)
    requires AreStats(rows, ps, from, to)
    ensures ShowsStats(rows, ps, from, to)
  {
    var es := Within(ps, from, to);
    var groups: seq<Group> :| IsGroupBy(groups, es) && |groups| == |rows| && Renders(rows, groups);
    forall asset
      ensures (exists i :: 0 <= i < |rows| && rows[i].asset == asset) <==> Counted(ps, from, to, asset) != {}
    {
      KeyAt(groups, asset);
      KeysAreCounted(ps, from, to, asset);
      if i :| 0 <= i < |rows| && rows[i].asset == asset { assert groups[i].key == asset; }
      if i :| 0 <= i < |groups| && groups[i].key == asset { assert rows[i].asset == asset; }
    }
    forall i | 0 <= i < |rows|
      ensures rows[i].count == |Counted(ps, from, to, rows[i].asset)|
      ensures var sum := Paid(ps, from, to, rows[i].asset);
        rows[i].total == if sum <= MAX_AMOUNT then Some(sum) else None
    {
      GroupIsCounted(ps, from, to, groups[i].key);
      assert groups[i] == GroupOf(es, groups[i].key);
      ShownIsTotal(groups[i].total);
    }
  }

  function CountSum(rows: seq<StatRow>): nat {
    if rows == [] then 0 else CountSum(rows[..|rows| - 1]) + rows[|rows| - 1].count
  }

  function ShownSum(rows: seq<StatRow>): nat {
    if rows == [] then 0 else
      ShownSum(rows[..|rows| - 1]) + if rows[|rows| - 1].total.Some? then rows[|rows| - 1].total.value else 0
  }

  /** No asset's payments in the range add up to more than an amount can hold. */
  ghost predicate TotalsFit(ps: seq<Payment>, from: Option<Nanos>, to: Option<Nanos>) {
    forall key :: key in Keys(Within(ps, from, to)) ==> TotalOf(Within(ps, from, to), key) <= MAX_AMOUNT
  }

  predicate GroupsFit(groups: seq<Group>) {
    forall i :: 0 <= i < |groups| ==> groups[i].total <= MAX_AMOUNT
  }

  lemma {:induction false} ShownIsTotal(total: nat)
    ensures Shown(total) == if total <= MAX_AMOUNT then Some(total) else None
  {
    ToAmountIsExact(FromAmount(total), total);
    assert Pow10(0) == 1;
  }

  lemma {:induction false} RenderedSums(rows: seq<StatRow>, groups: seq<Group>)
    requires |groups| == |rows| && Renders(rows, groups)
    ensures CountSum(rows) == Counts(groups)
    ensures ShownSum(rows) <= Totals(groups)
    ensures ShownSum(rows) == Totals(groups) <==> GroupsFit(groups)
    decreases |rows|
  {
    if rows == [] {
    } else {
      var n := |rows| - 1;
      RenderedSums(rows[..n], groups[..n]);
      ShownIsTotal(groups[n].total);
      assert GroupsFit(groups) <==> GroupsFit(groups[..n]) && groups[n].total <= MAX_AMOUNT;
    }
  }

  lemma {:induction false} FitIffTotalsFit(groups: seq<Group>, es: seq<Entry>)
    requires IsGroupBy(groups, es)
    ensures GroupsFit(groups) <==> forall key :: key in Keys(es) ==> TotalOf(es, key) <= MAX_AMOUNT
  {
    forall key | key in Keys(es) && GroupsFit(groups)
      ensures TotalOf(es, key) <= MAX_AMOUNT
    {
      KeyAt(groups, key);
      var i :| 0 <= i < |groups| && groups[i].key == key;
      assert groups[i] == GroupOf(es, key);
    }
    forall i | 0 <= i < |groups| && (forall key :: key in Keys(es) ==> TotalOf(es, key) <= MAX_AMOUNT)
      ensures groups[i].total <= MAX_AMOUNT
    {
      KeyAt(groups, groups[i].key);
      assert groups[i] == GroupOf(es, groups[i].key) && groups[i].key in Keys(es);
    }
  }

  /**
   * The counts add up to the payments in the range, each counted once. The totals shown add up to
   * everything paid in the range if and only if no asset's payments exceed the amount range, and
   * never to more.
   */
  lemma {:induction false} StatsAddUp(rows: seq<StatRow>, ps: seq<Payment>, from: Option<Nanos>, to: Option<Nanos>)
    requires AreStats(rows, ps, from, to)
    ensures CountSum(rows) == |Within(ps, from, to)|
    ensures ShownSum(rows) <= Total(Within(ps, from, to))
    ensures ShownSum(rows) == Total(Within(ps, from, to)) <==> TotalsFit(ps, from, to)
  {
    var groups :| IsGroupBy(groups, Within(ps, from, to)) && |groups| == |rows| && Renders(rows, groups);
    GroupsAddUp(groups, Within(ps, from, to));
    RenderedSums(rows, groups);
    FitIffTotalsFit(groups, Within(ps, from, to));
  }

  /** Two payments of the largest amount: the row counts both, and its total is shown as nothing. */
  lemma {:induction false} TotalsCanVanish(rows: seq<StatRow>)
    requires AreStats(rows, [Payment(0, None, Some(MAX_AMOUNT)), Payment(1, None, Some(MAX_AMOUNT))], None, None)
    ensures rows == [StatRow("unknown", 2, None)]
  {
    var p, q := Payment(0, None, Some(MAX_AMOUNT)), Payment(1, None, Some(MAX_AMOUNT));
    var e := Entry("unknown", MAX_AMOUNT);
    assert [p, q][..1] == [p] && [p][..0] == [];
    var es := Within([p, q], None, None);
    assert Within([], None, None) == [] && Within([p], None, None) == [e] && es == [e] + [e];
    var groups :| IsGroupBy(groups, es) && |groups| == |rows| && Renders(rows, groups);
    GroupGrows([], e, "unknown");
    GroupGrows([e], e, "unknown");
    assert [] + [e] == [e];
    assert GroupOf(es, "unknown") == Group("unknown", 2, 2 * MAX_AMOUNT);
    OnlyOneKey(groups, es, "unknown");
    ShownIsTotal(2 * MAX_AMOUNT);
  }

  lemma {:induction false} OnlyOneKey(groups: seq<Group>, es: seq<Entry>, key: string)
    requires IsGroupBy(groups, es) && es != [] && forall e :: e in es ==> e.key == key
    ensures groups == [GroupOf(es, key)]
  {
    assert es[0] in es && key in Keys(es);
    KeyAt(groups, key);
    forall j | 0 <= j < |groups|
      ensures groups[j].key == key
    {
      KeyAt(groups, groups[j].key);
    }
    if |groups| > 1 { OneOfAKey(groups, 0, 1); }
  }
}
