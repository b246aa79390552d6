/**
 * The three period queries as the service runs them: rows arrive in whatever order the tables
 * are scanned, are joined and grouped, and are turned into the result one by one. Settlement
 * and reconciliation also record what they found.
 */
module Ledger {
  import opened Basics
  import opened Projection
  import opened Numeric
  import opened Grouping
  import opened Books
  import opened Accounting
  import Orders

  /** The order in which a sequential scan meets the rows of a table. */
  ghost predicate IsScan(scan: seq<Id>, ids: set<Id>) {
    NoDuplicates(scan) && ToSet(scan) == ids
  }

  datatype Scans = Scans(orders: seq<Id>, refunds: seq<Id>, payments: seq<Id>)

  ghost predicate AreScans(s: Scans, b: Books) {
    IsScan(s.orders, b.orders.Keys) && IsScan(s.refunds, b.refunds.Keys) && IsScan(s.payments, b.payments.Keys)
  }

  datatype Settled = Settled(merchant: Id, row: SettlementRow)

  datatype Reconciled = Reconciled(merchant: Id, report: Reconciliation)

  // ---- sums over a scan ----

  /** The GROUP BY input for some rows: each row's group name and its column. */
  ghost function Entries(ids: seq<Id>, names: map<Id, string>, col: Column): seq<Entry>
    requires ToSet(ids) <= names.Keys && ToSet(ids) <= col.Keys
  {
    seq(|ids|, i requires 0 <= i < |ids| => assert ids[i] in ToSet(ids); Entry(names[ids[i]], col[ids[i]]))
  }

  ghost function Named(ids: set<Id>, names: map<Id, string>, key: string): set<Id>
    requires ids <= names.Keys
  {
    set id | id in ids && names[id] == key
  }

  lemma {:induction false} LastId(ids: seq<Id>)
    requires NoDuplicates(ids) && ids != []
    ensures NoDuplicates(ids[..|ids| - 1]) && ids[|ids| - 1] !in ToSet(ids[..|ids| - 1])
    ensures ToSet(ids) == ToSet(ids[..|ids| - 1]) + {ids[|ids| - 1]}
  {
    assert ids == ids[..|ids| - 1] + [ids[|ids| - 1]];
  }

  lemma {:induction false} NamedGrows(ids: set<Id>, id: Id, names: map<Id, string>, col: Column, key: string)
    requires ids + {id} <= names.Keys && ids + {id} <= col.Keys && id !in ids
    ensures Sum(col, Named(ids + {id}, names, key)) ==
      Sum(col, Named(ids, names, key)) + if names[id] == key then col[id] else 0
  {
    if names[id] == key {
      assert Named(ids + {id}, names, key) == Named(ids, names, key) + {id};
      SumIn(col, Named(ids, names, key), id);
    } else {
      assert Named(ids + {id}, names, key) == Named(ids, names, key);
    }
  }

  /** SUM of one group of a scan is the sum of the column over the rows of that group. */
  lemma {:induction false} GroupedSum(ids: seq<Id>, names: map<Id, string>, col: Column, key: string)
    requires NoDuplicates(ids) && ToSet(ids) <= names.Keys && ToSet(ids) <= col.Keys
    ensures TotalOf(Entries(ids, names, col), key) == Sum(col, Named(ToSet(ids), names, key))
    decreases |ids|
  {
    if ids == [] {
      assert Named(ToSet(ids), names, key) == {};
    } else {
      var front, id := ids[..|ids| - 1], ids[|ids| - 1];
      LastId(ids);
      GroupedSum(front, names, col, key);
      var e := Entry(names[id], col[id]);
      assert Entries(ids, names, col) == Entries(front, names, col) + [e];
      GroupGrows(Entries(front, names, col), e, key);
      NamedGrows(ToSet(front), id, names, col, key);
    }
  }

  lemma {:induction false} GroupedKeys(ids: seq<Id>, names: map<Id, string>, col: Column)
    requires ToSet(ids) <= names.Keys && ToSet(ids) <= col.Keys
    ensures Keys(Entries(ids, names, col)) == set id | id in ToSet(ids) :: names[id]
  {
    var es := Entries(ids, names, col);
    forall k | k in (set id | id in ToSet(ids) :: names[id])
      ensures k in Keys(es)
    {
      var id :| id in ToSet(ids) && names[id] == k;
      var i :| 0 <= i < |ids| && ids[i] == id;
      assert es[i] in es;
    }
  }

  // ---- the parts of the queries ----

  /** WHERE merchant_id = $1 AND paid_at in the period. */
  method SelectSold(b: Books, scan: seq<Id>, scope: Scope) returns (ids: seq<Id>)
    requires IsScan(scan, b.orders.Keys)
    ensures IsScan(ids, Sold(b, scope))
  {
    ids := [];
    var i := 0;
    while i < |scan|
      invariant 0 <= i <= |scan|
      invariant NoDuplicates(ids) && forall id :: id in ids <==> id in scan[..i] && id in Sold(b, scope)
    {
      assert scan[i] in ToSet(scan);
      assert scan[i] !in scan[..i];
      assert scan[..i + 1] == scan[..i] + [scan[i]];
      var o := b.orders[scan[i]];
      if o.merchant == scope.merchant && o.paidAt.Some? && scope.inPeriod(o.paidAt.value) {
        ids := ids + [scan[i]];
      }
      i := i + 1;
    }
    assert scan[..i] == scan;
    assert ToSet(ids) == Sold(b, scope) by {
      assert forall id :: id in Sold(b, scope) ==> id in ToSet(scan);
    }
  }

  ghost function OrderNames(b: Books): map<Id, string> {
    map r | r in b.refunds :: b.refunds[r].order
  }

  ghost function AssetNames(b: Books): map<Id, string> {
    map id | id in b.orders :: AssetName(b.orders[id])
  }

  /** Each refunded order's total. */
  ghost predicate AreRefundSums(sums: seq<Group>, b: Books) {
    && InKeyOrder(sums)
    && (forall i :: 0 <= i < |sums| ==> sums[i].total == Sum(RefundAmounts(b), Orders.RowsOf(b.refunds, sums[i].key)))
    && forall order :: order !in KeysOf(sums) ==> Orders.RowsOf(b.refunds, order) == {}
  }

  lemma {:induction false} GroupsAreRefundSums(b: Books, scan: seq<Id>, sums: seq<Group>)
    requires IsScan(scan, b.refunds.Keys)
    requires IsGroupBy(sums, Entries(scan, OrderNames(b), RefundAmounts(b)))
    ensures AreRefundSums(sums, b)
  {
    GroupedKeys(scan, OrderNames(b), RefundAmounts(b));
    forall j | 0 <= j < |sums|
      ensures sums[j].total == Sum(RefundAmounts(b), Orders.RowsOf(b.refunds, sums[j].key))
    {
      GroupedSum(scan, OrderNames(b), RefundAmounts(b), sums[j].key);
      AllRefunds(b, scan, sums[j].key);
    }
    forall r | r in b.refunds
      ensures b.refunds[r].order in KeysOf(sums)
    {
      assert r in ToSet(scan) && OrderNames(b)[r] == b.refunds[r].order;
    }
  }

  /** SELECT order_id, SUM(amount) FROM refunds GROUP BY order_id. */
  method SumRefunds(b: Books, scan: seq<Id>) returns (sums: seq<Group>)
    requires IsScan(scan, b.refunds.Keys)
    ensures AreRefundSums(sums, b)
  {
    var es := [];
    var i := 0;
    while i < |scan|
      invariant 0 <= i <= |scan| && |es| == i
      invariant forall k :: 0 <= k < i ==>
        scan[k] in b.refunds && es[k] == Entry(b.refunds[scan[k]].order, b.refunds[scan[k]].amount)
    {
      assert scan[i] in ToSet(scan);
      es := es + [Entry(b.refunds[scan[i]].order, b.refunds[scan[i]].amount)];
      i := i + 1;
    }
    assert es == Entries(scan, OrderNames(b), RefundAmounts(b));
    sums := GroupBy(es);
    GroupsAreRefundSums(b, scan, sums);
  }

  function SomeOf(ids: seq<Id>): seq<Option<Id>> {
    seq(|ids|, i requires 0 <= i < |ids| => Some(ids[i]))
  }

  function KeyColumn(sums: seq<Group>): seq<Id> {
    seq(|sums|, i requires 0 <= i < |sums| => sums[i].key)
  }

  function FeeOf(sums: seq<Group>, sum: Option<nat>): nat
    requires sum.Some? ==> sum.value < |sums|
  {
    if sum.None? then 0 else sums[sum.value].total
  }

  /** Row i of the join: order i once, beside the sum of its refunds if it has any. */
  lemma {:induction false} JoinedFee(b: Books, ids: seq<Id>, sums: seq<Group>, i: nat)
    requires AreRefundSums(sums, b) && i < |ids| && ids[i] in b.orders
    ensures |LeftJoin(SomeOf(ids), KeyColumn(sums))| == |ids|
    ensures var p := LeftJoin(SomeOf(ids), KeyColumn(sums))[i];
      && p.left == i && (p.right.Some? ==> p.right.value < |sums|)
      && FeeOf(sums, p.right) == RefundTotals(b)[ids[i]]
  {
    var left, right := SomeOf(ids), KeyColumn(sums);
    forall x, y | 0 <= x < y < |right|
      ensures right[x] != right[y]
    {
      OneOfAKey(sums, x, y);
    }
    JoinDuplicatesNothing(left, right);
    var sum := LeftJoin(left, right)[i].right;
    assert left[i] == Some(ids[i]);
    if sum.None? {
      NotSummed(b, sums, right, ids[i]);
    } else {
      assert IsHit(left[i], right, sum.value);
    }
  }

  /** LEFT JOIN of the selected orders with the refund sums, NULL read as 0 by the outer SUM. */
  method JoinRefunds(b: Books, ids: seq<Id>, sums: seq<Group>) returns (fees: seq<nat>)
    requires ToSet(ids) <= b.orders.Keys && AreRefundSums(sums, b)
    ensures |fees| == |ids|
    ensures forall i :: 0 <= i < |ids| ==> ids[i] in b.orders && fees[i] == RefundTotals(b)[ids[i]]
  {
    var pairs := LeftJoin(SomeOf(ids), KeyColumn(sums));
    fees := [];
    if ids == [] { return; }
    assert forall i :: 0 <= i < |ids| ==> ids[i] in ToSet(ids);
    JoinedFee(b, ids, sums, 0);
    var i := 0;
    while i < |pairs|
      invariant 0 <= i <= |pairs| == |ids| && |fees| == i
      invariant forall k :: 0 <= k < i ==> ids[k] in b.orders && fees[k] == RefundTotals(b)[ids[k]]
    {
      JoinedFee(b, ids, sums, i);
      fees := fees + [FeeOf(sums, pairs[i].right)];
      i := i + 1;
    }
  }

  lemma {:induction false} NotSummed(b: Books, sums: seq<Group>, right: seq<Id>, id: Id)
    requires AreRefundSums(sums, b) && id in b.orders
    requires |right| == |sums| && (forall i :: 0 <= i < |sums| ==> right[i] == sums[i].key) && id !in right
    ensures RefundTotals(b)[id] == 0
  {
    KeyAt(sums, id);
    assert forall i :: 0 <= i < |sums| ==> right[i] in right;
    assert Orders.RowsOf(b.refunds, id) == {};
  }

  lemma {:induction false} AllRefunds(b: Books, scan: seq<Id>, order: Id)
    requires IsScan(scan, b.refunds.Keys)
    ensures Named(ToSet(scan), OrderNames(b), order) == Orders.RowsOf(b.refunds, order)
  {
  }

  lemma {:induction false} NextRefund(b: Books, scan: seq<Id>, i: nat, order: Id)
    requires IsScan(scan, b.refunds.Keys) && i < |scan| && ToSet(scan[..i]) <= b.refunds.Keys
    ensures scan[i] in b.refunds && ToSet(scan[..i + 1]) <= b.refunds.Keys
    ensures Sum(RefundAmounts(b), Named(ToSet(scan[..i + 1]), OrderNames(b), order)) ==
      Sum(RefundAmounts(b), Named(ToSet(scan[..i]), OrderNames(b), order)) +
      if b.refunds[scan[i]].order == order then b.refunds[scan[i]].amount else 0
  {
    assert scan[i] in ToSet(scan) && scan[i] !in scan[..i];
    assert ToSet(scan[..i + 1]) == ToSet(scan[..i]) + {scan[i]};
    NamedGrows(ToSet(scan[..i]), scan[i], OrderNames(b), RefundAmounts(b), order);
  }

  /** The correlated subquery of the export: SUM(amount) of one order's refunds, 0 with none. */
  method SumRefundsOf(b: Books, scan: seq<Id>, order: Id) returns (total: nat)
    requires IsScan(scan, b.refunds.Keys) && order in b.orders
    ensures total == RefundTotals(b)[order]
  {
    total := 0;
    var i := 0;
    assert Named(ToSet(scan[..0]), OrderNames(b), order) == {};
    while i < |scan|
      invariant 0 <= i <= |scan| && ToSet(scan[..i]) <= b.refunds.Keys
      invariant total == Sum(RefundAmounts(b), Named(ToSet(scan[..i]), OrderNames(b), order))
    {
      NextRefund(b, scan, i, order);
      if b.refunds[scan[i]].order == order {
        total := total + b.refunds[scan[i]].amount;
      }
      i := i + 1;
    }
    assert scan[..i] == scan;
    AllRefunds(b, scan, order);
  }

  /** mustAmount of a sum as the driver hands it over. */
  method ReadAmount(total: nat) returns (a: nat)
    ensures a == InRange(total)
  {
    var n := FromAmount(total);
    MustAmountOfASum(n, total);
    a := MustAmount(n);
  }

  /** One row of the settlement, its amounts as the driver hands them over; net stops at 0. */
  method ReadRow(asset: string, sold: nat, refunded: nat) returns (row: SettlementRow)
    ensures row.asset == asset && row.gross == InRange(sold) && row.fees == InRange(refunded)
    ensures row.net == if row.fees > row.gross then 0 else row.gross - row.fees
  {
    var gross := ReadAmount(sold);
    var fees := ReadAmount(refunded);
    var net := if gross < fees then 0 else gross - fees;
    row := SettlementRow(asset, gross, fees, net);
  }

  /** The merchant's own orders in one asset that were paid in the period. */
  ghost function OwnSales(b: Books, scope: Scope, asset: string): set<Id> {
    set id | id in b.orders
             && b.orders[id].merchant == scope.merchant
             && b.orders[id].paidAt.Some? && scope.inPeriod(b.orders[id].paidAt.value)
             && (b.orders[id].asset == Some(asset) || (b.orders[id].asset == None && asset == "CKB"))
  }

  /** Each asset has a row exactly if the merchant sold in it, with what these very orders add up to. */
  ghost predicate SettlesOwn(rows: seq<SettlementRow>, b: Books, scope: Scope) {
    && (forall asset :: asset in AssetsOf(rows) <==> OwnSales(b, scope, asset) != {})
    && forall i :: 0 <= i < |rows| ==>
         && rows[i].gross == InRange(Sum(Amounts(b), OwnSales(b, scope, rows[i].asset)))
         && rows[i].fees == InRange(Sum(RefundTotals(b), OwnSales(b, scope, rows[i].asset)))
         && rows[i].net == Max(rows[i].gross - rows[i].fees, 0)
  }

  lemma {:induction false} SettlementIsOwn(rows: seq<SettlementRow>, b: Books, scope: Scope)
    requires IsSettlement(rows, b, scope)
    ensures SettlesOwn(rows, b, scope)
  {
    forall asset
      ensures SoldIn(b, scope, asset) == OwnSales(b, scope, asset)
      ensures asset in Assets(b, scope) <==> OwnSales(b, scope, asset) != {}
    {
      if id :| id in Sold(b, scope) && AssetName(b.orders[id]) == asset {
        assert id in OwnSales(b, scope, asset);
      }
      if id :| id in OwnSales(b, scope, asset) {
        assert id in Sold(b, scope) && AssetName(b.orders[id]) == asset;
      }
    }
  }

  /** The settlement query and the loop over its rows. */
  method SettlementRows(b: Books, scans: Scans, scope: Scope) returns (rows: seq<SettlementRow>)
    requires AreScans(scans, b)
    ensures IsSettlement(rows, b, scope)
    ensures SettlesOwn(rows, b, scope)
  {
    var ids := SelectSold(b, scans.orders, scope);
    var sums := SumRefunds(b, scans.refunds);
    var fees := JoinRefunds(b, ids, sums);
    var es, fs := GroupInput(b, ids, fees);
    var groups := GroupBy(es);
    GroupedKeys(ids, AssetNames(b), Amounts(b));
    rows := [];
    var j := 0;
    while j < |groups|
      invariant 0 <= j <= |groups| && |rows| == j
      invariant forall k :: 0 <= k < j ==> rows[k].asset == groups[k].key && RowRight(rows[k], b, scope)
    {
      SumsOfAsset(b, ids, scope, groups[j].key);
      var row := ReadRow(groups[j].key, groups[j].total, Total(Of(fs, groups[j].key)));
      rows := rows + [row];
      j := j + 1;
    }
    AssetsAreKeys(rows, groups);
    assert Assets(b, scope) == Keys(es);
    SettlementIsOwn(rows, b, scope);
  }

  lemma {:induction false} AssetsAreKeys(rows: seq<SettlementRow>, groups: seq<Group>)
    requires |rows| == |groups| && InKeyOrder(groups)
    requires forall k :: 0 <= k < |rows| ==> rows[k].asset == groups[k].key
    ensures InAssetOrder(rows) && AssetsOf(rows) == KeysOf(groups)
  {
    forall a
      ensures a in AssetsOf(rows) <==> a in KeysOf(groups)
    {
      KeyAt(groups, a);
      if r :| r in rows && r.asset == a {
        var k :| 0 <= k < |rows| && rows[k] == r;
        assert groups[k].key == a;
      }
      if k :| 0 <= k < |groups| && groups[k].key == a { assert rows[k] in rows; }
    }
  }

  lemma {:induction false} SumsOfAsset(b: Books, ids: seq<Id>, scope: Scope, asset: string)
    requires IsScan(ids, Sold(b, scope))
    ensures TotalOf(Entries(ids, AssetNames(b), Amounts(b)), asset) == GrossIn(b, scope, asset)
    ensures TotalOf(Entries(ids, AssetNames(b), RefundTotals(b)), asset) == FeesIn(b, scope, asset)
  {
    GroupedSum(ids, AssetNames(b), Amounts(b), asset);
    GroupedSum(ids, AssetNames(b), RefundTotals(b), asset);
    assert Named(ToSet(ids), AssetNames(b), asset) == SoldIn(b, scope, asset);
  }

  /** The joined rows, once with each summed column. */
  method GroupInput(b: Books, ids: seq<Id>, fees: seq<nat>) returns (es: seq<Entry>, fs: seq<Entry>)
    requires ToSet(ids) <= b.orders.Keys && |fees| == |ids|
    requires forall i :: 0 <= i < |ids| ==> ids[i] in b.orders && fees[i] == RefundTotals(b)[ids[i]]
    ensures es == Entries(ids, AssetNames(b), Amounts(b))
    ensures fs == Entries(ids, AssetNames(b), RefundTotals(b))
  {
    es, fs := [], [];
    var i := 0;
    while i < |ids|
      invariant 0 <= i <= |ids| && |es| == |fs| == i
      invariant forall k :: 0 <= k < i ==>
        && es[k] == Entry(AssetName(b.orders[ids[k]]), Amounts(b)[ids[k]])
        && fs[k] == Entry(AssetName(b.orders[ids[k]]), RefundTotals(b)[ids[k]])
    {
      var o := b.orders[ids[i]];
      var asset := if o.asset.Some? then o.asset.value else "CKB";
      es := es + [Entry(asset, if o.amount.Some? then o.amount.value else 0)];
      fs := fs + [Entry(asset, fees[i])];
      i := i + 1;
    }
  }

  // ---- export ----

  predicate PaidBy(b: Books, x: Id, y: Id) {
    && x in b.orders && y in b.orders && b.orders[x].paidAt.Some? && b.orders[y].paidAt.Some?
    && b.orders[x].paidAt.value <= b.orders[y].paidAt.value
  }

  ghost predicate InPaymentOrder(b: Books, ids: seq<Id>) {
    forall i, j :: 0 <= i < j < |ids| ==> PaidBy(b, ids[i], ids[j])
  }

  /** ORDER BY paid_at. */
  method SortByPayment(b: Books, ids: seq<Id>, scope: Scope) returns (r: seq<Id>)
    requires IsScan(ids, Sold(b, scope))
    ensures IsScan(r, Sold(b, scope)) && InPaymentOrder(b, r)
  {
    r := [];
    var i := 0;
    while i < |ids|
      invariant 0 <= i <= |ids|
      invariant NoDuplicates(r) && (forall id :: id in r <==> id in ids[..i]) && InPaymentOrder(b, r)
      invariant forall m :: 0 <= m < |r| ==> r[m] in Sold(b, scope)
    {
      assert ids[i] in ToSet(ids) && ids[i] !in ids[..i];
      assert ids[..i + 1] == ids[..i] + [ids[i]];
      var k := 0;
      while k < |r| && PaidBy(b, r[k], ids[i])
        invariant 0 <= k <= |r|
        invariant forall m :: 0 <= m < k ==> PaidBy(b, r[m], ids[i])
      {
        k := k + 1;
      }
      Placed(b, r, k, ids[i]);
      r := r[..k] + [ids[i]] + r[k..];
      i := i + 1;
    }
    assert ids[..i] == ids;
    assert ToSet(r) == ToSet(ids);
  }

  lemma {:induction false} Placed(b: Books, r: seq<Id>, k: nat, id: Id)
    requires NoDuplicates(r) && InPaymentOrder(b, r) && k <= |r| && id !in r
    requires id in b.orders && b.orders[id].paidAt.Some?
    requires forall m :: 0 <= m < |r| ==> r[m] in b.orders && b.orders[r[m]].paidAt.Some?
    requires forall m :: 0 <= m < k ==> PaidBy(b, r[m], id)
    requires k < |r| ==> PaidBy(b, id, r[k])
    ensures NoDuplicates(r[..k] + [id] + r[k..]) && InPaymentOrder(b, r[..k] + [id] + r[k..])
    ensures forall x :: x in r[..k] + [id] + r[k..] <==> x in r || x == id
  {
    var t := r[..k] + [id] + r[k..];
    assert r == r[..k] + r[k..];
    forall i, j | 0 <= i < j < |t|
      ensures t[i] != t[j] && PaidBy(b, t[i], t[j])
    {
      if j < k { assert PaidBy(b, r[i], r[j]); }
      else if i > k { assert PaidBy(b, r[i - 1], r[j - 1]); }
      else if i < k < j { assert PaidBy(b, r[i], r[j - 1]); }
      else if i == k && j > k + 1 { assert PaidBy(b, r[k], r[j - 1]); }
    }
  }

  /** The ids are those of the merchant's own orders paid in the period, each once. */
  ghost predicate ListsOwn(ids: seq<Id>, b: Books, scope: Scope) {
    && NoDuplicates(ids)
    && forall id :: id in ids <==>
         && id in b.orders && b.orders[id].merchant == scope.merchant
         && b.orders[id].paidAt.Some? && scope.inPeriod(b.orders[id].paidAt.value)
  }

  lemma {:induction false} ExportIsOwn(xs: seq<ExportRow>, b: Books, scope: Scope)
    requires IsExport(xs, b, scope)
    ensures ListsOwn(OrdersOf(xs), b, scope)
  {
    assert forall id :: id in OrdersOf(xs) <==> id in ToSet(OrdersOf(xs));
  }

  method ExportRows(b: Books, scans: Scans, scope: Scope) returns (xs: seq<ExportRow>)
    requires AreScans(scans, b)
    ensures IsExport(xs, b, scope)
    ensures ListsOwn(OrdersOf(xs), b, scope)
  {
    var ids := SelectSold(b, scans.orders, scope);
    ids := SortByPayment(b, ids, scope);
    xs := [];
    var i := 0;
    while i < |ids|
      invariant 0 <= i <= |ids| && |xs| == i
      invariant forall k :: 0 <= k < i ==> xs[k].order == ids[k] && LineRight(xs[k], b, scope)
    {
      assert ids[i] in ToSet(ids);
      var o := b.orders[ids[i]];
      var refund := SumRefundsOf(b, scans.refunds, ids[i]);
      var amount := if o.amount.Some? then o.amount.value else 0;
      amount := ReadAmount(amount);
      refund := ReadAmount(refund);
      var external := if o.external.Some? then o.external.value else "";
      var asset := if o.asset.Some? then o.asset.value else "";
      xs := xs + [ExportRow(ids[i], external, asset, amount, o.status, o.paidAt, refund)];
      i := i + 1;
    }
    assert OrdersOf(xs) == ids;
    forall i, j | 0 <= i < j < |xs|
      ensures NotAfter(xs[i], xs[j])
    {
      assert PaidBy(b, ids[i], ids[j]);
      assert LineRight(xs[i], b, scope) && LineRight(xs[j], b, scope);
    }
    ExportIsOwn(xs, b, scope);
  }

  // ---- reconciliation ----

  /** LEFT JOIN of the selected orders with payments on the invoice hash: which have one. */
  method JoinPayments(b: Books, ids: seq<Id>, scan: seq<Id>) returns (matched: seq<bool>)
    requires ToSet(ids) <= b.orders.Keys && IsScan(scan, b.payments.Keys)
    ensures |matched| == |ids| && forall i :: 0 <= i < |ids| ==> matched[i] == HasPayment(b, ids[i])
  {
    assert forall i :: 0 <= i < |ids| ==> ids[i] in ToSet(ids);
    var left := seq(|ids|, i requires 0 <= i < |ids| && ids[i] in b.orders => b.orders[ids[i]].invoice);
    JoinDuplicatesNothing(left, scan);
    var pairs := LeftJoin(left, scan);
    matched := seq(|ids|, i requires 0 <= i < |pairs| => pairs[i].right.Some?);
    forall i | 0 <= i < |ids|
      ensures matched[i] == HasPayment(b, ids[i])
    {
      assert left[i].Some? && left[i].value in scan <==> left[i].Some? && left[i].value in ToSet(scan);
    }
  }

  /** The unmatched orders among the first i, in scan order, and their amounts' sum. */
  ghost predicate SoFar(b: Books, scope: Scope, seen: seq<Id>, unmatched: seq<Id>, discrepancy: nat) {
    && NoDuplicates(unmatched) && ToSet(unmatched) <= b.orders.Keys
    && (forall id :: id in unmatched <==> id in seen && id in Unmatched(b, scope))
    && discrepancy == Sum(Clamped(Amounts(b)), ToSet(unmatched))
  }

  lemma {:induction false} OneMoreUnmatched(b: Books, scope: Scope, seen: seq<Id>, unmatched: seq<Id>,
      discrepancy: nat, id: Id)
    requires SoFar(b, scope, seen, unmatched, discrepancy) && id in Unmatched(b, scope) && id !in seen
    ensures SoFar(b, scope, seen + [id], unmatched + [id], discrepancy + Clamped(Amounts(b))[id])
  {
    SumIn(Clamped(Amounts(b)), ToSet(unmatched), id);
    assert ToSet(unmatched + [id]) == ToSet(unmatched) + {id};
  }

  lemma {:induction false} ReconciliationDone(b: Books, scope: Scope, ids: seq<Id>, unmatched: seq<Id>,
      discrepancy: nat, matched: nat)
    requires IsScan(ids, Sold(b, scope)) && SoFar(b, scope, ids, unmatched, discrepancy)
    requires matched + |unmatched| == |ids|
    ensures IsReconciliation(Reconciliation(matched, |unmatched|, unmatched, InRange(discrepancy)), b, scope)
  {
    assert ToSet(unmatched) == Unmatched(b, scope) by {
      assert forall id :: id in Unmatched(b, scope) ==> id in ToSet(ids);
    }
    SetOfDistinct(ids);
    SetOfDistinct(unmatched);
    SizeOfRest(Sold(b, scope), Unmatched(b, scope));
  }

  /** The ids are those of the merchant's own orders paid in the period for which no payment is on record, each once. */
  ghost predicate NamesOwn(ids: seq<Id>, b: Books, scope: Scope) {
    && NoDuplicates(ids)
    && forall id :: id in ids <==>
         && id in b.orders && b.orders[id].merchant == scope.merchant
         && b.orders[id].paidAt.Some? && scope.inPeriod(b.orders[id].paidAt.value)
         && (b.orders[id].invoice.Some? ==> b.orders[id].invoice.value !in b.payments)
  }

  lemma {:induction false} ReconciliationIsOwn(r: Reconciliation, b: Books, scope: Scope)
    requires IsReconciliation(r, b, scope)
    ensures NamesOwn(r.unmatchedOrders, b, scope)
  {
    assert forall id :: id in r.unmatchedOrders <==> id in ToSet(r.unmatchedOrders);
  }

  method Reconcile(b: Books, scans: Scans, scope: Scope) returns (r: Reconciliation)
    requires AreScans(scans, b)
    ensures IsReconciliation(r, b, scope)
    ensures NamesOwn(r.unmatchedOrders, b, scope)
  {
    var ids := SelectSold(b, scans.orders, scope);
    var matched := JoinPayments(b, ids, scans.payments);
    var hits, misses, unmatched, discrepancy := 0, 0, [], 0;
    var i := 0;
    while i < |ids|
      invariant 0 <= i <= |ids| && hits + misses == i && misses == |unmatched|
      invariant SoFar(b, scope, ids[..i], unmatched, discrepancy)
    {
      assert ids[i] in ToSet(ids) && ids[i] !in ids[..i];
      assert ids[..i + 1] == ids[..i] + [ids[i]];
      if matched[i] {
        hits := hits + 1;
      } else {
        OneMoreUnmatched(b, scope, ids[..i], unmatched, discrepancy, ids[i]);
        misses := misses + 1;
        unmatched := unmatched + [ids[i]];
        var o := b.orders[ids[i]];
        var amount := ReadAmount(if o.amount.Some? then o.amount.value else 0);
        discrepancy := discrepancy + amount;
      }
      i := i + 1;
    }
    assert ids[..i] == ids;
    ReconciliationDone(b, scope, ids, unmatched, discrepancy, hits);
    r := Reconciliation(hits, misses, unmatched, InRange(discrepancy));
    ReconciliationIsOwn(r, b, scope);
  }

  // ---- recording the results ----

  function Recorded(merchant: Id, rows: seq<SettlementRow>): seq<Settled> {
    seq(|rows|, i requires 0 <= i < |rows| => Settled(merchant, rows[i]))
  }

  /** The tables settlements and reconciliation_runs. */
  class Ledger {
    var settlements: seq<Settled>
    var runs: seq<Reconciled>

    constructor ()
      ensures settlements == [] && runs == []
    {
      settlements, runs := [], [];
    }

    /**
     * The query, then one INSERT for each row, outside any transaction: `through` statements
     * succeed before the database fails, and rows inserted by then stay.
     */
    method Settlement(b: Books, scans: Scans, scope: Scope, through: nat)
      returns (r: Option<seq<SettlementRow>>, ghost rows: seq<SettlementRow>)
      requires AreScans(scans, b)
      modifies `settlements
      ensures IsSettlement(rows, b, scope) && SettlesOwn(rows, b, scope)
      ensures r == if through > |rows| then Some(rows) else None
      ensures settlements == old(settlements) +
        Recorded(scope.merchant, rows[..if through > |rows| then |rows| else Max(through - 1, 0)])
    {
      var out := SettlementRows(b, scans, scope);
      rows := out;
      if through == 0 {
        assert Recorded(scope.merchant, rows[..0]) == [];
        return None, rows;
      }
      var ok := Persist(scope.merchant, out, through - 1);
      r := if ok then Some(out) else None;
    }

    /** One INSERT for each row, the first `left` of which succeed. */
    method Persist(merchant: Id, rows: seq<SettlementRow>, left: nat) returns (ok: bool)
      modifies `settlements
      ensures ok == (left >= |rows|)
      ensures settlements == old(settlements) + Recorded(merchant, rows[..Min(left, |rows|)])
    {
      var i := 0;
      while i < |rows|
        invariant 0 <= i <= |rows| && i <= left
        invariant settlements == old(settlements) + Recorded(merchant, rows[..i])
      {
        if i == left {
          return false;
        }
        assert Recorded(merchant, rows[..i + 1]) == Recorded(merchant, rows[..i]) + [Settled(merchant, rows[i])];
        settlements := settlements + [Settled(merchant, rows[i])];
        i := i + 1;
      }
      return true;
    }

    method Reconciliation(b: Books, scans: Scans, scope: Scope, query: bool, insert: bool)
      returns (r: Option<Accounting.Reconciliation>)
      requires AreScans(scans, b)
      modifies `runs
      ensures r.Some? <==> query && insert
      ensures r.Some? ==>
        IsReconciliation(r.value, b, scope) && runs == old(runs) + [Reconciled(scope.merchant, r.value)]
      ensures r.None? ==> runs == old(runs)
    {
      var report := Reconcile(b, scans, scope);
      if !query || !insert {
        return None;
      }
      runs := runs + [Reconciled(scope.merchant, report)];
      r := Some(report);
    }
  }
}
