/**
 * A merchant's month seen three ways: settlement totals per asset, reconciliation against the
 * payments projection, and the row-level export. What each query returns, and how they agree.
 */
module Accounting {
  import opened Basics
  import opened Projection
  import opened Numeric
  import opened Grouping
  import opened Books

  datatype SettlementRow = SettlementRow(asset: string, gross: nat, fees: nat, net: nat)

  datatype ExportRow = ExportRow(order: Id, external: string, asset: string, amount: nat, status: OrderStatus,
                                 paidAt: Option<Instant>, refund: nat)

  datatype Reconciliation = Reconciliation(matched: nat, unmatchedCount: nat, unmatchedOrders: seq<Id>,
                                           discrepancy: nat)

  // ---- what each result is ----

  ghost function GrossIn(b: Books, scope: Scope, asset: string): nat {
    Sum(Amounts(b), SoldIn(b, scope, asset))
  }

  ghost function FeesIn(b: Books, scope: Scope, asset: string): nat {
    Sum(RefundTotals(b), SoldIn(b, scope, asset))
  }

  ghost predicate RowRight(row: SettlementRow, b: Books, scope: Scope) {
    && row.gross == InRange(GrossIn(b, scope, row.asset))
    && row.fees == InRange(FeesIn(b, scope, row.asset))
    && row.net == (if row.fees > row.gross then 0 else row.gross - row.fees)
  }

  ghost predicate InAssetOrder(rows: seq<SettlementRow>) {
    forall i, j :: 0 <= i < j < |rows| ==> TextBefore(rows[i].asset, rows[j].asset)
  }

  ghost function AssetsOf(rows: seq<SettlementRow>): set<string> {
    set r | r in rows :: r.asset
  }

  /** One row for each asset sold in the period, in asset order. */
  ghost predicate IsSettlement(rows: seq<SettlementRow>, b: Books, scope: Scope) {
    && InAssetOrder(rows) && AssetsOf(rows) == Assets(b, scope)
    && forall i :: 0 <= i < |rows| ==> RowRight(rows[i], b, scope)
  }

  ghost predicate LineRight(x: ExportRow, b: Books, scope: Scope) {
    && x.order in Sold(b, scope)
    && x.amount == Clamped(Amounts(b))[x.order] && x.refund == Clamped(RefundTotals(b))[x.order]
    && var o := b.orders[x.order];
       && x.external == (if o.external.Some? then o.external.value else "")
       && x.asset == (if o.asset.Some? then o.asset.value else "")
       && x.status == o.status && x.paidAt == o.paidAt
  }

  function OrdersOf(xs: seq<ExportRow>): seq<Id> {
    seq(|xs|, i requires 0 <= i < |xs| => xs[i].order)
  }

  predicate NotAfter(x: ExportRow, y: ExportRow) {
    x.paidAt.Some? && y.paidAt.Some? && x.paidAt.value <= y.paidAt.value
  }

  /** One line for each order paid in the period, oldest payment first. */
  ghost predicate IsExport(xs: seq<ExportRow>, b: Books, scope: Scope) {
    && NoDuplicates(OrdersOf(xs)) && ToSet(OrdersOf(xs)) == Sold(b, scope)
    && (forall i :: 0 <= i < |xs| ==> LineRight(xs[i], b, scope))
    && forall i, j :: 0 <= i < j < |xs| ==> NotAfter(xs[i], xs[j])
  }

  ghost predicate HasPayment(b: Books, id: Id) {
    id in b.orders && b.orders[id].invoice.Some? && b.orders[id].invoice.value in b.payments
  }

  ghost function Unmatched(b: Books, scope: Scope): set<Id> {
    set id | id in Sold(b, scope) && !HasPayment(b, id)
  }

  ghost predicate IsReconciliation(r: Reconciliation, b: Books, scope: Scope) {
    && NoDuplicates(r.unmatchedOrders) && ToSet(r.unmatchedOrders) == Unmatched(b, scope)
    && r.unmatchedCount == |r.unmatchedOrders|
    && r.matched == |Sold(b, scope) - Unmatched(b, scope)|
    && r.discrepancy == InRange(Sum(Clamped(Amounts(b)), Unmatched(b, scope)))
  }

  // ---- how they agree ----

  function Plus(a: seq<nat>): nat {
    if a == [] then 0 else Plus(a[..|a| - 1]) + a[|a| - 1]
  }

  function Gross(rows: seq<SettlementRow>): seq<nat> {
    seq(|rows|, i requires 0 <= i < |rows| => rows[i].gross)
  }

  function Fees(rows: seq<SettlementRow>): seq<nat> {
    seq(|rows|, i requires 0 <= i < |rows| => rows[i].fees)
  }

  function AmountColumn(xs: seq<ExportRow>): seq<nat> {
    seq(|xs|, i requires 0 <= i < |xs| => xs[i].amount)
  }

  function RefundColumn(xs: seq<ExportRow>): seq<nat> {
    seq(|xs|, i requires 0 <= i < |xs| => xs[i].refund)
  }

  lemma {:induction false} LastLine(xs: seq<ExportRow>)
    requires NoDuplicates(OrdersOf(xs)) && xs != []
    ensures var front, x := xs[..|xs| - 1], xs[|xs| - 1];
      && NoDuplicates(OrdersOf(front)) && x.order !in ToSet(OrdersOf(front))
      && ToSet(OrdersOf(xs)) == ToSet(OrdersOf(front)) + {x.order}
  {
    var front, x := xs[..|xs| - 1], xs[|xs| - 1];
    assert OrdersOf(xs) == OrdersOf(front) + [x.order];
    assert OrdersOf(xs)[|xs| - 1] == x.order;
    assert forall i :: 0 <= i < |front| ==> OrdersOf(front)[i] == OrdersOf(xs)[i];
  }

  ghost predicate LinesRight(xs: seq<ExportRow>, b: Books, scope: Scope) {
    NoDuplicates(OrdersOf(xs)) && forall i :: 0 <= i < |xs| ==> LineRight(xs[i], b, scope)
  }

  lemma {:induction false} AmountsSum(xs: seq<ExportRow>, b: Books, scope: Scope)
    requires LinesRight(xs, b, scope)
    ensures ToSet(OrdersOf(xs)) <= b.orders.Keys
    ensures Plus(AmountColumn(xs)) == Sum(Clamped(Amounts(b)), ToSet(OrdersOf(xs)))
    decreases |xs|
  {
    if xs == [] {
    } else {
      var front, x := xs[..|xs| - 1], xs[|xs| - 1];
      LastLine(xs);
      AmountsSum(front, b, scope);
      assert LineRight(x, b, scope);
      assert AmountColumn(xs)[..|xs| - 1] == AmountColumn(front);
      SumIn(Clamped(Amounts(b)), ToSet(OrdersOf(front)), x.order);
    }
  }

  lemma {:induction false} RefundsSum(xs: seq<ExportRow>, b: Books, scope: Scope)
    requires LinesRight(xs, b, scope)
    ensures ToSet(OrdersOf(xs)) <= b.orders.Keys
    ensures Plus(RefundColumn(xs)) == Sum(Clamped(RefundTotals(b)), ToSet(OrdersOf(xs)))
    decreases |xs|
  {
    if xs == [] {
    } else {
      var front, x := xs[..|xs| - 1], xs[|xs| - 1];
      LastLine(xs);
      RefundsSum(front, b, scope);
      assert LineRight(x, b, scope);
      assert RefundColumn(xs)[..|xs| - 1] == RefundColumn(front);
      SumIn(Clamped(RefundTotals(b)), ToSet(OrdersOf(front)), x.order);
    }
  }

  // ---- a column over the groups of the period ----

  /** The orders of the period whose asset is one of the first n rows'. */
  ghost function Covered(rows: seq<SettlementRow>, n: nat, b: Books, scope: Scope): set<Id>
    requires n <= |rows|
  {
    set id | id in Sold(b, scope) && exists i :: 0 <= i < n && rows[i].asset == AssetName(b.orders[id])
  }

  lemma {:induction false} CoveredGrows(rows: seq<SettlementRow>, n: nat, b: Books, scope: Scope)
    requires n < |rows| && InAssetOrder(rows)
    ensures Covered(rows, n + 1, b, scope) == Covered(rows, n, b, scope) + SoldIn(b, scope, rows[n].asset)
    ensures Covered(rows, n, b, scope) !! SoldIn(b, scope, rows[n].asset)
  {
    NameOrder(rows[n].asset, rows[n].asset, rows[n].asset);
    forall id | id in Covered(rows, n + 1, b, scope)
      ensures id in Covered(rows, n, b, scope) + SoldIn(b, scope, rows[n].asset)
    {
      var i :| 0 <= i < n + 1 && rows[i].asset == AssetName(b.orders[id]);
    }
  }

  lemma {:induction false} AllCovered(rows: seq<SettlementRow>, b: Books, scope: Scope)
    requires AssetsOf(rows) == Assets(b, scope)
    ensures Covered(rows, |rows|, b, scope) == Sold(b, scope)
  {
    forall id | id in Sold(b, scope)
      ensures id in Covered(rows, |rows|, b, scope)
    {
      assert AssetName(b.orders[id]) in AssetsOf(rows);
    }
  }

  ghost predicate Keeps(col: Column, ids: set<Id>)
    requires ids <= col.Keys
  {
    Sum(col, ids) <= MAX_AMOUNT || Sum(Clamped(col), ids) == 0
  }

  /** Each row's orders, summed as the export shows them. */
  ghost function Shares(col: Column, rows: seq<SettlementRow>, b: Books, scope: Scope): seq<nat>
    requires col.Keys == b.orders.Keys
  {
    seq(|rows|, i requires 0 <= i < |rows| => Sum(Clamped(col), SoldIn(b, scope, rows[i].asset)))
  }

  lemma {:induction false} SharesAddUp(col: Column, rows: seq<SettlementRow>, n: nat, b: Books, scope: Scope)
    requires col.Keys == b.orders.Keys && n <= |rows| && InAssetOrder(rows)
    ensures Plus(Shares(col, rows, b, scope)[..n]) == Sum(Clamped(col), Covered(rows, n, b, scope))
    decreases n
  {
    if n == 0 {
      assert Covered(rows, 0, b, scope) == {};
    } else {
      SharesAddUp(col, rows, n - 1, b, scope);
      var shares := Shares(col, rows, b, scope);
      assert shares[..n][..n - 1] == shares[..n - 1];
      CoveredGrows(rows, n - 1, b, scope);
      SumUnion(Clamped(col), Covered(rows, n - 1, b, scope), SoldIn(b, scope, rows[n - 1].asset));
    }
  }

  lemma {:induction false} Pointwise(a: seq<nat>, b: seq<nat>)
    requires |a| == |b| && forall i :: 0 <= i < |a| ==> a[i] <= b[i]
    ensures Plus(a) <= Plus(b)
    ensures Plus(a) == Plus(b) <==> a == b
    decreases |a|
  {
    if a == [] {
    } else {
      var n := |a| - 1;
      Pointwise(a[..n], b[..n]);
      assert a == a[..n] + [a[n]] && b == b[..n] + [b[n]];
    }
  }

  /** A column of the settlement against the same column of the orders it is made of. */
  lemma {:induction false} ColumnAgainstOrders(reported: seq<nat>, col: Column, rows: seq<SettlementRow>, b: Books,
      scope: Scope)
    requires col.Keys == b.orders.Keys && IsSettlement(rows, b, scope) && |reported| == |rows|
    requires forall i :: 0 <= i < |rows| ==> reported[i] == InRange(Sum(col, SoldIn(b, scope, rows[i].asset)))
    ensures Plus(reported) <= Sum(Clamped(col), Sold(b, scope))
    ensures Plus(reported) == Sum(Clamped(col), Sold(b, scope)) <==>
      forall i :: 0 <= i < |rows| ==> Keeps(col, SoldIn(b, scope, rows[i].asset))
  {
    var shares := Shares(col, rows, b, scope);
    SharesAddUp(col, rows, |rows|, b, scope);
    assert shares[..|rows|] == shares;
    AllCovered(rows, b, scope);
    forall i | 0 <= i < |rows|
      ensures reported[i] <= shares[i]
      ensures reported[i] == shares[i] <==> Keeps(col, SoldIn(b, scope, rows[i].asset))
    {
      ClampedSum(col, SoldIn(b, scope, rows[i].asset));
    }
    Pointwise(reported, shares);
  }

  ghost predicate AmountsFit(b: Books) {
    forall id :: id in b.orders && b.orders[id].amount.Some? ==> b.orders[id].amount.value <= MAX_AMOUNT
  }

  /** Every asset's gross is itself an amount. */
  ghost predicate GrossFits(rows: seq<SettlementRow>, b: Books, scope: Scope) {
    forall i :: 0 <= i < |rows| ==> GrossIn(b, scope, rows[i].asset) <= MAX_AMOUNT
  }

  /**
   * Settlement gross against the export: with each order's amount in range, the gross column adds
   * up to the export's amounts exactly when every asset's total is in range too; never to more.
   */
  lemma {:induction false} GrossAgreesIff(rows: seq<SettlementRow>, xs: seq<ExportRow>, b: Books, scope: Scope)
    requires IsSettlement(rows, b, scope) && IsExport(xs, b, scope) && AmountsFit(b)
    ensures Plus(Gross(rows)) <= Plus(AmountColumn(xs))
    ensures Plus(Gross(rows)) == Plus(AmountColumn(xs)) <==> GrossFits(rows, b, scope)
  {
    AmountsSum(xs, b, scope);
    ColumnAgainstOrders(Gross(rows), Amounts(b), rows, b, scope);
    forall i | 0 <= i < |rows|
      ensures Keeps(Amounts(b), SoldIn(b, scope, rows[i].asset)) <==> GrossIn(b, scope, rows[i].asset) <= MAX_AMOUNT
    {
      SumSame(Amounts(b), Clamped(Amounts(b)), SoldIn(b, scope, rows[i].asset));
    }
  }

  /** No asset's refunds leave the amount range while one of its orders still shows some. */
  ghost predicate FeesFit(rows: seq<SettlementRow>, b: Books, scope: Scope) {
    forall i :: 0 <= i < |rows| ==> Keeps(RefundTotals(b), SoldIn(b, scope, rows[i].asset))
  }

  /** Settlement fees against the export's refunds, in the same way. */
  lemma {:induction false} FeesAgreeIff(rows: seq<SettlementRow>, xs: seq<ExportRow>, b: Books, scope: Scope)
    requires IsSettlement(rows, b, scope) && IsExport(xs, b, scope)
    ensures Plus(Fees(rows)) <= Plus(RefundColumn(xs))
    ensures Plus(Fees(rows)) == Plus(RefundColumn(xs)) <==> FeesFit(rows, b, scope)
  {
    RefundsSum(xs, b, scope);
    ColumnAgainstOrders(Fees(rows), RefundTotals(b), rows, b, scope);
  }

  lemma {:induction false} SizeOfRest(all: set<Id>, some: set<Id>)
    requires some <= all
    ensures |all - some| == |all| - |some|
  {
    assert all == some + (all - some);
  }

  lemma {:induction false} SumOfPart(col: Column, all: set<Id>, some: set<Id>)
    requires some <= all <= col.Keys
    ensures Sum(col, some) <= Sum(col, all)
  {
    SumUnion(col, some, all - some);
    assert some + (all - some) == all;
  }

  /** Reconciliation against the export: every line is matched or unmatched, and what is unmatched was sold. */
  lemma {:induction false} ReconciliationAgrees(r: Reconciliation, xs: seq<ExportRow>, b: Books, scope: Scope)
    requires IsReconciliation(r, b, scope) && IsExport(xs, b, scope)
    ensures r.matched + r.unmatchedCount == |xs|
    ensures r.discrepancy <= Plus(AmountColumn(xs))
    ensures r.discrepancy == Sum(Clamped(Amounts(b)), Unmatched(b, scope))
       <==> Sum(Clamped(Amounts(b)), Unmatched(b, scope)) <= MAX_AMOUNT
  {
    AmountsSum(xs, b, scope);
    SetOfDistinct(OrdersOf(xs));
    SetOfDistinct(r.unmatchedOrders);
    SizeOfRest(Sold(b, scope), Unmatched(b, scope));
    SumOfPart(Clamped(Amounts(b)), Sold(b, scope), Unmatched(b, scope));
  }

  /** Two orders of the largest amount: each is in range, their settled total reads as nothing. */
  lemma {:induction false} TotalsCanOverflow(scope: Scope) returns (b: Books)
    requires scope.inPeriod(0)
    ensures AmountsFit(b) && GrossIn(b, scope, "CKB") == 2 * MAX_AMOUNT && InRange(GrossIn(b, scope, "CKB")) == 0
  {
    var o := Order(scope.merchant, None, None, Some(MAX_AMOUNT), None, Paid, Some(0));
    b := Books(map["x" := o, "y" := o], map[], map[]);
    assert "x"[0] != "y"[0];
    assert SoldIn(b, scope, "CKB") == {"x"} + {"y"};
    SumUnion(Amounts(b), {"x"}, {"y"});
    SumIn(Amounts(b), {}, "x");
    SumIn(Amounts(b), {}, "y");
    assert {} + {"x"} == {"x"} && {} + {"y"} == {"y"};
  }
}
