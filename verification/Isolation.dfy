/** What one merchant's reports do not depend on: everybody else's orders, refunds and payments. */
module Isolation {
  import opened Basics
  import opened Projection
  import opened Numeric
  import opened Books
  import opened Accounting
  import Orders

  /** Order id is in the books and belongs to the merchant. */
  ghost predicate Owns(b: Books, merchant: Id, id: Id) {
    id in b.orders && b.orders[id].merchant == merchant
  }

  ghost predicate RefundsOwn(b: Books, merchant: Id, r: Id) {
    r in b.refunds && Owns(b, merchant, b.refunds[r].order)
  }

  /**
   * The two books agree on the merchant's orders, on their refunds, and on which of them have a
   * payment; nothing is said of anybody else's.
   */
  ghost predicate AgreeOn(b: Books, b': Books, merchant: Id) {
    && (forall id :: Owns(b, merchant, id) <==> Owns(b', merchant, id))
    && (forall id :: Owns(b, merchant, id) ==>
          b.orders[id] == b'.orders[id] && (HasPayment(b, id) <==> HasPayment(b', id)))
    && (forall r :: RefundsOwn(b, merchant, r) <==> RefundsOwn(b', merchant, r))
    && (forall r :: RefundsOwn(b, merchant, r) ==> b.refunds[r] == b'.refunds[r])
  }

  lemma {:induction false} SameSales(b: Books, b': Books, scope: Scope)
    requires AgreeOn(b, b', scope.merchant)
    ensures Sold(b, scope) == Sold(b', scope)
    ensures forall id :: id in Sold(b, scope) ==> b.orders[id] == b'.orders[id]
    ensures Unmatched(b, scope) == Unmatched(b', scope)
  {
    forall id
      ensures id in Sold(b, scope) <==> id in Sold(b', scope)
      ensures id in Sold(b, scope) ==> b.orders[id] == b'.orders[id] && HasPayment(b, id) == HasPayment(b', id)
    {
      assert Owns(b, scope.merchant, id) <==> Owns(b', scope.merchant, id);
    }
  }

  lemma {:induction false} SameRefunds(b: Books, b': Books, merchant: Id, id: Id)
    requires AgreeOn(b, b', merchant) && Owns(b, merchant, id)
    ensures RefundTotals(b)[id] == RefundTotals(b')[id]
  {
    var rows, rows' := Orders.RowsOf(b.refunds, id), Orders.RowsOf(b'.refunds, id);
    forall r
      ensures r in rows <==> r in rows'
      ensures r in rows ==> b.refunds[r] == b'.refunds[r]
    {
      assert RefundsOwn(b, merchant, r) <==> RefundsOwn(b', merchant, r);
    }
    assert rows == rows';
    SumSame(RefundAmounts(b), RefundAmounts(b'), rows);
  }

  /** Any part of the period's sales adds up to the same, as it is and as the reports clamp it. */
  lemma {:induction false} SameSums(b: Books, b': Books, scope: Scope, ids: set<Id>)
    requires AgreeOn(b, b', scope.merchant) && ids <= Sold(b, scope)
    ensures ids <= Sold(b', scope)
    ensures Sum(Amounts(b), ids) == Sum(Amounts(b'), ids)
    ensures Sum(RefundTotals(b), ids) == Sum(RefundTotals(b'), ids)
    ensures Sum(Clamped(Amounts(b)), ids) == Sum(Clamped(Amounts(b')), ids)
    ensures forall id :: id in ids ==> RefundTotals(b)[id] == RefundTotals(b')[id]
  {
    SameSales(b, b', scope);
    forall id | id in ids
      ensures RefundTotals(b)[id] == RefundTotals(b')[id]
    {
      SameRefunds(b, b', scope.merchant, id);
    }
    SumSame(Amounts(b), Amounts(b'), ids);
    SumSame(RefundTotals(b), RefundTotals(b'), ids);
    SumSame(Clamped(Amounts(b)), Clamped(Amounts(b')), ids);
  }

  lemma {:induction false} SettlementCarries(rows: seq<SettlementRow>, b: Books, b': Books, scope: Scope)
    requires AgreeOn(b, b', scope.merchant) && IsSettlement(rows, b, scope)
    ensures IsSettlement(rows, b', scope)
  {
    SameSales(b, b', scope);
    assert Assets(b, scope) == Assets(b', scope);
    forall i | 0 <= i < |rows|
      ensures RowRight(rows[i], b', scope)
    {
      assert RowRight(rows[i], b, scope);
      assert SoldIn(b, scope, rows[i].asset) == SoldIn(b', scope, rows[i].asset);
      SameSums(b, b', scope, SoldIn(b, scope, rows[i].asset));
    }
  }

  lemma {:induction false} ExportCarries(xs: seq<ExportRow>, b: Books, b': Books, scope: Scope)
    requires AgreeOn(b, b', scope.merchant) && IsExport(xs, b, scope)
    ensures IsExport(xs, b', scope)
  {
    SameSales(b, b', scope);
    SameSums(b, b', scope, Sold(b, scope));
    forall i | 0 <= i < |xs|
      ensures LineRight(xs[i], b', scope)
    {
      assert LineRight(xs[i], b, scope);
    }
  }

  lemma {:induction false} ReconciliationCarries(r: Reconciliation, b: Books, b': Books, scope: Scope)
    requires AgreeOn(b, b', scope.merchant) && IsReconciliation(r, b, scope)
    ensures IsReconciliation(r, b', scope)
  {
    SameSales(b, b', scope);
    SameSums(b, b', scope, Unmatched(b, scope));
  }

  /**
   * A merchant's three reports are the same in any two books that agree on that merchant: adding,
   * changing or removing another merchant's orders, with their refunds and payments, shows nowhere.
   */
  lemma {:induction false} OtherMerchantsDoNotMatter(rows: seq<SettlementRow>, xs: seq<ExportRow>, r: Reconciliation,
      b: Books, b': Books, scope: Scope)
    requires AgreeOn(b, b', scope.merchant)
    ensures IsSettlement(rows, b, scope) <==> IsSettlement(rows, b', scope)
    ensures IsExport(xs, b, scope) <==> IsExport(xs, b', scope)
    ensures IsReconciliation(r, b, scope) <==> IsReconciliation(r, b', scope)
  {
    assert AgreeOn(b', b, scope.merchant);
    if IsSettlement(rows, b, scope) { SettlementCarries(rows, b, b', scope); }
    if IsSettlement(rows, b', scope) { SettlementCarries(rows, b', b, scope); }
    if IsExport(xs, b, scope) { ExportCarries(xs, b, b', scope); }
    if IsExport(xs, b', scope) { ExportCarries(xs, b', b, scope); }
    if IsReconciliation(r, b, scope) { ReconciliationCarries(r, b, b', scope); }
    if IsReconciliation(r, b', scope) { ReconciliationCarries(r, b', b, scope); }
  }

  /** In particular for one order of another merchant, with any refunds of it, taken out of the books. */
  lemma {:induction false} WithoutForeignOrder(b: Books, id: Id, merchant: Id)
    requires id in b.orders && b.orders[id].merchant != merchant
    ensures AgreeOn(b, b.(orders := b.orders - {id}, refunds := b.refunds - Orders.RowsOf(b.refunds, id)), merchant)
  {
    var b' := b.(orders := b.orders - {id}, refunds := b.refunds - Orders.RowsOf(b.refunds, id));
    forall r
      ensures RefundsOwn(b, merchant, r) <==> RefundsOwn(b', merchant, r)
    {
      if RefundsOwn(b, merchant, r) {
        assert b.refunds[r].order != id && Owns(b', merchant, b.refunds[r].order);
      }
    }
  }
}
