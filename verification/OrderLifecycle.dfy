/**
 * What every interleaving of order creation, invoice matching and refunds keeps of each order:
 * its identity never changes, its status only moves forward, and refunds follow payment.
 */
module OrderLifecycle {
  import opened Basics
  import opened Projection
  import opened Orders

  predicate SameOrder(a: Order, b: Order) {
    && a.merchant == b.merchant && a.external == b.external && a.invoice == b.invoice
    && a.amount == b.amount && a.asset == b.asset
  }

  predicate GetsPaid(a: Order, b: Order) {
    a.status == Unpaid && b.status == Paid && a.paidAt.None? && b.paidAt.Some?
  }

  predicate GetsRefunded(a: Order, b: Order) {
    a.status == Paid && b.status == Refunded && b.paidAt == a.paidAt
  }

  /** One step of one order: nothing, unpaid to paid, or paid to refunded. */
  predicate Moves(a: Order, b: Order) {
    SameOrder(a, b) && (a == b || GetsPaid(a, b) || GetsRefunded(a, b))
  }

  predicate WasPaid(orders: map<Id, Order>, id: Id) {
    id in orders && orders[id].paidAt.Some?
  }

  /** paid_at is set exactly on paid and refunded orders, and nothing here expires an order. */
  predicate OrderOk(o: Order) {
    o.status != Expired && (o.paidAt.Some? <==> o.status == Paid || o.status == Refunded)
  }

  predicate Refunds(refunds: map<Id, RefundRow>, r: Id, order: Id) {
    r in refunds && refunds[r].order == order
  }

  ghost predicate HasRefund(refunds: map<Id, RefundRow>, order: Id) {
    exists r :: Refunds(refunds, r, order)
  }

  predicate Past(on: RefundState) {
    on.Checked? || on.Ready? || on.Sent? || on.Recorded? || on.Settled?
  }

  /** A refund call that passed its check is about a paid order, and its row is there once recorded. */
  predicate CallOk(orders: map<Id, Order>, refunds: map<Id, RefundRow>, c: Call) {
    c.Refund? && Past(c.on) ==>
      && c.amount.Some? && WasPaid(orders, c.order)
      && (c.on.Recorded? || c.on.Settled? ==> Refunds(refunds, c.on.refund, c.order))
  }

  ghost predicate OrdersOk(orders: map<Id, Order>) {
    forall id :: id in orders ==> OrderOk(orders[id])
  }

  ghost predicate RefundsFollowPayment(s: Shop) {
    forall r :: r in s.refunds ==> WasPaid(s.orders, s.refunds[r].order)
  }

  ghost predicate RefundedHaveRows(s: Shop) {
    forall id :: id in s.orders && s.orders[id].status == Refunded ==> HasRefund(s.refunds, id)
  }

  ghost predicate CallsOk(s: Shop) {
    forall k :: 0 <= k < |s.calls| ==> CallOk(s.orders, s.refunds, s.calls[k])
  }

  ghost predicate Sound(s: Shop) {
    OrdersOk(s.orders) && RefundsFollowPayment(s) && RefundedHaveRows(s) && CallsOk(s)
  }

  ghost predicate OrdersMove(a: map<Id, Order>, b: map<Id, Order>) {
    forall id :: id in a ==> id in b && Moves(a[id], b[id])
  }

  ghost predicate RowsStay(a: map<Id, RefundRow>, b: map<Id, RefundRow>) {
    forall r :: r in a ==> r in b && b[r] == a[r]
  }

  lemma {:induction false} StillOk(s: Shop, t: Shop, c: Call)
    requires OrdersMove(s.orders, t.orders) && RowsStay(s.refunds, t.refunds)
    requires CallOk(s.orders, s.refunds, c)
    ensures CallOk(t.orders, t.refunds, c)
  {
    if c.Refund? && Past(c.on) {
      assert Moves(s.orders[c.order], t.orders[c.order]);
    }
  }

  lemma {:induction false} MatchMoves(orders: map<Id, Order>, data: InvoicePaidData)
    requires OrdersOk(orders)
    ensures OrdersMove(orders, MatchOrders(orders, data))
  {
    forall id | id in orders
      ensures Moves(orders[id], MatchOrders(orders, data)[id])
    {
      assert OrderOk(orders[id]);
    }
  }

  lemma {:induction false} MarkMoves(s: Shop, k: nat, works: bool)
    requires Sound(s) && Enabled(s, MarkRefunded(k, works))
    ensures OrdersMove(s.orders, Apply(s, MarkRefunded(k, works)).orders)
  {
    assert CallOk(s.orders, s.refunds, s.calls[k]);
    assert OrderOk(s.orders[s.calls[k].order]);
  }

  /** Which statements write orders. */
  predicate WritesOrders(step: Step) {
    step.InsertOrder? || step.MarkRefunded? || step.MatchInvoice?
  }

  lemma {:induction false} OrdersFrame(s: Shop, step: Step)
    requires Enabled(s, step) && !WritesOrders(step)
    ensures Apply(s, step).orders == s.orders
  {
  }

  lemma {:induction false} RefundsFrame(s: Shop, step: Step)
    requires Enabled(s, step)
    ensures !step.InsertRefund? ==> Apply(s, step).refunds == s.refunds
    ensures RowsStay(s.refunds, Apply(s, step).refunds)
  {
  }

  lemma {:induction false} InsertMoves(s: Shop, step: Step)
    requires step.InsertOrder? && Enabled(s, step)
    ensures OrdersMove(s.orders, Apply(s, step).orders)
  {
  }

  /** Every order moves along pending, paid, refunded in every step, and refund rows stay. */
  lemma {:induction false} StepMoves(s: Shop, step: Step)
    requires Sound(s) && Enabled(s, step)
    ensures OrdersMove(s.orders, Apply(s, step).orders)
    ensures RowsStay(s.refunds, Apply(s, step).refunds)
  {
    RefundsFrame(s, step);
    if step.MarkRefunded? {
      MarkMoves(s, step.call, step.works);
    } else if step.MatchInvoice? {
      MatchMoves(s.orders, step.data);
    } else if step.InsertOrder? {
      InsertMoves(s, step);
    } else {
      OrdersFrame(s, step);
    }
  }

  /** An order that was not there before: one InsertOrder put it, for a pair nobody held. */
  lemma {:induction false} NewRow(s: Shop, step: Step, id: Id)
    requires Enabled(s, step) && id in Apply(s, step).orders && id !in s.orders
    ensures step.InsertOrder? && step.own == id && id !in s.issued && id in Apply(s, step).issued
    ensures Apply(s, step).orders[id] == NewOrder(s.calls[step.call], s.calls[step.call].at.invoice)
    ensures var c := s.calls[step.call]; c.external != "" ==> !Taken(s.orders, c.merchant, c.external)
  {
  }

  lemma {:induction false} NewRefund(s: Shop, step: Step, r: Id)
    requires Enabled(s, step) && r in Apply(s, step).refunds && r !in s.refunds
    ensures step.InsertRefund? && r == step.refund
    ensures Apply(s, step).refunds[r].order == s.calls[step.call].order
    ensures Apply(s, step).orders == s.orders
  {
  }

  lemma {:induction false} OrdersStayOk(s: Shop, step: Step)
    requires Sound(s) && Enabled(s, step)
    ensures OrdersOk(Apply(s, step).orders)
    ensures RefundsFollowPayment(Apply(s, step))
  {
    StepMoves(s, step);
    var t := Apply(s, step);
    forall id | id in t.orders
      ensures OrderOk(t.orders[id])
    {
      if id in s.orders {
        assert OrderOk(s.orders[id]) && Moves(s.orders[id], t.orders[id]);
      } else {
        NewRow(s, step, id);
      }
    }
    forall r | r in t.refunds
      ensures WasPaid(t.orders, t.refunds[r].order)
    {
      if r in s.refunds {
        assert WasPaid(s.orders, s.refunds[r].order);
      } else {
        NewRefund(s, step, r);
        assert CallOk(s.orders, s.refunds, s.calls[step.call]);
      }
    }
  }

  /**
   * Who moves an order: only the indexer's match of its own invoice pays it, with the time the
   * event settled, and only a Refund call that recorded a row for it makes it refunded.
   */
  lemma {:induction false} WhoMovesAnOrder(s: Shop, step: Step, id: Id)
    requires Sound(s) && Enabled(s, step) && id in s.orders && id in Apply(s, step).orders
    requires Apply(s, step).orders[id] != s.orders[id]
    ensures GetsPaid(s.orders[id], Apply(s, step).orders[id]) || GetsRefunded(s.orders[id], Apply(s, step).orders[id])
    ensures GetsPaid(s.orders[id], Apply(s, step).orders[id]) <==> step.MatchInvoice?
    ensures step.MatchInvoice? ==>
      s.orders[id].invoice == Some(step.data.hash) && Apply(s, step).orders[id].paidAt == Some(step.data.settledAt)
    ensures !step.MatchInvoice? ==>
      && step.MarkRefunded? && s.calls[step.call].order == id
      && Refunds(s.refunds, s.calls[step.call].on.refund, id)
  {
    assert OrderOk(s.orders[id]);
    match step
    case MatchInvoice(_) =>
    case MarkRefunded(k, _) => assert CallOk(s.orders, s.refunds, s.calls[k]);
    case InsertOrder(_, _, _) =>
    case _ =>
  }

  lemma {:induction false} RefundedKeepRows(s: Shop, step: Step)
    requires Sound(s) && Enabled(s, step)
    ensures RefundedHaveRows(Apply(s, step))
  {
    RefundsFrame(s, step);
    var t := Apply(s, step);
    forall id | id in t.orders && t.orders[id].status == Refunded
      ensures HasRefund(t.refunds, id)
    {
      if id !in s.orders {
        NewRow(s, step, id);
      } else {
        if t.orders[id] != s.orders[id] { WhoMovesAnOrder(s, step, id); }
        var r :| Refunds(s.refunds, r, id);
        assert Refunds(t.refunds, r, id);
      }
    }
  }

  predicate Refunding(step: Step) {
    step.CheckOrder? || step.FindPayer? || step.SendRefund? || step.InsertRefund? || step.MarkRefunded?
  }

  predicate Advanced(s: Shop, t: Shop, k: nat) {
    k < |t.calls| && (k < |s.calls| ==> t.calls[k] != s.calls[k])
  }

  lemma {:induction false} OthersAreNotPast(s: Shop, step: Step, k: nat)
    requires Enabled(s, step) && !Refunding(step) && Advanced(s, Apply(s, step), k)
    ensures var c := Apply(s, step).calls[k]; c.Refund? ==> !Past(c.on)
  {
  }

  /** The one call a step advances ends up consistent with the tables it leaves. */
  lemma {:induction false} ActorOk(s: Shop, step: Step, k: nat)
    requires Sound(s) && Enabled(s, step) && Advanced(s, Apply(s, step), k)
    ensures CallOk(Apply(s, step).orders, Apply(s, step).refunds, Apply(s, step).calls[k])
  {
    if !Refunding(step) {
      OthersAreNotPast(s, step, k);
    } else {
      assert k == step.call && CallOk(s.orders, s.refunds, s.calls[k]);
      match step
      case CheckOrder(_, _) => if s.calls[k].order in s.orders { assert OrderOk(s.orders[s.calls[k].order]); }
      case FindPayer(_, _) =>
      case SendRefund(_, _) =>
      case InsertRefund(_, _, _) =>
      case MarkRefunded(_, _) => StepMoves(s, step);
    }
  }

  lemma {:induction false} StepKeepsSound(s: Shop, step: Step)
    requires Sound(s) && Enabled(s, step)
    ensures Sound(Apply(s, step))
  {
    OrdersStayOk(s, step);
    RefundedKeepRows(s, step);
    StepMoves(s, step);
    var t := Apply(s, step);
    forall k | 0 <= k < |t.calls|
      ensures CallOk(t.orders, t.refunds, t.calls[k])
    {
      if Advanced(s, t, k) {
        ActorOk(s, step, k);
      } else {
        StillOk(s, t, s.calls[k]);
      }
    }
  }

  lemma {:induction false} SoundInEveryRun(s: Shop, run: seq<Step>)
    requires Sound(s) && Runs(s, run)
    ensures Sound(After(s, run))
    decreases |run|
  {
    if run == [] {
    } else {
      StepKeepsSound(s, run[0]);
      SoundInEveryRun(Apply(s, run[0]), run[1..]);
    }
  }

  function Rank(status: OrderStatus): nat {
    match status
    case Unpaid => 0
    case Paid => 1
    case Refunded => 2
    case Expired => 3
  }

  /**
   * From any reachable state, over any further run: an order keeps its identity, never goes
   * back, and keeps its paid_at once it has one.
   */
  lemma {:induction false} OrdersOnlyMoveForward(s: Shop, run: seq<Step>, id: Id)
    requires Sound(s) && Runs(s, run) && id in s.orders
    ensures id in After(s, run).orders
    ensures SameOrder(s.orders[id], After(s, run).orders[id])
    ensures Rank(s.orders[id].status) <= Rank(After(s, run).orders[id].status) <= 2
    ensures s.orders[id].paidAt.Some? ==> After(s, run).orders[id].paidAt == s.orders[id].paidAt
    decreases |run|
  {
    assert OrderOk(s.orders[id]);
    if run == [] {
    } else {
      StepMoves(s, run[0]);
      StepKeepsSound(s, run[0]);
      assert Moves(s.orders[id], Apply(s, run[0]).orders[id]);
      OrdersOnlyMoveForward(Apply(s, run[0]), run[1..], id);
    }
  }

  /** The lifecycle over all interleavings, from the empty shop. */
  lemma {:induction false} LifecycleInEveryRun(s: Shop, run: seq<Step>)
    requires Empty(s) && Runs(s, run)
    ensures var t := After(s, run);
      && (forall id :: id in t.orders ==> OrderOk(t.orders[id]))
      && (forall r :: r in t.refunds ==> WasPaid(t.orders, t.refunds[r].order))
      && (forall id :: id in t.orders && t.orders[id].status == Refunded ==> HasRefund(t.refunds, id))
  {
    SoundInEveryRun(s, run);
  }
}
