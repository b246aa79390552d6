/**
 * How often one order can be refunded, in payments that leave and in rows that record them.
 * Refund reads the status, finds the payer, pays and records in separate statements, so the
 * bound is exact only when the calls past their check are counted.
 */
module RefundBound {
  import opened Basics
  import opened Projection
  import opened Orders
  import opened OrderLifecycle

  /** What is counted: payments that left, or refund rows. */
  datatype Measure = Payouts | Rows

  function Done(s: Shop, order: Id, m: Measure): nat {
    match m
    case Payouts => s.payouts[order]
    case Rows => |RowsOf(s.refunds, order)|
  }

  /** A call past its check on the order that may still pay (or record). */
  predicate Committed(c: Call, order: Id, m: Measure) {
    c.Refund? && c.order == order && (c.on.Checked? || c.on.Ready? || (m.Rows? && c.on.Sent?))
  }

  function Weight(c: Call, order: Id, m: Measure): nat {
    if Committed(c, order, m) then 1 else 0
  }

  function InFlight(calls: seq<Call>, order: Id, m: Measure): nat {
    if calls == [] then 0 else InFlight(calls[..|calls| - 1], order, m) + Weight(calls[|calls| - 1], order, m)
  }

  /** What was done for the order, plus what calls already past their check may still do. */
  function Potential(s: Shop, order: Id, m: Measure): nat {
    Done(s, order, m) + InFlight(s.calls, order, m)
  }

  predicate PassesCheck(s: Shop, step: Step, order: Id) {
    && step.CheckOrder? && step.works && RefundAt(s, step.call) && s.calls[step.call].order == order
    && RefundCheck(s.orders, s.calls[step.call]).Checked?
  }

  lemma {:induction false} InFlightSet(calls: seq<Call>, k: nat, c: Call, order: Id, m: Measure)
    requires k < |calls|
    ensures InFlight(calls[k := c], order, m) ==
      InFlight(calls, order, m) - Weight(calls[k], order, m) + Weight(c, order, m)
    decreases |calls|
  {
    var last := |calls| - 1;
    if k == last {
      assert calls[k := c][..last] == calls[..last];
    } else {
      assert calls[k := c][..last] == calls[..last][k := c];
      InFlightSet(calls[..last], k, c, order, m);
    }
  }

  lemma {:induction false} InFlightAdd(calls: seq<Call>, c: Call, order: Id, m: Measure)
    ensures InFlight(calls + [c], order, m) == InFlight(calls, order, m) + Weight(c, order, m)
  {
    assert (calls + [c])[..|calls + [c]| - 1] == calls;
  }

  // ---- what one step adds ----

  lemma {:induction false} InFlightAfter(s: Shop, step: Step, order: Id, m: Measure)
    requires Enabled(s, step)
    ensures IsAsk(step) || FromIndexer(step) ==> InFlight(CallsAfter(s, step), order, m) == InFlight(s.calls, order, m)
    ensures !IsAsk(step) && !FromIndexer(step) ==>
      && step.call < |s.calls| == |CallsAfter(s, step)|
      && InFlight(CallsAfter(s, step), order, m) ==
           InFlight(s.calls, order, m)
           - Weight(s.calls[step.call], order, m) + Weight(CallsAfter(s, step)[step.call], order, m)
  {
    if IsAsk(step) {
      InFlightAdd(s.calls, CallsAfter(s, step)[|s.calls|], order, m);
    } else if !FromIndexer(step) {
      InFlightSet(s.calls, step.call, CallsAfter(s, step)[step.call], order, m);
    }
  }

  lemma {:induction false} RowsWith(refunds: map<Id, RefundRow>, id: Id, row: RefundRow, order: Id)
    requires id !in refunds
    ensures RowsOf(refunds[id := row], order) == RowsOf(refunds, order) + if row.order == order then {id} else {}
    ensures id !in RowsOf(refunds, order)
  {
  }

  predicate Pays(s: Shop, step: Step, order: Id) {
    step.SendRefund? && step.reply.Ok? && RefundAt(s, step.call) && s.calls[step.call].order == order
  }

  predicate Inserts(s: Shop, step: Step, order: Id) {
    && step.InsertRefund? && step.works && RefundAt(s, step.call) && Recordable(s, step.call)
    && s.calls[step.call].order == order
  }

  lemma {:induction false} DoneAfter(s: Shop, step: Step, order: Id)
    requires Enabled(s, step)
    ensures Done(Apply(s, step), order, Payouts) == Done(s, order, Payouts) + if Pays(s, step, order) then 1 else 0
    ensures Done(Apply(s, step), order, Rows) == Done(s, order, Rows) + if Inserts(s, step, order) then 1 else 0
  {
    var refunds := RefundsAfter(s, step);
    if refunds != s.refunds {
      RowsWith(s.refunds, step.refund, refunds[step.refund], order);
    }
  }

  /** Only a passed check raises what an order may end up with, and by one. */
  lemma {:induction false} OnlyChecksRaise(s: Shop, step: Step, order: Id, m: Measure)
    requires Enabled(s, step)
    ensures Potential(Apply(s, step), order, m) <= Potential(s, order, m) + if PassesCheck(s, step, order) then 1 else 0
    ensures PassesCheck(s, step, order) ==> Potential(Apply(s, step), order, m) == Potential(s, order, m) + 1
  {
    InFlightAfter(s, step, order, m);
    DoneAfter(s, step, order);
  }

  ghost function PassedChecks(s: Shop, run: seq<Step>, order: Id): nat
    requires Runs(s, run)
    decreases |run|
  {
    if run == [] then 0
    else (if PassesCheck(s, run[0], order) then 1 else 0) + PassedChecks(Apply(s, run[0]), run[1..], order)
  }

  lemma {:induction false} PotentialGrowsByChecks(s: Shop, run: seq<Step>, order: Id, m: Measure)
    requires Runs(s, run)
    ensures Potential(After(s, run), order, m) <= Potential(s, order, m) + PassedChecks(s, run, order)
    decreases |run|
  {
    if run == [] {
    } else {
      OnlyChecksRaise(s, run[0], order, m);
      PotentialGrowsByChecks(Apply(s, run[0]), run[1..], order, m);
    }
  }

  // ---- rows never outnumber payments ----

  /** Each row, and each call that still owes one, stands for a payment. */
  ghost predicate RowsArePaid(s: Shop, order: Id) {
    Potential(s, order, Rows) <= Potential(s, order, Payouts)
  }

  lemma {:induction false} FewerMayPay(calls: seq<Call>, order: Id)
    ensures InFlight(calls, order, Payouts) <= InFlight(calls, order, Rows)
    decreases |calls|
  {
    if calls != [] {
      FewerMayPay(calls[..|calls| - 1], order);
    }
  }

  lemma {:induction false} StepKeepsRowsPaid(s: Shop, step: Step, order: Id)
    requires Enabled(s, step) && RowsArePaid(s, order)
    ensures RowsArePaid(Apply(s, step), order)
  {
    InFlightAfter(s, step, order, Rows);
    InFlightAfter(s, step, order, Payouts);
    DoneAfter(s, step, order);
  }

  lemma {:induction false} RowsStayPaid(s: Shop, run: seq<Step>, order: Id)
    requires Runs(s, run) && RowsArePaid(s, order)
    ensures RowsArePaid(After(s, run), order)
    decreases |run|
  {
    if run == [] {
    } else {
      StepKeepsRowsPaid(s, run[0], order);
      RowsStayPaid(Apply(s, run[0]), run[1..], order);
    }
  }

  /** In every run from the empty shop an order has at most as many refund rows as payments that left. */
  lemma {:induction false} RowsNeverOutnumberPayouts(s: Shop, run: seq<Step>, order: Id)
    requires Empty(s) && Runs(s, run)
    ensures |RowsOf(After(s, run).refunds, order)| <= After(s, run).payouts[order]
  {
    assert RowsOf(s.refunds, order) == {};
    RowsStayPaid(s, run, order);
    FewerMayPay(After(s, run).calls, order);
  }

  // ---- the bound is reached ----

  lemma {:induction false} LengthsAreBounded(ids: set<Id>) returns (n: nat)
    ensures forall id :: id in ids ==> |id| <= n
    decreases |ids|
  {
    if ids == {} {
      n := 0;
    } else {
      var x :| x in ids;
      var m := LengthsAreBounded(ids - {x});
      n := Max(m, |x|);
    }
  }

  lemma {:induction false} FreshId(ids: set<Id>) returns (id: Id)
    ensures id !in ids
  {
    var n := LengthsAreBounded(ids);
    id := seq(n + 1, _ => '0');
  }

  lemma {:induction false} SomeCommitted(calls: seq<Call>, order: Id, m: Measure) returns (k: nat)
    requires InFlight(calls, order, m) > 0
    ensures k < |calls| && Committed(calls[k], order, m)
    decreases |calls|
  {
    if Committed(calls[|calls| - 1], order, m) {
      k := |calls| - 1;
    } else {
      k := SomeCommitted(calls[..|calls| - 1], order, m);
    }
  }

  /** How many more steps a committed call needs. */
  function Distance(s: Shop, k: nat): nat {
    if !RefundAt(s, k) then 0
    else if s.calls[k].on.Checked? then
      if PayerLookup(s.payers, s.calls[k].on.asset, s.calls[k].on.invoice).Ready? then 3 else 4
    else if s.calls[k].on.Ready? then 2
    else 1
  }

  /** The next step of a committed call, all going well; a missing payer is seen first. */
  function NextStep(s: Shop, k: nat, unused: Id): Step
    requires RefundAt(s, k)
  {
    if s.calls[k].on.Checked? then
      if Distance(s, k) == 4 then SeePayment(s.calls[k].on.invoice, Some("payer")) else FindPayer(k, true)
    else if s.calls[k].on.Ready? then SendRefund(k, Ok(""))
    else InsertRefund(k, unused, true)
  }

  /** It brings the call nearer, or does what the call was committed to. */
  lemma {:induction false} NextStepLeadsOn(s: Shop, k: nat, unused: Id, order: Id, m: Measure)
    requires Sound(s) && k < |s.calls| && Committed(s.calls[k], order, m)
    requires unused !in s.refunds && unused !in s.issued
    ensures Enabled(s, NextStep(s, k, unused)) && !PassesCheck(s, NextStep(s, k, unused), order)
    ensures var t := Apply(s, NextStep(s, k, unused));
      && k < |t.calls| && Potential(t, order, m) == Potential(s, order, m)
      && ((Committed(t.calls[k], order, m) && Distance(t, k) < Distance(s, k))
          || InFlight(t.calls, order, m) < InFlight(s.calls, order, m))
  {
    var step := NextStep(s, k, unused);
    assert CallOk(s.orders, s.refunds, s.calls[k]);
    InFlightAfter(s, step, order, m);
    DoneAfter(s, step, order);
  }

  /** Every call already past its check can still act: the bound is reached without another check. */
  lemma {:induction false} ReachedFrom(s: Shop, order: Id, m: Measure, k: nat) returns (run: seq<Step>)
    requires Sound(s) && k < |s.calls| && (InFlight(s.calls, order, m) > 0 ==> Committed(s.calls[k], order, m))
    ensures Runs(s, run) && PassedChecks(s, run, order) == 0
    ensures Done(After(s, run), order, m) == Potential(s, order, m)
    decreases InFlight(s.calls, order, m), Distance(s, k)
  {
    if InFlight(s.calls, order, m) == 0 {
      run := [];
    } else {
      var unused := FreshId(s.refunds.Keys + s.issued);
      var step := NextStep(s, k, unused);
      NextStepLeadsOn(s, k, unused, order, m);
      StepKeepsSound(s, step);
      var t := Apply(s, step);
      var next := k;
      if InFlight(t.calls, order, m) > 0 && !Committed(t.calls[k], order, m) {
        next := SomeCommitted(t.calls, order, m);
      }
      var rest := ReachedFrom(t, order, m, next);
      run := [step] + rest;
      assert run[1..] == rest;
    }
  }

  lemma {:induction false} PotentialIsReached(s: Shop, order: Id, m: Measure) returns (run: seq<Step>)
    requires Sound(s)
    ensures Runs(s, run) && PassedChecks(s, run, order) == 0
    ensures Done(After(s, run), order, m) == Potential(s, order, m)
  {
    if InFlight(s.calls, order, m) == 0 {
      run := [];
    } else {
      var k := SomeCommitted(s.calls, order, m);
      run := ReachedFrom(s, order, m, k);
    }
  }

  /** No continuation takes the order past n, as long as no further call passes its check on it. */
  ghost predicate NeverMoreThan(s: Shop, order: Id, n: nat, m: Measure) {
    forall run :: Runs(s, run) && PassedChecks(s, run, order) == 0 ==> Done(After(s, run), order, m) <= n
  }

  /**
   * From any reachable state, with no further check passed, an order stays within n payments (or
   * rows) in every continuation if and only if those there are and the calls that may still add
   * one are at most n together.
   */
  lemma {:induction false} BoundedIff(s: Shop, order: Id, n: nat, m: Measure)
    requires Sound(s)
    ensures NeverMoreThan(s, order, n, m) <==> Potential(s, order, m) <= n
  {
    if Potential(s, order, m) <= n {
      forall run | Runs(s, run) && PassedChecks(s, run, order) == 0
        ensures Done(After(s, run), order, m) <= n
      {
        PotentialGrowsByChecks(s, run, order, m);
      }
    } else {
      var run := PotentialIsReached(s, order, m);
      assert Runs(s, run) && PassedChecks(s, run, order) == 0;
    }
  }

  /** No call for the order stands between its check and the measured statement. */
  ghost predicate NoneCommitted(s: Shop, order: Id, m: Measure) {
    forall k :: 0 <= k < |s.calls| ==> !Committed(s.calls[k], order, m)
  }

  lemma {:induction false} NoneInFlight(calls: seq<Call>, order: Id, m: Measure)
    ensures InFlight(calls, order, m) == 0 <==> forall k :: 0 <= k < |calls| ==> !Committed(calls[k], order, m)
    decreases |calls|
  {
    if calls != [] {
      var front, last := calls[..|calls| - 1], calls[|calls| - 1];
      NoneInFlight(front, order, m);
      assert calls == front + [last];
    }
  }

  /**
   * When letting one more Refund call past its check keeps the order at one payment (or row):
   * exactly when none was ever made for it and no other call is past its check without having
   * made one. The status test alone is not that condition.
   */
  lemma {:induction false} CheckIsSafeIff(s: Shop, step: Step, order: Id, m: Measure)
    requires Sound(s) && Enabled(s, step) && PassesCheck(s, step, order)
    ensures NeverMoreThan(Apply(s, step), order, 1, m) <==> Done(s, order, m) == 0 && NoneCommitted(s, order, m)
  {
    StepKeepsSound(s, step);
    OnlyChecksRaise(s, step, order, m);
    BoundedIff(Apply(s, step), order, 1, m);
    NoneInFlight(s.calls, order, m);
  }

  // ---- calls that do not overlap ----

  predicate Busy(c: Call, order: Id) {
    c.Refund? && c.order == order && (c.on.Checked? || c.on.Ready? || c.on.Sent? || c.on.Recorded?)
  }

  /**
   * A check is made only while no other call for the order is at work, and no call fails after
   * the statement that is counted.
   */
  predicate Orderly(s: Shop, step: Step, m: Measure) {
    && (step.CheckOrder? && RefundAt(s, step.call) ==>
          forall j :: 0 <= j < |s.calls| && j != step.call ==> !Busy(s.calls[j], s.calls[step.call].order))
    && (step.MarkRefunded? ==> step.works)
    && (step.InsertRefund? && m.Payouts? ==> step.works)
  }

  ghost predicate OrderlyRun(s: Shop, run: seq<Step>, m: Measure)
    requires Runs(s, run)
    decreases |run|
  {
    run != [] ==> Orderly(s, run[0], m) && OrderlyRun(Apply(s, run[0]), run[1..], m)
  }

  /** A call that has done what is counted and is on its way to mark the order. */
  predicate Finishing(c: Call, order: Id, m: Measure) {
    c.Refund? && c.order == order && (c.on.Recorded? || (m.Payouts? && c.on.Sent?))
  }

  ghost predicate BeingMarked(s: Shop, order: Id, m: Measure) {
    exists k :: 0 <= k < |s.calls| && Finishing(s.calls[k], order, m)
  }

  predicate IsRefunded(s: Shop, order: Id) {
    order in s.orders && s.orders[order].status == Refunded
  }

  /** At most one, and once it is there the order is refunded or about to be. */
  ghost predicate Once(s: Shop, order: Id, m: Measure) {
    && Potential(s, order, m) <= 1
    && (Done(s, order, m) > 0 ==> IsRefunded(s, order) || BeingMarked(s, order, m))
  }

  lemma {:induction false} OrderlyPotential(s: Shop, step: Step, order: Id, m: Measure)
    requires Sound(s) && Once(s, order, m) && Enabled(s, step) && Orderly(s, step, m)
    ensures Potential(Apply(s, step), order, m) <= 1
  {
    OnlyChecksRaise(s, step, order, m);
    if PassesCheck(s, step, order) {
      assert forall k :: 0 <= k < |s.calls| ==> !Busy(s.calls[k], order);
      assert forall k :: 0 <= k < |s.calls| && Finishing(s.calls[k], order, m) ==> Busy(s.calls[k], order);
      NoneInFlight(s.calls, order, m);
    }
  }

  lemma {:induction false} MarkingGoesOn(s: Shop, step: Step, k: nat, order: Id, m: Measure)
    requires Sound(s) && Enabled(s, step) && Orderly(s, step, m)
    requires k < |s.calls| && Finishing(s.calls[k], order, m)
    ensures k < |Apply(s, step).calls|
    ensures Finishing(Apply(s, step).calls[k], order, m) || IsRefunded(Apply(s, step), order)
  {
    assert CallOk(s.orders, s.refunds, s.calls[k]);
    if !IsAsk(step) && !FromIndexer(step) && step.call == k {
      assert step.InsertRefund? || step.MarkRefunded?;
    } else {
      assert Apply(s, step).calls[k] == s.calls[k];
    }
  }

  lemma {:induction false} MarkedOrMarking(s: Shop, step: Step, order: Id, m: Measure)
    requires Sound(s) && Once(s, order, m) && Enabled(s, step) && Orderly(s, step, m)
    requires Done(Apply(s, step), order, m) > 0
    ensures IsRefunded(Apply(s, step), order) || BeingMarked(Apply(s, step), order, m)
  {
    var t := Apply(s, step);
    if IsRefunded(s, order) {
      StepMoves(s, step);
      assert Moves(s.orders[order], t.orders[order]);
    } else if BeingMarked(s, order, m) {
      var k :| 0 <= k < |s.calls| && Finishing(s.calls[k], order, m);
      MarkingGoesOn(s, step, k, order, m);
    } else {
      DoneAfter(s, step, order);
      assert Finishing(t.calls[step.call], order, m);
    }
  }

  lemma {:induction false} OnceInEveryRun(s: Shop, run: seq<Step>, order: Id, m: Measure)
    requires Sound(s) && Once(s, order, m) && Runs(s, run) && OrderlyRun(s, run, m)
    ensures Once(After(s, run), order, m)
    decreases |run|
  {
    if run == [] {
    } else {
      OrderlyPotential(s, run[0], order, m);
      if Done(Apply(s, run[0]), order, m) > 0 {
        MarkedOrMarking(s, run[0], order, m);
      }
      StepKeepsSound(s, run[0]);
      OnceInEveryRun(Apply(s, run[0]), run[1..], order, m);
    }
  }

  /**
   * Refund calls that do not overlap on an order, and do not fail once they have paid, refund it
   * at most once; if they do not fail once they have recorded, they record at most one row.
   */
  lemma {:induction false} OneRefundPerOrder(s: Shop, run: seq<Step>, order: Id, m: Measure)
    requires Empty(s) && Runs(s, run) && OrderlyRun(s, run, m)
    ensures Done(After(s, run), order, m) <= 1
  {
    assert RowsOf(s.refunds, order) == {};
    OnceInEveryRun(s, run, order, m);
  }
}
