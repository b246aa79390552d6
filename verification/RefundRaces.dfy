/** Two runs in which one order is refunded twice: overlapping calls, and a retry after a failed insert. */
module RefundRaces {
  import opened Basics
  import opened Projection
  import opened Orders
  import opened OrderLifecycle
  import opened RefundBound

  const START: Shop := Shop(map[], map[], map[], [], map[], {}, multiset{})

  const SOLD: Order := Order("m", None, Some("h"), Some(7), Some("CKB"), Paid, Some(1))

  function Selling(at: CreateState): Call {
    Create("m", "", Some(7), "", at)
  }

  function Refunding(on: RefundState): Call {
    Refund("m", "o", Some(7), "", on)
  }

  /** The order is paid, its payer is known, and two calls ask for its refund. */
  function Desk(first: RefundState, second: RefundState): Shop {
    Shop(map["o" := SOLD], map[], map["h" := Some("payer")],
         [Selling(Fallback("h", "o")), Refunding(first), Refunding(second)],
         map["h" := OrderKey("m", "")], {"o"}, multiset{})
  }

  /** A run so far, in which calls do not overlap and none fails once its row is there. */
  ghost predicate Reaches(run: seq<Step>, t: Shop) {
    Runs(START, run) && After(START, run) == t && OrderlyRun(START, run, Rows)
  }

  lemma {:induction false} OrderlyOn(s: Shop, run: seq<Step>, step: Step, m: Measure)
    requires Runs(s, run) && OrderlyRun(s, run, m) && Enabled(After(s, run), step) && Orderly(After(s, run), step, m)
    requires Runs(s, run + [step])
    ensures OrderlyRun(s, run + [step], m)
    decreases |run|
  {
    if run == [] {
      assert run + [step] == [step] && [step][1..] == [];
    } else {
      var all := run + [step];
      assert all[0] == run[0] && all[1..] == run[1..] + [step];
      OrderlyOn(Apply(s, run[0]), run[1..], step, m);
    }
  }

  lemma {:induction false} On(run: seq<Step>, s: Shop, step: Step, t: Shop) returns (more: seq<Step>)
    requires Reaches(run, s) && Enabled(s, step) && Apply(s, step) == t && Orderly(s, step, Rows)
    ensures Reaches(more, t) && more == run + [step]
  {
    Then(START, run, step, t);
    OrderlyOn(START, run, step, Rows);
    more := run + [step];
  }

  // ---- the order gets paid, and two calls ask for its refund ----

  lemma {:induction false} OrderIsSold() returns (run: seq<Step>)
    ensures Reaches(run, START.(calls := [Selling(Fallback("h", "o"))], minted := map["h" := OrderKey("m", "")],
                                issued := {"o"}, orders := map["o" := SOLD.(status := Unpaid, paidAt := None)]))
  {
    run := [];
    var t0 := START.(calls := [Selling(Missed)]);
    run := On(run, START, AskCreate("m", "", Some(7), ""), t0);
    var t1 := t0.(calls := [Selling(Minted("h"))], minted := map["h" := OrderKey("m", "")]);
    run := On(run, t0, MintInvoice(0, "h", true), t1);
    var t2 := t1.(calls := [Selling(Fallback("h", "o"))], issued := {"o"},
                  orders := map["o" := SOLD.(status := Unpaid, paidAt := None)]);
    run := On(run, t1, InsertOrder(0, "o", true), t2);
  }

  lemma {:induction false} OrderIsPaid() returns (run: seq<Step>)
    ensures Reaches(run, Desk(Requested, Requested).(calls := [Selling(Fallback("h", "o"))]))
  {
    run := OrderIsSold();
    var t0 := After(START, run);
    var t1 := t0.(orders := map["o" := SOLD]);
    run := On(run, t0, MatchInvoice(InvoicePaidData("h", "", 7, 1)), t1);
    run := On(run, t1, SeePayment("h", Some("payer")), t1.(payers := map["h" := Some("payer")]));
  }

  lemma {:induction false} TwoAsk() returns (run: seq<Step>)
    ensures Reaches(run, Desk(Requested, Requested))
  {
    run := OrderIsPaid();
    var t0, ask := After(START, run), AskRefund("m", "o", Some(7), "");
    var t1 := t0.(calls := t0.calls + [Refunding(Requested)]);
    run := On(run, t0, ask, t1);
    run := On(run, t1, ask, Desk(Requested, Requested));
  }

  const CHECKED: RefundState := Checked("CKB", "h")
  const READY: RefundState := Ready("CKB", "payer")

  lemma {:induction false} FirstChecks(second: RefundState)
    ensures Enabled(Desk(Requested, second), CheckOrder(1, true))
    ensures Apply(Desk(Requested, second), CheckOrder(1, true)) == Desk(CHECKED, second)
  {
    OnlyItsCall(Desk(Requested, second), CheckOrder(1, true));
  }

  lemma {:induction false} SecondChecks(first: RefundState)
    ensures Enabled(Desk(first, Requested), CheckOrder(2, true))
    ensures Apply(Desk(first, Requested), CheckOrder(2, true)) == Desk(first, CHECKED)
  {
    OnlyItsCall(Desk(first, Requested), CheckOrder(2, true));
  }

  // ---- overlapping calls ----

  /** Overlapping Refund calls can both pass the status test and both pay out. */
  lemma {:induction false} OverlappingRefundsPayTwice() returns (s: Shop, run: seq<Step>)
    ensures Empty(s) && Runs(s, run) && After(s, run).payouts["o"] == 2
  {
    s := START;
    run := TwoAsk();
    FirstChecks(Requested);
    SecondChecks(CHECKED);
    Then(s, run, CheckOrder(1, true), Desk(CHECKED, Requested));
    Then(s, run + [CheckOrder(1, true)], CheckOrder(2, true), Desk(CHECKED, CHECKED));
    run := run + [CheckOrder(1, true)] + [CheckOrder(2, true)];
    SoundInEveryRun(s, run);
    TwoMayPay();
    var more := PotentialIsReached(Desk(CHECKED, CHECKED), "o", Payouts);
    RunsOn(s, run, more);
    run := run + more;
  }

  lemma {:induction false} TwoMayPay()
    ensures Potential(Desk(CHECKED, CHECKED), "o", Payouts) == 2
  {
    var calls := Desk(CHECKED, CHECKED).calls;
    assert InFlight(calls[..0], "o", Payouts) == 0;
    assert InFlight(calls[..1], "o", Payouts) == 0 by { assert calls[..1][..0] == calls[..0]; }
    assert InFlight(calls[..2], "o", Payouts) == 1 by { assert calls[..2][..1] == calls[..1]; }
  }

  // ---- calls one after the other ----

  /** The first call paid and its insert failed: money gone, no row, the order still paid. */
  function Unrecorded(second: RefundState): Shop {
    Desk(RefundFailed(Unavailable), second).(payouts := multiset{"o"}, issued := {"o", "r1"})
  }

  lemma {:induction false} FirstIsReady() returns (run: seq<Step>)
    ensures Reaches(run, Desk(READY, Requested))
  {
    run := TwoAsk();
    FirstChecks(Requested);
    run := On(run, Desk(Requested, Requested), CheckOrder(1, true), Desk(CHECKED, Requested));
    OnlyItsCall(Desk(CHECKED, Requested), FindPayer(1, true));
    run := On(run, Desk(CHECKED, Requested), FindPayer(1, true), Desk(READY, Requested));
  }

  lemma {:induction false} FirstPaysAndFails() returns (run: seq<Step>)
    ensures Reaches(run, Unrecorded(Requested))
  {
    run := FirstIsReady();
    var t := Desk(Sent("CKB", "p1"), Requested).(payouts := multiset{"o"});
    run := On(run, Desk(READY, Requested), SendRefund(1, Ok("p1")), t);
    run := On(run, t, InsertRefund(1, "r1", false), Unrecorded(Requested));
  }

  lemma {:induction false} SecondPassesTheCheck() returns (run: seq<Step>)
    ensures Reaches(run, Unrecorded(CHECKED))
  {
    run := FirstPaysAndFails();
    OnlyItsCall(Unrecorded(Requested), CheckOrder(2, true));
    run := On(run, Unrecorded(Requested), CheckOrder(2, true), Unrecorded(CHECKED));
  }

  lemma {:induction false} SecondIsReady() returns (run: seq<Step>)
    ensures Reaches(run, Unrecorded(READY))
  {
    run := SecondPassesTheCheck();
    OnlyItsCall(Unrecorded(CHECKED), FindPayer(2, true));
    run := On(run, Unrecorded(CHECKED), FindPayer(2, true), Unrecorded(READY));
  }

  lemma {:induction false} SecondPaysToo() returns (run: seq<Step>)
    ensures Reaches(run, Unrecorded(Sent("CKB", "p2")).(payouts := multiset{"o", "o"}))
  {
    run := SecondIsReady();
    run := On(run, Unrecorded(READY), SendRefund(2, Ok("p2")),
              Unrecorded(Sent("CKB", "p2")).(payouts := multiset{"o", "o"}));
  }

  const ROW: RefundRow := RefundRow("o", 7, "CKB", "", "p2")

  /** The shop once the second call's row is there. */
  function OneRow(second: RefundState): Shop {
    Unrecorded(second).(payouts := multiset{"o", "o"}, issued := {"o", "r1", "r2"}, refunds := map["r2" := ROW])
  }

  lemma {:induction false} SecondRecords() returns (run: seq<Step>)
    ensures Reaches(run, OneRow(Recorded("r2")))
  {
    run := SecondPaysToo();
    assert "r2"[1] != "r1"[1] && "r2" != "o";
    run := On(run, Unrecorded(Sent("CKB", "p2")).(payouts := multiset{"o", "o"}), InsertRefund(2, "r2", true),
              OneRow(Recorded("r2")));
  }

  /**
   * Calls that never overlap can pay an order out twice: a payment whose row was not written leaves
   * the order paid. One row is there at the end, for two payments.
   */
  lemma {:induction false} FailedInsertPaysTwice() returns (s: Shop, run: seq<Step>)
    ensures Empty(s) && Runs(s, run) && OrderlyRun(s, run, Rows)
    ensures After(s, run).payouts["o"] == 2 && RowsOf(After(s, run).refunds, "o") == {"r2"}
  {
    s := START;
    run := SecondRecords();
    var t := OneRow(Settled("r2")).(orders := map["o" := SOLD.(status := Refunded)]);
    run := On(run, OneRow(Recorded("r2")), MarkRefunded(2, true), t);
    assert RowsOf(t.refunds, "o") == {"r2"};
  }
}
