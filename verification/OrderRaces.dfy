/** Two runs in which a repeat CreateOrder call mints a second invoice: in a race, and without one. */
module OrderRaces {
  import opened Basics
  import opened Projection
  import opened Orders
  import opened OrderIdentity
  import opened Invoices

  const START: Shop := Shop(map[], map[], map[], [], map[], {}, multiset{})

  // ---- two CreateOrder calls for ("m", "x") ----

  function Asking(at: CreateState): Call {
    Create("m", "x", Some(7), "", at)
  }

  const PAIR: OrderKey := OrderKey("m", "x")

  const FIRST: Order := Order("m", Some("x"), Some("h0"), Some(7), Some("CKB"), Unpaid, None)

  lemma {:induction false} BothMiss() returns (run: seq<Step>)
    ensures Runs(START, run) && After(START, run) == START.(calls := [Asking(Missed), Asking(Missed)])
  {
    run := [];
    var ask := AskCreate("m", "x", Some(7), "");
    Then(START, run, ask, START.(calls := [Asking(Asked)]));
    run := run + [ask];
    Then(START, run, ask, START.(calls := [Asking(Asked), Asking(Asked)]));
    run := run + [ask];
    Then(START, run, FindExisting(0, true), START.(calls := [Asking(Missed), Asking(Asked)]));
    run := run + [FindExisting(0, true)];
    Then(START, run, FindExisting(1, true), START.(calls := [Asking(Missed), Asking(Missed)]));
    run := run + [FindExisting(1, true)];
  }

  lemma {:induction false} BothMint() returns (run: seq<Step>)
    ensures Runs(START, run)
    ensures After(START, run) == START.(calls := [Asking(Minted("h0")), Asking(Minted("h1"))],
        minted := map["h0" := PAIR, "h1" := PAIR])
  {
    run := BothMiss();
    var t := START.(calls := [Asking(Minted("h0")), Asking(Missed)], minted := map["h0" := PAIR]);
    Then(START, run, MintInvoice(0, "h0", true), t);
    run := run + [MintInvoice(0, "h0", true)];
    t := START.(calls := [Asking(Minted("h0")), Asking(Minted("h1"))], minted := map["h0" := PAIR, "h1" := PAIR]);
    assert "h1"[1] != "h0"[1];
    Then(START, run, MintInvoice(1, "h1", true), t);
    run := run + [MintInvoice(1, "h1", true)];
  }

  const BOTH_MINTED: Shop :=
    START.(calls := [Asking(Minted("h0")), Asking(Minted("h1"))], minted := map["h0" := PAIR, "h1" := PAIR])

  const ONE_WON: Shop :=
    BOTH_MINTED.(calls := [Asking(Inserted("h0", "o0")), Asking(Inserted("h1", "o1"))],
                 orders := map["o0" := FIRST], issued := {"o0", "o1"})

  const FIRST_WON: Shop :=
    BOTH_MINTED.(calls := [Asking(Inserted("h0", "o0")), Asking(Minted("h1"))],
                 orders := map["o0" := FIRST], issued := {"o0"})

  lemma {:induction false} FirstInserts() returns (run: seq<Step>)
    ensures Runs(START, run) && After(START, run) == FIRST_WON
  {
    run := BothMint();
    assert !Taken(map[], "m", "x");
    Then(START, run, InsertOrder(0, "o0", true), FIRST_WON);
    run := run + [InsertOrder(0, "o0", true)];
  }

  lemma {:induction false} SecondInserts() returns (run: seq<Step>)
    ensures Runs(START, run) && After(START, run) == ONE_WON
  {
    run := FirstInserts();
    assert "o1"[1] != "o0"[1];
    assert Claims(FIRST_WON.orders["o0"], "m", "x");
    Then(START, run, InsertOrder(1, "o1", true), ONE_WON);
    run := run + [InsertOrder(1, "o1", true)];
  }

  lemma {:induction false} LoserFindsTheWinner() returns (run: seq<Step>)
    ensures Runs(START, run)
    ensures After(START, run) ==
      ONE_WON.(calls := [Asking(Inserted("h0", "o0")), Asking(Created("o0", "h1", Some("o1")))])
  {
    run := SecondInserts();
    var look := FindWinner(1, true);
    assert Claims(ONE_WON.orders["o0"], "m", "x");
    assert Existing(ONE_WON.orders, "m", "x") == "o0";
    OnlyItsCall(ONE_WON, look);
    Then(START, run, look, ONE_WON.(calls := [Asking(Inserted("h0", "o0")), Asking(Created("o0", "h1", Some("o1")))]));
    run := run + [look];
  }

  /**
   * A repeat request can mint a second invoice, and is then handed an invoice that pays for
   * nothing: the loser of the race returns the winner's order beside its own invoice.
   */
  lemma {:induction false} LoserGetsAnOrphanInvoice() returns (s: Shop, run: seq<Step>)
    ensures Empty(s) && Runs(s, run)
    ensures var t := After(s, run);
      && Answered(t, 1) && LostTheRace(t.calls[1]) && t.calls[1].at.order == "o0"
      && t.minted.Keys == {"h0", "h1"} && t.orders.Keys == {"o0"}
      && t.calls[1].at.invoice != InvoiceOf(t.orders["o0"])
  {
    s := START;
    run := LoserFindsTheWinner();
    assert "o1"[1] != "o0"[1] && "h1"[1] != "h0"[1];
  }

  // ---- a retry, nothing else going on ----

  /**
   * No race is needed: a first call looks up, mints, and fails to insert; the retry looks up, finds
   * nothing, mints again and returns the only order. It did not lose to anybody.
   */
  lemma {:induction false} RetryMintsAgain(key: OrderKey) returns (s: Shop, run: seq<Step>)
    requires key.external != ""
    ensures Empty(s) && Runs(s, run)
    ensures var t := After(s, run);
      && |InvoicesOf(t, key)| == 2 && t.orders.Keys == {"o1"}
      && Answered(t, 1) && !LostTheRace(t.calls[1])
  {
    s := START;
    var first := FailedTry(key);
    var t := After(s, first);
    var retry, _ := OneMoreRequest(t, key);
    RunsOn(s, first, retry);
    assert "o1"[1] != "o0"[1];
    var end := Finishes(After(t, retry), 1, "o1", key);
    RunsOn(s, first + retry, end);
    run := first + retry + end;
  }

  /** Lookup, mint, and an insert that fails: an invoice and no order. */
  lemma {:induction false} FailedTry(key: OrderKey) returns (run: seq<Step>)
    requires key.external != ""
    ensures Runs(START, run)
    ensures var t := After(START, run);
      && t.orders == map[] && t.issued == {"o0"} && |t.calls| == 1 && |InvoicesOf(t, key)| == 1
  {
    assert InvoicesOf(START, key) == {} && !HasOrder(START, key);
    var first, _ := OneMoreRequest(START, key);
    var t, fails := After(START, first), InsertOrder(0, "o0", false);
    Then(START, first, fails, Apply(t, fails));
    assert InvoicesOf(Apply(t, fails), key) == InvoicesOf(t, key);
    run := first + [fails];
  }

  /** An unrivalled call inserts, looks again, and returns its own order. */
  lemma {:induction false} Finishes(s: Shop, k: nat, own: Id, key: OrderKey) returns (run: seq<Step>)
    requires CreateAt(s, k) && s.calls[k].at.Minted? && KeyOf(s.calls[k]) == key && key.external != ""
    requires s.orders == map[] && own !in s.issued
    ensures Runs(s, run) && After(s, run).orders.Keys == {own} && InvoicesOf(After(s, run), key) == InvoicesOf(s, key)
    ensures Answered(After(s, run), k) && !LostTheRace(After(s, run).calls[k])
  {
    var insert, look := InsertOrder(k, own, true), FindWinner(k, true);
    var t := Apply(s, insert);
    Then(s, [], insert, t);
    assert t.orders.Keys == {own} && Claims(t.orders[own], key.merchant, key.external);
    OnlyItsCall(t, look);
    Then(s, [] + [insert], look, Apply(t, look));
    run := [] + [insert] + [look];
    assert InvoicesOf(Apply(t, look), key) == InvoicesOf(s, key);
  }
}
