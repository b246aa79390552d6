/**
 * How many invoices a (merchant, external id) pair can get. A repeat request is meant to mint
 * none; it does when the first one minted but left no order behind, or has not inserted yet.
 */
module Invoices {
  import opened Basics
  import opened Projection
  import opened Orders
  import opened OrderLifecycle
  import opened OrderIdentity
  import opened RefundBound

  /** The invoices minted for a pair. */
  function InvoicesOf(s: Shop, key: OrderKey): set<Id> {
    set v | v in s.minted && s.minted[v] == key
  }

  ghost predicate HasOrder(s: Shop, key: OrderKey) {
    Taken(s.orders, key.merchant, key.external)
  }

  /** A call for the pair that found no order and has not minted yet. */
  predicate AboutToMint(c: Call, key: OrderKey) {
    c.Create? && c.at.Missed? && KeyOf(c) == key
  }

  ghost predicate SomeoneMints(s: Shop, key: OrderKey) {
    exists k: nat :: k < |s.calls| && AboutToMint(s.calls[k], key)
  }

  lemma {:induction false} MintAdds(s: Shop, k: nat, v: Id, key: OrderKey)
    requires k < |s.calls| && AboutToMint(s.calls[k], key) && v !in s.minted
    ensures Enabled(s, MintInvoice(k, v, true))
    ensures InvoicesOf(Apply(s, MintInvoice(k, v, true)), key) == InvoicesOf(s, key) + {v}
    ensures |InvoicesOf(Apply(s, MintInvoice(k, v, true)), key)| == |InvoicesOf(s, key)| + 1
  {
    var t := Apply(s, MintInvoice(k, v, true));
    assert InvoicesOf(t, key) == InvoicesOf(s, key) + {v};
  }

  // ---- one call: when its mint is the pair's second ----

  /** The run holds no statement of call k. */
  predicate OthersOnly(run: seq<Step>, k: nat) {
    forall i :: 0 <= i < |run| && !IsAsk(run[i]) && !FromIndexer(run[i]) ==> run[i].call != k
  }

  lemma {:induction false} OthersLeaveIt(s: Shop, run: seq<Step>, k: nat)
    requires Runs(s, run) && OthersOnly(run, k) && k < |s.calls|
    ensures k < |After(s, run).calls| && After(s, run).calls[k] == s.calls[k]
    decreases |run|
  {
    if run == [] {
    } else {
      assert Apply(s, run[0]).calls[k] == s.calls[k];
      assert forall i :: 0 <= i < |run[1..]| ==> run[1..][i] == run[i + 1];
      OthersLeaveIt(Apply(s, run[0]), run[1..], k);
    }
  }

  /** Call k can mint v next, and the pair then has two invoices or more. */
  ghost predicate MintsAgain(s: Shop, k: nat, v: Id, key: OrderKey) {
    Enabled(s, MintInvoice(k, v, true)) && |InvoicesOf(Apply(s, MintInvoice(k, v, true)), key)| >= 2
  }

  /**
   * From a call's first lookup to its mint, whatever others do in between: the call mints a second
   * (or later) invoice for its pair exactly when the lookup got through, no order held the pair
   * then, and an invoice had been minted for the pair by the time of the mint.
   */
  lemma {:induction false} MintsAgainIff(s: Shop, k: nat, works: bool, others: seq<Step>, v: Id)
    requires CreateAt(s, k) && s.calls[k].at.Asked?
    requires Runs(Apply(s, FindExisting(k, works)), others) && OthersOnly(others, k)
    requires v !in After(Apply(s, FindExisting(k, works)), others).minted
    ensures var t, key := After(Apply(s, FindExisting(k, works)), others), KeyOf(s.calls[k]);
      MintsAgain(t, k, v, key) <==> works && !HasOrder(s, key) && InvoicesOf(t, key) != {}
  {
    var looked, key := Apply(s, FindExisting(k, works)), KeyOf(s.calls[k]);
    var t := After(looked, others);
    OthersLeaveIt(looked, others, k);
    if works && !HasOrder(s, key) {
      assert AboutToMint(t.calls[k], key);
      MintAdds(t, k, v, key);
    }
  }

  // ---- every continuation: when no second one can follow ----

  /** Once an order holds the pair and nobody is about to mint for it, nobody ever will be. */
  lemma {:induction false} StaysClosed(s: Shop, step: Step, key: OrderKey)
    requires Enabled(s, step) && key.external != "" && HasOrder(s, key) && !SomeoneMints(s, key)
    ensures HasOrder(Apply(s, step), key) && !SomeoneMints(Apply(s, step), key)
    ensures InvoicesOf(Apply(s, step), key) == InvoicesOf(s, key)
  {
    StepKeeps(s, step);
    var id := Existing(s.orders, key.merchant, key.external);
    assert Claims(Apply(s, step).orders[id], key.merchant, key.external);
    NobodyStarts(s, step, key);
    if step.MintInvoice? {
      assert !AboutToMint(s.calls[step.call], key);
    }
  }

  lemma {:induction false} NobodyStarts(s: Shop, step: Step, key: OrderKey)
    requires Enabled(s, step) && key.external != "" && HasOrder(s, key) && !SomeoneMints(s, key)
    ensures !SomeoneMints(Apply(s, step), key)
  {
    var calls := CallsAfter(s, step);
    forall k: nat | k < |calls|
      ensures !AboutToMint(calls[k], key)
    {
      if k < |s.calls| { assert !AboutToMint(s.calls[k], key); }
    }
  }

  lemma {:induction false} ClosedForever(s: Shop, run: seq<Step>, key: OrderKey)
    requires Runs(s, run) && key.external != "" && HasOrder(s, key) && !SomeoneMints(s, key)
    ensures InvoicesOf(After(s, run), key) == InvoicesOf(s, key)
    decreases |run|
  {
    if run == [] {
    } else {
      StaysClosed(s, run[0], key);
      ClosedForever(Apply(s, run[0]), run[1..], key);
    }
  }

  /** While nobody holds the pair, one more request is enough for one more invoice. */
  lemma {:induction false} OneMoreRequest(s: Shop, key: OrderKey) returns (run: seq<Step>, v: Id)
    requires key.external != "" && !HasOrder(s, key)
    ensures Runs(s, run) && !HasOrder(After(s, run), key)
    ensures |InvoicesOf(After(s, run), key)| == |InvoicesOf(s, key)| + 1
    ensures After(s, run) == s.(
      calls := s.calls + [Create(key.merchant, key.external, Some(1), "", Minted(v))], minted := s.minted[v := key])
  {
    var n := |s.calls|;
    v := FreshId(s.minted.Keys);
    var ask := AskCreate(key.merchant, key.external, Some(1), "");
    var look, mint := FindExisting(n, true), MintInvoice(n, v, true);
    var a := Apply(s, ask);
    Then(s, [], ask, a);
    var b := Apply(a, look);
    Then(s, [] + [ask], look, b);
    MintAdds(b, n, v, key);
    Then(s, [] + [ask] + [look], mint, Apply(b, mint));
    assert InvoicesOf(b, key) == InvoicesOf(s, key);
    run := [] + [ask] + [look] + [mint];
  }

  /** The order that holds a pair has an invoice minted for it. */
  lemma {:induction false} HeldMeansMinted(s: Shop, key: OrderKey)
    requires Consistent(s) && key.external != "" && HasOrder(s, key)
    ensures InvoicesOf(s, key) != {}
  {
    var id := Existing(s.orders, key.merchant, key.external);
    assert RowKnown(s, id, s.orders[id]);
    assert s.orders[id].invoice.value in InvoicesOf(s, key);
  }

  /** Whatever happens from here on, the pair never has two invoices. */
  ghost predicate NeverSecond(s: Shop, key: OrderKey) {
    forall run :: Runs(s, run) ==> |InvoicesOf(After(s, run), key)| <= 1
  }

  /** Two invoices can be had while the pair is free, or while somebody past the lookup may mint. */
  lemma {:induction false} SecondIsPossible(s: Shop, key: OrderKey) returns (run: seq<Step>)
    requires Consistent(s) && key.external != "" && (!HasOrder(s, key) || SomeoneMints(s, key))
    ensures Runs(s, run) && |InvoicesOf(After(s, run), key)| >= 2
  {
    if !HasOrder(s, key) {
      var first, _ := OneMoreRequest(s, key);
      var second, _ := OneMoreRequest(After(s, first), key);
      RunsOn(s, first, second);
      run := first + second;
    } else {
      HeldMeansMinted(s, key);
      assert |InvoicesOf(s, key)| != 0;
      var k: nat :| k < |s.calls| && AboutToMint(s.calls[k], key);
      var v := FreshId(s.minted.Keys);
      MintAdds(s, k, v, key);
      OneStepRun(s, MintInvoice(k, v, true));
      run := [MintInvoice(k, v, true)];
    }
  }

  /**
   * From any reachable state: no continuation whatever gives the pair a second invoice if and only
   * if it has at most one, an order holds it, and no call for it stands between lookup and mint.
   */
  lemma {:induction false} OneInvoiceForeverIff(s: Shop, key: OrderKey)
    requires Consistent(s) && key.external != ""
    ensures NeverSecond(s, key) <==> |InvoicesOf(s, key)| <= 1 && HasOrder(s, key) && !SomeoneMints(s, key)
  {
    if HasOrder(s, key) && !SomeoneMints(s, key) {
      forall run | Runs(s, run)
        ensures InvoicesOf(After(s, run), key) == InvoicesOf(s, key)
      {
        ClosedForever(s, run, key);
      }
      assert Runs(s, []) && After(s, []) == s;
    } else {
      var run := SecondIsPossible(s, key);
      assert Runs(s, run);
    }
  }
}
