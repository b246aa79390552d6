/**
 * Idempotent order creation under races: however many CreateOrder calls for one merchant and
 * external id overlap, fail half way or are retried, there is one order for the pair and every
 * call that succeeds returns it. The invoice a call returns is that order's exactly when the
 * call did not lose the insert.
 */
module OrderIdentity {
  import opened Basics
  import opened Projection
  import opened Orders
  import opened OrderLifecycle

  /** The invoice a call minted itself, once it has. */
  function Held(c: Call): Option<Id> {
    if c.Refund? then None else
      match c.at
      case Minted(v) => Some(v)
      case Inserted(v, _) => Some(v)
      case Fallback(v, _) => Some(v)
      case Created(_, v, via) => if via.Some? then Some(v) else None
      case _ => None
  }

  /** The row id a call tried to insert under, once it has. */
  function Own(c: Call): Option<Id> {
    if c.Refund? then None else
      match c.at
      case Inserted(_, own) => Some(own)
      case Fallback(_, own) => Some(own)
      case Created(_, _, via) => via
      case _ => None
  }

  predicate Serves(o: Order, c: Call) {
    c.Create? && o.merchant == c.merchant && o.external == ExternalOf(c.external)
  }

  /** A call's own row, if it made it into the table, is the one the call asked for. */
  predicate OwnRowOk(s: Shop, c: Call) {
    Own(c).Some? ==>
      && Own(c).value in s.issued
      && (Own(c).value in s.orders ==> Serves(s.orders[Own(c).value], c) && s.orders[Own(c).value].invoice == Held(c))
  }

  /** The invoice a call minted is known, and no order but the call's own carries it. */
  ghost predicate HeldOk(s: Shop, c: Call) {
    Held(c).Some? ==>
      && c.Create? && Held(c).value in s.minted && s.minted[Held(c).value] == KeyOf(c)
      && forall id :: id in s.orders && s.orders[id].invoice == Held(c) ==> Own(c) == Some(id)
  }

  predicate AnswerOk(s: Shop, c: Call) {
    c.Create? && c.at.Created? ==>
      && c.at.order in s.orders && Serves(s.orders[c.at.order], c)
      && (c.at.via.None? ==> c.at.invoice == InvoiceOf(s.orders[c.at.order]))
      && (c.at.via.None? || c.at.via != Some(c.at.order) ==> c.external != "")
  }

  /** Calls past the first lookup or racing for a pair do have an external id. */
  predicate NamedOk(c: Call) {
    c.Create? && (c.at.Asked? || c.at.Inserted?) ==> c.external != ""
  }

  ghost predicate CreateOk(s: Shop, c: Call) {
    OwnRowOk(s, c) && HeldOk(s, c) && AnswerOk(s, c) && NamedOk(c)
  }

  /** A row's id was generated for it, and its invoice was minted for the pair it holds. */
  predicate RowKnown(s: Shop, id: Id, o: Order) {
    && id in s.issued && o.invoice.Some? && o.invoice.value in s.minted
    && (o.external.Some? ==> s.minted[o.invoice.value] == OrderKey(o.merchant, o.external.value))
  }

  ghost predicate RowsKnown(s: Shop) {
    forall id :: id in s.orders ==> RowKnown(s, id, s.orders[id])
  }

  predicate Apart(a: Call, b: Call) {
    Held(a).Some? ==> Held(a) != Held(b)
  }

  ghost predicate HeldApart(s: Shop) {
    forall i, j :: 0 <= i < |s.calls| && 0 <= j < |s.calls| && i != j ==> Apart(s.calls[i], s.calls[j])
  }

  ghost predicate CallsFine(s: Shop) {
    forall k :: 0 <= k < |s.calls| ==> CreateOk(s, s.calls[k])
  }

  ghost predicate Consistent(s: Shop) {
    UniqueExternal(s.orders) && RowsKnown(s) && HeldApart(s) && CallsFine(s)
  }

  ghost predicate Keeps(s: Shop, t: Shop) {
    && s.issued <= t.issued
    && (forall v :: v in s.minted ==> v in t.minted && t.minted[v] == s.minted[v])
    && forall id :: id in s.orders ==> id in t.orders && SameOrder(s.orders[id], t.orders[id])
  }

  lemma {:induction false} StepKeeps(s: Shop, step: Step)
    requires Enabled(s, step)
    ensures Keeps(s, Apply(s, step))
  {
  }

  lemma {:induction false} StaysUnique(s: Shop, step: Step)
    requires Consistent(s) && Enabled(s, step)
    ensures UniqueExternal(Apply(s, step).orders)
  {
    StepKeeps(s, step);
    var t := Apply(s, step).orders;
    forall a, b, merchant, external
      | a in t && b in t && Claims(t[a], merchant, external) && Claims(t[b], merchant, external)
      ensures a == b
    {
      if a !in s.orders { NewRow(s, step, a); }
      if b !in s.orders { NewRow(s, step, b); }
      if a in s.orders { assert Claims(s.orders[a], merchant, external); }
      if b in s.orders { assert Claims(s.orders[b], merchant, external); }
    }
  }

  lemma {:induction false} RowsStayKnown(s: Shop, step: Step)
    requires Consistent(s) && Enabled(s, step)
    ensures RowsKnown(Apply(s, step))
  {
    StepKeeps(s, step);
    var t := Apply(s, step);
    forall id | id in t.orders
      ensures RowKnown(t, id, t.orders[id])
    {
      if id in s.orders {
        assert RowKnown(s, id, s.orders[id]) && SameOrder(s.orders[id], t.orders[id]);
      } else {
        NewRow(s, step, id);
        assert CreateOk(s, s.calls[step.call]);
      }
    }
  }

  /** At most one call changes in a step, and what it holds was its own or is freshly minted. */
  lemma {:induction false} WhatItHolds(s: Shop, step: Step, k: nat)
    requires Enabled(s, step) && Advanced(s, Apply(s, step), k)
    ensures forall j :: 0 <= j < |s.calls| && j != k ==> Apply(s, step).calls[j] == s.calls[j]
    ensures |s.calls| <= |Apply(s, step).calls| <= |s.calls| + 1
    ensures |Apply(s, step).calls| > |s.calls| ==> k == |s.calls|
    ensures var c := Apply(s, step).calls[k];
      Held(c).Some? ==> (k < |s.calls| && Held(c) == Held(s.calls[k])) || Held(c).value !in s.minted
  {
  }

  lemma {:induction false} StayApart(s: Shop, step: Step)
    requires Consistent(s) && Enabled(s, step)
    ensures HeldApart(Apply(s, step))
  {
    var t := Apply(s, step);
    forall i, j | 0 <= i < |t.calls| && 0 <= j < |t.calls| && i != j
      ensures Apart(t.calls[i], t.calls[j])
    {
      if Advanced(s, t, i) {
        WhatItHolds(s, step, i);
        assert CreateOk(s, s.calls[j]);
        if i < |s.calls| { assert Apart(s.calls[i], s.calls[j]); }
      } else if Advanced(s, t, j) {
        WhatItHolds(s, step, j);
        assert CreateOk(s, s.calls[i]);
        if j < |s.calls| { assert Apart(s.calls[i], s.calls[j]); }
      } else {
        assert Apart(s.calls[i], s.calls[j]);
      }
    }
  }

  /** A call that did not act stays consistent: the new row, if any, is not its own. */
  lemma {:induction false} BystanderOk(s: Shop, step: Step, k: nat)
    requires Consistent(s) && Enabled(s, step)
    requires k < |s.calls| && k < |Apply(s, step).calls| && Apply(s, step).calls[k] == s.calls[k]
    ensures CreateOk(Apply(s, step), s.calls[k])
  {
    var c := s.calls[k];
    assert CreateOk(s, c);
    BystanderHolds(s, step, k);
    BystanderOwns(s, step, c);
    StepKeeps(s, step);
    if c.Create? && c.at.Created? {
      assert SameOrder(s.orders[c.at.order], Apply(s, step).orders[c.at.order]);
    }
  }

  lemma {:induction false} BystanderHolds(s: Shop, step: Step, k: nat)
    requires Consistent(s) && Enabled(s, step)
    requires k < |s.calls| && k < |Apply(s, step).calls| && Apply(s, step).calls[k] == s.calls[k]
    ensures HeldOk(Apply(s, step), s.calls[k])
  {
    StepKeeps(s, step);
    var t, c := Apply(s, step), s.calls[k];
    assert CreateOk(s, c);
    if step.InsertOrder? && step.call != k { assert Apart(c, s.calls[step.call]); }
    forall id | Held(c).Some? && id in t.orders && t.orders[id].invoice == Held(c)
      ensures Own(c) == Some(id)
    {
      if id !in s.orders { NewRow(s, step, id); }
    }
  }

  lemma {:induction false} BystanderOwns(s: Shop, step: Step, c: Call)
    requires Enabled(s, step) && OwnRowOk(s, c)
    ensures OwnRowOk(Apply(s, step), c)
  {
    StepKeeps(s, step);
    if Own(c).Some? && Own(c).value in Apply(s, step).orders {
      var own := Own(c).value;
      if own !in s.orders { NewRow(s, step, own); }
      assert SameOrder(s.orders[own], Apply(s, step).orders[own]);
    }
  }

  predicate SameRequest(c: Call, d: Call) {
    c.Create? && d.Create? && c.merchant == d.merchant && c.external == d.external && c.amount == d.amount
  }

  lemma {:induction false} WhatItOwns(s: Shop, step: Step, k: nat)
    requires Enabled(s, step) && Advanced(s, Apply(s, step), k) && Own(Apply(s, step).calls[k]).Some?
    ensures k < |s.calls| && SameRequest(Apply(s, step).calls[k], s.calls[k])
    ensures Held(Apply(s, step).calls[k]) == Held(s.calls[k])
    ensures step.InsertOrder? ==> Own(Apply(s, step).calls[k]) == Some(step.own) && step.call == k
    ensures !step.InsertOrder? ==> Own(Apply(s, step).calls[k]) == Own(s.calls[k])
  {
    match step
    case FindExisting(_, _) =>
    case MintInvoice(_, _, _) =>
    case InsertOrder(_, _, _) =>
    case FindWinner(_, _) =>
    case GetOwn(_, _) =>
    case _ =>
  }

  lemma {:induction false} OwnRowFollows(s: Shop, step: Step, k: nat)
    requires Consistent(s) && Enabled(s, step) && Advanced(s, Apply(s, step), k)
    ensures OwnRowOk(Apply(s, step), Apply(s, step).calls[k])
  {
    var t := Apply(s, step);
    if Own(t.calls[k]).Some? {
      WhatItOwns(s, step, k);
      StepKeeps(s, step);
      assert CreateOk(s, s.calls[k]);
      var own := Own(t.calls[k]).value;
      if step.InsertOrder? {
        if own in t.orders { NewRow(s, step, own); }
      } else if own in t.orders {
        if own !in s.orders { NewRow(s, step, own); }
        assert SameOrder(s.orders[own], t.orders[own]);
      }
    }
  }

  lemma {:induction false} NamedFollows(s: Shop, step: Step, k: nat)
    requires Consistent(s) && Enabled(s, step) && Advanced(s, Apply(s, step), k)
    ensures NamedOk(Apply(s, step).calls[k])
  {
    match step
    case FindExisting(_, _) =>
    case MintInvoice(_, _, _) =>
    case InsertOrder(_, _, _) =>
    case FindWinner(_, _) =>
    case GetOwn(_, _) =>
    case _ =>
  }

  lemma {:induction false} OwnIsKept(s: Shop, step: Step, k: nat)
    requires Enabled(s, step) && Advanced(s, Apply(s, step), k) && k < |s.calls|
    requires Own(s.calls[k]).Some? && Held(Apply(s, step).calls[k]).Some?
    ensures Own(Apply(s, step).calls[k]) == Own(s.calls[k])
  {
    match step
    case FindExisting(_, _) =>
    case MintInvoice(_, _, _) =>
    case InsertOrder(_, _, _) =>
    case FindWinner(_, _) =>
    case GetOwn(_, _) =>
    case _ =>
  }

  lemma {:induction false} HeldIsMinted(s: Shop, step: Step, k: nat)
    requires Consistent(s) && Enabled(s, step) && Advanced(s, Apply(s, step), k)
    requires Held(Apply(s, step).calls[k]).Some?
    ensures Apply(s, step).calls[k].Create? && Held(Apply(s, step).calls[k]).value in Apply(s, step).minted
    ensures Apply(s, step).minted[Held(Apply(s, step).calls[k]).value] == KeyOf(Apply(s, step).calls[k])
  {
    if k < |s.calls| { assert CreateOk(s, s.calls[k]); }
    match step
    case FindExisting(_, _) =>
    case MintInvoice(_, _, _) =>
    case InsertOrder(_, _, _) =>
    case FindWinner(_, _) =>
    case GetOwn(_, _) =>
    case _ =>
  }

  lemma {:induction false} HeldFollows(s: Shop, step: Step, k: nat)
    requires Consistent(s) && Enabled(s, step) && Advanced(s, Apply(s, step), k)
    ensures HeldOk(Apply(s, step), Apply(s, step).calls[k])
  {
    var t := Apply(s, step);
    var c := t.calls[k];
    if Held(c).Some? {
      HeldIsMinted(s, step, k);
      StepKeeps(s, step);
      WhatItHolds(s, step, k);
      forall id | id in t.orders && t.orders[id].invoice == Held(c)
        ensures Own(c) == Some(id)
      {
        if id !in s.orders {
          NewRow(s, step, id);
        } else {
          assert SameOrder(s.orders[id], t.orders[id]);
          assert CreateOk(s, s.calls[k]);
          OwnIsKept(s, step, k);
        }
      }
    }
  }

  lemma {:induction false} AnswerFollows(s: Shop, step: Step, k: nat)
    requires Consistent(s) && Enabled(s, step) && Advanced(s, Apply(s, step), k)
    ensures AnswerOk(Apply(s, step), Apply(s, step).calls[k])
  {
    if k < |s.calls| {
      assert CreateOk(s, s.calls[k]);
    }
  }

  lemma {:induction false} StepKeepsConsistent(s: Shop, step: Step)
    requires Consistent(s) && Enabled(s, step)
    ensures Consistent(Apply(s, step))
  {
    StaysUnique(s, step);
    RowsStayKnown(s, step);
    StayApart(s, step);
    var t := Apply(s, step);
    forall k | 0 <= k < |t.calls|
      ensures CreateOk(t, t.calls[k])
    {
      if Advanced(s, t, k) {
        OwnRowFollows(s, step, k);
        NamedFollows(s, step, k);
        HeldFollows(s, step, k);
        AnswerFollows(s, step, k);
      } else {
        BystanderOk(s, step, k);
      }
    }
  }

  lemma {:induction false} ConsistentInEveryRun(s: Shop, run: seq<Step>)
    requires Consistent(s) && Runs(s, run)
    ensures Consistent(After(s, run))
    decreases |run|
  {
    if run == [] {
    } else {
      StepKeepsConsistent(s, run[0]);
      ConsistentInEveryRun(Apply(s, run[0]), run[1..]);
    }
  }

  predicate Answered(s: Shop, k: nat) {
    CreateAt(s, k) && s.calls[k].at.Created?
  }

  /** An answer, once given, is final. */
  lemma {:induction false} AnswersAreFinal(s: Shop, run: seq<Step>, k: nat)
    requires Runs(s, run) && Answered(s, k)
    ensures Answered(After(s, run), k) && After(s, run).calls[k] == s.calls[k]
    decreases |run|
  {
    if run == [] {
    } else {
      assert Apply(s, run[0]).calls[k] == s.calls[k];
      AnswersAreFinal(Apply(s, run[0]), run[1..], k);
    }
  }

  ghost predicate AtMostOne(s: Shop, merchant: Id, external: string) {
    forall a, b | a in s.orders && b in s.orders ::
      Claims(s.orders[a], merchant, external) && Claims(s.orders[b], merchant, external) ==> a == b
  }

  predicate AnsweredFor(s: Shop, k: nat, merchant: Id, external: string) {
    Answered(s, k) && s.calls[k].merchant == merchant && s.calls[k].external == external
  }

  /**
   * Idempotence over any number of racing calls: at most one order for each merchant and
   * non-empty external id, and every call for the pair that succeeds returns it.
   */
  lemma {:induction false} OneOrderPerPair(s: Shop, run: seq<Step>, merchant: Id, external: string)
    requires Empty(s) && Runs(s, run) && external != ""
    ensures AtMostOne(After(s, run), merchant, external)
    ensures var t := After(s, run);
      forall k: nat | AnsweredFor(t, k, merchant, external) ::
        Taken(t.orders, merchant, external) && t.calls[k].at.order == Existing(t.orders, merchant, external)
  {
    ConsistentInEveryRun(s, run);
    var t := After(s, run);
    forall k: nat | AnsweredFor(t, k, merchant, external)
      ensures Taken(t.orders, merchant, external)
      ensures t.calls[k].at.order == Existing(t.orders, merchant, external)
    {
      assert CreateOk(t, t.calls[k]);
      assert Claims(t.orders[t.calls[k].at.order], merchant, external);
    }
  }

  /** A call lost the insert: it minted an invoice, and some other call's order stands. */
  predicate LostTheRace(c: Call) {
    c.Create? && c.at.Created? && c.at.via.Some? && c.at.via != Some(c.at.order)
  }

  /** Read off the answer: the invoice is the order's unless the order is not the call's own row. */
  lemma {:induction false} AnswerTellsInvoice(s: Shop, run: seq<Step>, k: nat)
    requires Empty(s) && Runs(s, run) && Answered(After(s, run), k)
    ensures var t, c := After(s, run), After(s, run).calls[k];
      && c.at.order in t.orders
      && (c.at.invoice == InvoiceOf(t.orders[c.at.order]) <==> !LostTheRace(c))
      && (LostTheRace(c) ==> forall id :: id in t.orders ==> t.orders[id].invoice != Some(c.at.invoice))
  {
    ConsistentInEveryRun(s, run);
    var t := After(s, run);
    var c := t.calls[k];
    assert CreateOk(t, c);
    assert RowKnown(t, c.at.order, t.orders[c.at.order]);
    if LostTheRace(c) && c.at.via.value in t.orders {
      assert Claims(t.orders[c.at.via.value], c.merchant, c.external);
      assert Claims(t.orders[c.at.order], c.merchant, c.external);
    }
  }

  // ---- what the insert decided stays decided ----

  predicate Failed(s: Shop, k: nat) {
    CreateAt(s, k) && s.calls[k].at.CreateFailed?
  }

  lemma {:induction false} FailureIsFinal(s: Shop, run: seq<Step>, k: nat)
    requires Runs(s, run) && Failed(s, k)
    ensures Failed(After(s, run), k)
    decreases |run|
  {
    if run == [] {
    } else {
      assert Apply(s, run[0]).calls[k] == s.calls[k];
      FailureIsFinal(Apply(s, run[0]), run[1..], k);
    }
  }

  lemma {:induction false} OwnOrFailed(s: Shop, step: Step, k: nat)
    requires Enabled(s, step) && k < |s.calls| && Own(s.calls[k]).Some?
    ensures k < |Apply(s, step).calls|
    ensures Own(Apply(s, step).calls[k]) == Own(s.calls[k]) || Failed(Apply(s, step), k)
  {
  }

  /** A call that inserted under `own` and is answered at the end still goes by `own`. */
  lemma {:induction false} OwnAtTheEnd(s: Shop, run: seq<Step>, k: nat)
    requires Runs(s, run) && k < |s.calls| && Own(s.calls[k]).Some? && Answered(After(s, run), k)
    ensures Own(After(s, run).calls[k]) == Own(s.calls[k])
    decreases |run|
  {
    if run == [] {
    } else {
      OwnOrFailed(s, run[0], k);
      if Failed(Apply(s, run[0]), k) {
        FailureIsFinal(Apply(s, run[0]), run[1..], k);
      }
      OwnAtTheEnd(Apply(s, run[0]), run[1..], k);
    }
  }

  /** Whether a used row id is in the table never changes again. */
  lemma {:induction false} UsedIdsAreDecided(s: Shop, run: seq<Step>, id: Id)
    requires Runs(s, run) && id in s.issued
    ensures id in After(s, run).orders <==> id in s.orders
    decreases |run|
  {
    if run == [] {
    } else {
      StepKeeps(s, run[0]);
      if id in Apply(s, run[0]).orders && id !in s.orders {
        NewRow(s, run[0], id);
      }
      UsedIdsAreDecided(Apply(s, run[0]), run[1..], id);
    }
  }

  /** The guard of the losing branch: somebody holds the pair when the call inserts. */
  ghost predicate PairIsTaken(s: Shop, k: nat)
    requires CreateAt(s, k)
  {
    s.calls[k].external != "" && Taken(s.orders, s.calls[k].merchant, s.calls[k].external)
  }

  /**
   * A call that minted returns the invoice of the order it returns if and only if nobody held the
   * pair when it inserted. Otherwise its invoice belongs to no order, so paying it settles none.
   */
  lemma {:induction false} InvoiceIsTheOrdersIff(s: Shop, pre: seq<Step>, k: nat, own: Id, post: seq<Step>)
    requires Empty(s) && Runs(s, pre) && Enabled(After(s, pre), InsertOrder(k, own, true))
    requires Runs(Apply(After(s, pre), InsertOrder(k, own, true)), post)
    requires Answered(After(Apply(After(s, pre), InsertOrder(k, own, true)), post), k)
    ensures var before := After(s, pre);
      var end := After(Apply(before, InsertOrder(k, own, true)), post);
      var c := end.calls[k];
      && c.at.order in end.orders
      && (c.at.invoice == InvoiceOf(end.orders[c.at.order]) <==> !PairIsTaken(before, k))
      && (PairIsTaken(before, k) ==> forall id :: id in end.orders ==> end.orders[id].invoice != Some(c.at.invoice))
  {
    var before, step := After(s, pre), InsertOrder(k, own, true);
    RunsAround(s, pre, step, post);
    var run := pre + ([step] + post);
    ConsistentInEveryRun(s, run);
    AnswerTellsInvoice(s, run, k);
    InsertDecides(before, k, own, post);
    LosesIff(After(s, run), k, own);
  }

  /** From the insert on, the call goes by its row id, which is in the table if the pair was free. */
  lemma {:induction false} InsertDecides(s: Shop, k: nat, own: Id, post: seq<Step>)
    requires Enabled(s, InsertOrder(k, own, true)) && Runs(Apply(s, InsertOrder(k, own, true)), post)
    requires Answered(After(Apply(s, InsertOrder(k, own, true)), post), k)
    ensures var end := After(Apply(s, InsertOrder(k, own, true)), post);
      Own(end.calls[k]) == Some(own) && (own in end.orders <==> !PairIsTaken(s, k))
  {
    var t := Apply(s, InsertOrder(k, own, true));
    assert Own(t.calls[k]) == Some(own) && (own in t.orders <==> !PairIsTaken(s, k));
    OwnAtTheEnd(t, post, k);
    UsedIdsAreDecided(t, post, own);
  }

  /** An answered call lost exactly when its own row did not make it into the table. */
  lemma {:induction false} LosesIff(s: Shop, k: nat, own: Id)
    requires Consistent(s) && Answered(s, k) && Own(s.calls[k]) == Some(own)
    ensures LostTheRace(s.calls[k]) <==> own !in s.orders
  {
    var c := s.calls[k];
    assert CreateOk(s, c);
    if own in s.orders && c.external != "" {
      assert Claims(s.orders[own], c.merchant, c.external) && Claims(s.orders[c.at.order], c.merchant, c.external);
    }
  }
}
