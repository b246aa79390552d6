/**
 * Page positions under redelivery: a payment's created_at, once written, never changes again,
 * so a walk's keys hold still while changes are replayed. A channel's opened_at does not have
 * that property.
 */
module ReplayKeys {
  import opened Basics
  import opened Projection
  import opened Convergence

  /** Every payment stays, at the position it had. */
  ghost predicate KeysStay(a: map<Id, PaymentRow>, b: map<Id, PaymentRow>) {
    forall h :: h in a ==> h in b && b[h].createdAt == a[h].createdAt
  }

  lemma {:induction false} ProjectKeepsKeys(t: Tables, e: Event)
    requires Project(t, e).Ok?
    ensures KeysStay(t.payments, Project(t, e).value.payments)
  {
    match e.kind
    case InvoicePaid =>
    case PaymentReceived =>
    case ChannelOpened =>
    case OtherKind(_) =>
  }

  lemma {:induction false} EnqueueKeepsKeys(t: Tables, e: Event, now: Instant)
    requires Enqueue(t, e, now).Ok?
    ensures Enqueue(t, e, now).value.payments == t.payments
  {
  }

  lemma {:induction false} EventKeepsKeys(t: Tables, e: Event, seqNo: int, now: Instant)
    requires ApplyEvent(t, e, seqNo, now).Ok?
    ensures KeysStay(t.payments, ApplyEvent(t, e, seqNo, now).value.payments)
  {
    var t1 := t.(events := InsertEvent(t.events, e, seqNo));
    ProjectKeepsKeys(t1, e);
    EnqueueKeepsKeys(Project(t1, e).value, e, now);
  }

  lemma {:induction false} BufferKeepsKeys(t: Tables, buf: seq<Event>, seqNo: int, now: Instant)
    requires ApplyAll(t, buf, seqNo, now).Ok?
    ensures KeysStay(t.payments, ApplyAll(t, buf, seqNo, now).value.payments)
    decreases |buf|
  {
    if buf != [] {
      BufferKeepsKeys(t, buf[..|buf| - 1], seqNo, now);
      EventKeepsKeys(ApplyAll(t, buf[..|buf| - 1], seqNo, now).value, buf[|buf| - 1], seqNo, now);
    }
  }

  /** Through any rollbacks, restarts and redeliveries, no payment moves to another position. */
  lemma {:induction false} PaymentKeysStay(t: Tables, cs: seq<Change>, run: seq<Attempt>)
    requires History(t, cs, run)
    ensures KeysStay(t.payments, Outcome(t, cs, run).payments)
    decreases |run|
  {
    if run == [] {
    } else {
      if run[0].lands {
        BufferKeepsKeys(t, cs[run[0].k].events, cs[run[0].k].seqNo, run[0].now);
      }
      PaymentKeysStay(Tried(t, cs, run[0]), cs, run[1..]);
    }
  }

  function Opening(id: Id, at: Instant): Event {
    Event(id, ChannelOpened, "", at, Payload("", None, None, Some(ChannelOpenedData("c", "", 0))), None)
  }

  function OpenedTwice(): seq<Change> {
    [Change(1, [Opening("e1", 3)]), Change(2, [Opening("e2", 5)])]
  }

  ghost function Nothing(): Tables {
    Tables(None, map[], map[], map[], map[], map[], map[], map[])
  }

  lemma {:induction false} OpeningAlone(t: Tables, id: Id, at: Instant, seqNo: int)
    requires t.endpoints == map[]
    ensures Flush(t, [Opening(id, at)], seqNo, 0).Ok?
    ensures var t' := Flush(t, [Opening(id, at)], seqNo, 0).value;
      && t'.endpoints == map[] && t'.checkpoint == Some(seqNo)
      && "c" in t'.channels && t'.channels["c"].openedAt == at
  {
    var e := Opening(id, at);
    assert [e][..0] == [];
    assert ApplyAll(t, [], seqNo, 0) == Ok(t);
    assert Matching(t.endpoints, e.kind) == {};
    assert ApplyAll(t, [e], seqNo, 0) == ApplyEvent(t, e, seqNo, 0);
  }

  /** Replaying an earlier change moves a channel, and the checkpoint, back in time until it catches up. */
  lemma {:induction false} ChannelKeysMove() returns (run: seq<Attempt>)
    ensures History(Nothing(), OpenedTwice(), run)
    ensures History(Nothing(), OpenedTwice(), run + [Attempt(0, 0, true)])
    ensures var before := Outcome(Nothing(), OpenedTwice(), run);
      var after := Outcome(Nothing(), OpenedTwice(), run + [Attempt(0, 0, true)]);
      && before.checkpoint == Some(2) && after.checkpoint == Some(1)
      && "c" in before.channels && "c" in after.channels
      && before.channels["c"].openedAt == 5 && after.channels["c"].openedAt == 3
  {
    var cs := OpenedTwice();
    var a0, a1 := Attempt(0, 0, true), Attempt(1, 0, true);
    OpeningAlone(Nothing(), "e1", 3, 1);
    var t1 := Tried(Nothing(), cs, a0);
    OpeningAlone(t1, "e2", 5, 2);
    var t2 := Tried(t1, cs, a1);
    OpeningAlone(t2, "e1", 3, 1);
    var t3 := Tried(t2, cs, a0);
    run := [a0, a1];
    assert History(t3, cs, []) && History(t2, cs, []);
    assert [a0][1..] == [] && [a1][1..] == [];
    assert History(t2, cs, [a0]) && Outcome(t2, cs, [a0]) == t3;
    assert History(t1, cs, [a1]) && Outcome(t1, cs, [a1]) == t2;
    assert [a1, a0][1..] == [a0];
    assert History(t1, cs, [a1, a0]) && Outcome(t1, cs, [a1, a0]) == t3;
    assert run[1..] == [a1];
    assert run + [a0] == [a0, a1, a0] && [a0, a1, a0][1..] == [a1, a0];
  }
}
