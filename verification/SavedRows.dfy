/**
 * What one Save leaves in the events and the deliveries table, column by column: which rows are
 * new, and where each of their columns comes from.
 */
module SavedRows {
  import opened Basics
  import Outbox
  import opened Derive
  import opened Projection
  import opened Convergence

  /** Event e is of a type the active endpoint ep subscribes to, and id is derived from the two. */
  ghost predicate Addresses(endpoints: map<Id, Endpoint>, e: Event, ep: Id, id: Id) {
    ep in endpoints && endpoints[ep].active && e.kind in endpoints[ep].kinds && id == DeliveryId(e.id, ep)
  }

  /** A new delivery: the endpoint's url and secret, the whole event, never tried, due at once. */
  ghost predicate IsDeliveryOf(d: Outbox.Delivery, ep: Id, target: Endpoint, e: Event, now: Instant) {
    && d.endpoint == ep && d.event == e.id
    && d.url == target.url && d.secret == target.secret && e.encoded == Some(d.payload)
    && d.status == Outbox.Pending && d.attempts == 0 && d.due == now && d.lastError == None
  }

  /** buf[i] is the first buffered event that addresses id, and d is its delivery. */
  ghost predicate MadeBy(d: Outbox.Delivery, id: Id, endpoints: map<Id, Endpoint>, buf: seq<Event>, i: nat, ep: Id,
                         now: Instant) {
    && i < |buf| && Addresses(endpoints, buf[i], ep, id)
    && (forall j, x :: 0 <= j < i ==> !Addresses(endpoints, buf[j], x, id))
    && IsDeliveryOf(d, ep, endpoints[ep], buf[i], now)
  }

  ghost predicate Addressed(endpoints: map<Id, Endpoint>, buf: seq<Event>, id: Id) {
    exists i, ep :: 0 <= i < |buf| && Addresses(endpoints, buf[i], ep, id)
  }

  /** An old delivery stays; a new one is there exactly if some event addresses it, and is the first such event's. */
  ghost predicate DeliverySaved(t: Tables, t': Tables, buf: seq<Event>, now: Instant, id: Id) {
    if id in t.deliveries then id in t'.deliveries && t'.deliveries[id] == t.deliveries[id]
    else
      && (id in t'.deliveries <==> Addressed(t.endpoints, buf, id))
      && (id in t'.deliveries ==> exists i, ep :: MadeBy(t'.deliveries[id], id, t.endpoints, buf, i, ep, now))
  }

  ghost predicate DeliveriesSaved(t: Tables, t': Tables, buf: seq<Event>, now: Instant) {
    forall id :: DeliverySaved(t, t', buf, now, id)
  }

  /** The asset and amount columns of the two event types that carry them. */
  ghost predicate AssetAmountOf(asset: Option<string>, amount: Option<nat>, e: Event) {
    if e.kind == InvoicePaid && e.data.invoicePaid.Some? then
      var d := e.data.invoicePaid.value;
      amount == Some(d.amount) && asset == if d.asset == "" then None else Some(d.asset)
    else if e.kind == PaymentReceived && e.data.paymentReceived.Some? then
      var d := e.data.paymentReceived.value;
      amount == Some(d.amount) && asset == if d.asset == "" then None else Some(d.asset)
    else asset == None && amount == None
  }

  ghost predicate IsRowOf(r: EventRow, e: Event, seqNo: int) {
    && r.kind == e.kind && r.data == e.data.raw && r.occurredAt == e.createdAt && r.checkpoint == seqNo
    && r.fiberRef == (if e.fiberRef == "" then None else Some(e.fiberRef))
    && AssetAmountOf(r.asset, r.amount, e)
  }

  /** buf[i] is the first buffered event with this id, and r is its row. */
  ghost predicate RecordOf(r: EventRow, id: Id, buf: seq<Event>, i: nat, seqNo: int) {
    && i < |buf| && buf[i].id == id && (forall j :: 0 <= j < i ==> buf[j].id != id)
    && IsRowOf(r, buf[i], seqNo)
  }

  ghost predicate Mentioned(buf: seq<Event>, id: Id) {
    exists i :: 0 <= i < |buf| && buf[i].id == id
  }

  /** An old event row stays; a new one is there exactly if it was buffered, and is the first such event's. */
  ghost predicate EventSaved(t: Tables, t': Tables, buf: seq<Event>, seqNo: int, id: Id) {
    if id in t.events then id in t'.events && t'.events[id] == t.events[id]
    else
      && (id in t'.events <==> Mentioned(buf, id))
      && (id in t'.events ==> exists i :: RecordOf(t'.events[id], id, buf, i, seqNo))
  }

  ghost predicate EventsSaved(t: Tables, t': Tables, buf: seq<Event>, seqNo: int) {
    forall id :: EventSaved(t, t', buf, seqNo, id)
  }

  // ---- one event ----

  lemma {:induction false} OneEventsDelivery(t: Tables, e: Event, seqNo: int, now: Instant, id: Id) returns (ep: Id)
    requires ApplyEvent(t, e, seqNo, now).Ok?
    ensures var t' := ApplyEvent(t, e, seqNo, now).value;
      && t'.endpoints == t.endpoints
      && (id in t.deliveries ==> id in t'.deliveries && t'.deliveries[id] == t.deliveries[id])
      && (id !in t.deliveries && id in t'.deliveries ==>
            Addresses(t.endpoints, e, ep, id) && IsDeliveryOf(t'.deliveries[id], ep, t.endpoints[ep], e, now))
      && (id !in t'.deliveries ==> forall x :: !Addresses(t.endpoints, e, x, id))
  {
    var t1 := t.(events := InsertEvent(t.events, e, seqNo));
    var t2 := Project(t1, e).value;
    ProjectKeeps(t1, e);
    EnqueueKeeps(t2, e, now);
    EnqueueAt(t2, e, now, id);
    var t', eps := Enqueue(t2, e, now).value, Matching(t.endpoints, e.kind);
    ep := "";
    if id !in t.deliveries && id in t'.deliveries {
      ep := TargetOf(eps, e.id, id);
      FanOutAt(t.endpoints, eps, e, now, ep);
    }
    forall x | Addresses(t.endpoints, e, x, id)
      ensures id in t'.deliveries
    {
      assert x in eps;
      FanOutAt(t.endpoints, eps, e, now, x);
    }
  }

  lemma {:induction false} OneEventsRow(t: Tables, e: Event, seqNo: int, now: Instant, id: Id)
    requires ApplyEvent(t, e, seqNo, now).Ok?
    ensures var t' := ApplyEvent(t, e, seqNo, now).value;
      && (id in t.events ==> id in t'.events && t'.events[id] == t.events[id])
      && (id !in t.events ==> (id in t'.events <==> id == e.id))
      && (id !in t.events && id in t'.events ==> IsRowOf(t'.events[id], e, seqNo))
  {
    var t1 := t.(events := InsertEvent(t.events, e, seqNo));
    ProjectKeeps(t1, e);
    EnqueueKeeps(Project(t1, e).value, e, now);
  }

  // ---- a whole buffer ----

  lemma {:induction false} AddressedBefore(endpoints: map<Id, Endpoint>, buf: seq<Event>, id: Id)
    requires buf != []
    ensures var init, e := buf[..|buf| - 1], buf[|buf| - 1];
      Addressed(endpoints, buf, id) <==>
        Addressed(endpoints, init, id) || exists x :: Addresses(endpoints, e, x, id)
  {
    var init, e := buf[..|buf| - 1], buf[|buf| - 1];
    if i, ep :| 0 <= i < |buf| && Addresses(endpoints, buf[i], ep, id) {
      if i < |init| {
        assert Addresses(endpoints, init[i], ep, id);
      }
    }
    if i, ep :| 0 <= i < |init| && Addresses(endpoints, init[i], ep, id) {
      assert Addresses(endpoints, buf[i], ep, id);
    }
    if ep :| Addresses(endpoints, e, ep, id) {
      assert Addresses(endpoints, buf[|buf| - 1], ep, id);
    }
  }

  /** One more event: what was saved by the buffer before it stays, and its own delivery is new. */
  lemma {:induction false} DeliverySavedOn(t: Tables, t1: Tables, t2: Tables, buf: seq<Event>, e: Event, now: Instant,
      id: Id, ep: Id)
    requires buf != [] && e == buf[|buf| - 1] && DeliverySaved(t, t1, buf[..|buf| - 1], now, id)
    requires id in t1.deliveries ==> id in t2.deliveries && t2.deliveries[id] == t1.deliveries[id]
    requires id !in t1.deliveries && id in t2.deliveries ==>
      Addresses(t.endpoints, e, ep, id) && IsDeliveryOf(t2.deliveries[id], ep, t.endpoints[ep], e, now)
    requires id !in t2.deliveries ==> forall x :: !Addresses(t.endpoints, e, x, id)
    ensures DeliverySaved(t, t2, buf, now, id)
  {
    var init := buf[..|buf| - 1];
    AddressedBefore(t.endpoints, buf, id);
    if id !in t.deliveries {
      if id in t1.deliveries {
        var i, x :| MadeBy(t1.deliveries[id], id, t.endpoints, init, i, x, now);
        assert MadeBy(t2.deliveries[id], id, t.endpoints, buf, i, x, now);
      } else if id in t2.deliveries {
        forall j, x | 0 <= j < |init|
          ensures !Addresses(t.endpoints, buf[j], x, id)
        {
          assert buf[j] == init[j];
        }
        assert MadeBy(t2.deliveries[id], id, t.endpoints, buf, |init|, ep, now);
      }
    }
  }

  lemma {:induction false} DeliveryAfter(t: Tables, buf: seq<Event>, seqNo: int, now: Instant, id: Id)
    requires ApplyAll(t, buf, seqNo, now).Ok?
    ensures ApplyAll(t, buf, seqNo, now).value.endpoints == t.endpoints
    ensures DeliverySaved(t, ApplyAll(t, buf, seqNo, now).value, buf, now, id)
    decreases |buf|
  {
    if buf != [] {
      var init, e := buf[..|buf| - 1], buf[|buf| - 1];
      var t1, t2 := ApplyAll(t, init, seqNo, now).value, ApplyAll(t, buf, seqNo, now).value;
      DeliveryAfter(t, init, seqNo, now, id);
      var ep := OneEventsDelivery(t1, e, seqNo, now, id);
      DeliverySavedOn(t, t1, t2, buf, e, now, id, ep);
    }
  }

  lemma {:induction false} EventSavedOn(t: Tables, t1: Tables, t2: Tables, buf: seq<Event>, e: Event, seqNo: int,
      id: Id)
    requires buf != [] && e == buf[|buf| - 1] && EventSaved(t, t1, buf[..|buf| - 1], seqNo, id)
    requires id in t1.events ==> id in t2.events && t2.events[id] == t1.events[id]
    requires id !in t1.events ==> (id in t2.events <==> id == e.id)
    requires id !in t1.events && id in t2.events ==> IsRowOf(t2.events[id], e, seqNo)
    ensures EventSaved(t, t2, buf, seqNo, id)
  {
    var init := buf[..|buf| - 1];
    assert forall j :: 0 <= j < |init| ==> init[j] == buf[j];
    if id !in t.events {
      if id in t1.events {
        var i :| RecordOf(t1.events[id], id, init, i, seqNo);
        assert RecordOf(t2.events[id], id, buf, i, seqNo);
        assert Mentioned(buf, id);
      } else if id == e.id {
        assert RecordOf(t2.events[id], id, buf, |init|, seqNo);
      }
    }
  }

  lemma {:induction false} EventAfter(t: Tables, buf: seq<Event>, seqNo: int, now: Instant, id: Id)
    requires ApplyAll(t, buf, seqNo, now).Ok?
    ensures EventSaved(t, ApplyAll(t, buf, seqNo, now).value, buf, seqNo, id)
    decreases |buf|
  {
    if buf != [] {
      var init, e := buf[..|buf| - 1], buf[|buf| - 1];
      var t1, t2 := ApplyAll(t, init, seqNo, now).value, ApplyAll(t, buf, seqNo, now).value;
      EventAfter(t, init, seqNo, now, id);
      OneEventsRow(t1, e, seqNo, now, id);
      EventSavedOn(t, t1, t2, buf, e, seqNo, id);
    }
  }

  /** A flush that succeeds, column by column. */
  lemma {:induction false} FlushSavesRows(t: Tables, buf: seq<Event>, seqNo: int, now: Instant)
    requires Flush(t, buf, seqNo, now).Ok?
    ensures var t' := Flush(t, buf, seqNo, now).value;
      && t'.checkpoint == Some(seqNo) && t'.endpoints == t.endpoints
      && DeliveriesSaved(t, t', buf, now) && EventsSaved(t, t', buf, seqNo)
  {
    var t1, t' := ApplyAll(t, buf, seqNo, now).value, Flush(t, buf, seqNo, now).value;
    DeliveryAfter(t, buf, seqNo, now, "");
    forall id
      ensures DeliverySaved(t, t', buf, now, id) && EventSaved(t, t', buf, seqNo, id)
    {
      DeliveryAfter(t, buf, seqNo, now, id);
      EventAfter(t, buf, seqNo, now, id);
      assert DeliverySaved(t, t1, buf, now, id) && EventSaved(t, t1, buf, seqNo, id);
    }
  }
}
