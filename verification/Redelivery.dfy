/**
 * The whole service around the outbox: the indexer saves and redelivers changes while workers,
 * operators, test pings, merchants and subscription changes interleave with it.
 */
module Redelivery {
  import opened Basics
  import Outbox
  import opened Derive
  import opened Projection
  import opened Convergence
  import D = Dispatch

  // ---- what one flush can do to rows that exist ----

  /** Existing event rows, deliveries and orders past payment are exactly as before. */
  ghost predicate OnlyAdds(t: Tables, t': Tables) {
    && (forall id :: id in t.events ==> id in t'.events && t'.events[id] == t.events[id])
    && (forall id :: id in t.deliveries ==> id in t'.deliveries && t'.deliveries[id] == t.deliveries[id])
    && (forall o :: o in t.orders && t.orders[o].status != Unpaid ==> o in t'.orders && t'.orders[o] == t.orders[o])
  }

  lemma {:induction false} ProjectOnlyAdds(t: Tables, e: Event)
    requires Project(t, e).Ok?
    ensures OnlyAdds(t, Project(t, e).value)
  {
    match e.kind
    case InvoicePaid =>
    case PaymentReceived =>
    case ChannelOpened =>
    case OtherKind(_) =>
  }

  lemma {:induction false} EnqueueOnlyAdds(t: Tables, e: Event, now: Instant)
    requires Enqueue(t, e, now).Ok?
    ensures OnlyAdds(t, Enqueue(t, e, now).value)
  {
  }

  lemma {:induction false} EventOnlyAdds(t: Tables, e: Event, seqNo: int, now: Instant)
    requires ApplyEvent(t, e, seqNo, now).Ok?
    ensures OnlyAdds(t, ApplyEvent(t, e, seqNo, now).value)
  {
    var t1 := t.(events := InsertEvent(t.events, e, seqNo));
    ProjectOnlyAdds(t1, e);
    EnqueueOnlyAdds(Project(t1, e).value, e, now);
  }

  /** Saving any change, for the first time or again, never alters such a row. */
  lemma {:induction false} FlushOnlyAdds(t: Tables, buf: seq<Event>, seqNo: int, now: Instant)
    requires Flush(t, buf, seqNo, now).Ok?
    ensures OnlyAdds(t, Flush(t, buf, seqNo, now).value)
    decreases |buf|
  {
    if buf != [] {
      var init := buf[..|buf| - 1];
      FlushOnlyAdds(t, init, seqNo, now);
      EventOnlyAdds(ApplyAll(t, init, seqNo, now).value, buf[|buf| - 1], seqNo, now);
    }
  }

  /** The part of the tables the outbox depends on. */
  datatype Core = Core(events: map<Id, EventRow>, endpoints: map<Id, Endpoint>, deliveries: Outbox.Rows)

  function CoreOf(t: Tables): Core {
    Core(t.events, t.endpoints, t.deliveries)
  }

  ghost function EnqueueCore(k: Core, e: Event, now: Instant): Core {
    if Matching(k.endpoints, e.kind) == {} || e.encoded.None? then k
    else
      var added := FanOut(k.endpoints, Matching(k.endpoints, e.kind), e, now);
      k.(deliveries := Outbox.InsertMissing(k.deliveries, added))
  }

  ghost function CoreAfter(k: Core, buf: seq<Event>, seqNo: int, now: Instant): Core
    decreases |buf|
  {
    if buf == [] then k else
      var e, k' := buf[|buf| - 1], CoreAfter(k, buf[..|buf| - 1], seqNo, now);
      EnqueueCore(k'.(events := InsertEvent(k'.events, e, seqNo)), e, now)
  }

  lemma {:induction false} EventCore(t: Tables, e: Event, seqNo: int, now: Instant)
    requires ApplyEvent(t, e, seqNo, now).Ok?
    ensures CoreOf(ApplyEvent(t, e, seqNo, now).value) ==
      EnqueueCore(CoreOf(t).(events := InsertEvent(t.events, e, seqNo)), e, now)
  {
    ProjectKeeps(t.(events := InsertEvent(t.events, e, seqNo)), e);
  }

  /** Event rows and deliveries develop independently of projections and orders. */
  lemma {:induction false} FlushCore(t: Tables, buf: seq<Event>, seqNo: int, now: Instant)
    requires ApplyAll(t, buf, seqNo, now).Ok?
    ensures CoreOf(ApplyAll(t, buf, seqNo, now).value) == CoreAfter(CoreOf(t), buf, seqNo, now)
    decreases |buf|
  {
    if buf != [] {
      var init := buf[..|buf| - 1];
      FlushCore(t, init, seqNo, now);
      EventCore(ApplyAll(t, init, seqNo, now).value, buf[|buf| - 1], seqNo, now);
    }
  }

  /** Event e is recorded and every matching endpoint has its delivery. */
  ghost predicate Served(k: Core, e: Event) {
    e.id in k.events && forall ep :: ep in Matching(k.endpoints, e.kind) ==> DeliveryId(e.id, ep) in k.deliveries
  }

  ghost predicate AllServed(k: Core, buf: seq<Event>) {
    forall i :: 0 <= i < |buf| ==> Served(k, buf[i])
  }

  lemma {:induction false} ServingAgainIsNoOp(k: Core, e: Event, seqNo: int, now: Instant)
    requires Served(k, e)
    ensures EnqueueCore(k.(events := InsertEvent(k.events, e, seqNo)), e, now) == k
  {
    var eps := Matching(k.endpoints, e.kind);
    if eps != {} && e.encoded.Some? {
      forall id | id in FanOut(k.endpoints, eps, e, now) ensures id in k.deliveries {
        var ep := TargetOf(eps, e.id, id);
      }
      assert Outbox.InsertMissing(k.deliveries, FanOut(k.endpoints, eps, e, now)) == k.deliveries;
    }
  }

  /** Redelivering a change that is fully served changes no event row and no delivery. */
  lemma {:induction false} RedeliveryIsNoOp(k: Core, buf: seq<Event>, seqNo: int, now: Instant)
    requires AllServed(k, buf)
    ensures CoreAfter(k, buf, seqNo, now) == k
    decreases |buf|
  {
    if buf != [] {
      var init := buf[..|buf| - 1];
      assert forall i :: 0 <= i < |init| ==> init[i] == buf[i];
      RedeliveryIsNoOp(k, init, seqNo, now);
      ServingAgainIsNoOp(k, buf[|buf| - 1], seqNo, now);
    }
  }

  lemma {:induction false} ServeOne(k: Core, e: Event, seqNo: int, now: Instant, f: Event)
    requires AcceptableEvent(k.endpoints, e)
    ensures var k' := EnqueueCore(k.(events := InsertEvent(k.events, e, seqNo)), e, now);
      && Served(k', e) && k'.endpoints == k.endpoints
      && (Served(k, f) ==> Served(k', f))
  {
    var eps := Matching(k.endpoints, e.kind);
    forall ep | ep in eps ensures e.encoded.Some? && DeliveryId(e.id, ep) in FanOut(k.endpoints, eps, e, now) {
      FanOutAt(k.endpoints, eps, e, now, ep);
    }
  }

  /** A flush serves every event of its change, and undoes no earlier service. */
  lemma {:induction false} FlushServes(k: Core, buf: seq<Event>, seqNo: int, now: Instant, f: Event)
    requires Acceptable(k.endpoints, buf)
    ensures CoreAfter(k, buf, seqNo, now).endpoints == k.endpoints
    ensures AllServed(CoreAfter(k, buf, seqNo, now), buf)
    ensures Served(k, f) ==> Served(CoreAfter(k, buf, seqNo, now), f)
    decreases |buf|
  {
    if buf != [] {
      var init, e := buf[..|buf| - 1], buf[|buf| - 1];
      assert Acceptable(k.endpoints, init) by {
        assert forall i :: 0 <= i < |init| ==> init[i] == buf[i];
      }
      FlushServes(k, init, seqNo, now, f);
      var k1 := CoreAfter(k, init, seqNo, now);
      assert AcceptableEvent(k.endpoints, e);
      ServeOne(k1, e, seqNo, now, f);
      var k2 := CoreAfter(k, buf, seqNo, now);
      forall i | 0 <= i < |buf| ensures Served(k2, buf[i]) {
        if i < |init| {
          assert init[i] == buf[i] && Served(k1, init[i]);
          ServeOne(k1, e, seqNo, now, buf[i]);
        }
      }
    }
  }

  /** Exactly: saving a change again leaves the outbox alone iff all that match now were served. */
  lemma {:induction false} RedeliveryIsNoOpIff(t: Tables, buf: seq<Event>, seqNo: int, now: Instant)
    requires Flush(t, buf, seqNo, now).Ok?
    ensures CoreOf(Flush(t, buf, seqNo, now).value) == CoreOf(t) <==> AllServed(CoreOf(t), buf)
  {
    FlushCore(t, buf, seqNo, now);
    FlushSucceedsIff(t, buf, seqNo, now);
    if AllServed(CoreOf(t), buf) {
      RedeliveryIsNoOp(CoreOf(t), buf, seqNo, now);
    } else {
      forall f: Event { FlushServes(CoreOf(t), buf, seqNo, now, f); }
    }
  }

  // ---- the interleaved system ----

  /**
   * `next` is one past the change committed most recently, `covered` one past the newest
   * change ever committed.
   */
  datatype World = World(
    t: Tables, now: Instant, log: seq<Outbox.LogRow>, claims: seq<D.Claim>, history: seq<D.Entry>,
    next: nat, covered: nat)

  datatype WStep =
    | Save(k: nat, lands: bool)
    | Work(step: D.Step)
    | TestEvent(event: Id, ping: EventRow)
    | TestDelivery(delivery: Id, row: Outbox.Delivery)
    | Merchant(orders: map<Id, Order>)
    | Subscriptions(endpoints: map<Id, Endpoint>)

  function SysOf(w: World): D.Sys {
    D.Sys(w.now, Outbox.Box(w.t.deliveries, w.log), w.claims, w.history)
  }

  function WithSys(w: World, s: D.Sys): World {
    w.(t := w.t.(deliveries := s.box.rows), now := s.now, log := s.box.log, claims := s.claims, history := s.history)
  }

  /** Ids that New mints carry no prefix, so they are never derived delivery ids. */
  predicate Minted(id: Id) {
    !("dlv_" <= id)
  }

  ghost predicate Ready(w: World, cs: seq<Change>, step: WStep) {
    match step
    case Save(k, lands) => Allowed(w.t, cs, Attempt(k, w.now, lands))
    case Work(s) => D.Enabled(SysOf(w), s) && !s.Enqueue?
    case TestEvent(e, _) =>
      && e !in w.t.events
      && forall k, i :: 0 <= k < |cs| && 0 <= i < |cs[k].events| ==> cs[k].events[i].id != e
    case TestDelivery(d, row) =>
      && d !in w.t.deliveries && Minted(d) && Outbox.FreshRow(row, w.now)
      && row.event in w.t.events && row.endpoint in w.t.endpoints
      && forall k, i :: 0 <= k < |cs| && 0 <= i < |cs[k].events| ==> cs[k].events[i].id != row.event
    case Merchant(_) => true
    case Subscriptions(_) => true
  }

  ghost function Do(w: World, cs: seq<Change>, step: WStep, max: nat): World
    requires Ready(w, cs, step)
  {
    match step
    case Save(k, lands) =>
      if !lands then w else
        w.(t := Tried(w.t, cs, Attempt(k, w.now, true)), next := k + 1, covered := Max(w.covered, k + 1))
    case Work(s) => WithSys(w, D.Apply(SysOf(w), s, max))
    case TestEvent(e, row) => w.(t := w.t.(events := w.t.events[e := row]))
    case TestDelivery(d, row) => w.(t := w.t.(deliveries := w.t.deliveries[d := row]))
    case Merchant(orders) => w.(t := w.t.(orders := orders))
    case Subscriptions(endpoints) => w.(t := w.t.(endpoints := endpoints))
  }

  ghost predicate Legal(w: World, cs: seq<Change>, run: seq<WStep>, max: nat)
    decreases |run|
  {
    run != [] ==> Ready(w, cs, run[0]) && Legal(Do(w, cs, run[0], max), cs, run[1..], max)
  }

  ghost function End(w: World, cs: seq<Change>, run: seq<WStep>, max: nat): World
    requires Legal(w, cs, run, max)
    decreases |run|
  {
    if run == [] then w else End(Do(w, cs, run[0], max), cs, run[1..], max)
  }

  predicate Fresh(w: World) {
    && w.t.events == map[] && w.t.deliveries == map[] && w.t.checkpoint == None
    && w.log == [] && w.claims == [] && w.history == []
    && w.next == 0 && w.covered == 0
  }

  /** Whom a delivery is for and what it says. */
  ghost predicate SameContent(d: Outbox.Delivery, d': Outbox.Delivery) {
    && d.endpoint == d'.endpoint && d.event == d'.event
    && d.url == d'.url && d.secret == d'.secret && d.payload == d'.payload
  }

  ghost predicate KeepsRows(rows: Outbox.Rows, rows': Outbox.Rows) {
    forall id :: id in rows ==> id in rows' && SameContent(rows[id], rows'[id])
  }

  /** Dispatcher, sweeper and replay steps keep every row's id and content. */
  lemma {:induction false} WorkKeepsIdentity(s: D.Sys, step: D.Step, max: nat)
    requires D.Enabled(s, step) && !step.Enqueue?
    ensures var rows := D.Apply(s, step, max).box.rows;
      rows.Keys == s.box.rows.Keys && KeepsRows(s.box.rows, rows)
  {
  }

  /** No step of the service ever removes a delivery or rewrites its content. */
  lemma {:induction false} StepKeepsRows(w: World, cs: seq<Change>, step: WStep, max: nat)
    requires Ready(w, cs, step)
    ensures KeepsRows(w.t.deliveries, Do(w, cs, step, max).t.deliveries)
  {
    if step.Save? && step.lands {
      FlushOnlyAdds(w.t, cs[step.k].events, cs[step.k].seqNo, w.now);
    } else if step.Work? {
      WorkKeepsIdentity(SysOf(w), step.step, max);
    }
  }

  lemma {:induction false} RunKeepsRows(w: World, cs: seq<Change>, run: seq<WStep>, max: nat)
    requires Legal(w, cs, run, max)
    ensures KeepsRows(w.t.deliveries, End(w, cs, run, max).t.deliveries)
    decreases |run|
  {
    if run != [] {
      StepKeepsRows(w, cs, run[0], max);
      RunKeepsRows(Do(w, cs, run[0], max), cs, run[1..], max);
    }
  }
}
