/** The transactional outbox is complete and free of duplicates in every reachable state. */
module Completeness {
  import opened Basics
  import Outbox
  import opened Derive
  import opened Projection
  import opened Convergence
  import opened Redelivery
  import opened SavedRows
  import opened Erasure
  import D = Dispatch

  /** TEXT columns hold no NUL: the ids of the changes' events and of every endpoint. */
  ghost predicate NulFreeChanges(cs: seq<Change>) {
    forall k, i :: 0 <= k < |cs| && 0 <= i < |cs[k].events| ==> NulFree(cs[k].events[i].id)
  }

  ghost predicate NulFreeEndpoints(w: World) {
    forall ep :: ep in w.t.endpoints ==> NulFree(ep)
  }

  ghost predicate NulFreeSubscriptions(run: seq<WStep>) {
    forall i :: 0 <= i < |run| && run[i].Subscriptions? ==> forall ep :: ep in run[i].endpoints ==> NulFree(ep)
  }

  ghost predicate ChangeEvent(cs: seq<Change>, e: Id) {
    exists k, i :: 0 <= k < |cs| && 0 <= i < |cs[k].events| && cs[k].events[i].id == e
  }

  /** A delivery the indexer made carries the id derived from its event and endpoint. */
  ghost predicate FromIndexer(cs: seq<Change>, id: Id, d: Outbox.Delivery) {
    id == DeliveryId(d.event, d.endpoint) && NulFree(d.event) && NulFree(d.endpoint) && ChangeEvent(cs, d.event)
  }

  ghost predicate FromTest(cs: seq<Change>, id: Id, d: Outbox.Delivery) {
    Minted(id) && !ChangeEvent(cs, d.event)
  }

  /** Every delivery is accounted for, and its event is recorded. */
  ghost predicate Accounted(cs: seq<Change>, events: map<Id, EventRow>, rows: Outbox.Rows) {
    forall id :: id in rows ==>
      (FromIndexer(cs, id, rows[id]) || FromTest(cs, id, rows[id])) && rows[id].event in events
  }

  ghost predicate OneDelivery(rows: Outbox.Rows, e: Id, ep: Id) {
    exists id :: id in rows && rows[id].event == e && rows[id].endpoint == ep
      && forall x :: x in rows && rows[x].event == e && rows[x].endpoint == ep ==> x == id
  }

  ghost predicate Kept(w: World, cs: seq<Change>) {
    && w.covered <= |cs|
    && forall k, i :: 0 <= k < w.covered && 0 <= i < |cs[k].events| ==> cs[k].events[i].id in w.t.events
  }

  ghost predicate Complete(w: World, cs: seq<Change>) {
    && CheckpointAt(w, cs)
    && NulFreeEndpoints(w)
    && Accounted(cs, w.t.events, w.t.deliveries)
    && Kept(w, cs)
  }

  /** In an accounted table, the row at a derived id is the one delivery of its pair. */
  lemma {:induction false} PairHasOneDelivery(cs: seq<Change>, events: map<Id, EventRow>, rows: Outbox.Rows, e: Id,
      ep: Id)
    requires Accounted(cs, events, rows) && DeliveryId(e, ep) in rows
    requires NulFree(e) && NulFree(ep) && ChangeEvent(cs, e)
    ensures OneDelivery(rows, e, ep)
  {
    var id := DeliveryId(e, ep);
    DeliveryIdLayout(e, ep);
    assert "dlv_" <= id;
    assert FromIndexer(cs, id, rows[id]);
    DeliveriesDoNotCollide(e, ep, rows[id].event, rows[id].endpoint);
    forall x | x in rows && rows[x].event == e && rows[x].endpoint == ep ensures x == id {
      assert FromIndexer(cs, x, rows[x]);
    }
  }

  lemma {:induction false} EventStaysAccounted(cs: seq<Change>, k: Core, e: Event, seqNo: int, now: Instant)
    requires Accounted(cs, k.events, k.deliveries) && ChangeEvent(cs, e.id) && NulFree(e.id)
    requires forall ep :: ep in k.endpoints ==> NulFree(ep)
    ensures var k' := EnqueueCore(k.(events := InsertEvent(k.events, e, seqNo)), e, now);
      && Accounted(cs, k'.events, k'.deliveries) && k'.endpoints == k.endpoints
      && k.events.Keys <= k'.events.Keys && k.deliveries.Keys <= k'.deliveries.Keys
  {
    var eps := Matching(k.endpoints, e.kind);
    var k' := EnqueueCore(k.(events := InsertEvent(k.events, e, seqNo)), e, now);
    forall id | id in k'.deliveries && id !in k.deliveries
      ensures FromIndexer(cs, id, k'.deliveries[id]) && k'.deliveries[id].event in k'.events
    {
      var ep := TargetOf(eps, e.id, id);
      FanOutAt(k.endpoints, eps, e, now, ep);
    }
  }

  lemma {:induction false} FlushStaysAccounted(cs: seq<Change>, k: Core, buf: seq<Event>, seqNo: int, now: Instant)
    requires Accounted(cs, k.events, k.deliveries)
    requires forall i :: 0 <= i < |buf| ==> ChangeEvent(cs, buf[i].id) && NulFree(buf[i].id)
    requires forall ep :: ep in k.endpoints ==> NulFree(ep)
    ensures var k' := CoreAfter(k, buf, seqNo, now);
      && Accounted(cs, k'.events, k'.deliveries) && k'.endpoints == k.endpoints
      && k.events.Keys <= k'.events.Keys && k.deliveries.Keys <= k'.deliveries.Keys
    decreases |buf|
  {
    if buf != [] {
      var init := buf[..|buf| - 1];
      assert forall i :: 0 <= i < |init| ==> init[i] == buf[i];
      FlushStaysAccounted(cs, k, init, seqNo, now);
      EventStaysAccounted(cs, CoreAfter(k, init, seqNo, now), buf[|buf| - 1], seqNo, now);
    }
  }

  lemma {:induction false} SaveStaysComplete(w: World, cs: seq<Change>, k: nat, max: nat)
    requires InSeqOrder(cs) && NulFreeChanges(cs) && Complete(w, cs) && Ready(w, cs, Save(k, true))
    ensures Complete(Do(w, cs, Save(k, true), max), cs)
  {
    var w', ch := Do(w, cs, Save(k, true), max), cs[k];
    LandedSave(w, cs, k, max);
    FlushStaysAccounted(cs, CoreOf(w.t), ch.events, ch.seqNo, w.now);
    assert AllServed(CoreOf(w'.t), ch.events) by {
      forall f: Event { FlushServes(CoreOf(w.t), ch.events, ch.seqNo, w.now, f); }
    }
    assert CoreOf(w'.t).endpoints == w.t.endpoints;
    forall j, i | 0 <= j < w'.covered && 0 <= i < |cs[j].events| ensures cs[j].events[i].id in w'.t.events {
      if j == k {
        assert Served(CoreOf(w'.t), ch.events[i]);
      }
    }
  }

  lemma {:induction false} WorkStaysComplete(w: World, cs: seq<Change>, step: D.Step, max: nat)
    requires Complete(w, cs) && Ready(w, cs, Work(step))
    ensures Complete(Do(w, cs, Work(step), max), cs)
  {
    var w' := Do(w, cs, Work(step), max);
    WorkKeepsIdentity(SysOf(w), step, max);
    forall id | id in w'.t.deliveries
      ensures FromIndexer(cs, id, w'.t.deliveries[id]) || FromTest(cs, id, w'.t.deliveries[id])
    {
      assert FromIndexer(cs, id, w.t.deliveries[id]) || FromTest(cs, id, w.t.deliveries[id]);
    }
  }

  lemma {:induction false} StepStaysComplete(w: World, cs: seq<Change>, step: WStep, max: nat)
    requires InSeqOrder(cs) && NulFreeChanges(cs) && Complete(w, cs) && Ready(w, cs, step)
    requires step.Subscriptions? ==> forall ep :: ep in step.endpoints ==> NulFree(ep)
    ensures Complete(Do(w, cs, step, max), cs)
  {
    match step
    case Save(k, lands) =>
      if lands {
        SaveStaysComplete(w, cs, k, max);
      }
    case Work(s) => WorkStaysComplete(w, cs, s, max);
    case TestDelivery(d, row) =>
      assert FromTest(cs, d, row);
    case _ =>
  }

  lemma {:induction false} CompleteInEveryRun(w: World, cs: seq<Change>, run: seq<WStep>, max: nat)
    requires InSeqOrder(cs) && NulFreeChanges(cs) && Complete(w, cs)
    requires Legal(w, cs, run, max) && NulFreeSubscriptions(run)
    ensures Complete(End(w, cs, run, max), cs)
    decreases |run|
  {
    if run != [] {
      StepStaysComplete(w, cs, run[0], max);
      CompleteInEveryRun(Do(w, cs, run[0], max), cs, run[1..], max);
    }
  }

  /** The checkpoint is change n's, and the events of changes 0..n are all there. */
  ghost predicate RecordedUpTo(t: Tables, cs: seq<Change>, n: int) {
    && 0 <= n < |cs| && t.checkpoint == Some(cs[n].seqNo)
    && forall k, i :: 0 <= k <= n && 0 <= i < |cs[k].events| ==> cs[k].events[i].id in t.events
  }

  // ---- who gets a delivery, exactly ----

  /** Endpoint ep is active and subscribes to event e's type. */
  ghost predicate Subscribed(endpoints: map<Id, Endpoint>, ep: Id, e: Event) {
    ep in endpoints && endpoints[ep].active && e.kind in endpoints[ep].kinds
  }

  lemma {:induction false} SavedIsThere(w: World, cs: seq<Change>, k: nat, max: nat, i: nat, ep: Id)
    requires InSeqOrder(cs) && CheckpointAt(w, cs) && Ready(w, cs, Save(k, true))
    requires i < |cs[k].events| && Subscribed(w.t.endpoints, ep, cs[k].events[i])
    ensures DeliveryId(cs[k].events[i].id, ep) in Do(w, cs, Save(k, true), max).t.deliveries
  {
    var ch := cs[k];
    FlushSavesRows(w.t, ch.events, ch.seqNo, w.now);
    var id := DeliveryId(ch.events[i].id, ep);
    assert Addresses(w.t.endpoints, ch.events[i], ep, id);
    assert DeliverySaved(w.t, Do(w, cs, Save(k, true), max).t, ch.events, w.now, id);
  }

  /**
   * Whatever happened before and whatever happens after: when a change is committed, each of its
   * events has, from then on, exactly one delivery for each endpoint active and subscribed at that
   * moment.
   */
  lemma {:induction false} EveryMatchHasOneDelivery(
      w: World, cs: seq<Change>, before: seq<WStep>, k: nat, rest: seq<WStep>, max: nat, i: nat, ep: Id)
    requires Fresh(w) && NulFreeEndpoints(w) && InSeqOrder(cs) && NulFreeChanges(cs)
    requires Legal(w, cs, before, max) && NulFreeSubscriptions(before) && NulFreeSubscriptions(rest)
    requires Ready(End(w, cs, before, max), cs, Save(k, true))
    requires Legal(Do(End(w, cs, before, max), cs, Save(k, true), max), cs, rest, max)
    requires i < |cs[k].events|
    requires var now := End(w, cs, before, max).t.endpoints;
      ep in now && now[ep].active && cs[k].events[i].kind in now[ep].kinds
    ensures var end := End(Do(End(w, cs, before, max), cs, Save(k, true), max), cs, rest, max);
      OneDelivery(end.t.deliveries, cs[k].events[i].id, ep)
  {
    var b, e := End(w, cs, before, max), cs[k].events[i].id;
    var saved := Do(b, cs, Save(k, true), max);
    CompleteInEveryRun(w, cs, before, max);
    SaveStaysComplete(b, cs, k, max);
    SavedIsThere(b, cs, k, max, i, ep);
    RunKeepsRows(saved, cs, rest, max);
    CompleteInEveryRun(saved, cs, rest, max);
    var end := End(saved, cs, rest, max);
    PairHasOneDelivery(cs, end.t.events, end.t.deliveries, e, ep);
  }

  /** The step commits a change with event e while ep is active and subscribes to it. */
  ghost predicate Commits(w: World, cs: seq<Change>, step: WStep, e: Id, ep: Id) {
    && step.Save? && step.lands && step.k < |cs|
    && exists i :: 0 <= i < |cs[step.k].events| && cs[step.k].events[i].id == e
         && Subscribed(w.t.endpoints, ep, cs[step.k].events[i])
  }

  ghost predicate EverCommitted(w: World, cs: seq<Change>, run: seq<WStep>, max: nat, e: Id, ep: Id)
    requires Legal(w, cs, run, max)
    decreases |run|
  {
    run != [] && (Commits(w, cs, run[0], e, ep) || EverCommitted(Do(w, cs, run[0], max), cs, run[1..], max, e, ep))
  }

  /**
   * The step commits a change with an event that addresses id, and d has that event's id and
   * encoding and the url and secret its endpoint has at that moment.
   */
  ghost predicate Makes(w: World, cs: seq<Change>, step: WStep, id: Id, d: Outbox.Delivery) {
    && step.Save? && step.lands && step.k < |cs|
    && exists i, ep :: 0 <= i < |cs[step.k].events| && Addresses(w.t.endpoints, cs[step.k].events[i], ep, id)
         && d.endpoint == ep && d.event == cs[step.k].events[i].id
         && d.url == w.t.endpoints[ep].url && d.secret == w.t.endpoints[ep].secret
         && cs[step.k].events[i].encoded == Some(d.payload)
  }

  ghost predicate EverMade(w: World, cs: seq<Change>, run: seq<WStep>, max: nat, id: Id, d: Outbox.Delivery)
    requires Legal(w, cs, run, max)
    decreases |run|
  {
    run != [] && (Makes(w, cs, run[0], id, d) || EverMade(Do(w, cs, run[0], max), cs, run[1..], max, id, d))
  }

  /** A derived id that is new after a step was made by it. */
  lemma {:induction false} NewIsMade(w: World, cs: seq<Change>, step: WStep, max: nat, id: Id, d: Outbox.Delivery)
    requires Ready(w, cs, step) && !Minted(id) && id !in w.t.deliveries
    requires id in Do(w, cs, step, max).t.deliveries && SameContent(Do(w, cs, step, max).t.deliveries[id], d)
    ensures Makes(w, cs, step, id, d)
  {
    if step.Work? {
      WorkKeepsIdentity(SysOf(w), step.step, max);
    }
    var ch, t' := cs[step.k], Do(w, cs, step, max).t;
    FlushSavesRows(w.t, ch.events, ch.seqNo, w.now);
    assert DeliverySaved(w.t, t', ch.events, w.now, id);
    var i, ep :| MadeBy(t'.deliveries[id], id, w.t.endpoints, ch.events, i, ep, w.now);
  }

  lemma {:induction false} OldOrMade(w: World, cs: seq<Change>, run: seq<WStep>, max: nat, id: Id)
    requires Legal(w, cs, run, max) && !Minted(id) && id in End(w, cs, run, max).t.deliveries
    ensures id in w.t.deliveries || EverMade(w, cs, run, max, id, End(w, cs, run, max).t.deliveries[id])
    decreases |run|
  {
    if run != [] && id !in w.t.deliveries {
      var w', d := Do(w, cs, run[0], max), End(w, cs, run, max).t.deliveries[id];
      OldOrMade(w', cs, run[1..], max, id);
      if id in w'.t.deliveries {
        RunKeepsRows(w', cs, run[1..], max);
        NewIsMade(w, cs, run[0], max, id, d);
      }
    }
  }

  /**
   * Every delivery the indexer made comes from a commit of its event at which its endpoint was
   * active and subscribed, and says to this day what the event and the endpoint said then.
   */
  lemma {:induction false} EveryDeliveryWasMade(w: World, cs: seq<Change>, run: seq<WStep>, max: nat, id: Id)
    requires Fresh(w) && Legal(w, cs, run, max)
    requires id in End(w, cs, run, max).t.deliveries && !Minted(id)
    ensures EverMade(w, cs, run, max, id, End(w, cs, run, max).t.deliveries[id])
  {
    OldOrMade(w, cs, run, max, id);
  }

  lemma {:induction false} CommittedIsThere(w: World, cs: seq<Change>, run: seq<WStep>, max: nat, e: Id, ep: Id)
    requires InSeqOrder(cs) && NulFreeChanges(cs) && Complete(w, cs)
    requires Legal(w, cs, run, max) && NulFreeSubscriptions(run) && EverCommitted(w, cs, run, max, e, ep)
    ensures DeliveryId(e, ep) in End(w, cs, run, max).t.deliveries && NulFree(e) && NulFree(ep)
    decreases |run|
  {
    var step, w' := run[0], Do(w, cs, run[0], max);
    if Commits(w, cs, step, e, ep) {
      var i :| 0 <= i < |cs[step.k].events| && cs[step.k].events[i].id == e
        && Subscribed(w.t.endpoints, ep, cs[step.k].events[i]);
      SavedIsThere(w, cs, step.k, max, i, ep);
      RunKeepsRows(w', cs, run[1..], max);
    } else {
      StepStaysComplete(w, cs, step, max);
      CommittedIsThere(w', cs, run[1..], max, e, ep);
    }
  }

  lemma {:induction false} MadeIsCommitted(w: World, cs: seq<Change>, run: seq<WStep>, max: nat, id: Id,
      d: Outbox.Delivery)
    requires Legal(w, cs, run, max) && EverMade(w, cs, run, max, id, d)
    ensures EverCommitted(w, cs, run, max, d.event, d.endpoint)
    decreases |run|
  {
    if Makes(w, cs, run[0], id, d) {
      var step := run[0];
      var i, ep :| 0 <= i < |cs[step.k].events| && Addresses(w.t.endpoints, cs[step.k].events[i], ep, id)
        && d.endpoint == ep && d.event == cs[step.k].events[i].id;
      assert Subscribed(w.t.endpoints, ep, cs[step.k].events[i]);
    } else {
      MadeIsCommitted(Do(w, cs, run[0], max), cs, run[1..], max, id, d);
    }
  }

  /**
   * At the end of any run an event of the node has exactly one delivery to an endpoint if some
   * commit of the event found the endpoint active and subscribed, and none otherwise.
   */
  lemma {:induction false} DeliveredIff(w: World, cs: seq<Change>, run: seq<WStep>, max: nat, e: Id, ep: Id)
    requires Fresh(w) && NulFreeEndpoints(w) && InSeqOrder(cs) && NulFreeChanges(cs) && ChangeEvent(cs, e)
    requires Legal(w, cs, run, max) && NulFreeSubscriptions(run)
    ensures var rows := End(w, cs, run, max).t.deliveries;
      && (EverCommitted(w, cs, run, max, e, ep) ==> OneDelivery(rows, e, ep))
      && (!EverCommitted(w, cs, run, max, e, ep) ==>
            forall id :: id in rows ==> rows[id].event != e || rows[id].endpoint != ep)
  {
    var end := End(w, cs, run, max);
    CompleteInEveryRun(w, cs, run, max);
    if EverCommitted(w, cs, run, max, e, ep) {
      CommittedIsThere(w, cs, run, max, e, ep);
      PairHasOneDelivery(cs, end.t.events, end.t.deliveries, e, ep);
    }
    forall id | id in end.t.deliveries && end.t.deliveries[id].event == e && end.t.deliveries[id].endpoint == ep
      ensures EverCommitted(w, cs, run, max, e, ep)
    {
      assert FromIndexer(cs, id, end.t.deliveries[id]);
      DeliveryIdLayout(e, ep);
      assert "dlv_" <= id;
      EveryDeliveryWasMade(w, cs, run, max, id);
      MadeIsCommitted(w, cs, run, max, id, end.t.deliveries[id]);
    }
  }

  /**
   * From empty tables, after any interleaving: each pair of an event and an endpoint that some
   * commit found subscribed has exactly one delivery; every delivery's event is recorded; and the
   * checkpoint is the seq of a change whose events, and all earlier changes' events, are recorded.
   */
  lemma {:induction false} OutboxIsComplete(w: World, cs: seq<Change>, run: seq<WStep>, max: nat)
    requires Fresh(w) && NulFreeEndpoints(w)
    requires InSeqOrder(cs) && NulFreeChanges(cs) && Legal(w, cs, run, max) && NulFreeSubscriptions(run)
    ensures var f := End(w, cs, run, max);
      && (forall e, ep :: EverCommitted(w, cs, run, max, e, ep) ==> OneDelivery(f.t.deliveries, e, ep))
      && (forall id :: id in f.t.deliveries ==> f.t.deliveries[id].event in f.t.events)
      && (f.t.checkpoint.Some? ==> exists n :: RecordedUpTo(f.t, cs, n))
  {
    CompleteInEveryRun(w, cs, run, max);
    var f := End(w, cs, run, max);
    forall e, ep | EverCommitted(w, cs, run, max, e, ep) ensures OneDelivery(f.t.deliveries, e, ep) {
      CommittedIsEvent(w, cs, run, max, e, ep);
      DeliveredIff(w, cs, run, max, e, ep);
    }
    if f.t.checkpoint.Some? {
      assert RecordedUpTo(f.t, cs, f.next - 1);
    }
  }

  lemma {:induction false} CommittedIsEvent(w: World, cs: seq<Change>, run: seq<WStep>, max: nat, e: Id, ep: Id)
    requires Legal(w, cs, run, max) && EverCommitted(w, cs, run, max, e, ep)
    ensures ChangeEvent(cs, e)
    decreases |run|
  {
    if !Commits(w, cs, run[0], e, ep) {
      CommittedIsEvent(Do(w, cs, run[0], max), cs, run[1..], max, e, ep);
    }
  }
}
