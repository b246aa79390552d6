/**
 * Crash, restart, redeliver: the tables converge to those of one clean in-order run.
 *
 * The tables are read as independent cells. Some cells keep the first value written
 * (event rows, payments.created_at, invoice asset and amount, settled orders, deliveries),
 * the others keep the last one. Redelivery reorders writes only within limits that both
 * kinds of cell survive.
 */
module Convergence {
  import opened Basics
  import Outbox
  import opened Derive
  import opened Projection

  datatype Cell =
    | EventCell(id: Id)
    | PaymentCreated(hash: Id)
    | PaymentRest(hash: Id)
    | InvoiceAsset(hash: Id)
    | InvoiceAmount(hash: Id)
    | InvoiceRest(hash: Id)
    | ChannelCell(channel: Id)
    | OrderCell(order: Id)
    | DeliveryCell(delivery: Id)

  datatype Val =
    | EventVal(event: EventRow)
    | TimeVal(at: Instant)
    | TextVal(text: string)
    | AmountVal(amount: nat)
    | PaymentVal(payment: PaymentRow)
    | InvoiceVal(invoice: InvoiceRow)
    | ChannelVal(channel: ChannelRow)
    | OrderVal(order: Order)
    | DeliveryVal(delivery: Outbox.Delivery)

  predicate LastWriterWins(c: Cell) {
    c.PaymentRest? || c.InvoiceRest? || c.ChannelCell?
  }

  /** Writing w, if anything, over r. */
  function Put(c: Cell, r: Option<Val>, w: Option<Val>): Option<Val> {
    if LastWriterWins(c) then Coalesce(w, r) else Coalesce(r, w)
  }

  /** The value a table holds in a cell; an order counts as written once it is no longer unpaid. */
  function Read(t: Tables, c: Cell): Option<Val> {
    match c
    case EventCell(id) => if id in t.events then Some(EventVal(t.events[id])) else None
    case PaymentCreated(h) => if h in t.payments then Some(TimeVal(t.payments[h].createdAt)) else None
    case PaymentRest(h) => if h in t.payments then Some(PaymentVal(t.payments[h].(createdAt := 0))) else None
    case InvoiceAsset(h) =>
      if h in t.invoices && t.invoices[h].asset.Some? then Some(TextVal(t.invoices[h].asset.value)) else None
    case InvoiceAmount(h) =>
      if h in t.invoices && t.invoices[h].amount.Some? then Some(AmountVal(t.invoices[h].amount.value)) else None
    case InvoiceRest(h) =>
      if h in t.invoices then Some(InvoiceVal(t.invoices[h].(asset := None, amount := None))) else None
    case ChannelCell(id) => if id in t.channels then Some(ChannelVal(t.channels[id])) else None
    case OrderCell(o) => if o in t.orders && t.orders[o].status != Unpaid then Some(OrderVal(t.orders[o])) else None
    case DeliveryCell(id) =>
      if id in t.deliveries then Some(DeliveryVal(t.deliveries[id].(due := 0))) else None
  }

  function AsText(s: string): Option<Val> {
    if s == "" then None else Some(TextVal(s))
  }

  /** What event e of change seqNo writes into a cell, given the fixed endpoints and orders of t0. */
  ghost function Write(t0: Tables, e: Event, seqNo: int, c: Cell): Option<Val> {
    match c
    case EventCell(id) => if id == e.id then Some(EventVal(RowOf(e, seqNo))) else None
    case DeliveryCell(id) =>
      if e.encoded.Some? && id in FanOut(t0.endpoints, Matching(t0.endpoints, e.kind), e, 0)
      then Some(DeliveryVal(FanOut(t0.endpoints, Matching(t0.endpoints, e.kind), e, 0)[id])) else None
    case ChannelCell(id) =>
      if e.kind.ChannelOpened? && e.data.channelOpened.Some? && e.data.channelOpened.value.channel == id
      then
        var d := e.data.channelOpened.value;
        Some(ChannelVal(ChannelRow(NullText(d.peer), "open", Some(d.capacity), e.createdAt)))
      else None
    case _ =>
      if e.kind.InvoicePaid? && e.data.invoicePaid.Some? then InvoiceWrite(t0, e.data.invoicePaid.value, c)
      else if e.kind.PaymentReceived? && e.data.paymentReceived.Some? then
        PaymentWrite(e.data.paymentReceived.value, e.createdAt, c)
      else None
  }

  function InvoiceWrite(t0: Tables, d: InvoicePaidData, c: Cell): Option<Val> {
    match c
    case InvoiceAsset(h) => if h == d.hash then AsText(d.asset) else None
    case InvoiceAmount(h) => if h == d.hash then Some(AmountVal(d.amount)) else None
    case InvoiceRest(h) => if h == d.hash then Some(InvoiceVal(InvoiceRow("paid", None, None, d.settledAt))) else None
    case OrderCell(o) =>
      if o in t0.orders && t0.orders[o].invoice == Some(d.hash)
      then Some(OrderVal(t0.orders[o].(status := Paid, paidAt := Some(d.settledAt)))) else None
    case _ => None
  }

  function PaymentWrite(d: PaymentReceivedData, at: Instant, c: Cell): Option<Val> {
    match c
    case PaymentCreated(h) => if h == d.hash then Some(TimeVal(at)) else None
    case PaymentRest(h) =>
      if h == d.hash then
        Some(PaymentVal(
            PaymentRow("received", "succeeded", NullText(d.asset), Some(d.amount), NullText(d.payer), 0, at)))
      else None
    case _ => None
  }

  /** Nobody but the projector has touched endpoints and orders since t0. */
  ghost predicate SameSurroundings(t0: Tables, t: Tables) {
    && t.endpoints == t0.endpoints
    && t.orders.Keys == t0.orders.Keys
    && forall o :: o in t.orders ==>
         && t.orders[o].invoice == t0.orders[o].invoice
         && (t.orders[o].status == Unpaid ==> t.orders[o] == t0.orders[o])
  }

  lemma {:induction false} InvoiceStatementWrites(t0: Tables, t: Tables, d: InvoicePaidData, c: Cell)
    requires SameSurroundings(t0, t) && !c.EventCell? && !c.DeliveryCell? && !c.ChannelCell?
    ensures var t' := ProjectInvoicePaid(t, d);
      SameSurroundings(t0, t') && Read(t', c) == Put(c, Read(t, c), InvoiceWrite(t0, d, c))
  {
  }

  lemma {:induction false} PaymentStatementWrites(t0: Tables, t: Tables, d: PaymentReceivedData, at: Instant, c: Cell)
    requires SameSurroundings(t0, t) && !c.EventCell? && !c.DeliveryCell? && !c.ChannelCell?
    ensures var t' := t.(payments := UpsertPayment(t.payments, d, at));
      SameSurroundings(t0, t') && Read(t', c) == Put(c, Read(t, c), PaymentWrite(d, at, c))
  {
  }

  lemma {:induction false} ChannelStatementWrites(t0: Tables, t: Tables, e: Event, seqNo: int, c: Cell)
    requires SameSurroundings(t0, t) && e.kind.ChannelOpened? && e.data.channelOpened.Some?
    requires !c.EventCell? && !c.DeliveryCell?
    ensures var t' := t.(channels := UpsertChannel(t.channels, e.data.channelOpened.value, e.createdAt));
      SameSurroundings(t0, t') && Read(t', c) == Put(c, Read(t, c), Write(t0, e, seqNo, c))
  {
  }

  lemma {:induction false} ProjectWrites(t0: Tables, t: Tables, e: Event, seqNo: int, c: Cell)
    requires SameSurroundings(t0, t) && Project(t, e).Ok? && !c.EventCell? && !c.DeliveryCell?
    ensures SameSurroundings(t0, Project(t, e).value)
    ensures Read(Project(t, e).value, c) == Put(c, Read(t, c), Write(t0, e, seqNo, c))
  {
    match e.kind
    case InvoicePaid =>
      if !c.ChannelCell? {
        InvoiceStatementWrites(t0, t, e.data.invoicePaid.value, c);
      }
    case PaymentReceived =>
      if !c.ChannelCell? {
        PaymentStatementWrites(t0, t, e.data.paymentReceived.value, e.createdAt, c);
      }
    case ChannelOpened => ChannelStatementWrites(t0, t, e, seqNo, c);
    case OtherKind(_) =>
  }

  /** The read-model statements leave events, endpoints and deliveries alone. */
  lemma {:induction false} ProjectKeeps(t: Tables, e: Event)
    requires Project(t, e).Ok?
    ensures var t' := Project(t, e).value;
      t' == t.(payments := t'.payments, invoices := t'.invoices, channels := t'.channels, orders := t'.orders)
  {
    match e.kind
    case InvoicePaid =>
    case PaymentReceived =>
    case ChannelOpened =>
    case OtherKind(_) =>
  }

  /** When a fan-out happens shows only in the due times. */
  lemma {:induction false} FanOutTime(endpoints: map<Id, Endpoint>, eps: set<Id>, e: Event, now: Instant, id: Id)
    requires e.encoded.Some? && eps <= endpoints.Keys
    ensures id in FanOut(endpoints, eps, e, now) <==> id in FanOut(endpoints, eps, e, 0)
    ensures id in FanOut(endpoints, eps, e, 0) ==>
      FanOut(endpoints, eps, e, now)[id].(due := 0) == FanOut(endpoints, eps, e, 0)[id]
  {
    if id in FanOut(endpoints, eps, e, 0) {
      var ep := TargetOf(eps, e.id, id);
      FanOutAt(endpoints, eps, e, now, ep);
      FanOutAt(endpoints, eps, e, 0, ep);
    }
  }

  /** The delivery row enqueueing leaves at an id: the one there, else the fanned-out one. */
  lemma {:induction false} EnqueueAt(t: Tables, e: Event, now: Instant, id: Id)
    requires Enqueue(t, e, now).Ok?
    ensures var rows, eps := Enqueue(t, e, now).value.deliveries, Matching(t.endpoints, e.kind);
      && (id in t.deliveries ==> id in rows && rows[id] == t.deliveries[id])
      && (id !in t.deliveries ==>
            (id in rows <==> e.encoded.Some? && id in FanOut(t.endpoints, eps, e, now))
            && (id in rows ==> rows[id] == FanOut(t.endpoints, eps, e, now)[id]))
  {
    if e.encoded.Some? && Matching(t.endpoints, e.kind) == {} {
      assert id !in FanOut(t.endpoints, Matching(t.endpoints, e.kind), e, now);
    }
  }

  lemma {:induction false} EnqueueWrites(t0: Tables, t: Tables, e: Event, now: Instant, seqNo: int, id: Id)
    requires t.endpoints == t0.endpoints && Enqueue(t, e, now).Ok?
    ensures Read(Enqueue(t, e, now).value, DeliveryCell(id)) ==
      Coalesce(Read(t, DeliveryCell(id)), Write(t0, e, seqNo, DeliveryCell(id)))
  {
    var eps := Matching(t0.endpoints, e.kind);
    EnqueueAt(t, e, now, id);
    if e.encoded.Some? {
      FanOutTime(t0.endpoints, eps, e, now, id);
    }
  }

  lemma {:induction false} EnqueueKeeps(t: Tables, e: Event, now: Instant)
    requires Enqueue(t, e, now).Ok?
    ensures Enqueue(t, e, now).value == t.(deliveries := Enqueue(t, e, now).value.deliveries)
  {
  }

  lemma {:induction false} DeliveryWrites(t0: Tables, t: Tables, e: Event, seqNo: int, now: Instant, id: Id)
    requires SameSurroundings(t0, t) && ApplyEvent(t, e, seqNo, now).Ok?
    ensures var c := DeliveryCell(id);
      Read(ApplyEvent(t, e, seqNo, now).value, c) == Coalesce(Read(t, c), Write(t0, e, seqNo, c))
  {
    var t1 := t.(events := InsertEvent(t.events, e, seqNo));
    ProjectKeeps(t1, e);
    EnqueueWrites(t0, Project(t1, e).value, e, now, seqNo, id);
  }

  lemma {:induction false} OutsideTheOutbox(t: Tables, t': Tables, c: Cell)
    requires t' == t.(deliveries := t'.deliveries) && !c.DeliveryCell?
    ensures Read(t', c) == Read(t, c)
  {
  }

  lemma {:induction false} EventWritesCell(t0: Tables, t: Tables, e: Event, seqNo: int, now: Instant, c: Cell)
    requires SameSurroundings(t0, t) && ApplyEvent(t, e, seqNo, now).Ok?
    ensures Read(ApplyEvent(t, e, seqNo, now).value, c) == Put(c, Read(t, c), Write(t0, e, seqNo, c))
  {
    var t1 := t.(events := InsertEvent(t.events, e, seqNo));
    var t2 := Project(t1, e).value;
    ProjectKeeps(t1, e);
    EnqueueKeeps(t2, e, now);
    match c
    case EventCell(_) =>
    case DeliveryCell(id) => DeliveryWrites(t0, t, e, seqNo, now, id);
    case _ =>
      ProjectWrites(t0, t1, e, seqNo, c);
      OutsideTheOutbox(t2, ApplyEvent(t, e, seqNo, now).value, c);
      assert Read(t1, c) == Read(t, c);
  }

  lemma {:induction false} EventKeepsSurroundings(t0: Tables, t: Tables, e: Event, seqNo: int, now: Instant)
    requires SameSurroundings(t0, t) && ApplyEvent(t, e, seqNo, now).Ok?
    ensures SameSurroundings(t0, ApplyEvent(t, e, seqNo, now).value)
  {
    var t1 := t.(events := InsertEvent(t.events, e, seqNo));
    ProjectKeeps(t1, e);
    EnqueueKeeps(Project(t1, e).value, e, now);
    ProjectWrites(t0, t1, e, seqNo, ChannelCell(e.id));
  }

  lemma {:induction false} EventWrites(t0: Tables, t: Tables, e: Event, seqNo: int, now: Instant)
    requires SameSurroundings(t0, t) && ApplyEvent(t, e, seqNo, now).Ok?
    ensures var t' := ApplyEvent(t, e, seqNo, now).value;
      && SameSurroundings(t0, t')
      && forall c :: Read(t', c) == Put(c, Read(t, c), Write(t0, e, seqNo, c))
  {
    forall c ensures Read(ApplyEvent(t, e, seqNo, now).value, c) == Put(c, Read(t, c), Write(t0, e, seqNo, c)) {
      EventWritesCell(t0, t, e, seqNo, now, c);
    }
    EventKeepsSurroundings(t0, t, e, seqNo, now);
  }

  /** All the writes of one change, folded by the cell's own rule. */
  ghost function WriteAll(t0: Tables, buf: seq<Event>, seqNo: int, c: Cell): Option<Val>
    decreases |buf|
  {
    if buf == [] then None else
      Put(c, WriteAll(t0, buf[..|buf| - 1], seqNo, c), Write(t0, buf[|buf| - 1], seqNo, c))
  }

  lemma {:induction false} BufferWrites(t0: Tables, t: Tables, buf: seq<Event>, seqNo: int, now: Instant)
    requires SameSurroundings(t0, t) && ApplyAll(t, buf, seqNo, now).Ok?
    ensures var t' := ApplyAll(t, buf, seqNo, now).value;
      && SameSurroundings(t0, t')
      && forall c :: Read(t', c) == Put(c, Read(t, c), WriteAll(t0, buf, seqNo, c))
    decreases |buf|
  {
    if buf != [] {
      BufferWrites(t0, t, buf[..|buf| - 1], seqNo, now);
      EventWrites(t0, ApplyAll(t, buf[..|buf| - 1], seqNo, now).value, buf[|buf| - 1], seqNo, now);
    }
  }

  lemma {:induction false} CheckpointIsNoCell(t: Tables, checkpoint: Option<int>, c: Cell)
    ensures Read(t.(checkpoint := checkpoint), c) == Read(t, c)
  {
  }

  lemma {:induction false} FlushWrites(t0: Tables, t: Tables, buf: seq<Event>, seqNo: int, now: Instant)
    requires SameSurroundings(t0, t) && Flush(t, buf, seqNo, now).Ok?
    ensures var t' := Flush(t, buf, seqNo, now).value;
      && SameSurroundings(t0, t') && t'.checkpoint == Some(seqNo)
      && forall c :: Read(t', c) == Put(c, Read(t, c), WriteAll(t0, buf, seqNo, c))
  {
    BufferWrites(t0, t, buf, seqNo, now);
    var t1, t' := ApplyAll(t, buf, seqNo, now).value, Flush(t, buf, seqNo, now).value;
    forall c ensures Read(t', c) == Read(t1, c) {
      CheckpointIsNoCell(t1, Some(seqNo), c);
    }
  }

  // ---- deliveries of changes ----

  /** A raw change with its normalised events. */
  datatype Change = Change(seqNo: int, events: seq<Event>)

  ghost predicate InSeqOrder(cs: seq<Change>) {
    forall i, j :: 0 <= i < j < |cs| ==> cs[i].seqNo < cs[j].seqNo
  }

  /** One attempt to Save change k: it lands, or its transaction is rolled back. */
  datatype Attempt = Attempt(k: nat, now: Instant, lands: bool)

  /** The runner starts no later than the change after the committed checkpoint. */
  predicate StartsInTime(t: Tables, cs: seq<Change>, k: nat) {
    && k < |cs|
    && (k > 0 ==> t.checkpoint.Some? && cs[k - 1].seqNo <= t.checkpoint.value)
  }

  ghost predicate Allowed(t: Tables, cs: seq<Change>, a: Attempt) {
    StartsInTime(t, cs, a.k) && (a.lands ==> Flush(t, cs[a.k].events, cs[a.k].seqNo, a.now).Ok?)
  }

  ghost function Tried(t: Tables, cs: seq<Change>, a: Attempt): Tables
    requires Allowed(t, cs, a)
  {
    if a.lands then Flush(t, cs[a.k].events, cs[a.k].seqNo, a.now).value else t
  }

  ghost predicate History(t: Tables, cs: seq<Change>, run: seq<Attempt>)
    decreases |run|
  {
    run != [] ==> Allowed(t, cs, run[0]) && History(Tried(t, cs, run[0]), cs, run[1..])
  }

  ghost function Outcome(t: Tables, cs: seq<Change>, run: seq<Attempt>): Tables
    requires History(t, cs, run)
    decreases |run|
  {
    if run == [] then t else Outcome(Tried(t, cs, run[0]), cs, run[1..])
  }

  /** Every change once, in order, nothing failing. */
  ghost function CleanRun(t: Tables, cs: seq<Change>, now: Instant): Result<Tables, Error>
    decreases |cs|
  {
    if cs == [] then Ok(t) else
      match CleanRun(t, cs[..|cs| - 1], now)
      case Err(x) => Err(x)
      case Ok(t') => Flush(t', cs[|cs| - 1].events, cs[|cs| - 1].seqNo, now)
  }

  // ---- what a run of changes leaves in one cell ----

  ghost function ChangeWrites(t0: Tables, cs: seq<Change>, k: nat, c: Cell): Option<Val>
    requires k < |cs|
  {
    WriteAll(t0, cs[k].events, cs[k].seqNo, c)
  }

  /** Changes a, a+1, ..., b-1 written over r. */
  ghost function PutRange(t0: Tables, cs: seq<Change>, a: nat, b: nat, c: Cell, r: Option<Val>): Option<Val>
    requires a <= b <= |cs|
    decreases b - a
  {
    if a == b then r else PutRange(t0, cs, a + 1, b, c, Put(c, r, ChangeWrites(t0, cs, a, c)))
  }

  lemma {:induction false} RangeIsOneWrite(t0: Tables, cs: seq<Change>, a: nat, b: nat, c: Cell, r: Option<Val>)
    requires a <= b <= |cs|
    ensures PutRange(t0, cs, a, b, c, r) == Put(c, r, PutRange(t0, cs, a, b, c, None))
    decreases b - a
  {
    if a < b {
      var w := ChangeWrites(t0, cs, a, c);
      RangeIsOneWrite(t0, cs, a + 1, b, c, Put(c, r, w));
      RangeIsOneWrite(t0, cs, a + 1, b, c, Put(c, None, w));
    }
  }

  lemma {:induction false} RangeSplits(t0: Tables, cs: seq<Change>, a: nat, m: nat, b: nat, c: Cell, r: Option<Val>)
    requires a <= m <= b <= |cs|
    ensures PutRange(t0, cs, a, b, c, r) == PutRange(t0, cs, m, b, c, PutRange(t0, cs, a, m, c, r))
    decreases m - a
  {
    if a < m {
      RangeSplits(t0, cs, a + 1, m, b, c, Put(c, r, ChangeWrites(t0, cs, a, c)));
    }
  }

  /**
   * One cell of a run that has committed changes 0..m-1, change `next - 1` most recently:
   * a first-writer cell already holds its value for those m changes, and a last-writer cell
   * would be right if the remaining changes followed now without interruption.
   */
  ghost predicate CellOnTrack(t0: Tables, cs: seq<Change>, next: nat, m: nat, c: Cell, r: Option<Val>)
    requires next <= m <= |cs|
  {
    if LastWriterWins(c)
    then PutRange(t0, cs, next, |cs|, c, r) == PutRange(t0, cs, 0, |cs|, c, Read(t0, c))
    else r == PutRange(t0, cs, 0, m, c, Read(t0, c))
  }

  lemma {:induction false} CellStaysOnTrack(t0: Tables, cs: seq<Change>, next: nat, m: nat, c: Cell, r: Option<Val>,
      k: nat)
    requires next <= m <= |cs| && k <= next && k < |cs|
    requires CellOnTrack(t0, cs, next, m, c, r)
    ensures CellOnTrack(t0, cs, k + 1, Max(m, k + 1), c, Put(c, r, ChangeWrites(t0, cs, k, c)))
  {
    var n, w, r0 := |cs|, ChangeWrites(t0, cs, k, c), Read(t0, c);
    if LastWriterWins(c) {
      assert PutRange(t0, cs, k + 1, n, c, Put(c, r, w)) == PutRange(t0, cs, k, n, c, r);
      RangeSplits(t0, cs, k, next, n, c, None);
      RangeSplits(t0, cs, 0, k, n, c, r0);
      RangeIsOneWrite(t0, cs, next, n, c, r);
      RangeIsOneWrite(t0, cs, next, n, c, PutRange(t0, cs, k, next, c, None));
      RangeIsOneWrite(t0, cs, k, n, c, r);
      RangeIsOneWrite(t0, cs, k, n, c, PutRange(t0, cs, 0, k, c, r0));
    } else if k == m {
      RangeSplits(t0, cs, 0, m, m + 1, c, r0);
    } else {
      RangeSplits(t0, cs, 0, k, m, c, r0);
      var before := PutRange(t0, cs, 0, k, c, r0);
      assert PutRange(t0, cs, k, m, c, before) == PutRange(t0, cs, k + 1, m, c, Put(c, before, w));
      RangeIsOneWrite(t0, cs, k + 1, m, c, Put(c, before, w));
    }
  }

  /** The whole database of such a run. */
  ghost predicate OnTrack(t0: Tables, t: Tables, cs: seq<Change>, next: nat, m: nat) {
    && next <= m <= |cs|
    && SameSurroundings(t0, t)
    && t.checkpoint == (if next == 0 then None else Some(cs[next - 1].seqNo))
    && (forall c :: CellOnTrack(t0, cs, next, m, c, Read(t, c)))
    && forall k :: 0 <= k < m ==> Acceptable(t0.endpoints, cs[k].events)
  }

  /** The payload decodes, and the event encodes if any active endpoint subscribes to its type. */
  ghost predicate AcceptableEvent(endpoints: map<Id, Endpoint>, e: Event) {
    && (e.kind.InvoicePaid? ==> e.data.invoicePaid.Some?)
    && (e.kind.PaymentReceived? ==> e.data.paymentReceived.Some?)
    && (e.kind.ChannelOpened? ==> e.data.channelOpened.Some?)
    && ((exists ep :: ep in endpoints && endpoints[ep].active && e.kind in endpoints[ep].kinds) ==> e.encoded.Some?)
  }

  ghost predicate Acceptable(endpoints: map<Id, Endpoint>, buf: seq<Event>) {
    forall i :: 0 <= i < |buf| ==> AcceptableEvent(endpoints, buf[i])
  }

  lemma {:induction false} EventSucceedsIff(t: Tables, e: Event, seqNo: int, now: Instant)
    ensures ApplyEvent(t, e, seqNo, now).Ok? <==> AcceptableEvent(t.endpoints, e)
    ensures ApplyEvent(t, e, seqNo, now).Ok? ==> ApplyEvent(t, e, seqNo, now).value.endpoints == t.endpoints
  {
    var t1, eps := t.(events := InsertEvent(t.events, e, seqNo)), Matching(t.endpoints, e.kind);
    if Project(t1, e).Ok? {
      ProjectKeeps(t1, e);
    }
    if ep :| ep in t.endpoints && t.endpoints[ep].active && e.kind in t.endpoints[ep].kinds {
      assert ep in eps;
    } else {
      assert eps == {};
    }
  }

  lemma {:induction false} FlushSucceedsIff(t: Tables, buf: seq<Event>, seqNo: int, now: Instant)
    ensures ApplyAll(t, buf, seqNo, now).Ok? <==> Acceptable(t.endpoints, buf)
    ensures ApplyAll(t, buf, seqNo, now).Ok? ==> ApplyAll(t, buf, seqNo, now).value.endpoints == t.endpoints
    ensures Flush(t, buf, seqNo, now).Ok? <==> Acceptable(t.endpoints, buf)
    decreases |buf|
  {
    if buf != [] {
      var init, e := buf[..|buf| - 1], buf[|buf| - 1];
      FlushSucceedsIff(t, init, seqNo, now);
      assert Acceptable(t.endpoints, buf) <==> Acceptable(t.endpoints, init) && AcceptableEvent(t.endpoints, e) by {
        assert forall i :: 0 <= i < |init| ==> init[i] == buf[i];
      }
      if ApplyAll(t, init, seqNo, now).Ok? {
        EventSucceedsIff(ApplyAll(t, init, seqNo, now).value, e, seqNo, now);
      }
    }
  }

  lemma {:induction false} AttemptStaysOnTrack(t0: Tables, t: Tables, cs: seq<Change>, next: nat, m: nat, a: Attempt)
    requires InSeqOrder(cs) && OnTrack(t0, t, cs, next, m) && Allowed(t, cs, a) && a.lands
    ensures OnTrack(t0, Tried(t, cs, a), cs, a.k + 1, Max(m, a.k + 1))
  {
    var ch := cs[a.k];
    assert a.k <= next;
    FlushWrites(t0, t, ch.events, ch.seqNo, a.now);
    FlushSucceedsIff(t, ch.events, ch.seqNo, a.now);
    var t' := Tried(t, cs, a);
    forall c ensures CellOnTrack(t0, cs, a.k + 1, Max(m, a.k + 1), c, Read(t', c)) {
      CellStaysOnTrack(t0, cs, next, m, c, Read(t, c), a.k);
    }
  }

  function NextOf(a: Attempt, next: nat): nat {
    if a.lands then a.k + 1 else next
  }

  function NewestOf(a: Attempt, m: nat): nat {
    if a.lands then Max(m, a.k + 1) else m
  }

  /** One past the change committed last. */
  function NextAfter(run: seq<Attempt>, next: nat): nat {
    if run == [] then next else NextAfter(run[1..], NextOf(run[0], next))
  }

  /** One past the newest change ever committed. */
  function NewestAfter(run: seq<Attempt>, m: nat): nat {
    if run == [] then m else NewestAfter(run[1..], NewestOf(run[0], m))
  }

  lemma {:induction false} RunStaysOnTrack(t0: Tables, t: Tables, cs: seq<Change>, run: seq<Attempt>, next: nat, m: nat)
      returns (next': nat, m': nat)
    requires InSeqOrder(cs) && OnTrack(t0, t, cs, next, m) && History(t, cs, run)
    ensures OnTrack(t0, Outcome(t, cs, run), cs, next', m')
    ensures next' == NextAfter(run, next) && m' == NewestAfter(run, m)
    decreases |run|
  {
    if run == [] {
      next', m' := next, m;
    } else if run[0].lands {
      AttemptStaysOnTrack(t0, t, cs, next, m, run[0]);
      next', m' := RunStaysOnTrack(t0, Tried(t, cs, run[0]), cs, run[1..], run[0].k + 1, Max(m, run[0].k + 1));
    } else {
      next', m' := RunStaysOnTrack(t0, t, cs, run[1..], next, m);
    }
  }

  lemma {:induction false} CleanRunWrites(t0: Tables, cs: seq<Change>, n: nat, now: Instant)
    requires n <= |cs| && forall k :: 0 <= k < n ==> Acceptable(t0.endpoints, cs[k].events)
    ensures CleanRun(t0, cs[..n], now).Ok?
    ensures var t := CleanRun(t0, cs[..n], now).value;
      && SameSurroundings(t0, t)
      && (n > 0 ==> t.checkpoint == Some(cs[n - 1].seqNo))
      && forall c :: Read(t, c) == PutRange(t0, cs, 0, n, c, Read(t0, c))
  {
    if n > 0 {
      CleanRunWrites(t0, cs, n - 1, now);
      var prefix, ch := cs[..n], cs[n - 1];
      assert prefix[..|prefix| - 1] == cs[..n - 1];
      var t1 := CleanRun(t0, cs[..n - 1], now).value;
      FlushSucceedsIff(t1, ch.events, ch.seqNo, now);
      FlushWrites(t0, t1, ch.events, ch.seqNo, now);
      var t := CleanRun(t0, cs[..n], now).value;
      forall c ensures Read(t, c) == PutRange(t0, cs, 0, n, c, Read(t0, c)) {
        RangeSplits(t0, cs, 0, n - 1, n, c, Read(t0, c));
      }
    }
  }

  /** The same tables, except for when each delivery became due (its ingest time). */
  ghost predicate SameButIngestTime(a: Tables, b: Tables) {
    && a.(deliveries := map[]) == b.(deliveries := map[])
    && a.deliveries.Keys == b.deliveries.Keys
    && forall id :: id in a.deliveries ==> a.deliveries[id].(due := 0) == b.deliveries[id].(due := 0)
  }

  lemma {:induction false} CellsDeterminePayments(a: Tables, b: Tables)
    requires forall c :: Read(a, c) == Read(b, c)
    ensures a.payments == b.payments
  {
    forall h ensures h in a.payments <==> h in b.payments
             ensures h in a.payments ==> a.payments[h] == b.payments[h] {
      assert Read(a, PaymentCreated(h)) == Read(b, PaymentCreated(h));
      assert Read(a, PaymentRest(h)) == Read(b, PaymentRest(h));
    }
  }

  lemma {:induction false} CellsDetermineInvoices(a: Tables, b: Tables)
    requires forall c :: Read(a, c) == Read(b, c)
    ensures a.invoices == b.invoices
  {
    forall h ensures h in a.invoices <==> h in b.invoices
             ensures h in a.invoices ==> a.invoices[h] == b.invoices[h] {
      assert Read(a, InvoiceAsset(h)) == Read(b, InvoiceAsset(h));
      assert Read(a, InvoiceAmount(h)) == Read(b, InvoiceAmount(h));
      assert Read(a, InvoiceRest(h)) == Read(b, InvoiceRest(h));
    }
  }

  lemma {:induction false} CellsDetermineTables(t0: Tables, a: Tables, b: Tables)
    requires SameSurroundings(t0, a) && SameSurroundings(t0, b) && a.checkpoint == b.checkpoint
    requires forall c :: Read(a, c) == Read(b, c)
    ensures SameButIngestTime(a, b)
  {
    forall id ensures id in a.events <==> id in b.events
              ensures id in a.events ==> a.events[id] == b.events[id] {
      assert Read(a, EventCell(id)) == Read(b, EventCell(id));
    }
    assert a.events == b.events;
    CellsDeterminePayments(a, b);
    CellsDetermineInvoices(a, b);
    forall h ensures h in a.channels <==> h in b.channels
             ensures h in a.channels ==> a.channels[h] == b.channels[h] {
      assert Read(a, ChannelCell(h)) == Read(b, ChannelCell(h));
    }
    assert a.channels == b.channels;
    forall o | o in a.orders ensures a.orders[o] == b.orders[o] {
      assert Read(a, OrderCell(o)) == Read(b, OrderCell(o));
    }
    assert a.orders == b.orders;
    forall id ensures id in a.deliveries <==> id in b.deliveries
              ensures id in a.deliveries ==> a.deliveries[id].(due := 0) == b.deliveries[id].(due := 0) {
      assert Read(a, DeliveryCell(id)) == Read(b, DeliveryCell(id));
    }
  }

  /**
   * Any run of rolled-back saves, restarts and in-order redelivery, at the moment the final
   * change is the one most recently committed, has left the tables of one clean run.
   */
  lemma {:induction false} RedeliveryConverges(t0: Tables, cs: seq<Change>, run: seq<Attempt>, now: Instant)
    requires InSeqOrder(cs) && cs != [] && t0.checkpoint == None && History(t0, cs, run)
    requires Outcome(t0, cs, run).checkpoint == Some(cs[|cs| - 1].seqNo)
    ensures CleanRun(t0, cs, now).Ok?
    ensures SameButIngestTime(Outcome(t0, cs, run), CleanRun(t0, cs, now).value)
  {
    var next, m := RunStaysOnTrack(t0, t0, cs, run, 0, 0);
    var n, t := |cs|, Outcome(t0, cs, run);
    assert next == n && m == n;
    CleanRunWrites(t0, cs, n, now);
    assert cs[..n] == cs;
    var clean := CleanRun(t0, cs, now).value;
    forall c ensures Read(t, c) == Read(clean, c) {
      assert CellOnTrack(t0, cs, n, n, c, Read(t, c));
    }
    CellsDetermineTables(t0, t, clean);
  }
}
