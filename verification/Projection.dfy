/**
 * The projector's SQL, statement by statement, on table values: the append-only event row,
 * the three projections with their different conflict rules, merchant order matching, and
 * the webhook fan-out of one event; then one whole Save.
 */
module Projection {
  import opened Basics
  import Outbox
  import opened Derive

  // ---- events, as the library delivers them ----

  /** Event types: the three the projector knows, and any other name. */
  datatype Kind = InvoicePaid | PaymentReceived | ChannelOpened | OtherKind(name: string)

  datatype InvoicePaidData = InvoicePaidData(hash: Id, asset: string, amount: nat, settledAt: Instant)
  datatype PaymentReceivedData = PaymentReceivedData(hash: Id, asset: string, amount: nat, payer: string)
  datatype ChannelOpenedData = ChannelOpenedData(channel: Id, peer: string, capacity: nat)

  /** The raw JSON payload, with what decoding it into each struct yields (None when it fails). */
  datatype Payload = Payload(
    raw: string,
    invoicePaid: Option<InvoicePaidData>,
    paymentReceived: Option<PaymentReceivedData>,
    channelOpened: Option<ChannelOpenedData>)

  /** `encoded` is json.Marshal of the whole event, None when that fails. */
  datatype Event = Event(id: Id, kind: Kind, fiberRef: string, createdAt: Instant, data: Payload,
                         encoded: Option<string>)

  // ---- tables ----

  datatype EventRow = EventRow(
    kind: Kind, fiberRef: Option<string>, asset: Option<string>, amount: Option<nat>,
    data: string, occurredAt: Instant, checkpoint: int)

  datatype PaymentRow = PaymentRow(
    direction: string, status: string, asset: Option<string>, amount: Option<nat>,
    peer: Option<string>, createdAt: Instant, updatedAt: Instant)

  datatype InvoiceRow = InvoiceRow(
    status: string, asset: Option<string>, amount: Option<nat>, settledAt: Instant)

  datatype ChannelRow = ChannelRow(
    peer: Option<string>, state: string, capacity: Option<nat>, openedAt: Instant)

  datatype OrderStatus = Unpaid | Paid | Expired | Refunded

  datatype Order = Order(
    merchant: Id, external: Option<string>, invoice: Option<Id>, amount: Option<nat>,
    asset: Option<string>, status: OrderStatus, paidAt: Option<Instant>)

  datatype Endpoint = Endpoint(url: string, secret: string, kinds: set<Kind>, active: bool)

  datatype Tables = Tables(
    checkpoint: Option<int>,
    events: map<Id, EventRow>,
    payments: map<Id, PaymentRow>,
    invoices: map<Id, InvoiceRow>,
    channels: map<Id, ChannelRow>,
    orders: map<Id, Order>,
    endpoints: map<Id, Endpoint>,
    deliveries: Outbox.Rows)

  datatype Error = Undecodable(kind: Kind) | Unencodable | Database

  function NullText(s: string): Option<string> {
    if s == "" then None else Some(s)
  }

  /** COALESCE(t, ''). */
  function TextOr(t: Option<string>): string {
    if t.Some? then t.value else ""
  }

  /** COALESCE(a, b). */
  function Coalesce<T>(a: Option<T>, b: Option<T>): Option<T> {
    if a.Some? then a else b
  }

  // ---- one statement each ----

  function EventAsset(e: Event): Option<string> {
    if e.kind.InvoicePaid? && e.data.invoicePaid.Some? then NullText(e.data.invoicePaid.value.asset)
    else if e.kind.PaymentReceived? && e.data.paymentReceived.Some? then NullText(e.data.paymentReceived.value.asset)
    else None
  }

  function EventAmount(e: Event): Option<nat> {
    if e.kind.InvoicePaid? && e.data.invoicePaid.Some? then Some(e.data.invoicePaid.value.amount)
    else if e.kind.PaymentReceived? && e.data.paymentReceived.Some? then Some(e.data.paymentReceived.value.amount)
    else None
  }

  function RowOf(e: Event, seqNo: int): EventRow {
    EventRow(e.kind, NullText(e.fiberRef), EventAsset(e), EventAmount(e), e.data.raw, e.createdAt, seqNo)
  }

  function InsertEvent(events: map<Id, EventRow>, e: Event, seqNo: int): map<Id, EventRow> {
    if e.id in events then events else events[e.id := RowOf(e, seqNo)]
  }

  function UpsertInvoice(invoices: map<Id, InvoiceRow>, d: InvoicePaidData): map<Id, InvoiceRow> {
    if d.hash in invoices then
      var was := invoices[d.hash];
      invoices[d.hash := InvoiceRow("paid", Coalesce(was.asset, NullText(d.asset)),
                                    Coalesce(was.amount, Some(d.amount)), d.settledAt)]
    else
      invoices[d.hash := InvoiceRow("paid", NullText(d.asset), Some(d.amount), d.settledAt)]
  }

  function MatchOrders(orders: map<Id, Order>, d: InvoicePaidData): map<Id, Order> {
    map o | o in orders ::
      if orders[o].invoice == Some(d.hash) && orders[o].status == Unpaid
      then orders[o].(status := Paid, paidAt := Some(d.settledAt))
      else orders[o]
  }

  function UpsertPayment(payments: map<Id, PaymentRow>, d: PaymentReceivedData, at: Instant): map<Id, PaymentRow> {
    var created := if d.hash in payments then payments[d.hash].createdAt else at;
    payments[d.hash := PaymentRow("received", "succeeded", NullText(d.asset), Some(d.amount),
                                  NullText(d.payer), created, at)]
  }

  function UpsertChannel(channels: map<Id, ChannelRow>, d: ChannelOpenedData, at: Instant): map<Id, ChannelRow> {
    channels[d.channel := ChannelRow(NullText(d.peer), "open", Some(d.capacity), at)]
  }

  function Matching(endpoints: map<Id, Endpoint>, kind: Kind): set<Id> {
    set ep | ep in endpoints && endpoints[ep].active && kind in endpoints[ep].kinds
  }

  function DeliveryOf(endpoints: map<Id, Endpoint>, ep: Id, e: Event, now: Instant): Outbox.Delivery
    requires ep in endpoints && e.encoded.Some?
  {
    Outbox.Delivery(ep, e.id, endpoints[ep].url, endpoints[ep].secret, e.encoded.value,
                    Outbox.Pending, 0, now, None)
  }

  /** The delivery rows of event e for the given endpoints, keyed by derived id. */
  ghost function FanOut(endpoints: map<Id, Endpoint>, eps: set<Id>, e: Event, now: Instant): Outbox.Rows
    requires e.encoded.Some? && eps <= endpoints.Keys
  {
    map id | id in (set ep | ep in eps :: DeliveryId(e.id, ep)) ::
      DeliveryOf(endpoints, TargetOf(eps, e.id, id), e, now)
  }

  ghost function TargetOf(eps: set<Id>, e: Id, id: Id): (ep: Id)
    requires exists ep :: ep in eps && DeliveryId(e, ep) == id
    ensures ep in eps && DeliveryId(e, ep) == id
  {
    var ep :| ep in eps && DeliveryId(e, ep) == id; ep
  }

  /** Endpoint by endpoint: the row at an endpoint's derived id is that endpoint's row. */
  lemma {:induction false} FanOutAt(endpoints: map<Id, Endpoint>, eps: set<Id>, e: Event, now: Instant, ep: Id)
    requires e.encoded.Some? && eps <= endpoints.Keys && ep in eps
    ensures DeliveryId(e.id, ep) in FanOut(endpoints, eps, e, now)
    ensures FanOut(endpoints, eps, e, now)[DeliveryId(e.id, ep)] == DeliveryOf(endpoints, ep, e, now)
  {
    EndpointsDoNotCollide(e.id, ep, TargetOf(eps, e.id, DeliveryId(e.id, ep)));
  }

  ghost function Enqueue(t: Tables, e: Event, now: Instant): Result<Tables, Error> {
    if Matching(t.endpoints, e.kind) == {} then Ok(t)
    else if e.encoded.None? then Err(Unencodable)
    else
      var added := FanOut(t.endpoints, Matching(t.endpoints, e.kind), e, now);
      Ok(t.(deliveries := Outbox.InsertMissing(t.deliveries, added)))
  }

  function ProjectInvoicePaid(t: Tables, d: InvoicePaidData): Tables {
    t.(invoices := UpsertInvoice(t.invoices, d), orders := MatchOrders(t.orders, d))
  }

  function Project(t: Tables, e: Event): Result<Tables, Error> {
    match e.kind
    case InvoicePaid =>
      if e.data.invoicePaid.None? then Err(Undecodable(e.kind))
      else Ok(ProjectInvoicePaid(t, e.data.invoicePaid.value))
    case PaymentReceived =>
      if e.data.paymentReceived.None? then Err(Undecodable(e.kind))
      else Ok(t.(payments := UpsertPayment(t.payments, e.data.paymentReceived.value, e.createdAt)))
    case ChannelOpened =>
      if e.data.channelOpened.None? then Err(Undecodable(e.kind))
      else Ok(t.(channels := UpsertChannel(t.channels, e.data.channelOpened.value, e.createdAt)))
    case OtherKind(_) => Ok(t)
  }

  ghost function ApplyEvent(t: Tables, e: Event, seqNo: int, now: Instant): Result<Tables, Error> {
    match Project(t.(events := InsertEvent(t.events, e, seqNo)), e)
    case Err(x) => Err(x)
    case Ok(t') => Enqueue(t', e, now)
  }

  ghost function ApplyAll(t: Tables, buf: seq<Event>, seqNo: int, now: Instant): Result<Tables, Error>
    decreases |buf|
  {
    if buf == [] then Ok(t) else
      match ApplyAll(t, buf[..|buf| - 1], seqNo, now)
      case Err(x) => Err(x)
      case Ok(t') => ApplyEvent(t', buf[|buf| - 1], seqNo, now)
  }

  /** One whole transaction: every buffered event, then the checkpoint. */
  ghost function Flush(t: Tables, buf: seq<Event>, seqNo: int, now: Instant): Result<Tables, Error> {
    match ApplyAll(t, buf, seqNo, now)
    case Err(x) => Err(x)
    case Ok(t') => Ok(t'.(checkpoint := Some(seqNo)))
  }
}
