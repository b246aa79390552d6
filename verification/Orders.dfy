/**
 * Merchant orders as one state machine: any number of CreateOrder and Refund calls, statement
 * by statement, interleaved with the indexer's invoice matching. A call may stop for good
 * after any statement (its process died) or get an error from any of them.
 */
module Orders {
  import opened Basics
  import opened Projection

  datatype RefundRow = RefundRow(order: Id, amount: nat, asset: string, reason: string, payment: string)

  datatype Failure = NotFound | InvalidState | Unavailable

  /** Where a CreateOrder call stands. `own` is the id it inserts under, `invoice` what it minted. */
  datatype CreateState =
    | Asked
    | Missed
    | Minted(invoice: Id)
    | Inserted(invoice: Id, own: Id)
    | Fallback(invoice: Id, own: Id)
    | Created(order: Id, invoice: Id, via: Option<Id>)
    | CreateFailed(why: Failure)

  /** Where a Refund call stands. `asset` and `invoice` are the order's, read with the status. */
  datatype RefundState =
    | Requested
    | Checked(asset: string, invoice: Id)
    | Ready(asset: string, payer: string)
    | Sent(asset: string, payment: string)
    | Recorded(refund: Id)
    | Settled(refund: Id)
    | RefundFailed(why: Failure)

  /** One request; `amount` is None when its text does not parse. */
  datatype Call =
    | Create(merchant: Id, external: string, amount: Option<nat>, asset: string, at: CreateState)
    | Refund(merchant: Id, order: Id, amount: Option<nat>, reason: string, on: RefundState)

  /** What CreateOrder is asked for; an empty external id asks for an order of its own. */
  datatype OrderKey = OrderKey(merchant: Id, external: string)

  /**
   * `payers` is the peer column of the payments projection by payment hash. The rest is
   * bookkeeping: `minted` holds every invoice hash the node gave out, with what it was for,
   * `issued` every row id generated, `payouts` an order for each refund payment that left.
   */
  datatype Shop = Shop(orders: map<Id, Order>, refunds: map<Id, RefundRow>, payers: map<Id, Option<string>>,
                       calls: seq<Call>, minted: map<Id, OrderKey>, issued: set<Id>, payouts: multiset<Id>)

  datatype Step =
    | AskCreate(merchant: Id, external: string, amount: Option<nat>, asset: string)
    | FindExisting(call: nat, works: bool)
    | MintInvoice(call: nat, invoice: Id, works: bool)
    | InsertOrder(call: nat, own: Id, works: bool)
    | FindWinner(call: nat, works: bool)
    | GetOwn(call: nat, works: bool)
    | AskRefund(merchant: Id, order: Id, amount: Option<nat>, reason: string)
    | CheckOrder(call: nat, works: bool)
    | FindPayer(call: nat, works: bool)
    | SendRefund(call: nat, reply: Result<string, Failure>)
    | InsertRefund(call: nat, refund: Id, works: bool)
    | MarkRefunded(call: nat, works: bool)
    | MatchInvoice(data: InvoicePaidData)
    | SeePayment(hash: Id, peer: Option<string>)

  /** The refund rows of one order. */
  function RowsOf(refunds: map<Id, RefundRow>, order: Id): set<Id> {
    set r | r in refunds && refunds[r].order == order
  }

  /** NULLIF(external, ''). */
  function ExternalOf(external: string): Option<string> {
    if external == "" then None else Some(external)
  }

  predicate Claims(o: Order, merchant: Id, external: string) {
    o.merchant == merchant && external != "" && o.external == Some(external)
  }

  /** Orders the unique key (merchant_id, external_order_id) makes comparable; NULLs never clash. */
  ghost predicate Taken(orders: map<Id, Order>, merchant: Id, external: string) {
    exists id :: id in orders && Claims(orders[id], merchant, external)
  }

  ghost predicate UniqueExternal(orders: map<Id, Order>) {
    forall a, b, merchant, external ::
      a in orders && b in orders && Claims(orders[a], merchant, external) && Claims(orders[b], merchant, external)
      ==> a == b
  }

  ghost function Existing(orders: map<Id, Order>, merchant: Id, external: string): (id: Id)
    requires Taken(orders, merchant, external)
    ensures id in orders && Claims(orders[id], merchant, external)
  {
    var id :| id in orders && Claims(orders[id], merchant, external); id
  }

  function AssetOr(asset: string): string {
    if asset == "" then "CKB" else asset
  }

  function NewOrder(c: Call, invoice: Id): Order
    requires c.Create?
  {
    Order(c.merchant, ExternalOf(c.external), Some(invoice), c.amount, Some(AssetOr(c.asset)), Unpaid, None)
  }

  predicate CreateAt(s: Shop, k: nat) {
    k < |s.calls| && s.calls[k].Create?
  }

  predicate RefundAt(s: Shop, k: nat) {
    k < |s.calls| && s.calls[k].Refund?
  }

  ghost predicate Enabled(s: Shop, step: Step) {
    match step
    case AskCreate(_, _, _, _) => true
    case FindExisting(k, _) => CreateAt(s, k) && s.calls[k].at.Asked?
    case MintInvoice(k, invoice, works) =>
      CreateAt(s, k) && s.calls[k].at.Missed? && (works ==> invoice !in s.minted)
    case InsertOrder(k, own, _) => CreateAt(s, k) && s.calls[k].at.Minted? && own !in s.orders && own !in s.issued
    case FindWinner(k, _) => CreateAt(s, k) && s.calls[k].at.Inserted?
    case GetOwn(k, _) => CreateAt(s, k) && s.calls[k].at.Fallback?
    case AskRefund(_, _, _, _) => true
    case CheckOrder(k, _) => RefundAt(s, k) && s.calls[k].on.Requested?
    case FindPayer(k, _) => RefundAt(s, k) && s.calls[k].on.Checked?
    case SendRefund(k, _) => RefundAt(s, k) && s.calls[k].on.Ready?
    case InsertRefund(k, refund, _) =>
      RefundAt(s, k) && s.calls[k].on.Sent? && refund !in s.refunds && refund !in s.issued
    case MarkRefunded(k, _) => RefundAt(s, k) && s.calls[k].on.Recorded?
    case MatchInvoice(_) => true
    case SeePayment(_, _) => true
  }

  /** INSERT ... ON CONFLICT (merchant_id, external_order_id) DO NOTHING. */
  ghost function OrdersWith(orders: map<Id, Order>, own: Id, o: Order): map<Id, Order> {
    if o.external.Some? && Taken(orders, o.merchant, o.external.value) then orders else orders[own := o]
  }

  function InvoiceOf(o: Order): Id {
    TextOr(o.invoice)
  }

  /** GetOrder and the checks Refund makes before it sends anything. */
  function RefundCheck(orders: map<Id, Order>, c: Call): RefundState
    requires c.Refund?
  {
    if c.order !in orders || orders[c.order].merchant != c.merchant then RefundFailed(NotFound)
    else if orders[c.order].status != Paid || c.amount.None? then RefundFailed(InvalidState)
    else Checked(TextOr(orders[c.order].asset), InvoiceOf(orders[c.order]))
  }

  /** payerPubkey: the peer recorded with the payment, if there is one and it is not empty. */
  function PayerLookup(payers: map<Id, Option<string>>, asset: string, invoice: Id): RefundState {
    if invoice !in payers || payers[invoice].None? || payers[invoice].value == "" then RefundFailed(InvalidState)
    else Ready(asset, payers[invoice].value)
  }

  function KeyOf(c: Call): OrderKey
    requires c.Create?
  {
    OrderKey(c.merchant, c.external)
  }

  function MarkOrderRefunded(orders: map<Id, Order>, id: Id): map<Id, Order> {
    if id in orders then orders[id := orders[id].(status := Refunded)] else orders
  }

  // ---- what a statement makes of its call, and of each table ----

  predicate IsAsk(step: Step) {
    step.AskCreate? || step.AskRefund?
  }

  /** The indexer's two statements, which belong to no call. */
  predicate FromIndexer(step: Step) {
    step.MatchInvoice? || step.SeePayment?
  }

  /** A refund row can be written: the amount parsed and the order exists. */
  predicate Recordable(s: Shop, k: nat)
    requires RefundAt(s, k)
  {
    s.calls[k].amount.Some? && s.calls[k].order in s.orders
  }

  /** Where a CreateOrder call stands after its next statement. */
  ghost function CreateNext(s: Shop, step: Step): CreateState
    requires Enabled(s, step) && !IsAsk(step) && !FromIndexer(step) && CreateAt(s, step.call)
  {
    var c := s.calls[step.call];
    match step
    case FindExisting(_, works) =>
      if !works then CreateFailed(Unavailable)
      else if Taken(s.orders, c.merchant, c.external) then
        var id := Existing(s.orders, c.merchant, c.external);
        Created(id, InvoiceOf(s.orders[id]), None)
      else Missed
    case MintInvoice(_, invoice, works) => if works then Minted(invoice) else CreateFailed(Unavailable)
    case InsertOrder(_, own, works) =>
      if !works then CreateFailed(Unavailable)
      else if c.external == "" then Fallback(c.at.invoice, own)
      else Inserted(c.at.invoice, own)
    case FindWinner(_, works) =>
      if works && Taken(s.orders, c.merchant, c.external)
      then Created(Existing(s.orders, c.merchant, c.external), c.at.invoice, Some(c.at.own))
      else Fallback(c.at.invoice, c.at.own)
    case GetOwn(_, works) =>
      if !works then CreateFailed(Unavailable)
      else if c.at.own in s.orders && s.orders[c.at.own].merchant == c.merchant
      then Created(c.at.own, c.at.invoice, Some(c.at.own))
      else CreateFailed(NotFound)
  }

  /** Where a Refund call stands after its next statement. */
  function RefundNext(s: Shop, step: Step): RefundState
    requires !IsAsk(step) && !FromIndexer(step) && RefundAt(s, step.call)
    requires step.FindPayer? ==> s.calls[step.call].on.Checked?
    requires step.SendRefund? ==> s.calls[step.call].on.Ready?
    requires step.MarkRefunded? ==> s.calls[step.call].on.Recorded?
  {
    var c := s.calls[step.call];
    match step
    case CheckOrder(_, works) => if works then RefundCheck(s.orders, c) else RefundFailed(Unavailable)
    case FindPayer(_, works) =>
      if works then PayerLookup(s.payers, c.on.asset, c.on.invoice) else RefundFailed(Unavailable)
    case SendRefund(_, reply) => if reply.Ok? then Sent(c.on.asset, reply.value) else RefundFailed(reply.error)
    case InsertRefund(_, refund, works) =>
      if works && Recordable(s, step.call) then Recorded(refund) else RefundFailed(Unavailable)
    case MarkRefunded(_, works) => if works then Settled(c.on.refund) else RefundFailed(Unavailable)
    case _ => c.on
  }

  ghost function NextCall(s: Shop, step: Step): Call
    requires Enabled(s, step) && !IsAsk(step) && !FromIndexer(step)
  {
    var c := s.calls[step.call];
    if c.Create? then c.(at := CreateNext(s, step)) else c.(on := RefundNext(s, step))
  }

  /** The call an API request starts as. */
  function FirstCall(step: Step): Call
    requires IsAsk(step)
  {
    match step
    case AskCreate(merchant, external, amount, asset) =>
      var at := if amount.None? then CreateFailed(InvalidState) else if external == "" then Missed else Asked;
      Create(merchant, external, amount, asset, at)
    case AskRefund(merchant, order, amount, reason) => Refund(merchant, order, amount, reason, Requested)
  }

  ghost function CallsAfter(s: Shop, step: Step): seq<Call>
    requires Enabled(s, step)
  {
    if IsAsk(step) then s.calls + [FirstCall(step)]
    else if FromIndexer(step) then s.calls
    else s.calls[step.call := NextCall(s, step)]
  }

  ghost function OrdersAfter(s: Shop, step: Step): map<Id, Order>
    requires Enabled(s, step)
  {
    match step
    case InsertOrder(k, own, works) =>
      if works then OrdersWith(s.orders, own, NewOrder(s.calls[k], s.calls[k].at.invoice)) else s.orders
    case MarkRefunded(k, works) => if works then MarkOrderRefunded(s.orders, s.calls[k].order) else s.orders
    case MatchInvoice(data) => MatchOrders(s.orders, data)
    case _ => s.orders
  }

  ghost function RefundsAfter(s: Shop, step: Step): map<Id, RefundRow>
    requires Enabled(s, step)
  {
    if step.InsertRefund? && step.works && Recordable(s, step.call) then
      var c := s.calls[step.call];
      s.refunds[step.refund := RefundRow(c.order, c.amount.value, c.on.asset, c.reason, c.on.payment)]
    else s.refunds
  }

  ghost function MintedAfter(s: Shop, step: Step): map<Id, OrderKey>
    requires Enabled(s, step)
  {
    if step.MintInvoice? && step.works then s.minted[step.invoice := KeyOf(s.calls[step.call])] else s.minted
  }

  function IssuedAfter(s: Shop, step: Step): set<Id> {
    if step.InsertOrder? then s.issued + {step.own}
    else if step.InsertRefund? then s.issued + {step.refund}
    else s.issued
  }

  ghost function PayoutsAfter(s: Shop, step: Step): multiset<Id>
    requires Enabled(s, step)
  {
    if step.SendRefund? && step.reply.Ok? then s.payouts + multiset{s.calls[step.call].order} else s.payouts
  }

  function PayersAfter(s: Shop, step: Step): map<Id, Option<string>> {
    if step.SeePayment? then s.payers[step.hash := step.peer] else s.payers
  }

  ghost function Apply(s: Shop, step: Step): Shop
    requires Enabled(s, step)
  {
    Shop(OrdersAfter(s, step), RefundsAfter(s, step), PayersAfter(s, step), CallsAfter(s, step),
         MintedAfter(s, step), IssuedAfter(s, step), PayoutsAfter(s, step))
  }

  /** Statements that may write a table; the others only advance their call. */
  predicate Writes(step: Step) {
    || step.MintInvoice? || step.InsertOrder? || step.SendRefund? || step.InsertRefund? || step.MarkRefunded?
  }

  lemma {:induction false} OnlyItsCall(s: Shop, step: Step)
    requires Enabled(s, step) && !IsAsk(step) && !FromIndexer(step) && !Writes(step)
    ensures Apply(s, step) == s.(calls := s.calls[step.call := NextCall(s, step)])
  {
  }

  ghost predicate Runs(s: Shop, run: seq<Step>)
    decreases |run|
  {
    run != [] ==> Enabled(s, run[0]) && Runs(Apply(s, run[0]), run[1..])
  }

  ghost function After(s: Shop, run: seq<Step>): Shop
    requires Runs(s, run)
    decreases |run|
  {
    if run == [] then s else After(Apply(s, run[0]), run[1..])
  }

  lemma {:induction false} RunsOn(s: Shop, run: seq<Step>, more: seq<Step>)
    requires Runs(s, run) && Runs(After(s, run), more)
    ensures Runs(s, run + more) && After(s, run + more) == After(After(s, run), more)
    decreases |run|
  {
    if run == [] {
      assert run + more == more;
    } else {
      var t, all := Apply(s, run[0]), run + more;
      assert all[0] == run[0] && all[1..] == run[1..] + more;
      RunsOn(t, run[1..], more);
      assert Runs(s, all) && After(s, all) == After(t, all[1..]);
      assert After(s, run) == After(t, run[1..]);
    }
  }

  lemma {:induction false} OneStepRun(s: Shop, step: Step)
    requires Enabled(s, step)
    ensures Runs(s, [step]) && After(s, [step]) == Apply(s, step)
  {
    assert Runs(Apply(s, step), [step][1..]);
  }

  lemma {:induction false} Then(s: Shop, run: seq<Step>, step: Step, t: Shop)
    requires Runs(s, run) && Enabled(After(s, run), step) && Apply(After(s, run), step) == t
    ensures Runs(s, run + [step]) && After(s, run + [step]) == t
  {
    OneStepRun(After(s, run), step);
    RunsOn(s, run, [step]);
  }

  lemma {:induction false} RunsAround(s: Shop, pre: seq<Step>, step: Step, post: seq<Step>)
    requires Runs(s, pre) && Enabled(After(s, pre), step) && Runs(Apply(After(s, pre), step), post)
    ensures Runs(s, pre + ([step] + post))
    ensures After(s, pre + ([step] + post)) == After(Apply(After(s, pre), step), post)
  {
    OneStepRun(After(s, pre), step);
    RunsOn(After(s, pre), [step], post);
    RunsOn(s, pre, [step] + post);
  }

  predicate Empty(s: Shop) {
    && s.orders == map[] && s.refunds == map[] && s.payers == map[] && s.calls == []
    && s.minted == map[] && s.issued == {} && s.payouts == multiset{}
  }
}
