/**
 * The merchant service as the program has it: tables updated statement by statement. A call
 * that runs without interruption, whatever fails on the way, is one run of the order protocol,
 * so everything proved about all interleavings holds of it.
 */
module MerchantService {
  import opened Basics
  import opened Projection
  import opened Orders

  datatype Reply = Reply(order: Id, invoice: Id)

  /** Which statements of one CreateOrder call get through to the database. */
  datatype CreateFaults = CreateFaults(find: bool, insert: bool, again: bool, own: bool)

  datatype RefundFaults = RefundFaults(read: bool, payer: bool, insert: bool, mark: bool)

  /** What the service asks of the node: an invoice to be paid, or a payment to a peer. */
  datatype NodeRequest = NewInvoice(amount: nat, description: string) | Keysend(target: string, amount: nat)

  /** Column by column, the row of an order as it was asked for, in CKB unless an asset is named. */
  ghost predicate IsOrderFor(o: Order, merchant: Id, external: string, amount: Option<nat>, asset: string,
                             invoice: Option<Id>) {
    && o.merchant == merchant
    && o.external == (if external == "" then None else Some(external))
    && o.invoice == invoice && o.amount == amount
    && o.asset == (if asset == "" then Some("CKB") else Some(asset))
    && o.status == Unpaid && o.paidAt == None
  }

  function Answer(at: CreateState): Option<Result<Reply, Failure>> {
    match at
    case Created(order, invoice, _) => Some(Ok(Reply(order, invoice)))
    case CreateFailed(why) => Some(Err(why))
    case _ => None
  }

  function RefundAnswer(on: RefundState): Option<Result<Id, Failure>> {
    match on
    case Settled(refund) => Some(Ok(refund))
    case RefundFailed(why) => Some(Err(why))
    case _ => None
  }

  /** The run takes the shop s to these tables and adds one call, which stands as c. */
  ghost predicate Reached(s: Shop, run: seq<Step>, orders: map<Id, Order>, refunds: map<Id, RefundRow>, c: Call) {
    && Runs(s, run)
    && After(s, run).orders == orders && After(s, run).refunds == refunds
    && After(s, run).calls == s.calls + [c]
  }

  /** A step of the k-th call, a CreateOrder, with what its environment answers. */
  predicate CreateStep(step: Step, k: nat, c: Call, node: Option<Id>, own: Id, db: CreateFaults)
    requires c.Create?
  {
    match step
    case AskCreate(merchant, external, amount, asset) =>
      merchant == c.merchant && external == c.external && amount == c.amount && asset == c.asset
    case FindExisting(call, works) => call == k && works == db.find
    case MintInvoice(call, invoice, works) => call == k && (if works then Some(invoice) else None) == node
    case InsertOrder(call, id, works) => call == k && id == own && works == db.insert
    case FindWinner(call, works) => call == k && works == db.again
    case GetOwn(call, works) => call == k && works == db.own
    case _ => false
  }

  /** A step of the k-th call, a Refund, with what its environment answers. */
  predicate RefundStep(step: Step, k: nat, c: Call, reply: Result<string, Failure>, id: Id, db: RefundFaults)
    requires c.Refund?
  {
    match step
    case AskRefund(merchant, order, amount, reason) =>
      merchant == c.merchant && order == c.order && amount == c.amount && reason == c.reason
    case CheckOrder(call, works) => call == k && works == db.read
    case FindPayer(call, works) => call == k && works == db.payer
    case SendRefund(call, answer) => call == k && answer == reply
    case InsertRefund(call, refund, works) => call == k && refund == id && works == db.insert
    case MarkRefunded(call, works) => call == k && works == db.mark
    case _ => false
  }

  ghost predicate OnlyCreates(run: seq<Step>, k: nat, c: Call, node: Option<Id>, own: Id, db: CreateFaults)
    requires c.Create?
  {
    forall i :: 0 <= i < |run| ==> CreateStep(run[i], k, c, node, own, db)
  }

  ghost predicate OnlyRefunds(run: seq<Step>, k: nat, c: Call, reply: Result<string, Failure>, id: Id, db: RefundFaults)
    requires c.Refund?
  {
    forall i :: 0 <= i < |run| ==> RefundStep(run[i], k, c, reply, id, db)
  }

  ghost predicate EndsCreate(s: Shop, run: seq<Step>, orders: map<Id, Order>, request: Call, r: Result<Reply, Failure>)
    requires request.Create?
  {
    exists at :: Answer(at) == Some(r) && Reached(s, run, orders, s.refunds, request.(at := at))
  }

  ghost predicate EndsRefund(s: Shop, run: seq<Step>, orders: map<Id, Order>, refunds: map<Id, RefundRow>,
                             request: Call, r: Result<Id, Failure>)
    requires request.Refund?
  {
    exists on :: RefundAnswer(on) == Some(r) && Reached(s, run, orders, refunds, request.(on := on))
  }

  /** One more step of the call's run, seen on the tables and on the call itself. */
  lemma {:induction false} GoesOn(s: Shop, run: seq<Step>, step: Step, c: Call,
                                  orders: map<Id, Order>, refunds: map<Id, RefundRow>)
    requires Runs(s, run) && Enabled(After(s, run), step)
    requires Apply(After(s, run), step).orders == orders && Apply(After(s, run), step).refunds == refunds
    requires Apply(After(s, run), step).calls == s.calls + [c]
    ensures Reached(s, run + [step], orders, refunds, c)
    ensures After(s, run + [step]) == Apply(After(s, run), step)
  {
    Then(s, run, step, Apply(After(s, run), step));
  }

  lemma {:induction false} StillCreates(run: seq<Step>, step: Step, k: nat, c: Call, node: Option<Id>, own: Id,
      db: CreateFaults)
    requires c.Create? && OnlyCreates(run, k, c, node, own, db) && CreateStep(step, k, c, node, own, db)
    ensures OnlyCreates(run + [step], k, c, node, own, db)
  {
  }

  lemma {:induction false} StillRefunds(run: seq<Step>, step: Step, k: nat, c: Call, reply: Result<string, Failure>,
      id: Id, db: RefundFaults)
    requires c.Refund? && OnlyRefunds(run, k, c, reply, id, db) && RefundStep(step, k, c, reply, id, db)
    ensures OnlyRefunds(run + [step], k, c, reply, id, db)
  {
  }

  // ---- one statement of a call, as a step ----

  lemma {:induction false} Asks(s: Shop, ask: Step, c: Call)
    requires ask.AskCreate? || ask.AskRefund?
    requires Apply(s, ask).calls == s.calls + [c]
    ensures Reached(s, [ask], s.orders, s.refunds, c)
    ensures After(s, [ask]).minted == s.minted && After(s, [ask]).issued == s.issued
    ensures After(s, [ask]).payers == s.payers
  {
    GoesOn(s, [], ask, c, s.orders, s.refunds);
    assert [] + [ask] == [ask];
  }

  lemma {:induction false} AsksCreate(s: Shop, c: Call, node: Option<Id>, own: Id, db: CreateFaults)
    requires c.Create?
    ensures var ask := AskCreate(c.merchant, c.external, c.amount, c.asset);
      && Reached(s, [ask], s.orders, s.refunds, FirstCall(ask))
      && After(s, [ask]).minted == s.minted && After(s, [ask]).issued == s.issued
      && OnlyCreates([ask], |s.calls|, c, node, own, db)
  {
    var ask := AskCreate(c.merchant, c.external, c.amount, c.asset);
    Asks(s, ask, FirstCall(ask));
  }

  lemma {:induction false} Finds(s: Shop, run: seq<Step>, c: Call, orders: map<Id, Order>, works: bool, at: CreateState)
    requires c.Create? && c.at == Asked && Reached(s, run, orders, s.refunds, c)
    requires at ==
      if !works then CreateFailed(Unavailable)
      else if Taken(orders, c.merchant, c.external) then
        var id := Existing(orders, c.merchant, c.external); Created(id, InvoiceOf(orders[id]), None)
      else Missed
    ensures var t := run + [FindExisting(|s.calls|, works)];
      && Reached(s, t, orders, s.refunds, c.(at := at))
      && After(s, t).minted == After(s, run).minted && After(s, t).issued == After(s, run).issued
  {
    GoesOn(s, run, FindExisting(|s.calls|, works), c.(at := at), orders, s.refunds);
  }

  lemma {:induction false} Mints(s: Shop, run: seq<Step>, c: Call, orders: map<Id, Order>, invoice: Id, works: bool)
    requires c.Create? && c.at == Missed && Reached(s, run, orders, s.refunds, c)
    requires works ==> invoice !in After(s, run).minted
    ensures var t := run + [MintInvoice(|s.calls|, invoice, works)];
      && Reached(s, t, orders, s.refunds, c.(at := if works then Minted(invoice) else CreateFailed(Unavailable)))
      && After(s, t).issued == After(s, run).issued
  {
    GoesOn(s, run, MintInvoice(|s.calls|, invoice, works),
           c.(at := if works then Minted(invoice) else CreateFailed(Unavailable)), orders, s.refunds);
  }

  function Entered(c: Call, invoice: Id, own: Id): CreateState
    requires c.Create?
  {
    if c.external == "" then Fallback(invoice, own) else Inserted(invoice, own)
  }

  lemma {:induction false} Inserts(s: Shop, run: seq<Step>, c: Call, orders: map<Id, Order>, own: Id, works: bool)
    requires c.Create? && c.at.Minted? && Reached(s, run, orders, s.refunds, c)
    requires own !in orders && own !in After(s, run).issued
    ensures Reached(s, run + [InsertOrder(|s.calls|, own, works)],
                    if works then OrdersWith(orders, own, NewOrder(c, c.at.invoice)) else orders, s.refunds,
                    c.(at := if works then Entered(c, c.at.invoice, own) else CreateFailed(Unavailable)))
  {
    GoesOn(s, run, InsertOrder(|s.calls|, own, works),
           c.(at := if works then Entered(c, c.at.invoice, own) else CreateFailed(Unavailable)),
           if works then OrdersWith(orders, own, NewOrder(c, c.at.invoice)) else orders, s.refunds);
  }

  lemma {:induction false} FindsAgain(s: Shop, run: seq<Step>, c: Call, orders: map<Id, Order>, works: bool,
      at: CreateState)
    requires c.Create? && c.at.Inserted? && Reached(s, run, orders, s.refunds, c)
    requires at ==
      if works && Taken(orders, c.merchant, c.external)
      then Created(Existing(orders, c.merchant, c.external), c.at.invoice, Some(c.at.own))
      else Fallback(c.at.invoice, c.at.own)
    ensures Reached(s, run + [FindWinner(|s.calls|, works)], orders, s.refunds, c.(at := at))
  {
    GoesOn(s, run, FindWinner(|s.calls|, works), c.(at := at), orders, s.refunds);
  }

  lemma {:induction false} Gets(s: Shop, run: seq<Step>, c: Call, orders: map<Id, Order>, works: bool, at: CreateState)
    requires c.Create? && c.at.Fallback? && Reached(s, run, orders, s.refunds, c)
    requires at ==
      if !works then CreateFailed(Unavailable)
      else if c.at.own in orders && orders[c.at.own].merchant == c.merchant
      then Created(c.at.own, c.at.invoice, Some(c.at.own))
      else CreateFailed(NotFound)
    ensures Reached(s, run + [GetOwn(|s.calls|, works)], orders, s.refunds, c.(at := at))
  {
    GoesOn(s, run, GetOwn(|s.calls|, works), c.(at := at), orders, s.refunds);
  }

  lemma {:induction false} Checks(s: Shop, run: seq<Step>, c: Call, works: bool)
    requires c.Refund? && c.on == Requested && Reached(s, run, s.orders, s.refunds, c)
    ensures var t := run + [CheckOrder(|s.calls|, works)];
      && Reached(s, t, s.orders, s.refunds,
                 c.(on := if works then RefundCheck(s.orders, c) else RefundFailed(Unavailable)))
      && After(s, t).issued == After(s, run).issued && After(s, t).payers == After(s, run).payers
  {
    GoesOn(s, run, CheckOrder(|s.calls|, works),
           c.(on := if works then RefundCheck(s.orders, c) else RefundFailed(Unavailable)), s.orders, s.refunds);
  }

  lemma {:induction false} FindsPayer(s: Shop, run: seq<Step>, c: Call, orders: map<Id, Order>,
                                      refunds: map<Id, RefundRow>, works: bool, on: RefundState)
    requires c.Refund? && c.on.Checked? && Reached(s, run, orders, refunds, c)
    requires on ==
      if works then PayerLookup(After(s, run).payers, c.on.asset, c.on.invoice) else RefundFailed(Unavailable)
    ensures var t := run + [FindPayer(|s.calls|, works)];
      && Reached(s, t, orders, refunds, c.(on := on))
      && After(s, t).issued == After(s, run).issued
  {
    GoesOn(s, run, FindPayer(|s.calls|, works), c.(on := on), orders, refunds);
  }

  lemma {:induction false} Sends(s: Shop, run: seq<Step>, c: Call, orders: map<Id, Order>, refunds: map<Id, RefundRow>,
                                 reply: Result<string, Failure>)
    requires c.Refund? && c.on.Ready? && Reached(s, run, orders, refunds, c)
    ensures var t := run + [SendRefund(|s.calls|, reply)];
      && Reached(s, t, orders, refunds,
                 c.(on := if reply.Ok? then Sent(c.on.asset, reply.value) else RefundFailed(reply.error)))
      && After(s, t).issued == After(s, run).issued
  {
    GoesOn(s, run, SendRefund(|s.calls|, reply),
           c.(on := if reply.Ok? then Sent(c.on.asset, reply.value) else RefundFailed(reply.error)), orders, refunds);
  }

  lemma {:induction false} Records(s: Shop, run: seq<Step>, c: Call, orders: map<Id, Order>,
      refunds: map<Id, RefundRow>,
                                   id: Id, works: bool)
    requires c.Refund? && c.on.Sent? && c.amount.Some? && c.order in orders && Reached(s, run, orders, refunds, c)
    requires id !in refunds && id !in After(s, run).issued
    ensures var row := RefundRow(c.order, c.amount.value, c.on.asset, c.reason, c.on.payment);
      Reached(s, run + [InsertRefund(|s.calls|, id, works)], orders, if works then refunds[id := row] else refunds,
              c.(on := if works then Recorded(id) else RefundFailed(Unavailable)))
  {
    var row := RefundRow(c.order, c.amount.value, c.on.asset, c.reason, c.on.payment);
    GoesOn(s, run, InsertRefund(|s.calls|, id, works),
        c.(on := if works then Recorded(id) else RefundFailed(Unavailable)),
           orders, if works then refunds[id := row] else refunds);
  }

  lemma {:induction false} Marks(s: Shop, run: seq<Step>, c: Call, orders: map<Id, Order>, refunds: map<Id, RefundRow>,
      works: bool)
    requires c.Refund? && c.on.Recorded? && Reached(s, run, orders, refunds, c)
    ensures Reached(s, run + [MarkRefunded(|s.calls|, works)],
      if works then MarkOrderRefunded(orders, c.order) else orders,
                    refunds, c.(on := if works then Settled(c.on.refund) else RefundFailed(Unavailable)))
  {
    GoesOn(s, run, MarkRefunded(|s.calls|, works),
        c.(on := if works then Settled(c.on.refund) else RefundFailed(Unavailable)),
           if works then MarkOrderRefunded(orders, c.order) else orders, refunds);
  }

  lemma {:induction false} InsertKeepsUnique(orders: map<Id, Order>, own: Id, o: Order)
    requires UniqueExternal(orders) && own !in orders
    ensures UniqueExternal(OrdersWith(orders, own, o))
  {
    var t := OrdersWith(orders, own, o);
    forall a, b, merchant, external
      | a in t && b in t && Claims(t[a], merchant, external) && Claims(t[b], merchant, external)
      ensures a == b
    {
      if a in orders { assert Claims(orders[a], merchant, external); }
      if b in orders { assert Claims(orders[b], merchant, external); }
    }
  }

  class Service {
    var orders: map<Id, Order>
    var refunds: map<Id, RefundRow>
    var payers: map<Id, Option<string>>
    var requests: seq<NodeRequest>

    constructor ()
      ensures orders == map[] && refunds == map[] && payers == map[] && requests == []
    {
      orders, refunds, payers, requests := map[], map[], map[], [];
    }

    /** SELECT ... WHERE merchant_id = $1 AND external_order_id = $2. */
    method OrderByExternalId(merchant: Id, external: string, works: bool) returns (r: Result<Id, Failure>)
      requires UniqueExternal(orders) && external != ""
      ensures !works ==> r == Err(Unavailable)
      ensures works && Taken(orders, merchant, external) ==> r == Ok(Existing(orders, merchant, external))
      ensures works && !Taken(orders, merchant, external) ==> r == Err(NotFound)
    {
      if !works {
        return Err(Unavailable);
      }
      if id :| id in orders && orders[id].merchant == merchant && orders[id].external == Some(external) {
        assert Claims(orders[id], merchant, external);
        r := Ok(id);
      } else {
        r := Err(NotFound);
      }
    }

    method GetOrder(merchant: Id, id: Id, works: bool) returns (r: Result<Order, Failure>)
      ensures !works ==> r == Err(Unavailable)
      ensures works ==> r == if id in orders && orders[id].merchant == merchant then Ok(orders[id]) else Err(NotFound)
    {
      if !works {
        r := Err(Unavailable);
      } else if id in orders && orders[id].merchant == merchant {
        r := Ok(orders[id]);
      } else {
        r := Err(NotFound);
      }
    }

    /** The peer recorded with the order's payment; none, or an empty one, is an invalid state. */
    method PayerPubkey(invoice: Id, works: bool) returns (r: Result<string, Failure>)
      ensures !works ==> r == Err(Unavailable)
      ensures works && r.Ok? ==> r.value != "" && invoice in payers && payers[invoice] == Some(r.value)
      ensures works && r.Err? ==>
        r.error == InvalidState && (invoice !in payers || payers[invoice] == None || payers[invoice] == Some(""))
    {
      if !works {
        return Err(Unavailable);
      }
      if invoice !in payers || payers[invoice].None? || payers[invoice].value == "" {
        return Err(InvalidState);
      }
      r := Ok(payers[invoice].value);
    }

    /** Nobody is known to hold the pair, so the call goes on to the node. */
    ghost predicate GoesToNode(merchant: Id, external: string, amount: Option<nat>, find: bool)
      reads `orders
    {
      amount.Some? && (external == "" || (find && !Taken(orders, merchant, external)))
    }

    method CreateOrder(merchant: Id, external: string, amount: Option<nat>, asset: string,
                       node: Option<Id>, own: Id, db: CreateFaults, ghost s: Shop)
      returns (r: Result<Reply, Failure>, ghost run: seq<Step>)
      requires s.orders == orders && s.refunds == refunds && UniqueExternal(orders)
      requires own !in orders && own !in s.issued
      requires node.Some? ==> node.value !in s.minted
      modifies `orders, `requests
      ensures EndsCreate(s, run, orders, Create(merchant, external, amount, asset, Asked), r)
      ensures OnlyCreates(run, |s.calls|, Create(merchant, external, amount, asset, Asked), node, own, db)
      ensures UniqueExternal(orders)
      ensures requests == old(requests) +
        if old(GoesToNode(merchant, external, amount, db.find)) then [NewInvoice(amount.value, "order " + external)]
        else []
      ensures own in orders <==> old(GoesToNode(merchant, external, amount, db.find)) && node.Some? && db.insert
      ensures own !in orders ==> orders == old(orders)
      ensures own in orders ==>
        && orders == old(orders)[own := orders[own]]
        && IsOrderFor(orders[own], merchant, external, amount, asset, node)
        && r == if db.own || (db.again && external != "") then Ok(Reply(own, node.value)) else Err(Unavailable)
      ensures own !in orders ==>
        (r.Ok? <==> amount.Some? && external != "" && db.find && Taken(old(orders), merchant, external))
      ensures own !in orders && r.Err? ==> r.error == if amount.None? then InvalidState else Unavailable
      ensures r.Ok? ==>
        && r.value.order in orders && orders[r.value.order].merchant == merchant
        && orders[r.value.order].external == (if external == "" then None else Some(external))
        && r.value.invoice ==
           if orders[r.value.order].invoice.Some? then orders[r.value.order].invoice.value else ""
    {
      var c := Create(merchant, external, amount, asset, Asked);
      ghost var ask := AskCreate(merchant, external, amount, asset);
      run := [ask];
      AsksCreate(s, c, node, own, db);
      if amount.None? {
        assert Answer(FirstCall(ask).at) == Some(Err(InvalidState));
        return Err(InvalidState), run;
      }
      if external != "" {
        var found;
        found, run := LookUp(c, node, own, db, s, run);
        if found.Some? {
          return found.value, run;
        }
      }
      r, run := MintAndInsert(c.(at := Missed), node, own, db, s, run);
    }

    /** The first look for the pair: an answer, or None to go on and mint. */
    method LookUp(c: Call, ghost node: Option<Id>, ghost own: Id, db: CreateFaults, ghost s: Shop,
        ghost before: seq<Step>)
      returns (r: Option<Result<Reply, Failure>>, ghost run: seq<Step>)
      requires c.Create? && c.at == Asked && c.external != "" && UniqueExternal(orders)
      requires Reached(s, before, orders, s.refunds, c)
      requires OnlyCreates(before, |s.calls|, c, node, own, db)
      ensures r.Some? ==> EndsCreate(s, run, orders, c, r.value)
      ensures r.None? ==>
        && Reached(s, run, orders, s.refunds, c.(at := Missed))
        && After(s, run).minted == After(s, before).minted && After(s, run).issued == After(s, before).issued
      ensures OnlyCreates(run, |s.calls|, c, node, own, db)
      ensures r.None? <==> db.find && !Taken(orders, c.merchant, c.external)
      ensures !db.find ==> r == Some(Err(Unavailable))
      ensures db.find && r.Some? ==>
        var id := Existing(orders, c.merchant, c.external); r == Some(Ok(Reply(id, InvoiceOf(orders[id]))))
    {
      ghost var find := FindExisting(|s.calls|, db.find);
      var existing := OrderByExternalId(c.merchant, c.external, db.find);
      ghost var at :=
        if existing.Ok? then Created(existing.value, InvoiceOf(orders[existing.value]), None)
        else if existing.error != NotFound then CreateFailed(existing.error)
        else Missed;
      Finds(s, before, c, orders, db.find, at);
      StillCreates(before, find, |s.calls|, c, node, own, db);
      run := before + [find];
      if existing.Ok? {
        r := Some(Ok(Reply(existing.value, InvoiceOf(orders[existing.value]))));
        assert Answer(at) == r;
      } else if existing.error != NotFound {
        r := Some(Err(existing.error));
        assert Answer(at) == r;
      } else {
        r := None;
      }
    }

    /** Mint the invoice, then insert the order unless the pair is taken. */
    method MintAndInsert(c: Call, node: Option<Id>, own: Id, db: CreateFaults, ghost s: Shop, ghost before: seq<Step>)
      returns (r: Result<Reply, Failure>, ghost run: seq<Step>)
      requires c.Create? && c.at == Missed && Reached(s, before, orders, s.refunds, c) && UniqueExternal(orders)
      requires c.amount.Some? && (c.external == "" || !Taken(orders, c.merchant, c.external))
      requires own !in orders && own !in After(s, before).issued
      requires node.Some? ==> node.value !in After(s, before).minted
      requires OnlyCreates(before, |s.calls|, c, node, own, db)
      modifies `orders, `requests
      ensures EndsCreate(s, run, orders, c, r)
      ensures OnlyCreates(run, |s.calls|, c, node, own, db)
      ensures UniqueExternal(orders)
      ensures requests == old(requests) + [NewInvoice(c.amount.value, "order " + c.external)]
      ensures own in orders <==> node.Some? && db.insert
      ensures own !in orders ==> orders == old(orders) && r == Err(Unavailable)
      ensures own in orders ==>
        && orders == old(orders)[own := orders[own]]
        && IsOrderFor(orders[own], c.merchant, c.external, c.amount, c.asset, node)
        && r == if db.own || (db.again && c.external != "") then Ok(Reply(own, node.value)) else Err(Unavailable)
    {
      ghost var k := |s.calls|;
      ghost var mint := MintInvoice(k, if node.Some? then node.value else "", node.Some?);
      Mints(s, before, c, orders, mint.invoice, node.Some?);
      StillCreates(before, mint, k, c, node, own, db);
      run := before + [mint];
      requests := requests + [NewInvoice(c.amount.value, "order " + c.external)];
      if node.None? {
        return Err(Unavailable), run;
      }
      ghost var insert := InsertOrder(k, own, db.insert);
      Inserts(s, run, c.(at := Minted(node.value)), orders, own, db.insert);
      StillCreates(run, insert, k, c, node, own, db);
      run := run + [insert];
      if !db.insert {
        return Err(Unavailable), run;
      }
      Insert(c, node.value, own);
      r, run := ReadBack(c.(at := Entered(c, node.value, own)), node.value, own, db, s, run);
    }

    /** INSERT ... ON CONFLICT (merchant_id, external_order_id) DO NOTHING. */
    method Insert(c: Call, invoice: Id, own: Id)
      requires c.Create? && own !in orders && UniqueExternal(orders)
      modifies `orders
      ensures orders == OrdersWith(old(orders), own, NewOrder(c, invoice)) && UniqueExternal(orders)
      ensures c.external == "" || !Taken(old(orders), c.merchant, c.external) ==>
        && own in orders && orders == old(orders)[own := NewOrder(c, invoice)]
        && IsOrderFor(orders[own], c.merchant, c.external, c.amount, c.asset, Some(invoice))
    {
      var asset := if c.asset == "" then "CKB" else c.asset;
      var external := if c.external == "" then None else Some(c.external);
      var o := Order(c.merchant, external, Some(invoice), c.amount, Some(asset), Unpaid, None);
      assert o == NewOrder(c, invoice);
      InsertKeepsUnique(orders, own, o);
      var held := exists id :: id in orders && orders[id].merchant == c.merchant && orders[id].external == external;
      if external.None? || !held {
        orders := orders[own := o];
      }
    }

    /** Return whoever holds the pair now, else the row inserted. */
    method ReadBack(c: Call, invoice: Id, own: Id, db: CreateFaults, ghost s: Shop, ghost before: seq<Step>)
      returns (r: Result<Reply, Failure>, ghost run: seq<Step>)
      requires c.Create? && c.at == Entered(c, invoice, own)
      requires Reached(s, before, orders, s.refunds, c) && UniqueExternal(orders)
      requires OnlyCreates(before, |s.calls|, c, Some(invoice), own, db)
      ensures EndsCreate(s, run, orders, c, r)
      ensures OnlyCreates(run, |s.calls|, c, Some(invoice), own, db)
      ensures own in orders && orders[own] == NewOrder(c, invoice) ==>
        r == if db.own || (db.again && c.external != "") then Ok(Reply(own, invoice)) else Err(Unavailable)
    {
      ghost var k := |s.calls|;
      run := before;
      if c.external != "" {
        var existing := OrderByExternalId(c.merchant, c.external, db.again);
        ghost var at := if existing.Ok? then Created(existing.value, invoice, Some(own)) else Fallback(invoice, own);
        FindsAgain(s, run, c, orders, db.again, at);
        StillCreates(run, FindWinner(k, db.again), k, c, Some(invoice), own, db);
        run := run + [FindWinner(k, db.again)];
        if existing.Ok? {
          r := Ok(Reply(existing.value, invoice));
          assert Answer(at) == Some(r);
          return;
        }
      }
      var found := GetOrder(c.merchant, own, db.own);
      ghost var at := if found.Ok? then Created(own, invoice, Some(own)) else CreateFailed(found.error);
      Gets(s, run, c.(at := Fallback(invoice, own)), orders, db.own, at);
      StillCreates(run, GetOwn(k, db.own), k, c, Some(invoice), own, db);
      run := run + [GetOwn(k, db.own)];
      r := if found.Ok? then Ok(Reply(own, invoice)) else Err(found.error);
      assert Answer(at) == Some(r);
    }

    /** The order can be paid back: it is the merchant's and paid, and somebody is on record as having paid it. */
    ghost predicate MayPayBack(merchant: Id, order: Id, amount: Option<nat>, db: RefundFaults)
      reads `orders, `payers
    {
      && db.read && order in orders && orders[order].merchant == merchant && orders[order].status == Paid
      && amount.Some? && db.payer && HasPayer(orders[order])
    }

    method Refund(merchant: Id, order: Id, amount: Option<nat>, reason: string,
                  reply: Result<string, Failure>, refund: Id, db: RefundFaults, ghost s: Shop)
      returns (r: Result<Id, Failure>, ghost run: seq<Step>)
      requires s.orders == orders && s.refunds == refunds && s.payers == payers
      requires refund !in refunds && refund !in s.issued
      modifies `orders, `refunds, `requests
      ensures EndsRefund(s, run, orders, refunds, Call.Refund(merchant, order, amount, reason, Requested), r)
      ensures OnlyRefunds(run, |s.calls|, Call.Refund(merchant, order, amount, reason, Requested), reply, refund, db)
      ensures r.Ok? <==> old(MayPayBack(merchant, order, amount, db)) && reply.Ok? && db.insert && db.mark
      ensures r.Ok? ==> r == Ok(refund)
      ensures requests == old(requests) +
        if old(MayPayBack(merchant, order, amount, db)) then [Keysend(PayerOf(old(orders)[order]), amount.value)]
        else []
      ensures refund in refunds <==> old(MayPayBack(merchant, order, amount, db)) && reply.Ok? && db.insert
      ensures refund !in refunds ==> refunds == old(refunds)
      ensures refund in refunds ==>
        && refunds == old(refunds)[refund := refunds[refund]]
        && refunds[refund].order == order && refunds[refund].amount == amount.value
        && refunds[refund].asset == (if old(orders)[order].asset.Some? then old(orders)[order].asset.value else "")
        && refunds[refund].reason == reason && refunds[refund].payment == reply.value
      ensures !r.Ok? ==> orders == old(orders)
      ensures r.Ok? ==> orders == old(orders)[order := old(orders)[order].(status := Refunded)]
      ensures !db.read ==> r == Err(Unavailable)
      ensures db.read && (order !in old(orders) || old(orders)[order].merchant != merchant) ==> r == Err(NotFound)
      ensures db.read && order in old(orders) && old(orders)[order].merchant == merchant ==>
        old(orders)[order].status != Paid || amount.None? ==> r == Err(InvalidState)
    {
      var c := Call.Refund(merchant, order, amount, reason, Requested);
      var found;
      found, run := Examine(c, reply, refund, db, s);
      if found.Err? {
        return Err(found.error), run;
      }
      var asset := if found.value.asset.Some? then found.value.asset.value else "";
      var invoice := if found.value.invoice.Some? then found.value.invoice.value else "";
      r, run := PayBack(c.(on := Checked(asset, invoice)), reply, refund, db, s, run);
    }

    /** Read the order and check that it can be refunded. */
    method Examine(c: Call, ghost reply: Result<string, Failure>, ghost refund: Id, db: RefundFaults, ghost s: Shop)
      returns (r: Result<Order, Failure>, ghost run: seq<Step>)
      requires c.Refund? && c.on == Requested
      requires s.orders == orders && s.refunds == refunds && s.payers == payers
      ensures OnlyRefunds(run, |s.calls|, c, reply, refund, db)
      ensures r.Err? ==> EndsRefund(s, run, orders, refunds, c, Err(r.error))
      ensures r.Ok? ==>
        && c.order in orders && r.value == orders[c.order]
        && Reached(s, run, orders, refunds, c.(on := Checked(TextOr(r.value.asset), InvoiceOf(r.value))))
        && After(s, run).payers == payers && After(s, run).issued == s.issued
      ensures r.Ok? <==>
        && db.read && c.order in orders && orders[c.order].merchant == c.merchant
        && orders[c.order].status == Paid && c.amount.Some?
      ensures !db.read ==> r == Err(Unavailable)
      ensures db.read && r.Err? ==>
        r.error == if c.order in orders && orders[c.order].merchant == c.merchant then InvalidState else NotFound
    {
      ghost var ask, check := AskRefund(c.merchant, c.order, c.amount, c.reason), CheckOrder(|s.calls|, db.read);
      Asks(s, ask, c);
      run := [ask];
      var found := GetOrder(c.merchant, c.order, db.read);
      Checks(s, run, c, db.read);
      StillRefunds(run, check, |s.calls|, c, reply, refund, db);
      run := run + [check];
      if found.Err? {
        return Err(found.error), run;
      }
      if found.value.status != Paid || c.amount.None? {
        return Err(InvalidState), run;
      }
      r := Ok(found.value);
    }

    /** What a call that passed its check leaves in the refunds: at most its own row. */
    ghost predicate RowsAfter(before: map<Id, RefundRow>, refund: Id, c: Call, payment: Result<string, Failure>)
      reads `refunds
      requires c.Refund? && (c.on.Checked? || c.on.Ready?)
    {
      if refund !in refunds then refunds == before
      else
        && c.amount.Some? && payment.Ok?
        && refunds == before[refund := RefundRow(c.order, c.amount.value, c.on.asset, c.reason, payment.value)]
    }

    /** Find who paid, then pay back and record. */
    method PayBack(c: Call, reply: Result<string, Failure>, refund: Id, db: RefundFaults,
                   ghost s: Shop, ghost before: seq<Step>)
      returns (r: Result<Id, Failure>, ghost run: seq<Step>)
      requires c.Refund? && c.on.Checked? && c.amount.Some? && c.order in orders
      requires c.on.invoice == InvoiceOf(orders[c.order])
      requires Reached(s, before, orders, refunds, c) && After(s, before).payers == payers
      requires refund !in refunds && refund !in After(s, before).issued
      requires OnlyRefunds(before, |s.calls|, c, reply, refund, db)
      modifies `orders, `refunds, `requests
      ensures EndsRefund(s, run, orders, refunds, c, r)
      ensures OnlyRefunds(run, |s.calls|, c, reply, refund, db)
      ensures r.Ok? <==> db.payer && HasPayer(old(orders)[c.order]) && reply.Ok? && db.insert && db.mark
      ensures r.Ok? ==> r == Ok(refund)
      ensures orders == if r.Ok? then MarkOrderRefunded(old(orders), c.order) else old(orders)
      ensures requests == old(requests) +
        if db.payer && HasPayer(old(orders)[c.order]) then [Keysend(PayerOf(old(orders)[c.order]), c.amount.value)]
        else []
      ensures refund in refunds <==> db.payer && HasPayer(old(orders)[c.order]) && reply.Ok? && db.insert
      ensures RowsAfter(old(refunds), refund, c, reply)
    {
      ghost var find := FindPayer(|s.calls|, db.payer);
      var payer := PayerPubkey(c.on.invoice, db.payer);
      ghost var on := if payer.Ok? then Ready(c.on.asset, payer.value) else RefundFailed(payer.error);
      FindsPayer(s, before, c, orders, refunds, db.payer, on);
      StillRefunds(before, find, |s.calls|, c, reply, refund, db);
      run := before + [find];
      if payer.Err? {
        return Err(payer.error), run;
      }
      r, run := SendAndRecord(c.(on := Ready(c.on.asset, payer.value)), reply, refund, db, s, run);
    }

    /** Somebody is on record as having paid the order's invoice. */
    ghost predicate HasPayer(o: Order)
      reads `payers
    {
      InvoiceOf(o) in payers && payers[InvoiceOf(o)].Some? && payers[InvoiceOf(o)].value != ""
    }

    /** Who that is. */
    ghost function PayerOf(o: Order): string
      reads `payers
    {
      var hash := if o.invoice.Some? then o.invoice.value else "";
      if hash in payers && payers[hash].Some? then payers[hash].value else ""
    }

    /** Pay out and record the row, then mark the order. */
    method SendAndRecord(c: Call, reply: Result<string, Failure>, refund: Id, db: RefundFaults,
                         ghost s: Shop, ghost before: seq<Step>)
      returns (r: Result<Id, Failure>, ghost run: seq<Step>)
      requires c.Refund? && c.on.Ready? && c.amount.Some? && c.order in orders
      requires Reached(s, before, orders, refunds, c)
      requires refund !in refunds && refund !in After(s, before).issued
      requires OnlyRefunds(before, |s.calls|, c, reply, refund, db)
      modifies `orders, `refunds, `requests
      ensures EndsRefund(s, run, orders, refunds, c, r)
      ensures OnlyRefunds(run, |s.calls|, c, reply, refund, db)
      ensures r.Ok? <==> reply.Ok? && db.insert && db.mark
      ensures r.Ok? ==> r == Ok(refund)
      ensures orders == if r.Ok? then MarkOrderRefunded(old(orders), c.order) else old(orders)
      ensures requests == old(requests) + [Keysend(c.on.payer, c.amount.value)]
      ensures refund in refunds <==> reply.Ok? && db.insert
      ensures RowsAfter(old(refunds), refund, c, reply)
    {
      ghost var k := |s.calls|;
      ghost var send, insert := SendRefund(k, reply), InsertRefund(k, refund, db.insert);
      Sends(s, before, c, orders, refunds, reply);
      StillRefunds(before, send, k, c, reply, refund, db);
      run := before + [send];
      requests := requests + [Keysend(c.on.payer, c.amount.value)];
      if reply.Err? {
        return Err(reply.error), run;
      }
      Records(s, run, c.(on := Sent(c.on.asset, reply.value)), orders, refunds, refund, db.insert);
      StillRefunds(run, insert, k, c, reply, refund, db);
      run := run + [insert];
      if !db.insert {
        return Err(Unavailable), run;
      }
      refunds := refunds[refund := RefundRow(c.order, c.amount.value, c.on.asset, c.reason, reply.value)];
      r, run := Mark(c.(on := Recorded(refund)), reply, refund, db, s, run);
    }

    /** Mark the order refunded, whatever its status is by then. */
    method Mark(c: Call, ghost reply: Result<string, Failure>, refund: Id, db: RefundFaults,
                ghost s: Shop, ghost before: seq<Step>)
      returns (r: Result<Id, Failure>, ghost run: seq<Step>)
      requires c.Refund? && c.on == Recorded(refund) && c.order in orders
      requires Reached(s, before, orders, refunds, c)
      requires OnlyRefunds(before, |s.calls|, c, reply, refund, db)
      modifies `orders
      ensures EndsRefund(s, run, orders, refunds, c, r)
      ensures OnlyRefunds(run, |s.calls|, c, reply, refund, db)
      ensures r == if db.mark then Ok(refund) else Err(Unavailable)
      ensures orders == if db.mark then MarkOrderRefunded(old(orders), c.order) else old(orders)
    {
      ghost var mark := MarkRefunded(|s.calls|, db.mark);
      Marks(s, before, c, orders, refunds, db.mark);
      StillRefunds(before, mark, |s.calls|, c, reply, refund, db);
      run := before + [mark];
      if !db.mark {
        return Err(Unavailable), run;
      }
      orders := orders[c.order := orders[c.order].(status := Refunded)];
      r := Ok(refund);
    }
  }
}
