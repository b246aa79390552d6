/** internal/indexer: the projector object, flushing one raw change per transaction. */
module Projector {
  import opened Basics
  import Outbox
  import opened Derive
  import opened Projection
  import opened SavedRows

  /** The shared Postgres database: what other sessions see. */
  class Database {
    var tables: Tables

    constructor (tables: Tables)
      ensures this.tables == tables
    {
      this.tables := tables;
    }
  }

  /** An open transaction: its private view, and how many statements will get through. */
  class Tx {
    var tables: Tables
    var left: nat

    constructor (db: Database, left: nat)
      ensures tables == db.tables && this.left == left
    {
      tables := db.tables;
      this.left := left;
    }

    /** Sends one statement; false when the connection fails instead. */
    method Exec() returns (ok: bool)
      modifies this`left
      ensures ok == (old(left) > 0)
      ensures left == if ok then old(left) - 1 else 0
    {
      ok := left > 0;
      if ok {
        left := left - 1;
      }
    }
  }

  /**
   * What a step of the transaction promises: success means the specified tables, an error of
   * the code's own means the specified error, and Database only when the connection failed.
   */
  ghost predicate Follows(res: Result<(), Error>, spec: Result<Tables, Error>, tables: Tables, left: nat) {
    && (res.Ok? ==> spec == Ok(tables))
    && (res.Err? && res.error != Database ==> spec == Err(res.error))
    && (res == Err(Error.Database) ==> left == 0)
  }

  /** Statements an event's part of the transaction may need. */
  function EventCost(endpoints: map<Id, Endpoint>, e: Event): nat {
    4 + |Matching(endpoints, e.kind)|
  }

  /** Statements enough for a whole flush. */
  function FlushCost(endpoints: map<Id, Endpoint>, buf: seq<Event>): nat {
    if buf == [] then 1 else FlushCost(endpoints, buf[..|buf| - 1]) + EventCost(endpoints, buf[|buf| - 1])
  }

  lemma {:induction false} FanOutKeys(endpoints: map<Id, Endpoint>, done: set<Id>, ep: Id, e: Event, now: Instant)
    requires e.encoded.Some? && done + {ep} <= endpoints.Keys
    ensures FanOut(endpoints, done + {ep}, e, now).Keys ==
      FanOut(endpoints, done, e, now).Keys + {DeliveryId(e.id, ep)}
  {
    assert (set x | x in done + {ep} :: DeliveryId(e.id, x)) ==
           (set x | x in done :: DeliveryId(e.id, x)) + {DeliveryId(e.id, ep)};
  }

  lemma {:induction false} FanOutGrows(endpoints: map<Id, Endpoint>, done: set<Id>, ep: Id, e: Event, now: Instant)
    requires e.encoded.Some? && done + {ep} <= endpoints.Keys
    ensures FanOut(endpoints, done + {ep}, e, now) ==
      FanOut(endpoints, done, e, now)[DeliveryId(e.id, ep) := DeliveryOf(endpoints, ep, e, now)]
  {
    var all, part := FanOut(endpoints, done + {ep}, e, now), FanOut(endpoints, done, e, now);
    FanOutKeys(endpoints, done, ep, e, now);
    FanOutAt(endpoints, done + {ep}, e, now, ep);
    forall id | id in part ensures all[id] == part[id] {
      var x := TargetOf(done, e.id, id);
      FanOutAt(endpoints, done + {ep}, e, now, x);
      FanOutAt(endpoints, done, e, now, x);
    }
  }

  lemma {:induction false} NotYet(endpoints: map<Id, Endpoint>, done: set<Id>, ep: Id, e: Event, now: Instant)
    requires e.encoded.Some? && done <= endpoints.Keys && ep !in done
    ensures DeliveryId(e.id, ep) !in FanOut(endpoints, done, e, now)
  {
    forall x | x in done ensures DeliveryId(e.id, x) != DeliveryId(e.id, ep) {
      if DeliveryId(e.id, x) == DeliveryId(e.id, ep) {
        EndpointsDoNotCollide(e.id, x, ep);
      }
    }
  }

  /** INSERT INTO webhook_deliveries ... ON CONFLICT (id) DO NOTHING, for one endpoint. */
  function InsertDelivery(t: Tables, ep: Id, e: Event, now: Instant): Outbox.Rows
    requires ep in t.endpoints && e.encoded.Some?
  {
    var id := DeliveryId(e.id, ep);
    if id in t.deliveries then t.deliveries else t.deliveries[id := DeliveryOf(t.endpoints, ep, e, now)]
  }

  /** The deliveries of t after the endpoints in `done` have been served. */
  ghost function Served(t: Tables, done: set<Id>, e: Event, now: Instant): Tables
    requires e.encoded.Some? && done <= t.endpoints.Keys
  {
    t.(deliveries := Outbox.InsertMissing(t.deliveries, FanOut(t.endpoints, done, e, now)))
  }

  lemma {:induction false} NothingServed(t: Tables, e: Event, now: Instant)
    requires e.encoded.Some?
    ensures Served(t, {}, e, now) == t
  {
    assert FanOut(t.endpoints, {}, e, now) == map[];
  }

  lemma {:induction false} InsertGrows<V>(present: map<Id, V>, added: map<Id, V>, id: Id, v: V)
    requires id !in added
    ensures var before := Outbox.InsertMissing(present, added);
      Outbox.InsertMissing(present, added[id := v]) == if id in before then before else before[id := v]
  {
  }

  lemma {:induction false} OneMoreDelivery(t: Tables, done: set<Id>, ep: Id, e: Event, now: Instant)
    requires e.encoded.Some? && done + {ep} <= t.endpoints.Keys && ep !in done
    ensures Served(t, done + {ep}, e, now).deliveries == InsertDelivery(Served(t, done, e, now), ep, e, now)
  {
    FanOutGrows(t.endpoints, done, ep, e, now);
    NotYet(t.endpoints, done, ep, e, now);
    var row := DeliveryOf(t.endpoints, ep, e, now);
    InsertGrows(t.deliveries, FanOut(t.endpoints, done, e, now), DeliveryId(e.id, ep), row);
  }

  class Projector {
    const db: Database
    var buf: seq<Event>

    constructor (db: Database)
      ensures this.db == db && buf == []
    {
      this.db := db;
      buf := [];
    }

    /** Buffers one event of the current raw change. */
    method Handle(e: Event)
      modifies this
      ensures buf == old(buf) + [e]
    {
      buf := buf + [e];
    }

    /** The last committed seq, 0 if none. */
    method Load() returns (seqNo: int)
      ensures db.tables.checkpoint == None ==> seqNo == 0
      ensures db.tables.checkpoint.Some? ==> db.tables.checkpoint == Some(seqNo)
    {
      match db.tables.checkpoint
      case None => seqNo := 0;
      case Some(n) => seqNo := n;
    }

    /**
     * Flushes the buffer and the checkpoint in one transaction. `left` statements get through
     * before the connection fails, and the final COMMIT succeeds only if `commits`.
     */
    method Save(seqNo: int, now: Instant, left: nat, commits: bool) returns (res: Result<(), Error>)
      modifies this, db
      ensures buf == []
      ensures res.Ok? ==> Flush(old(db.tables), old(buf), seqNo, now) == Ok(db.tables)
      ensures res.Ok? ==> DeliveriesSaved(old(db.tables), db.tables, old(buf), now)
      ensures res.Ok? ==> EventsSaved(old(db.tables), db.tables, old(buf), seqNo)
      ensures res.Ok? ==> db.tables.checkpoint == Some(seqNo) && db.tables.endpoints == old(db.tables).endpoints
      ensures res.Err? ==> db.tables == old(db.tables)
      ensures res.Err? && res.error != Error.Database ==>
        Flush(old(db.tables), old(buf), seqNo, now) == Err(res.error)
      ensures commits && left >= FlushCost(old(db.tables).endpoints, old(buf)) ==> res != Err(Error.Database)
    {
      var pending := buf;
      buf := [];
      var tx := new Tx(db, left);
      res := FlushInto(tx, pending, seqNo, now);
      if res.Ok? {
        if !commits {
          return Err(Error.Database);
        }
        FlushSavesRows(db.tables, pending, seqNo, now);
        db.tables := tx.tables;
      }
    }

    /** The function Save runs inside the transaction. */
    method FlushInto(tx: Tx, pending: seq<Event>, seqNo: int, now: Instant) returns (res: Result<(), Error>)
      modifies tx
      ensures Follows(res, Flush(old(tx.tables), pending, seqNo, now), tx.tables, tx.left)
      ensures old(tx.left) >= FlushCost(old(tx.tables).endpoints, pending) ==> res != Err(Error.Database)
    {
      ghost var start := tx.tables;
      for i := 0 to |pending|
        invariant ApplyAll(start, pending[..i], seqNo, now) == Ok(tx.tables)
        invariant tx.tables.endpoints == start.endpoints
        invariant tx.left + FlushCost(start.endpoints, pending[..i]) > old(tx.left)
      {
        assert pending[..i + 1][..i] == pending[..i];
        CostGrows(start.endpoints, pending, i + 1);
        res := ApplyEvent(tx, pending[i], seqNo, now);
        if res.Err? {
          ErrorsStick(start, pending, i + 1, seqNo, now);
          return;
        }
      }
      assert pending[..|pending|] == pending;
      var ok := tx.Exec();
      if !ok {
        return Err(Error.Database);
      }
      tx.tables := tx.tables.(checkpoint := Some(seqNo));
      return Ok(());
    }

    method ApplyEvent(tx: Tx, e: Event, seqNo: int, now: Instant) returns (res: Result<(), Error>)
      modifies tx
      ensures Follows(res, Projection.ApplyEvent(old(tx.tables), e, seqNo, now), tx.tables, tx.left)
      ensures tx.tables.endpoints == old(tx.tables).endpoints
      ensures tx.left + EventCost(tx.tables.endpoints, e) >= old(tx.left)
      ensures old(tx.left) >= EventCost(tx.tables.endpoints, e) ==> res != Err(Error.Database)
    {
      var ok := tx.Exec();
      if !ok {
        return Err(Error.Database);
      }
      var asset, amount := AssetAmount(e);
      if e.id !in tx.tables.events {
        var ref := if e.fiberRef == "" then None else Some(e.fiberRef);
        var row := EventRow(e.kind, ref, asset, amount, e.data.raw, e.createdAt, seqNo);
        tx.tables := tx.tables.(events := tx.tables.events[e.id := row]);
      }
      res := ProjectEvent(tx, e);
      if res.Ok? {
        res := EnqueueDeliveries(tx, e, now);
      }
    }

    /** The asset and amount columns: of the typed payload if it decodes, else NULL. */
    method AssetAmount(e: Event) returns (asset: Option<string>, amount: Option<nat>)
      ensures AssetAmountOf(asset, amount, e)
      ensures asset == EventAsset(e) && amount == EventAmount(e)
    {
      if e.kind.InvoicePaid? && e.data.invoicePaid.Some? {
        var d := e.data.invoicePaid.value;
        return if d.asset == "" then None else Some(d.asset), Some(d.amount);
      }
      if e.kind.PaymentReceived? && e.data.paymentReceived.Some? {
        var d := e.data.paymentReceived.value;
        return if d.asset == "" then None else Some(d.asset), Some(d.amount);
      }
      return None, None;
    }

    method ProjectEvent(tx: Tx, e: Event) returns (res: Result<(), Error>)
      modifies tx
      ensures Follows(res, Project(old(tx.tables), e), tx.tables, tx.left)
      ensures tx.tables.endpoints == old(tx.tables).endpoints
      ensures tx.left + 2 >= old(tx.left)
      ensures old(tx.left) >= 2 ==> res != Err(Error.Database)
    {
      if e.kind.InvoicePaid? {
        if e.data.invoicePaid.None? {
          return Err(Undecodable(e.kind));
        }
        var d := e.data.invoicePaid.value;
        var ok := tx.Exec();
        if !ok {
          return Err(Error.Database);
        }
        var asset, amount := if d.asset == "" then None else Some(d.asset), Some(d.amount);
        if d.hash in tx.tables.invoices {
          var was := tx.tables.invoices[d.hash];
          asset := if was.asset.Some? then was.asset else asset;
          amount := if was.amount.Some? then was.amount else amount;
        }
        var row := InvoiceRow("paid", asset, amount, d.settledAt);
        tx.tables := tx.tables.(invoices := tx.tables.invoices[d.hash := row]);
        ok := tx.Exec();
        if !ok {
          return Err(Error.Database);
        }
        var orders := tx.tables.orders;
        tx.tables := tx.tables.(orders := map o | o in orders ::
          if orders[o].invoice == Some(d.hash) && orders[o].status == Unpaid
          then orders[o].(status := Paid, paidAt := Some(d.settledAt)) else orders[o]);
      } else if e.kind.PaymentReceived? {
        if e.data.paymentReceived.None? {
          return Err(Undecodable(e.kind));
        }
        var ok := tx.Exec();
        if !ok {
          return Err(Error.Database);
        }
        var d := e.data.paymentReceived.value;
        var asset, peer := if d.asset == "" then None else Some(d.asset), if d.payer == "" then None else Some(d.payer);
        var created := if d.hash in tx.tables.payments then tx.tables.payments[d.hash].createdAt else e.createdAt;
        var row := PaymentRow("received", "succeeded", asset, Some(d.amount), peer, created, e.createdAt);
        tx.tables := tx.tables.(payments := tx.tables.payments[d.hash := row]);
      } else if e.kind.ChannelOpened? {
        if e.data.channelOpened.None? {
          return Err(Undecodable(e.kind));
        }
        var ok := tx.Exec();
        if !ok {
          return Err(Error.Database);
        }
        var d := e.data.channelOpened.value;
        var row := ChannelRow(if d.peer == "" then None else Some(d.peer), "open", Some(d.capacity), e.createdAt);
        tx.tables := tx.tables.(channels := tx.tables.channels[d.channel := row]);
      }
      return Ok(());
    }

    /** One insert per matching endpoint, in whatever order the query returned them. */
    method EnqueueDeliveries(tx: Tx, e: Event, now: Instant) returns (res: Result<(), Error>)
      modifies tx
      ensures Follows(res, Enqueue(old(tx.tables), e, now), tx.tables, tx.left)
      ensures tx.tables.endpoints == old(tx.tables).endpoints
      ensures tx.left + 1 + |Matching(tx.tables.endpoints, e.kind)| >= old(tx.left)
      ensures old(tx.left) >= 1 + |Matching(tx.tables.endpoints, e.kind)| ==> res != Err(Error.Database)
    {
      var ok := tx.Exec();
      if !ok {
        return Err(Error.Database);
      }
      var all := tx.tables.endpoints;
      var eps := set ep | ep in all && all[ep].active && e.kind in all[ep].kinds;
      assert eps == Matching(all, e.kind);
      if eps == {} {
        return Ok(());
      }
      if e.encoded.None? {
        return Err(Unencodable);
      }
      ok := InsertDeliveries(tx, eps, e, now);
      return if ok then Ok(()) else Err(Error.Database);
    }

    method InsertDeliveries(tx: Tx, eps: set<Id>, e: Event, now: Instant) returns (ok: bool)
      requires e.encoded.Some? && eps <= tx.tables.endpoints.Keys
      modifies tx
      ensures ok ==> tx.tables == Served(old(tx.tables), eps, e, now) && tx.left + |eps| == old(tx.left)
      ensures !ok ==> tx.left == 0 && old(tx.left) < |eps| && tx.tables.endpoints == old(tx.tables).endpoints
    {
      ghost var t := tx.tables;
      ghost var done: set<Id> := {};
      NothingServed(t, e, now);
      var todo := eps;
      while todo != {}
        invariant todo !! done && todo + done == eps
        invariant tx.tables == Served(t, done, e, now)
        invariant tx.left + |eps| == old(tx.left) + |todo|
        decreases |todo|
      {
        var ep :| ep in todo;
        ok := tx.Exec();
        if !ok {
          return;
        }
        OneMoreDelivery(t, done, ep, e, now);
        var id, target := DeliveryId(e.id, ep), tx.tables.endpoints[ep];
        if id !in tx.tables.deliveries {
          var row := Outbox.Delivery(ep, e.id, target.url, target.secret, e.encoded.value,
                                     Outbox.Pending, 0, now, None);
          tx.tables := tx.tables.(deliveries := tx.tables.deliveries[id := row]);
        }
        todo, done := todo - {ep}, done + {ep};
      }
      assert done == eps;
      return true;
    }
  }

  lemma {:induction false} CostGrows(endpoints: map<Id, Endpoint>, buf: seq<Event>, n: nat)
    requires 0 < n <= |buf|
    ensures FlushCost(endpoints, buf[..n]) == FlushCost(endpoints, buf[..n - 1]) + EventCost(endpoints, buf[n - 1])
    ensures FlushCost(endpoints, buf[..n]) <= FlushCost(endpoints, buf)
    decreases |buf|
  {
    assert buf[..n][..n - 1] == buf[..n - 1];
    if n == |buf| {
      assert buf[..n] == buf;
    } else {
      CostGrows(endpoints, buf[..|buf| - 1], n);
      assert buf[..|buf| - 1][..n] == buf[..n] && buf[..|buf| - 1][..n - 1] == buf[..n - 1];
    }
  }

  /** An event that fails the transaction fails it for every longer buffer. */
  lemma {:induction false} ErrorsStick(t: Tables, buf: seq<Event>, n: nat, seqNo: int, now: Instant)
    requires n <= |buf|
    ensures ApplyAll(t, buf[..n], seqNo, now).Err? ==> ApplyAll(t, buf, seqNo, now) == ApplyAll(t, buf[..n], seqNo, now)
    decreases |buf|
  {
    if n == |buf| {
      assert buf[..n] == buf;
    } else {
      ErrorsStick(t, buf[..|buf| - 1], n, seqNo, now);
      assert buf[..|buf| - 1][..n] == buf[..n];
    }
  }
}
