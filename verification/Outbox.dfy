/**
 * The webhook delivery outbox: its two tables and, statement by statement, what
 * internal/webhook/store.go and the replay handler do to them.
 */
module Outbox {
  import opened Basics

  /** How long a claimed row counts as in flight before Requeue may reclaim it. */
  const LEASE: int := 300 * SECOND

  /** The largest retry delay the dispatcher is configured with. */
  const BACKOFF_CAP: int := 300 * SECOND

  datatype Status = Pending | Delivering | Succeeded | Failed | Dead

  datatype Delivery = Delivery(
    endpoint: Id, event: Id, url: string, secret: string, payload: string,
    status: Status, attempts: nat, due: Instant, lastError: Option<string>)

  datatype LogRow = LogRow(delivery: Id, attemptNo: nat, error: Option<string>)

  type Rows = map<Id, Delivery>

  datatype Box = Box(rows: Rows, log: seq<LogRow>)

  predicate Waiting(d: Delivery) {
    d.status == Pending || d.status == Failed
  }

  /** The WHERE clause of ClaimDue. */
  predicate Claimable(d: Delivery, now: Instant) {
    Waiting(d) && d.due <= now
  }

  /** A row that is owed another attempt. */
  predicate Unsettled(d: Delivery) {
    d.status != Succeeded && d.status != Dead
  }

  function DueIds(rows: Rows, now: Instant): set<Id> {
    set id | id in rows && Claimable(rows[id], now)
  }

  /**
   * The rows ORDER BY next_attempt_at LIMIT limit may select when nothing is locked:
   * as many due rows as the limit allows, none of them due after a row left behind.
   */
  ghost predicate IsBatch(rows: Rows, now: Instant, limit: nat, batch: set<Id>) {
    && batch <= DueIds(rows, now)
    && |batch| == Min(limit, |DueIds(rows, now)|)
    && forall x, y :: x in batch && y in DueIds(rows, now) - batch ==> rows[x].due <= rows[y].due
  }

  /** UPDATE ... SET status = 'delivering', next_attempt_at = now() + lease. */
  function ClaimRows(rows: Rows, batch: set<Id>, now: Instant): Rows {
    map id | id in rows ::
      if id in batch then rows[id].(status := Delivering, due := now + LEASE) else rows[id]
  }

  function MarkSucceeded(b: Box, id: Id): Box {
    if id !in b.rows then b else
      Box(b.rows[id := b.rows[id].(status := Succeeded)],
          b.log + [LogRow(id, b.rows[id].attempts + 1, None)])
  }

  function MarkFailed(b: Box, id: Id, next: Instant, msg: string): Box {
    if id !in b.rows then b else
      var d := b.rows[id];
      var d' := d.(attempts := d.attempts + 1, status := Failed, due := next, lastError := Some(msg));
      Box(b.rows[id := d'], b.log + [LogRow(id, d'.attempts, Some(msg))])
  }

  function MarkDead(b: Box, id: Id): Box {
    if id !in b.rows then b else
      var d := b.rows[id];
      var d' := d.(attempts := d.attempts + 1, status := Dead);
      Box(b.rows[id := d'], b.log + [LogRow(id, d'.attempts, Some("max attempts exceeded"))])
  }

  predicate LeaseExpired(d: Delivery, now: Instant) {
    d.status == Delivering && d.due <= now
  }

  function RequeueRows(rows: Rows, now: Instant): Rows {
    map id | id in rows ::
      if LeaseExpired(rows[id], now) then rows[id].(status := Pending, due := now) else rows[id]
  }

  predicate ReplayHits(rows: Rows, id: Id, endpoint: Id) {
    id in rows && rows[id].endpoint == endpoint
  }

  function ReplayRows(rows: Rows, id: Id, endpoint: Id, now: Instant): Rows {
    if !ReplayHits(rows, id, endpoint) then rows else
      rows[id := rows[id].(status := Pending, attempts := 0, due := now, lastError := None)]
  }

  /** INSERT ... ON CONFLICT (id) DO NOTHING: a row that exists already wins. */
  function InsertMissing<V>(present: map<Id, V>, added: map<Id, V>): (r: map<Id, V>)
    ensures r.Keys == present.Keys + added.Keys
    ensures forall id :: id in present ==> r[id] == present[id]
    ensures forall id :: id in added && id !in present ==> r[id] == added[id]
  {
    added + present
  }

  /** A row as both producers insert it. */
  predicate FreshRow(d: Delivery, now: Instant) {
    d.status == Pending && d.attempts == 0 && d.due == now && d.lastError == None
  }
}
