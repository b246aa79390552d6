/**
 * Everything that touches the outbox, as one state machine: producers enqueue, any
 * number of workers claim and mark, workers crash, the sweeper requeues, an operator
 * replays, and time passes. A worker decides between retry and dead letter from the
 * attempt count it was handed when it claimed.
 */
module Dispatch {
  import opened Basics
  import opened Outbox

  /** One delivery handed to a worker; `open` until the worker marks it or crashes. */
  datatype Claim = Claim(id: Id, attempts: nat, leaseEnd: Instant, open: bool)

  /** What happened, in order: every log row, and every replay (which leaves no log row). */
  datatype Entry = Logged(row: LogRow) | Replayed(id: Id)

  datatype Sys = Sys(now: Instant, box: Box, claims: seq<Claim>, history: seq<Entry>)

  datatype Step =
    | Tick(elapsed: nat)
    | Enqueue(added: Rows)
    | ClaimDue(limit: nat, start: Instant, batch: seq<Id>)
    | SendOk(claim: nat)
    | SendFailed(claim: nat, delay: nat, msg: string)
    | Crash(claim: nat)
    | Requeue
    | Replay(id: Id, endpoint: Id)

  predicate OpenClaim(s: Sys, k: int) {
    0 <= k < |s.claims| && s.claims[k].open
  }

  /** A claim its worker may still mark before the lease ends. */
  predicate Live(s: Sys, k: int) {
    OpenClaim(s, k) && s.now < s.claims[k].leaseEnd
  }

  ghost predicate Enabled(s: Sys, step: Step) {
    match step
    case Tick(_) => true
    case Enqueue(added) => forall id :: id in added ==> FreshRow(added[id], s.now)
    case ClaimDue(limit, start, batch) =>
      && start <= s.now && |batch| <= limit && NoDuplicates(batch)
      && forall id :: id in batch ==> id in s.box.rows && Claimable(s.box.rows[id], start)
    case SendOk(k) => OpenClaim(s, k)
    case SendFailed(k, delay, _) => OpenClaim(s, k) && delay <= BACKOFF_CAP
    case Crash(k) => OpenClaim(s, k)
    case Requeue => true
    case Replay(_, _) => true
  }

  function Close(claims: seq<Claim>, k: nat): (r: seq<Claim>)
    requires k < |claims|
    ensures |r| == |claims|
  {
    claims[k := claims[k].(open := false)]
  }

  /** The in-memory batch ClaimDue returns: attempts as stored, the pushed-out due time. */
  function Handed(rows: Rows, batch: seq<Id>, start: Instant): (r: seq<Claim>)
    requires forall id :: id in batch ==> id in rows
    ensures |r| == |batch|
  {
    seq(|batch|, i requires 0 <= i < |batch| => Claim(batch[i], rows[batch[i]].attempts, start + LEASE, true))
  }

  /** The dispatcher's rule after a failed send. */
  function AfterFailure(b: Box, c: Claim, due: Instant, msg: string, max: nat): Box {
    if c.attempts + 1 >= max then MarkDead(b, c.id) else MarkFailed(b, c.id, due, msg)
  }

  function Record(before: Box, after: Box): (r: seq<Entry>)
    requires |before.log| <= |after.log|
    ensures |r| == |after.log| - |before.log|
  {
    seq(|after.log| - |before.log|,
        i requires 0 <= i < |after.log| - |before.log| => Logged(after.log[|before.log| + i]))
  }

  function Marked(s: Sys, k: nat, box: Box): Sys
    requires k < |s.claims| && |s.box.log| <= |box.log|
  {
    s.(box := box, claims := Close(s.claims, k), history := s.history + Record(s.box, box))
  }

  ghost function Apply(s: Sys, step: Step, max: nat): Sys
    requires Enabled(s, step)
  {
    match step
    case Tick(elapsed) => s.(now := s.now + elapsed)
    case Enqueue(added) => s.(box := s.box.(rows := InsertMissing(s.box.rows, added)))
    case ClaimDue(_, start, batch) =>
      s.(box := s.box.(rows := ClaimRows(s.box.rows, ToSet(batch), start)),
         claims := s.claims + Handed(s.box.rows, batch, start))
    case SendOk(k) => Marked(s, k, MarkSucceeded(s.box, s.claims[k].id))
    case SendFailed(k, delay, msg) =>
      Marked(s, k, AfterFailure(s.box, s.claims[k], s.now + delay, msg, max))
    case Crash(k) => s.(claims := Close(s.claims, k))
    case Requeue => s.(box := s.box.(rows := RequeueRows(s.box.rows, s.now)))
    case Replay(id, endpoint) =>
      s.(box := s.box.(rows := ReplayRows(s.box.rows, id, endpoint, s.now)),
         history := s.history + if ReplayHits(s.box.rows, id, endpoint) then [Replayed(id)] else [])
  }

  ghost predicate Admissible(s: Sys, run: seq<Step>, max: nat)
    decreases |run|
  {
    run != [] ==> Enabled(s, run[0]) && Admissible(Apply(s, run[0], max), run[1..], max)
  }

  ghost function Final(s: Sys, run: seq<Step>, max: nat): Sys
    requires Admissible(s, run, max)
    decreases |run|
  {
    if run == [] then s else Final(Apply(s, run[0], max), run[1..], max)
  }

  lemma {:induction false} OneMoreStep(s: Sys, run: seq<Step>, step: Step, max: nat)
    requires Admissible(s, run, max) && Enabled(Final(s, run, max), step)
    ensures Admissible(s, run + [step], max)
    ensures Final(s, run + [step], max) == Apply(Final(s, run, max), step, max)
    decreases |run|
  {
    if run == [] {
      assert run + [step] == [step];
    } else {
      OneMoreStep(Apply(s, run[0], max), run[1..], step, max);
      assert (run + [step])[1..] == run[1..] + [step];
    }
  }

  predicate IsMark(step: Step) {
    step.SendOk? || step.SendFailed?
  }

  function MarkSteps(run: seq<Step>): nat {
    if run == [] then 0 else (if IsMark(run[0]) then 1 else 0) + MarkSteps(run[1..])
  }

  predicate Initial(s: Sys) {
    s.box == Box(map[], []) && s.claims == [] && s.history == []
  }
}
