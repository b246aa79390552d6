/** The attempt log tells the truth in every run, stale workers and crashes included. */
module AttemptLog {
  import opened Basics
  import opened Outbox
  import opened Dispatch

  /** Failed attempts of a delivery since it was last replayed by hand. */
  function FailuresSinceReplay(h: seq<Entry>, id: Id): nat {
    if h == [] then 0 else
      var earlier := FailuresSinceReplay(h[..|h| - 1], id);
      match h[|h| - 1]
      case Replayed(x) => if x == id then 0 else earlier
      case Logged(row) => if row.delivery == id && row.error.Some? then earlier + 1 else earlier
  }

  /** The webhook_delivery_log table is the history without the replays. */
  function LogOf(h: seq<Entry>): seq<LogRow> {
    if h == [] then [] else
      LogOf(h[..|h| - 1]) + match h[|h| - 1] { case Logged(row) => [row] case Replayed(_) => [] }
  }

  /** A log row carries the number of the attempt it reports, counted since the last replay. */
  ghost predicate NumberedInOrder(h: seq<Entry>) {
    forall i :: 0 <= i < |h| && h[i].Logged? ==>
      h[i].row.attemptNo == FailuresSinceReplay(h[..i], h[i].row.delivery) + 1
  }

  ghost predicate LogAgrees(s: Sys) {
    && (forall id :: id in s.box.rows ==> s.box.rows[id].attempts == FailuresSinceReplay(s.history, id))
    && (forall id :: id !in s.box.rows ==> FailuresSinceReplay(s.history, id) == 0)
    && NumberedInOrder(s.history)
    && LogOf(s.history) == s.box.log
    && forall k :: 0 <= k < |s.claims| ==> s.claims[k].id in s.box.rows
  }

  /** What one more entry does to a delivery's failure count. */
  function Bump(e: Entry, id: Id, count: nat): nat {
    match e
    case Replayed(x) => if x == id then 0 else count
    case Logged(row) => if row.delivery == id && row.error.Some? then count + 1 else count
  }

  lemma {:induction false} OneMore(h: seq<Entry>, e: Entry)
    ensures forall id :: FailuresSinceReplay(h + [e], id) == Bump(e, id, FailuresSinceReplay(h, id))
    ensures LogOf(h + [e]) == LogOf(h) + match e { case Logged(row) => [row] case Replayed(_) => [] }
    ensures NumberedInOrder(h) && (e.Logged? ==> e.row.attemptNo == FailuresSinceReplay(h, e.row.delivery) + 1)
      ==> NumberedInOrder(h + [e])
  {
    var g := h + [e];
    assert g[..|g| - 1] == h;
    forall i | 0 <= i < |h| ensures g[..i] == h[..i] {}
  }

  lemma {:induction false} MarkKeepsLogAgreement(s: Sys, k: nat, box: Box, e: LogRow)
    requires LogAgrees(s) && k < |s.claims|
    requires box.rows.Keys == s.box.rows.Keys && box.log == s.box.log + [e]
    requires e.delivery in s.box.rows && e.attemptNo == s.box.rows[e.delivery].attempts + 1
    requires forall id :: id in box.rows ==>
      box.rows[id].attempts == Bump(Logged(e), id, s.box.rows[id].attempts)
    ensures LogAgrees(Marked(s, k, box))
  {
    assert Record(s.box, box) == [Logged(e)];
    OneMore(s.history, Logged(e));
  }

  /** A step that logs nothing and leaves every attempt count alone. */
  lemma {:induction false} QuietStepKeepsLogAgreement(s: Sys, s': Sys)
    requires LogAgrees(s)
    requires s'.history == s.history && s'.box.log == s.box.log && s.box.rows.Keys <= s'.box.rows.Keys
    requires forall id :: id in s'.box.rows ==>
      s'.box.rows[id].attempts == if id in s.box.rows then s.box.rows[id].attempts else 0
    requires forall k :: 0 <= k < |s'.claims| ==> s'.claims[k].id in s.box.rows
    ensures LogAgrees(s')
  {
  }

  lemma {:induction false} ReplayKeepsLogAgreement(s: Sys, id: Id, endpoint: Id, max: nat)
    requires LogAgrees(s) && ReplayHits(s.box.rows, id, endpoint)
    ensures LogAgrees(Apply(s, Replay(id, endpoint), max))
  {
    OneMore(s.history, Replayed(id));
  }

  /** The step keeps agreement and logs this many rows. */
  ghost predicate Agrees(s: Sys, step: Step, max: nat, logged: nat)
    requires Enabled(s, step)
  {
    LogAgrees(Apply(s, step, max)) && |Apply(s, step, max).box.log| == |s.box.log| + logged
  }

  lemma {:induction false} LogsOneFailure(b: Box, c: Claim, due: Instant, msg: string, max: nat)
    requires c.id in b.rows
    ensures var box := AfterFailure(b, c, due, msg, max);
      && box.rows.Keys == b.rows.Keys && |box.log| == |b.log| + 1
      && box.log == b.log + [box.log[|b.log|]]
      && var e := box.log[|b.log|];
      && e.delivery == c.id && e.attemptNo == b.rows[c.id].attempts + 1
      && forall id :: id in box.rows ==> box.rows[id].attempts == Bump(Logged(e), id, b.rows[id].attempts)
  {
  }

  lemma {:induction false} FailureKeepsLogAgreement(s: Sys, k: nat, delay: nat, msg: string, max: nat)
    requires LogAgrees(s) && Enabled(s, SendFailed(k, delay, msg))
    ensures Agrees(s, SendFailed(k, delay, msg), max, 1)
  {
    var box := AfterFailure(s.box, s.claims[k], s.now + delay, msg, max);
    assert Apply(s, SendFailed(k, delay, msg), max) == Marked(s, k, box);
    LogsOneFailure(s.box, s.claims[k], s.now + delay, msg, max);
    MarkKeepsLogAgreement(s, k, box, box.log[|s.box.log|]);
  }

  lemma {:induction false} SuccessKeepsLogAgreement(s: Sys, k: nat, max: nat)
    requires LogAgrees(s) && Enabled(s, SendOk(k))
    ensures Agrees(s, SendOk(k), max, 1)
  {
    var id := s.claims[k].id;
    MarkKeepsLogAgreement(s, k, MarkSucceeded(s.box, id), LogRow(id, s.box.rows[id].attempts + 1, None));
  }

  lemma {:induction false} ReplayAgrees(s: Sys, id: Id, endpoint: Id, max: nat)
    requires LogAgrees(s)
    ensures Agrees(s, Replay(id, endpoint), max, 0)
  {
    if ReplayHits(s.box.rows, id, endpoint) {
      ReplayKeepsLogAgreement(s, id, endpoint, max);
    } else {
      assert Apply(s, Replay(id, endpoint), max) == s;
    }
  }

  lemma {:induction false} OtherStepKeepsLogAgreement(s: Sys, step: Step, max: nat)
    requires LogAgrees(s) && Enabled(s, step) && !IsMark(step) && !step.Replay?
    ensures Agrees(s, step, max, 0)
  {
    QuietStepKeepsLogAgreement(s, Apply(s, step, max));
  }

  lemma {:induction false} StepKeepsLogAgreement(s: Sys, step: Step, max: nat)
    requires LogAgrees(s) && Enabled(s, step)
    ensures Agrees(s, step, max, if IsMark(step) then 1 else 0)
  {
    match step
    case SendOk(k) => SuccessKeepsLogAgreement(s, k, max);
    case SendFailed(k, delay, msg) => FailureKeepsLogAgreement(s, k, delay, msg, max);
    case Replay(id, endpoint) => ReplayAgrees(s, id, endpoint, max);
    case _ => OtherStepKeepsLogAgreement(s, step, max);
  }

  /** From any agreeing state, and so from the empty outbox, agreement holds after every run. */
  lemma {:induction false} LogAgreesInEveryRun(s: Sys, run: seq<Step>, max: nat)
    requires LogAgrees(s) && Admissible(s, run, max)
    ensures LogAgrees(Final(s, run, max))
    ensures |Final(s, run, max).box.log| == |s.box.log| + MarkSteps(run)
    decreases |run|
  {
    if run != [] {
      StepKeepsLogAgreement(s, run[0], max);
      LogAgreesInEveryRun(Apply(s, run[0], max), run[1..], max);
    }
  }

  /** The attempt numbers of a delivery's failure rows since its last replay. */
  function FailureNumbers(h: seq<Entry>, id: Id): seq<nat> {
    if h == [] then [] else
      var earlier := FailureNumbers(h[..|h| - 1], id);
      match h[|h| - 1]
      case Replayed(x) => if x == id then [] else earlier
      case Logged(row) =>
        if row.delivery == id && row.error.Some? then earlier + [row.attemptNo] else earlier
  }

  lemma {:induction false} NumbersCountUp(h: seq<Entry>, id: Id)
    requires NumberedInOrder(h)
    ensures FailureNumbers(h, id) == seq(FailuresSinceReplay(h, id), i requires 0 <= i => i + 1)
  {
    if h != [] {
      var g := h[..|h| - 1];
      forall i | 0 <= i < |g| ensures g[..i] == h[..i] && g[i] == h[i] {}
      NumbersCountUp(g, id);
    }
  }

  /**
   * The statement a reader of webhook_delivery_log wants, for every run from the empty
   * outbox: the failures of a delivery since its last replay are numbered 1, 2, ..., attempts,
   * every row (success rows too) is numbered one past the failures before it, and there is
   * one row per mark.
   */
  lemma {:induction false} AttemptLogAgreement(s: Sys, run: seq<Step>, max: nat)
    requires Initial(s) && Admissible(s, run, max)
    ensures var f := Final(s, run, max);
      && LogOf(f.history) == f.box.log && |f.box.log| == MarkSteps(run)
      && NumberedInOrder(f.history)
      && forall id :: id in f.box.rows ==>
           FailureNumbers(f.history, id) == seq(f.box.rows[id].attempts, i requires 0 <= i => i + 1)
  {
    LogAgreesInEveryRun(s, run, max);
    var f := Final(s, run, max);
    forall id | id in f.box.rows
      ensures FailureNumbers(f.history, id) == seq(f.box.rows[id].attempts, i requires 0 <= i => i + 1)
    {
      NumbersCountUp(f.history, id);
    }
  }
}
