/**
 * What leases buy. Mark statements filter on the id alone, so a worker that outlives its
 * lease can still write; these results need every mark to come before its lease ends and
 * no replay of a row that is in flight. The last lemmas show that the need is real.
 */
module Leases {
  import opened Basics
  import opened Outbox
  import opened Dispatch

  /** The lease discipline, step by step. */
  ghost predicate Disciplined(s: Sys, step: Step) {
    match step
    case SendOk(k) => Live(s, k)
    case SendFailed(k, _, _) => Live(s, k)
    case Replay(id, _) => forall k :: Live(s, k) ==> s.claims[k].id != id
    case _ => true
  }

  ghost predicate DisciplinedRun(s: Sys, run: seq<Step>, max: nat)
    requires Admissible(s, run, max)
    decreases |run|
  {
    run != [] ==> Disciplined(s, run[0]) && DisciplinedRun(Apply(s, run[0], max), run[1..], max)
  }

  /** No delivery is in the hands of two workers at once. */
  ghost predicate Exclusive(s: Sys) {
    forall i, j :: Live(s, i) && Live(s, j) && s.claims[i].id == s.claims[j].id ==> i == j
  }

  /** A live claim is mirrored by its row: still delivering, due when the lease ends. */
  ghost predicate Held(s: Sys) {
    && (forall k :: Live(s, k) ==>
          var c := s.claims[k];
          c.id in s.box.rows && s.box.rows[c.id].status == Delivering && s.box.rows[c.id].due == c.leaseEnd)
    && Exclusive(s)
  }

  /** The worker's copy of the attempt count is the row's. */
  ghost predicate CountsCurrent(s: Sys) {
    forall k :: Live(s, k) && s.claims[k].id in s.box.rows ==>
      s.claims[k].attempts == s.box.rows[s.claims[k].id].attempts
  }

  /** Dead letters are exactly the rows that used up their attempts. */
  predicate WithinBudget(d: Delivery, max: nat) {
    d.attempts <= max && (d.status == Dead <==> d.attempts == max)
  }

  ghost predicate Sound(s: Sys, max: nat) {
    && Held(s) && CountsCurrent(s)
    && forall id :: id in s.box.rows ==> WithinBudget(s.box.rows[id], max)
  }

  lemma {:induction false} ClaimKeepsSound(s: Sys, limit: nat, start: Instant, batch: seq<Id>, max: nat)
    requires Sound(s, max) && Enabled(s, ClaimDue(limit, start, batch))
    ensures Sound(Apply(s, ClaimDue(limit, start, batch), max), max)
  {
    var t := Apply(s, ClaimDue(limit, start, batch), max);
    var n := |s.claims|;
    forall k | Live(t, k)
      ensures k < n ==> Live(s, k) && t.claims[k] == s.claims[k] && t.claims[k].id !in batch
      ensures k >= n ==> t.claims[k].id == batch[k - n] && t.claims[k].id in batch
    {}
  }

  lemma {:induction false} MarkKeepsSound(s: Sys, k: nat, box: Box, max: nat)
    requires Sound(s, max) && Live(s, k) && |s.box.log| <= |box.log|
    requires box.rows.Keys == s.box.rows.Keys
    requires forall id :: id in box.rows && id != s.claims[k].id ==> box.rows[id] == s.box.rows[id]
    requires WithinBudget(box.rows[s.claims[k].id], max)
    ensures Sound(Marked(s, k, box), max)
  {
    var t := Marked(s, k, box);
    forall j | Live(t, j) ensures j != k && Live(s, j) && t.claims[j] == s.claims[j] {}
  }

  lemma {:induction false} OtherStepKeepsSound(s: Sys, step: Step, max: nat)
    requires max >= 1 && Sound(s, max) && Enabled(s, step) && Disciplined(s, step)
    requires !step.ClaimDue? && !IsMark(step)
    ensures Sound(Apply(s, step, max), max)
  {
    var t := Apply(s, step, max);
    forall k | Live(t, k) ensures Live(s, k) && t.claims[k] == s.claims[k] {}
  }

  lemma {:induction false} StepKeepsSound(s: Sys, step: Step, max: nat)
    requires max >= 1 && Sound(s, max) && Enabled(s, step) && Disciplined(s, step)
    ensures Sound(Apply(s, step, max), max)
  {
    var t := Apply(s, step, max);
    match step
    case ClaimDue(limit, start, batch) => ClaimKeepsSound(s, limit, start, batch, max);
    case SendOk(k) => MarkKeepsSound(s, k, t.box, max);
    case SendFailed(k, delay, msg) => MarkKeepsSound(s, k, t.box, max);
    case _ => OtherStepKeepsSound(s, step, max);
  }

  /** Claim exclusivity and the dead-letter bound, in every disciplined run. */
  lemma {:induction false} SoundInEveryDisciplinedRun(s: Sys, run: seq<Step>, max: nat)
    requires max >= 1 && Sound(s, max) && Admissible(s, run, max) && DisciplinedRun(s, run, max)
    ensures Sound(Final(s, run, max), max)
    decreases |run|
  {
    if run != [] {
      StepKeepsSound(s, run[0], max);
      SoundInEveryDisciplinedRun(Apply(s, run[0], max), run[1..], max);
    }
  }

  /** The two promises as they read from an empty outbox. */
  lemma {:induction false} ClaimExclusivityAndDeadLetterBound(s: Sys, run: seq<Step>, max: nat)
    requires max >= 1 && Initial(s) && Admissible(s, run, max) && DisciplinedRun(s, run, max)
    ensures Exclusive(Final(s, run, max))
    ensures var rows := Final(s, run, max).box.rows;
      forall id :: id in rows ==> rows[id].attempts <= max && (rows[id].status == Dead <==> rows[id].attempts == max)
  {
    SoundInEveryDisciplinedRun(s, run, max);
    var rows := Final(s, run, max).box.rows;
    forall id | id in rows ensures WithinBudget(rows[id], max) {}
  }

  /** Succeeded and dead rows are left only by replay. */
  lemma {:induction false} SettledRowsStay(s: Sys, run: seq<Step>, max: nat, id: Id)
    requires max >= 1 && Sound(s, max) && Admissible(s, run, max) && DisciplinedRun(s, run, max)
    requires id in s.box.rows && !Unsettled(s.box.rows[id])
    requires forall i :: 0 <= i < |run| && run[i].Replay? ==> run[i].id != id
    ensures id in Final(s, run, max).box.rows && Final(s, run, max).box.rows[id] == s.box.rows[id]
    decreases |run|
  {
    if run != [] {
      StepKeepsSound(s, run[0], max);
      assert run[0].Replay? ==> run[0].id != id;
      SettledRowsStay(Apply(s, run[0], max), run[1..], max, id);
    }
  }

  // ---- termination: a replay-free run marks at most N * max times ----

  /** Marks a row has absorbed: its failures, and its success if it had one. */
  function MarksTaken(d: Delivery): nat {
    d.attempts + if d.status == Succeeded then 1 else 0
  }

  ghost function TotalMarks(rows: Rows): nat {
    if rows == map[] then 0 else
      var id :| id in rows;
      MarksTaken(rows[id]) + TotalMarks(rows - {id})
  }

  lemma {:induction false} TotalMarksSplit(rows: Rows, id: Id)
    requires id in rows
    ensures TotalMarks(rows) == MarksTaken(rows[id]) + TotalMarks(rows - {id})
    decreases |rows|
  {
    var x :| x in rows && TotalMarks(rows) == MarksTaken(rows[x]) + TotalMarks(rows - {x});
    if x != id {
      TotalMarksSplit(rows - {x}, id);
      TotalMarksSplit(rows - {id}, x);
      assert rows - {x} - {id} == rows - {id} - {x};
    }
  }

  /** Rows that are new and untouched, or absorbed no mark, add nothing to the total. */
  lemma {:induction false} TotalMarksSame(rows: Rows, rows': Rows)
    requires rows.Keys <= rows'.Keys
    requires forall id :: id in rows' ==>
      MarksTaken(rows'[id]) == if id in rows then MarksTaken(rows[id]) else 0
    ensures TotalMarks(rows') == TotalMarks(rows)
    decreases |rows'|
  {
    if rows' != map[] {
      var id :| id in rows';
      TotalMarksSplit(rows', id);
      if id in rows {
        TotalMarksSplit(rows, id);
      } else {
        assert rows - {id} == rows;
      }
      TotalMarksSame(rows - {id}, rows' - {id});
    }
  }

  lemma {:induction false} TotalMarksOneUp(rows: Rows, id: Id, d: Delivery)
    requires id in rows && MarksTaken(d) == MarksTaken(rows[id]) + 1
    ensures TotalMarks(rows[id := d]) == TotalMarks(rows) + 1
  {
    TotalMarksSplit(rows, id);
    TotalMarksSplit(rows[id := d], id);
    assert rows[id := d] - {id} == rows - {id};
  }

  lemma {:induction false} Distribute(n: nat, m: nat)
    ensures (n + 1) * m == n * m + m
  {}

  lemma {:induction false} TotalMarksBounded(rows: Rows, max: nat)
    requires max >= 1 && forall id :: id in rows ==> WithinBudget(rows[id], max)
    ensures TotalMarks(rows) <= |rows.Keys| * max
    decreases |rows|
  {
    if rows != map[] {
      var id :| id in rows;
      TotalMarksSplit(rows, id);
      var rest := rows - {id};
      assert rest.Keys == rows.Keys - {id};
      TotalMarksBounded(rest, max);
      assert MarksTaken(rows[id]) <= max;
      Distribute(|rest.Keys|, max);
    }
  }

  lemma {:induction false} StepCountsMarks(s: Sys, step: Step, max: nat)
    requires max >= 1 && Sound(s, max) && Enabled(s, step) && Disciplined(s, step) && !step.Replay?
    ensures TotalMarks(Apply(s, step, max).box.rows) == TotalMarks(s.box.rows) + if IsMark(step) then 1 else 0
  {
    var rows' := Apply(s, step, max).box.rows;
    if IsMark(step) {
      var id := s.claims[step.claim].id;
      TotalMarksOneUp(s.box.rows, id, rows'[id]);
    } else {
      TotalMarksSame(s.box.rows, rows');
    }
  }

  lemma {:induction false} RunCountsMarks(s: Sys, run: seq<Step>, max: nat)
    requires max >= 1 && Sound(s, max) && Admissible(s, run, max) && DisciplinedRun(s, run, max)
    requires forall i :: 0 <= i < |run| ==> !run[i].Replay?
    ensures TotalMarks(Final(s, run, max).box.rows) == TotalMarks(s.box.rows) + MarkSteps(run)
    decreases |run|
  {
    if run != [] {
      StepCountsMarks(s, run[0], max);
      StepKeepsSound(s, run[0], max);
      RunCountsMarks(Apply(s, run[0], max), run[1..], max);
    }
  }

  /** N deliveries cost at most N * max sends' worth of marks, whatever the interleaving. */
  lemma {:induction false} MarksAreBounded(s: Sys, run: seq<Step>, max: nat)
    requires max >= 1 && Initial(s) && Admissible(s, run, max) && DisciplinedRun(s, run, max)
    requires forall i :: 0 <= i < |run| ==> !run[i].Replay?
    ensures MarkSteps(run) <= |Final(s, run, max).box.rows| * max
  {
    SoundInEveryDisciplinedRun(s, run, max);
    RunCountsMarks(s, run, max);
    TotalMarksBounded(Final(s, run, max).box.rows, max);
  }

  // ---- the discipline is needed ----

  /**
   * Marking an open claim keeps every other live claim backed by its row exactly when no
   * other worker holds the same delivery. A claim marked inside its lease always qualifies.
   */
  lemma {:induction false} MarkKeepsHeldIff(s: Sys, step: Step, max: nat)
    requires Held(s) && Enabled(s, step) && IsMark(step) && s.claims[step.claim].id in s.box.rows
    ensures Held(Apply(s, step, max)) <==>
      forall j :: Live(s, j) && j != step.claim ==> s.claims[j].id != s.claims[step.claim].id
    ensures Live(s, step.claim) ==> Held(Apply(s, step, max))
  {
    var t := Apply(s, step, max);
    var id := s.claims[step.claim].id;
    assert t.box.rows[id].status != Delivering;
    forall j ensures Live(t, j) <==> Live(s, j) && j != step.claim
             ensures Live(t, j) ==> t.claims[j] == s.claims[j] {}
  }

  /** Replaying an existing delivery is safe exactly when nobody is sending it. */
  lemma {:induction false} ReplayKeepsHeldIff(s: Sys, id: Id, endpoint: Id, max: nat)
    requires Held(s) && ReplayHits(s.box.rows, id, endpoint)
    ensures Held(Apply(s, Replay(id, endpoint), max)) <==> forall j :: Live(s, j) ==> s.claims[j].id != id
  {
    var t := Apply(s, Replay(id, endpoint), max);
    forall j ensures Live(t, j) <==> Live(s, j)
             ensures Live(t, j) ==> t.claims[j] == s.claims[j] {}
  }

  function Sample(status: Status, attempts: nat, due: Instant, error: Option<string>): Delivery {
    Delivery("ep", "evt", "url", "secret", "{}", status, attempts, due, error)
  }

  /** Claiming the only row there is. */
  lemma {:induction false} ClaimOnly(s: Sys, id: Id, d: Delivery, max: nat)
    requires s.box.rows == map[id := d] && Claimable(d, s.now)
    ensures Enabled(s, ClaimDue(1, s.now, [id]))
    ensures Apply(s, ClaimDue(1, s.now, [id]), max) ==
      s.(box := s.box.(rows := map[id := d.(status := Delivering, due := s.now + LEASE)]),
         claims := s.claims + [Claim(id, d.attempts, s.now + LEASE, true)])
  {
    assert ToSet([id]) == {id};
  }

  lemma {:induction false} RequeueOnly(s: Sys, id: Id, d: Delivery, max: nat)
    requires s.box.rows == map[id := d] && LeaseExpired(d, s.now)
    ensures Apply(s, Requeue, max) == s.(box := s.box.(rows := map[id := d.(status := Pending, due := s.now)]))
  {}

  /** A worker stalls past its lease, the row is swept and claimed by a second worker. */
  function StalledRun(id: Id): seq<Step> {
    [Enqueue(map[id := Sample(Pending, 0, 0, None)])] + [ClaimDue(1, 0, [id])] + [Tick(LEASE)] + [Requeue]
    + [ClaimDue(1, LEASE, [id])]
  }

  /** Then the first worker's stale mark lands, and a third worker claims the row. */
  function StaleRun(id: Id): seq<Step> {
    StalledRun(id) + [SendFailed(0, 0, "boom")] + [ClaimDue(1, LEASE, [id])]
  }

  lemma {:induction false} StalledRunEnds(s: Sys, id: Id, max: nat)
    requires Initial(s) && s.now == 0
    ensures Admissible(s, StalledRun(id), max)
    ensures var t := Final(s, StalledRun(id), max);
      && t.now == LEASE && t.box.rows == map[id := Sample(Delivering, 0, LEASE + LEASE, None)] && t.box.log == []
      && t.claims == [Claim(id, 0, LEASE, true), Claim(id, 0, LEASE + LEASE, true)]
  {
    var a, b, c, d, e := Enqueue(map[id := Sample(Pending, 0, 0, None)]), ClaimDue(1, 0, [id]), Tick(LEASE),
      Requeue, ClaimDue(1, LEASE, [id]);
    OneMoreStep(s, [], a, max);
    assert [] + [a] == [a];
    var s1 := Final(s, [a], max);
    ClaimOnly(s1, id, Sample(Pending, 0, 0, None), max);
    OneMoreStep(s, [a], b, max);
    OneMoreStep(s, [a] + [b], c, max);
    var s3 := Final(s, [a] + [b] + [c], max);
    RequeueOnly(s3, id, Sample(Delivering, 0, LEASE, None), max);
    OneMoreStep(s, [a] + [b] + [c], d, max);
    ClaimOnly(Final(s, [a] + [b] + [c] + [d], max), id, Sample(Pending, 0, LEASE, None), max);
    OneMoreStep(s, [a] + [b] + [c] + [d], e, max);
  }

  /** Without the discipline one delivery ends up in the hands of two live workers. */
  lemma {:induction false} StaleMarkBreaksExclusivity(s: Sys, id: Id)
    requires Initial(s) && s.now == 0
    ensures Admissible(s, StaleRun(id), 8) && !Exclusive(Final(s, StaleRun(id), 8))
  {
    StalledRunEnds(s, id, 8);
    var mark, claim := SendFailed(0, 0, "boom"), ClaimDue(1, LEASE, [id]);
    OneMoreStep(s, StalledRun(id), mark, 8);
    ClaimOnly(Final(s, StalledRun(id) + [mark], 8), id, Sample(Failed, 1, LEASE, Some("boom")), 8);
    OneMoreStep(s, StalledRun(id) + [mark], claim, 8);
    var t := Final(s, StaleRun(id), 8);
    assert Live(t, 1) && Live(t, 2) && t.claims[1].id == t.claims[2].id;
  }
}
