/**
 * When the promises of a lease survive, exactly: from which states every further run in which
 * workers keep the discipline stays exclusive, and stays within the attempt budget. A stale mark
 * or a replay is judged by the state it leaves.
 */
module LeaseSafety {
  import opened Basics
  import opened Outbox
  import opened Dispatch
  import opened Leases

  predicate Settled(d: Delivery) {
    d.status == Succeeded || d.status == Dead
  }

  /** Nobody can claim the row before the worker's lease ends. */
  predicate Shielded(rows: Rows, c: Claim) {
    c.id in rows && (Settled(rows[c.id]) || c.leaseEnd <= rows[c.id].due)
  }

  /** No delivery has two live claims, and none can get a second one while the first is live. */
  ghost predicate Backed(s: Sys) {
    Exclusive(s) && forall k :: Live(s, k) ==> Shielded(s.box.rows, s.claims[k])
  }

  /** Every live claim is of a row that exists; claims come from rows and rows are never deleted. */
  ghost predicate ClaimsKnown(s: Sys) {
    forall k :: Live(s, k) ==> s.claims[k].id in s.box.rows
  }

  // ---- backed states stay backed ----

  lemma {:induction false} ClaimKeepsBacked(s: Sys, limit: nat, start: Instant, batch: seq<Id>, max: nat)
    requires Backed(s) && Enabled(s, ClaimDue(limit, start, batch))
    ensures Backed(Apply(s, ClaimDue(limit, start, batch), max))
  {
    var t := Apply(s, ClaimDue(limit, start, batch), max);
    var n := |s.claims|;
    forall k | Live(t, k)
      ensures k < n ==> Live(s, k) && t.claims[k] == s.claims[k] && t.claims[k].id !in batch
      ensures k >= n ==> t.claims[k].id == batch[k - n] && t.claims[k].id in batch
    {
      if k < n {
        assert Live(s, k) && Shielded(s.box.rows, s.claims[k]);
      }
    }
  }

  lemma {:induction false} MarkKeepsBacked(s: Sys, k: nat, box: Box)
    requires Backed(s) && Live(s, k) && |s.box.log| <= |box.log|
    requires box.rows.Keys == s.box.rows.Keys
    requires forall id :: id in box.rows && id != s.claims[k].id ==> box.rows[id] == s.box.rows[id]
    ensures Backed(Marked(s, k, box))
  {
    var t := Marked(s, k, box);
    forall j | Live(t, j)
      ensures j != k && Live(s, j) && t.claims[j] == s.claims[j] && t.claims[j].id != s.claims[k].id
    {
    }
  }

  lemma {:induction false} OtherStepKeepsBacked(s: Sys, step: Step, max: nat)
    requires Backed(s) && Enabled(s, step) && Disciplined(s, step) && !step.ClaimDue? && !IsMark(step)
    ensures Backed(Apply(s, step, max))
  {
    var t := Apply(s, step, max);
    forall k | Live(t, k)
      ensures Live(s, k) && t.claims[k] == s.claims[k] && Shielded(t.box.rows, t.claims[k])
    {
      assert Live(s, k) && Shielded(s.box.rows, s.claims[k]);
    }
  }

  lemma {:induction false} StepKeepsBacked(s: Sys, step: Step, max: nat)
    requires Backed(s) && Enabled(s, step) && Disciplined(s, step)
    ensures Backed(Apply(s, step, max))
  {
    match step
    case ClaimDue(limit, start, batch) => ClaimKeepsBacked(s, limit, start, batch, max);
    case SendOk(k) => MarkKeepsBacked(s, k, Apply(s, step, max).box);
    case SendFailed(k, _, _) => MarkKeepsBacked(s, k, Apply(s, step, max).box);
    case _ => OtherStepKeepsBacked(s, step, max);
  }

  lemma {:induction false} BackedInEveryRun(s: Sys, run: seq<Step>, max: nat)
    requires Backed(s) && Admissible(s, run, max) && DisciplinedRun(s, run, max)
    ensures Backed(Final(s, run, max))
    decreases |run|
  {
    if run != [] {
      StepKeepsBacked(s, run[0], max);
      BackedInEveryRun(Apply(s, run[0], max), run[1..], max);
    }
  }

  // ---- states that are not backed lose exclusivity ----

  /** From here on, as long as the discipline is kept, no delivery is in two live hands. */
  ghost predicate ExclusiveForever(s: Sys, max: nat) {
    forall run :: Admissible(s, run, max) && DisciplinedRun(s, run, max) ==> Exclusive(Final(s, run, max))
  }

  lemma {:induction false} OneMore(s: Sys, step: Step, rest: seq<Step>, max: nat)
    requires Enabled(s, step) && Disciplined(s, step)
    requires Admissible(Apply(s, step, max), rest, max) && DisciplinedRun(Apply(s, step, max), rest, max)
    ensures Admissible(s, [step] + rest, max) && DisciplinedRun(s, [step] + rest, max)
    ensures Final(s, [step] + rest, max) == Final(Apply(s, step, max), rest, max)
  {
    assert ([step] + rest)[1..] == rest;
  }

  /** A claimable row in live hands gets a second live claim at once. */
  lemma {:induction false} SecondClaim(s: Sys, k: nat, max: nat) returns (run: seq<Step>)
    requires Live(s, k) && s.claims[k].id in s.box.rows && Claimable(s.box.rows[s.claims[k].id], s.now)
    ensures Admissible(s, run, max) && DisciplinedRun(s, run, max) && !Exclusive(Final(s, run, max))
  {
    var id := s.claims[k].id;
    var claim := ClaimDue(1, s.now, [id]);
    var t := Apply(s, claim, max);
    assert Live(t, k) && t.claims[k].id == id;
    assert Live(t, |s.claims|) && t.claims[|s.claims|].id == id;
    OneMore(s, claim, [], max);
    run := [claim] + [];
  }

  /** The row is or becomes claimable while its worker's lease runs. */
  lemma {:induction false} SweptThenClaimed(s: Sys, k: nat, max: nat) returns (run: seq<Step>)
    requires Live(s, k) && s.claims[k].id in s.box.rows && s.box.rows[s.claims[k].id].due <= s.now
    requires !Settled(s.box.rows[s.claims[k].id])
    ensures Admissible(s, run, max) && DisciplinedRun(s, run, max) && !Exclusive(Final(s, run, max))
  {
    if s.box.rows[s.claims[k].id].status == Delivering {
      var t := Apply(s, Requeue, max);
      assert Live(t, k);
      var rest := SecondClaim(t, k, max);
      OneMore(s, Requeue, rest, max);
      run := [Requeue] + rest;
    } else {
      run := SecondClaim(s, k, max);
    }
  }

  lemma {:induction false} UnshieldedIsClaimedTwice(s: Sys, k: nat, max: nat) returns (run: seq<Step>)
    requires Live(s, k) && s.claims[k].id in s.box.rows && !Shielded(s.box.rows, s.claims[k])
    ensures Admissible(s, run, max) && DisciplinedRun(s, run, max) && !Exclusive(Final(s, run, max))
  {
    var due := s.box.rows[s.claims[k].id].due;
    if due <= s.now {
      run := SweptThenClaimed(s, k, max);
    } else {
      var wait := Tick(due - s.now);
      var t := Apply(s, wait, max);
      assert Live(t, k);
      var rest := SweptThenClaimed(t, k, max);
      OneMore(s, wait, rest, max);
      run := [wait] + rest;
    }
  }

  /**
   * Exactly the backed states keep exclusivity: each live claim's row is settled or not due before
   * the lease ends, and no row has two.
   */
  lemma {:induction false} ExclusiveForeverIff(s: Sys, max: nat)
    requires ClaimsKnown(s)
    ensures ExclusiveForever(s, max) <==> Backed(s)
  {
    if Backed(s) {
      forall run | Admissible(s, run, max) && DisciplinedRun(s, run, max)
        ensures Exclusive(Final(s, run, max))
      {
        BackedInEveryRun(s, run, max);
      }
    } else if !Exclusive(s) {
      assert Admissible(s, [], max) && DisciplinedRun(s, [], max) && Final(s, [], max) == s;
    } else {
      var k: nat :| Live(s, k) && !Shielded(s.box.rows, s.claims[k]);
      var run := UnshieldedIsClaimedTwice(s, k, max);
      assert Admissible(s, run, max) && DisciplinedRun(s, run, max);
    }
  }

  // ---- judged before the statement ----

  /** What a mark leaves in the row it hits. */
  function RowAfter(s: Sys, step: Step, max: nat): Delivery
    requires IsMark(step) && OpenClaim(s, step.claim) && s.claims[step.claim].id in s.box.rows
  {
    var d, c := s.box.rows[s.claims[step.claim].id], s.claims[step.claim];
    if step.SendOk? then d.(status := Succeeded)
    else if c.attempts + 1 >= max then d.(attempts := d.attempts + 1, status := Dead)
    else d.(attempts := d.attempts + 1, status := Failed, due := s.now + step.delay, lastError := Some(step.msg))
  }

  lemma {:induction false} MarkHits(s: Sys, step: Step, max: nat)
    requires IsMark(step) && Enabled(s, step) && s.claims[step.claim].id in s.box.rows
    ensures Apply(s, step, max).box.rows == s.box.rows[s.claims[step.claim].id := RowAfter(s, step, max)]
    ensures Apply(s, step, max).claims == Close(s.claims, step.claim) && Apply(s, step, max).now == s.now
  {
  }

  /** The claims that stay live over a mark: all the live ones but its own. */
  lemma {:induction false} LiveAfterMark(s: Sys, step: Step, max: nat)
    requires IsMark(step) && Enabled(s, step) && s.claims[step.claim].id in s.box.rows
    ensures forall j :: Live(Apply(s, step, max), j) <==> Live(s, j) && j != step.claim
    ensures forall j :: Live(s, j) && j != step.claim ==> Apply(s, step, max).claims[j] == s.claims[j]
  {
    MarkHits(s, step, max);
  }

  /** Another worker holds the delivery the mark is about. */
  predicate Rival(s: Sys, step: Step, j: int)
    requires IsMark(step) && OpenClaim(s, step.claim)
  {
    Live(s, j) && j != step.claim && s.claims[j].id == s.claims[step.claim].id
  }

  /**
   * A mark, stale or not, keeps every disciplined continuation exclusive if and only if nobody
   * else holds the delivery, or the mark settles it, or the new due time is not before the end of
   * the other worker's lease.
   */
  lemma {:induction false} MarkIsSafeIff(s: Sys, step: Step, max: nat)
    requires Backed(s) && IsMark(step) && Enabled(s, step) && s.claims[step.claim].id in s.box.rows
    ensures ExclusiveForever(Apply(s, step, max), max) <==>
      forall j :: Rival(s, step, j) ==>
        Settled(RowAfter(s, step, max)) || s.claims[j].leaseEnd <= RowAfter(s, step, max).due
  {
    var t := Apply(s, step, max);
    MarkHits(s, step, max);
    LiveAfterMark(s, step, max);
    forall j | Live(t, j)
      ensures Shielded(t.box.rows, t.claims[j]) <==>
        (Rival(s, step, j) ==> Settled(RowAfter(s, step, max)) || s.claims[j].leaseEnd <= RowAfter(s, step, max).due)
    {
      assert Shielded(s.box.rows, s.claims[j]);
    }
    forall i, j | Live(t, i) && Live(t, j) && t.claims[i].id == t.claims[j].id
      ensures i == j
    {
      assert Live(s, i) && Live(s, j);
    }
    ExclusiveForeverIff(t, max);
  }

  /** Replaying an existing delivery is safe in the same sense exactly when nobody is sending it. */
  lemma {:induction false} ReplayIsSafeIff(s: Sys, id: Id, endpoint: Id, max: nat)
    requires Backed(s) && ReplayHits(s.box.rows, id, endpoint)
    ensures ExclusiveForever(Apply(s, Replay(id, endpoint), max), max) <==>
      forall j :: Live(s, j) ==> s.claims[j].id != id
  {
    var t := Apply(s, Replay(id, endpoint), max);
    forall j
      ensures Live(t, j) <==> Live(s, j)
      ensures Live(t, j) ==> t.claims[j] == s.claims[j]
      ensures Live(t, j) ==> (Shielded(t.box.rows, t.claims[j]) <==> t.claims[j].id != id)
    {
      if Live(s, j) { assert Shielded(s.box.rows, s.claims[j]); }
    }
    ExclusiveForeverIff(t, max);
  }

  // ---- the attempt budget ----

  /** The worker would decide between retry and dead letter as the row's own count says. */
  predicate Agrees(c: Claim, d: Delivery, max: nat) {
    c.attempts + 1 >= max <==> d.attempts + 1 >= max
  }

  /** A mark by this worker leaves the row within its budget. */
  predicate Fits(rows: Rows, c: Claim, max: nat) {
    c.id in rows && rows[c.id].attempts < max && Agrees(c, rows[c.id], max)
  }

  ghost predicate AllWithin(rows: Rows, max: nat) {
    forall id :: id in rows ==> WithinBudget(rows[id], max)
  }

  ghost predicate Budgeted(s: Sys, max: nat) {
    Backed(s) && AllWithin(s.box.rows, max) && forall k :: Live(s, k) ==> Fits(s.box.rows, s.claims[k], max)
  }

  lemma {:induction false} ClaimKeepsBudget(s: Sys, limit: nat, start: Instant, batch: seq<Id>, max: nat)
    requires Budgeted(s, max) && Enabled(s, ClaimDue(limit, start, batch))
    ensures Budgeted(Apply(s, ClaimDue(limit, start, batch), max), max)
  {
    ClaimKeepsBacked(s, limit, start, batch, max);
    var t := Apply(s, ClaimDue(limit, start, batch), max);
    var n := |s.claims|;
    forall id | id in t.box.rows
      ensures WithinBudget(t.box.rows[id], max)
    {
      assert WithinBudget(s.box.rows[id], max);
    }
    forall k | Live(t, k)
      ensures Fits(t.box.rows, t.claims[k], max)
    {
      if k < n {
        assert Live(s, k) && Shielded(s.box.rows, s.claims[k]) && Fits(s.box.rows, s.claims[k], max);
      } else {
        assert batch[k - n] in batch && WithinBudget(s.box.rows[batch[k - n]], max);
      }
    }
  }

  lemma {:induction false} MarkKeepsBudget(s: Sys, step: Step, max: nat)
    requires Budgeted(s, max) && IsMark(step) && Live(s, step.claim)
    requires Enabled(s, step) && s.claims[step.claim].id in s.box.rows
    ensures Budgeted(Apply(s, step, max), max)
  {
    var t := Apply(s, step, max);
    StepKeepsBacked(s, step, max);
    MarkHits(s, step, max);
    LiveAfterMark(s, step, max);
    assert Fits(s.box.rows, s.claims[step.claim], max);
    forall j | Live(t, j)
      ensures Fits(t.box.rows, t.claims[j], max)
    {
      assert Live(s, j) && Fits(s.box.rows, s.claims[j], max);
    }
  }

  lemma {:induction false} OtherStepKeepsBudget(s: Sys, step: Step, max: nat)
    requires max >= 1 && Budgeted(s, max) && Enabled(s, step) && Disciplined(s, step)
    requires !step.ClaimDue? && !IsMark(step)
    ensures Budgeted(Apply(s, step, max), max)
  {
    var t := Apply(s, step, max);
    OtherStepKeepsBacked(s, step, max);
    forall id | id in t.box.rows
      ensures WithinBudget(t.box.rows[id], max)
    {
      if id in s.box.rows { assert WithinBudget(s.box.rows[id], max); }
    }
    forall k | Live(t, k)
      ensures Fits(t.box.rows, t.claims[k], max)
    {
      assert Live(s, k) && t.claims[k] == s.claims[k] && Fits(s.box.rows, s.claims[k], max);
    }
  }

  lemma {:induction false} BudgetedInEveryRun(s: Sys, run: seq<Step>, max: nat)
    requires max >= 1 && Budgeted(s, max) && Admissible(s, run, max) && DisciplinedRun(s, run, max)
    ensures Budgeted(Final(s, run, max), max)
    decreases |run|
  {
    if run != [] {
      if run[0].ClaimDue? {
        ClaimKeepsBudget(s, run[0].limit, run[0].start, run[0].batch, max);
      } else if IsMark(run[0]) {
        assert Fits(s.box.rows, s.claims[run[0].claim], max);
        MarkKeepsBudget(s, run[0], max);
      } else {
        OtherStepKeepsBudget(s, run[0], max);
      }
      BudgetedInEveryRun(Apply(s, run[0], max), run[1..], max);
    }
  }

  /** From here on, under the discipline: one live claim at most, and dead exactly at max attempts. */
  ghost predicate SafeForever(s: Sys, max: nat) {
    forall run :: Admissible(s, run, max) && DisciplinedRun(s, run, max) ==>
      Exclusive(Final(s, run, max)) && AllWithin(Final(s, run, max).box.rows, max)
  }

  /** A live worker whose count does not fit breaks the budget with its own, timely mark. */
  lemma {:induction false} UnfitMarkBreaksBudget(s: Sys, k: nat, max: nat) returns (run: seq<Step>)
    requires AllWithin(s.box.rows, max) && Live(s, k) && s.claims[k].id in s.box.rows
    requires !Fits(s.box.rows, s.claims[k], max)
    ensures Admissible(s, run, max) && DisciplinedRun(s, run, max) && !AllWithin(Final(s, run, max).box.rows, max)
  {
    var id := s.claims[k].id;
    assert WithinBudget(s.box.rows[id], max);
    var step := if s.box.rows[id].attempts < max then SendFailed(k, 0, "") else SendOk(k);
    MarkHits(s, step, max);
    assert !WithinBudget(Apply(s, step, max).box.rows[id], max);
    OneMore(s, step, [], max);
    run := [step] + [];
  }

  /**
   * Exactly the budgeted states keep both promises: backed, all rows within budget, and every live
   * worker's count on the same side of the limit as its row's.
   */
  lemma {:induction false} SafeForeverIff(s: Sys, max: nat)
    requires max >= 1 && ClaimsKnown(s)
    ensures SafeForever(s, max) <==> Budgeted(s, max)
  {
    ExclusiveForeverIff(s, max);
    if Budgeted(s, max) {
      forall run | Admissible(s, run, max) && DisciplinedRun(s, run, max)
        ensures Exclusive(Final(s, run, max)) && AllWithin(Final(s, run, max).box.rows, max)
      {
        BudgetedInEveryRun(s, run, max);
      }
    } else if Backed(s) {
      assert Admissible(s, [], max) && DisciplinedRun(s, [], max) && Final(s, [], max) == s;
      if AllWithin(s.box.rows, max) {
        var k: nat :| Live(s, k) && !Fits(s.box.rows, s.claims[k], max);
        var run := UnfitMarkBreaksBudget(s, k, max);
        assert Admissible(s, run, max) && DisciplinedRun(s, run, max);
      }
    } else {
      var run :| Admissible(s, run, max) && DisciplinedRun(s, run, max) && !Exclusive(Final(s, run, max));
    }
  }

  /** Every state of a disciplined run from the empty outbox is one of them. */
  lemma {:induction false} SoundIsBudgeted(s: Sys, max: nat)
    requires Sound(s, max)
    ensures Budgeted(s, max)
  {
    forall k | Live(s, k)
      ensures Shielded(s.box.rows, s.claims[k]) && Fits(s.box.rows, s.claims[k], max)
    {
      assert WithinBudget(s.box.rows[s.claims[k].id], max);
    }
  }

  /** The row has an attempt left, and the worker judges it as the row's own count would. */
  predicate FitsItsRow(s: Sys, step: Step, max: nat)
    requires IsMark(step) && OpenClaim(s, step.claim) && s.claims[step.claim].id in s.box.rows
  {
    var c := s.claims[step.claim];
    s.box.rows[c.id].attempts < max && (step.SendFailed? ==> Agrees(c, s.box.rows[c.id], max))
  }

  lemma {:induction false} WithinAfterMarkIff(s: Sys, step: Step, max: nat)
    requires AllWithin(s.box.rows, max) && IsMark(step) && Enabled(s, step)
    requires s.claims[step.claim].id in s.box.rows
    ensures AllWithin(Apply(s, step, max).box.rows, max) <==> FitsItsRow(s, step, max)
  {
    var id := s.claims[step.claim].id;
    MarkHits(s, step, max);
    var rows := Apply(s, step, max).box.rows;
    assert WithinBudget(s.box.rows[id], max);
    assert WithinBudget(RowAfter(s, step, max), max) <==> FitsItsRow(s, step, max);
    assert rows[id] == RowAfter(s, step, max);
  }

  /**
   * A mark, stale or not, keeps both promises for good if and only if the worker's count fits the
   * row, and every other worker holding the delivery is still shielded and still fits the new row.
   */
  lemma {:induction false} MarkKeepsPromisesIff(s: Sys, step: Step, max: nat)
    requires max >= 1 && Budgeted(s, max) && IsMark(step) && Enabled(s, step)
    requires s.claims[step.claim].id in s.box.rows
    ensures SafeForever(Apply(s, step, max), max) <==>
      && FitsItsRow(s, step, max)
      && forall j :: Rival(s, step, j) ==>
           var d := RowAfter(s, step, max);
           && (Settled(d) || s.claims[j].leaseEnd <= d.due)
           && d.attempts < max && Agrees(s.claims[j], d, max)
  {
    var t := Apply(s, step, max);
    MarkHits(s, step, max);
    LiveAfterMark(s, step, max);
    WithinAfterMarkIff(s, step, max);
    MarkIsSafeIff(s, step, max);
    ExclusiveForeverIff(t, max);
    SafeForeverIff(t, max);
    forall j | Live(t, j)
      ensures Fits(t.box.rows, t.claims[j], max) <==>
        (Rival(s, step, j) ==>
           RowAfter(s, step, max).attempts < max && Agrees(s.claims[j], RowAfter(s, step, max), max))
    {
      assert Live(s, j) && Fits(s.box.rows, s.claims[j], max);
    }
  }

  /** The invariant every disciplined run has, judged the same way: no rival, and a fitting count. */
  lemma {:induction false} MarkKeepsSoundIff(s: Sys, step: Step, max: nat)
    requires Sound(s, max) && IsMark(step) && Enabled(s, step) && s.claims[step.claim].id in s.box.rows
    ensures Sound(Apply(s, step, max), max) <==> (forall j :: !Rival(s, step, j)) && FitsItsRow(s, step, max)
  {
    var t := Apply(s, step, max);
    MarkHits(s, step, max);
    LiveAfterMark(s, step, max);
    assert AllWithin(s.box.rows, max) by {
      assert forall id :: id in s.box.rows ==> WithinBudget(s.box.rows[id], max);
    }
    WithinAfterMarkIff(s, step, max);
    MarkKeepsHeldIff(s, step, max);
    if forall j :: !Rival(s, step, j) {
      forall j | Live(s, j) && j != step.claim
        ensures s.claims[j].id != s.claims[step.claim].id
      {
        assert !Rival(s, step, j);
      }
    } else {
      var j :| Rival(s, step, j);
      assert !Held(t);
    }
  }

  /**
   * A stale mark made while nobody else holds the row can break the dead-letter bound: with two
   * attempts allowed the row ends failed after both, because the late worker still counts from 0.
   */
  lemma {:induction false} StaleMarkBreaksBudget(s: Sys, id: Id) returns (run: seq<Step>)
    requires Initial(s) && s.now == 0
    ensures Admissible(s, run, 2) && Admissible(s, run + [SendFailed(0, 0, "late")], 2)
    ensures OpenClaim(Final(s, run, 2), 0)
    ensures forall j :: !Rival(Final(s, run, 2), SendFailed(0, 0, "late"), j)
    ensures !AllWithin(Final(s, run + [SendFailed(0, 0, "late")], 2).box.rows, 2)
  {
    StalledRunEnds(s, id, 2);
    var mark, late := SendFailed(1, 0, "boom"), SendFailed(0, 0, "late");
    var t := Final(s, StalledRun(id), 2);
    OneMoreStep(s, StalledRun(id), mark, 2);
    MarkHits(t, mark, 2);
    run := StalledRun(id) + [mark];
    var u := Final(s, run, 2);
    assert u.box.rows[id] == RowAfter(t, mark, 2);
    OneMoreStep(s, run, late, 2);
    MarkHits(u, late, 2);
    assert !WithinBudget(Final(s, run + [late], 2).box.rows[id], 2);
  }
}
