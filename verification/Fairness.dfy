/** ORDER BY next_attempt_at is a promise: a due delivery waits only behind those due before it. */
module Fairness {
  import opened Basics
  import opened Outbox
  import opened Dispatch

  /** A claim statement that found no row locked: it takes the earliest due rows, up to its limit. */
  ghost predicate Prompt(s: Sys, step: Step) {
    step.ClaimDue? ==> step.start == s.now && IsBatch(s.box.rows, s.now, step.limit, ToSet(step.batch))
  }

  /** Neither an operator's replay nor a late mark hits delivery d. */
  ghost predicate LeavesAlone(s: Sys, step: Step, d: Id)
    requires Enabled(s, step)
  {
    match step
    case SendOk(k) => s.claims[k].id != d
    case SendFailed(k, _, _) => s.claims[k].id != d
    case Replay(id, _) => id != d
    case _ => true
  }

  ghost predicate FairRun(s: Sys, run: seq<Step>, max: nat, d: Id)
    requires Admissible(s, run, max)
    decreases |run|
  {
    run != [] ==>
      Prompt(s, run[0]) && LeavesAlone(s, run[0], d) && FairRun(Apply(s, run[0], max), run[1..], max, d)
  }

  /** The other claimable rows that ORDER BY may put before d. */
  ghost function Ahead(rows: Rows, d: Id): set<Id>
    requires d in rows
  {
    set x | x in rows && x != d && Waiting(rows[x]) && rows[x].due <= rows[d].due
  }

  predicate Picks(step: Step, d: Id) {
    step.ClaimDue? && d in step.batch
  }

  /** d has been due for a while. */
  ghost predicate Overdue(s: Sys, d: Id) {
    d in s.box.rows && Waiting(s.box.rows[d]) && s.box.rows[d].due < s.now
  }

  lemma {:induction false} MissedClaim(s: Sys, step: Step, max: nat, d: Id)
    requires Overdue(s, d) && step.ClaimDue? && Enabled(s, step) && Prompt(s, step) && d !in step.batch
    ensures var rows' := Apply(s, step, max).box.rows;
      && rows'[d] == s.box.rows[d]
      && Ahead(rows', d) == Ahead(s.box.rows, d) - ToSet(step.batch)
      && |Ahead(rows', d)| + step.limit == |Ahead(s.box.rows, d)|
  {
    var rows, batch := s.box.rows, ToSet(step.batch);
    var due := DueIds(rows, s.now);
    assert d in due - batch;
    assert due == batch + (due - batch) && |due| == |batch| + |due - batch|;
    assert |batch| == step.limit;
    assert batch <= Ahead(rows, d);
    assert |Ahead(rows, d) - batch| == |Ahead(rows, d)| - |batch|;
  }

  lemma {:induction false} StepNeverLengthensTheQueue(s: Sys, step: Step, max: nat, d: Id)
    requires Overdue(s, d) && Enabled(s, step) && Prompt(s, step) && LeavesAlone(s, step, d)
    requires !Picks(step, d)
    ensures Overdue(Apply(s, step, max), d)
    ensures Ahead(Apply(s, step, max).box.rows, d) <= Ahead(s.box.rows, d)
  {
    if step.ClaimDue? {
      MissedClaim(s, step, max, d);
    }
  }

  function TotalLimit(run: seq<Step>): nat {
    if run == [] then 0 else (if run[0].ClaimDue? then run[0].limit else 0) + TotalLimit(run[1..])
  }

  function ClaimCount(run: seq<Step>): nat {
    if run == [] then 0 else (if run[0].ClaimDue? then 1 else 0) + ClaimCount(run[1..])
  }

  /** Claims that miss d use up the rows ahead of it, one for one. */
  lemma {:induction false} MissedClaimsDrainTheQueue(s: Sys, run: seq<Step>, max: nat, d: Id)
    requires Overdue(s, d) && Admissible(s, run, max) && FairRun(s, run, max, d)
    requires forall i :: 0 <= i < |run| ==> !Picks(run[i], d)
    ensures TotalLimit(run) <= |Ahead(s.box.rows, d)|
    decreases |run|
  {
    if run != [] {
      var t := Apply(s, run[0], max);
      assert !Picks(run[0], d);
      StepNeverLengthensTheQueue(s, run[0], max, d);
      SubsetIsSmaller(Ahead(t.box.rows, d), Ahead(s.box.rows, d));
      if run[0].ClaimDue? {
        MissedClaim(s, run[0], max, d);
      }
      MissedClaimsDrainTheQueue(t, run[1..], max, d);
    }
  }

  lemma {:induction false} SubsetIsSmaller<T>(a: set<T>, b: set<T>)
    requires a <= b
    ensures |a| <= |b|
  {
    assert b == a + (b - a) && a !! (b - a);
  }

  lemma {:induction false} LimitsAddUp(run: seq<Step>, limit: nat)
    requires forall i :: 0 <= i < |run| && run[i].ClaimDue? ==> run[i].limit == limit
    ensures TotalLimit(run) == ClaimCount(run) * limit
    decreases |run|
  {
    if run != [] {
      LimitsAddUp(run[1..], limit);
      assert (ClaimCount(run[1..]) + 1) * limit == ClaimCount(run[1..]) * limit + limit;
    }
  }

  lemma {:induction false} CeilingReached(count: nat, limit: nat, ahead: nat)
    requires limit >= 1 && count >= ahead / limit + 1
    ensures count * limit > ahead
  {
    assert ahead < (ahead / limit + 1) * limit;
    assert count * limit >= (ahead / limit + 1) * limit;
  }

  /**
   * Bounded wait: whatever else happens, an overdue delivery is in one of the next
   * ahead / limit + 1 claim batches.
   */
  lemma {:induction false} BoundedWait(s: Sys, run: seq<Step>, max: nat, d: Id, limit: nat)
    requires Overdue(s, d) && Admissible(s, run, max) && FairRun(s, run, max, d)
    requires limit >= 1
    requires forall i :: 0 <= i < |run| && run[i].ClaimDue? ==> run[i].limit == limit
    requires ClaimCount(run) >= |Ahead(s.box.rows, d)| / limit + 1
    ensures exists i :: 0 <= i < |run| && Picks(run[i], d)
  {
    if forall i :: 0 <= i < |run| ==> !Picks(run[i], d) {
      MissedClaimsDrainTheQueue(s, run, max, d);
      LimitsAddUp(run, limit);
      CeilingReached(ClaimCount(run), limit, |Ahead(s.box.rows, d)|);
    }
  }

  // ---- no delivery is lost ----

  /** The longest any row that is owed an attempt can be put off. */
  const MAX_WAIT: nat := Max(LEASE, BACKOFF_CAP)

  ghost predicate DueSoon(s: Sys) {
    forall id :: id in s.box.rows && Unsettled(s.box.rows[id]) ==> s.box.rows[id].due <= s.now + MAX_WAIT
  }

  lemma {:induction false} DueSoonInEveryRun(s: Sys, run: seq<Step>, max: nat)
    requires DueSoon(s) && Admissible(s, run, max)
    ensures DueSoon(Final(s, run, max))
    decreases |run|
  {
    if run != [] {
      DueSoonInEveryRun(Apply(s, run[0], max), run[1..], max);
    }
  }

  /**
   * From the end of any run, with every worker gone: let the longest wait pass, sweep, and
   * one large enough claim hands out every delivery that is neither succeeded nor dead.
   */
  lemma {:induction false} NoDeliveryIsLost(s: Sys, run: seq<Step>, max: nat, claim: Step)
    requires Initial(s) && Admissible(s, run, max)
    requires var f := Final(s, run, max);
      var swept := Apply(Apply(f, Tick(MAX_WAIT), max), Requeue, max);
      && claim.ClaimDue? && claim.limit >= |f.box.rows.Keys|
      && Enabled(swept, claim) && Prompt(swept, claim)
    ensures var rows := Final(s, run, max).box.rows;
      ToSet(claim.batch) == set id | id in rows && Unsettled(rows[id])
  {
    DueSoonInEveryRun(s, run, max);
    var f := Final(s, run, max);
    var t := Apply(f, Tick(MAX_WAIT), max);
    var swept := Apply(t, Requeue, max);
    var rows := f.box.rows;
    var unsettled := set id | id in rows && Unsettled(rows[id]);
    var due := DueIds(swept.box.rows, swept.now);
    assert due == unsettled;
    SubsetIsSmaller(due, rows.Keys);
    SubsetOfSameSize(ToSet(claim.batch), due);
  }

  lemma {:induction false} SubsetOfSameSize<T>(a: set<T>, b: set<T>)
    requires a <= b && |a| == |b|
    ensures a == b
  {
    assert b == a + (b - a) && |b| == |a| + |b - a|;
  }
}
