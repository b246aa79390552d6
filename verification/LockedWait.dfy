/**
 * How long an overdue delivery waits when claim statements overlap: each locks rows one by one and
 * skips what another has locked. A statement begun while the delivery is overdue takes it, finds it
 * locked by another, or takes exactly `limit` rows that were ahead of it.
 */
module LockedWait {
  import opened Basics
  import opened Outbox
  import opened Dispatch
  import opened Fairness
  import opened ClaimLocks

  // ---- what the bound does not cover ----

  /** The statement makes a row claimable for a claim statement begun earlier at the same instant. */
  ghost predicate Rearms(w: Store, step: Step, max: nat)
    requires Enabled(w.sys, step)
  {
    exists t, id :: t in w.txs && RearmsFor(w, step, max, t, id)
  }

  ghost predicate RearmsFor(w: Store, step: Step, max: nat, t: nat, id: Id)
    requires Enabled(w.sys, step) && t in w.txs
  {
    var rows := Apply(w.sys, step, max).box.rows;
    && id in rows && Claimable(rows[id], w.txs[t].start)
    && !(id in w.sys.box.rows && rows[id] == w.sys.box.rows[id])
  }

  /**
   * No other statement writes delivery d or re-arms a row for a statement in progress, and a claim
   * statement that holds d is not rolled back.
   */
  ghost predicate Undisturbed(w: Store, m: Move, max: nat, d: Id)
    requires LocksHold(w) && CanMove(w, m)
  {
    match m
    case Other(step) => !Touches(w.sys, step, d) && !Rearms(w, step, max)
    case Abort(t) => !LockedBy(w, t, d)
    case _ => true
  }

  ghost predicate UndisturbedRun(w: Store, run: seq<Move>, max: nat, d: Id)
    requires LocksHold(w) && Moves(w, run, max)
    decreases |run|
  {
    run != [] ==>
      && Undisturbed(w, run[0], max, d)
      && (MoveKeepsLocks(w, run[0], max); UndisturbedRun(After(w, run[0], max), run[1..], max, d))
  }

  /** The move commits a claim of d. */
  predicate Takes(w: Store, m: Move, d: Id) {
    m.Commit? && LockedBy(w, m.t, d)
  }

  ghost predicate Taken(w: Store, run: seq<Move>, max: nat, d: Id)
    requires LocksHold(w) && Moves(w, run, max)
    decreases |run|
  {
    run != [] &&
      (Takes(w, run[0], d)
       || (MoveKeepsLocks(w, run[0], max); Taken(After(w, run[0], max), run[1..], max, d)))
  }

  // ---- statements begun while d is overdue ----

  /**
   * The statement has not come to d yet: d is still on its list, and whatever it locked or may
   * still lock before d was ahead of d when it began, and still is.
   */
  ghost predicate Behind(w: Store, x: Tx, d: Id, ahead: set<Id>) {
    && Overdue(w.sys, d) && w.sys.box.rows[d].due < x.start
    && (forall id :: id in x.locked ==> id in ahead && id in Ahead(w.sys.box.rows, d))
    && exists p: nat :: AtPlace(w.sys.box.rows, x, d, ahead, p)
  }

  ghost predicate AtPlace(rows: Rows, x: Tx, d: Id, ahead: set<Id>, p: nat)
    requires d in rows
  {
    && p < |x.todo| && x.todo[p] == d
    && forall q :: 0 <= q < p ==> Preceding(rows, x, d, ahead, x.todo[q])
  }

  ghost predicate Preceding(rows: Rows, x: Tx, d: Id, ahead: set<Id>, id: Id)
    requires d in rows
  {
    id in rows && Claimable(rows[id], x.start) ==> id in ahead && id in Ahead(rows, d)
  }

  /** `mine` holds the statements begun since d is overdue, each with the rows then ahead of d. */
  ghost predicate AllBehind(w: Store, mine: map<nat, set<Id>>, d: Id) {
    forall t :: t in mine && t in w.txs ==> Behind(w, w.txs[t], d, mine[t])
  }

  ghost function Tracked(w: Store, m: Move, mine: map<nat, set<Id>>, d: Id): map<nat, set<Id>>
    requires d in w.sys.box.rows
  {
    match m
    case Begin(t, _, _) => mine[t := Ahead(w.sys.box.rows, d)]
    case Commit(t) => mine - {t}
    case Abort(t) => mine - {t}
    case _ => mine
  }

  lemma {:induction false} BeginsBehind(w: Store, t: nat, limit: nat, order: seq<Id>, max: nat, d: Id)
    requires LocksHold(w) && CanMove(w, Begin(t, limit, order)) && Overdue(w.sys, d)
    ensures Behind(After(w, Begin(t, limit, order), max), Tx(w.sys.now, limit, order, []), d, Ahead(w.sys.box.rows, d))
  {
    var rows := w.sys.box.rows;
    assert d in ToSet(order);
    var p :| 0 <= p < |order| && order[p] == d;
    var x := Tx(w.sys.now, limit, order, []);
    forall q | 0 <= q < p
      ensures Preceding(rows, x, d, Ahead(rows, d), order[q])
    {
      assert rows[order[q]].due <= rows[order[p]].due && order[q] != order[p];
    }
    assert AtPlace(rows, x, d, Ahead(rows, d), p);
  }

  /** Visiting a row before d keeps the statement behind; visiting d locks it. */
  lemma {:induction false} VisitStaysBehind(w: Store, t: nat, max: nat, d: Id, ahead: set<Id>)
    requires LocksHold(w) && CanMove(w, Visit(t)) && Behind(w, w.txs[t], d, ahead) && !Locked(w, d)
    ensures var w' := After(w, Visit(t), max); Locked(w', d) || Behind(w', w'.txs[t], d, ahead)
  {
    var x, w', rows := w.txs[t], After(w, Visit(t), max), w.sys.box.rows;
    var p: nat :| AtPlace(rows, x, d, ahead, p);
    if p == 0 {
      assert LockedBy(w', t, d);
    } else {
      var x' := w'.txs[t];
      assert Preceding(rows, x, d, ahead, x.todo[0]);
      assert x'.todo[p - 1] == d;
      forall q | 0 <= q < p - 1
        ensures Preceding(rows, x', d, ahead, x'.todo[q])
      {
        assert Preceding(rows, x, d, ahead, x.todo[q + 1]);
      }
      assert AtPlace(rows, x', d, ahead, p - 1);
    }
  }

  // ---- other moves ----

  /** Rows may lose their place ahead of d, but none changes and stays claimable for the statement. */
  ghost predicate NoneRearmed(a: Rows, b: Rows, start: Instant) {
    forall id :: id in b && Claimable(b[id], start) ==> id in a && b[id] == a[id]
  }

  lemma {:induction false} StaysBehind(w: Store, w': Store, x: Tx, d: Id, ahead: set<Id>)
    requires Behind(w, x, d, ahead) && Overdue(w'.sys, d)
    requires w'.sys.box.rows[d] == w.sys.box.rows[d]
    requires NoneRearmed(w.sys.box.rows, w'.sys.box.rows, x.start)
    requires forall id :: id in x.locked ==> id in w'.sys.box.rows && w'.sys.box.rows[id] == w.sys.box.rows[id]
    ensures Behind(w', x, d, ahead)
  {
    var p: nat :| AtPlace(w.sys.box.rows, x, d, ahead, p);
    forall q | 0 <= q < p
      ensures Preceding(w'.sys.box.rows, x, d, ahead, x.todo[q])
    {
      assert Preceding(w.sys.box.rows, x, d, ahead, x.todo[q]);
    }
    assert AtPlace(w'.sys.box.rows, x, d, ahead, p);
  }

  lemma {:induction false} OtherKeepsBehind(w: Store, step: Step, max: nat, d: Id, t: nat, ahead: set<Id>)
    requires LocksHold(w) && CanMove(w, Other(step)) && Undisturbed(w, Other(step), max, d)
    requires t in w.txs && Behind(w, w.txs[t], d, ahead)
    ensures Behind(After(w, Other(step), max), w.txs[t], d, ahead)
  {
    var w', x := After(w, Other(step), max), w.txs[t];
    UntouchedRows(w.sys, step, max, d);
    forall id | id in x.locked
      ensures id in w'.sys.box.rows && w'.sys.box.rows[id] == w.sys.box.rows[id]
    {
      assert LockedBy(w, t, id);
      UntouchedRows(w.sys, step, max, id);
    }
    forall id | id in w'.sys.box.rows && Claimable(w'.sys.box.rows[id], x.start)
      ensures id in w.sys.box.rows && w'.sys.box.rows[id] == w.sys.box.rows[id]
    {
      assert !RearmsFor(w, step, max, t, id);
    }
    StaysBehind(w, w', x, d, ahead);
  }

  lemma {:induction false} CommitKeepsBehind(w: Store, u: nat, max: nat, d: Id, t: nat, ahead: set<Id>)
    requires LocksHold(w) && CanMove(w, Commit(u)) && !LockedBy(w, u, d)
    requires t in w.txs && t != u && Behind(w, w.txs[t], d, ahead)
    ensures Behind(After(w, Commit(u), max), w.txs[t], d, ahead)
  {
    CommitIsOneClaim(w, u);
    var w', x := After(w, Commit(u), max), w.txs[t];
    forall id | id in x.locked
      ensures id in w'.sys.box.rows && w'.sys.box.rows[id] == w.sys.box.rows[id]
    {
      assert LockedBy(w, t, id);
      if id in w.txs[u].locked { assert LockedBy(w, u, id); }
    }
    StaysBehind(w, w', x, d, ahead);
  }

  /** Statements in progress stay behind d through any move, unless the move locks or takes d. */
  lemma {:induction false} MoveKeepsBehind(w: Store, m: Move, max: nat, d: Id, mine: map<nat, set<Id>>)
    requires LocksHold(w) && CanMove(w, m) && Undisturbed(w, m, max, d)
    requires Overdue(w.sys, d) && !Locked(w, d) && AllBehind(w, mine, d)
    ensures Overdue(After(w, m, max).sys, d)
    ensures Locked(After(w, m, max), d) || AllBehind(After(w, m, max), Tracked(w, m, mine, d), d)
  {
    var w', mine' := After(w, m, max), Tracked(w, m, mine, d);
    if m.Other? {
      UntouchedRows(w.sys, m.step, max, d);
    } else if m.Commit? {
      assert !LockedBy(w, m.t, d);
    }
    forall t | t in mine' && t in w'.txs && !Locked(w', d)
      ensures Behind(w', w'.txs[t], d, mine'[t])
    {
      match m
      case Begin(u, limit, order) =>
        if t == u {
          BeginsBehind(w, u, limit, order, max, d);
        }
      case Visit(u) =>
        if t == u {
          VisitStaysBehind(w, u, max, d, mine[t]);
        }
      case Commit(u) => CommitKeepsBehind(w, u, max, d, t, mine[t]);
      case Abort(u) =>
      case Other(step) => OtherKeepsBehind(w, step, max, d, t, mine[t]);
    }
  }

  // ---- one statement ----

  /**
   * What a statement begun while d is overdue does at its commit, unless d has been locked by then:
   * it takes exactly `limit` rows, all of them ahead of d when it began and still ahead of d now.
   */
  lemma {:induction false} CommitTakesTheLimit(w: Store, t: nat, max: nat, d: Id, mine: map<nat, set<Id>>)
    requires LocksHold(w) && CanMove(w, Commit(t)) && Overdue(w.sys, d) && !Locked(w, d)
    requires AllBehind(w, mine, d) && t in mine
    ensures |w.txs[t].locked| == w.txs[t].limit && ToSet(w.txs[t].locked) <= mine[t]
    ensures var w' := After(w, Commit(t), max);
      && Overdue(w'.sys, d)
      && Ahead(w'.sys.box.rows, d) == Ahead(w.sys.box.rows, d) - ToSet(w.txs[t].locked)
      && |Ahead(w'.sys.box.rows, d)| + w.txs[t].limit == |Ahead(w.sys.box.rows, d)|
  {
    var x, rows := w.txs[t], w.sys.box.rows;
    assert Behind(w, x, d, mine[t]);
    CommitIsOneClaim(w, t);
    var rows' := After(w, Commit(t), max).sys.box.rows;
    assert d !in x.locked by { assert !LockedBy(w, t, d); }
    SetOfDistinct(x.locked);
    assert Ahead(rows', d) == Ahead(rows, d) - ToSet(x.locked);
    assert Ahead(rows, d) == Ahead(rows', d) + ToSet(x.locked);
  }

  predicate Counts(m: Move, mine: set<nat>) {
    m.Commit? && m.t in mine
  }

  /** The statements in `mine`, or begun during the run, that commit in it. */
  function Commits(run: seq<Move>, mine: set<nat>): nat {
    if run == [] then 0 else
      var m := run[0];
      (if Counts(m, mine) then 1 else 0) + Commits(run[1..], Open(m, mine))
  }

  function Open(m: Move, mine: set<nat>): set<nat> {
    if m.Begin? then mine + {m.t} else if m.Commit? || m.Abort? then mine - {m.t} else mine
  }

  ghost predicate SameLimit(run: seq<Move>, limit: nat) {
    forall i :: 0 <= i < |run| && run[i].Begin? ==> run[i].limit == limit
  }

  /** Once some statement holds d, it takes d, or still holds it at the end. */
  lemma {:induction false} HeldUntilTaken(w: Store, run: seq<Move>, max: nat, d: Id)
    requires LocksHold(w) && Moves(w, run, max) && UndisturbedRun(w, run, max, d) && Locked(w, d)
    ensures Taken(w, run, max, d) || Locked(End(w, run, max), d)
    decreases |run|
  {
    if run == [] {
    } else {
      MoveKeepsLocks(w, run[0], max);
      if !Takes(w, run[0], d) {
        var t :| LockedBy(w, t, d);
        assert LockedBy(After(w, run[0], max), t, d);
        HeldUntilTaken(After(w, run[0], max), run[1..], max, d);
      }
    }
  }

  /** A statement that is not Commit takes no row away from in front of d, and none adds one. */
  lemma {:induction false} QueueNeverGrows(w: Store, m: Move, max: nat, d: Id)
    requires LocksHold(w) && CanMove(w, m) && Undisturbed(w, m, max, d) && Overdue(w.sys, d) && !Takes(w, m, d)
    ensures Overdue(After(w, m, max).sys, d)
    ensures Ahead(After(w, m, max).sys.box.rows, d) <= Ahead(w.sys.box.rows, d)
  {
    if m.Other? {
      UntouchedRows(w.sys, m.step, max, d);
      NotTouched(w.sys, m.step, d);
      if LeavesAlone(w.sys, m.step, d) {
        StepNeverLengthensTheQueue(w.sys, m.step, max, d);
      }
    } else if m.Commit? {
      CommitIsOneClaim(w, m.t);
    }
  }

  lemma {:induction false} NotTouched(s: Sys, step: Step, d: Id)
    requires Enabled(s, step) && !step.ClaimDue? && !Touches(s, step, d)
    ensures Prompt(s, step) && !Picks(step, d)
    ensures LeavesAlone(s, step, d) || (step.Replay? && !ReplayHits(s.box.rows, step.id, step.endpoint))
  {
  }

  /** The statements in `mine` are in progress, with this limit. */
  ghost predicate InProgress(w: Store, mine: map<nat, set<Id>>, limit: nat) {
    forall t :: t in mine ==> t in w.txs && w.txs[t].limit == limit
  }

  lemma {:induction false} StaysInProgress(w: Store, m: Move, max: nat, d: Id, mine: map<nat, set<Id>>, limit: nat)
    requires LocksHold(w) && CanMove(w, m) && InProgress(w, mine, limit) && Overdue(w.sys, d)
    requires m.Begin? ==> m.limit == limit
    ensures InProgress(After(w, m, max), Tracked(w, m, mine, d), limit)
    ensures Tracked(w, m, mine, d).Keys == Open(m, mine.Keys)
  {
  }

  lemma {:induction false} MoveDrains(w: Store, m: Move, max: nat, d: Id, limit: nat, mine: map<nat, set<Id>>)
    requires LocksHold(w) && CanMove(w, m) && Undisturbed(w, m, max, d) && Overdue(w.sys, d) && !Takes(w, m, d)
    requires !Locked(w, d) && AllBehind(w, mine, d) && InProgress(w, mine, limit)
    ensures Overdue(After(w, m, max).sys, d)
    ensures |Ahead(After(w, m, max).sys.box.rows, d)| + (if Counts(m, mine.Keys) then limit else 0)
      <= |Ahead(w.sys.box.rows, d)|
  {
    if Counts(m, mine.Keys) {
      CommitTakesTheLimit(w, m.t, max, d, mine);
    } else {
      QueueNeverGrows(w, m, max, d);
      SubsetIsSmaller(Ahead(After(w, m, max).sys.box.rows, d), Ahead(w.sys.box.rows, d));
    }
  }

  lemma {:induction false} Distribute(n: nat, m: nat)
    ensures (n + 1) * m == n * m + m
  {
  }

  /** Commits that neither take d nor find it locked use up the rows ahead of it, `limit` at a time. */
  lemma {:induction false} CommitsDrainTheQueue(w: Store, run: seq<Move>, max: nat, d: Id, limit: nat,
      mine: map<nat, set<Id>>)
    requires LocksHold(w) && Moves(w, run, max) && UndisturbedRun(w, run, max, d)
    requires Overdue(w.sys, d) && !Locked(w, d) && !Taken(w, run, max, d) && SameLimit(run, limit)
    requires AllBehind(w, mine, d) && InProgress(w, mine, limit)
    ensures Locked(End(w, run, max), d) || Commits(run, mine.Keys) * limit <= |Ahead(w.sys.box.rows, d)|
    decreases |run|
  {
    if run == [] {
    } else {
      var m, rest := run[0], run[1..];
      MoveKeepsLocks(w, m, max);
      var w', mine' := After(w, m, max), Tracked(w, m, mine, d);
      assert forall i :: 0 <= i < |rest| ==> rest[i] == run[i + 1];
      MoveKeepsBehind(w, m, max, d, mine);
      StaysInProgress(w, m, max, d, mine, limit);
      if Locked(w', d) {
        HeldUntilTaken(w', rest, max, d);
      } else {
        CommitsDrainTheQueue(w', rest, max, d, limit, mine');
        MoveDrains(w, m, max, d, limit, mine);
        Distribute(Commits(rest, mine'.Keys), limit);
      }
    }
  }

  /**
   * Bounded wait with overlapping statements: an overdue delivery is claimed, or in the hands of a
   * statement about to claim it, once ahead / limit + 1 statements begun since then have committed.
   */
  lemma {:induction false} BoundedWaitUnderLocks(w: Store, run: seq<Move>, max: nat, d: Id, limit: nat)
    requires LocksHold(w) && Moves(w, run, max) && UndisturbedRun(w, run, max, d)
    requires Overdue(w.sys, d) && limit >= 1 && SameLimit(run, limit)
    requires Commits(run, {}) >= |Ahead(w.sys.box.rows, d)| / limit + 1
    ensures Taken(w, run, max, d) || Locked(End(w, run, max), d)
  {
    if Locked(w, d) {
      HeldUntilTaken(w, run, max, d);
    } else if !Taken(w, run, max, d) {
      var none: map<nat, set<Id>> := map[];
      assert none.Keys == {};
      CommitsDrainTheQueue(w, run, max, d, limit, none);
      CeilingReached(Commits(run, {}), limit, |Ahead(w.sys.box.rows, d)|);
    }
  }

  predicate PickedIn(steps: seq<Step>, d: Id) {
    exists i :: 0 <= i < |steps| && Picks(steps[i], d)
  }

  lemma {:induction false} PickedFirstOrLater(first: Step, rest: seq<Step>, d: Id)
    ensures PickedIn([first] + rest, d) <==> Picks(first, d) || PickedIn(rest, d)
  {
    var all := [first] + rest;
    if Picks(first, d) { assert Picks(all[0], d); }
    if i :| 0 <= i < |rest| && Picks(rest[i], d) { assert Picks(all[i + 1], d); }
    if i :| 0 <= i < |all| && Picks(all[i], d) { assert i > 0 ==> Picks(rest[i - 1], d); }
  }

  /** Seen from outside, d is taken exactly when one of the run's claim steps has it in its batch. */
  lemma {:induction false} TakenIsPicked(w: Store, run: seq<Move>, max: nat, d: Id)
    requires LocksHold(w) && Moves(w, run, max)
    ensures Taken(w, run, max, d) <==> PickedIn(Visible(w, run, max), d)
    decreases |run|
  {
    if run != [] {
      MoveKeepsLocks(w, run[0], max);
      var w', all := After(w, run[0], max), Visible(w, run, max);
      TakenIsPicked(w', run[1..], max, d);
      var rest := Visible(w', run[1..], max);
      if run[0].Commit? || run[0].Other? {
        assert all == [all[0]] + rest;
        PickedFirstOrLater(all[0], rest, d);
        assert Picks(all[0], d) <==> Takes(w, run[0], d);
      } else {
        assert all == rest;
      }
    }
  }
}
