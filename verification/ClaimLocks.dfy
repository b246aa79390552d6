/**
 * SELECT ... FOR UPDATE SKIP LOCKED, taken apart: each claim statement visits the rows of its
 * snapshot one by one, skips a row another statement has locked, rechecks the row it locks
 * against its own start time, and updates its rows at the end. Other statements wait for
 * locked rows. Every such run is a run of the machine in Dispatch, with each claim one step.
 */
module ClaimLocks {
  import opened Basics
  import opened Outbox
  import opened Dispatch

  /** A claim statement in progress. */
  datatype Tx = Tx(start: Instant, limit: nat, todo: seq<Id>, locked: seq<Id>)

  datatype Store = Store(sys: Sys, txs: map<nat, Tx>)

  datatype Move =
    | Begin(t: nat, limit: nat, order: seq<Id>)
    | Visit(t: nat)
    | Commit(t: nat)
    | Abort(t: nat)
    | Other(step: Step)

  predicate LockedBy(w: Store, t: nat, id: Id) {
    t in w.txs && id in w.txs[t].locked
  }

  ghost predicate Locked(w: Store, id: Id) {
    exists t :: LockedBy(w, t, id)
  }

  /** The existing rows a statement writes. */
  ghost predicate Touches(s: Sys, step: Step, id: Id) {
    match step
    case SendOk(k) => OpenClaim(s, k) && s.claims[k].id == id
    case SendFailed(k, _, _) => OpenClaim(s, k) && s.claims[k].id == id
    case Requeue => id in s.box.rows && LeaseExpired(s.box.rows[id], s.now)
    case Replay(x, endpoint) => x == id && ReplayHits(s.box.rows, x, endpoint)
    case ClaimDue(_, _, batch) => id in batch
    case _ => false
  }

  ghost predicate OrderedByDue(rows: Rows, order: seq<Id>)
    requires forall id :: id in order ==> id in rows
  {
    forall i, j :: 0 <= i < j < |order| ==> rows[order[i]].due <= rows[order[j]].due
  }

  ghost predicate CanMove(w: Store, m: Move) {
    match m
    case Begin(t, limit, order) =>
      && t !in w.txs && NoDuplicates(order)
      && ToSet(order) == DueIds(w.sys.box.rows, w.sys.now)
      && (forall id :: id in order ==> id in w.sys.box.rows)
      && OrderedByDue(w.sys.box.rows, order)
    case Visit(t) => t in w.txs && w.txs[t].todo != [] && |w.txs[t].locked| < w.txs[t].limit
    case Commit(t) => t in w.txs && (w.txs[t].todo == [] || |w.txs[t].locked| == w.txs[t].limit)
    case Abort(t) => t in w.txs
    case Other(step) =>
      Enabled(w.sys, step) && !step.ClaimDue? && forall id :: Locked(w, id) ==> !Touches(w.sys, step, id)
  }

  ghost function Visited(w: Store, x: Tx): Tx
    requires x.todo != []
  {
    var id := x.todo[0];
    if !Locked(w, id) && id in w.sys.box.rows && Claimable(w.sys.box.rows[id], x.start)
    then x.(todo := x.todo[1..], locked := x.locked + [id])
    else x.(todo := x.todo[1..])
  }

  /** No two statements lock the same row, and a locked row is still what its statement saw. */
  ghost predicate LocksHold(w: Store) {
    && (forall t, u, id :: LockedBy(w, t, id) && LockedBy(w, u, id) ==> t == u)
    && (forall t, id :: LockedBy(w, t, id) ==>
          id in w.sys.box.rows && Claimable(w.sys.box.rows[id], w.txs[t].start))
    && (forall t :: t in w.txs ==>
          NoDuplicates(w.txs[t].locked) && |w.txs[t].locked| <= w.txs[t].limit && w.txs[t].start <= w.sys.now)
  }

  /** The claim statement as the one step it amounts to. */
  function AsStep(x: Tx): Step {
    ClaimDue(x.limit, x.start, x.locked)
  }

  lemma {:induction false} CommitIsOneClaim(w: Store, t: nat)
    requires LocksHold(w) && t in w.txs
    ensures Enabled(w.sys, AsStep(w.txs[t]))
  {
    forall id | id in w.txs[t].locked ensures LockedBy(w, t, id) {}
  }

  ghost function After(w: Store, m: Move, max: nat): Store
    requires LocksHold(w) && CanMove(w, m)
  {
    match m
    case Begin(t, limit, order) => w.(txs := w.txs[t := Tx(w.sys.now, limit, order, [])])
    case Visit(t) => w.(txs := w.txs[t := Visited(w, w.txs[t])])
    case Commit(t) =>
      CommitIsOneClaim(w, t);
      Store(Apply(w.sys, AsStep(w.txs[t]), max), w.txs - {t})
    case Abort(t) => w.(txs := w.txs - {t})
    case Other(step) => w.(sys := Apply(w.sys, step, max))
  }

  /** A statement leaves the rows it does not touch exactly as they were. */
  lemma {:induction false} UntouchedRows(s: Sys, step: Step, max: nat, id: Id)
    requires Enabled(s, step) && id in s.box.rows && !Touches(s, step, id)
    ensures id in Apply(s, step, max).box.rows && Apply(s, step, max).box.rows[id] == s.box.rows[id]
    ensures Apply(s, step, max).now >= s.now
  {
  }

  lemma {:induction false} VisitKeepsLocks(w: Store, t: nat, max: nat)
    requires LocksHold(w) && CanMove(w, Visit(t))
    ensures LocksHold(After(w, Visit(t), max))
  {
    var x, w' := w.txs[t], After(w, Visit(t), max);
    var id := x.todo[0];
    forall u, i | LockedBy(w', u, i)
      ensures LockedBy(w, u, i) || (u == t && i == id && !Locked(w, id) && w'.txs[t].locked != x.locked) {}
    if w'.txs[t].locked != x.locked {
      if id in x.locked {
        assert LockedBy(w, t, id);
      }
      assert NoDuplicates(x.locked + [id]);
    }
    forall u, v, i | LockedBy(w', u, i) && LockedBy(w', v, i) ensures u == v {
      if LockedBy(w, u, i) || LockedBy(w, v, i) {
        assert Locked(w, i);
      }
    }
    forall u, i | LockedBy(w', u, i)
      ensures i in w'.sys.box.rows && Claimable(w'.sys.box.rows[i], w'.txs[u].start)
    {
      if LockedBy(w, u, i) {}
    }
  }

  lemma {:induction false} StepKeepsLocks(w: Store, w': Store, step: Step, max: nat)
    requires LocksHold(w) && Enabled(w.sys, step) && w'.sys == Apply(w.sys, step, max)
    requires forall t, id :: LockedBy(w', t, id) ==> LockedBy(w, t, id) && !Touches(w.sys, step, id)
    requires forall t :: t in w'.txs ==> t in w.txs && w'.txs[t] == w.txs[t]
    ensures LocksHold(w')
  {
    forall t, id | LockedBy(w', t, id)
      ensures id in w'.sys.box.rows && Claimable(w'.sys.box.rows[id], w'.txs[t].start)
    {
      UntouchedRows(w.sys, step, max, id);
    }
    assert w'.sys.now >= w.sys.now;
  }

  lemma {:induction false} MoveKeepsLocks(w: Store, m: Move, max: nat)
    requires LocksHold(w) && CanMove(w, m)
    ensures LocksHold(After(w, m, max))
  {
    var w' := After(w, m, max);
    match m
    case Begin(t, _, _) =>
      forall u, id | LockedBy(w', u, id) ensures u != t && LockedBy(w, u, id) && w'.txs[u] == w.txs[u] {}
    case Visit(t) => VisitKeepsLocks(w, t, max);
    case Commit(t) =>
      CommitIsOneClaim(w, t);
      forall u, id | LockedBy(w', u, id) ensures LockedBy(w, u, id) && !Touches(w.sys, AsStep(w.txs[t]), id) {
        if id in w.txs[t].locked {
          assert LockedBy(w, t, id) && LockedBy(w, u, id);
        }
      }
      StepKeepsLocks(w, w', AsStep(w.txs[t]), max);
    case Abort(t) =>
      forall u, id | LockedBy(w', u, id) ensures LockedBy(w, u, id) && w'.txs[u] == w.txs[u] {}
    case Other(step) =>
      forall u, id | LockedBy(w', u, id) ensures LockedBy(w, u, id) && !Touches(w.sys, step, id) {
        assert LockedBy(w, u, id);
      }
      StepKeepsLocks(w, w', step, max);
  }

  ghost predicate Moves(w: Store, run: seq<Move>, max: nat)
    requires LocksHold(w)
    decreases |run|
  {
    run != [] ==>
      && CanMove(w, run[0])
      && (MoveKeepsLocks(w, run[0], max); Moves(After(w, run[0], max), run[1..], max))
  }

  ghost function End(w: Store, run: seq<Move>, max: nat): (e: Store)
    requires LocksHold(w) && Moves(w, run, max)
    ensures LocksHold(e)
    decreases |run|
  {
    if run == [] then w else
      MoveKeepsLocks(w, run[0], max);
      End(After(w, run[0], max), run[1..], max)
  }

  /** What a locked run looks like from outside: commits and other statements, one step each. */
  ghost function Visible(w: Store, run: seq<Move>, max: nat): seq<Step>
    requires LocksHold(w) && Moves(w, run, max)
    decreases |run|
  {
    if run == [] then [] else
      MoveKeepsLocks(w, run[0], max);
      var rest := Visible(After(w, run[0], max), run[1..], max);
      match run[0]
      case Commit(t) => [AsStep(w.txs[t])] + rest
      case Other(step) => [step] + rest
      case _ => rest
  }

  /** The refinement: locking, skipping and rechecking behave as atomic claims of due rows. */
  lemma {:induction false} LockedRunRefines(w: Store, run: seq<Move>, max: nat)
    requires LocksHold(w) && Moves(w, run, max)
    ensures Admissible(w.sys, Visible(w, run, max), max)
    ensures Final(w.sys, Visible(w, run, max), max) == End(w, run, max).sys
    decreases |run|
  {
    if run != [] {
      MoveKeepsLocks(w, run[0], max);
      var w' := After(w, run[0], max);
      LockedRunRefines(w', run[1..], max);
      var rest := Visible(w', run[1..], max);
      match run[0]
      case Commit(t) =>
        CommitIsOneClaim(w, t);
        assert ([AsStep(w.txs[t])] + rest)[1..] == rest;
      case Other(step) =>
        assert ([step] + rest)[1..] == rest;
      case _ =>
    }
  }

  /** A run in which no step writes row id, except perhaps claims. */
  ghost predicate NothingElseWrites(s: Sys, run: seq<Step>, max: nat, id: Id)
    decreases |run|
  {
    run != [] ==>
      && Enabled(s, run[0])
      && (!run[0].ClaimDue? ==> !Touches(s, run[0], id))
      && NothingElseWrites(Apply(s, run[0], max), run[1..], max, id)
  }

  /**
   * Concurrent batches are disjoint: once a claim has committed a row, no statement that
   * commits later, however early it started, claims it too until some other statement
   * has written the row.
   */
  lemma {:induction false} ClaimedOnce(s: Sys, run: seq<Step>, max: nat, id: Id)
    requires id in s.box.rows && !Waiting(s.box.rows[id])
    requires NothingElseWrites(s, run, max, id)
    ensures forall i :: 0 <= i < |run| && run[i].ClaimDue? ==> id !in run[i].batch
    decreases |run|
  {
    if run != [] {
      UntouchedRows(s, run[0], max, id);
      ClaimedOnce(Apply(s, run[0], max), run[1..], max, id);
      forall i | 0 <= i < |run| && run[i].ClaimDue? ensures id !in run[i].batch {
        if i > 0 {
          assert run[i] == run[1..][i - 1];
        }
      }
    }
  }

  /** The same, said of two claim statements that run side by side and both commit. */
  lemma {:induction false} ConcurrentBatchesAreDisjoint(w: Store, first: nat, run: seq<Move>, max: nat, id: Id)
    requires LocksHold(w) && CanMove(w, Commit(first)) && LockedBy(w, first, id)
    requires LocksHold(After(w, Commit(first), max)) && Moves(After(w, Commit(first), max), run, max)
    requires var w' := After(w, Commit(first), max); NothingElseWrites(w'.sys, Visible(w', run, max), max, id)
    ensures var later := Visible(After(w, Commit(first), max), run, max);
      forall i :: 0 <= i < |later| && later[i].ClaimDue? ==> id !in later[i].batch
  {
    var w' := After(w, Commit(first), max);
    CommitIsOneClaim(w, first);
    assert id in ToSet(w.txs[first].locked);
    ClaimedOnce(w'.sys, Visible(w', run, max), max, id);
  }
}
