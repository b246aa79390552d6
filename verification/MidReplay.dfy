/**
 * What the tables hold in the middle of a replay: columns that keep the first value are those of
 * the newest change ever committed; columns that keep the last one may lag, and by how much.
 */
module MidReplay {
  import opened Basics
  import opened Projection
  import opened Convergence

  /** No change from a up to but not including b writes the cell. */
  ghost predicate Unwritten(t0: Tables, cs: seq<Change>, a: nat, b: nat, c: Cell)
    requires b <= |cs|
  {
    forall i :: a <= i < b ==> ChangeWrites(t0, cs, i, c) == None
  }

  /** The value is change j's write, and no change after j up to the one committed last writes the cell. */
  ghost predicate StandsAt(t0: Tables, cs: seq<Change>, next: nat, c: Cell, r: Option<Val>, j: nat)
    requires next <= |cs| && j < |cs|
  {
    r.Some? && ChangeWrites(t0, cs, j, c) == r && Unwritten(t0, cs, j + 1, next, c)
  }

  /**
   * A cell that keeps the last value written: some committed change's write, with no writer between
   * that change and the one committed last; or what was there at the start, if none wrote.
   */
  ghost predicate LastStands(t0: Tables, cs: seq<Change>, next: nat, m: nat, c: Cell, r: Option<Val>)
    requires next <= m <= |cs|
  {
    (exists j: nat :: j < m && StandsAt(t0, cs, next, c, r, j))
    || (r == Read(t0, c) && Unwritten(t0, cs, 0, m, c))
  }

  ghost predicate AllStand(t0: Tables, t: Tables, cs: seq<Change>, next: nat, m: nat)
    requires next <= m <= |cs|
  {
    forall c :: LastWriterWins(c) ==> LastStands(t0, cs, next, m, c, Read(t, c))
  }

  /** Committing change k, no later than the next one, moves the cell to k's write or leaves it. */
  lemma {:induction false} CommitStands(t0: Tables, cs: seq<Change>, next: nat, m: nat, c: Cell, r: Option<Val>, k: nat)
    requires next <= m <= |cs| && k <= next && k < |cs| && LastWriterWins(c)
    requires LastStands(t0, cs, next, m, c, r)
    ensures LastStands(t0, cs, k + 1, Max(m, k + 1), c, Put(c, r, ChangeWrites(t0, cs, k, c)))
  {
    var w := ChangeWrites(t0, cs, k, c);
    if w.Some? {
      assert StandsAt(t0, cs, k + 1, c, w, k);
    } else if j: nat :| j < m && StandsAt(t0, cs, next, c, r, j) {
      assert StandsAt(t0, cs, k + 1, c, r, j);
    }
  }

  lemma {:induction false} AttemptStands(t0: Tables, t: Tables, cs: seq<Change>, next: nat, m: nat, a: Attempt)
    requires InSeqOrder(cs) && OnTrack(t0, t, cs, next, m) && AllStand(t0, t, cs, next, m)
    requires Allowed(t, cs, a) && a.lands
    ensures a.k <= next && AllStand(t0, Tried(t, cs, a), cs, a.k + 1, Max(m, a.k + 1))
  {
    var ch, t' := cs[a.k], Tried(t, cs, a);
    FlushWrites(t0, t, ch.events, ch.seqNo, a.now);
    forall c | LastWriterWins(c)
      ensures LastStands(t0, cs, a.k + 1, Max(m, a.k + 1), c, Read(t', c))
    {
      CommitStands(t0, cs, next, m, c, Read(t, c), a.k);
    }
  }

  /** A state of the run: on track to the clean tables, every last-value cell accounted for. */
  ghost predicate Stands(t0: Tables, t: Tables, cs: seq<Change>, next: nat, m: nat) {
    OnTrack(t0, t, cs, next, m) && AllStand(t0, t, cs, next, m)
  }

  lemma {:induction false} TryStands(t0: Tables, t: Tables, cs: seq<Change>, next: nat, m: nat, a: Attempt)
    requires InSeqOrder(cs) && Stands(t0, t, cs, next, m) && Allowed(t, cs, a)
    ensures Stands(t0, Tried(t, cs, a), cs, NextOf(a, next), NewestOf(a, m))
  {
    if a.lands {
      AttemptStaysOnTrack(t0, t, cs, next, m, a);
      AttemptStands(t0, t, cs, next, m, a);
    }
  }

  lemma {:induction false} RunStands(t0: Tables, t: Tables, cs: seq<Change>, run: seq<Attempt>, next: nat, m: nat)
    requires InSeqOrder(cs) && Stands(t0, t, cs, next, m) && History(t, cs, run)
    ensures Stands(t0, Outcome(t, cs, run), cs, NextAfter(run, next), NewestAfter(run, m))
    decreases |run|
  {
    if run == [] {
    } else {
      TryStands(t0, t, cs, next, m, run[0]);
      RunStands(t0, Tried(t, cs, run[0]), cs, run[1..], NextOf(run[0], next), NewestOf(run[0], m));
    }
  }

  /**
   * After any run of rolled-back saves, restarts and in-order redelivery, wherever it stops: the
   * checkpoint is that of the change committed last; a first-value cell holds what the changes up to
   * the newest ever committed make of it; a last-value cell holds the write of some committed change
   * that nothing between it and the change committed last overwrites, or its start value.
   */
  lemma {:induction false} TablesMidReplay(t0: Tables, cs: seq<Change>, run: seq<Attempt>)
    requires InSeqOrder(cs) && t0.checkpoint == None && History(t0, cs, run)
    ensures var t, next, m := Outcome(t0, cs, run), NextAfter(run, 0), NewestAfter(run, 0);
      && next <= m <= |cs|
      && t.checkpoint == (if next == 0 then None else Some(cs[next - 1].seqNo))
      && forall c :: if LastWriterWins(c) then LastStands(t0, cs, next, m, c, Read(t, c))
                     else Read(t, c) == PutRange(t0, cs, 0, m, c, Read(t0, c))
  {
    forall c
      ensures LastStands(t0, cs, 0, 0, c, Read(t0, c)) && CellOnTrack(t0, cs, 0, 0, c, Read(t0, c))
    {
    }
    RunStands(t0, t0, cs, run, 0, 0);
    var t, next, m := Outcome(t0, cs, run), NextAfter(run, 0), NewestAfter(run, 0);
    forall c
      ensures if LastWriterWins(c) then LastStands(t0, cs, next, m, c, Read(t, c))
              else Read(t, c) == PutRange(t0, cs, 0, m, c, Read(t0, c))
    {
      assert CellOnTrack(t0, cs, next, m, c, Read(t, c));
    }
  }
}
