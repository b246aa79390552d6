/** internal/webhook/store.go and the replay handler, statement by statement on one mutable outbox. */
module WebhookStore {
  import opened Basics
  import opened Outbox
  import D = Dispatch

  /** What ClaimDue hands the dispatcher for one row; `kind` is the type of the row's event. */
  datatype Claimed = Claimed(
    id: Id, endpoint: Id, event: Id, url: string, secret: string, payload: string,
    attempts: nat, nextAttemptAt: Instant, kind: string)

  datatype Fault = NegativeLimit | Unreadable

  /** The first `n` rows of an ordered selection are a batch. */
  ghost predicate OrderedSelection(rows: Rows, now: Instant, picked: seq<Id>, rest: set<Id>) {
    && NoDuplicates(picked)
    && ToSet(picked) !! rest
    && ToSet(picked) + rest == DueIds(rows, now)
    && forall x, y :: x in picked && y in rest ==> x in rows && y in rows && rows[x].due <= rows[y].due
  }

  /** Every picked row has an event whose type can be returned with it. */
  ghost predicate Typed(before: Rows, kinds: map<Id, string>, picked: seq<Id>) {
    forall id :: id in picked ==> id in before && before[id].event in kinds
  }

  /**
   * Column by column: each delivery handed out is the picked row as it was, except that its next
   * attempt is due when the lease of five minutes ends.
   */
  ghost predicate HandedOut(before: Rows, kinds: map<Id, string>, now: Instant, picked: seq<Id>, out: seq<Claimed>) {
    && |out| <= |picked|
    && forall i :: 0 <= i < |out| ==>
         && picked[i] in before && before[picked[i]].event in kinds
         && out[i].id == picked[i]
         && out[i].endpoint == before[picked[i]].endpoint
         && out[i].event == before[picked[i]].event
         && out[i].url == before[picked[i]].url
         && out[i].secret == before[picked[i]].secret
         && out[i].payload == before[picked[i]].payload
         && out[i].attempts == before[picked[i]].attempts
         && out[i].nextAttemptAt == now + 300 * SECOND
         && out[i].kind == kinds[before[picked[i]].event]
  }

  /** The deliveries handed out, as the claims the dispatcher machine keeps. */
  function AsClaims(out: seq<Claimed>): seq<D.Claim> {
    seq(|out|, i requires 0 <= i < |out| => D.Claim(out[i].id, out[i].attempts, out[i].nextAttemptAt, true))
  }

  /**
   * A ClaimDue call that returns is one step of the dispatcher machine, and what it returns are the
   * claims the machine adds, so what holds of all runs of the machine holds of them.
   */
  lemma {:induction false} ClaimDueIsAStep(s: D.Sys, limit: nat, kinds: map<Id, string>, picked: seq<Id>,
      out: seq<Claimed>, max: nat)
    requires NoDuplicates(picked) && IsBatch(s.box.rows, s.now, limit, ToSet(picked))
    requires HandedOut(s.box.rows, kinds, s.now, picked, out) && |out| == |picked|
    ensures D.Enabled(s, D.ClaimDue(limit, s.now, picked))
    ensures var t := D.Apply(s, D.ClaimDue(limit, s.now, picked), max);
      && t.claims == s.claims + AsClaims(out)
      && t.box == s.box.(rows := ClaimRows(s.box.rows, ToSet(picked), s.now))
  {
    SetOfDistinct(picked);
    forall id | id in picked
      ensures id in s.box.rows && Claimable(s.box.rows[id], s.now)
    {
      assert id in ToSet(picked) && id in DueIds(s.box.rows, s.now);
    }
    assert AsClaims(out) == D.Handed(s.box.rows, picked, s.now);
  }

  /** The earliest row of a non-empty set of rows. */
  method Earliest(rows: Rows, ids: set<Id>) returns (first: Id)
    requires ids != {} && ids <= rows.Keys
    ensures first in ids && forall x :: x in ids ==> rows[first].due <= rows[x].due
  {
    first :| first in ids;
    var rest := ids - {first};
    while rest != {}
      invariant first in ids && rest <= ids
      invariant forall x :: x in ids - rest ==> rows[first].due <= rows[x].due
      decreases |rest|
    {
      var x :| x in rest;
      if rows[x].due < rows[first].due {
        first := x;
      }
      rest := rest - {x};
    }
  }

  lemma {:induction false} SelectionGrows(rows: Rows, now: Instant, picked: seq<Id>, rest: set<Id>, id: Id)
    requires OrderedSelection(rows, now, picked, rest) && id in rest
    requires forall x :: x in rest ==> x in rows && rows[id].due <= rows[x].due
    ensures OrderedSelection(rows, now, picked + [id], rest - {id})
  {
    assert ToSet(picked + [id]) == ToSet(picked) + {id};
    assert id !in ToSet(picked);
  }

  lemma {:induction false} SelectionIsBatch(rows: Rows, now: Instant, limit: nat, picked: seq<Id>, rest: set<Id>)
    requires OrderedSelection(rows, now, picked, rest) && |picked| <= limit
    requires |picked| == limit || rest == {}
    ensures IsBatch(rows, now, limit, ToSet(picked))
  {
    SetOfDistinct(picked);
    assert |DueIds(rows, now)| == |ToSet(picked)| + |rest|;
    assert DueIds(rows, now) - ToSet(picked) == rest;
  }

  /** SELECT id ... ORDER BY next_attempt_at LIMIT limit. */
  method SelectDue(rows: Rows, now: Instant, limit: nat) returns (picked: seq<Id>)
    ensures NoDuplicates(picked) && IsBatch(rows, now, limit, ToSet(picked))
  {
    picked := [];
    var rest := set id | id in rows && (rows[id].status == Pending || rows[id].status == Failed) && rows[id].due <= now;
    while |picked| < limit && rest != {}
      invariant OrderedSelection(rows, now, picked, rest) && |picked| <= limit
      decreases |rest|
    {
      var id := Earliest(rows, rest);
      SelectionGrows(rows, now, picked, rest, id);
      picked, rest := picked + [id], rest - {id};
    }
    SelectionIsBatch(rows, now, limit, picked, rest);
  }

  class Store {
    var rows: Rows
    var log: seq<LogRow>

    constructor ()
      ensures Contents() == Box(map[], [])
    {
      rows, log := map[], [];
    }

    ghost function Contents(): (b: Box)
      reads this
    {
      Box(rows, log)
    }

    /**
     * Claims up to `limit` due rows and hands them out. `kinds` is the type column of the events
     * table, `readable` how many rows reach the caller before the connection fails: when a row
     * cannot be scanned, the caller gets an error although the rows are leased.
     */
    method ClaimDue(limit: int, now: Instant, kinds: map<Id, string>, readable: nat)
      returns (res: Result<seq<Claimed>, Fault>)
      modifies this
      ensures limit < 0 ==> res == Err(NegativeLimit) && Contents() == old(Contents())
      ensures limit >= 0 ==> exists picked: seq<Id> ::
        && NoDuplicates(picked) && IsBatch(old(rows), now, limit, ToSet(picked))
        && Contents() == old(Contents()).(rows := ClaimRows(old(rows), ToSet(picked), now))
        && (res.Ok? <==> |picked| <= readable && Typed(old(rows), kinds, picked))
        && (res.Ok? ==> |res.value| == |picked| && HandedOut(old(rows), kinds, now, picked, res.value))
      ensures limit >= 0 && res.Err? ==> res == Err(Unreadable)
    {
      if limit < 0 {
        return Err(NegativeLimit);
      }
      var picked := SelectDue(rows, now, limit);
      ghost var before := rows;
      assert forall id :: id in picked ==> id in ToSet(picked) && id in DueIds(rows, now);
      rows := map id | id in rows ::
        if id in picked then rows[id].(status := Delivering, due := now + LEASE) else rows[id];
      assert rows == ClaimRows(before, ToSet(picked), now);
      res := HandOut(picked, kinds, readable, before, now);
    }

    /** Scans the updated rows. */
    method HandOut(picked: seq<Id>, kinds: map<Id, string>, readable: nat, ghost before: Rows, ghost now: Instant)
      returns (res: Result<seq<Claimed>, Fault>)
      requires forall id :: id in picked ==>
        id in rows && id in before && rows[id] == before[id].(status := Delivering, due := now + LEASE)
      ensures res.Ok? <==> |picked| <= readable && Typed(before, kinds, picked)
      ensures res.Ok? ==> |res.value| == |picked| && HandedOut(before, kinds, now, picked, res.value)
      ensures res.Err? ==> res == Err(Unreadable)
    {
      var out: seq<Claimed> := [];
      for i := 0 to |picked|
        invariant |out| == i <= readable && HandedOut(before, kinds, now, picked, out)
      {
        var id := picked[i];
        assert id in picked;
        var d := rows[id];
        if i >= readable || d.event !in kinds {
          return Err(Unreadable);
        }
        out := out + [Claimed(id, d.endpoint, d.event, d.url, d.secret, d.payload, d.attempts, d.due, kinds[d.event])];
      }
      return Ok(out);
    }

    method MarkSucceeded(id: Id)
      modifies this
      ensures Contents() == Outbox.MarkSucceeded(old(Contents()), id)
    {
      if id in rows {
        var attemptNo := rows[id].attempts + 1;
        rows := rows[id := rows[id].(status := Succeeded)];
        log := log + [LogRow(id, attemptNo, None)];
      }
    }

    method MarkFailed(id: Id, nextAttempt: Instant, errMsg: string)
      modifies this
      ensures Contents() == Outbox.MarkFailed(old(Contents()), id, nextAttempt, errMsg)
    {
      if id in rows {
        var d := rows[id];
        rows := rows[id := d.(attempts := d.attempts + 1, status := Failed, due := nextAttempt,
                              lastError := Some(errMsg))];
        log := log + [LogRow(id, rows[id].attempts, Some(errMsg))];
      }
    }

    method MarkDead(id: Id)
      modifies this
      ensures Contents() == Outbox.MarkDead(old(Contents()), id)
    {
      if id in rows {
        var d := rows[id];
        rows := rows[id := d.(attempts := d.attempts + 1, status := Dead)];
        log := log + [LogRow(id, rows[id].attempts, Some("max attempts exceeded"))];
      }
    }

    /** Re-arms every delivery whose lease has run out, and counts them. */
    method Requeue(now: Instant) returns (n: nat)
      modifies this
      ensures Contents() == old(Contents()).(rows := RequeueRows(old(rows), now))
      ensures n == |set id | id in old(rows) && LeaseExpired(old(rows)[id], now)|
    {
      var expired := set id | id in rows && rows[id].status == Delivering && rows[id].due <= now;
      assert expired == set id | id in rows && LeaseExpired(rows[id], now);
      n := |expired|;
      rows := map id | id in rows ::
        if id in expired then rows[id].(status := Pending, due := now) else rows[id];
    }

    /** The replay endpoint: false is its 404. */
    method Replay(endpoint: Id, id: Id, now: Instant) returns (found: bool)
      modifies this
      ensures found == ReplayHits(old(rows), id, endpoint)
      ensures Contents() == old(Contents()).(rows := ReplayRows(old(rows), id, endpoint, now))
    {
      found := id in rows && rows[id].endpoint == endpoint;
      if found {
        rows := rows[id := rows[id].(status := Pending, attempts := 0, due := now, lastError := None)];
      }
    }
  }
}
