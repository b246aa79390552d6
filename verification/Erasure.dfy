/** Redeliveries can be erased from any run without a trace in the outbox. */
module Erasure {
  import opened Basics
  import Outbox
  import opened Derive
  import opened Projection
  import opened Convergence
  import opened Redelivery
  import D = Dispatch

  /** No endpoint is added, reactivated or subscribed to more. */
  ghost predicate Narrower(from: map<Id, Endpoint>, to: map<Id, Endpoint>) {
    forall kind :: Matching(to, kind) <= Matching(from, kind)
  }

  ghost predicate Widens(w: World, step: WStep) {
    step.Subscriptions? && !Narrower(w.t.endpoints, step.endpoints)
  }

  ghost predicate NeverWidens(w: World, cs: seq<Change>, run: seq<WStep>, max: nat)
    requires Legal(w, cs, run, max)
    decreases |run|
  {
    run != [] ==> !Widens(w, run[0]) && NeverWidens(Do(w, cs, run[0], max), cs, run[1..], max)
  }

  /** A save that is rolled back, or repeats a change committed before. */
  predicate Redelivers(w: World, step: WStep) {
    step.Save? && (!step.lands || step.k < w.covered)
  }

  ghost function Erased(w: World, cs: seq<Change>, run: seq<WStep>, max: nat): seq<WStep>
    requires Legal(w, cs, run, max)
    decreases |run|
  {
    if run == [] then [] else
      (if Redelivers(w, run[0]) then [] else [run[0]]) + Erased(Do(w, cs, run[0], max), cs, run[1..], max)
  }

  ghost predicate CheckpointAt(w: World, cs: seq<Change>) {
    && w.next <= w.covered <= |cs|
    && w.t.checkpoint == if w.next == 0 then None else Some(cs[w.next - 1].seqNo)
  }

  ghost predicate Settled(w: World, cs: seq<Change>) {
    CheckpointAt(w, cs) && forall k :: 0 <= k < w.covered ==> AllServed(CoreOf(w.t), cs[k].events)
  }

  lemma {:induction false} InTimeIsNext(w: World, cs: seq<Change>, k: nat)
    requires InSeqOrder(cs) && CheckpointAt(w, cs) && StartsInTime(w.t, cs, k)
    ensures k <= w.next
  {
  }

  /** A save that lands, seen from the outbox. */
  lemma {:induction false} LandedSave(w: World, cs: seq<Change>, k: nat, max: nat)
    requires InSeqOrder(cs) && CheckpointAt(w, cs) && Ready(w, cs, Save(k, true))
    ensures CheckpointAt(Do(w, cs, Save(k, true), max), cs)
    ensures CoreOf(Do(w, cs, Save(k, true), max).t) == CoreAfter(CoreOf(w.t), cs[k].events, cs[k].seqNo, w.now)
    ensures Acceptable(w.t.endpoints, cs[k].events) && k <= w.next
  {
    InTimeIsNext(w, cs, k);
    FlushSucceedsIff(w.t, cs[k].events, cs[k].seqNo, w.now);
    FlushCore(w.t, cs[k].events, cs[k].seqNo, w.now);
  }

  lemma {:induction false} SaveKeepsSettled(w: World, cs: seq<Change>, k: nat, max: nat)
    requires InSeqOrder(cs) && Settled(w, cs) && Ready(w, cs, Save(k, true))
    ensures Settled(Do(w, cs, Save(k, true), max), cs)
  {
    var w' := Do(w, cs, Save(k, true), max);
    LandedSave(w, cs, k, max);
    forall j | 0 <= j < w'.covered ensures AllServed(CoreOf(w'.t), cs[j].events) {
      if j != k {
        forall i | 0 <= i < |cs[j].events| ensures Served(CoreOf(w'.t), cs[j].events[i]) {
          FlushServes(CoreOf(w.t), cs[k].events, cs[k].seqNo, w.now, cs[j].events[i]);
        }
      } else {
        forall f: Event { FlushServes(CoreOf(w.t), cs[k].events, cs[k].seqNo, w.now, f); }
      }
    }
  }

  lemma {:induction false} StepKeepsSettled(w: World, cs: seq<Change>, step: WStep, max: nat)
    requires InSeqOrder(cs) && Settled(w, cs) && Ready(w, cs, step) && !Widens(w, step)
    ensures Settled(Do(w, cs, step, max), cs)
  {
    var w' := Do(w, cs, step, max);
    if step.Save? {
      if step.lands {
        SaveKeepsSettled(w, cs, step.k, max);
      }
    } else {
      if step.Work? {
        WorkKeepsIdentity(SysOf(w), step.step, max);
      }
      forall k, i | 0 <= k < w'.covered && 0 <= i < |cs[k].events| ensures Served(CoreOf(w'.t), cs[k].events[i]) {
        assert AllServed(CoreOf(w.t), cs[k].events);
        assert Served(CoreOf(w.t), cs[k].events[i]);
      }
    }
  }

  /** v is w as it would be had no change ever been redelivered. */
  ghost predicate SameOutbox(w: World, v: World, cs: seq<Change>) {
    && CoreOf(w.t) == CoreOf(v.t) && SysOf(w) == SysOf(v)
    && v.covered == w.covered && v.next == v.covered && CheckpointAt(v, cs)
  }

  lemma {:induction false} RedeliveryLeavesNoTrace(w: World, v: World, cs: seq<Change>, step: WStep, max: nat)
    requires InSeqOrder(cs) && Settled(w, cs) && SameOutbox(w, v, cs) && Ready(w, cs, step) && Redelivers(w, step)
    ensures SameOutbox(Do(w, cs, step, max), v, cs)
  {
    if step.lands {
      LandedSave(w, cs, step.k, max);
      RedeliveryIsNoOp(CoreOf(w.t), cs[step.k].events, cs[step.k].seqNo, w.now);
    }
  }

  lemma {:induction false} OtherStepsAgree(w: World, v: World, cs: seq<Change>, step: WStep, max: nat)
    requires InSeqOrder(cs) && CheckpointAt(w, cs) && SameOutbox(w, v, cs)
    requires Ready(w, cs, step) && !Redelivers(w, step)
    ensures Ready(v, cs, step) && SameOutbox(Do(w, cs, step, max), Do(v, cs, step, max), cs)
  {
    if step.Save? {
      LandedSave(w, cs, step.k, max);
      var ch := cs[step.k];
      FlushSucceedsIff(v.t, ch.events, ch.seqNo, v.now);
      LandedSave(v, cs, step.k, max);
    }
  }

  lemma {:induction false} ErasingFrom(w: World, v: World, cs: seq<Change>, run: seq<WStep>, max: nat)
    requires InSeqOrder(cs) && Settled(w, cs) && SameOutbox(w, v, cs)
    requires Legal(w, cs, run, max) && NeverWidens(w, cs, run, max)
    ensures Legal(v, cs, Erased(w, cs, run, max), max)
    ensures SameOutbox(End(w, cs, run, max), End(v, cs, Erased(w, cs, run, max), max), cs)
    decreases |run|
  {
    if run != [] {
      var w' := Do(w, cs, run[0], max);
      StepKeepsSettled(w, cs, run[0], max);
      if Redelivers(w, run[0]) {
        RedeliveryLeavesNoTrace(w, v, cs, run[0], max);
        ErasingFrom(w', v, cs, run[1..], max);
        assert Erased(w, cs, run, max) == Erased(w', cs, run[1..], max);
      } else {
        OtherStepsAgree(w, v, cs, run[0], max);
        ErasingFrom(w', Do(v, cs, run[0], max), cs, run[1..], max);
        var rest := Erased(w', cs, run[1..], max);
        assert Erased(w, cs, run, max) == [run[0]] + rest;
        assert ([run[0]] + rest)[1..] == rest;
      }
    }
  }

  /**
   * Whatever workers, operators, merchants and test pings do in between, the run without its
   * redeliveries and rolled-back saves is a legal run too, and ends with the same deliveries,
   * attempt log, claims, event rows and clock.
   */
  lemma {:induction false} RedeliveriesCanBeErased(w: World, cs: seq<Change>, run: seq<WStep>, max: nat)
    requires Fresh(w) && InSeqOrder(cs) && Legal(w, cs, run, max) && NeverWidens(w, cs, run, max)
    ensures Legal(w, cs, Erased(w, cs, run, max), max)
    ensures var a, b := End(w, cs, run, max), End(w, cs, Erased(w, cs, run, max), max);
      && SysOf(a) == SysOf(b) && a.t.deliveries == b.t.deliveries && a.t.events == b.t.events
  {
    ErasingFrom(w, w, cs, run, max);
    var a, b := End(w, cs, run, max), End(w, cs, Erased(w, cs, run, max), max);
    assert CoreOf(a.t).events == CoreOf(b.t).events && CoreOf(a.t).deliveries == CoreOf(b.t).deliveries;
  }
}
