/** No complete step is lost: in runs whose renames work, every step that all nodes have
    marked is published before any later one, and what is swept away as dead is missing
    some node's share for good. */
module MirrorProgress {
  import opened MirrorTrim
  import opened MirrorProtocol
  import opened MirrorSafety
  import MirrorLayout

  /** The event is not a failure of the settling work. */
  predicate Works(e: Event) {
    !(e.Finalize? && !e.works) && !e.SettleFails?
  }

  // ----- the invariant -----

  /** The worker has still to look at staging directory `k`, which it was the last to mark. */
  predicate Owes(w: Worker, k: nat) {
    w.current == k && (w.phase.Listing? || (w.phase.Finalizing? && k in w.phase.rest))
  }

  ghost predicate SomeoneOwes(workers: seq<Worker>, k: nat) {
    exists n :: 0 <= n < |workers| && Owes(workers[n], k)
  }

  ghost predicate OwedOk(c: Config, s: State) {
    forall k | MarkedByAll(c, k, s.marked) && k !in s.published :: SomeoneOwes(s.workers, k)
  }

  /** A marker stays until its step is published or every node is past it. */
  ghost predicate MarkerKept(s: State, k: nat, n: nat) {
    k in s.published || Passed(s.workers, k) || (k in s.staging && n in s.staging[k].markers)
  }

  ghost predicate MarkersOk(s: State) {
    forall k, n | (k, n) in s.marked :: MarkerKept(s, k, n)
  }

  ghost predicate UnpublishedStaging(s: State) {
    s.staging.Keys !! s.published
  }

  /** A submitted step failed, waits, is being copied, or was marked. */
  ghost predicate Accounted(s: State, k: nat, n: nat) {
    && n < |s.workers|
    && var w := s.workers[n];
       k in w.failed || k in w.queue || (w.phase.Copying? && w.current == k) || (k, n) in s.marked
  }

  ghost predicate SavedOk(s: State) {
    forall k, n | (k, n) in s.saved :: Accounted(s, k, n)
  }

  ghost predicate Inv2(c: Config, base: int, s: State) {
    Inv(c, base, s) && OwedOk(c, s) && MarkersOk(s) && UnpublishedStaging(s) && SavedOk(s)
  }

  // ----- every step keeps it -----

  lemma CurrentAfter(c: Config, base: int, s: State, e: Event, m: nat)
    requires Enabled(c, base, s, e) && m < |s.workers|
    ensures var t := Apply(c, base, s, e);
            && |t.workers| == |s.workers|
            && t.workers[m].current == if e.Begin? && m == e.node then s.workers[m].queue[0] else s.workers[m].current
  {
  }

  lemma CurrentGrows(c: Config, base: int, s: State, e: Event, m: nat)
    requires Inv(c, base, s) && Enabled(c, base, s, e) && m < |s.workers|
    ensures var t := Apply(c, base, s, e); |t.workers| == |s.workers| && s.workers[m].current <= t.workers[m].current
  {
    CurrentAfter(c, base, s, e, m);
    var w := s.workers[m];
    assert WorkerOk(base, m, w, s.marked);
    assert w.queue != [] ==> w.queue[0] in w.queue;
  }

  lemma PassedStays(c: Config, base: int, s: State, e: Event, k: nat)
    requires Inv(c, base, s) && Enabled(c, base, s, e) && Passed(s.workers, k)
    ensures Passed(Apply(c, base, s, e).workers, k)
  {
    var t := Apply(c, base, s, e);
    OtherWorkers(c, base, s, e, e.node);
    forall m | 0 <= m < |t.workers| ensures t.workers[m].current > k {
      CurrentGrows(c, base, s, e, m);
    }
  }

  /** One marker: it is written, stays, or goes with a staging directory all are past. */
  lemma MarkerStep(c: Config, base: int, s: State, e: Event, k: nat, n: nat)
    requires Enabled(c, base, s, e) && (k, n) in Apply(c, base, s, e).marked
    requires (k, n) in s.marked ==> MarkerKept(s, k, n)
    requires Passed(s.workers, k) ==> Passed(Apply(c, base, s, e).workers, k)
    requires e.DropNext? && e.step == k ==> Passed(s.workers, k)
    ensures MarkerKept(Apply(c, base, s, e), k, n)
  {
  }

  lemma MarkersStep(c: Config, base: int, s: State, e: Event)
    requires Inv2(c, base, s) && Enabled(c, base, s, e)
    ensures MarkersOk(Apply(c, base, s, e))
  {
    var t := Apply(c, base, s, e);
    if e.DropNext? {
      assert SweepOk(base, s.workers, s.workers[e.node].phase);
    }
    forall k, n | (k, n) in t.marked ensures MarkerKept(t, k, n) {
      if Passed(s.workers, k) {
        PassedStays(c, base, s, e, k);
      }
      MarkerStep(c, base, s, e, k, n);
    }
  }

  lemma UnpublishedStep(c: Config, base: int, s: State, e: Event)
    requires Inv2(c, base, s) && Enabled(c, base, s, e)
    ensures UnpublishedStaging(Apply(c, base, s, e))
  {
    var w := s.workers[e.node];
    assert WorkerOk(base, e.node, w, s.marked) && CopyOk(c, e.node, w, s.staging, s.marked);
    if e.Begin? {
      assert w.queue[0] in w.queue;
      assert (w.queue[0], e.node) !in s.marked;
    }
  }

  lemma SavedStep(c: Config, base: int, s: State, e: Event)
    requires Inv2(c, base, s) && Enabled(c, base, s, e)
    ensures SavedOk(Apply(c, base, s, e))
  {
    var t := Apply(c, base, s, e);
    forall k, n | (k, n) in t.saved ensures Accounted(t, k, n) {
      if (k, n) in s.saved {
        assert Accounted(s, k, n);
        AccountedStep(c, base, s, e, k, n);
      } else {
        assert t.workers[n].queue == s.workers[n].queue + [k] || k in t.workers[n].failed;
      }
    }
  }

  lemma AccountedStep(c: Config, base: int, s: State, e: Event, k: nat, n: nat)
    requires Enabled(c, base, s, e) && Accounted(s, k, n)
    ensures Accounted(Apply(c, base, s, e), k, n)
  {
    var w, w' := s.workers[n], Apply(c, base, s, e).workers[n];
    if n != e.node {
      assert w' == w;
    } else if e.Begin? {
      assert w.queue == [w.queue[0]] + w.queue[1..];
    } else if e.WriteMarker? || e.CopyFile? || e.UploadFails? || e.Save? || e.Retry? {
      assert k in w.queue ==> k in w'.queue;
    } else {
      assert w' == w.(phase := w'.phase) && !w.phase.Copying?;
    }
  }

  /** A step all nodes marked is in staging, with every marker, as long as some node is at it. */
  lemma OwedIsStaged(c: Config, base: int, s: State, k: nat, n: nat)
    requires Inv2(c, base, s) && MarkedByAll(c, k, s.marked) && k !in s.published
    requires n < |s.workers| && s.workers[n].current == k
    ensures k in s.staging && EveryNodeMarked(c, s.staging[k])
  {
    forall m | 0 <= m < c.nodes ensures k in s.staging && m in s.staging[k].markers {
      assert (k, m) in s.marked && MarkerKept(s, k, m);
    }
    assert 0 < c.nodes && (k, 0) in s.marked && MarkerKept(s, k, 0);
    assert StagedOk(c, k, s.staging[k], s.marked);
    MirrorLayout.FullCountMeansEveryNode(s.staging[k].markers, c.nodes);
  }

  lemma OwedStep(c: Config, base: int, s: State, e: Event)
    requires Inv2(c, base, s) && Enabled(c, base, s, e) && Works(e)
    ensures OwedOk(c, Apply(c, base, s, e))
  {
    var t := Apply(c, base, s, e);
    forall k | MarkedByAll(c, k, t.marked) && k !in t.published ensures SomeoneOwes(t.workers, k) {
      if MarkedByAll(c, k, s.marked) {
        assert SomeoneOwes(s.workers, k);
        var n :| 0 <= n < |s.workers| && Owes(s.workers[n], k);
        OwedIsStaged(c, base, s, k, n);
        OwesStep(c, base, s, e, k, n);
      } else {
        NewlyMarked(c, base, s, e, k);
        assert Owes(t.workers[e.node], k);
      }
    }
  }

  lemma NewlyMarked(c: Config, base: int, s: State, e: Event, k: nat)
    requires Enabled(c, base, s, e) && !MarkedByAll(c, k, s.marked) && MarkedByAll(c, k, Apply(c, base, s, e).marked)
    ensures e.WriteMarker? && k == s.workers[e.node].current
  {
  }

  /** The worker that owes a step can only list it, and then look at what it listed. */
  lemma OwnEvent(c: Config, base: int, s: State, e: Event, k: nat)
    requires Enabled(c, base, s, e) && Works(e) && Owes(s.workers[e.node], k)
    ensures e.Save? || (e.ListStaging? && s.workers[e.node].phase.Listing?) || (e.Finalize? && s.workers[e.node].phase.Finalizing?)
  {
  }

  lemma ListsOwed(c: Config, base: int, s: State, e: Event, k: nat)
    requires Enabled(c, base, s, e) && e.ListStaging? && Owes(s.workers[e.node], k) && k in s.staging
    ensures var t := Apply(c, base, s, e); e.node < |t.workers| && Owes(t.workers[e.node], k)
  {
    assert k in SetOf(Sorted(s.staging.Keys));
  }

  lemma PublishesOwed(c: Config, base: int, s: State, e: Event, k: nat)
    requires Enabled(c, base, s, e) && e.Finalize? && e.works && Owes(s.workers[e.node], k)
    requires k in s.staging && EveryNodeMarked(c, s.staging[k])
    ensures var t := Apply(c, base, s, e); e.node < |t.workers| && (k in t.published || Owes(t.workers[e.node], k))
  {
    var rest := s.workers[e.node].phase.rest;
    assert rest == [rest[0]] + rest[1..];
  }

  lemma OwnStep(c: Config, base: int, s: State, e: Event, k: nat)
    requires Enabled(c, base, s, e) && Works(e) && Owes(s.workers[e.node], k)
    requires k in s.staging && EveryNodeMarked(c, s.staging[k])
    ensures var t := Apply(c, base, s, e); e.node < |t.workers| && (k in t.published || Owes(t.workers[e.node], k))
  {
    OwnEvent(c, base, s, e, k);
    if e.ListStaging? {
      ListsOwed(c, base, s, e, k);
    } else if e.Finalize? {
      PublishesOwed(c, base, s, e, k);
    }
  }

  lemma OwesStep(c: Config, base: int, s: State, e: Event, k: nat, n: nat)
    requires Enabled(c, base, s, e) && Works(e)
    requires n < |s.workers| && Owes(s.workers[n], k)
    requires k in s.staging && EveryNodeMarked(c, s.staging[k])
    ensures var t := Apply(c, base, s, e); n < |t.workers| && (k in t.published || Owes(t.workers[n], k))
  {
    OtherWorkers(c, base, s, e, n);
    if n == e.node {
      OwnStep(c, base, s, e, k);
    }
  }

  lemma StepInv2(c: Config, base: int, s: State, e: Event)
    requires Inv2(c, base, s) && Enabled(c, base, s, e) && Works(e)
    ensures Inv2(c, base, Apply(c, base, s, e))
  {
    StepInv(c, base, s, e);
    OwedStep(c, base, s, e);
    MarkersStep(c, base, s, e);
    UnpublishedStep(c, base, s, e);
    SavedStep(c, base, s, e);
  }

  /** A run in which no settling work fails. Copies may still fail. */
  ghost predicate WorkingRun(c: Config, older: set<nat>, states: seq<State>, events: seq<Event>) {
    IsRun(c, older, states, events) && forall i | 0 <= i < |events| :: Works(events[i])
  }

  lemma {:induction false} RunInv2(c: Config, older: set<nat>, states: seq<State>, events: seq<Event>, i: nat)
    requires WorkingRun(c, older, states, events) && i < |states|
    ensures Inv2(c, Base(older), states[i])
  {
    if i == 0 {
      InitInv(c, older, states[0]);
      forall k: nat ensures !MarkedByAll(c, k, states[0].marked) {
        assert (k, 0) !in states[0].marked;
      }
    } else {
      RunInv2(c, older, states, events, i - 1);
      StepInv2(c, Base(older), states[i - 1], events[i - 1]);
    }
  }

  // ----- what it means -----

  /** Once a step is published, every smaller step that all nodes marked has been too. */
  lemma NoCompleteStepIsLost(c: Config, older: set<nat>, states: seq<State>, events: seq<Event>, i: nat, k: nat, later: nat)
    requires WorkingRun(c, older, states, events) && i < |states|
    requires later in states[i].published && k < later && MarkedByAll(c, k, states[i].marked)
    ensures k in states[i].published
  {
    RunInv2(c, older, states, events, i);
    PublishedPassed(c, Base(older), states[i], later);
  }

  /** What a sweep is about to remove misses some node's marker, and no node will write to
      it again: all of them are past it, and workers only move on. */
  lemma OnlyDeadStagingIsDropped(c: Config, older: set<nat>, states: seq<State>, events: seq<Event>, i: nat, n: nat, d: nat)
    requires WorkingRun(c, older, states, events) && i < |states| && n < |states[i].workers|
    requires states[i].workers[n].phase.Dropping? && d in states[i].workers[n].phase.dead && d in states[i].staging
    ensures !EveryNodeMarked(c, states[i].staging[d])
    ensures forall j | i <= j < |states| :: Passed(states[j].workers, d)
  {
    RunInv2(c, older, states, events, i);
    var s := states[i];
    assert SweepOk(Base(older), s.workers, s.workers[n].phase);
    if EveryNodeMarked(c, s.staging[d]) {
      assert StagedOk(c, d, s.staging[d], s.marked);
      MirrorLayout.FullCountMeansEveryNode(s.staging[d].markers, c.nodes);
      assert MarkedByAll(c, d, s.marked);
    }
    forall j | i <= j < |states| ensures Passed(states[j].workers, d) {
      PassedForever(c, older, states, events, i, j, d);
    }
  }

  lemma {:induction false} PassedForever(c: Config, older: set<nat>, states: seq<State>, events: seq<Event>, i: nat, j: nat, d: nat)
    requires IsRun(c, older, states, events) && i <= j < |states| && Passed(states[i].workers, d)
    ensures Passed(states[j].workers, d)
  {
    if i == j {
    } else {
      PassedForever(c, older, states, events, i, j - 1, d);
      RunInv(c, older, states, events, j - 1);
      PassedStays(c, Base(older), states[j - 1], events[j - 1], d);
    }
  }

  /** Everything has come to rest. */
  predicate Drained(s: State) {
    forall n | 0 <= n < |s.workers| :: s.workers[n].phase.Idle? && s.workers[n].queue == []
  }

  /** When the workers have drained, every step that all nodes submitted, and on none of
      them failed or was turned down, has been published. */
  lemma DrainedMeansPublished(c: Config, older: set<nat>, states: seq<State>, events: seq<Event>, i: nat, k: nat)
    requires WorkingRun(c, older, states, events) && i < |states| && Drained(states[i])
    requires forall n | 0 <= n < c.nodes :: (k, n) in states[i].saved
    requires forall n | 0 <= n < |states[i].workers| :: k !in states[i].workers[n].failed
    ensures k in states[i].published
  {
    RunInv2(c, older, states, events, i);
    var s := states[i];
    forall n | 0 <= n < c.nodes ensures (k, n) in s.marked {
      assert Accounted(s, k, n);
    }
    assert !SomeoneOwes(s.workers, k);
    assert MarkedByAll(c, k, s.marked);
  }
}
