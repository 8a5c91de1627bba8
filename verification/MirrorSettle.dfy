/** What the steps of an upload and of the settling after it achieve: an accepted step is
    uploaded, a rotation removes what it listed, a sweep removes what was dead. */
module MirrorSettle {
  import opened Sequences
  import opened MirrorTrim
  import opened MirrorProtocol
  import opened MirrorSafety
  import opened MirrorProgress

  // ----- uploads -----

  /** Node `n` has still to upload step `k`, or has done so. */
  predicate UnderWay(s: State, n: nat, k: nat) {
    && n < |s.workers|
    && (k in s.workers[n].queue || (s.workers[n].phase.Copying? && s.workers[n].current == k) || (k, n) in s.marked)
  }

  lemma StaysUnderWay(c: Config, base: int, s: State, e: Event, n: nat, k: nat)
    requires Enabled(c, base, s, e) && UnderWay(s, n, k)
    ensures UnderWay(Apply(c, base, s, e), n, k) || (e == UploadFails(n) && FailsAt(s, n, k))
  {
    OtherWorkers(c, base, s, e, n);
    if n == e.node {
      OwnUpload(c, base, s, e, k);
    } else {
      MarkedGrows(c, base, s, e);
    }
  }

  lemma MarkedGrows(c: Config, base: int, s: State, e: Event)
    requires Enabled(c, base, s, e)
    ensures s.marked <= Apply(c, base, s, e).marked
  {
  }

  lemma OwnUpload(c: Config, base: int, s: State, e: Event, k: nat)
    requires Enabled(c, base, s, e) && UnderWay(s, e.node, k)
    ensures UnderWay(Apply(c, base, s, e), e.node, k) || (e.UploadFails? && s.workers[e.node].current == k)
  {
    var w := s.workers[e.node];
    if e.Begin? {
      assert w.queue == [w.queue[0]] + w.queue[1..];
    }
  }

  /** The event queues step `k` with node `n`. */
  predicate Accepts(s: State, e: Event, n: nat, k: nat) {
    n < |s.workers| && (e == Save(n, k, true) || (e == Retry(n, true) && s.workers[n].lastSaved == k))
  }

  predicate FailsAt(s: State, n: nat, k: nat) {
    n < |s.workers| && s.workers[n].current == k
  }

  /** The upload of step `k` by node `n` failed between the two moments. */
  ghost predicate FailedBetween(states: seq<State>, events: seq<Event>, i: nat, j: nat, n: nat, k: nat) {
    exists m :: i < m < j && m < |events| && m < |states| && events[m] == UploadFails(n)
                && FailsAt(states[m], n, k)
  }

  lemma {:induction false} AcceptedIsUnderWay(c: Config, older: set<nat>, states: seq<State>, events: seq<Event>, i: nat, j: nat, n: nat, k: nat)
    requires IsRun(c, older, states, events) && i < j < |states|
    requires Accepts(states[i], events[i], n, k)
    ensures UnderWay(states[j], n, k) || FailedBetween(states, events, i, j, n, k)
  {
    if i + 1 == j {
      assert k in states[j].workers[n].queue;
    } else {
      AcceptedIsUnderWay(c, older, states, events, i, j - 1, n, k);
      if FailedBetween(states, events, i, j - 1, n, k) {
        var m :| i < m < j - 1 && events[m] == UploadFails(n) && FailsAt(states[m], n, k);
      } else {
        StaysUnderWay(c, Base(older), states[j - 1], events[j - 1], n, k);
        assert events[j - 1] == UploadFails(n) && FailsAt(states[j - 1], n, k) ==> FailedBetween(states, events, i, j, n, k);
      }
    }
  }

  /** A step that was accepted, at first or when it is retried, has been marked by its node
      once that node has come to rest, unless copying it failed in between. */
  lemma AcceptedStepIsMarked(c: Config, older: set<nat>, states: seq<State>, events: seq<Event>, i: nat, j: nat, n: nat, k: nat)
    requires IsRun(c, older, states, events) && i < j < |states|
    requires Accepts(states[i], events[i], n, k)
    requires n < |states[j].workers| && states[j].workers[n].phase.Idle? && states[j].workers[n].queue == []
    ensures (k, n) in states[j].marked || FailedBetween(states, events, i, j, n, k)
  {
    AcceptedIsUnderWay(c, older, states, events, i, j, n, k);
  }

  // ----- rotation -----

  /** What a rotation lists for removal: with `keep` unset nothing; otherwise listed
      checkpoints, neither the newest nor the best, the oldest of the rest, and as many as
      there are more than `keep`. */
  lemma RotationLists(c: Config, base: int, s: State, n: nat, best: int)
    requires Enabled(c, base, s, ListComplete(n, best))
    ensures var t := Apply(c, base, s, ListComplete(n, best));
            && n < |t.workers| && t.workers[n].phase.Rotating?
            && var victims, listed := t.workers[n].phase.victims, s.complete.Keys;
               if c.keep.KeepAll? then victims == []
               else
                 && (forall v | v in victims :: v in listed && v != best && exists newer :: newer in listed && v < newer)
                 && (forall v, x | v in victims && x in listed && x !in victims && x !in Protected(listed, best) :: v < x)
                 && |victims| == Max(0, |listed| - Max(c.keep.count, |Protected(listed, best)|))
  {
    var listed := s.complete.Keys;
    if c.keep.KeepNewest? {
      var victims := Trim(listed, c.keep.count, best);
      forall v | v in victims ensures v in listed && v != best && exists newer :: newer in listed && v < newer {
        TrimSparesNewestAndBest(listed, c.keep.count, best, v);
        assert Largest(listed) in listed;
      }
      forall v, x | v in victims && x in listed && x !in victims && x !in Protected(listed, best) ensures v < x {
        TrimTakesOldest(listed, c.keep.count, best, v, x);
      }
      TrimIs(listed, c.keep.count, best);
    }
  }

  /** What is spared are the newest and the best checkpoint. */
  lemma ProtectedIs(listed: set<nat>, best: int, x: nat)
    ensures x in Protected(listed, best) <==> x in listed && (x == best || forall y | y in listed :: y <= x)
  {
  }

  predicate Rotates(s: State, n: nat) {
    n < |s.workers| && s.workers[n].phase.Rotating?
  }

  /** Node `n` has still to remove checkpoint `x`. */
  predicate IsVictim(s: State, n: nat, x: nat) {
    Rotates(s, n) && x in s.workers[n].phase.victims
  }

  /** A checkpoint the rotation is to remove waits, or is gone. */
  lemma RotationGoesOn(c: Config, base: int, s: State, e: Event, n: nat, x: nat)
    requires Enabled(c, base, s, e) && Rotates(s, n) && Rotates(Apply(c, base, s, e), n)
    requires IsVictim(s, n, x)
    ensures IsVictim(Apply(c, base, s, e), n, x) || x !in Apply(c, base, s, e).complete
  {
    OtherWorkers(c, base, s, e, n);
    if n == e.node && e.RemoveOldest? {
      var victims := s.workers[n].phase.victims;
      assert victims == [victims[0]] + victims[1..];
    } else if n == e.node {
      OwnRotation(c, base, s, e);
    }
  }

  lemma OwnRotation(c: Config, base: int, s: State, e: Event)
    requires Enabled(c, base, s, e) && !e.RemoveOldest? && Rotates(s, e.node) && Rotates(Apply(c, base, s, e), e.node)
    ensures Apply(c, base, s, e).workers[e.node].phase == s.workers[e.node].phase
  {
  }

  /** Node `n` is rotating all the time from `i` to `j`. */
  ghost predicate RotatesThrough(states: seq<State>, i: nat, j: nat, n: nat) {
    forall k | i <= k <= j && k < |states| :: Rotates(states[k], n)
  }

  ghost predicate PublishedBetween(states: seq<State>, i: nat, j: nat, x: nat) {
    exists m :: i <= m < j && m + 1 < |states| && Appears(states[m], states[m + 1], x)
  }

  predicate Appears(s: State, t: State, x: nat) {
    x !in s.complete && x in t.complete
  }

  lemma {:induction false} VictimsGo(c: Config, older: set<nat>, states: seq<State>, events: seq<Event>, i: nat, j: nat, n: nat, x: nat)
    requires IsRun(c, older, states, events) && i <= j < |states| && RotatesThrough(states, i, j, n)
    requires IsVictim(states[i], n, x)
    ensures IsVictim(states[j], n, x) || x !in states[j].complete || PublishedBetween(states, i, j, x)
  {
    if i == j {
    } else {
      VictimsGo(c, older, states, events, i, j - 1, n, x);
      assert Rotates(states[j - 1], n) && Rotates(states[j], n);
      if PublishedBetween(states, i, j - 1, x) {
        var m :| i <= m < j - 1 && Appears(states[m], states[m + 1], x);
      } else if IsVictim(states[j - 1], n, x) {
        RotationGoesOn(c, Base(older), states[j - 1], events[j - 1], n, x);
      } else {
        assert Appears(states[j - 1], states[j - 1 + 1], x) || x !in states[j].complete;
      }
    }
  }

  /** At the end of a rotation every checkpoint it had listed is gone, but for one that was
      published anew meanwhile. */
  lemma RotationRemovesVictims(c: Config, older: set<nat>, states: seq<State>, events: seq<Event>, i: nat, j: nat, n: nat, x: nat)
    requires IsRun(c, older, states, events) && i <= j < |states| && RotatesThrough(states, i, j, n)
    requires IsVictim(states[i], n, x) && Rotates(states[j], n) && states[j].workers[n].phase.victims == []
    ensures x !in states[j].complete || PublishedBetween(states, i, j, x)
  {
    VictimsGo(c, older, states, events, i, j, n, x);
  }

  // ----- sweeping -----

  /** A sweep reads the newest checkpoint, and what it lists as dead is all staging older than
      that. */
  lemma SweepLists(c: Config, base: int, s: State, n: nat)
    ensures Enabled(c, base, s, ReadNewest(n)) && s.complete.Keys != {} ==>
              var t := Apply(c, base, s, ReadNewest(n));
              && n < |t.workers| && t.workers[n].phase.Sweeping?
              && t.workers[n].phase.newest in s.complete && forall x | x in s.complete :: x <= t.workers[n].phase.newest
    ensures Enabled(c, base, s, ListDead(n)) ==>
              var t := Apply(c, base, s, ListDead(n));
              && n < |t.workers| && t.workers[n].phase.Dropping?
              && forall d: nat :: d in t.workers[n].phase.dead <==> d in s.staging && d < s.workers[n].phase.newest
  {
  }

  /** Staging that all nodes are past is not made again. */
  lemma DeadStaysGone(c: Config, base: int, s: State, e: Event, d: nat)
    requires Inv(c, base, s) && Enabled(c, base, s, e) && Passed(s.workers, d) && d !in s.staging
    ensures d !in Apply(c, base, s, e).staging
  {
    var w := s.workers[e.node];
    assert WorkerOk(base, e.node, w, s.marked) && CopyOk(c, e.node, w, s.staging, s.marked);
    if e.Begin? {
      assert w.queue[0] in w.queue;
    }
  }

  predicate Sweeps(s: State, n: nat) {
    n < |s.workers| && s.workers[n].phase.Dropping?
  }

  /** Node `n` has still to remove staging directory `d`. */
  predicate IsDead(s: State, n: nat, d: nat) {
    Sweeps(s, n) && d in s.workers[n].phase.dead
  }

  lemma SweepGoesOn(c: Config, base: int, s: State, e: Event, n: nat, d: nat)
    requires Enabled(c, base, s, e) && Sweeps(Apply(c, base, s, e), n) && IsDead(s, n, d)
    ensures IsDead(Apply(c, base, s, e), n, d) || d !in Apply(c, base, s, e).staging
  {
    OtherWorkers(c, base, s, e, n);
    if n == e.node && !e.DropNext? {
      OwnSweep(c, base, s, e);
    }
  }

  lemma OwnSweep(c: Config, base: int, s: State, e: Event)
    requires Enabled(c, base, s, e) && !e.DropNext? && Sweeps(s, e.node) && Sweeps(Apply(c, base, s, e), e.node)
    ensures Apply(c, base, s, e).workers[e.node].phase == s.workers[e.node].phase
  {
  }

  /** Node `n` is sweeping all the time from `i` to `j`. */
  ghost predicate SweepsThrough(states: seq<State>, i: nat, j: nat, n: nat) {
    forall k | i <= k <= j && k < |states| :: Sweeps(states[k], n)
  }

  lemma DeadIsPassed(c: Config, base: int, s: State, n: nat, d: nat)
    requires Inv(c, base, s) && IsDead(s, n, d)
    ensures Passed(s.workers, d)
  {
    assert SweepOk(base, s.workers, s.workers[n].phase);
  }

  /** All nodes are past step `d`, and node `n` is to remove its staging, or that is gone. */
  ghost predicate Leaving(s: State, n: nat, d: nat) {
    Passed(s.workers, d) && (IsDead(s, n, d) || d !in s.staging)
  }

  lemma LeavingStays(c: Config, base: int, s: State, e: Event, n: nat, d: nat)
    requires Inv(c, base, s) && Enabled(c, base, s, e) && Sweeps(Apply(c, base, s, e), n)
    requires Leaving(s, n, d)
    ensures Leaving(Apply(c, base, s, e), n, d)
  {
    PassedStays(c, base, s, e, d);
    if d !in s.staging {
      DeadStaysGone(c, base, s, e, d);
    } else {
      SweepGoesOn(c, base, s, e, n, d);
    }
  }

  lemma LeavingAtFirst(c: Config, older: set<nat>, states: seq<State>, events: seq<Event>, i: nat, n: nat, d: nat)
    requires IsRun(c, older, states, events) && i < |states| && IsDead(states[i], n, d)
    ensures Leaving(states[i], n, d)
  {
    RunInv(c, older, states, events, i);
    DeadIsPassed(c, Base(older), states[i], n, d);
  }

  lemma LeavingNext(c: Config, older: set<nat>, states: seq<State>, events: seq<Event>, j: nat, n: nat, d: nat)
    requires IsRun(c, older, states, events) && j + 1 < |states| && Sweeps(states[j + 1], n)
    requires Leaving(states[j], n, d)
    ensures Leaving(states[j + 1], n, d)
  {
    RunInv(c, older, states, events, j);
    LeavingStays(c, Base(older), states[j], events[j], n, d);
  }

  lemma DeadGoes(c: Config, older: set<nat>, states: seq<State>, events: seq<Event>, i: nat, j: nat, n: nat, d: nat)
    requires IsRun(c, older, states, events) && i <= j < |states| && SweepsThrough(states, i, j, n)
    requires IsDead(states[i], n, d)
    ensures Leaving(states[j], n, d)
  {
    LeavingAtFirst(c, older, states, events, i, n, d);
    for k := i to j
      invariant Leaving(states[k], n, d)
    {
      LeavingNext(c, older, states, events, k, n, d);
    }
  }

  /** All nodes are past step `d` and its staging is gone. */
  ghost predicate IsGone(s: State, d: nat) {
    Passed(s.workers, d) && d !in s.staging
  }

  lemma GoneStays(c: Config, older: set<nat>, states: seq<State>, events: seq<Event>, j: nat, d: nat)
    requires IsRun(c, older, states, events) && j + 1 < |states| && IsGone(states[j], d)
    ensures IsGone(states[j + 1], d)
  {
    RunInv(c, older, states, events, j);
    DeadStaysGone(c, Base(older), states[j], events[j], d);
    PassedStays(c, Base(older), states[j], events[j], d);
  }

  lemma {:induction false} GoneForGood(c: Config, older: set<nat>, states: seq<State>, events: seq<Event>, j: nat, later: nat, d: nat)
    requires IsRun(c, older, states, events) && j <= later < |states| && IsGone(states[j], d)
    ensures IsGone(states[later], d)
  {
    if later == j {
    } else {
      GoneForGood(c, older, states, events, j, later - 1, d);
      GoneStays(c, older, states, events, later - 1, d);
    }
  }

  /** At the end of a sweep all staging it had listed as dead is gone, for good. */
  lemma SweepRemovesDead(c: Config, older: set<nat>, states: seq<State>, events: seq<Event>, i: nat, j: nat, later: nat, n: nat, d: nat)
    requires IsRun(c, older, states, events) && i <= j <= later < |states| && SweepsThrough(states, i, j, n)
    requires IsDead(states[i], n, d) && Sweeps(states[j], n) && states[j].workers[n].phase.dead == {}
    ensures d !in states[later].staging
  {
    DeadGoes(c, older, states, events, i, j, n, d);
    GoneForGood(c, older, states, events, j, later, d);
  }

  // ----- publishing after failures -----

  /** Node `n` is settling and has still to look at staging directory `k`. */
  predicate WillLook(s: State, n: nat, k: nat) {
    && n < |s.workers|
    && var p := s.workers[n].phase; p.Listing? || (p.Finalizing? && k in p.rest)
  }

  /** Step `k` is staged with the markers of all nodes. */
  predicate IsComplete(c: Config, s: State, k: nat) {
    k in s.staging && EveryNodeMarked(c, s.staging[k])
  }

  predicate Drops(e: Event, k: nat) {
    e.DropNext? && e.step == k
  }

  /** A complete directory stays so until it is published or swept away. */
  lemma StaysComplete(c: Config, base: int, s: State, e: Event, k: nat)
    requires Enabled(c, base, s, e) && IsComplete(c, s, k)
    ensures var t := Apply(c, base, s, e); k in t.published || IsComplete(c, t, k) || Drops(e, k)
  {
    var n := s.workers[e.node].current;
    if e.WriteMarker? && n == k {
      SubsetSize(s.staging[k].markers, s.staging[k].markers + {e.node});
    }
  }

  lemma StaysPublished(c: Config, base: int, s: State, e: Event, k: nat)
    requires Enabled(c, base, s, e) && k in s.published
    ensures k in Apply(c, base, s, e).published
  {
  }

  lemma OwnLook(c: Config, base: int, s: State, e: Event, k: nat)
    requires Enabled(c, base, s, e) && Works(e) && WillLook(s, e.node, k) && IsComplete(c, s, k)
    ensures var t := Apply(c, base, s, e); k in t.published || WillLook(t, e.node, k)
  {
    if e.ListStaging? {
      assert k in SetOf(Sorted(s.staging.Keys));
    } else if e.Finalize? {
      var rest := s.workers[e.node].phase.rest;
      assert rest == [rest[0]] + rest[1..];
    }
  }

  lemma StillLooks(c: Config, base: int, s: State, e: Event, n: nat, k: nat)
    requires Enabled(c, base, s, e) && WillLook(s, n, k) && IsComplete(c, s, k)
    requires e.node == n ==> Works(e)
    ensures var t := Apply(c, base, s, e); k in t.published || (WillLook(t, n, k) && IsComplete(c, t, k)) || Drops(e, k)
  {
    StaysComplete(c, base, s, e, k);
    OtherWorkers(c, base, s, e, n);
    if n == e.node {
      OwnLook(c, base, s, e, k);
    }
  }

  ghost predicate DroppedBetween(events: seq<Event>, i: nat, j: nat, k: nat) {
    exists m :: i <= m < j && m < |events| && Drops(events[m], k)
  }

  /** The event makes its worker settle: at the end of an upload, or because the drain asks. */
  predicate SettlesNext(e: Event, n: nat) {
    e == WriteMarker(n) || e == StartSettle(n)
  }

  lemma StartsLooking(c: Config, base: int, s: State, e: Event, n: nat, k: nat)
    requires Enabled(c, base, s, e) && SettlesNext(e, n)
    ensures WillLook(Apply(c, base, s, e), n, k)
  {
  }

  /** A settle that ends without a failure of its own has published every checkpoint that
      was complete when it began, whatever went wrong in earlier ones and whatever the other
      nodes do meanwhile; all that can get between is a sweep that drops the directory. */
  lemma SettlePublishes(c: Config, older: set<nat>, states: seq<State>, events: seq<Event>, i: nat, j: nat, n: nat, k: nat)
    requires IsRun(c, older, states, events) && i < j < |states| && SettlesNext(events[i], n)
    requires forall m | i < m < j && events[m].node == n :: Works(events[m])
    requires IsComplete(c, states[i + 1], k)
    requires n < |states[j].workers| && states[j].workers[n].phase.Idle?
    ensures k in states[j].published || DroppedBetween(events, i, j, k)
  {
    StartsLooking(c, Base(older), states[i], events[i], n, k);
    for m := i + 1 to j
      invariant k in states[m].published || (WillLook(states[m], n, k) && IsComplete(c, states[m], k)) || DroppedBetween(events, i, m, k)
    {
      if k in states[m].published {
        StaysPublished(c, Base(older), states[m], events[m], k);
      } else if DroppedBetween(events, i, m, k) {
        var d :| i <= d < m && Drops(events[d], k);
      } else {
        StillLooks(c, Base(older), states[m], events[m], n, k);
        assert Drops(events[m], k) ==> DroppedBetween(events, i, m + 1, k);
      }
    }
  }
}
