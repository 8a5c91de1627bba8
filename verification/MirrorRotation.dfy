/** Rotation by several nodes from stale listings: a checkpoint only ever disappears when
    newer ones take its place, so the newest is always there to resume from. */
module MirrorRotation {
  import opened Sequences
  import opened MirrorTrim
  import opened MirrorProtocol

  /** All checkpoints the mirror has ever held. */
  function Ever(older: set<nat>, s: State): set<nat> {
    older + s.published
  }

  /** A rotation may take `x`: there is a newer checkpoint, and at least `keep - 1` of them. */
  ghost predicate Replaced(c: Config, ever: set<nat>, x: nat) {
    c.keep.KeepNewest? && |Newer(ever, x)| >= Max(1, c.keep.count - 1)
  }

  ghost predicate VictimsOk(c: Config, ever: set<nat>, p: Phase) {
    p.Rotating? ==> forall v | v in p.victims :: Replaced(c, ever, v)
  }

  ghost predicate RotationInv(c: Config, older: set<nat>, s: State) {
    var ever := Ever(older, s);
    && s.complete.Keys <= ever
    && (forall x | x in ever && x !in s.complete :: Replaced(c, ever, x))
    && (forall n | 0 <= n < |s.workers| :: VictimsOk(c, ever, s.workers[n].phase))
  }

  lemma ReplacedGrows(c: Config, ever: set<nat>, more: set<nat>, x: nat)
    requires ever <= more && Replaced(c, ever, x)
    ensures Replaced(c, more, x)
  {
    SubsetSize(Newer(ever, x), Newer(more, x));
  }

  lemma ListedVictims(c: Config, ever: set<nat>, steps: set<nat>, best: int)
    requires c.keep.KeepNewest? && steps <= ever
    ensures forall v | v in Trim(steps, c.keep.count, best) :: Replaced(c, ever, v)
  {
    forall v | v in Trim(steps, c.keep.count, best) ensures Replaced(c, ever, v) {
      TrimmedIsOld(steps, c.keep.count, best, v);
      SubsetSize(Newer(steps, v), Newer(ever, v));
    }
  }

  lemma PhaseAfterOther(c: Config, base: int, s: State, e: Event)
    requires Enabled(c, base, s, e) && !e.ListComplete? && !e.RemoveOldest?
    ensures var t := Apply(c, base, s, e);
            && e.node < |t.workers|
            && (t.workers[e.node].phase.Rotating? ==> t.workers[e.node].phase == s.workers[e.node].phase)
  {
  }

  lemma VictimsListed(c: Config, older: set<nat>, s: State, e: Event)
    requires RotationInv(c, older, s) && Enabled(c, Base(older), s, e) && e.ListComplete?
    ensures VictimsOk(c, Ever(older, s), Apply(c, Base(older), s, e).workers[e.node].phase)
  {
    ListedPhase(c, Base(older), s, e);
    if c.keep.KeepNewest? {
      ListedVictims(c, Ever(older, s), s.complete.Keys, e.best);
    }
  }

  lemma ListedPhase(c: Config, base: int, s: State, e: Event)
    requires Enabled(c, base, s, e) && e.ListComplete?
    ensures Apply(c, base, s, e).workers[e.node].phase
            == Rotating(if c.keep.KeepAll? then [] else Trim(s.complete.Keys, c.keep.count, e.best))
  {
  }

  lemma VictimsLeft(c: Config, older: set<nat>, s: State, e: Event)
    requires RotationInv(c, older, s) && Enabled(c, Base(older), s, e) && e.RemoveOldest?
    ensures VictimsOk(c, Ever(older, s), Apply(c, Base(older), s, e).workers[e.node].phase)
  {
    assert VictimsOk(c, Ever(older, s), s.workers[e.node].phase);
  }

  /** The victims a step leaves with node `n` were its victims before, or are freshly listed. */
  lemma VictimsStep(c: Config, older: set<nat>, s: State, e: Event, n: nat)
    requires RotationInv(c, older, s) && Enabled(c, Base(older), s, e) && n < |s.workers|
    ensures var t := Apply(c, Base(older), s, e); n < |t.workers| && VictimsOk(c, Ever(older, s), t.workers[n].phase)
  {
    assert VictimsOk(c, Ever(older, s), s.workers[n].phase);
    OtherWorkers(c, Base(older), s, e, n);
    if n == e.node {
      if e.ListComplete? {
        VictimsListed(c, older, s, e);
      } else if e.RemoveOldest? {
        VictimsLeft(c, older, s, e);
      } else {
        PhaseAfterOther(c, Base(older), s, e);
      }
    }
  }

  /** A checkpoint a step removes was a victim. */
  lemma GoneStep(c: Config, older: set<nat>, s: State, e: Event, x: nat)
    requires RotationInv(c, older, s) && Enabled(c, Base(older), s, e)
    requires x in Ever(older, s) && x !in Apply(c, Base(older), s, e).complete
    ensures Replaced(c, Ever(older, s), x)
  {
    var phase := s.workers[e.node].phase;
    assert VictimsOk(c, Ever(older, s), phase);
    if e.RemoveOldest? {
      assert phase.victims[0] in phase.victims;
    }
  }

  lemma HistoryAfterOther(c: Config, base: int, s: State, e: Event)
    requires Enabled(c, base, s, e) && !e.Finalize? && !e.RemoveOldest?
    ensures var t := Apply(c, base, s, e);
            t == s.(staging := t.staging, workers := t.workers, marked := t.marked, saved := t.saved)
  {
  }

  lemma EverGrows(c: Config, older: set<nat>, base: int, s: State, e: Event)
    requires s.complete.Keys <= Ever(older, s) && Enabled(c, base, s, e)
    ensures var t := Apply(c, base, s, e);
            && s.published <= t.published && |t.workers| == |s.workers|
            && t.complete.Keys <= Ever(older, t) && t.published - s.published <= t.complete.Keys
  {
    OtherWorkers(c, base, s, e, e.node);
    if !e.Finalize? && !e.RemoveOldest? {
      HistoryAfterOther(c, base, s, e);
    }
  }

  lemma RotationStep(c: Config, older: set<nat>, s: State, e: Event)
    requires RotationInv(c, older, s) && Enabled(c, Base(older), s, e)
    ensures RotationInv(c, older, Apply(c, Base(older), s, e))
  {
    var t := Apply(c, Base(older), s, e);
    var ever, more := Ever(older, s), Ever(older, t);
    EverGrows(c, older, Base(older), s, e);
    forall n | 0 <= n < |t.workers| ensures VictimsOk(c, more, t.workers[n].phase) {
      VictimsStep(c, older, s, e, n);
      MoreVictims(c, ever, more, t.workers[n].phase);
    }
    forall x | x in more && x !in t.complete ensures Replaced(c, more, x) {
      GoneStep(c, older, s, e, x);
      ReplacedGrows(c, ever, more, x);
    }
  }

  lemma MoreVictims(c: Config, ever: set<nat>, more: set<nat>, p: Phase)
    requires ever <= more && VictimsOk(c, ever, p)
    ensures VictimsOk(c, more, p)
  {
    if p.Rotating? {
      forall v | v in p.victims ensures Replaced(c, more, v) {
        ReplacedGrows(c, ever, more, v);
      }
    }
  }

  lemma {:induction false} RotationRun(c: Config, older: set<nat>, states: seq<State>, events: seq<Event>, i: nat)
    requires IsRun(c, older, states, events) && i < |states|
    ensures RotationInv(c, older, states[i])
  {
    if i == 0 {
    } else {
      RotationRun(c, older, states, events, i - 1);
      RotationStep(c, older, states[i - 1], events[i - 1]);
    }
  }

  /** The newest checkpoint ever is in the mirror at every moment, whatever the nodes list
      and remove, and a vanished one has at least `keep - 1` newer ones. */
  lemma NewestIsNeverRotatedAway(c: Config, older: set<nat>, states: seq<State>, events: seq<Event>, i: nat)
    requires IsRun(c, older, states, events) && i < |states|
    ensures var ever := Ever(older, states[i]);
            && (ever != {} ==> Largest(ever) in states[i].complete)
            && forall x | x in ever && x !in states[i].complete ::
                 c.keep.KeepNewest? && |Newer(ever, x)| >= Max(1, c.keep.count - 1)
  {
    RotationRun(c, older, states, events, i);
    var ever := Ever(older, states[i]);
    if ever != {} {
      assert Newer(ever, Largest(ever)) == {};
      assert !Replaced(c, ever, Largest(ever));
    }
    forall x | x in ever && x !in states[i].complete ensures Replaced(c, ever, x) {
    }
  }
}
