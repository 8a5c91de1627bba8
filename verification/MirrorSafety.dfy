/** Safety of the mirror over every run and interleaving: a published checkpoint that has
    not been rotated away holds every file of every node's share. */
module MirrorSafety {
  import opened MirrorTrim
  import opened MirrorProtocol
  import MirrorLayout

  // ----- the invariant, one part per component of the state -----

  /** All files of all shares of the step are there, each as saved by some node. */
  ghost predicate Whole(c: Config, step: nat, files: map<Path, nat>) {
    && (forall n | 0 <= n < c.nodes :: c.share(step, n) <= files.Keys)
    && OnlyShares(c, step, files)
  }

  ghost predicate OnlyShares(c: Config, step: nat, files: map<Path, nat>) {
    forall p | p in files :: files[p] < c.nodes && p in c.share(step, files[p])
  }

  ghost predicate StagingOk(c: Config, base: int, staging: map<nat, Staging>, marked: set<(nat, nat)>) {
    forall k | k in staging :: k >= base && StagedOk(c, k, staging[k], marked)
  }

  /** A marker means the whole share of its node is in the directory. */
  ghost predicate StagedOk(c: Config, k: nat, st: Staging, marked: set<(nat, nat)>) {
    && OnlyShares(c, k, st.files)
    && forall m | m in st.markers :: m < c.nodes && c.share(k, m) <= st.files.Keys && (k, m) in marked
  }

  ghost predicate MarkedByAll(c: Config, k: nat, marked: set<(nat, nat)>) {
    forall n | 0 <= n < c.nodes :: (k, n) in marked
  }

  ghost predicate PublishedOk(c: Config, base: int, published: set<nat>, marked: set<(nat, nat)>) {
    forall k | k in published :: k >= base && MarkedByAll(c, k, marked)
  }

  ghost predicate CompleteOk(c: Config, base: int, complete: map<nat, Checkpoint>, published: set<nat>) {
    forall k | k in complete ::
      if complete[k].Earlier? then k <= base else k in published && Whole(c, k, complete[k].files)
  }

  /** Worker `n` uploads in order, never a step it has marked, and knows what it submitted. */
  ghost predicate WorkerOk(base: int, n: nat, w: Worker, marked: set<(nat, nat)>) {
    && w.current <= w.lastSaved && (w.current == -1 || (w.current >= 0 && w.current >= base))
    && (forall k | (k, n) in marked :: k <= w.current)
    && (forall k | k in w.failed :: k <= w.lastSaved && (k, n) !in marked)
    && (w.lastSaved == -1 || w.lastSaved >= base)
    && Increasing(w.queue)
    && (forall q | q in w.queue :: base <= q <= w.lastSaved && w.current <= q && (q, n) !in marked
          && (q == w.current ==> w.phase.Idle?))
  }

  ghost predicate WorkersOk(c: Config, base: int, workers: seq<Worker>, marked: set<(nat, nat)>) {
    && |workers| == c.nodes
    && (forall n | 0 <= n < c.nodes :: WorkerOk(base, n, workers[n], marked))
    && forall k, n | (k, n) in marked :: n < c.nodes
  }

  /** A copying worker's staging directory is there, unmarked by it, and holds all of its
      share but what it has still to copy. */
  ghost predicate CopyOk(c: Config, n: nat, w: Worker, staging: map<nat, Staging>, marked: set<(nat, nat)>) {
    w.phase.Copying? ==>
      && w.current >= 0 && w.current in staging && (w.current, n) !in marked
      && w.phase.todo <= c.share(w.current, n)
      && c.share(w.current, n) - w.phase.todo <= staging[w.current].files.Keys
  }

  ghost predicate CopiesOk(c: Config, workers: seq<Worker>, staging: map<nat, Staging>, marked: set<(nat, nat)>) {
    forall n | 0 <= n < |workers| :: CopyOk(c, n, workers[n], staging, marked)
  }

  /** Every node has begun a step after `k`. */
  ghost predicate Passed(workers: seq<Worker>, k: nat) {
    forall m | 0 <= m < |workers| :: workers[m].current > k
  }

  ghost predicate SweepOk(base: int, workers: seq<Worker>, p: Phase) {
    match p
    case Sweeping(newest) => newest <= base || forall m | 0 <= m < |workers| :: workers[m].current >= newest
    case Dropping(dead) => forall d | d in dead :: Passed(workers, d)
    case _ => true
  }

  ghost predicate SweepsOk(base: int, workers: seq<Worker>) {
    forall n | 0 <= n < |workers| :: SweepOk(base, workers, workers[n].phase)
  }

  ghost predicate Inv(c: Config, base: int, s: State) {
    && c.nodes >= 1
    && StagingOk(c, base, s.staging, s.marked)
    && PublishedOk(c, base, s.published, s.marked)
    && CompleteOk(c, base, s.complete, s.published)
    && WorkersOk(c, base, s.workers, s.marked)
    && CopiesOk(c, s.workers, s.staging, s.marked)
    && SweepsOk(base, s.workers)
  }

  // ----- every step keeps it -----

  lemma InitInv(c: Config, older: set<nat>, s: State)
    requires Init(c, older, s)
    ensures Inv(c, Base(older), s)
  {
  }

  /** A worker at the same step, not starting to copy: only its own parts of the
      invariant have to be looked at again. */
  lemma WorkerStepInv(c: Config, base: int, s: State, n: nat, w: Worker)
    requires Inv(c, base, s) && n < |s.workers| && w.current == s.workers[n].current
    requires w.phase == s.workers[n].phase || !w.phase.Copying?
    requires WorkerOk(base, n, w, s.marked) && SweepOk(base, s.workers, w.phase)
    ensures Inv(c, base, SetWorker(s, n, w))
  {
    assert CopyOk(c, n, s.workers[n], s.staging, s.marked);
    SweepsFrame(base, s.workers, n, w);
  }

  lemma SweepsFrame(base: int, workers: seq<Worker>, n: nat, w: Worker)
    requires SweepsOk(base, workers) && n < |workers| && workers[n].current <= w.current
    requires SweepOk(base, workers, w.phase)
    ensures SweepsOk(base, workers[n := w])
  {
  }

  lemma SaveInv(c: Config, base: int, s: State, e: Event)
    requires Inv(c, base, s) && Enabled(c, base, s, e) && e.Save?
    ensures Inv(c, base, Apply(c, base, s, e))
  {
    var w := s.workers[e.node];
    var w' := Apply(c, base, s, e).workers[e.node];
    assert (e.step, e.node) !in s.marked;
    forall i | 0 <= i < |w.queue| ensures w.queue[i] < e.step {
      assert w.queue[i] in w.queue;
    }
    assert WorkerOk(base, e.node, w', s.marked);
    assert SweepOk(base, s.workers, w.phase);
    WorkerStepInv(c, base, s, e.node, w');
  }

  /** Only what the worker is doing changes. */
  lemma PhaseInv(c: Config, base: int, s: State, n: nat, p: Phase)
    requires Inv(c, base, s) && n < |s.workers| && !p.Copying? && SweepOk(base, s.workers, p)
    requires s.workers[n].phase.Idle? ==> s.workers[n].queue == []
    ensures Inv(c, base, SetWorker(s, n, s.workers[n].(phase := p)))
  {
    var w := s.workers[n];
    assert WorkerOk(base, n, w, s.marked);
    WorkerStepInv(c, base, s, n, w.(phase := p));
  }

  lemma RetryInv(c: Config, base: int, s: State, e: Event)
    requires Inv(c, base, s) && Enabled(c, base, s, e) && e.Retry?
    ensures Inv(c, base, Apply(c, base, s, e))
  {
    var w, w' := s.workers[e.node], Apply(c, base, s, e).workers[e.node];
    assert WorkerOk(base, e.node, w, s.marked);
    assert WorkerOk(base, e.node, w', s.marked);
    WorkerStepInv(c, base, s, e.node, w');
  }

  lemma UploadFailsInv(c: Config, base: int, s: State, e: Event)
    requires Inv(c, base, s) && Enabled(c, base, s, e) && e.UploadFails?
    ensures Inv(c, base, Apply(c, base, s, e))
  {
    var w, w' := s.workers[e.node], Apply(c, base, s, e).workers[e.node];
    assert WorkerOk(base, e.node, w, s.marked) && CopyOk(c, e.node, w, s.staging, s.marked);
    assert WorkerOk(base, e.node, w', s.marked);
    WorkerStepInv(c, base, s, e.node, w');
  }

  predicate IsQuiet(e: Event) {
    e.StartSettle? || e.ListStaging? || e.ListComplete? || e.EndSettle? || e.SettleFails?
  }

  lemma QuietPhase(c: Config, base: int, s: State, e: Event) returns (p: Phase)
    requires Enabled(c, base, s, e) && IsQuiet(e)
    ensures !p.Copying? && !p.Sweeping? && !p.Dropping?
    ensures Apply(c, base, s, e) == SetWorker(s, e.node, s.workers[e.node].(phase := p))
    ensures s.workers[e.node].phase.Idle? ==> s.workers[e.node].queue == []
  {
    p := Apply(c, base, s, e).workers[e.node].phase;
  }

  lemma QuietStepInv(c: Config, base: int, s: State, e: Event)
    requires Inv(c, base, s) && Enabled(c, base, s, e) && IsQuiet(e)
    ensures Inv(c, base, Apply(c, base, s, e))
  {
    var p := QuietPhase(c, base, s, e);
    PhaseInv(c, base, s, e.node, p);
  }

  lemma ReadNewestInv(c: Config, base: int, s: State, e: Event)
    requires Inv(c, base, s) && Enabled(c, base, s, e) && e.ReadNewest?
    ensures Inv(c, base, Apply(c, base, s, e))
  {
    var p := Apply(c, base, s, e).workers[e.node].phase;
    if p.Sweeping? && p.newest > base {
      PublishedPassed(c, base, s, p.newest);
    }
    PhaseInv(c, base, s, e.node, p);
  }

  /** A step is published only when every node has begun it. */
  lemma PublishedPassed(c: Config, base: int, s: State, k: nat)
    requires Inv(c, base, s) && k in s.published
    ensures forall m | 0 <= m < |s.workers| :: s.workers[m].current >= k
  {
    forall m | 0 <= m < |s.workers| ensures s.workers[m].current >= k {
      assert WorkerOk(base, m, s.workers[m], s.marked) && (k, m) in s.marked;
    }
  }

  lemma ListDeadInv(c: Config, base: int, s: State, e: Event)
    requires Inv(c, base, s) && Enabled(c, base, s, e) && e.ListDead?
    ensures Inv(c, base, Apply(c, base, s, e))
  {
    var p := Apply(c, base, s, e).workers[e.node].phase;
    assert SweepOk(base, s.workers, s.workers[e.node].phase);
    forall d | d in p.dead ensures Passed(s.workers, d) {
      assert d in s.staging;
    }
    PhaseInv(c, base, s, e.node, p);
  }

  /** A worker may begin the next step of its queue: it is past all it has marked. */
  lemma BegunOk(base: int, n: nat, w: Worker, marked: set<(nat, nat)>, todo: set<Path>)
    requires WorkerOk(base, n, w, marked) && w.queue != []
    ensures WorkerOk(base, n, w.(phase := Copying(todo), current := w.queue[0], queue := w.queue[1..]), marked)
    ensures w.current <= w.queue[0] && w.queue[0] >= base && (w.queue[0], n) !in marked
  {
    assert w.queue[0] in w.queue && forall q | q in w.queue[1..] :: q in w.queue && q > w.queue[0];
  }

  lemma BeginInv(c: Config, base: int, s: State, e: Event)
    requires Inv(c, base, s) && Enabled(c, base, s, e) && e.Begin?
    ensures Inv(c, base, Apply(c, base, s, e))
  {
    var w, t := s.workers[e.node], Apply(c, base, s, e);
    var w' := t.workers[e.node];
    BegunOk(base, e.node, w, s.marked, c.share(w.queue[0], e.node));
    assert StagedOk(c, w'.current, t.staging[w'.current], s.marked);
    SweepsFrame(base, s.workers, e.node, w');
    forall n | 0 <= n < |t.workers| ensures CopyOk(c, n, t.workers[n], t.staging, t.marked) {
      assert CopyOk(c, n, s.workers[n], s.staging, s.marked);
    }
  }

  lemma CopyFileInv(c: Config, base: int, s: State, e: Event)
    requires Inv(c, base, s) && Enabled(c, base, s, e) && e.CopyFile?
    ensures Inv(c, base, Apply(c, base, s, e))
  {
    var w, t := s.workers[e.node], Apply(c, base, s, e);
    assert WorkerOk(base, e.node, w, s.marked) && CopyOk(c, e.node, w, s.staging, s.marked);
    assert StagedOk(c, w.current, s.staging[w.current], s.marked);
    assert WorkerOk(base, e.node, t.workers[e.node], t.marked);
    assert StagedOk(c, w.current, t.staging[w.current], t.marked);
    SweepsFrame(base, s.workers, e.node, t.workers[e.node]);
    forall n | 0 <= n < |t.workers| ensures CopyOk(c, n, t.workers[n], t.staging, t.marked) {
      assert CopyOk(c, n, s.workers[n], s.staging, s.marked);
    }
  }

  lemma WriteMarkerInv(c: Config, base: int, s: State, e: Event)
    requires Inv(c, base, s) && Enabled(c, base, s, e) && e.WriteMarker?
    ensures Inv(c, base, Apply(c, base, s, e))
  {
    var w, t := s.workers[e.node], Apply(c, base, s, e);
    assert WorkerOk(base, e.node, w, s.marked) && CopyOk(c, e.node, w, s.staging, s.marked);
    forall k | k in t.staging ensures k >= base && StagedOk(c, k, t.staging[k], t.marked) {
      assert StagedOk(c, k, s.staging[k], s.marked);
    }
    forall n | 0 <= n < |t.workers|
      ensures WorkerOk(base, n, t.workers[n], t.marked) && CopyOk(c, n, t.workers[n], t.staging, t.marked)
    {
      assert WorkerOk(base, n, s.workers[n], s.marked) && CopyOk(c, n, s.workers[n], s.staging, s.marked);
    }
    SweepsFrame(base, s.workers, e.node, t.workers[e.node]);
  }

  lemma FinalizeInv(c: Config, base: int, s: State, e: Event)
    requires Inv(c, base, s) && Enabled(c, base, s, e) && e.Finalize?
    ensures Inv(c, base, Apply(c, base, s, e))
  {
    var w := s.workers[e.node];
    var k := w.phase.rest[0];
    var t := Finalized(c, s, k, e.works);
    assert WorkerOk(base, e.node, w, s.marked);
    if t != s {
      PublishInv(c, base, s, k);
    }
    assert WorkerOk(base, e.node, w.(phase := Finalizing(w.phase.rest[1..])), t.marked);
    WorkerStepInv(c, base, t, e.node, w.(phase := Finalizing(w.phase.rest[1..])));
  }

  /** Publishing: a full count of markers means every share is whole and no node is still
      copying to the directory. */
  lemma PublishInv(c: Config, base: int, s: State, k: nat)
    requires Inv(c, base, s) && k in s.staging && EveryNodeMarked(c, s.staging[k])
    ensures Inv(c, base, Finalized(c, s, k, true))
  {
    var t := Finalized(c, s, k, true);
    assert StagedOk(c, k, s.staging[k], s.marked);
    MirrorLayout.FullCountMeansEveryNode(s.staging[k].markers, c.nodes);
    forall n | 0 <= n < c.nodes ensures c.share(k, n) <= s.staging[k].files.Keys && (k, n) in s.marked {
      assert n in s.staging[k].markers;
    }
    forall n | 0 <= n < |t.workers| ensures CopyOk(c, n, t.workers[n], t.staging, t.marked) {
      assert CopyOk(c, n, s.workers[n], s.staging, s.marked);
    }
  }

  lemma RemoveOldestInv(c: Config, base: int, s: State, e: Event)
    requires Inv(c, base, s) && Enabled(c, base, s, e) && e.RemoveOldest?
    ensures Inv(c, base, Apply(c, base, s, e))
  {
    var w := s.workers[e.node];
    var t := s.(complete := s.complete - {w.phase.victims[0]});
    assert WorkerOk(base, e.node, w, s.marked);
    WorkerStepInv(c, base, t, e.node, w.(phase := Rotating(w.phase.victims[1..])));
  }

  lemma DropNextInv(c: Config, base: int, s: State, e: Event)
    requires Inv(c, base, s) && Enabled(c, base, s, e) && e.DropNext?
    ensures Inv(c, base, Apply(c, base, s, e))
  {
    var w := s.workers[e.node];
    assert WorkerOk(base, e.node, w, s.marked) && SweepOk(base, s.workers, w.phase);
    assert Passed(s.workers, e.step);
    var t := s.(staging := s.staging - {e.step});
    forall n | 0 <= n < |t.workers| ensures CopyOk(c, n, t.workers[n], t.staging, t.marked) {
      assert CopyOk(c, n, s.workers[n], s.staging, s.marked);
    }
    WorkerStepInv(c, base, t, e.node, w.(phase := Dropping(w.phase.dead - {e.step})));
  }

  lemma StepInv(c: Config, base: int, s: State, e: Event)
    requires Inv(c, base, s) && Enabled(c, base, s, e)
    ensures Inv(c, base, Apply(c, base, s, e))
  {
    match e
    case Save(_, _, _) => SaveInv(c, base, s, e);
    case Begin(_) => BeginInv(c, base, s, e);
    case CopyFile(_, _) => CopyFileInv(c, base, s, e);
    case WriteMarker(_) => WriteMarkerInv(c, base, s, e);
    case Finalize(_, _) => FinalizeInv(c, base, s, e);
    case RemoveOldest(_) => RemoveOldestInv(c, base, s, e);
    case ReadNewest(_) => ReadNewestInv(c, base, s, e);
    case ListDead(_) => ListDeadInv(c, base, s, e);
    case DropNext(_, _) => DropNextInv(c, base, s, e);
    case Retry(_, _) => RetryInv(c, base, s, e);
    case UploadFails(_) => UploadFailsInv(c, base, s, e);
    case _ => QuietStepInv(c, base, s, e);
  }

  lemma {:induction false} RunInv(c: Config, older: set<nat>, states: seq<State>, events: seq<Event>, i: nat)
    requires IsRun(c, older, states, events) && i < |states|
    ensures Inv(c, Base(older), states[i])
  {
    if i == 0 {
      InitInv(c, older, states[0]);
    } else {
      RunInv(c, older, states, events, i - 1);
      StepInv(c, Base(older), states[i - 1], events[i - 1]);
    }
  }

  /** In every run, at every moment: each checkpoint the run published that is still in the
      mirror holds every file of every node's share, and nothing else. */
  lemma PublishedIsWhole(c: Config, older: set<nat>, states: seq<State>, events: seq<Event>, i: nat, k: nat)
    requires IsRun(c, older, states, events) && i < |states|
    requires k in states[i].complete && states[i].complete[k].Published?
    ensures Whole(c, k, states[i].complete[k].files)
    ensures MarkedByAll(c, k, states[i].marked)
  {
    RunInv(c, older, states, events, i);
  }
}
