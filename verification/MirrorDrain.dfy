/** The mirror can always come to rest: from every moment of a run each worker can go on,
    alone and without a failure, until its queue is empty, and then every step that all
    nodes submitted without failure is published. */
module MirrorDrain {
  import opened MirrorProtocol
  import opened MirrorSafety
  import opened MirrorProgress

  predicate AtRest(w: Worker) {
    w.phase.Idle? && w.queue == []
  }

  // ----- one step of one worker -----

  /** How far a phase is from the end of the settling. */
  function Rank(p: Phase): nat {
    match p
    case Copying(_) => 6
    case Listing => 5
    case Finalizing(_) => 4
    case Rotating(_) => 3
    case Sweeping(_) => 2
    case Dropping(_) => 1
    case Idle => 0
  }

  /** What is left of a phase that works through a list. */
  function Left(p: Phase): nat {
    match p
    case Copying(todo) => |todo|
    case Finalizing(rest) => |rest|
    case Rotating(victims) => |victims|
    case Dropping(dead) => |dead|
    case _ => 0
  }

  /** `w` has less to do than `v`. */
  predicate Nearer(v: Worker, w: Worker) {
    || |w.queue| < |v.queue|
    || (|w.queue| == |v.queue| && Rank(w.phase) < Rank(v.phase))
    || (|w.queue| == |v.queue| && Rank(w.phase) == Rank(v.phase) && Left(w.phase) < Left(v.phase))
  }

  /** The event is a step of the uploading thread that goes well. */
  predicate GoesWell(e: Event) {
    Works(e) && !e.UploadFails? && !e.Save? && !e.Retry? && !e.StartSettle?
  }

  /** A worker that is not at rest has a next step. */
  lemma NextStep(c: Config, base: int, s: State, n: nat) returns (e: Event)
    requires Inv(c, base, s) && n < |s.workers| && !AtRest(s.workers[n])
    ensures e.node == n && GoesWell(e) && Enabled(c, base, s, e)
  {
    var w := s.workers[n];
    assert CopyOk(c, n, w, s.staging, s.marked);
    match w.phase
    case Idle => e := Begin(n);
    case Copying(todo) =>
      if todo == {} {
        e := WriteMarker(n);
      } else {
        var path :| path in todo;
        e := CopyFile(n, path);
      }
    case Listing => e := ListStaging(n);
    case Finalizing(rest) => e := if rest == [] then ListComplete(n, -1) else Finalize(n, true);
    case Rotating(victims) => e := if victims == [] then ReadNewest(n) else RemoveOldest(n);
    case Sweeping(_) => e := ListDead(n);
    case Dropping(dead) =>
      if dead == {} {
        e := EndSettle(n);
      } else {
        var d :| d in dead;
        e := DropNext(n, d);
      }
  }

  lemma QueueAfter(c: Config, base: int, s: State, e: Event)
    requires Enabled(c, base, s, e) && GoesWell(e)
    ensures var w, t := s.workers[e.node], Apply(c, base, s, e);
            e.node < |t.workers| && |t.workers[e.node].queue| == if e.Begin? then |w.queue| - 1 else |w.queue|
  {
  }

  /** The event takes the next entry of the list its phase works through. */
  predicate TakesOne(e: Event) {
    e.CopyFile? || e.Finalize? || e.RemoveOldest? || e.DropNext?
  }

  lemma LeftAfter(c: Config, base: int, s: State, e: Event)
    requires Enabled(c, base, s, e) && TakesOne(e)
    ensures var p, t := s.workers[e.node].phase, Apply(c, base, s, e);
            e.node < |t.workers| && Rank(t.workers[e.node].phase) == Rank(p) && Left(t.workers[e.node].phase) < Left(p)
  {
  }

  /** The event ends its phase. */
  predicate EndsPhase(e: Event) {
    e.WriteMarker? || e.ListStaging? || e.ListComplete? || e.ReadNewest? || e.ListDead? || e.EndSettle?
  }

  lemma PhaseAfter(c: Config, base: int, s: State, e: Event)
    requires Enabled(c, base, s, e) && EndsPhase(e)
    ensures var t := Apply(c, base, s, e);
            && e.node < |t.workers|
            && var p, q := s.workers[e.node].phase, t.workers[e.node].phase;
               || (p.Copying? && q.Listing?) || (p.Listing? && q.Finalizing?) || (p.Finalizing? && q.Rotating?)
               || (p.Rotating? && (q.Sweeping? || q.Idle?)) || (p.Sweeping? && q.Dropping?) || (p.Dropping? && q.Idle?)
  {
  }

  lemma StepNearer(c: Config, base: int, s: State, e: Event)
    requires Enabled(c, base, s, e) && GoesWell(e)
    ensures var t := Apply(c, base, s, e); e.node < |t.workers| && Nearer(s.workers[e.node], t.workers[e.node])
  {
    QueueAfter(c, base, s, e);
    if TakesOne(e) {
      LeftAfter(c, base, s, e);
    } else if EndsPhase(e) {
      PhaseAfter(c, base, s, e);
    }
  }

  lemma SavedAfter(c: Config, base: int, s: State, e: Event)
    requires Enabled(c, base, s, e) && GoesWell(e)
    ensures Apply(c, base, s, e).saved == s.saved
  {
  }

  lemma FailedAfter(c: Config, base: int, s: State, e: Event)
    requires Enabled(c, base, s, e) && GoesWell(e)
    ensures var t := Apply(c, base, s, e); e.node < |t.workers| && t.workers[e.node].failed <= s.workers[e.node].failed
  {
  }

  predicate NothingFails(s: State, t: State) {
    && t.saved == s.saved
    && |t.workers| == |s.workers|
    && forall n | 0 <= n < |s.workers| :: t.workers[n].failed <= s.workers[n].failed
  }

  /** All workers but `n` stay as they are. */
  predicate OnlyMoves(s: State, t: State, n: nat) {
    |t.workers| == |s.workers| && forall m | 0 <= m < |s.workers| && m != n :: t.workers[m] == s.workers[m]
  }

  /** The steps of the uploading thread submit nothing, and no step is added to the failed. */
  lemma StepKeeps(c: Config, base: int, s: State, e: Event)
    requires Enabled(c, base, s, e) && GoesWell(e)
    ensures var t := Apply(c, base, s, e); NothingFails(s, t) && OnlyMoves(s, t, e.node)
  {
    var t := Apply(c, base, s, e);
    SavedAfter(c, base, s, e);
    FailedAfter(c, base, s, e);
    OtherWorkers(c, base, s, e, e.node);
    forall m | 0 <= m < |s.workers| && m != e.node ensures t.workers[m] == s.workers[m] {
      OtherWorkers(c, base, s, e, m);
    }
  }

  lemma GoodStep(c: Config, base: int, s: State, n: nat) returns (e: Event)
    requires Inv(c, base, s) && n < |s.workers| && !AtRest(s.workers[n])
    ensures Works(e) && Enabled(c, base, s, e)
    ensures var t := Apply(c, base, s, e);
            NothingFails(s, t) && OnlyMoves(s, t, n) && Nearer(s.workers[n], t.workers[n])
  {
    e := NextStep(c, base, s, n);
    StepKeeps(c, base, s, e);
    StepNearer(c, base, s, e);
  }

  // ----- one worker, and then all of them -----

  /** A working run that ends in state `s`. */
  ghost predicate Reaches(c: Config, older: set<nat>, states: seq<State>, events: seq<Event>, s: State) {
    WorkingRun(c, older, states, events) && states[|states| - 1] == s
  }

  lemma Extend(c: Config, older: set<nat>, states: seq<State>, events: seq<Event>, s: State, e: Event)
    requires Reaches(c, older, states, events, s) && Works(e) && Enabled(c, Base(older), s, e)
    ensures var t := Apply(c, Base(older), s, e); Reaches(c, older, states + [t], events + [e], t)
  {
  }

  /** The run after one more step of worker `n`, which now has less to do. */
  lemma OneStep(c: Config, older: set<nat>, states: seq<State>, events: seq<Event>, s: State, n: nat)
    returns (t: State, e: Event)
    requires Reaches(c, older, states, events, s) && n < |s.workers| && !AtRest(s.workers[n])
    ensures Reaches(c, older, states + [t], events + [e], t)
    ensures NothingFails(s, t) && OnlyMoves(s, t, n) && Nearer(s.workers[n], t.workers[n])
  {
    RunInv(c, older, states, events, |states| - 1);
    e := GoodStep(c, Base(older), s, n);
    t := Apply(c, Base(older), s, e);
    Extend(c, older, states, events, s, e);
  }

  /** Worker `n` comes to rest, and the others stay where they are. */
  lemma WorkerRests(c: Config, older: set<nat>, states: seq<State>, events: seq<Event>, s: State, n: nat)
    returns (states': seq<State>, events': seq<Event>, t: State)
    requires Reaches(c, older, states, events, s) && n < |s.workers|
    ensures Reaches(c, older, states', events', t) && states <= states' && events <= events'
    ensures NothingFails(s, t) && OnlyMoves(s, t, n) && AtRest(t.workers[n])
  {
    states', events', t := states, events, s;
    while !AtRest(t.workers[n])
      invariant Reaches(c, older, states', events', t) && states <= states' && events <= events'
      invariant NothingFails(s, t) && OnlyMoves(s, t, n)
      decreases |t.workers[n].queue|, Rank(t.workers[n].phase), Left(t.workers[n].phase)
    {
      var next, e := OneStep(c, older, states', events', t, n);
      states', events', t := states' + [next], events' + [e], next;
    }
  }

  /** All workers come to rest, one after the other. */
  lemma WorkersRest(c: Config, older: set<nat>, states: seq<State>, events: seq<Event>, s: State)
    returns (states': seq<State>, events': seq<Event>, t: State)
    requires Reaches(c, older, states, events, s)
    ensures Reaches(c, older, states', events', t) && states <= states' && events <= events'
    ensures NothingFails(s, t) && Drained(t)
  {
    states', events', t := states, events, s;
    for n := 0 to |s.workers|
      invariant Reaches(c, older, states', events', t) && states <= states' && events <= events'
      invariant NothingFails(s, t) && forall m | 0 <= m < n :: AtRest(t.workers[m])
    {
      states', events', t := WorkerRests(c, older, states', events', t, n);
    }
  }

  /** Every run in which no settling work failed can go on until everything is at rest, with
      nothing more submitted and no further failure. */
  lemma CanAlwaysDrain(c: Config, older: set<nat>, states: seq<State>, events: seq<Event>)
    returns (states': seq<State>, events': seq<Event>)
    requires WorkingRun(c, older, states, events)
    ensures WorkingRun(c, older, states', events') && states <= states' && events <= events'
    ensures NothingFails(states[|states| - 1], states'[|states'| - 1]) && Drained(states'[|states'| - 1])
  {
    var t;
    states', events', t := WorkersRest(c, older, states, events, states[|states| - 1]);
  }

  /** A step that all nodes have submitted, and that has not failed on any, can still be
      published, whatever the nodes are doing: some continuation of the run publishes it. */
  lemma CanAlwaysPublish(c: Config, older: set<nat>, states: seq<State>, events: seq<Event>, k: nat)
    returns (states': seq<State>, events': seq<Event>)
    requires WorkingRun(c, older, states, events)
    requires forall n | 0 <= n < c.nodes :: (k, n) in states[|states| - 1].saved
    requires forall w | w in states[|states| - 1].workers :: k !in w.failed
    ensures WorkingRun(c, older, states', events') && states <= states' && events <= events'
    ensures k in states'[|states'| - 1].published
  {
    states', events' := CanAlwaysDrain(c, older, states, events);
    var s, t := states[|states| - 1], states'[|states'| - 1];
    forall n | 0 <= n < |t.workers| ensures k !in t.workers[n].failed {
      assert s.workers[n] in s.workers;
    }
    DrainedMeansPublished(c, older, states', events', |states'| - 1, k);
  }
}
