/** The checkpoint mirror as a protocol: one uploading worker per node, a shared directory
    of staging directories and published checkpoints, and steps that interleave freely.
    A `_finalize` call and each removal of a directory are one step; copying a file,
    writing a marker and each listing are steps of their own, so listings go stale. */
module MirrorProtocol {
  import opened MirrorTrim

  type Path = string

  datatype Keep = KeepAll | KeepNewest(count: int)

  /** `share(step, node)` is the set of files node `node` saves at `step`. */
  datatype Config = Config(nodes: nat, keep: Keep, share: (nat, nat) -> set<Path>)

  /** A staging directory: its files, each with the node whose copy it is, and markers. */
  datatype Staging = Staging(files: map<Path, nat>, markers: set<nat>)

  /** A `checkpoint-N` directory, left by an earlier run or published by this one. */
  datatype Checkpoint = Earlier | Published(files: map<Path, nat>)

  /** What a worker is doing. Everything listed is as of when it was listed. */
  datatype Phase =
    | Idle
    | Copying(todo: set<Path>)
    | Listing
    | Finalizing(rest: seq<nat>)
    | Rotating(victims: seq<nat>)
    | Sweeping(newest: nat)
    | Dropping(dead: set<nat>)

  /** `current` is the step of the last upload begun (or -1), `lastSaved` the newest step
      submitted (or -1), `failed` the steps whose upload failed or was turned down. */
  datatype Worker = Worker(phase: Phase, current: int, queue: seq<nat>, failed: set<nat>, lastSaved: int)

  /** `marked`, `published` and `saved` are history: which node marked or submitted which
      step, and which steps were published, at any time. */
  datatype State = State(
    staging: map<nat, Staging>,
    complete: map<nat, Checkpoint>,
    workers: seq<Worker>,
    marked: set<(nat, nat)>,
    published: set<nat>,
    saved: set<(nat, nat)>)

  datatype Event =
    | Save(node: nat, step: nat, accepted: bool)   // submit: queued, or turned down (QueueFull or an error)
    | Retry(node: nat, accepted: bool)             // drain submits the newest step again
    | StartSettle(node: nat)                       // drain settles once more
    | Begin(node: nat)                             // the worker takes the next step and makes its staging directory
    | CopyFile(node: nat, path: Path)
    | WriteMarker(node: nat)
    | UploadFails(node: nat)
    | ListStaging(node: nat)
    | Finalize(node: nat, works: bool)             // the next listed staging directory
    | ListComplete(node: nat, best: int)
    | RemoveOldest(node: nat)
    | ReadNewest(node: nat)
    | ListDead(node: nat)
    | DropNext(node: nat, step: nat)
    | EndSettle(node: nat)
    | SettleFails(node: nat)

  ghost predicate Init(c: Config, older: set<nat>, s: State) {
    && c.nodes >= 1
    && s == State(map[], map k | k in older :: Earlier, seq(c.nodes, _ => Worker(Idle, -1, [], {}, -1)), {}, {}, {})
  }

  /** The newest checkpoint the run starts from, or -1. */
  function Base(older: set<nat>): int {
    if older == {} then -1 else Largest(older)
  }

  predicate EveryNodeMarked(c: Config, st: Staging) {
    |st.markers| >= c.nodes
  }

  predicate InSettle(p: Phase) {
    p.Listing? || p.Finalizing? || p.Rotating? || p.Sweeping? || p.Dropping?
  }

  predicate Enabled(c: Config, base: int, s: State, e: Event) {
    && e.node < |s.workers|
    && var w := s.workers[e.node];
       match e
       // saved steps grow, and none is below the newest checkpoint the run started from
       case Save(_, step, _) => step >= base && step > w.lastSaved
       case Retry(_, _) => w.phase.Idle? && w.queue == [] && w.lastSaved >= 0 && w.lastSaved in w.failed
       case StartSettle(_) => w.phase.Idle? && w.queue == []
       case Begin(_) => w.phase.Idle? && w.queue != []
       case CopyFile(_, path) => w.phase.Copying? && w.current >= 0 && path in w.phase.todo && w.current in s.staging
       case WriteMarker(_) => w.phase.Copying? && w.current >= 0 && w.phase.todo == {}
       case UploadFails(_) => w.phase.Copying? && w.current >= 0
       case ListStaging(_) => w.phase.Listing?
       case Finalize(_, _) => w.phase.Finalizing? && w.phase.rest != []
       case ListComplete(_, _) => w.phase == Finalizing([])
       case RemoveOldest(_) => w.phase.Rotating? && w.phase.victims != []
       case ReadNewest(_) => w.phase == Rotating([])
       case ListDead(_) => w.phase.Sweeping?
       case DropNext(_, step) => w.phase.Dropping? && step in w.phase.dead
       case EndSettle(_) => w.phase == Dropping({})
       case SettleFails(_) => InSettle(w.phase)
  }

  function SetWorker(s: State, n: nat, w: Worker): State
    requires n < |s.workers|
  {
    s.(workers := s.workers[n := w])
  }

  function StagingOf(s: State, step: nat): Staging {
    if step in s.staging then s.staging[step] else Staging(map[], {})
  }

  /** `_finalize` on one staging directory: with every marker there and the renames
      working it becomes the checkpoint, otherwise nothing changes. */
  function Finalized(c: Config, s: State, step: nat, works: bool): State {
    if step in s.staging && EveryNodeMarked(c, s.staging[step]) && works then
      s.(staging := s.staging - {step},
         complete := s.complete[step := Published(s.staging[step].files)],
         published := s.published + {step})
    else s
  }

  function Apply(c: Config, base: int, s: State, e: Event): State
    requires Enabled(c, base, s, e)
  {
    var n := e.node;
    var w := s.workers[n];
    match e
    case Save(_, step, accepted) =>
      SetWorker(s.(saved := s.saved + {(step, n)}), n,
                if accepted then w.(queue := w.queue + [step], lastSaved := step)
                else w.(failed := w.failed + {step}, lastSaved := step))
    case Retry(_, accepted) =>
      SetWorker(s, n, if accepted then w.(queue := [w.lastSaved]) else w)
    case StartSettle(_) => SetWorker(s, n, w.(phase := Listing))
    case Begin(_) =>
      var step := w.queue[0];
      SetWorker(s.(staging := s.staging[step := StagingOf(s, step)]), n,
                w.(phase := Copying(c.share(step, n)), current := step, queue := w.queue[1..]))
    case CopyFile(_, path) =>
      var st := s.staging[w.current];
      SetWorker(s.(staging := s.staging[w.current := st.(files := st.files[path := n])]), n,
                w.(phase := Copying(w.phase.todo - {path})))
    case WriteMarker(_) =>
      var st := StagingOf(s, w.current);
      SetWorker(s.(staging := s.staging[w.current := st.(markers := st.markers + {n})], marked := s.marked + {(w.current, n)}), n,
                w.(phase := Listing, failed := w.failed - {w.current}))
    case UploadFails(_) => SetWorker(s, n, w.(phase := Idle, failed := w.failed + {w.current}))
    case ListStaging(_) => SetWorker(s, n, w.(phase := Finalizing(Sorted(s.staging.Keys))))
    case Finalize(_, works) => SetWorker(Finalized(c, s, w.phase.rest[0], works), n, w.(phase := Finalizing(w.phase.rest[1..])))
    case ListComplete(_, best) =>
      SetWorker(s, n, w.(phase := Rotating(if c.keep.KeepAll? then [] else Trim(s.complete.Keys, c.keep.count, best))))
    case RemoveOldest(_) =>
      SetWorker(s.(complete := s.complete - {w.phase.victims[0]}), n, w.(phase := Rotating(w.phase.victims[1..])))
    case ReadNewest(_) =>
      SetWorker(s, n, w.(phase := if s.complete.Keys == {} then Idle else Sweeping(Largest(s.complete.Keys))))
    case ListDead(_) => SetWorker(s, n, w.(phase := Dropping(set k | k in s.staging && k < w.phase.newest)))
    case DropNext(_, step) =>
      SetWorker(s.(staging := s.staging - {step}), n, w.(phase := Dropping(w.phase.dead - {step})))
    case EndSettle(_) => SetWorker(s, n, w.(phase := Idle))
    case SettleFails(_) => SetWorker(s, n, w.(phase := Idle))
  }

  /** `states` is a run from a mirror that held the checkpoints `older`. */
  ghost predicate IsRun(c: Config, older: set<nat>, states: seq<State>, events: seq<Event>) {
    && |states| == |events| + 1
    && Init(c, older, states[0])
    && forall i | 0 <= i < |events| ::
         Enabled(c, Base(older), states[i], events[i]) && states[i + 1] == Apply(c, Base(older), states[i], events[i])
  }

  /** A step is one node's: the other workers stay as they are. */
  lemma OtherWorkers(c: Config, base: int, s: State, e: Event, n: nat)
    requires Enabled(c, base, s, e) && n < |s.workers|
    ensures var t := Apply(c, base, s, e); |t.workers| == |s.workers| && (n != e.node ==> t.workers[n] == s.workers[n])
  {
  }
}
