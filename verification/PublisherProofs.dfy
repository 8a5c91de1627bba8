/** What holds in every interleaving of producer and worker: publication in order, a failure
    that stops everything after it and is raised by every later check, and retained
    directories that are bounded in number and removed exactly once. */
module PublisherProofs {
  import opened Sequences
  import opened Publisher

  // ----- what the producer's steps keep -----

  lemma PoppedDirs(tasks: seq<Task>, head: nat, held: int, created: nat, existing: set<nat>)
    requires DirsOk(tasks, head, held, created, existing) && head < |tasks| && Finished(tasks[head])
    ensures DirsOk(tasks, head + 1, held, created, existing)
  {
    forall d | d in existing ensures d == held || HasUnfinished(tasks, head + 1, d) {
      assert d == held || HasUnfinished(tasks, head, d);
    }
  }

  lemma PopHeadInv(limit: Limit, s: State)
    requires Inv(limit, s) && Enabled(limit, s, PopHead)
    ensures Inv(limit, Apply(limit, s, PopHead))
  {
    PoppedDirs(s.tasks, s.head, Held(s.producer), s.created, s.existing);
  }

  lemma CheckRaisesInv(limit: Limit, s: State)
    requires Inv(limit, s) && Enabled(limit, s, CheckRaises)
    ensures Inv(limit, Apply(limit, s, CheckRaises))
  {
    HeadFails(s.tasks, s.head, s.raised);
  }

  lemma HeadFails(tasks: seq<Task>, head: nat, raised: seq<nat>)
    requires HeadFailed(tasks, head, raised)
    requires head < |tasks| && Finished(tasks[head]) && !Succeeded(tasks[head])
    ensures HeadFailed(tasks, head, raised + [head])
  {
  }

  /** Steps that only move the producer, or close the queue. */
  predicate OnlyProducer(e: Event) {
    e.EnterSubmit? || e.CheckEnds? || e.RaiseFull? || e.StartWait? || e.EndWait? || e.Close? || e.EndClose?
  }

  /** A check that met a failure does not end, so the producer is stopped there. */
  lemma StaysStopped(limit: Limit, s: State, e: Event)
    requires Enabled(limit, s, e) && OnlyProducer(e)
    requires HeadFailed(s.tasks, s.head, s.raised) && Stopped(s.producer, s.raised)
    ensures var t := Apply(limit, s, e);
            && t == s.(producer := t.producer, closed := t.closed)
            && Stopped(t.producer, s.raised) && !s.producer.Holding? && !t.producer.Holding?
  {
  }

  lemma MoveInv(limit: Limit, s: State, e: Event)
    requires Inv(limit, s) && Enabled(limit, s, e) && OnlyProducer(e)
    ensures Inv(limit, Apply(limit, s, e))
  {
    StaysStopped(limit, s, e);
  }

  lemma RetainDirs(tasks: seq<Task>, head: nat, created: nat, existing: set<nat>)
    requires DirsOk(tasks, head, -1, created, existing)
    ensures DirsOk(tasks, head, created, created + 1, existing + {created})
  {
    forall d | d in existing ensures HasUnfinished(tasks, head, d) {
      assert d != -1;
    }
  }

  lemma RetainDeleted(created: nat, existing: set<nat>, deleted: seq<nat>)
    requires DeletedOk(created, existing, deleted)
    ensures DeletedOk(created + 1, existing + {created}, deleted)
  {
  }

  lemma RetainInv(limit: Limit, s: State, ok: bool)
    requires Inv(limit, s) && Enabled(limit, s, Retain(ok))
    ensures Inv(limit, Apply(limit, s, Retain(ok)))
  {
    RetainDirs(s.tasks, s.head, s.created, s.existing);
    RetainDeleted(s.created, s.existing, s.deleted);
  }

  lemma EnqueueDirs(tasks: seq<Task>, head: nat, held: nat, created: nat, existing: set<nat>, task: Task)
    requires DirsOk(tasks, head, held, created, existing) && head <= |tasks| && task.dir == held && task.status == Queued
    ensures DirsOk(tasks + [task], head, -1, created, existing)
  {
    var more := tasks + [task];
    forall d | d in existing ensures HasUnfinished(more, head, d) {
      if d == held {
        assert more[|tasks|].dir == d;
      } else {
        assert HasUnfinished(tasks, head, d);
        var i :| head <= i < |tasks| && tasks[i].dir == d && !Finished(tasks[i]);
        assert more[i] == tasks[i];
      }
    }
  }

  /** A queued task at the end disturbs nothing; it waits for the one before it, unless
      all before it have succeeded. */
  lemma EnqueueOrder(tasks: seq<Task>, head: nat, published: seq<nat>, task: Task)
    requires InOrder(tasks) && Chained(tasks, head) && PublishedInOrder(tasks, published)
    requires task.status == Queued && task.hasPrevious == (head < |tasks|)
    ensures InOrder(tasks + [task]) && Chained(tasks + [task], head) && PublishedInOrder(tasks + [task], published)
  {
  }

  lemma AddTask(limit: Limit, s: State, task: Task)
    requires Inv(limit, s) && s.producer == Holding(task.dir) && task.status == Queued && task.hasPrevious == (s.head < |s.tasks|)
    ensures Inv(limit, s.(producer := Outside, tasks := s.tasks + [task]))
  {
    assert s.raised == [];
    EnqueueDirs(s.tasks, s.head, task.dir, s.created, s.existing, task);
    EnqueueOrder(s.tasks, s.head, s.published, task);
  }

  lemma AcceptedInv(limit: Limit, s: State)
    requires Inv(limit, s) && Enabled(limit, s, Enqueue(true))
    ensures Inv(limit, Apply(limit, s, Enqueue(true)))
  {
    AddTask(limit, s, Task(s.producer.dir, s.head < |s.tasks|, Queued));
  }

  lemma RejectDirs(tasks: seq<Task>, head: nat, held: nat, created: nat, existing: set<nat>)
    requires DirsOk(tasks, head, held, created, existing)
    ensures DirsOk(tasks, head, -1, created, existing - {held})
  {
    forall d | d in existing - {held} ensures HasUnfinished(tasks, head, d) {
      assert d in existing;
    }
  }

  lemma DeleteOnce(created: nat, existing: set<nat>, deleted: seq<nat>, dir: nat)
    requires DeletedOk(created, existing, deleted) && dir in existing && dir < created
    ensures DeletedOk(created, existing - {dir}, deleted + [dir])
  {
  }

  lemma RejectedInv(limit: Limit, s: State)
    requires Inv(limit, s) && Enabled(limit, s, Enqueue(false))
    ensures Inv(limit, Apply(limit, s, Enqueue(false)))
  {
    RejectDirs(s.tasks, s.head, s.producer.dir, s.created, s.existing);
    DeleteOnce(s.created, s.existing, s.deleted, s.producer.dir);
  }

  // ----- the task the worker is on, and the oldest queued one, among the others -----

  lemma AboutActive(s: State, a: nat)
    requires InOrder(s.tasks) && a == ActiveTask(s) < |s.tasks|
    ensures Active(s.tasks[a])
    ensures forall i | 0 <= i < a :: Finished(s.tasks[i])
  {
  }

  lemma AboutQueued(s: State, q: nat)
    requires InOrder(s.tasks) && q == NextQueued(s) < |s.tasks|
    ensures s.tasks[q].status.Queued?
    ensures forall i | 0 <= i < q :: !s.tasks[i].status.Queued?
    ensures ActiveTask(s) == |s.tasks| ==> forall i | 0 <= i < q :: Finished(s.tasks[i])
  {
  }

  // ----- what a change of status keeps -----

  ghost predicate MayBecome(tasks: seq<Task>, i: nat, status: Status) {
    && i < |tasks| && !Finished(tasks[i]) && !status.Queued?
    && (forall k | 0 <= k < i :: !tasks[k].status.Queued?)
    && (!status.Done? && !status.Cancelled? ==> forall k | 0 <= k < i :: Finished(tasks[k]))
  }

  lemma StatusOrder(tasks: seq<Task>, i: nat, status: Status)
    requires InOrder(tasks) && MayBecome(tasks, i, status)
    ensures InOrder(WithStatus(tasks, i, status))
  {
  }

  lemma StatusChain(tasks: seq<Task>, head: nat, raised: seq<nat>, i: nat, status: Status)
    requires Chained(tasks, head) && HeadFailed(tasks, head, raised) && i < |tasks| && !Finished(tasks[i])
    ensures Chained(WithStatus(tasks, i, status), head) && HeadFailed(WithStatus(tasks, i, status), head, raised)
  {
  }

  lemma StatusPublished(tasks: seq<Task>, published: seq<nat>, i: nat, status: Status)
    requires PublishedInOrder(tasks, published) && i < |tasks| && !Finished(tasks[i])
    requires Ran(tasks[i].(status := status)) ==> Ran(tasks[i])
    requires Ran(tasks[i]) || tasks[i].status == Cleaning(false) ==> status.Cleaning? || status.Done?
    requires tasks[i].status == Cleaning(false) ==> status == Done(false)
    ensures PublishedInOrder(WithStatus(tasks, i, status), published)
  {
  }

  /** A change of status that does not finish the task. */
  lemma StatusDirs(tasks: seq<Task>, head: nat, held: int, created: nat, existing: set<nat>, i: nat, status: Status)
    requires DirsOk(tasks, head, held, created, existing)
    requires i < |tasks| && !Finished(tasks[i]) && !status.Done? && !status.Cancelled?
    ensures DirsOk(WithStatus(tasks, i, status), head, held, created, existing)
  {
    var next := WithStatus(tasks, i, status);
    forall d | d in existing ensures d == held || HasUnfinished(next, head, d) {
      if d != held {
        var k :| head <= k < |tasks| && tasks[k].dir == d && !Finished(tasks[k]);
        assert next[k].dir == d && !Finished(next[k]);
      }
    }
  }

  /** A task finishes and its directory goes with it. */
  lemma FinishDirs(tasks: seq<Task>, head: nat, held: int, created: nat, existing: set<nat>, i: nat, status: Status)
    requires DirsOk(tasks, head, held, created, existing)
    requires i < |tasks| && !Finished(tasks[i]) && (status.Done? || status.Cancelled?)
    ensures DirsOk(WithStatus(tasks, i, status), head, held, created, existing - {tasks[i].dir})
  {
    var next := WithStatus(tasks, i, status);
    forall d | d in existing - {tasks[i].dir} ensures d == held || HasUnfinished(next, head, d) {
      if d != held {
        assert HasUnfinished(tasks, head, d);
        var k :| head <= k < |tasks| && tasks[k].dir == d && !Finished(tasks[k]);
        assert next[k].dir == d && !Finished(next[k]);
      }
    }
  }

  /** A step of the worker that neither starts a publication nor finishes a task. */
  lemma StatusInv(limit: Limit, s: State, i: nat, status: Status)
    requires Inv(limit, s) && MayBecome(s.tasks, i, status) && !status.Done? && !status.Cancelled? && !status.Publishing?
    requires status == Cleaning(true) ==> Ran(s.tasks[i])
    requires !s.tasks[i].status.Cleaning?
    requires s.tasks[i].status.Publishing? ==> status.Cleaning?
    ensures Inv(limit, SetStatus(s, i, status))
  {
    StatusOrder(s.tasks, i, status);
    StatusChain(s.tasks, s.head, s.raised, i, status);
    StatusPublished(s.tasks, s.published, i, status);
    StatusDirs(s.tasks, s.head, Held(s.producer), s.created, s.existing, i, status);
  }

  lemma FinishInv(limit: Limit, s: State, i: nat, status: Status)
    requires Inv(limit, s) && MayBecome(s.tasks, i, status) && (status.Done? || status.Cancelled?)
    requires if s.tasks[i].status.Queued? then status.Cancelled?
             else s.tasks[i].status.Cleaning? && status == Done(s.tasks[i].status.ok)
    ensures Inv(limit, Delete(SetStatus(s, i, status), s.tasks[i].dir))
  {
    StatusOrder(s.tasks, i, status);
    StatusChain(s.tasks, s.head, s.raised, i, status);
    StatusPublished(s.tasks, s.published, i, status);
    FinishDirs(s.tasks, s.head, Held(s.producer), s.created, s.existing, i, status);
    DeleteOnce(s.created, s.existing, s.deleted, s.tasks[i].dir);
  }

  lemma CancelNextInv(limit: Limit, s: State)
    requires Inv(limit, s) && Enabled(limit, s, CancelNext)
    ensures Inv(limit, Apply(limit, s, CancelNext))
  {
    AboutQueued(s, NextQueued(s));
    FinishInv(limit, s, NextQueued(s), Cancelled);
  }

  lemma TakeInv(limit: Limit, s: State)
    requires Inv(limit, s) && Enabled(limit, s, Take)
    ensures Inv(limit, Apply(limit, s, Take))
  {
    AboutQueued(s, NextQueued(s));
    StatusInv(limit, s, NextQueued(s), Started);
  }

  /** The task that starts to publish is the next one in line: everything before it has
      been published, successfully. */
  lemma NextToPublish(tasks: seq<Task>, head: nat, published: seq<nat>, a: nat)
    requires Chained(tasks, head) && PublishedInOrder(tasks, published) && a < |tasks| && tasks[a].status.Started?
    requires forall i | 0 <= i < a :: Finished(tasks[i])
    requires tasks[a].hasPrevious && a > 0 ==> Succeeded(tasks[a - 1])
    ensures a == |published|
    ensures forall i | 0 <= i < a :: Succeeded(tasks[i])
  {
  }

  lemma Publishes(tasks: seq<Task>, published: seq<nat>, a: nat)
    requires PublishedInOrder(tasks, published) && a == |published| < |tasks|
    requires forall i | 0 <= i < a :: Succeeded(tasks[i])
    ensures PublishedInOrder(WithStatus(tasks, a, Publishing), published + [a])
  {
  }

  lemma PublishingInv(limit: Limit, s: State, a: nat)
    requires Inv(limit, s) && MayBecome(s.tasks, a, Publishing) && s.tasks[a].status.Started?
    requires s.tasks[a].hasPrevious && a > 0 ==> Succeeded(s.tasks[a - 1])
    ensures Inv(limit, SetStatus(s, a, Publishing).(published := s.published + [a]))
  {
    StatusOrder(s.tasks, a, Publishing);
    StatusChain(s.tasks, s.head, s.raised, a, Publishing);
    NextToPublish(s.tasks, s.head, s.published, a);
    Publishes(s.tasks, s.published, a);
    StatusDirs(s.tasks, s.head, Held(s.producer), s.created, s.existing, a, Publishing);
  }

  lemma SeePreviousInv(limit: Limit, s: State)
    requires Inv(limit, s) && Enabled(limit, s, SeePrevious)
    ensures Inv(limit, Apply(limit, s, SeePrevious))
  {
    var a := ActiveTask(s);
    AboutActive(s, a);
    if s.tasks[a].hasPrevious && a > 0 && !Succeeded(s.tasks[a - 1]) {
      StatusInv(limit, s, a, Cleaning(false));
    } else {
      PublishingInv(limit, s, a);
    }
  }

  lemma PublishEndsInv(limit: Limit, s: State, ok: bool)
    requires Inv(limit, s) && Enabled(limit, s, PublishEnds(ok))
    ensures Inv(limit, Apply(limit, s, PublishEnds(ok)))
  {
    AboutActive(s, ActiveTask(s));
    StatusInv(limit, s, ActiveTask(s), Cleaning(ok));
  }

  lemma CleanUpInv(limit: Limit, s: State)
    requires Inv(limit, s) && Enabled(limit, s, CleanUp)
    ensures Inv(limit, Apply(limit, s, CleanUp))
  {
    var a := ActiveTask(s);
    AboutActive(s, a);
    FinishInv(limit, s, a, Done(s.tasks[a].status.ok));
  }

  lemma StepInv(limit: Limit, s: State, e: Event)
    requires Inv(limit, s) && Enabled(limit, s, e)
    ensures Inv(limit, Apply(limit, s, e))
  {
    match e
    case Retain(ok) => RetainInv(limit, s, ok);
    case Enqueue(ok) => if ok { AcceptedInv(limit, s); } else { RejectedInv(limit, s); }
    case CancelNext => CancelNextInv(limit, s);
    case Take => TakeInv(limit, s);
    case SeePrevious => SeePreviousInv(limit, s);
    case PublishEnds(ok) => PublishEndsInv(limit, s, ok);
    case CleanUp => CleanUpInv(limit, s);
    case PopHead => PopHeadInv(limit, s);
    case CheckRaises => CheckRaisesInv(limit, s);
    case _ => MoveInv(limit, s, e);
  }

  lemma {:induction false} RunInv(limit: Limit, states: seq<State>, events: seq<Event>, i: nat)
    requires IsRun(limit, states, events) && i < |states|
    ensures Inv(limit, states[i])
  {
    if i == 0 {
    } else {
      RunInv(limit, states, events, i - 1);
      StepInv(limit, states[i - 1], events[i - 1]);
    }
  }

  // ----- what it means -----

  /** Publications run in submission order without gaps, and once a task has failed or was
      cancelled, none after it is ever published. */
  lemma PublicationOrder(limit: Limit, states: seq<State>, events: seq<Event>, i: nat)
    requires IsRun(limit, states, events) && i < |states|
    ensures var s := states[i];
            && (forall k | 0 <= k < |s.published| :: s.published[k] == k)
            && (forall k, j | 0 <= k < j < |s.tasks| && Failed(s.tasks[k]) :: j !in s.published)
  {
    RunInv(limit, states, events, i);
    var s := states[i];
  }

  /** A failure at the head of the deque stays there. */
  lemma FailureStays(limit: Limit, s: State, e: Event)
    requires HeadFailed(s.tasks, s.head, s.raised) && Stopped(s.producer, s.raised) && s.raised != [] && Enabled(limit, s, e)
    ensures var t := Apply(limit, s, e); t.raised != [] && |t.tasks| == |s.tasks| && t.head == s.head
  {
  }

  /** With a failure at the head, a check can only raise it. */
  lemma OnlyRaises(limit: Limit, s: State)
    requires HeadFailed(s.tasks, s.head, s.raised) && s.raised != []
    ensures !Enabled(limit, s, PopHead) && !Enabled(limit, s, CheckEnds)
    ensures MayCheck(s.producer) ==> Enabled(limit, s, CheckRaises)
  {
  }

  /** Once a check has raised a failure, no submission is accepted and no check succeeds
      any more: the oldest future stays, and every check that finishes raises it again. */
  lemma {:induction false} FailureIsRaisedForever(limit: Limit, states: seq<State>, events: seq<Event>, i: nat, j: nat)
    requires IsRun(limit, states, events) && i <= j < |states| && states[i].raised != []
    ensures var s := states[j];
            && s.raised != [] && |s.tasks| == |states[i].tasks|
            && s.head == states[i].head && (forall k | 0 <= k < |s.raised| :: s.raised[k] == s.head)
            && !Enabled(limit, s, PopHead) && !Enabled(limit, s, CheckEnds)
            && (MayCheck(s.producer) ==> Enabled(limit, s, CheckRaises))
  {
    if i == j {
    } else {
      FailureIsRaisedForever(limit, states, events, i, j - 1);
      RunInv(limit, states, events, j - 1);
      FailureStays(limit, states[j - 1], events[j - 1]);
    }
    RunInv(limit, states, events, j);
    OnlyRaises(limit, states[j]);
  }

  /** Every directory ever retained still exists or was deleted, never both and never twice. */
  lemma DirectoriesAreConserved(limit: Limit, states: seq<State>, events: seq<Event>, i: nat)
    requires IsRun(limit, states, events) && i < |states|
    ensures var s := states[i];
            && Distinct(s.deleted)
            && (forall d: nat :: d < s.created <==> d in s.existing || d in s.deleted)
            && (forall d | d in s.existing :: d !in s.deleted)
  {
    RunInv(limit, states, events, i);
  }

  lemma Owner(s: State, d: nat) returns (i: nat)
    requires DirsOk(s.tasks, s.head, Held(s.producer), s.created, s.existing) && d in s.existing && !s.producer.Holding?
    ensures i < |s.tasks| && s.tasks[i] in s.tasks && !Finished(s.tasks[i])
  {
    assert HasUnfinished(s.tasks, s.head, d);
    i :| s.head <= i < |s.tasks| && s.tasks[i].dir == d && !Finished(s.tasks[i]);
  }

  /** After `close`, cancelling or not, no directory is left: each one ever retained was
      removed, exactly once. */
  lemma NoneLeftAfterClose(limit: Limit, states: seq<State>, events: seq<Event>, i: nat)
    requires IsRun(limit, states, events) && i < |events| && events[i].EndClose?
    ensures var s := states[i + 1];
            && s.existing == {}
            && Distinct(s.deleted)
            && (forall d: nat :: d < s.created <==> d in s.deleted)
  {
    RunInv(limit, states, events, i);
    var s := states[i];
    forall d ensures d !in s.existing {
      if d in s.existing {
        var owner := Owner(s, d);
      }
    }
  }

  /** What exists is held by the producer or belongs to a future of the deque. */
  lemma ExistingIsOwned(tasks: seq<Task>, head: nat, held: int, created: nat, existing: set<nat>)
    requires DirsOk(tasks, head, held, created, existing) && head <= |tasks|
    ensures |existing| <= |tasks| - head + if held >= 0 then 1 else 0
  {
    var mine: set<nat> := if held >= 0 then {held} else {};
    var owned := TaskDirs(tasks[head..]);
    forall d | d in existing ensures d in owned + mine {
      if d != held {
        var k :| head <= k < |tasks| && tasks[k].dir == d && !Finished(tasks[k]);
        assert tasks[head..][k - head].dir == d;
      }
    }
    SubsetSize(existing, owned + mine);
  }

  function TaskDirs(tasks: seq<Task>): (dirs: set<nat>)
    ensures |dirs| <= |tasks| && forall i | 0 <= i < |tasks| :: tasks[i].dir in dirs
  {
    if tasks == [] then {} else {tasks[0].dir} + TaskDirs(tasks[1..])
  }

  /** With `max_pending` no more than that many retained directories exist at any moment. */
  lemma ExistingIsBounded(limit: Limit, states: seq<State>, events: seq<Event>, i: nat)
    requires IsRun(limit, states, events) && i < |states| && limit.AtMost?
    ensures |states[i].existing| <= limit.count
  {
    RunInv(limit, states, events, i);
    var s := states[i];
    ExistingIsOwned(s.tasks, s.head, Held(s.producer), s.created, s.existing);
  }

  lemma WorkIsLeft(limit: Limit, s: State)
    requires InOrder(s.tasks) && exists k :: 0 <= k < |s.tasks| && !Finished(s.tasks[k])
    ensures Enabled(limit, s, Take) || Enabled(limit, s, SeePrevious) || Enabled(limit, s, PublishEnds(true)) || Enabled(limit, s, CleanUp)
  {
    var k :| 0 <= k < |s.tasks| && !Finished(s.tasks[k]);
    var a := ActiveTask(s);
    if a < |s.tasks| {
      AboutActive(s, a);
    } else {
      assert s.tasks[k].status.Queued?;
    }
  }

  /** The worker never gets stuck: as long as some task is unfinished it has a step to take,
      so `close` and `wait` come to an end when `publish` does. */
  lemma WorkerCanMove(limit: Limit, states: seq<State>, events: seq<Event>, i: nat)
    requires IsRun(limit, states, events) && i < |states|
    requires exists k :: 0 <= k < |states[i].tasks| && !Finished(states[i].tasks[k])
    ensures var s := states[i];
            Enabled(limit, s, Take) || Enabled(limit, s, SeePrevious) || Enabled(limit, s, PublishEnds(true)) || Enabled(limit, s, CleanUp)
  {
    RunInv(limit, states, events, i);
    WorkIsLeft(limit, states[i]);
  }
}
