/** The background publisher as a producer and a single worker around a queue of futures;
    their steps interleave freely. */
module Publisher {
  import opened Sequences

  /** A future and the work behind it. `Cleaning(ok)` is between the end of the work and
      the removal of the directory; `Done(false)` stands for any exception. */
  datatype Status = Queued | Started | Publishing | Cleaning(ok: bool) | Done(ok: bool) | Cancelled

  /** One submission: its retained directory, and whether it waits for the one before it. */
  datatype Task = Task(dir: nat, hasPrevious: bool, status: Status)

  /** Where the producer thread is: outside, checking on behalf of `submit`, done checking,
      waiting for the oldest future, holding a freshly retained directory, or closing. */
  datatype Producer = Outside | Checking(block: bool) | Checked(block: bool) | Waiting | Holding(dir: nat) | Closing(cancel: bool)

  datatype Limit = Unlimited | AtMost(count: nat)

  /** `tasks` are all submissions ever, of which the first `head` have been popped from the
      deque. Directories are numbered as they are created. `published`, `deleted` and
      `raised` record the calls of `publish`, the directories removed, and the futures
      whose failure a check has raised, each in order. */
  datatype State = State(
    tasks: seq<Task>,
    head: nat,
    closed: bool,
    producer: Producer,
    created: nat,
    existing: set<nat>,
    published: seq<nat>,
    deleted: seq<nat>,
    raised: seq<nat>)

  const START := State([], 0, false, Outside, 0, {}, [], [], [])

  datatype Event =
    | PopHead                 // one turn of the loop in `check`
    | CheckRaises             // the oldest future failed: its exception is raised, and it stays
    | EnterSubmit(block: bool)
    | CheckEnds               // the oldest future is not done, or there is none
    | RaiseFull
    | StartWait
    | EndWait
    | Retain(ok: bool)
    | Enqueue(ok: bool)
    | Close(cancel: bool)
    | CancelNext
    | EndClose
    | Take                    // the worker takes the oldest queued task
    | SeePrevious             // `previous.result()` returns or raises
    | PublishEnds(ok: bool)
    | CleanUp

  predicate Finished(t: Task) {
    t.status.Done? || t.status.Cancelled?
  }

  predicate Succeeded(t: Task) {
    t.status == Done(true)
  }

  predicate Active(t: Task) {
    t.status.Started? || t.status.Publishing? || t.status.Cleaning?
  }

  /** Number of unpopped futures: `len(self.futures)`. */
  function Pending(s: State): int {
    |s.tasks| - s.head
  }

  predicate Full(limit: Limit, s: State) {
    limit.AtMost? && Pending(s) >= limit.count
  }

  function FirstFrom(tasks: seq<Task>, i: nat, p: Task -> bool): (k: nat)
    requires i <= |tasks|
    ensures i <= k <= |tasks| && (k < |tasks| ==> p(tasks[k]))
    ensures forall j | i <= j < k :: !p(tasks[j])
    decreases |tasks| - i
  {
    if i == |tasks| || p(tasks[i]) then i else FirstFrom(tasks, i + 1, p)
  }

  /** The oldest queued task, and the task the worker is on; `|tasks|` when there is none. */
  function NextQueued(s: State): nat {
    FirstFrom(s.tasks, 0, (t: Task) => t.status.Queued?)
  }

  function ActiveTask(s: State): nat {
    FirstFrom(s.tasks, 0, (t: Task) => Active(t))
  }

  predicate MayCheck(p: Producer) {
    p.Outside? || p.Checking?
  }

  predicate Enabled(limit: Limit, s: State, e: Event) {
    var a := ActiveTask(s);
    match e
    case PopHead => MayCheck(s.producer) && s.head < |s.tasks| && Succeeded(s.tasks[s.head])
    case CheckRaises => MayCheck(s.producer) && s.head < |s.tasks| && Finished(s.tasks[s.head]) && !Succeeded(s.tasks[s.head])
    case EnterSubmit(_) => s.producer.Outside? && !s.closed
    case CheckEnds => s.producer.Checking? && (s.head < |s.tasks| ==> !Finished(s.tasks[s.head]))
    case RaiseFull => s.producer == Checked(false) && Full(limit, s)
    case StartWait => s.producer == Checked(true) && Full(limit, s)
    case EndWait => s.producer.Waiting? && (s.head < |s.tasks| ==> Finished(s.tasks[s.head]))
    case Retain(_) => s.producer.Checked? && !Full(limit, s)
    case Enqueue(_) => s.producer.Holding?
    case Close(_) => s.producer.Outside?
    case CancelNext => s.producer == Closing(true) && NextQueued(s) < |s.tasks|
    case EndClose => s.producer.Closing? && forall t | t in s.tasks :: Finished(t)
    case Take => a == |s.tasks| && NextQueued(s) < |s.tasks|
    case SeePrevious => a < |s.tasks| && s.tasks[a].status.Started?
                        && (s.tasks[a].hasPrevious && a > 0 ==> Finished(s.tasks[a - 1]))
    case PublishEnds(_) => a < |s.tasks| && s.tasks[a].status.Publishing?
    case CleanUp => a < |s.tasks| && s.tasks[a].status.Cleaning?
  }

  function WithStatus(tasks: seq<Task>, i: nat, status: Status): seq<Task>
    requires i < |tasks|
  {
    tasks[i := tasks[i].(status := status)]
  }

  function SetStatus(s: State, i: nat, status: Status): State
    requires i < |s.tasks|
  {
    s.(tasks := WithStatus(s.tasks, i, status))
  }

  function Delete(s: State, dir: nat): State {
    s.(existing := s.existing - {dir}, deleted := s.deleted + [dir])
  }

  function Apply(limit: Limit, s: State, e: Event): State
    requires Enabled(limit, s, e)
  {
    var a := ActiveTask(s);
    match e
    case PopHead => s.(head := s.head + 1)
    case CheckRaises => s.(producer := Outside, raised := s.raised + [s.head])
    case EnterSubmit(block) => s.(producer := Checking(block))
    case CheckEnds => s.(producer := Checked(s.producer.block))
    case RaiseFull => s.(producer := Outside)
    case StartWait => s.(producer := Waiting)
    case EndWait => s.(producer := Checking(true))
    case Retain(ok) =>
      if ok then s.(producer := Holding(s.created), created := s.created + 1, existing := s.existing + {s.created})
      else s.(producer := Outside)
    case Enqueue(ok) =>
      if ok then s.(producer := Outside, tasks := s.tasks + [Task(s.producer.dir, s.head < |s.tasks|, Queued)])
      else Delete(s, s.producer.dir).(producer := Outside)
    case Close(cancel) => s.(closed := true, producer := Closing(cancel))
    case CancelNext => Delete(SetStatus(s, NextQueued(s), Cancelled), s.tasks[NextQueued(s)].dir)
    case EndClose => s.(producer := Outside)
    case Take => SetStatus(s, NextQueued(s), Started)
    case SeePrevious =>
      if s.tasks[a].hasPrevious && a > 0 && !Succeeded(s.tasks[a - 1]) then SetStatus(s, a, Cleaning(false))
      else SetStatus(s, a, Publishing).(published := s.published + [a])
    case PublishEnds(ok) => SetStatus(s, a, Cleaning(ok))
    case CleanUp => Delete(SetStatus(s, a, Done(s.tasks[a].status.ok)), s.tasks[a].dir)
  }

  ghost predicate IsRun(limit: Limit, states: seq<State>, events: seq<Event>) {
    && |states| == |events| + 1 && states[0] == START
    && forall i | 0 <= i < |events| :: Enabled(limit, states[i], events[i]) && states[i + 1] == Apply(limit, states[i], events[i])
  }

  // ----- the invariant -----

  /** The worker goes through the tasks in order, one at a time. */
  ghost predicate InOrder(tasks: seq<Task>) {
    && (forall i, j | 0 <= i < j < |tasks| && Active(tasks[j]) :: Finished(tasks[i]))
    && (forall i, j | 0 <= i < j < |tasks| && tasks[i].status.Queued? :: tasks[j].status.Queued?)
  }

  predicate Failed(t: Task) {
    t.status.Cancelled? || t.status == Done(false) || t.status == Cleaning(false)
  }

  /** A task that published, or is about to have. */
  predicate Ran(t: Task) {
    t.status.Publishing? || t.status == Cleaning(true) || Succeeded(t)
  }

  /** Tasks before the deque have succeeded; so have all before a task that waits for none. */
  ghost predicate Chained(tasks: seq<Task>, head: nat) {
    && head <= |tasks|
    && (forall i | 0 <= i < head :: Succeeded(tasks[i]))
    && (forall i, j | 0 <= j < i < |tasks| && !tasks[i].hasPrevious :: Succeeded(tasks[j]))
  }

  /** Exactly the first tasks have been published, in order; all but the last succeeded,
      and no other task ever ran. */
  ghost predicate PublishedInOrder(tasks: seq<Task>, published: seq<nat>) {
    && |published| <= |tasks|
    && (forall i | 0 <= i < |published| :: published[i] == i)
    && (forall i | 0 <= i < |published| - 1 :: Succeeded(tasks[i]))
    && (|published| > 0 ==> var t := tasks[|published| - 1]; Ran(t) || (Failed(t) && !t.status.Cancelled?))
    && (forall i | |published| <= i < |tasks| :: !Ran(tasks[i]))
  }

  /** The task at the head has failed, and so did every check that raised. */
  ghost predicate HeadFailed(tasks: seq<Task>, head: nat, raised: seq<nat>) {
    raised != [] ==>
      && head < |tasks| && Finished(tasks[head]) && !Succeeded(tasks[head])
      && forall k | 0 <= k < |raised| :: raised[k] == head
  }

  /** Once a check has raised, the producer gets no further than the next check. */
  predicate Stopped(producer: Producer, raised: seq<nat>) {
    raised != [] ==> producer.Outside? || producer.Checking? || producer.Closing?
  }

  /** The directory the producer holds, or -1. */
  function Held(producer: Producer): int {
    if producer.Holding? then producer.dir else -1
  }

  /** Every directory is held by the producer or belongs to one task, and is gone exactly
      when that task is finished. */
  ghost predicate DirsOk(tasks: seq<Task>, head: nat, held: int, created: nat, existing: set<nat>) {
    && (forall i | 0 <= i < |tasks| :: tasks[i].dir < created && tasks[i].dir != held)
    && (forall i, j | 0 <= i < j < |tasks| :: tasks[i].dir != tasks[j].dir)
    && (held >= 0 ==> held < created && held in existing)
    && (forall d | d in existing :: d < created && (d == held || HasUnfinished(tasks, head, d)))
    && (forall i | 0 <= i < |tasks| :: tasks[i].dir in existing <==> !Finished(tasks[i]))
  }

  ghost predicate HasUnfinished(tasks: seq<Task>, head: nat, d: nat) {
    exists i :: head <= i < |tasks| && tasks[i].dir == d && !Finished(tasks[i])
  }

  ghost predicate DeletedOk(created: nat, existing: set<nat>, deleted: seq<nat>) {
    && Distinct(deleted)
    && (forall d: nat | d < created :: d in existing || d in deleted)
    && forall d | d in deleted :: d < created && d !in existing
  }

  predicate BoundOk(limit: Limit, pending: int, held: int) {
    limit.AtMost? ==> pending <= limit.count && (held >= 0 ==> pending < limit.count)
  }

  ghost predicate Inv(limit: Limit, s: State) {
    && InOrder(s.tasks) && Chained(s.tasks, s.head) && PublishedInOrder(s.tasks, s.published)
    && HeadFailed(s.tasks, s.head, s.raised) && Stopped(s.producer, s.raised)
    && DirsOk(s.tasks, s.head, Held(s.producer), s.created, s.existing)
    && DeletedOk(s.created, s.existing, s.deleted)
    && BoundOk(limit, Pending(s), Held(s.producer))
  }
}
