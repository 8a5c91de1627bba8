/** The publisher's own methods, as the producer thread calls them. Everything they do, and
    everything the worker does meanwhile, is recorded as a run of the state machine. */
module PublisherThread {
  import opened Publisher
  import opened PublisherProofs

  // ----- the worker always comes to an end -----

  function StepsLeft(status: Status): nat {
    match status
    case Queued => 4
    case Started => 3
    case Publishing => 2
    case Cleaning(_) => 1
    case _ => 0
  }

  function WorkLeft(tasks: seq<Task>): nat {
    if tasks == [] then 0 else StepsLeft(tasks[0].status) + WorkLeft(tasks[1..])
  }

  lemma {:induction false} WorkLeftAfter(tasks: seq<Task>, i: nat, t: Task)
    requires i < |tasks|
    ensures WorkLeft(tasks[i := t]) == WorkLeft(tasks) - StepsLeft(tasks[i].status) + StepsLeft(t.status)
  {
    if i == 0 {
      assert tasks[i := t][1..] == tasks[1..];
    } else {
      assert tasks[i := t][1..] == tasks[1..][i - 1 := t];
      WorkLeftAfter(tasks[1..], i - 1, t);
    }
  }

  predicate IsWork(e: Event) {
    e.Take? || e.SeePrevious? || e.PublishEnds? || e.CleanUp?
  }

  lemma StatusGoesDown(tasks: seq<Task>, i: nat, status: Status)
    requires i < |tasks| && StepsLeft(status) < StepsLeft(tasks[i].status)
    ensures var next := WithStatus(tasks, i, status);
            && WorkLeft(next) < WorkLeft(tasks)
            && forall k | 0 <= k < |tasks| :: next[k].dir == tasks[k].dir && (Finished(tasks[k]) ==> next[k] == tasks[k])
  {
    WorkLeftAfter(tasks, i, tasks[i].(status := status));
  }

  /** A step of the worker moves no task of the deque and leaves the producer alone. */
  lemma WorkGoesDown(limit: Limit, s: State, e: Event)
    requires Enabled(limit, s, e) && IsWork(e)
    ensures var t := Apply(limit, s, e);
            && WorkLeft(t.tasks) < WorkLeft(s.tasks)
            && |t.tasks| == |s.tasks| && t.head == s.head && t.producer == s.producer
            && t.raised == s.raised && t.closed == s.closed && t.created == s.created
            && forall i | 0 <= i < |s.tasks| :: t.tasks[i].dir == s.tasks[i].dir && (Finished(s.tasks[i]) ==> t.tasks[i] == s.tasks[i])
  {
    var t := Apply(limit, s, e);
    var i := if e.Take? then NextQueued(s) else ActiveTask(s);
    StatusGoesDown(s.tasks, i, t.tasks[i].status);
  }

  /** The worker's next step; `ok` says how a publication ends. */
  function NextWork(limit: Limit, s: State, ok: bool): Event {
    if Enabled(limit, s, Take) then Take
    else if Enabled(limit, s, SeePrevious) then SeePrevious
    else if Enabled(limit, s, CleanUp) then CleanUp
    else PublishEnds(ok)
  }

  lemma NextWorkIsEnabled(limit: Limit, s: State, ok: bool)
    requires Enabled(limit, s, Take) || Enabled(limit, s, SeePrevious) || Enabled(limit, s, PublishEnds(true)) || Enabled(limit, s, CleanUp)
    ensures Enabled(limit, s, NextWork(limit, s, ok)) && IsWork(NextWork(limit, s, ok))
  {
  }

  datatype Submission = Accepted | Closed | CheckRaised | QueueFull | RetainFailed | EnqueueFailed

  class BackgroundCheckpointPublisher {
    const limit: Limit
    var state: State
    ghost var states: seq<State>
    ghost var events: seq<Event>

    ghost predicate Valid()
      reads this
    {
      && IsRun(limit, states, events) && state == states[|events|] && state.head <= |state.tasks|
      && (limit.AtMost? ==> limit.count >= 1)
    }

    constructor (limit: Limit)
      requires limit.AtMost? ==> limit.count >= 1
      ensures Valid() && this.limit == limit && state == START && events == []
    {
      this.limit := limit;
      state := START;
      states := [START];
      events := [];
    }

    method Do(e: Event)
      requires Valid() && Enabled(limit, state, e)
      modifies this
      ensures Valid() && old(events) <= events
      ensures state == Apply(limit, old(state), e)
    {
      state := Apply(limit, state, e);
      states := states + [state];
      events := events + [e];
    }

    /** What the worker leaves alone. */
    twostate predicate OnlyWork()
      reads this
    {
      && Valid() && old(events) <= events && WorkLeft(state.tasks) <= WorkLeft(old(state).tasks)
      && |state.tasks| == |old(state).tasks| && state.head == old(state).head && state.producer == old(state).producer
      && state.raised == old(state).raised && state.closed == old(state).closed && state.created == old(state).created
      && forall i | 0 <= i < |state.tasks| :: Finished(old(state).tasks[i]) ==> state.tasks[i] == old(state).tasks[i]
    }

    /** One step of the worker, which has one as long as a task is unfinished. */
    method WorkerStep()
      requires Valid() && exists k :: 0 <= k < |state.tasks| && !Finished(state.tasks[k])
      modifies this
      ensures OnlyWork() && WorkLeft(state.tasks) < WorkLeft(old(state).tasks)
    {
      var ok: bool := *;
      var e := NextWork(limit, state, ok);
      WorkerCanMove(limit, states, events, |events|);
      NextWorkIsEnabled(limit, state, ok);
      WorkGoesDown(limit, state, e);
      Do(e);
    }

    /** The worker goes on for a while. */
    method Meanwhile()
      requires Valid()
      modifies this
      ensures OnlyWork()
    {
      while *
        invariant OnlyWork()
        decreases WorkLeft(state.tasks)
      {
        var k: nat := *;
        if 0 <= k < |state.tasks| && !Finished(state.tasks[k]) {
          WorkerStep();
        } else {
          break;
        }
      }
    }

    /** Blocks until the future at `i` is done. */
    method WaitFor(i: nat)
      requires Valid() && i < |state.tasks|
      modifies this
      ensures OnlyWork() && Finished(state.tasks[i])
    {
      while !Finished(state.tasks[i])
        invariant OnlyWork() && i < |state.tasks|
        decreases WorkLeft(state.tasks)
      {
        WorkerStep();
      }
    }

    /** Futures that are done stay as they are, and the producer adds none. */
    twostate predicate SameQueue()
      reads this
    {
      && Valid() && old(events) <= events
      && |state.tasks| == |old(state).tasks| && old(state).head <= state.head
      && state.created == old(state).created && state.closed == old(state).closed
      && forall i | 0 <= i < |state.tasks| :: Finished(old(state).tasks[i]) ==> state.tasks[i] == old(state).tasks[i]
    }

    /** Pops the futures that succeeded, and raises the failure of the first that did not:
        otherwise the oldest one left is not done on return. */
    method Check() returns (raised: bool)
      requires Valid() && MayCheck(state.producer)
      modifies this
      ensures SameQueue()
      ensures raised ==> state.producer == Outside && state.raised == old(state).raised + [state.head]
      ensures !raised ==> state.producer == old(state).producer && state.raised == old(state).raised
      ensures !raised ==> state.head < |state.tasks| ==> !Finished(state.tasks[state.head])
    {
      while state.head < |state.tasks| && Finished(state.tasks[state.head])
        invariant SameQueue() && MayCheck(state.producer)
        invariant state.producer == old(state).producer && state.raised == old(state).raised
        decreases |state.tasks| - state.head
      {
        if !Succeeded(state.tasks[state.head]) {
          Do(CheckRaises);
          return true;
        }
        Do(PopHead);
        Meanwhile();
      }
      raised := false;
    }

    /** Waits for the oldest future, which then leaves the deque or raises. */
    method WaitOnce(block: bool) returns (raised: bool)
      requires Valid() && state.producer == Checked(block) && block && Full(limit, state)
      modifies this
      ensures SameQueue()
      ensures raised ==> state.producer == Outside && state.raised == old(state).raised + [state.head]
      ensures !raised ==> state.producer == Checked(block) && state.raised == old(state).raised && state.head > old(state).head
    {
      Do(StartWait);
      WaitFor(state.head);
      Do(EndWait);
      raised := Check();
      if !raised {
        Do(CheckEnds);
      }
    }

    /** Waits until there is room, or refuses to. */
    method MakeRoom(block: bool) returns (r: Submission)
      requires Valid() && state.producer == Checked(block)
      modifies this
      ensures SameQueue()
      ensures r.Accepted? ==> state.producer == Checked(block) && !Full(limit, state)
      ensures r.CheckRaised? ==> state.producer == Outside && state.raised == old(state).raised + [state.head]
      ensures r.QueueFull? ==> state.producer == Outside && !block && limit.AtMost? && |state.tasks| - state.head >= limit.count
      ensures r.Accepted? || r.CheckRaised? || r.QueueFull?
      ensures !r.CheckRaised? ==> state.raised == old(state).raised
    {
      while Full(limit, state)
        invariant SameQueue() && state.producer == Checked(block) && state.raised == old(state).raised
        decreases |state.tasks| - state.head
      {
        if !block {
          Do(RaiseFull);
          return QueueFull;
        }
        var raised := WaitOnce(block);
        if raised {
          return CheckRaised;
        }
      }
      r := Accepted;
    }

    /** Copies the directory and hands it to the executor, if both work. */
    method HandOver(block: bool, retains: bool, enqueues: bool) returns (r: Submission)
      requires Valid() && state.producer == Checked(block) && !Full(limit, state)
      modifies this
      ensures Valid() && old(events) <= events && state.producer.Outside? && state.closed == old(state).closed
      ensures state.head == old(state).head && state.raised == old(state).raised
      ensures r == if !retains then RetainFailed else if !enqueues then EnqueueFailed else Accepted
      ensures state.created == old(state).created + if retains then 1 else 0
      ensures |state.tasks| == |old(state).tasks| + if r.Accepted? then 1 else 0
      ensures r.Accepted? ==> state.tasks[|old(state).tasks|].dir == old(state).created && old(state).created in state.existing
      ensures r.EnqueueFailed? ==> state.deleted != [] && state.deleted[|state.deleted| - 1] == old(state).created
    {
      Do(Retain(retains));
      if !retains {
        return RetainFailed;
      }
      Meanwhile();
      HeldExists(limit, states, events);
      Do(Enqueue(enqueues));
      r := if enqueues then Accepted else EnqueueFailed;
    }

    /** The check at the start of a submission. */
    method Enter(block: bool) returns (r: Submission)
      requires Valid() && state.producer.Outside? && !state.closed
      modifies this
      ensures SameQueue()
      ensures r.Accepted? || r.CheckRaised?
      ensures r.Accepted? ==> state.producer == Checked(block) && state.raised == old(state).raised
      ensures r.CheckRaised? ==> state.producer.Outside? && state.raised == old(state).raised + [state.head]
    {
      Do(EnterSubmit(block));
      var raised := Check();
      if raised {
        return CheckRaised;
      }
      Do(CheckEnds);
      r := Accepted;
    }

    /** One submission; `retains` and `enqueues` say whether copying the directory and
        handing it to the executor work. */
    method Submit(block: bool, retains: bool, enqueues: bool) returns (r: Submission)
      requires Valid() && state.producer.Outside?
      modifies this
      ensures Valid() && old(events) <= events && state.producer.Outside? && state.closed == old(state).closed
      ensures r.Closed? <==> old(state).closed
      ensures r.Accepted? ==>
                && |state.tasks| == |old(state).tasks| + 1
                && state.tasks[|old(state).tasks|].dir == old(state).created && old(state).created in state.existing
                && (limit.AtMost? ==> |state.tasks| - state.head <= limit.count)
      ensures !r.Accepted? ==> |state.tasks| == |old(state).tasks|
      ensures r.QueueFull? ==> !block && limit.AtMost? && |state.tasks| - state.head >= limit.count
      ensures r.CheckRaised? ==> state.raised == old(state).raised + [state.head]
      ensures r.EnqueueFailed? ==> state.deleted != [] && state.deleted[|state.deleted| - 1] == old(state).created
      ensures (r.RetainFailed? ==> !retains) && (r.EnqueueFailed? ==> !enqueues) && (r.Accepted? ==> retains && enqueues)
    {
      if state.closed {
        return Closed;
      }
      r := Enter(block);
      if r.Accepted? {
        r := MakeRoom(block);
      }
      if r.Accepted? {
        r := HandOver(block, retains, enqueues);
      }
    }

    /** Blocks until every submitted publication is done, and raises the first failure. */
    method Wait() returns (raised: bool)
      requires Valid() && state.producer.Outside?
      modifies this
      ensures SameQueue() && state.producer.Outside?
      ensures raised ==> state.raised == old(state).raised + [state.head]
      ensures !raised ==> state.head == |state.tasks|
    {
      AwaitAll();
      raised := Check();
    }

    method AwaitAll()
      requires Valid()
      modifies this
      ensures OnlyWork() && forall i | 0 <= i < |state.tasks| :: Finished(state.tasks[i])
    {
      var n := 0;
      while n < |state.tasks|
        invariant OnlyWork() && n <= |state.tasks|
        invariant forall i | 0 <= i < n :: Finished(state.tasks[i])
      {
        WaitFor(n);
        n := n + 1;
      }
    }

    /** Cancels what is still queued, if asked to, and waits for the rest. */
    method Shutdown(cancel: bool)
      requires Valid() && state.producer == Closing(cancel) && state.closed
      modifies this
      ensures Valid() && old(events) <= events && state.producer.Outside? && state.closed
      ensures forall t | t in state.tasks :: Finished(t)
    {
      while cancel && NextQueued(state) < |state.tasks|
        invariant Valid() && old(events) <= events && state.producer == Closing(cancel) && state.closed
        decreases WorkLeft(state.tasks)
      {
        CancelGoesDown(limit, state);
        Do(CancelNext);
        Meanwhile();
      }
      AwaitAll();
      Do(EndClose);
    }

    /** Ends the queue: no submission is accepted any more, every task has ended, and no
        retained directory is left. */
    method Close(cancel: bool) returns (raised: bool)
      requires Valid() && state.producer.Outside?
      modifies this
      ensures Valid() && old(events) <= events && state.producer.Outside? && state.closed
      ensures forall t | t in state.tasks :: Finished(t)
      ensures state.existing == {}
      ensures !cancel && !raised ==> state.head == |state.tasks|
    {
      Do(Publisher.Close(cancel));
      Shutdown(cancel);
      raised := false;
      if !cancel {
        raised := Check();
      }
      NoneExists(limit, states, events);
    }
  }

  lemma CancelGoesDown(limit: Limit, s: State)
    requires Enabled(limit, s, CancelNext)
    ensures var t := Apply(limit, s, CancelNext); WorkLeft(t.tasks) < WorkLeft(s.tasks)
  {
    WorkLeftAfter(s.tasks, NextQueued(s), s.tasks[NextQueued(s)].(status := Cancelled));
  }

  lemma NoneExists(limit: Limit, states: seq<State>, events: seq<Event>)
    requires IsRun(limit, states, events)
    requires var s := states[|events|]; s.producer.Outside? && forall t | t in s.tasks :: Finished(t)
    ensures states[|events|].existing == {}
  {
    var s := states[|events|];
    RunInv(limit, states, events, |events|);
    forall d ensures d !in s.existing {
      if d in s.existing {
        var owner := Owner(s, d);
      }
    }
  }

  lemma HeldExists(limit: Limit, states: seq<State>, events: seq<Event>)
    requires IsRun(limit, states, events) && states[|events|].producer.Holding?
    ensures states[|events|].producer.dir in states[|events|].existing
  {
    RunInv(limit, states, events, |events|);
  }
}
