/** How a publication ends, and what follows from it: the outcome of `publish` is the outcome
    of its future, a failure is raised and stops everything behind it, and no future ends in
    any other way. */
module PublisherOutcomes {
  import opened Sequences
  import opened Publisher
  import opened PublisherProofs

  /** The end of the work on a task has been recorded with this outcome. */
  predicate EndedAs(t: Task, ok: bool) {
    t.status == Cleaning(ok) || t.status == Done(ok)
  }

  // ----- single steps -----

  lemma OnlyActive(s: State, a: nat)
    requires InOrder(s.tasks) && a < |s.tasks| && Active(s.tasks[a])
    ensures ActiveTask(s) == a
  {
  }

  /** How a step may move task `k` from one status to the next. */
  predicate Moves(s: State, e: Event, k: nat, status: Status)
    requires k < |s.tasks|
  {
    var t := s.tasks[k];
    match e
    case CancelNext => t.status.Queued? && status == Cancelled && s.producer == Closing(true)
    case Take => t.status.Queued? && status == Started
    case SeePrevious =>
      && t.status.Started?
      && (status == Publishing || (status == Cleaning(false) && k > 0 && Finished(s.tasks[k - 1]) && Failed(s.tasks[k - 1])))
    case PublishEnds(ok) => t.status.Publishing? && status == Cleaning(ok)
    case CleanUp => t.status.Cleaning? && status == Done(t.status.ok)
    case _ => false
  }

  lemma TaskAfter(limit: Limit, s: State, e: Event, k: nat)
    requires Enabled(limit, s, e) && k < |Apply(limit, s, e).tasks|
    ensures var t := Apply(limit, s, e);
            && |s.tasks| <= |t.tasks| <= |s.tasks| + 1
            && (k < |s.tasks| ==> t.tasks[k].status == s.tasks[k].status || Moves(s, e, k, t.tasks[k].status))
            && (k == |s.tasks| ==> t.tasks[k].status.Queued?)
  {
  }

  /** What `publish` did is what the future records. */
  lemma OutcomeIsRecorded(limit: Limit, s: State, a: nat, ok: bool)
    requires Inv(limit, s) && Enabled(limit, s, PublishEnds(ok)) && a < |s.tasks| && s.tasks[a].status.Publishing?
    ensures var t := Apply(limit, s, PublishEnds(ok)); a < |t.tasks| && EndedAs(t.tasks[a], ok)
  {
    OnlyActive(s, a);
  }

  lemma OutcomeStays(limit: Limit, s: State, e: Event, a: nat, ok: bool)
    requires Enabled(limit, s, e) && a < |s.tasks| && EndedAs(s.tasks[a], ok)
    ensures var t := Apply(limit, s, e); a < |t.tasks| && EndedAs(t.tasks[a], ok)
  {
    TasksStay(limit, s, e);
    TaskAfter(limit, s, e, a);
  }

  lemma TasksStay(limit: Limit, s: State, e: Event)
    requires Enabled(limit, s, e)
    ensures |s.tasks| <= |Apply(limit, s, e).tasks|
  {
  }

  // ----- from the end of a publication on -----

  /** The outcome of a publication is that of its future ever after. */
  lemma {:induction false} OutcomeIsKept(limit: Limit, states: seq<State>, events: seq<Event>, i: nat, j: nat, a: nat, ok: bool)
    requires IsRun(limit, states, events) && i < j < |states| && events[i] == PublishEnds(ok)
    requires a < |states[i].tasks| && states[i].tasks[a].status.Publishing?
    ensures a < |states[j].tasks| && EndedAs(states[j].tasks[a], ok)
  {
    if i + 1 == j {
      RunInv(limit, states, events, i);
      OutcomeIsRecorded(limit, states[i], a, ok);
    } else {
      OutcomeIsKept(limit, states, events, i, j - 1, a, ok);
      OutcomeStays(limit, states[j - 1], events[j - 1], a, ok);
    }
  }

  lemma CheckMeetsFailure(limit: Limit, s: State)
    requires s.head < |s.tasks| && s.tasks[s.head].status == Done(false)
    ensures !Enabled(limit, s, PopHead) && !Enabled(limit, s, CheckEnds)
    ensures MayCheck(s.producer) ==> Enabled(limit, s, CheckRaises)
  {
  }

  /** Once `publish` has raised, its future never counts as a success, nothing behind it is
      published, it never leaves the deque, and a check that meets it can only raise. */
  lemma FailureStopsPublishing(limit: Limit, states: seq<State>, events: seq<Event>, i: nat, j: nat, a: nat)
    requires IsRun(limit, states, events) && i < j < |states| && events[i] == PublishEnds(false)
    requires a < |states[i].tasks| && states[i].tasks[a].status.Publishing?
    ensures var s := states[j];
            && a < |s.tasks| && (s.tasks[a].status == Cleaning(false) || s.tasks[a].status == Done(false))
            && (forall k | k in s.published :: k <= a)
            && s.head <= a
            && (s.head == a && s.tasks[a].status.Done? ==>
                  && !Enabled(limit, s, PopHead) && !Enabled(limit, s, CheckEnds)
                  && (MayCheck(s.producer) ==> Enabled(limit, s, CheckRaises)))
  {
    OutcomeIsKept(limit, states, events, i, j, a, false);
    PublicationOrder(limit, states, events, j);
    RunInv(limit, states, events, j);
    var s := states[j];
    assert Failed(s.tasks[a]) && !Succeeded(s.tasks[a]);
    if s.head == a && s.tasks[a].status.Done? {
      CheckMeetsFailure(limit, s);
    }
  }

  // ----- and back to it -----

  /** Why a task ended as it did: `publish` ended so, or it was never called because the
      task before had failed. */
  ghost predicate EndsBecause(s: State, e: Event, a: nat, ok: bool) {
    && a < |s.tasks|
    && (if e == SeePrevious then !ok && s.tasks[a].status.Started? && a > 0 && Finished(s.tasks[a - 1]) && Failed(s.tasks[a - 1])
        else e == PublishEnds(ok) && s.tasks[a].status.Publishing?)
  }

  lemma EndsNow(limit: Limit, s: State, e: Event, a: nat, ok: bool)
    requires Enabled(limit, s, e)
    requires var t := Apply(limit, s, e); a < |t.tasks| && EndedAs(t.tasks[a], ok)
    requires a < |s.tasks| ==> !EndedAs(s.tasks[a], ok)
    ensures EndsBecause(s, e, a, ok)
  {
    TaskAfter(limit, s, e, a);
  }

  /** A future that has ended has done so for one of these reasons: a success was a
      publication that succeeded, a failure one that raised or one behind a failure. */
  lemma {:induction false} OutcomeHasCause(limit: Limit, states: seq<State>, events: seq<Event>, j: nat, a: nat, ok: bool) returns (i: nat)
    requires IsRun(limit, states, events) && j < |states| && a < |states[j].tasks| && EndedAs(states[j].tasks[a], ok)
    ensures i < j && EndsBecause(states[i], events[i], a, ok)
  {
    if a < |states[j - 1].tasks| && EndedAs(states[j - 1].tasks[a], ok) {
      i := OutcomeHasCause(limit, states, events, j - 1, a, ok);
    } else {
      EndsNow(limit, states[j - 1], events[j - 1], a, ok);
      i := j - 1;
    }
  }

  lemma CancelsNow(limit: Limit, s: State, e: Event, a: nat)
    requires Enabled(limit, s, e)
    requires var t := Apply(limit, s, e); a < |t.tasks| && t.tasks[a].status.Cancelled?
    requires a < |s.tasks| ==> !s.tasks[a].status.Cancelled?
    ensures e.CancelNext? && s.producer == Closing(true) && a < |s.tasks| && s.tasks[a].status.Queued?
  {
    TaskAfter(limit, s, e, a);
  }

  /** A task is cancelled only while it is queued, by a `close` that cancels. */
  lemma {:induction false} CancelHasCause(limit: Limit, states: seq<State>, events: seq<Event>, j: nat, a: nat) returns (i: nat)
    requires IsRun(limit, states, events) && j < |states| && a < |states[j].tasks| && states[j].tasks[a].status.Cancelled?
    ensures i < j && events[i] == CancelNext && states[i].producer == Closing(true)
    ensures a < |states[i].tasks| && states[i].tasks[a].status.Queued?
  {
    if a < |states[j - 1].tasks| && states[j - 1].tasks[a].status.Cancelled? {
      i := CancelHasCause(limit, states, events, j - 1, a);
    } else {
      CancelsNow(limit, states[j - 1], events[j - 1], a);
      i := j - 1;
    }
  }
}
