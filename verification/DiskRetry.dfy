/** Writers retried after disk errors: only the outermost of nested writers retries. */
module DiskRetry {
  import opened CauseGraph

  datatype Outcome = Returned | Raised(exc: nat)

  /** One run of a writer's body: the wrapped writers it calls, and how it ends. */
  datatype Run = Run(nested: seq<Call>, outcome: Outcome)

  /** A wrapped call: what its body does the first time, and each time it is run again;
      after that it behaves as it did last. */
  datatype Call = Call(collective: bool, first: Run, again: seq<Run>)

  datatype Policy = NoPolicy | Retries(waitSeconds: int, count: int)

  datatype Effect = Body(nested: bool) | Sleep(seconds: int)

  function RunAt(c: Call, attempt: nat): Run {
    if attempt == 0 || c.again == [] then c.first
    else if attempt <= |c.again| then c.again[attempt - 1]
    else c.again[|c.again| - 1]
  }

  ghost predicate Retried(h: Heap, p: Policy, c: Call, attempt: nat) {
    var o := RunAt(c, attempt).outcome;
    && o.Raised? && p.Retries? && attempt < p.count
    && IsDisk(h, o.exc) && (c.collective ==> At(h, o.exc).checkpoint)
  }

  // ----- the specification: what an outermost call does -----

  /** A nested writer passes straight through to its body. */
  function BodyEffects(run: Run, nested: bool): seq<Effect> {
    [Body(nested)] + NestedEffects(run.nested)
  }

  function NestedEffects(calls: seq<Call>): seq<Effect> {
    if calls == [] then [] else BodyEffects(calls[0].first, true) + NestedEffects(calls[1..])
  }

  /** The attempt at which the call ends: the first that is not retried. */
  ghost function LastAttempt(h: Heap, p: Policy, c: Call, from: nat): (last: nat)
    ensures from <= last && !Retried(h, p, c, last)
    ensures forall k | from <= k < last :: Retried(h, p, c, k)
    decreases if p.Retries? then p.count - from else 0
  {
    if Retried(h, p, c, from) then LastAttempt(h, p, c, from + 1) else from
  }

  function Pause(p: Policy): seq<Effect> {
    if p.Retries? then [Sleep(p.waitSeconds)] else []
  }

  /** Runs of the body with a pause between every two. */
  function Attempts(p: Policy, c: Call, last: nat): seq<Effect> {
    if last == 0 then BodyEffects(RunAt(c, 0), false)
    else Attempts(p, c, last - 1) + Pause(p) + BodyEffects(RunAt(c, last), false)
  }

  ghost function Effects(h: Heap, p: Policy, c: Call, nested: bool): seq<Effect> {
    if nested then BodyEffects(c.first, true) else Attempts(p, c, LastAttempt(h, p, c, 0))
  }

  ghost function ResultOf(h: Heap, p: Policy, c: Call, nested: bool): Outcome {
    if nested then c.first.outcome else RunAt(c, LastAttempt(h, p, c, 0)).outcome
  }

  // ----- the writers -----

  function BeforeAttempt(p: Policy, c: Call, attempt: nat): seq<Effect> {
    if attempt == 0 then [] else Attempts(p, c, attempt - 1) + Pause(p)
  }

  lemma AttemptFollows(p: Policy, c: Call, done: seq<Effect>, attempt: nat)
    ensures done + BeforeAttempt(p, c, attempt) + BodyEffects(RunAt(c, attempt), false) == done + Attempts(p, c, attempt)
    ensures p.Retries? ==> done + Attempts(p, c, attempt) + [Sleep(p.waitSeconds)] == done + BeforeAttempt(p, c, attempt + 1)
  {
  }

  lemma StopsAtLast(h: Heap, p: Policy, c: Call, attempt: nat)
    requires forall k | 0 <= k < attempt :: Retried(h, p, c, k)
    ensures attempt <= LastAttempt(h, p, c, 0)
    ensures Retried(h, p, c, attempt) <==> attempt < LastAttempt(h, p, c, 0)
  {
  }

  /** The state of one thread: how many wrapped writers are being retried around the
      current point, and what has happened so far. */
  class WriterThread {
    const heap: Heap
    const policy: Policy
    var retrying: nat
    ghost var done: seq<Effect>

    constructor (heap: Heap, policy: Policy)
      ensures this.heap == heap && this.policy == policy && retrying == 0 && done == []
    {
      this.heap, this.policy := heap, policy;
      retrying := 0;
      done := [];
    }

    /** The wrapped writers a body calls, one after the other. */
    method CallNested(calls: seq<Call>)
      requires retrying > 0
      modifies this
      ensures retrying == old(retrying)
      ensures done == old(done) + NestedEffects(calls)
      decreases calls, 0
    {
      if calls != [] {
        var _ := Retry(calls[0]);
        CallNested(calls[1..]);
      }
    }

    method RunBody(run: Run, nested: bool) returns (outcome: Outcome)
      requires retrying > 0
      modifies this
      ensures retrying == old(retrying)
      ensures outcome == run.outcome
      ensures done == old(done) + BodyEffects(run, nested)
      decreases run, 0
    {
      done := done + [Body(nested)];
      CallNested(run.nested);
      outcome := run.outcome;
    }

    /** Whether the `except` branch goes round again instead of raising. */
    method MayRetry(c: Call, attempt: nat, outcome: Outcome) returns (again: bool)
      requires outcome == RunAt(c, attempt).outcome
      ensures again <==> Retried(heap, policy, c, attempt)
    {
      if outcome.Returned? {
        return false;
      }
      var disk := IsDiskError(heap, outcome.exc);
      again := !(policy.NoPolicy? || attempt >= policy.count || !disk || (c.collective && !At(heap, outcome.exc).checkpoint));
    }

    /** The counter comes back to where it was, however the call ends. */
    method Retry(c: Call) returns (outcome: Outcome)
      modifies this
      ensures retrying == old(retrying)
      ensures done == old(done) + Effects(heap, policy, c, old(retrying) > 0)
      ensures outcome == ResultOf(heap, policy, c, old(retrying) > 0)
      decreases c, 0
    {
      if retrying > 0 {
        outcome := RunBody(c.first, true);
        return;
      }
      var attempt := 0;
      while true
        invariant retrying == 0
        invariant forall k | 0 <= k < attempt :: Retried(heap, policy, c, k)
        invariant done == old(done) + BeforeAttempt(policy, c, attempt)
        decreases LastAttempt(heap, policy, c, 0) - attempt
      {
        StopsAtLast(heap, policy, c, attempt);
        AttemptFollows(policy, c, old(done), attempt);
        retrying := retrying + 1;
        outcome := RunBody(RunAt(c, attempt), false);
        var again := MayRetry(c, attempt, outcome);
        if !again {
          retrying := retrying - 1;
          return;
        }
        attempt := attempt + 1;
        done := done + [Sleep(policy.waitSeconds)];
        retrying := retrying - 1;
      }
    }
  }

  // ----- what retrying promises -----

  function Sleeps(effects: seq<Effect>): nat {
    if effects == [] then 0 else (if effects[0].Sleep? then 1 else 0) + Sleeps(effects[1..])
  }

  function OuterRuns(effects: seq<Effect>): nat {
    if effects == [] then 0 else (if effects[0] == Body(false) then 1 else 0) + OuterRuns(effects[1..])
  }

  function NestedRuns(effects: seq<Effect>): nat {
    if effects == [] then 0 else (if effects[0] == Body(true) then 1 else 0) + NestedRuns(effects[1..])
  }

  lemma {:induction false} CountsAdd(a: seq<Effect>, b: seq<Effect>)
    ensures Sleeps(a + b) == Sleeps(a) + Sleeps(b)
    ensures OuterRuns(a + b) == OuterRuns(a) + OuterRuns(b)
    ensures NestedRuns(a + b) == NestedRuns(a) + NestedRuns(b)
  {
    if a == [] {
      assert a + b == b;
    } else {
      assert (a + b)[1..] == a[1..] + b;
      CountsAdd(a[1..], b);
    }
  }

  /** The wrapped writers inside one run of a body. */
  function Writers(run: Run): nat {
    WritersIn(run.nested)
  }

  function WritersIn(calls: seq<Call>): nat {
    if calls == [] then 0 else 1 + Writers(calls[0].first) + WritersIn(calls[1..])
  }

  /** A nested writer runs its body once and never sleeps. */
  lemma {:induction false} NestedRunOnce(calls: seq<Call>)
    ensures Sleeps(NestedEffects(calls)) == 0 && OuterRuns(NestedEffects(calls)) == 0
    ensures NestedRuns(NestedEffects(calls)) == WritersIn(calls)
  {
    if calls == [] {
    } else {
      BodyCounts(calls[0].first, true);
      NestedRunOnce(calls[1..]);
      CountsAdd(BodyEffects(calls[0].first, true), NestedEffects(calls[1..]));
    }
  }

  lemma {:induction false} BodyCounts(run: Run, nested: bool)
    ensures Sleeps(BodyEffects(run, nested)) == 0
    ensures OuterRuns(BodyEffects(run, nested)) == if nested then 0 else 1
    ensures NestedRuns(BodyEffects(run, nested)) == Writers(run) + if nested then 1 else 0
  {
    NestedRunOnce(run.nested);
    CountsAdd([Body(nested)], NestedEffects(run.nested));
  }

  /** Writers called by the bodies of the first attempts, through `last`. */
  function WritersThrough(c: Call, last: nat): nat {
    Writers(RunAt(c, last)) + if last == 0 then 0 else WritersThrough(c, last - 1)
  }

  lemma {:induction false} AttemptCounts(p: Policy, c: Call, last: nat)
    requires last > 0 ==> p.Retries?
    ensures Sleeps(Attempts(p, c, last)) == last
    ensures OuterRuns(Attempts(p, c, last)) == last + 1
    ensures NestedRuns(Attempts(p, c, last)) == WritersThrough(c, last)
  {
    BodyCounts(RunAt(c, last), false);
    if last == 0 {
    } else {
      AttemptCounts(p, c, last - 1);
      var before := Attempts(p, c, last - 1);
      CountsAdd(before, Pause(p));
      CountsAdd(before + Pause(p), BodyEffects(RunAt(c, last), false));
    }
  }

  /** An outermost call runs its body at most `retries` + 1 times and sleeps once between
      every two runs; the writers nested in it run once for each run of the body around
      them, so their waits do not multiply. */
  lemma OutermostIsBounded(h: Heap, p: Policy, c: Call)
    ensures var effects, last := Effects(h, p, c, false), LastAttempt(h, p, c, 0);
            && OuterRuns(effects) == last + 1
            && Sleeps(effects) == last
            && NestedRuns(effects) == WritersThrough(c, last)
            && last <= (if p.Retries? && p.count > 0 then p.count else 0)
  {
    var last := LastAttempt(h, p, c, 0);
    if last > 0 {
      assert Retried(h, p, c, last - 1);
    }
    AttemptCounts(p, c, last);
  }

  lemma {:induction false} NestedEffectsAreBodies(calls: seq<Call>)
    ensures forall e | e in NestedEffects(calls) :: e == Body(true)
  {
    if calls == [] {
    } else {
      NestedEffectsAreBodies(calls[0].first.nested);
      NestedEffectsAreBodies(calls[1..]);
      assert NestedEffects(calls) == [Body(true)] + NestedEffects(calls[0].first.nested) + NestedEffects(calls[1..]);
    }
  }

  /** An outermost call starts with its body, sleeps as long as the policy says, and after
      each sleep runs its body again. */
  ghost predicate WellPaced(effects: seq<Effect>, wait: int) {
    && effects != [] && effects[0] == Body(false) && !effects[|effects| - 1].Sleep?
    && (forall e | e in effects && e.Sleep? :: e.seconds == wait)
    && forall i | 0 <= i < |effects| - 1 :: effects[i].Sleep? <==> effects[i + 1] == Body(false)
  }

  lemma {:induction false} AttemptsArePaced(p: Policy, c: Call, last: nat)
    requires p.Retries?
    ensures WellPaced(Attempts(p, c, last), p.waitSeconds)
  {
    var run := RunAt(c, last);
    NestedEffectsAreBodies(run.nested);
    BodyIsPaced(run, p.waitSeconds);
    if last == 0 {
    } else {
      AttemptsArePaced(p, c, last - 1);
      PacedAgain(Attempts(p, c, last - 1), BodyEffects(run, false), p.waitSeconds);
    }
  }

  lemma BodyIsPaced(run: Run, wait: int)
    requires forall e | e in NestedEffects(run.nested) :: e == Body(true)
    ensures WellPaced(BodyEffects(run, false), wait)
  {
    var nested := NestedEffects(run.nested);
    assert forall i | 0 <= i < |nested| :: nested[i] in nested;
  }

  lemma PacedAgain(a: seq<Effect>, b: seq<Effect>, wait: int)
    requires WellPaced(a, wait) && WellPaced(b, wait)
    ensures WellPaced(a + [Sleep(wait)] + b, wait)
  {
  }

  /** So does the whole call, for any policy that retries and any nesting. */
  lemma OutermostIsPaced(h: Heap, p: Policy, c: Call)
    requires p.Retries?
    ensures WellPaced(Effects(h, p, c, false), p.waitSeconds)
  {
    AttemptsArePaced(p, c, LastAttempt(h, p, c, 0));
  }

  /** The outcome is that of the last attempt, every earlier one ended in a disk error (for a
      collective writer also a `CheckpointException`), and a failure comes out only when it
      may not be retried. */
  lemma OutcomeIsLast(h: Heap, p: Policy, c: Call)
    ensures var last, o := LastAttempt(h, p, c, 0), ResultOf(h, p, c, false);
            && o == RunAt(c, last).outcome
            && (forall k | 0 <= k < last :: RunAt(c, k).outcome.Raised? && IsDisk(h, RunAt(c, k).outcome.exc))
            && (c.collective ==> forall k | 0 <= k < last :: RunAt(c, k).outcome.Raised? && At(h, RunAt(c, k).outcome.exc).checkpoint)
            && (o.Raised? ==>
                  || p.NoPolicy? || last == (if p.count > 0 then p.count else 0)
                  || !IsDisk(h, o.exc) || (c.collective && !At(h, o.exc).checkpoint))
  {
    var last := LastAttempt(h, p, c, 0);
    forall k | 0 <= k < last
      ensures RunAt(c, k).outcome.Raised? && IsDisk(h, RunAt(c, k).outcome.exc)
      ensures c.collective ==> At(h, RunAt(c, k).outcome.exc).checkpoint
    {
      assert Retried(h, p, c, k);
    }
    if last > 0 {
      assert Retried(h, p, c, last - 1);
    }
  }

  /** Another retry can only help: with a larger count the call returns whenever it did. */
  lemma MoreRetriesNeverHurt(h: Heap, wait: int, few: int, many: int, c: Call)
    requires few <= many && ResultOf(h, Retries(wait, few), c, false).Returned?
    ensures ResultOf(h, Retries(wait, many), c, false) == Returned
    ensures Effects(h, Retries(wait, many), c, false) == Effects(h, Retries(wait, few), c, false)
  {
    var p, q := Retries(wait, few), Retries(wait, many);
    var m, n := LastAttempt(h, p, c, 0), LastAttempt(h, q, c, 0);
    forall k | 0 <= k < m ensures Retried(h, q, c, k) {
      assert Retried(h, p, c, k);
    }
    StopsAtLast(h, q, c, m);
    SamePauses(p, q, c, m);
  }

  lemma {:induction false} SamePauses(p: Policy, q: Policy, c: Call, last: nat)
    requires Pause(p) == Pause(q)
    ensures Attempts(p, c, last) == Attempts(q, c, last)
  {
    if last == 0 {
    } else {
      SamePauses(p, q, c, last - 1);
    }
  }
}
