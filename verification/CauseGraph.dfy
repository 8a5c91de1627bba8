/** The exceptions an exception wraps, on any graph of causes, cyclic ones included. */
module CauseGraph {
  import opened Sequences
  import opened Reachability

  datatype Link = Absent | To(id: nat)

  /** An exception: `__cause__`, `__context__`, the members of a group, the failures of a
      `CheckpointException`, and whether it is itself a disk error. */
  datatype Failure = Failure(cause: Link, context: Link, exceptions: seq<Link>, failures: seq<Link>, disk: bool, checkpoint: bool)

  /** Exceptions by identity. One that is not listed wraps nothing. */
  type Heap = map<nat, Failure>

  const PLAIN := Failure(Absent, Absent, [], [], false, false)

  function At(h: Heap, id: nat): Failure {
    if id in h then h[id] else PLAIN
  }

  /** In the order in which they are pushed. */
  function Links(h: Heap, id: nat): seq<Link> {
    [At(h, id).cause, At(h, id).context] + At(h, id).exceptions + At(h, id).failures
  }

  function Targets(links: seq<Link>): set<nat> {
    set l | l in links && l.To? :: l.id
  }

  /** What an exception wraps directly. */
  function Wrapped(h: Heap): nat -> set<nat> {
    id => Targets(Links(h, id))
  }

  /** That is its cause, its context, the members of its group and its recorded failures. */
  lemma WrappedIs(h: Heap, id: nat, other: nat)
    ensures other in Wrapped(h)(id) <==>
            && id in h
            && (h[id].cause == To(other) || h[id].context == To(other) || To(other) in h[id].exceptions || To(other) in h[id].failures)
  {
    assert other in Wrapped(h)(id) <==> To(other) in Links(h, id);
  }

  ghost predicate IsDisk(h: Heap, exc: nat) {
    exists id :: Reaches(Wrapped(h), exc, id) && At(h, id).disk
  }

  // ----- the search -----

  /** Everything there is: the bound on the search. */
  function Universe(h: Heap, exc: nat): set<nat> {
    {exc} + set k, l | k in h && l in Links(h, k) && l.To? :: l.id
  }

  lemma LinksStayInside(h: Heap, exc: nat, id: nat)
    ensures Targets(Links(h, id)) <= Universe(h, exc)
  {
  }

  /** What has been yielded, and what the stack still holds. */
  ghost predicate Searching(h: Heap, exc: nat, stack: seq<Link>, seen: set<nat>, order: seq<nat>) {
    && Distinct(order) && (forall id :: id in order <==> id in seen)
    && (forall id | id in seen :: Reaches(Wrapped(h), exc, id))
    && (forall id | id in Targets(stack) :: Reaches(Wrapped(h), exc, id) && id in Universe(h, exc))
    && (forall id, other | id in seen && other in Targets(Links(h, id)) :: other in seen || other in Targets(stack))
  }

  lemma TargetsOfPush(stack: seq<Link>, links: seq<Link>)
    ensures Targets(stack + links) == Targets(stack) + Targets(links)
  {
  }

  lemma TargetsOfPop(stack: seq<Link>)
    requires stack != []
    ensures var top := stack[|stack| - 1];
            Targets(stack) == Targets(stack[..|stack| - 1]) + if top.To? then {top.id} else {}
  {
  }

  lemma Skipped(h: Heap, exc: nat, stack: seq<Link>, seen: set<nat>, order: seq<nat>)
    requires Searching(h, exc, stack, seen, order) && stack != []
    requires var top := stack[|stack| - 1]; top.Absent? || top.id in seen
    ensures Searching(h, exc, stack[..|stack| - 1], seen, order)
  {
  }

  lemma Yielded(h: Heap, exc: nat, stack: seq<Link>, seen: set<nat>, order: seq<nat>, id: nat)
    requires Searching(h, exc, stack, seen, order) && stack != [] && stack[|stack| - 1] == To(id) && id !in seen
    ensures id in Universe(h, exc)
    ensures Searching(h, exc, stack[..|stack| - 1] + Links(h, id), seen + {id}, order + [id])
  {
    var rest := stack[..|stack| - 1];
    TargetsOfPop(stack);
    TargetsOfPush(rest, Links(h, id));
    LinksStayInside(h, exc, id);
    forall t | t in Targets(Links(h, id)) ensures Reaches(Wrapped(h), exc, t) {
      ReachesNext(Wrapped(h), exc, id, t);
    }
  }

  /** Every exception that `exc` wraps, itself first, each exactly once. */
  method Causes(h: Heap, exc: nat) returns (order: seq<nat>)
    ensures order != [] && order[0] == exc
    ensures Distinct(order)
    ensures forall id :: id in order <==> Reaches(Wrapped(h), exc, id)
  {
    var seen: set<nat> := {};
    var stack := [To(exc)];
    order := [];
    ReachesItself(Wrapped(h), exc);
    while stack != []
      invariant Searching(h, exc, stack, seen, order)
      invariant if order == [] then stack == [To(exc)] else order[0] == exc
      decreases Universe(h, exc) - seen, |stack|
    {
      var current := stack[|stack| - 1];
      if current.Absent? || current.id in seen {
        Skipped(h, exc, stack, seen, order);
        stack := stack[..|stack| - 1];
      } else {
        Yielded(h, exc, stack, seen, order, current.id);
        stack := stack[..|stack| - 1] + Links(h, current.id);
        seen := seen + {current.id};
        order := order + [current.id];
      }
    }
    assert exc in order;
    forall id | Reaches(Wrapped(h), exc, id) ensures id in order {
      ClosedHasAll(Wrapped(h), seen, exc, id);
    }
  }

  method IsDiskError(h: Heap, exc: nat) returns (disk: bool)
    ensures disk <==> IsDisk(h, exc)
  {
    var order := Causes(h, exc);
    for i := 0 to |order|
      invariant forall k | 0 <= k < i :: !At(h, order[k]).disk
    {
      if At(h, order[i]).disk {
        assert order[i] in order;
        return true;
      }
    }
    disk := false;
  }
}
