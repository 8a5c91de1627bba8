/** What can be reached in a graph given by the successors of each node, cycles allowed. */
module Reachability {

  ghost predicate Walk<T>(next: T -> set<T>, path: seq<T>) {
    path != [] && forall i | 0 <= i < |path| - 1 :: path[i + 1] in next(path[i])
  }

  ghost predicate WalksTo<T>(next: T -> set<T>, from: T, path: seq<T>, to: T) {
    Walk(next, path) && path[0] == from && path[|path| - 1] == to
  }

  ghost predicate Reaches<T(!new)>(next: T -> set<T>, from: T, to: T) {
    exists path :: WalksTo(next, from, path, to)
  }

  lemma ReachesItself<T(!new)>(next: T -> set<T>, from: T)
    ensures Reaches(next, from, from)
  {
    assert WalksTo(next, from, [from], from);
  }

  lemma ReachesNext<T(!new)>(next: T -> set<T>, from: T, node: T, to: T)
    requires Reaches(next, from, node) && to in next(node)
    ensures Reaches(next, from, to)
  {
    var path :| WalksTo(next, from, path, node);
    assert WalksTo(next, from, path + [to], to);
  }

  ghost predicate Closed<T>(next: T -> set<T>, found: set<T>) {
    forall node | node in found :: next(node) <= found
  }

  lemma {:induction false} ClosedHasWalk<T>(next: T -> set<T>, found: set<T>, path: seq<T>)
    requires Closed(next, found) && Walk(next, path) && path[0] in found
    ensures path[|path| - 1] in found
  {
    if |path| == 1 {
    } else {
      assert path[1] in next(path[0]);
      ClosedHasWalk(next, found, path[1..]);
    }
  }

  /** A set that holds the successors of all its members holds everything they reach. */
  lemma ClosedHasAll<T(!new)>(next: T -> set<T>, found: set<T>, from: T, to: T)
    requires Closed(next, found) && from in found && Reaches(next, from, to)
    ensures to in found
  {
    var path :| WalksTo(next, from, path, to);
    ClosedHasWalk(next, found, path);
  }
}
