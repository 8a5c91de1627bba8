/** Which tests a change to a source module can reach, climbing through its importers. */
module ImpactGraph {
  import opened Reachability

  /** Edges a module carries itself: none, the whole scope, or some tests. */
  datatype Edges = NoEdges | WholeScope | Tests(tests: set<string>)

  /** The importers of each module, and the edges `_compute_own_edges` finds for it. */
  datatype Graph = Graph(importers: map<string, set<string>>, own: string -> Edges)

  datatype Impact = All | Only(tests: set<string>)

  function Importers(g: Graph, m: string): set<string> {
    if m in g.importers then g.importers[m] else {}
  }

  /** `m` and every importer there is. */
  function Modules(g: Graph, m: string): set<string> {
    {m} + set k, p | k in g.importers && p in g.importers[k] :: p
  }

  /** A climb goes on to the importers of a module only when it has no edges. */
  function Parents(g: Graph): string -> set<string> {
    m => if g.own(m).NoEdges? then Importers(g, m) else {}
  }

  /** A module with edges at which a climb from `rel` ends. */
  ghost predicate Explains(g: Graph, rel: string, m: string) {
    Reaches(Parents(g), rel, m) && !g.own(m).NoEdges?
  }

  ghost predicate DemandsAll(g: Graph, rel: string) {
    || (exists m :: Explains(g, rel, m) && g.own(m).WholeScope?)
    || (forall m :: !Explains(g, rel, m))
  }

  /** The tests of everything that explains `rel`, or the whole scope. */
  ghost function ImpactOf(g: Graph, rel: string): Impact {
    if DemandsAll(g, rel) then All
    else Only(set m, t | m in Modules(g, rel) && Explains(g, rel, m) && g.own(m).Tests? && t in g.own(m).tests :: t)
  }

  // ----- what explains a module -----

  /** The impact said in terms of paths: a climb goes from a module without edges to one that
      imports it, and every module with edges that ends a climb counts. */
  ghost predicate ClimbEndsAt(g: Graph, rel: string, path: seq<string>, m: string) {
    && path != [] && path[0] == rel && path[|path| - 1] == m && !g.own(m).NoEdges?
    && forall i | 0 <= i < |path| - 1 ::
         g.own(path[i]).NoEdges? && path[i] in g.importers && path[i + 1] in g.importers[path[i]]
  }

  lemma PathOf(g: Graph, rel: string, m: string) returns (path: seq<string>)
    requires Explains(g, rel, m)
    ensures ClimbEndsAt(g, rel, path, m)
  {
    path :| WalksTo(Parents(g), rel, path, m);
    forall i | 0 <= i < |path| - 1
      ensures g.own(path[i]).NoEdges? && path[i] in g.importers && path[i + 1] in g.importers[path[i]]
    {
      assert path[i + 1] in Parents(g)(path[i]);
    }
  }

  lemma PathExplains(g: Graph, rel: string, path: seq<string>, m: string)
    requires ClimbEndsAt(g, rel, path, m)
    ensures Explains(g, rel, m) && m in Modules(g, rel)
  {
    assert WalksTo(Parents(g), rel, path, m);
    ReachedIsModule(g, rel, m);
  }

  lemma DemandsByPaths(g: Graph, rel: string)
    ensures ImpactOf(g, rel).All? <==>
            || (exists path, m :: ClimbEndsAt(g, rel, path, m) && g.own(m).WholeScope?)
            || (forall path, m :: !ClimbEndsAt(g, rel, path, m))
  {
    if m :| Explains(g, rel, m) && g.own(m).WholeScope? {
      var path := PathOf(g, rel, m);
    } else if m :| Explains(g, rel, m) {
      var path := PathOf(g, rel, m);
    }
    forall path, m | ClimbEndsAt(g, rel, path, m) ensures Explains(g, rel, m) {
      PathExplains(g, rel, path, m);
    }
  }

  /** Said by climbs: a changed module selects the tests of every module with edges at the end
      of a climb through modules without, and forces the whole scope exactly when one of
      those demands it or there is no such climb. */
  lemma ImpactByPaths(g: Graph, rel: string, t: string)
    ensures ImpactOf(g, rel).All? <==>
            || (exists path, m :: ClimbEndsAt(g, rel, path, m) && g.own(m).WholeScope?)
            || (forall path, m :: !ClimbEndsAt(g, rel, path, m))
    ensures ImpactOf(g, rel).Only? ==>
              (t in ImpactOf(g, rel).tests <==>
               exists path, m :: ClimbEndsAt(g, rel, path, m) && g.own(m).Tests? && t in g.own(m).tests)
  {
    DemandsByPaths(g, rel);
    if ImpactOf(g, rel).Only? {
      if t in ImpactOf(g, rel).tests {
        var m :| Explains(g, rel, m) && g.own(m).Tests? && t in g.own(m).tests;
        var path := PathOf(g, rel, m);
      }
      forall path, m | ClimbEndsAt(g, rel, path, m) ensures Explains(g, rel, m) && m in Modules(g, rel) {
        PathExplains(g, rel, path, m);
      }
    }
  }

  const CYCLE := Graph(map["a" := {"b"}, "b" := {"a", "c"}, "c" := {"d"}],
                       m => if m == "c" then Tests({"test_c"}) else if m == "d" then WholeScope else NoEdges)

  /** On a cycle of modules without edges the climb goes on to the module that has some, and
      no further. */
  lemma CycleExample()
    ensures ImpactOf(CYCLE, "a") == Only({"test_c"})
  {
    var found := {"a", "b", "c"};
    ReachesItself(Parents(CYCLE), "a");
    ReachesNext(Parents(CYCLE), "a", "a", "b");
    ReachesNext(Parents(CYCLE), "a", "b", "c");
    assert Closed(Parents(CYCLE), found);
    assert Collected(CYCLE, ["c"], {"test_c"}) by {
      assert "c" in ["c"];
    }
    WalkIsComplete(CYCLE, "a", found, ["c"], {"test_c"});
  }

  lemma ReachedIsModule(g: Graph, rel: string, m: string)
    requires Reaches(Parents(g), rel, m)
    ensures m in Modules(g, rel)
  {
    ClosedHasAll(Parents(g), Modules(g, rel), rel, m);
  }

  /** A module with edges of its own is explained by itself alone. */
  lemma OwnEdgesDecide(g: Graph, rel: string)
    requires !g.own(rel).NoEdges?
    ensures forall m :: Reaches(Parents(g), rel, m) <==> m == rel
    ensures ImpactOf(g, rel) == if g.own(rel).WholeScope? then All else Only(g.own(rel).tests)
  {
    ReachesItself(Parents(g), rel);
    forall m | Reaches(Parents(g), rel, m) ensures m == rel {
      ClosedHasAll(Parents(g), {rel}, rel, m);
    }
    assert Explains(g, rel, rel);
  }

  // ----- what a finished walk has found -----

  /** The tests of the modules in `explained`, all of which have tests. */
  ghost predicate Collected(g: Graph, explained: seq<string>, hits: set<string>) {
    && (forall m | m in explained :: g.own(m).Tests?)
    && (forall t :: t in hits <==> exists m :: m in explained && t in g.own(m).tests)
  }

  lemma WalkIsComplete(g: Graph, rel: string, found: set<string>, explained: seq<string>, hits: set<string>)
    requires rel in found && Closed(Parents(g), found) && Collected(g, explained, hits)
    requires forall m | m in found :: Reaches(Parents(g), rel, m)
    requires forall m :: m in explained <==> m in found && !g.own(m).NoEdges?
    ensures ImpactOf(g, rel) == if explained == [] then All else Only(hits)
  {
    forall m ensures Explains(g, rel, m) <==> m in explained {
      if Explains(g, rel, m) {
        ClosedHasAll(Parents(g), found, rel, m);
      }
    }
    if explained != [] {
      assert explained[0] in explained;
      forall m | Explains(g, rel, m) ensures m in Modules(g, rel) {
        ReachedIsModule(g, rel, m);
      }
      assert ImpactOf(g, rel).tests == hits;
    }
  }

  lemma WholeScopeReached(g: Graph, rel: string, m: string)
    requires Reaches(Parents(g), rel, m) && g.own(m).WholeScope?
    ensures ImpactOf(g, rel) == All
  {
  }

  lemma NoImporters(g: Graph, rel: string)
    requires g.own(rel).NoEdges? && Importers(g, rel) <= {rel}
    ensures ImpactOf(g, rel) == All
  {
    forall m ensures !Explains(g, rel, m) {
      if Reaches(Parents(g), rel, m) {
        ClosedHasAll(Parents(g), {rel}, rel, m);
      }
    }
  }

  // ----- the walk -----

  datatype Walk = Walk(seen: set<string>, frontier: seq<string>, explained: seq<string>, hits: set<string>)

  /** What the walk has found so far; every explaining module is one of the seen ones. */
  ghost predicate Found(g: Graph, rel: string, w: Walk) {
    && rel in w.seen && (forall m | m in w.seen :: Reaches(Parents(g), rel, m))
    && (forall m | m in w.frontier :: m in w.seen && g.own(m).NoEdges?)
    && (forall m :: m in w.explained <==> m in w.seen && !g.own(m).NoEdges?)
    && Collected(g, w.explained, w.hits)
  }

  /** Edge-less modules outside the frontier have all their importers seen or in `todo`. */
  ghost predicate Expanded(g: Graph, w: Walk, todo: set<string>) {
    forall m, p | m in w.seen && g.own(m).NoEdges? && m !in w.frontier && p in Importers(g, m) :: p in w.seen || p in todo
  }

  function Popped(w: Walk): Walk
    requires w.frontier != []
  {
    w.(frontier := w.frontier[..|w.frontier| - 1])
  }

  lemma PoppedWalk(g: Graph, rel: string, w: Walk)
    requires w.frontier != [] && Found(g, rel, w) && Expanded(g, w, {})
    ensures var top := w.frontier[|w.frontier| - 1];
            && Found(g, rel, Popped(w)) && Expanded(g, Popped(w), Importers(g, top) - w.seen)
            && Reaches(Parents(g), rel, top) && g.own(top).NoEdges?
  {
  }

  /** The walk after it has seen `p`, which does not demand the whole scope. */
  function See(w: Walk, p: string, own: Edges): Walk {
    match own
    case Tests(tests) => Walk(w.seen + {p}, w.frontier, w.explained + [p], w.hits + tests)
    case _ => w.(seen := w.seen + {p}, frontier := w.frontier + [p])
  }

  lemma SeenOne(g: Graph, rel: string, w: Walk, todo: set<string>, p: string)
    requires Found(g, rel, w) && Expanded(g, w, todo) && p in todo && p !in w.seen
    requires Reaches(Parents(g), rel, p) && !g.own(p).WholeScope?
    ensures Found(g, rel, See(w, p, g.own(p))) && Expanded(g, See(w, p, g.own(p)), todo - {p})
  {
  }

  /** Of `importers`, the walk has seen all but those in `todo`, all of which are new. */
  ghost predicate SeenBut(start: Walk, importers: set<string>, todo: set<string>, w: Walk) {
    && todo <= importers && todo !! w.seen && w.seen + todo == start.seen + importers
    && (importers <= start.seen ==> w == start)
  }

  lemma SeenButOneLess(start: Walk, importers: set<string>, todo: set<string>, w: Walk, p: string, next: Walk)
    requires SeenBut(start, importers, todo, w) && p in todo && next.seen == w.seen + {p}
    ensures SeenBut(start, importers, todo - {p}, next)
  {
  }

  lemma ImportersAreModules(g: Graph, rel: string, m: string)
    ensures Importers(g, m) <= Modules(g, rel)
  {
  }

  class Selector {
    const graph: Graph
    var edges: map<string, Edges>

    ghost predicate Valid()
      reads this
    {
      forall m | m in edges :: edges[m] == graph.own(m)
    }

    constructor (graph: Graph)
      ensures Valid() && this.graph == graph && edges == map[]
    {
      this.graph := graph;
      edges := map[];
    }

    /** Edges of `rel`, looked up or computed: the memo never changes the answer. */
    method OwnEdges(rel: string) returns (own: Edges)
      requires Valid()
      modifies this
      ensures Valid()
      ensures own == graph.own(rel)
      ensures edges == old(edges)[rel := own]
    {
      if rel in edges {
        assert edges == edges[rel := edges[rel]];
        return edges[rel];
      }
      own := graph.own(rel);
      edges := edges[rel := own];
    }

    /** One parent: a demand for the whole scope ends the walk. */
    method SeeParent(rel: string, walk: Walk, ghost todo: set<string>, parent: string) returns (all: bool, next: Walk)
      requires Valid() && Found(graph, rel, walk) && Expanded(graph, walk, todo)
      requires Reaches(Parents(graph), rel, parent) && parent in todo && parent !in walk.seen && rel !in walk.frontier
      modifies this
      ensures Valid()
      ensures all ==> ImpactOf(graph, rel) == All
      ensures !all ==> Found(graph, rel, next) && Expanded(graph, next, todo - {parent}) && rel !in next.frontier
      ensures !all ==> next.seen == walk.seen + {parent}
    {
      var own := OwnEdges(parent);
      if own.WholeScope? {
        WholeScopeReached(graph, rel, parent);
        return true, walk;
      }
      SeenOne(graph, rel, walk, todo, parent);
      return false, See(walk, parent, own);
    }

    /** Sees every new importer of `top`, in an arbitrary order, unless one of them demands
        the whole scope. */
    method SeeParents(rel: string, top: string, start: Walk) returns (all: bool, walk: Walk)
      requires Valid() && Found(graph, rel, start) && Expanded(graph, start, Importers(graph, top) - start.seen)
      requires Reaches(Parents(graph), rel, top) && graph.own(top).NoEdges? && rel !in start.frontier
      modifies this
      ensures Valid()
      ensures all ==> ImpactOf(graph, rel) == All
      ensures !all ==> Found(graph, rel, walk) && Expanded(graph, walk, {}) && rel !in walk.frontier
      ensures !all ==> walk.seen == start.seen + Importers(graph, top)
      ensures !all && Importers(graph, top) <= start.seen ==> walk == start
    {
      var parents := Importers(graph, top) - start.seen;
      all, walk := false, start;
      while parents != {}
        invariant Valid()
        invariant SeenBut(start, Importers(graph, top), parents, walk)
        invariant Found(graph, rel, walk) && Expanded(graph, walk, parents) && rel !in walk.frontier
        decreases |parents|
      {
        var parent :| parent in parents;
        ReachesNext(Parents(graph), rel, top, parent);
        ghost var before := walk;
        all, walk := SeeParent(rel, walk, parents, parent);
        if all {
          return;
        }
        SeenButOneLess(start, Importers(graph, top), parents, before, parent, walk);
        parents := parents - {parent};
      }
    }

    method ImpactOfSource(rel: string) returns (impact: Impact)
      requires Valid()
      modifies this
      ensures Valid()
      ensures impact == ImpactOf(graph, rel)
    {
      var own := OwnEdges(rel);
      if !own.NoEdges? {
        OwnEdgesDecide(graph, rel);
        return if own.WholeScope? then All else Only(own.tests);
      }
      var walk := Walk({rel}, [rel], [], {});
      ReachesItself(Parents(graph), rel);
      while walk.frontier != []
        invariant Valid()
        invariant Found(graph, rel, walk) && Expanded(graph, walk, {})
        invariant rel in walk.frontier ==> walk.frontier == [rel] && walk.seen == {rel}
        decreases Modules(graph, rel) - walk.seen, |walk.frontier|
      {
        var top := walk.frontier[|walk.frontier| - 1];
        if Importers(graph, top) - walk.seen == {} && top == rel {
          NoImporters(graph, rel);
          return All;
        }
        PoppedWalk(graph, rel, walk);
        ImportersAreModules(graph, rel, top);
        var all, next := SeeParents(rel, top, Popped(walk));
        if all {
          return All;
        }
        walk := next;
      }
      WalkIsComplete(graph, rel, walk.seen, walk.explained, walk.hits);
      impact := if walk.explained == [] then All else Only(walk.hits);
    }
  }
}
