/** Which test files a diff selects. */
module Selection {
  import opened Sequences
  import opened ImpactGraph

  const SRC_PREFIX := "src/axolotl/"
  const TESTS_PREFIX := "tests/"
  const PYPROJECT := "pyproject.toml"

  /** Everything about the tree and the base that the decision looks at. `pyproject` is what
      the dependency changes select; the globs are predicates. */
  datatype Repo = Repo(
    tests: set<string>,
    opaqueTests: set<string>,
    helperTests: map<string, set<string>>,
    graph: Graph,
    pyproject: Impact,
    runAll: string -> bool,
    inert: string -> bool)

  datatype Request = NoBase | DiffFailed | Diff(changed: seq<string>, deleted: seq<string>, forcedByMessage: bool)

  datatype Mode = ModeAll | ModeSubset | ModeNone

  datatype Decision = Decision(mode: Mode, tests: set<string>)

  // ----- paths -----

  predicate EndsWith(path: string, suffix: string) {
    |suffix| <= |path| && path[|path| - |suffix|..] == suffix
  }

  /** The last component of a path. */
  function Name(path: string): string {
    if path == "" || path[|path| - 1] == '/' then "" else Name(path[..|path| - 1]) + [path[|path| - 1]]
  }

  predicate IsTestFile(path: string) {
    "test_" <= Name(path)
  }

  predicate IsPython(path: string) {
    EndsWith(path, ".py")
  }

  // ----- what each file of the diff picks -----

  ghost function ScanPick(r: Repo, path: string): Impact {
    if path in r.tests then Only({path})
    else if TESTS_PREFIX <= path then
      if IsPython(path) && IsTestFile(path) then Only({})
      else if path in r.helperTests then Only(r.helperTests[path])
      else All
    else if SRC_PREFIX <= path && IsPython(path) then ImpactOf(r.graph, path)
    else if r.inert(path) then Only({})
    else All
  }

  ghost function ChangedPick(r: Repo, path: string): Impact {
    if r.runAll(path) then All
    else if path == PYPROJECT then r.pyproject
    else ScanPick(r, path)
  }

  predicate DeletedForces(r: Repo, path: string) {
    if SRC_PREFIX <= path && IsPython(path) then true
    else if TESTS_PREFIX <= path && !IsTestFile(path) then true
    else !r.inert(path) && !(TESTS_PREFIX <= path) && !(SRC_PREFIX <= path)
  }

  ghost predicate Forced(r: Repo, changed: seq<string>, deleted: seq<string>) {
    || (exists p :: p in changed && ChangedPick(r, p).All?)
    || (exists p :: p in deleted && (r.runAll(p) || p == PYPROJECT || DeletedForces(r, p)))
  }

  ghost function PickedBy(r: Repo, changed: seq<string>): set<string> {
    set p, t | p in changed && ChangedPick(r, p).Only? && t in ChangedPick(r, p).tests :: t
  }

  function WithOpaque(r: Repo, picked: set<string>): set<string> {
    if picked == {} then {} else picked + r.opaqueTests
  }

  function Decide(r: Repo, tests: set<string>): Decision {
    if tests == {} then Decision(ModeNone, {})
    else if |tests| == |r.tests| then Decision(ModeAll, tests)
    else Decision(ModeSubset, tests)
  }

  ghost function Selected(r: Repo, request: Request): Decision {
    if !request.Diff? || request.forcedByMessage || Forced(r, request.changed, request.deleted) then Decision(ModeAll, r.tests)
    else Decide(r, WithOpaque(r, PickedBy(r, request.changed)))
  }

  // ----- the decision procedure -----

  method AnyRunAll(r: Repo, paths: seq<string>) returns (forced: bool)
    ensures forced <==> exists p :: p in paths && r.runAll(p)
  {
    forced := false;
    for i := 0 to |paths|
      invariant forced <==> exists p :: p in paths[..i] && r.runAll(p)
    {
      forced := forced || r.runAll(paths[i]);
      assert paths[..i + 1] == paths[..i] + [paths[i]];
    }
    assert paths[..|paths|] == paths;
  }

  method AnyDeletedForces(r: Repo, paths: seq<string>) returns (forced: bool)
    ensures forced <==> exists p :: p in paths && DeletedForces(r, p)
  {
    forced := false;
    for i := 0 to |paths|
      invariant forced <==> exists p :: p in paths[..i] && DeletedForces(r, p)
    {
      forced := forced || DeletedForces(r, paths[i]);
      assert paths[..i + 1] == paths[..i] + [paths[i]];
    }
    assert paths[..|paths|] == paths;
  }

  /** What the files scanned so far have picked. */
  ghost predicate Scanned(r: Repo, paths: seq<string>, forced: bool, selected: set<string>) {
    && (forced <==> exists p :: p in paths && ScanPick(r, p).All?)
    && (forall t :: t in selected <==> exists p :: p in paths && ScanPick(r, p).Only? && t in ScanPick(r, p).tests)
  }

  method PickOf(selector: Selector, r: Repo, path: string) returns (pick: Impact)
    requires selector.Valid() && selector.graph == r.graph
    modifies selector
    ensures selector.Valid()
    ensures pick == ScanPick(r, path)
  {
    if path in r.tests {
      return Only({path});
    }
    if TESTS_PREFIX <= path {
      if IsPython(path) && IsTestFile(path) {
        return Only({});
      }
      if path in r.helperTests {
        return Only(r.helperTests[path]);
      }
      return All;
    }
    if SRC_PREFIX <= path && IsPython(path) {
      pick := selector.ImpactOfSource(path);
      return;
    }
    pick := if r.inert(path) then Only({}) else All;
  }

  lemma ScannedOne(r: Repo, paths: seq<string>, forced: bool, selected: set<string>, path: string, pick: Impact)
    requires Scanned(r, paths, forced, selected) && pick == ScanPick(r, path)
    ensures Scanned(r, paths + [path], forced || pick.All?, if pick.Only? then selected + pick.tests else selected)
  {
  }

  method ScanChanged(selector: Selector, r: Repo, paths: seq<string>) returns (forced: bool, selected: set<string>)
    requires selector.Valid() && selector.graph == r.graph
    modifies selector
    ensures selector.Valid()
    ensures Scanned(r, paths, forced, selected)
  {
    forced, selected := false, {};
    for i := 0 to |paths|
      invariant selector.Valid()
      invariant Scanned(r, paths[..i], forced, selected)
    {
      var pick := PickOf(selector, r, paths[i]);
      ScannedOne(r, paths[..i], forced, selected, paths[i], pick);
      assert paths[..i + 1] == paths[..i] + [paths[i]];
      match pick
      case All => forced := true;
      case Only(tests) => selected := selected + tests;
    }
    assert paths[..|paths|] == paths;
  }

  /** The list without the entry for `pyproject.toml`. */
  function Without(paths: seq<string>, path: string): (rest: seq<string>)
    ensures forall p :: p in rest <==> p in paths && p != path
  {
    if paths == [] then []
    else if paths[0] == path then Without(paths[1..], path)
    else [paths[0]] + Without(paths[1..], path)
  }

  /** The changed files that are scanned one by one, and what `pyproject.toml` adds. */
  function Rest(changed: seq<string>, deleted: seq<string>): seq<string> {
    if PYPROJECT in deleted then changed else Without(changed, PYPROJECT)
  }

  function DependencyPick(r: Repo, changed: seq<string>, deleted: seq<string>): Impact {
    if PYPROJECT in deleted then All else if PYPROJECT in changed then r.pyproject else Only({})
  }

  lemma ForcedByParts(r: Repo, changed: seq<string>, deleted: seq<string>, fromChanged: bool, picked: set<string>)
    requires Scanned(r, Rest(changed, deleted), fromChanged, picked)
    ensures Forced(r, changed, deleted) <==>
            || (exists p :: p in changed + deleted && r.runAll(p))
            || (exists p :: p in deleted && DeletedForces(r, p))
            || DependencyPick(r, changed, deleted).All?
            || fromChanged
  {
  }

  lemma PickedByParts(r: Repo, changed: seq<string>, deleted: seq<string>, fromChanged: bool, picked: set<string>)
    requires Scanned(r, Rest(changed, deleted), fromChanged, picked) && !Forced(r, changed, deleted)
    ensures DependencyPick(r, changed, deleted).Only?
    ensures PickedBy(r, changed) == DependencyPick(r, changed, deleted).tests + picked
  {
  }

  method Select(selector: Selector, r: Repo, request: Request) returns (decision: Decision)
    requires selector.Valid() && selector.graph == r.graph
    modifies selector
    ensures selector.Valid()
    ensures decision == Selected(r, request)
  {
    if request.NoBase? || request.DiffFailed? || request.forcedByMessage {
      return Decision(ModeAll, r.tests);
    }
    var changed, deleted := request.changed, request.deleted;
    var runAll := AnyRunAll(r, changed + deleted);
    var selected: set<string> := {};
    if PYPROJECT in deleted {
      runAll := true;
    } else if PYPROJECT in changed {
      match r.pyproject
      case All => runAll := true;
      case Only(hits) => selected := hits;
    }
    var fromDeleted := AnyDeletedForces(r, deleted);
    var fromChanged, picked := ScanChanged(selector, r, Rest(changed, deleted));
    ForcedByParts(r, changed, deleted, fromChanged, picked);
    selected := selected + picked;
    if runAll || fromDeleted || fromChanged {
      return Decision(ModeAll, r.tests);
    }
    PickedByParts(r, changed, deleted, fromChanged, picked);
    decision := Decide(r, WithOpaque(r, selected));
  }

  // ----- what selection promises -----

  /** All test names the repository knows of are files in scope. */
  ghost predicate InScope(r: Repo) {
    && r.opaqueTests <= r.tests
    && (forall k | k in r.helperTests :: r.helperTests[k] <= r.tests)
    && (forall m: string | r.graph.own(m).Tests? :: r.graph.own(m).tests <= r.tests)
    && (r.pyproject.Only? ==> r.pyproject.tests <= r.tests)
  }

  lemma PickedInScope(r: Repo, changed: seq<string>)
    requires InScope(r)
    ensures PickedBy(r, changed) <= r.tests
  {
  }

  /** The mode says exactly what runs: nothing, a proper part of the scope, or all of it. */
  lemma ModeMeansWhatItSays(r: Repo, request: Request)
    requires InScope(r)
    ensures var d := Selected(r, request);
            && d.tests <= r.tests
            && (d.mode.ModeNone? ==> d.tests == {})
            && (d.mode.ModeSubset? <==> d.tests != {} && d.tests != r.tests)
            && (d.mode.ModeAll? ==> d.tests == r.tests)
  {
    if request.Diff? {
      PickedInScope(r, request.changed);
      SubsetSize(WithOpaque(r, PickedBy(r, request.changed)), r.tests);
    }
  }

  lemma ForcedOfUnion(r: Repo, c1: seq<string>, d1: seq<string>, c2: seq<string>, d2: seq<string>)
    ensures Forced(r, c1 + c2, d1 + d2) <==> Forced(r, c1, d1) || Forced(r, c2, d2)
  {
    var c, d := c1 + c2, d1 + d2;
    if p :| p in c && ChangedPick(r, p).All? {
      assert p in c1 || p in c2;
    }
    if p :| p in c1 && ChangedPick(r, p).All? {
      assert p in c;
    }
    if p :| p in c2 && ChangedPick(r, p).All? {
      assert p in c;
    }
    if p :| p in d && (r.runAll(p) || p == PYPROJECT || DeletedForces(r, p)) {
      assert p in d1 || p in d2;
    }
    if p :| p in d1 && (r.runAll(p) || p == PYPROJECT || DeletedForces(r, p)) {
      assert p in d;
    }
    if p :| p in d2 && (r.runAll(p) || p == PYPROJECT || DeletedForces(r, p)) {
      assert p in d;
    }
  }

  lemma PickedOfUnion(r: Repo, c1: seq<string>, c2: seq<string>)
    ensures PickedBy(r, c1 + c2) == PickedBy(r, c1) + PickedBy(r, c2)
  {
  }

  lemma OpaqueOfUnion(r: Repo, a: set<string>, b: set<string>)
    ensures WithOpaque(r, a + b) == WithOpaque(r, a) + WithOpaque(r, b)
  {
  }

  /** Selection is a union over the files of the diff: the tests for two diffs together are
      the tests for the one and the tests for the other. */
  lemma SelectionIsUnion(r: Repo, c1: seq<string>, d1: seq<string>, c2: seq<string>, d2: seq<string>)
    requires InScope(r)
    ensures Selected(r, Diff(c1 + c2, d1 + d2, false)).tests
            == Selected(r, Diff(c1, d1, false)).tests + Selected(r, Diff(c2, d2, false)).tests
  {
    ForcedOfUnion(r, c1, d1, c2, d2);
    if Forced(r, c1, d1) {
      ModeMeansWhatItSays(r, Diff(c2, d2, false));
    } else if Forced(r, c2, d2) {
      ModeMeansWhatItSays(r, Diff(c1, d1, false));
    } else {
      PickedOfUnion(r, c1, c2);
      OpaqueOfUnion(r, PickedBy(r, c1), PickedBy(r, c2));
    }
  }

  /** Enlarging a diff never drops a test. */
  lemma LargerDiffsDropNothing(r: Repo, changed: seq<string>, deleted: seq<string>, moreChanged: seq<string>, moreDeleted: seq<string>)
    requires InScope(r)
    requires forall p | p in changed :: p in moreChanged
    requires forall p | p in deleted :: p in moreDeleted
    ensures Selected(r, Diff(changed, deleted, false)).tests <= Selected(r, Diff(moreChanged, moreDeleted, false)).tests
  {
    ModeMeansWhatItSays(r, Diff(changed, deleted, false));
    if !Forced(r, moreChanged, moreDeleted) {
      assert !Forced(r, changed, deleted);
      assert PickedBy(r, changed) <= PickedBy(r, moreChanged);
    }
  }
}
