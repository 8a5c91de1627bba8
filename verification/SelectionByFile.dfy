/** What each kind of file selects, and that a diff selects what its files select. The laws
    speak of the repository's own data and of the path. */
module SelectionByFile {
  import opened Sequences
  import opened ImpactGraph
  import opened Selection

  // ----- paths -----

  lemma PythonMeansSuffix(path: string)
    ensures IsPython(path) <==> exists stem: string :: path == stem + ".py"
  {
    if IsPython(path) {
      assert path == path[..|path| - 3] + ".py";
    }
  }

  /** A path is its directory and a last component without a slash. */
  lemma {:induction false} NameIsLast(path: string) returns (dir: string)
    ensures path == dir + Name(path) && '/' !in Name(path)
    ensures dir == "" || dir[|dir| - 1] == '/'
  {
    if path == "" || path[|path| - 1] == '/' {
      dir := path;
    } else {
      var n := |path| - 1;
      dir := NameIsLast(path[..n]);
      assert path == path[..n] + [path[n]];
    }
  }

  lemma TestFileMeansPrefix(path: string)
    ensures IsTestFile(path) <==> exists rest: string :: Name(path) == "test_" + rest
  {
    if IsTestFile(path) {
      assert Name(path) == "test_" + Name(path)[5..];
    }
  }

  // ----- one file -----

  /** The decision when just these tests are picked, and the tests with no visible config
      ride along; `All` forces the whole scope. */
  ghost predicate Runs(r: Repo, d: Decision, pick: Impact) {
    match pick
    case All => d == Decision(ModeAll, r.tests)
    case Only(tests) =>
      && d.tests == (if tests == {} then {} else tests + r.opaqueTests)
      && d.mode == (if d.tests == {} then ModeNone else if |d.tests| == |r.tests| then ModeAll else ModeSubset)
  }

  ghost function AloneChanged(r: Repo, path: string): Decision {
    Selected(r, Diff([path], [], false))
  }

  ghost function AloneDeleted(r: Repo, path: string): Decision {
    Selected(r, Diff([], [path], false))
  }

  lemma PickedAlone(r: Repo, path: string)
    ensures Runs(r, AloneChanged(r, path), ChangedPick(r, path))
  {
    assert path in [path];
    if ChangedPick(r, path).Only? {
      assert PickedBy(r, [path]) == ChangedPick(r, path).tests;
    }
  }

  lemma RunAllPatternForces(r: Repo, path: string)
    requires r.runAll(path)
    ensures AloneChanged(r, path) == AloneDeleted(r, path) == Decision(ModeAll, r.tests)
  {
    assert path in [path];
    PickedAlone(r, path);
  }

  lemma DependenciesSelect(r: Repo)
    requires !r.runAll("pyproject.toml")
    ensures Runs(r, AloneChanged(r, "pyproject.toml"), r.pyproject)
  {
    PickedAlone(r, "pyproject.toml");
  }

  /** A changed test in scope selects itself. */
  lemma TestSelectsItself(r: Repo, path: string)
    requires !r.runAll(path) && path != "pyproject.toml" && path in r.tests
    ensures Runs(r, AloneChanged(r, path), Only({path}))
  {
    PickedAlone(r, path);
  }

  /** A test file outside the scope selects nothing, a helper the tests that use it, and any
      other file under `tests/` forces. */
  lemma TestSupportSelects(r: Repo, path: string)
    requires !r.runAll(path) && path !in r.tests && "tests/" <= path
    ensures Runs(r, AloneChanged(r, path),
                 if IsPython(path) && IsTestFile(path) then Only({})
                 else if path in r.helperTests then Only(r.helperTests[path])
                 else All)
  {
    assert path[0] == 't';
    PickedAlone(r, path);
  }

  /** A changed source module selects what climbing its importers explains. */
  lemma SourceModuleSelects(r: Repo, path: string)
    requires !r.runAll(path) && path !in r.tests && "src/axolotl/" <= path && IsPython(path)
    ensures Runs(r, AloneChanged(r, path), ImpactOf(r.graph, path))
  {
    assert path[0] == 's';
    PickedAlone(r, path);
  }

  /** Any other file selects nothing when it is inert, and forces when it is not. */
  lemma OtherFileSelects(r: Repo, path: string)
    requires !r.runAll(path) && path != "pyproject.toml" && path !in r.tests
    requires !("tests/" <= path) && !("src/axolotl/" <= path && IsPython(path))
    ensures Runs(r, AloneChanged(r, path), if r.inert(path) then Only({}) else All)
  {
    PickedAlone(r, path);
  }

  /** A deleted file forces the whole scope or selects nothing. It forces when it is a source
      module, support for tests, `pyproject.toml`, or a file the graph does not model. */
  lemma DeletedFileSelects(r: Repo, path: string)
    ensures var source, test := "src/axolotl/" <= path, "tests/" <= path;
            Runs(r, AloneDeleted(r, path),
                 if || r.runAll(path) || path == "pyproject.toml"
                    || (source && IsPython(path))
                    || (test && !IsTestFile(path))
                    || (!source && !test && !r.inert(path)) then All
                 else Only({}))
  {
    assert path in [path];
    assert "src/axolotl/" <= path ==> path[0] == 's';
    assert "tests/" <= path ==> path[0] == 't';
    assert PickedBy(r, []) == {};
  }

  /** Without a base, when the diff fails, or when a commit message says so, everything runs. */
  lemma ForcedRequests(r: Repo, changed: seq<string>, deleted: seq<string>)
    ensures Selected(r, NoBase) == Selected(r, DiffFailed) == Selected(r, Diff(changed, deleted, true)) == Decision(ModeAll, r.tests)
  {
  }

  // ----- the whole diff -----

  ghost predicate SelectedAlone(r: Repo, changed: seq<string>, deleted: seq<string>, test: string) {
    || (exists path :: path in changed && test in AloneChanged(r, path).tests)
    || (exists path :: path in deleted && test in AloneDeleted(r, path).tests)
  }

  lemma EmptyDiffSelectsNothing(r: Repo)
    ensures Selected(r, Diff([], [], false)) == Decision(ModeNone, {})
  {
    assert PickedBy(r, []) == {};
  }

  /** A diff selects a test exactly when one of its files does by itself. */
  lemma {:induction false} DiffSelectsByFile(r: Repo, changed: seq<string>, deleted: seq<string>, test: string)
    requires InScope(r)
    ensures test in Selected(r, Diff(changed, deleted, false)).tests <==> SelectedAlone(r, changed, deleted, test)
    decreases |changed| + |deleted|
  {
    if changed != [] {
      var path, rest := changed[0], changed[1..];
      assert changed == [path] + rest && deleted == [] + deleted;
      SelectionIsUnion(r, [path], [], rest, deleted);
      DiffSelectsByFile(r, rest, deleted, test);
      AddFile(r, path, rest, deleted, test);
    } else if deleted != [] {
      var path, rest := deleted[0], deleted[1..];
      assert deleted == [path] + rest && changed == [] + [];
      SelectionIsUnion(r, [], [path], [], rest);
      DiffSelectsByFile(r, [], rest, test);
      DropFile(r, path, rest, test);
    } else {
      EmptyDiffSelectsNothing(r);
    }
  }

  lemma AddFile(r: Repo, path: string, rest: seq<string>, deleted: seq<string>, test: string)
    ensures SelectedAlone(r, [path] + rest, deleted, test) <==>
            test in AloneChanged(r, path).tests || SelectedAlone(r, rest, deleted, test)
  {
    assert path in [path] + rest;
    forall p | p in rest ensures p in [path] + rest {
    }
  }

  lemma DropFile(r: Repo, path: string, rest: seq<string>, test: string)
    ensures SelectedAlone(r, [], [path] + rest, test) <==>
            test in AloneDeleted(r, path).tests || SelectedAlone(r, [], rest, test)
  {
    assert path in [path] + rest;
    forall p | p in rest ensures p in [path] + rest {
    }
  }
}
