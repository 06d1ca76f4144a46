/**
 * The `clean-pycache` command: delete every `__pycache__` directory and every
 * `.pyc` file below the working directory, best effort.
 *
 * Glob expansion is given in advance, one `Expansion` per delete pattern; the
 * deletions are performed on a `Filesystem` whose outcome is fixed by which paths
 * exist, what kind they are and which of them are locked.
 */
module CleanPycache {
  import opened Wrappers
  import opened Paths

  datatype PathType = Directory | File

  datatype DeletePath = DeletePath(pathType: PathType, glob: string)

  /** `get_delete_patterns`: the patterns in the order they are processed. */
  function DeletePatterns(): (r: seq<DeletePath>)
    ensures |r| == 2
    ensures r[0] == DeletePath(Directory, "**/__pycache__") && r[1] == DeletePath(File, "**/*.pyc")
  {
    [DeletePath(Directory, "**/__pycache__"), DeletePath(File, "**/*.pyc")]
  }

  datatype IoError =
    | NotFound(path: Path)
    | PermissionDenied(path: Path)
    | NotADirectory(path: Path)
    | IsADirectory(path: Path)

  /** One item yielded while walking a glob: a matching path, or an error met on the way. */
  datatype GlobEntry = Match(path: Path) | WalkError(cause: IoError)

  /** What `glob(pattern)` gives: a pattern error, or the entries it yields in order. */
  datatype Expansion = InvalidPattern | Entries(entries: seq<GlobEntry>)

  datatype CliError = CliError(error: Option<IoError>, exitCode: int)

  /** The working directory's subtree: every existing path with its kind. */
  type Tree = map<Path, PathType>

  /**
   * `remove_dir_all` (kind `Directory`) or `remove_file` (kind `File`) on `p`. Removing
   * a directory removes everything below it; it fails if anything there is locked.
   */
  function Delete(t: Tree, locked: set<Path>, kind: PathType, p: Path): (r: Result<Tree, IoError>)
    ensures r.Ok? ==> p in t && t[p] == kind && p !in r.value
    ensures r.Ok? ==> forall q :: q in r.value ==> q in t && r.value[q] == t[q]
    ensures r.Ok? && kind == Directory ==> forall q :: q in r.value ==> !(p <= q)
    ensures r.Ok? && kind == Directory ==> forall q :: q in t && !(p <= q) ==> q in r.value
    ensures r.Ok? && kind == File ==> r.value == t - {p}
    ensures p !in t ==> r == Err(NotFound(p))
  {
    if p !in t then Err(NotFound(p))
    else match kind
      case Directory =>
        if t[p] != Directory then Err(NotADirectory(p))
        else if exists q :: q in locked && q in t && p <= q then Err(PermissionDenied(p))
        else Ok(map q | q in t && !(p <= q) :: t[q])
      case File =>
        if t[p] != File then Err(IsADirectory(p))
        else if p in locked then Err(PermissionDenied(p))
        else Ok(t - {p})
  }

  /** The loop state of `run`: the tree, the success flag and the most recent error. */
  datatype Sweep = Sweep(tree: Tree, success: bool, error: Option<IoError>)

  /** One pass of the inner loop: delete a match by the pattern's kind, or record a walk error. */
  function Attempt(locked: set<Path>, kind: PathType, s: Sweep, e: GlobEntry): Sweep
  {
    match e
    case WalkError(cause) => s.(success := false, error := Some(cause))
    case Match(p) =>
      match Delete(s.tree, locked, kind, p)
      case Ok(t) => s.(tree := t)
      case Err(cause) => s.(success := false, error := Some(cause))
  }

  /** The inner loop over a pattern's entries; `success` plays `file_level_success`. */
  function SweepEntries(locked: set<Path>, kind: PathType, s: Sweep, es: seq<GlobEntry>): (r: Sweep)
    ensures r.tree.Keys <= s.tree.Keys
    ensures forall q :: q in r.tree ==> r.tree[q] == s.tree[q]
    ensures r.success ==> s.success && r.error == s.error
    decreases |es|
  {
    if es == [] then s
    else SweepEntries(locked, kind, Attempt(locked, kind, s, es[0]), es[1..])
  }

  /**
   * The outer loop from some pattern on. `success = success && match ...` evaluates
   * the match only while `success` holds, so a failed pattern stops all later ones.
   */
  function CleanFrom(locked: set<Path>, patterns: seq<DeletePath>, expansions: seq<Expansion>, s: Sweep): (r: Sweep)
    requires |patterns| == |expansions|
    ensures r.tree.Keys <= s.tree.Keys
    ensures forall q :: q in r.tree ==> r.tree[q] == s.tree[q]
    ensures r.success ==> s.success
    decreases |patterns|
  {
    if patterns == [] then s
    else
      var next :=
        if !s.success then s
        else match expansions[0]
          case InvalidPattern => s.(success := false)
          case Entries(es) => SweepEntries(locked, patterns[0].pathType, s, es);
      CleanFrom(locked, patterns[1..], expansions[1..], next)
  }

  /** The command's result: `Ok` on success, otherwise exit code 2 with the last error. */
  function Clean(t: Tree, locked: set<Path>, expansions: seq<Expansion>): (r: (Result<(), CliError>, Tree))
    requires |expansions| == |DeletePatterns()|
    ensures r.0.Err? ==> r.0.error.exitCode == 2
    ensures r.1.Keys <= t.Keys
  {
    var s := CleanFrom(locked, DeletePatterns(), expansions, Sweep(t, true, None));
    (if s.success then Ok(()) else Err(CliError(s.error, 2)), s.tree)
  }

  /** Once a pattern has failed, the rest of the run changes nothing: later matches are never visited. */
  lemma {:induction false} StoppedCleanDoesNothing(locked: set<Path>, patterns: seq<DeletePath>, expansions: seq<Expansion>, s: Sweep)
    requires |patterns| == |expansions|
    requires !s.success
    ensures CleanFrom(locked, patterns, expansions, s) == s
    decreases |patterns|
  {
    if patterns != [] {
      StoppedCleanDoesNothing(locked, patterns[1..], expansions[1..], s);
    }
  }

  /**
   * Within one pattern a failure does not stop the loop: what gets deleted does not
   * depend on the flag or the error carried in.
   */
  lemma {:induction false} SweepIgnoresFailures(
    locked: set<Path>, kind: PathType, t: Tree, b1: bool, e1: Option<IoError>, b2: bool, e2: Option<IoError>, es: seq<GlobEntry>)
    ensures SweepEntries(locked, kind, Sweep(t, b1, e1), es).tree == SweepEntries(locked, kind, Sweep(t, b2, e2), es).tree
    decreases |es|
  {
    if es != [] {
      var s1 := Attempt(locked, kind, Sweep(t, b1, e1), es[0]);
      var s2 := Attempt(locked, kind, Sweep(t, b2, e2), es[0]);
      assert s1.tree == s2.tree;
      SweepIgnoresFailures(locked, kind, s1.tree, s1.success, s1.error, s2.success, s2.error, es[1..]);
    }
  }

  /** The inner loop over `es + [e]` is the loop over `es` followed by one more pass. */
  lemma {:induction false} SweepSnoc(locked: set<Path>, kind: PathType, s: Sweep, es: seq<GlobEntry>, e: GlobEntry)
    ensures SweepEntries(locked, kind, s, es + [e]) == Attempt(locked, kind, SweepEntries(locked, kind, s, es), e)
    decreases |es|
  {
    if es == [] {
      assert [e][1..] == [];
    } else {
      assert (es + [e])[1..] == es[1..] + [e];
      SweepSnoc(locked, kind, Attempt(locked, kind, s, es[0]), es[1..], e);
    }
  }

  /**
   * `error` keeps only the most recent failure: a failing last entry overwrites
   * whatever was recorded before, and a successful one leaves it as it was.
   */
  lemma LatestErrorWins(locked: set<Path>, kind: PathType, s: Sweep, es: seq<GlobEntry>, e: GlobEntry)
    ensures var before := SweepEntries(locked, kind, s, es);
      var after := SweepEntries(locked, kind, s, es + [e]);
      match e
      case WalkError(cause) => !after.success && after.error == Some(cause)
      case Match(p) =>
        var d := Delete(before.tree, locked, kind, p);
        if d.Err? then !after.success && after.error == Some(d.error)
        else after.success == before.success && after.error == before.error
  {
    SweepSnoc(locked, kind, s, es, e);
  }

  /**
   * A pattern succeeds only if each of its entries was a match and each match is
   * gone afterwards, with everything below it when it was deleted as a directory.
   */
  lemma {:induction false} SuccessfulSweepDeletesEveryMatch(locked: set<Path>, kind: PathType, s: Sweep, es: seq<GlobEntry>)
    ensures var r := SweepEntries(locked, kind, s, es);
      r.success ==> forall j :: 0 <= j < |es| ==>
        es[j].Match? && es[j].path !in r.tree &&
        (kind == Directory ==> forall q :: q in r.tree ==> !(es[j].path <= q))
    decreases |es|
  {
    if es != [] {
      var s1 := Attempt(locked, kind, s, es[0]);
      SuccessfulSweepDeletesEveryMatch(locked, kind, s1, es[1..]);
      var r := SweepEntries(locked, kind, s, es);
      if r.success {
        assert s1.success;
        assert es[0].Match? && Delete(s.tree, locked, kind, es[0].path).Ok?;
        forall j | 1 <= j < |es|
          ensures es[j] == es[1..][j - 1]
        {
        }
      }
    }
  }

  /**
   * Every entry is a match, and deleting it succeeds on the tree the earlier
   * entries of the same pattern left behind.
   */
  predicate EveryDeleteSucceeds(locked: set<Path>, kind: PathType, t: Tree, es: seq<GlobEntry>)
  {
    forall j :: 0 <= j < |es| ==>
      es[j].Match? && Delete(SweepEntries(locked, kind, Sweep(t, true, None), es[..j]).tree, locked, kind, es[j].path).Ok?
  }

  /** A pattern's loop ends with `file_level_success` set exactly when every one of its deletions succeeds. */
  lemma {:induction false} SweepSucceedsIff(locked: set<Path>, kind: PathType, t: Tree, es: seq<GlobEntry>)
    ensures SweepEntries(locked, kind, Sweep(t, true, None), es).success <==> EveryDeleteSucceeds(locked, kind, t, es)
    decreases |es|
  {
    if es != [] {
      var s0 := Sweep(t, true, None);
      var init := es[..|es| - 1];
      var e := es[|es| - 1];
      assert es == init + [e];
      SweepSucceedsIff(locked, kind, t, init);
      SweepSnoc(locked, kind, s0, init, e);
      forall j | 0 <= j < |init|
        ensures es[..j] == init[..j] && es[j] == init[j]
      {
      }
    }
  }

  /** The tree after a successful first pattern (the `__pycache__` pass). */
  function AfterDirectoryPass(t: Tree, locked: set<Path>, expansions: seq<Expansion>): Tree
    requires |expansions| == |DeletePatterns()|
  {
    match expansions[0]
    case InvalidPattern => t
    case Entries(es) => SweepEntries(locked, Directory, Sweep(t, true, None), es).tree
  }

  /**
   * `run` returns `Ok` only if both patterns expanded, every walk entry was a match,
   * and every match is gone: `__pycache__` directories with their contents, and
   * `.pyc` files.
   */
  lemma CleanOkDeletesEveryMatch(t: Tree, locked: set<Path>, expansions: seq<Expansion>)
    requires |expansions| == |DeletePatterns()|
    requires Clean(t, locked, expansions).0.Ok?
    ensures forall k :: 0 <= k < |expansions| ==> expansions[k].Entries?
    ensures var after := Clean(t, locked, expansions).1;
      forall k, j :: 0 <= k < |expansions| && 0 <= j < |expansions[k].entries| ==>
        expansions[k].entries[j].Match? && expansions[k].entries[j].path !in after
    ensures var after := Clean(t, locked, expansions).1;
      forall j, q :: 0 <= j < |expansions[0].entries| && q in after ==> !(expansions[0].entries[j].path <= q)
  {
    var pats := DeletePatterns();
    var s0 := Sweep(t, true, None);
    var s1 := if expansions[0].InvalidPattern? then s0.(success := false)
              else SweepEntries(locked, Directory, s0, expansions[0].entries);
    assert CleanFrom(locked, pats, expansions, s0) == CleanFrom(locked, pats[1..], expansions[1..], s1);
    assert expansions[0].Entries?;
    var s2 := if expansions[1].InvalidPattern? then s1.(success := false)
              else SweepEntries(locked, File, s1, expansions[1].entries);
    assert CleanFrom(locked, pats, expansions, s0) == s2 by {
      assert CleanFrom(locked, pats, expansions, s0) == CleanFrom(locked, pats[1..], expansions[1..], s1);
      assert CleanFrom(locked, pats[1..], expansions[1..], s1) == CleanFrom(locked, pats[2..], expansions[2..], s2);
    }
    assert expansions[1].Entries?;
    SuccessfulSweepDeletesEveryMatch(locked, Directory, s0, expansions[0].entries);
    SuccessfulSweepDeletesEveryMatch(locked, File, s1, expansions[1].entries);
  }

  predicate IsPyc(q: Path)
  {
    |q| > 0 && |q[|q| - 1]| >= 4 && q[|q| - 1][|q[|q| - 1]| - 4..] == ".pyc"
  }

  /**
   * What the `assert_no_pyc` test checks: when the expansion of the `.pyc` pattern lists every
   * `.pyc` path left after the `__pycache__` pass and `run` succeeds, no `.pyc` path remains.
   */
  lemma NoPycRemains(t: Tree, locked: set<Path>, expansions: seq<Expansion>)
    requires |expansions| == |DeletePatterns()|
    requires expansions[1].Entries?
    requires forall q :: q in AfterDirectoryPass(t, locked, expansions) && IsPyc(q) ==> Match(q) in expansions[1].entries
    requires Clean(t, locked, expansions).0.Ok?
    ensures forall q :: q in Clean(t, locked, expansions).1 ==> !IsPyc(q)
  {
    CleanOkDeletesEveryMatch(t, locked, expansions);
    var s1 := SweepEntries(locked, Directory, Sweep(t, true, None), expansions[0].entries);
    assert CleanFrom(locked, DeletePatterns(), expansions, Sweep(t, true, None))
        == CleanFrom(locked, DeletePatterns()[1..], expansions[1..], s1);
  }

  /**
   * `run` returns `Ok` exactly when both patterns expanded and every deletion
   * succeeded: each `__pycache__` match on the tree left by the earlier ones, then
   * each `.pyc` match on the tree left by the directory pass and the earlier files.
   */
  lemma CleanOkIff(t: Tree, locked: set<Path>, expansions: seq<Expansion>)
    requires |expansions| == |DeletePatterns()|
    ensures Clean(t, locked, expansions).0.Ok? <==>
      expansions[0].Entries? && expansions[1].Entries? &&
      EveryDeleteSucceeds(locked, Directory, t, expansions[0].entries) &&
      EveryDeleteSucceeds(locked, File, AfterDirectoryPass(t, locked, expansions), expansions[1].entries)
  {
    var pats := DeletePatterns();
    var s0 := Sweep(t, true, None);
    var s1 := if expansions[0].InvalidPattern? then s0.(success := false)
              else SweepEntries(locked, Directory, s0, expansions[0].entries);
    var s2 := if !s1.success then s1
              else if expansions[1].InvalidPattern? then s1.(success := false)
              else SweepEntries(locked, File, s1, expansions[1].entries);
    assert CleanFrom(locked, pats, expansions, s0) == s2 by {
      assert CleanFrom(locked, pats, expansions, s0) == CleanFrom(locked, pats[1..], expansions[1..], s1);
      assert CleanFrom(locked, pats[1..], expansions[1..], s1) == CleanFrom(locked, pats[2..], expansions[2..], s2);
    }
    if expansions[0].Entries? {
      SweepSucceedsIff(locked, Directory, t, expansions[0].entries);
      if s1.success && expansions[1].Entries? {
        assert s1 == Sweep(AfterDirectoryPass(t, locked, expansions), true, None);
        SweepSucceedsIff(locked, File, AfterDirectoryPass(t, locked, expansions), expansions[1].entries);
      }
    }
  }

  /** Whether deleting `p` as `kind` removes `q`: `q` itself, and for a directory everything below it. */
  predicate Covers(kind: PathType, p: Path, q: Path)
  {
    if kind == Directory then p <= q else p == q
  }

  /** A path that no match of the pattern covers survives the pattern's loop, kind unchanged. */
  lemma {:induction false} SweepKeepsUncovered(locked: set<Path>, kind: PathType, s: Sweep, es: seq<GlobEntry>, q: Path)
    requires q in s.tree
    requires forall j :: 0 <= j < |es| && es[j].Match? ==> !Covers(kind, es[j].path, q)
    ensures q in SweepEntries(locked, kind, s, es).tree
    decreases |es|
  {
    if es != [] {
      var s1 := Attempt(locked, kind, s, es[0]);
      assert q in s1.tree;
      forall j | 0 <= j < |es| - 1 && es[1..][j].Match?
        ensures !Covers(kind, es[1..][j].path, q)
      {
        assert es[1..][j] == es[j + 1];
      }
      SweepKeepsUncovered(locked, kind, s1, es[1..], q);
    }
  }

  /** A path that no match of any pattern covers survives the outer loop. */
  lemma {:induction false} CleanFromKeepsUncovered(
    locked: set<Path>, patterns: seq<DeletePath>, expansions: seq<Expansion>, s: Sweep, q: Path)
    requires |patterns| == |expansions|
    requires q in s.tree
    requires forall k, j ::
      (0 <= k < |patterns| && expansions[k].Entries? && 0 <= j < |expansions[k].entries| && expansions[k].entries[j].Match?) ==>
        !Covers(patterns[k].pathType, expansions[k].entries[j].path, q)
    ensures q in CleanFrom(locked, patterns, expansions, s).tree
    decreases |patterns|
  {
    if patterns != [] {
      var next :=
        if !s.success then s
        else match expansions[0]
          case InvalidPattern => s.(success := false)
          case Entries(es) => SweepEntries(locked, patterns[0].pathType, s, es);
      if s.success && expansions[0].Entries? {
        SweepKeepsUncovered(locked, patterns[0].pathType, s, expansions[0].entries, q);
      }
      forall k, j | 0 <= k < |patterns| - 1 && expansions[1..][k].Entries? && 0 <= j < |expansions[1..][k].entries| &&
        expansions[1..][k].entries[j].Match?
        ensures !Covers(patterns[1..][k].pathType, expansions[1..][k].entries[j].path, q)
      {
        assert expansions[1..][k] == expansions[k + 1] && patterns[1..][k] == patterns[k + 1];
      }
      CleanFromKeepsUncovered(locked, patterns[1..], expansions[1..], next, q);
    }
  }

  /**
   * `run` deletes nothing it was not asked to: a path that is neither below a
   * `__pycache__` match nor itself a `.pyc` match is still there afterwards, with
   * its kind, whatever the outcome.
   */
  lemma CleanKeepsUncovered(t: Tree, locked: set<Path>, expansions: seq<Expansion>, q: Path)
    requires |expansions| == |DeletePatterns()|
    requires q in t
    requires forall k, j ::
      (0 <= k < |expansions| && expansions[k].Entries? && 0 <= j < |expansions[k].entries| && expansions[k].entries[j].Match?) ==>
        !Covers(DeletePatterns()[k].pathType, expansions[k].entries[j].path, q)
    ensures q in Clean(t, locked, expansions).1 && Clean(t, locked, expansions).1[q] == t[q]
  {
    CleanFromKeepsUncovered(locked, DeletePatterns(), expansions, Sweep(t, true, None), q);
  }

  /** When the first pattern fails, the second pattern's expansion plays no part in the outcome. */
  lemma FailedPatternStopsLaterPatterns(t: Tree, locked: set<Path>, e0: Expansion, e1: Expansion, e1': Expansion)
    requires e0.InvalidPattern? || !SweepEntries(locked, Directory, Sweep(t, true, None), e0.entries).success
    ensures Clean(t, locked, [e0, e1]) == Clean(t, locked, [e0, e1'])
  {
  }

  /** An invalid first pattern fails the run with no error attached and deletes nothing. */
  lemma InvalidPatternFailsWithoutCause(t: Tree, locked: set<Path>, e1: Expansion)
    ensures Clean(t, locked, [InvalidPattern, e1]) == (Err(CliError(None, 2)), t)
  {
  }

  /** With nothing matched by either pattern the run succeeds and the tree is untouched. */
  lemma NothingToCleanSucceeds(t: Tree, locked: set<Path>)
    ensures Clean(t, locked, [Entries([]), Entries([])]) == (Ok(()), t)
  {
  }

  /**
   * Partial failure: a deletable `__pycache__` directory and a locked `.pyc` file.
   * The directory goes, the file is attempted and stays, and the run fails with the
   * file's error.
   */
  lemma LockedPycFailsAfterCacheRemoved()
    ensures var cache := ["pkg", "__pycache__"];
      var pyc := ["pkg", "a.pyc"];
      var t := map[["pkg"] := Directory, cache := Directory, cache + ["m.pyc"] := File, pyc := File];
      Clean(t, {pyc}, [Entries([Match(cache)]), Entries([Match(pyc)])])
        == (Err(CliError(Some(PermissionDenied(pyc)), 2)), map[["pkg"] := Directory, pyc := File])
  {
    var cache := ["pkg", "__pycache__"];
    var pyc := ["pkg", "a.pyc"];
    var t := map[["pkg"] := Directory, cache := Directory, cache + ["m.pyc"] := File, pyc := File];
    var exps := [Entries([Match(cache)]), Entries([Match(pyc)])];
    var pruned := map[["pkg"] := Directory, pyc := File];
    assert !(cache <= pyc) by { assert cache[1] != pyc[1]; }
    assert !(cache <= ["pkg"]);
    assert !(exists q :: q in {pyc} && q in t && cache <= q);
    assert cache <= cache + ["m.pyc"];
    var m := map q | q in t && !(cache <= q) :: t[q];
    assert t.Keys == {["pkg"], cache, cache + ["m.pyc"], pyc};
    assert m.Keys == pruned.Keys;
    assert m == pruned;
    assert Delete(t, {pyc}, Directory, cache) == Ok(pruned);
    var s1 := Sweep(pruned, true, None);
    assert SweepEntries({pyc}, Directory, Sweep(t, true, None), [Match(cache)]) == s1;
    var s2 := Sweep(pruned, false, Some(PermissionDenied(pyc)));
    assert SweepEntries({pyc}, File, s1, [Match(pyc)]) == s2;
    var pats := DeletePatterns();
    assert CleanFrom({pyc}, pats, exps, Sweep(t, true, None)) == CleanFrom({pyc}, pats[1..], exps[1..], s1);
    assert CleanFrom({pyc}, pats[1..], exps[1..], s1) == CleanFrom({pyc}, pats[2..], exps[2..], s2);
  }

  /** The working directory's subtree as a mutable object. */
  class Filesystem {
    const locked: set<Path>
    var tree: Tree

    constructor (tree: Tree, locked: set<Path>)
      ensures this.tree == tree && this.locked == locked
    {
      this.tree := tree;
      this.locked := locked;
    }

    /** `std::fs::remove_dir_all`. */
    method RemoveDirAll(p: Path) returns (r: Result<(), IoError>)
      modifies this
      ensures var d := Delete(old(tree), locked, Directory, p);
        if d.Ok? then r == Ok(()) && tree == d.value else r == Err(d.error) && tree == old(tree)
    {
      var d := Delete(tree, locked, Directory, p);
      if d.Ok? {
        tree := d.value;
        r := Ok(());
      } else {
        r := Err(d.error);
      }
    }

    /** `std::fs::remove_file`. */
    method RemoveFile(p: Path) returns (r: Result<(), IoError>)
      modifies this
      ensures var d := Delete(old(tree), locked, File, p);
        if d.Ok? then r == Ok(()) && tree == d.value else r == Err(d.error) && tree == old(tree)
    {
      var d := Delete(tree, locked, File, p);
      if d.Ok? {
        tree := d.value;
        r := Ok(());
      } else {
        r := Err(d.error);
      }
    }
  }

  /** `clean_pycache::run`. */
  method Run(fs: Filesystem, expansions: seq<Expansion>) returns (r: Result<(), CliError>)
    requires |expansions| == |DeletePatterns()|
    modifies fs
    ensures (r, fs.tree) == Clean(old(fs.tree), fs.locked, expansions)
  {
    var patterns := DeletePatterns();
    var success := true;
    var error: Option<IoError> := None;
    for i := 0 to |patterns|
      invariant CleanFrom(fs.locked, patterns[i..], expansions[i..], Sweep(fs.tree, success, error))
             == CleanFrom(fs.locked, patterns, expansions, Sweep(old(fs.tree), true, None))
    {
      ghost var before := Sweep(fs.tree, success, error);
      if success {
        match expansions[i]
        case InvalidPattern =>
          success := false;
        case Entries(entries) =>
          var fileLevelSuccess := true;
          for j := 0 to |entries|
            invariant SweepEntries(fs.locked, patterns[i].pathType, Sweep(fs.tree, fileLevelSuccess, error), entries[j..])
                   == SweepEntries(fs.locked, patterns[i].pathType, before, entries)
          {
            match entries[j]
            case Match(p) =>
              var removed;
              match patterns[i].pathType {
                case Directory => removed := fs.RemoveDirAll(p);
                case File => removed := fs.RemoveFile(p);
              }
              if removed.Err? {
                fileLevelSuccess := false;
                error := Some(removed.error);
              }
            case WalkError(cause) =>
              fileLevelSuccess := false;
              error := Some(cause);
          }
          success := fileLevelSuccess;
      }
    }
    if success {
      r := Ok(());
    } else {
      r := Err(CliError(error, 2));
    }
  }
}
