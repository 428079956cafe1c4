/**
 * `get_project_root` and `affix_root_path` of helper_files/helper.py: walk
 * up from the helper file's directory to the first directory holding `.git`.
 * The file system is the predicate `isDir`.
 */
module ProjectRoot {
  import opened Wrappers
  import opened Text
  import opened PosixPath

  /**
   * The directories visited by the walk: `dir`, its parent, and so on, ending
   * at the first directory that is its own parent. Each is a strictly shorter
   * prefix of the one before, which is why the walk ends.
   */
  function Ancestors(dir: string): (r: seq<string>)
    ensures |r| >= 1 && r[0] == dir
    decreases |dir|
  {
    var parent := Dirname(dir);
    if parent == dir then [dir] else [dir] + Ancestors(parent)
  }

  /** Every directory of the walk is a prefix of the first. */
  lemma {:induction false} AncestorsArePrefixes(dir: string)
    ensures forall k :: 0 <= k < |Ancestors(dir)| ==> PrefixOf(Ancestors(dir)[k], dir)
    decreases |dir|
  {
    var parent := Dirname(dir);
    if parent != dir {
      AncestorsArePrefixes(parent);
      var rest := Ancestors(parent);
      forall k | 0 <= k < |rest| ensures PrefixOf(rest[k], dir) {
        PrefixOfTrans(rest[k], parent, dir);
      }
    }
  }

  /** Each directory of the walk is shorter than the one before. */
  lemma {:induction false} AncestorsShrink(dir: string)
    ensures forall k :: 0 <= k < |Ancestors(dir)| - 1 ==> |Ancestors(dir)[k + 1]| < |Ancestors(dir)[k]|
    decreases |dir|
  {
    var parent := Dirname(dir);
    if parent != dir {
      AncestorsShrink(parent);
    }
  }

  /** The directory tested for a `.git` sub-directory. */
  predicate HasGit(isDir: string -> bool, dir: string) {
    isDir(PathJoin(dir, ".git"))
  }

  /** The first of `dirs` that passes `hasGit`, if any. */
  function FirstWhere(dirs: seq<string>, hasGit: string -> bool): Option<string> {
    if dirs == [] then None
    else if hasGit(dirs[0]) then Some(dirs[0])
    else FirstWhere(dirs[1..], hasGit)
  }

  function GitTest(isDir: string -> bool): string -> bool {
    d => HasGit(isDir, d)
  }

  /** The first of `dirs` holding `.git`, if any. */
  function FirstWithGit(dirs: seq<string>, isDir: string -> bool): Option<string> {
    FirstWhere(dirs, GitTest(isDir))
  }

  /**
   * The search finds nothing exactly when no directory holds `.git`, and
   * otherwise a directory of the list that holds it, every earlier one
   * lacking it.
   */
  lemma FirstWithGitFacts(dirs: seq<string>, isDir: string -> bool)
    ensures FirstWithGit(dirs, isDir) == None <==> forall k :: 0 <= k < |dirs| ==> !HasGit(isDir, dirs[k])
    ensures FirstWithGit(dirs, isDir).Some? ==>
              exists k :: 0 <= k < |dirs| && dirs[k] == FirstWithGit(dirs, isDir).value && HasGit(isDir, dirs[k])
                && forall j :: 0 <= j < k ==> !HasGit(isDir, dirs[j])
  {
    FirstWhereFacts(dirs, GitTest(isDir));
  }

  lemma {:induction false} FirstWhereFacts(dirs: seq<string>, hasGit: string -> bool)
    ensures FirstWhere(dirs, hasGit) == None <==> forall k :: 0 <= k < |dirs| ==> !hasGit(dirs[k])
    ensures FirstWhere(dirs, hasGit).Some? ==>
              exists k :: 0 <= k < |dirs| && dirs[k] == FirstWhere(dirs, hasGit).value && hasGit(dirs[k])
                && forall j :: 0 <= j < k ==> !hasGit(dirs[j])
  {
    if dirs != [] && !hasGit(dirs[0]) {
      FirstWhereFacts(dirs[1..], hasGit);
      if FirstWhere(dirs, hasGit).Some? {
        var k :| 0 <= k < |dirs| - 1 && dirs[1..][k] == FirstWhere(dirs, hasGit).value && hasGit(dirs[1..][k])
                 && forall j :: 0 <= j < k ==> !hasGit(dirs[1..][j]);
        assert dirs[k + 1] == dirs[1..][k];
      }
    }
  }

  /**
   * `get_project_root()`: starting at the directory of `helperFile`, test each
   * directory for `.git` and move to its parent, giving up at the root.
   */
  method GetProjectRoot(helperFile: string, isDir: string -> bool) returns (root: Option<string>)
    ensures root == FirstWithGit(Ancestors(Dirname(helperFile)), isDir)
  {
    var current := Dirname(helperFile);
    while true
      invariant FirstWithGit(Ancestors(Dirname(helperFile)), isDir) == FirstWithGit(Ancestors(current), isDir)
      decreases |current|
    {
      assert GitTest(isDir)(current) == HasGit(isDir, current);
      if HasGit(isDir, current) {
        return Some(current);
      }
      var parent := Dirname(current);
      if parent == current {
        assert Ancestors(current) == [current];
        assert FirstWhere([current], GitTest(isDir)) == FirstWhere([], GitTest(isDir));
        return None;
      }
      assert Ancestors(current) == [current] + Ancestors(parent);
      current := parent;
    }
  }

  /** The root found is an ancestor of the helper file's directory and holds `.git`. */
  lemma RootIsGitAncestor(helperFile: string, isDir: string -> bool)
    requires FirstWithGit(Ancestors(Dirname(helperFile)), isDir).Some?
    ensures var d := FirstWithGit(Ancestors(Dirname(helperFile)), isDir).value;
            HasGit(isDir, d) && PrefixOf(d, Dirname(helperFile))
  {
    AncestorsArePrefixes(Dirname(helperFile));
    FirstWithGitFacts(Ancestors(Dirname(helperFile)), isDir);
  }

  /**
   * `affix_root_path(p)`: `p` joined to the project root. Without a root the
   * source passes None to `os.path.join`, which raises; that is `None` here.
   */
  method AffixRootPath(p: string, helperFile: string, isDir: string -> bool) returns (path: Option<string>)
    ensures path.Some? <==> FirstWithGit(Ancestors(Dirname(helperFile)), isDir).Some?
    ensures path.Some? ==> path.value == PathJoin(FirstWithGit(Ancestors(Dirname(helperFile)), isDir).value, p)
  {
    var root := GetProjectRoot(helperFile, isDir);
    match root {
      case None => path := None;
      case Some(r) => path := Some(PathJoin(r, p));
    }
  }
}
