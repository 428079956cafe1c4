/** The parts of Python's `os.path` (POSIX flavour) that the pipeline uses to build file names. */
module PosixPath {
  import opened Text

  /** `p.rfind('/') + 1`: the index just past the last slash, 0 when there is none. */
  function AfterLastSlash(p: string): (i: nat)
    ensures i <= |p|
    ensures i > 0 ==> p[i - 1] == '/'
    ensures forall k :: i <= k < |p| ==> p[k] != '/'
  {
    if p == [] then 0 else if p[|p| - 1] == '/' then |p| else AfterLastSlash(p[..|p| - 1])
  }

  /** `s.rstrip('/')`. */
  function RStripSlashes(s: string): (r: string)
    ensures |r| <= |s| && r == s[..|r|]
    ensures r == [] || r[|r| - 1] != '/'
  {
    if s != [] && s[|s| - 1] == '/' then RStripSlashes(s[..|s| - 1]) else s
  }

  predicate AllSlashes(s: string) {
    forall k :: 0 <= k < |s| ==> s[k] == '/'
  }

  /**
   * `os.path.dirname(p)`: the text before the last component, without its
   * trailing slashes unless it is made of slashes only. It is always a prefix
   * of `p`, and empty for a bare file name.
   */
  function Dirname(p: string): (d: string)
    ensures PrefixOf(d, p)
    ensures '/' !in p ==> d == ""
  {
    var i := AfterLastSlash(p);
    assert i > 0 ==> p[i - 1] in p;
    var head := p[..i];
    if head != [] && !AllSlashes(head) then RStripSlashes(head) else head
  }

  /** `os.path.join(a, b)` for two components. */
  function PathJoin(a: string, b: string): (r: string)
    ensures |b| > 0 && b[0] == '/' ==> r == b
    ensures |b| <= |r| <= |a| + 1 + |b|
  {
    if |b| > 0 && b[0] == '/' then b
    else if a == [] || a[|a| - 1] == '/' then a + b
    else a + "/" + b
  }

  /**
   * The joined path ends with its second component and, when that component
   * is relative, starts with the first one.
   */
  lemma PathJoinParts(a: string, b: string)
    ensures EndsWith(PathJoin(a, b), b)
    ensures (b == [] || b[0] != '/') ==> PrefixOf(a, PathJoin(a, b))
  {
    var r := PathJoin(a, b);
    if |b| > 0 && b[0] == '/' {
    } else if a == [] || a[|a| - 1] == '/' {
      assert r[|r| - |b|..] == b;
      assert r[..|a|] == a;
    } else {
      assert r[|r| - |b|..] == b;
      assert r[..|a|] == a;
    }
  }

  /** `a` is a leading part of `b`. */
  predicate PrefixOf(a: string, b: string) {
    |a| <= |b| && b[..|a|] == a
  }

  lemma PrefixOfTrans(a: string, b: string, c: string)
    requires PrefixOf(a, b) && PrefixOf(b, c)
    ensures PrefixOf(a, c)
  {
    assert c[..|b|][..|a|] == c[..|a|];
  }

  /**
   * The output file of an enrichment stage: `output_name` in the directory of
   * the input file, or in "." when the input file name has no directory part.
   */
  function OutputBeside(inputFile: string, outputName: string): (path: string)
    ensures '/' !in inputFile && (outputName == [] || outputName[0] != '/') ==> path == "./" + outputName
  {
    var dir := Dirname(inputFile);
    PathJoin(if dir == "" then "." else dir, outputName)
  }

  /** The output file keeps its own name and sits inside the input's directory. */
  lemma OutputBesideParts(inputFile: string, outputName: string)
    requires outputName == [] || outputName[0] != '/'
    ensures EndsWith(OutputBeside(inputFile, outputName), outputName)
    ensures Dirname(inputFile) != "" ==> PrefixOf(Dirname(inputFile), OutputBeside(inputFile, outputName))
  {
    var dir := Dirname(inputFile);
    PathJoinParts(if dir == "" then "." else dir, outputName);
  }
}
