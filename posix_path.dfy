/**
 * The parts of Python's `posixpath` and `os.makedirs` the cache and the command-line tools use.
 * Paths are plain strings; no normalisation happens (`a//b` and `a/b` are different strings).
 */
module PosixPath {
  import opened Wrappers
  import opened Text

  predicate AllSlashes(s: string) {
    forall i :: 0 <= i < |s| ==> s[i] == '/'
  }

  predicate IsAbsolute(p: string) {
    |p| > 0 && p[0] == '/'
  }

  /** `os.path.join(a, b)`: an absolute `b` replaces `a`; otherwise one separator is inserted when needed. */
  function PathJoin(a: string, b: string): (r: string)
    ensures IsAbsolute(b) ==> r == b
    ensures !IsAbsolute(b) ==> exists sep :: sep in {"", "/"} && r == a + sep + b
    ensures !IsAbsolute(b) && a != [] && a[|a| - 1] != '/' ==> r == a + "/" + b
  {
    if IsAbsolute(b) then b
    else if a == [] || a[|a| - 1] == '/' then
      assert a + b == a + "" + b;
      a + b
    else a + "/" + b
  }

  /** Joining onto a fixed directory never maps two names that are both relative, or both absolute, to one path. */
  lemma PathJoinInjective(dir: string, b1: string, b2: string)
    requires IsAbsolute(b1) <==> IsAbsolute(b2)
    ensures PathJoin(dir, b1) == PathJoin(dir, b2) <==> b1 == b2
  {
    if !IsAbsolute(b1) {
      var prefix := if dir == [] || dir[|dir| - 1] == '/' then dir else dir + "/";
      assert PathJoin(dir, b1) == prefix + b1 && PathJoin(dir, b2) == prefix + b2;
      assert b1 == (prefix + b1)[|prefix|..];
      assert b2 == (prefix + b2)[|prefix|..];
    }
  }

  /** The index just after the last '/' in `p`, or 0. */
  function LastSlashEnd(p: string): (i: nat)
    ensures i <= |p|
    ensures i > 0 ==> p[i - 1] == '/'
    ensures forall j :: i <= j < |p| ==> p[j] != '/'
    decreases |p|
  {
    if p == [] then 0
    else if p[|p| - 1] == '/' then |p|
    else LastSlashEnd(p[..|p| - 1])
  }

  /** `head.rstrip('/')`. */
  function StripTrailingSlashes(s: string): (r: string)
    ensures |r| <= |s| && r == s[..|r|]
    ensures r == [] || r[|r| - 1] != '/'
    ensures AllSlashes(s[|r|..])
    decreases |s|
  {
    if s != [] && s[|s| - 1] == '/' then
      var r := StripTrailingSlashes(s[..|s| - 1]);
      assert s[|r|..] == s[..|s| - 1][|r|..] + [s[|s| - 1]];
      r
    else s
  }

  /** `os.path.split(p)`: the head (a directory) and the tail after the last separator. */
  function SplitPath(p: string): (r: (string, string))
    ensures |r.0| <= |p| && r.0 == p[..|r.0|]
    ensures |r.1| <= |p| && r.1 == p[|p| - |r.1|..]
    ensures '/' !in r.1
  {
    var i := LastSlashEnd(p);
    var head := p[..i];
    var tail := p[i..];
    assert forall j :: 0 <= j < |tail| ==> tail[j] == p[i + j];
    if head != [] && !AllSlashes(head) then (StripTrailingSlashes(head), tail) else (head, tail)
  }

  /** `os.path.dirname(p)`. */
  function Dirname(p: string): string {
    SplitPath(p).0
  }

  /** The error `os.makedirs` raises: `mkdir("")` fails with FileNotFoundError. */
  datatype OsError = FileNotFoundError(path: string)

  /** `os.path.exists(p)`: the empty path never exists. */
  predicate Exists(existing: set<string>, p: string) {
    p != [] && p in existing
  }

  /**
   * The directories `os.makedirs(p)` creates when `existing` holds the paths that already exist
   * (as files or directories): `p` itself and, first, every missing ancestor reached by `os.path.split`.
   * The empty path has no head to recurse into, and `mkdir("")` raises.
   */
  function MakeDirs(existing: set<string>, p: string): (r: Result<set<string>, OsError>)
    ensures r.Failure? <==> p == []
    ensures r.Failure? ==> r.error == FileNotFoundError(p)
    ensures r.Success? ==> p in r.value
    decreases |p|
  {
    var (head, tail) := SplitPath(p);
    var (head, tail) := if tail == [] then SplitPath(head) else (head, tail);
    if head != [] && tail != [] && !Exists(existing, head) then
      match MakeDirs(existing, head)
      case Success(parents) => Success(parents + {p})
      case Failure(e) => Failure(e)
    else if p == [] then Failure(FileNotFoundError(p))
    else Success({p})
  }

  /** Every directory `os.makedirs` creates is the path itself or a strict prefix of it. */
  lemma {:induction false} MakeDirsWithinPath(existing: set<string>, p: string)
    ensures MakeDirs(existing, p).Success? ==>
      forall d :: d in MakeDirs(existing, p).value ==> |d| <= |p| && d == p[..|d|]
    decreases |p|
  {
    var (head, tail) := SplitPath(p);
    var (head2, tail2) := if tail == [] then SplitPath(head) else (head, tail);
    if head2 != [] && tail2 != [] && !Exists(existing, head2) {
      MakeDirsWithinPath(existing, head2);
    }
  }
}
