/** The two POSIX path operations the modelled code relies on: `os.path.join`
    (used to build the token and client-secret paths) and `os.path.dirname`
    (used to decide whether the Excel tool creates a directory). */
module OsPath {

  type Path = string

  predicate AllSlashes(s: string) {
    forall k :: 0 <= k < |s| ==> s[k] == '/'
  }

  /** `os.path.join(a, b)`: an absolute `b` replaces `a`; otherwise one '/'
      separates them unless `a` is empty or already ends with one. */
  function Join(a: Path, b: Path): Path {
    if b != [] && b[0] == '/' then b
    else if a == [] || a[|a| - 1] == '/' then a + b
    else a + "/" + b
  }

  /** The shape of a join with a relative `b`: `a`, then one '/' unless `a`
      is empty or already ends with one, then `b`. */
  lemma JoinShape(a: Path, b: Path)
    ensures b != [] && b[0] == '/' ==> Join(a, b) == b
    ensures b == [] || b[0] != '/' ==>
      var r := Join(a, b);
      var n := |r| - |b|;
      && |a| <= n <= |a| + 1
      && r[..|a|] == a && r[n..] == b
      && (n == |a| <==> a == [] || a[|a| - 1] == '/')
      && (n == |a| + 1 ==> r[|a|] == '/')
  {
  }

  /** `p.rfind('/') + 1`: the index just past the last '/', or 0. */
  function AfterLastSlash(p: Path): (i: nat)
    ensures i <= |p|
    ensures i > 0 ==> p[i - 1] == '/'
    ensures forall k :: i <= k < |p| ==> p[k] != '/'
  {
    if p == [] then 0
    else if p[|p| - 1] == '/' then |p|
    else
      AfterLastSlash(p[..|p| - 1])
  }

  /** `s.rstrip('/')`. */
  function TrimTrailingSlashes(s: string): (r: string)
    ensures r <= s
    ensures r == [] || r[|r| - 1] != '/'
    ensures forall k :: |r| <= k < |s| ==> s[k] == '/'
  {
    if s != [] && s[|s| - 1] == '/' then TrimTrailingSlashes(s[..|s| - 1]) else s
  }

  /** `os.path.dirname(p)`: everything up to the last '/', with trailing
      slashes removed unless it consists of slashes only. The result is a
      prefix of `p`, and it is empty exactly when `p` holds no '/'. */
  function DirName(p: Path): (d: Path)
    ensures d <= p
    ensures d == "" <==> '/' !in p
  {
    var i := AfterLastSlash(p);
    var head := p[..i];
    if head != "" && !AllSlashes(head) then
      var d := TrimTrailingSlashes(head);
      assert d != "" by {
        var k :| 0 <= k < |head| && head[k] != '/';
      }
      d
    else head
  }
}
