/**
 * The one way the module builds a child path: the parent path, a `/`, and
 * the name, copied byte for byte with no normalisation.
 */
module Paths {
  import opened Wrappers
  import opened Text

  /** `parent + "/" + name`, the buffer that `entry_path`, `entry_directory` and `directory_open` fill. */
  function Join(parent: Bytes, name: Bytes): (p: Bytes)
    ensures |p| == |parent| + 1 + |name|
    ensures p[..|parent|] == parent && p[|parent|] == '/' && p[|parent| + 1..] == name
  {
    parent + ['/'] + name
  }

  /** The position of the last `/` in `s`, if there is one. */
  function LastSlash(s: seq<char>): (k: Option<nat>)
    ensures k.Some? ==> k.value < |s| && s[k.value] == '/' && '/' !in s[k.value + 1..]
    ensures k.None? ==> '/' !in s
  {
    if s == [] then None
    else if s[|s| - 1] == '/' then Some(|s| - 1)
    else
      var k := LastSlash(s[..|s| - 1]);
      assert k.Some? ==> s[k.value + 1..] == s[..|s| - 1][k.value + 1..] + [s[|s| - 1]];
      assert s == s[..|s| - 1] + [s[|s| - 1]];
      k
  }

  /** Splits a path at its last `/` into the parent and the final name. */
  function SplitAtLastSlash(p: Bytes): (r: Option<(Bytes, Bytes)>)
    ensures r.None? <==> '/' !in p
  {
    match LastSlash(p)
    case None => None
    case Some(k) => Some((p[..k], p[k + 1..]))
  }

  /** A directory-entry name never holds a `/`, so the join can be undone: the parent and the name come back. */
  lemma SplitJoin(parent: Bytes, name: Bytes)
    requires '/' !in name
    ensures SplitAtLastSlash(Join(parent, name)) == Some((parent, name))
  {
    var p := Join(parent, name);
    assert p[|parent|] == '/';
  }

  /** The other direction: whatever splits at its last `/` is the join of the two halves. */
  lemma JoinSplit(p: Bytes)
    requires '/' in p
    ensures var (parent, name) := SplitAtLastSlash(p).value; Join(parent, name) == p && '/' !in name
  {
    var k := LastSlash(p).value;
    assert p == p[..k] + [p[k]] + p[k + 1..];
  }

  /** Python's `posixpath.join` for two components. */
  function PosixJoin(a: Bytes, b: Bytes): (p: Bytes)
  {
    if b != [] && b[0] == '/' then b
    else if a == [] || a[|a| - 1] == '/' then a + b
    else a + ['/'] + b
  }

  /**
   * The module's join agrees with `os.path.join` when the parent is a
   * non-empty path without a trailing `/` and the name does not start with
   * `/`; otherwise the module keeps every byte (a trailing `/` is doubled).
   */
  lemma JoinIsPosixJoin(parent: Bytes, name: Bytes)
    requires parent != [] && parent[|parent| - 1] != '/'
    requires name == [] || name[0] != '/'
    ensures Join(parent, name) == PosixJoin(parent, name)
  {
  }

  /** A trailing `/` on the parent is not collapsed. */
  lemma JoinDoesNotNormalise(parent: Bytes, name: Bytes)
    requires parent != [] && parent[|parent| - 1] == '/'
    requires name == [] || name[0] != '/'
    ensures Join(parent, name) != PosixJoin(parent, name)
  {
  }
}
