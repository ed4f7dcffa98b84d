/** The two text forms an Entry renders: the `pfind` index line and the debug `repr`. */
module Formats {
  import opened Wrappers
  import opened Text
  import opened Dirent
  import opened Paths

  /**
   * `entry_pfind_str`: the inode as `%lld`, a tab, the iterator path, `/`,
   * the raw name, and a newline. It reads the raw record, not the caches.
   */
  function PfindLine(iterPath: Bytes, r: DirRecord): (line: Bytes)
    ensures |line| >= 4 && line[|line| - 1] == '\n'
  {
    SignedDecimal(AsLong(r.ino)) + ['\t'] + Join(iterPath, r.name) + ['\n']
  }

  /** The position of the first tab in `s`, if there is one. */
  function FirstTab(s: seq<char>): (k: Option<nat>)
    ensures k.Some? ==> k.value < |s| && s[k.value] == '\t' && '\t' !in s[..k.value]
    ensures k.None? ==> '\t' !in s
  {
    if s == [] then None
    else if s[0] == '\t' then Some(0)
    else
      var k := FirstTab(s[1..]);
      assert k.Some? ==> s[..k.value + 1] == [s[0]] + s[1..][..k.value];
      assert s == [s[0]] + s[1..];
      match k
      case None => None
      case Some(j) => Some(j + 1)
  }

  /**
   * Reads a `pfind` line back: the number before the first tab, and the path
   * between that tab and the final newline. Names and paths may themselves
   * hold tabs and newlines; the numeral never does.
   */
  function ParsePfindLine(line: Bytes): (r: Option<(int, Bytes)>)
  {
    if line == [] || line[|line| - 1] != '\n' then None
    else match FirstTab(line)
      case None => None
      case Some(k) =>
        match ParseSigned(line[..k])
        case None => None
        case Some(x) => Some((x, line[k + 1..|line| - 1]))
  }

  lemma {:induction false} FirstTabAfterTabFree(a: Bytes, b: Bytes)
    requires '\t' !in a
    ensures FirstTab(a + ['\t'] + b) == Some(|a|)
  {
    if a != [] {
      assert (a + ['\t'] + b)[1..] == a[1..] + ['\t'] + b;
      assert forall c :: c in a[1..] ==> c in a;
      FirstTabAfterTabFree(a[1..], b);
    }
  }

  /** The line is unambiguous: it always parses back to the `%lld` inode and the entry's path. */
  lemma PfindLineRoundTrip(iterPath: Bytes, r: DirRecord)
    ensures ParsePfindLine(PfindLine(iterPath, r)) == Some((AsLong(r.ino), Join(iterPath, r.name)))
  {
    var num := SignedDecimal(AsLong(r.ino));
    var path := Join(iterPath, r.name);
    var line := PfindLine(iterPath, r);
    assert line == num + ['\t'] + (path + ['\n']);
    FirstTabAfterTabFree(num, path + ['\n']);
    assert line[..|num|] == num;
    ParseSignedOfSigned(AsLong(r.ino));
    assert line[|num| + 1..|line| - 1] == path;
  }

  /** For every inode below `2^63` the line starts with the plain decimal inode. */
  lemma PfindLineSmallInode(iterPath: Bytes, r: DirRecord)
    requires r.ino < LONG_LIMIT
    ensures PfindLine(iterPath, r) == DecimalNat(r.ino) + ['\t'] + iterPath + ['/'] + r.name + ['\n']
  {
  }

  /**
   * `entry_repr`: `<Entry(path=%s, d_ino=%lld, d_type=%s, d_name=%s)>` filled
   * with the `repr` of the iterator path, the raw inode, the type name chosen
   * by the raw tag, and the `repr` of the name.
   */
  function EntryRepr(iterPath: Bytes, r: DirRecord): (text: string)
  {
    "<Entry(path=" + PyRepr(iterPath)
    + ", d_ino=" + SignedDecimal(AsLong(r.ino))
    + ", d_type=" + ReprTypeName(r.tag)
    + ", d_name=" + PyRepr(r.name)
    + ")>"
  }

  /** Text between single quotes, as `repr` shows a plain `str`. */
  function SingleQuoted(s: Bytes): (quoted: string)
    ensures |quoted| == |s| + 2
  {
    ['\''] + s + ['\'']
  }

  /**
   * For a plain path and name the repr quotes them with `'` unchanged, and it
   * names the same constant as `d_type()`.
   */
  lemma EntryReprPlain(iterPath: Bytes, r: DirRecord)
    requires Plain(iterPath) && Plain(r.name)
    ensures EntryRepr(iterPath, r)
      == "<Entry(path=" + SingleQuoted(iterPath) + ", d_ino=" + SignedDecimal(AsLong(r.ino))
         + ", d_type=" + TypeName(Classify(r.tag)) + ", d_name=" + SingleQuoted(r.name) + ")>"
  {
    PlainRepr(iterPath);
    PlainRepr(r.name);
    ReprNameAgreesWithClassify(r.tag);
  }
}
