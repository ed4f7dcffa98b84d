/**
 * The module's three Python types as objects with state: `Entry` (a raw
 * record, a reference to its iterator and three lazily filled caches),
 * `DirectoryIter` (a cursor over the stream of records) and `Directory` (a
 * path and a lazily opened descriptor). The three refer to one another, so
 * they share one module.
 */
module DirectoryModule {
  import opened Wrappers
  import opened Text
  import opened Dirent
  import opened Paths
  import opened Formats
  import opened Syscalls

  /** How one call of `next` ends, as the caller sees it. */
  datatype Next = Yield(entry: Entry) | End | Raise(error: PyError)

  /** The record-level view of a `Next`, as `IterStep` states it. */
  function StepOf(n: Next): (step: Step)
    ensures step.Yielded? <==> n.Yield?
  {
    match n
    case Yield(e) => Yielded(e.record)
    case End => Exhausted
    case Raise(err) => Failed(err)
  }

  /**
   * `DirectoryIterObject`: the path it was opened with, and a `DIR *` stream.
   * The stream is modelled by the records the OS will deliver and how many
   * of them it has delivered.
   */
  class DirectoryIter {
    const path: Bytes
    /** The descriptor under the stream, or `None` for a null `dirp`. */
    const stream: Option<nat>
    /** The records the stream delivers, in the order the OS delivers them. */
    const records: seq<DirRecord>
    /** How many records `readdir_r` has delivered so far. */
    var pos: nat
    /** Set once the runtime has deallocated the object. */
    ghost var freed: bool

    ghost predicate Valid()
      reads this
    {
      pos <= |records|
    }

    /** The object `make_new_directory_iter` fills after a successful `fdopendir`. */
    constructor (path: Bytes, fd: nat, records: seq<DirRecord>)
      ensures Valid() && !freed
      ensures this.path == path && stream == Some(fd) && this.records == records && pos == 0
    {
      this.path := path;
      this.stream := Some(fd);
      this.records := records;
      pos := 0;
      freed := false;
    }

    /**
     * `directory_iter_next`: one `readdir_r`. A new Entry holds a copy of the
     * delivered record, a reference to this iterator and empty caches.
     */
    method Next(o: ReadOracle) returns (n: Next, calls: seq<SysCall>)
      requires Valid()
      modifies this`pos
      ensures Valid()
      ensures (pos, StepOf(n)) == IterStep(records, old(pos), o)
      ensures n.Yield? ==> fresh(n.entry) && n.entry.iter == this && n.entry.Fresh()
      ensures calls == [ReadDir(o.code)]
    {
      calls := [ReadDir(o.code)];
      if o.code != 0 {
        n := Raise(IOError(o.errno, None));
      } else if pos == |records| {
        n := End;
      } else {
        var e := new Entry(records[pos], this);
        pos := pos + 1;
        n := Yield(e);
      }
    }

    /** `directory_iter_type_dealloc`: the stream is closed only if there is one. */
    method Dealloc() returns (calls: seq<SysCall>)
      requires !freed
      modifies this`freed
      ensures freed
      ensures calls == DeallocIter(stream)
    {
      calls := if stream.Some? then [CloseDir(stream.value)] else [];
      freed := true;
    }
  }

  /**
   * `make_new_directory_iter`: an iterator exists only if both the `open` and
   * the `fdopendir` succeed; `records` is what the new stream will deliver.
   */
  method NewDirectoryIter(path: Bytes, o: IterOracle, records: seq<DirRecord>)
    returns (r: Result<DirectoryIter, PyError>, calls: seq<SysCall>)
    ensures var s := OpenDirStream(path, o);
      && calls == s.calls
      && r.Ok? == s.result.Ok?
      && (r.Err? ==> r.error == s.result.error)
      && (r.Ok? ==> fresh(r.value) && r.value.Valid() && !r.value.freed
                    && r.value.path == path && r.value.stream == Some(s.result.value)
                    && r.value.records == records && r.value.pos == 0)
  {
    calls := [Open(path, o.fd)];
    if o.fd != -1 {
      calls := calls + [FdOpenDir(o.fd, o.streamOk)];
    }
    if o.fd == -1 {
      r := Err(IOError(o.errno, Some(path)));
    } else if !o.streamOk {
      calls := calls + [Close(o.fd)];
      r := Err(IOError(o.errno, Some(path)));
    } else {
      var it := new DirectoryIter(path, o.fd, records);
      r := Ok(it);
    }
  }

  /**
   * `EntryObject`: a copy of one raw record, the iterator that delivered it,
   * and the caches behind `d_name()`, `d_ino()` and `d_type()`.
   */
  class Entry {
    const record: DirRecord
    const iter: DirectoryIter
    var nameCache: Option<Bytes>
    var inoCache: Option<int>
    var typeCache: Option<EntryType>

    /** Every filled cache holds what its accessor computes from the raw record. */
    ghost predicate Valid()
      reads this
    {
      && (nameCache.Some? ==> nameCache.value == record.name)
      && (inoCache.Some? ==> inoCache.value == AsLong(record.ino))
      && (typeCache.Some? ==> typeCache.value == Classify(record.tag))
    }

    /** All three caches are empty. */
    ghost predicate Fresh()
      reads this
    {
      nameCache.None? && inoCache.None? && typeCache.None?
    }

    /** `make_new_entry`: copy the record, keep the iterator, leave every cache empty. */
    constructor (record: DirRecord, iter: DirectoryIter)
      ensures this.record == record && this.iter == iter
      ensures Fresh() && Valid()
    {
      this.record := record;
      this.iter := iter;
      nameCache, inoCache, typeCache := None, None, None;
    }

    /** `entry_d_name`: the raw name, computed on the first call only. */
    method DName() returns (name: Bytes)
      requires Valid()
      modifies this`nameCache
      ensures Valid()
      ensures name == record.name && nameCache == Some(name)
      ensures old(nameCache).Some? ==> nameCache == old(nameCache)
    {
      if nameCache.None? {
        nameCache := Some(record.name);
      }
      name := nameCache.value;
    }

    /** `entry_d_ino`: the raw inode as a Python `int` (a signed `long`), computed on the first call only. */
    method DIno() returns (ino: int)
      requires Valid()
      modifies this`inoCache
      ensures Valid()
      ensures ino == AsLong(record.ino) && inoCache == Some(ino)
      ensures old(inoCache).Some? ==> inoCache == old(inoCache)
    {
      if inoCache.None? {
        inoCache := Some(AsLong(record.ino));
      }
      ino := inoCache.value;
    }

    /** `entry_d_type`: the constant for the raw tag, computed on the first call only. */
    method DType() returns (t: EntryType)
      requires Valid()
      modifies this`typeCache
      ensures Valid()
      ensures t == Classify(record.tag) && typeCache == Some(t)
      ensures old(typeCache).Some? ==> typeCache == old(typeCache)
    {
      if typeCache.None? {
        typeCache := Some(Classify(record.tag));
      }
      t := typeCache.value;
    }

    /** `entry_path`: the iterator's path, `/`, and the raw name, byte for byte. */
    function Path(): (p: Bytes)
      ensures |p| == |iter.path| + 1 + |record.name|
      ensures p[..|iter.path|] == iter.path && p[|iter.path|] == '/' && p[|iter.path| + 1..] == record.name
    {
      Join(iter.path, record.name)
    }

    /**
     * `entry_pfind_str`: one line that reads back as the inode `d_ino()`
     * reports and the path `path()` reports.
     */
    function PfindStr(): (line: Bytes)
      ensures 4 <= |line| && line[|line| - 1] == '\n'
      ensures ParsePfindLine(line) == Some((AsLong(record.ino), Path()))
    {
      PfindLineRoundTrip(iter.path, record);
      PfindLine(iter.path, record)
    }

    /**
     * `entry_directory`: `None` exactly when the raw tag is not `DT_DIR`
     * (the cache is not consulted); otherwise a new, unopened Directory
     * for `path()`.
     */
    method Subdirectory() returns (d: Option<Directory>)
      ensures d.None? <==> record.tag != DT_DIR
      ensures d.Some? ==> fresh(d.value) && d.value.path == Path() && d.value.dirp == -1
                          && d.value.opens == 0 && !d.value.freed
    {
      if record.tag != DT_DIR {
        return None;
      }
      var dir := new Directory(Join(iter.path, record.name));
      d := Some(dir);
    }

    /** `entry_open`: create or open the raw name under the descriptor of the iterator's own stream. */
    method Open(o: EntryOpenOracle) returns (r: Result<File, PyError>, calls: seq<SysCall>)
      ensures (r, calls) == EntryOpenStep(iter.path, iter.stream, record.name, o)
      ensures forall c :: c in calls && c.OpenAt? ==> iter.stream == Some(c.dirfd)
    {
      var dfd := if iter.stream.Some? && o.dirfdOk then iter.stream.value else -1;
      if dfd == -1 {
        return Err(IOError(o.errno, Some(iter.path))), [DirFd(-1)];
      }
      var path := Path();
      calls := [DirFd(dfd), DirFd(dfd), OpenAt(dfd, record.name, o.fileFd)];
      if o.fileFd == -1 {
        return Err(IOError(o.errno, Some(path))), calls;
      }
      calls := calls + [FdOpen(o.fileFd, o.fdopenOk)];
      if !o.fdopenOk {
        return Err(IOError(o.errno, Some(path))), calls;
      }
      r := Ok(File(o.fileFd, path, "r+"));
    }

    /** `entry_repr`: the debug text; it goes through `d_name()`, so it fills the name cache. */
    method ReprString() returns (s: string)
      requires Valid()
      modifies this`nameCache
      ensures Valid() && nameCache == Some(record.name)
      ensures s == EntryRepr(iter.path, record)
    {
      var name := DName();
      s := "<Entry(path=" + PyRepr(iter.path)
        + ", d_ino=" + SignedDecimal(AsLong(record.ino))
        + ", d_type=" + ReprTypeName(record.tag)
        + ", d_name=" + PyRepr(name)
        + ")>";
    }
  }

  /**
   * `DirectoryObject`: a path and a descriptor `dirp`, -1 until the first
   * `open` call opens it.
   */
  class Directory {
    const path: Bytes
    var dirp: FdResult
    /** How many times the directory itself has been passed to `open(2)`. */
    ghost var opens: nat
    /** Set once the runtime has deallocated the object. */
    ghost var freed: bool

    /** `make_new_directory`: store the path and leave `dirp` at -1; no system call. */
    constructor (path: Bytes)
      ensures this.path == path && dirp == -1 && opens == 0 && !freed
    {
      this.path := path;
      dirp := -1;
      opens := 0;
      freed := false;
    }

    /**
     * `directory_open`: the state machine `DirectoryOpenStep` on `dirp`. The
     * directory is opened only while `dirp` is -1, so once it is open every
     * later call reuses it.
     */
    method Open(arg: PyArg, o: OpenOracle) returns (r: Result<File, PyError>, calls: seq<SysCall>)
      modifies this`dirp, this`opens
      ensures var s := DirectoryOpenStep(path, old(dirp), arg, o);
        dirp == s.dirp && r == s.result && calls == s.calls
      ensures opens == old(opens) + if arg.Str? && old(dirp) == -1 then 1 else 0
    {
      if arg.NotStr? {
        return Err(TypeError(OPEN_TYPE_ERROR)), [];
      }
      var name := arg.s;
      calls := [];
      if dirp == -1 {
        dirp := o.dirFd;
        opens := opens + 1;
        calls := calls + [SysCall.Open(path, o.dirFd)];
      }
      var fd: FdResult := -1;
      if dirp != -1 {
        fd := o.fileFd;
        calls := calls + [OpenAt(dirp, name, fd)];
      }
      var fp := false;
      if fd != -1 {
        fp := o.fdopenOk;
        calls := calls + [FdOpen(fd, fp)];
      }
      if dirp == -1 || fd == -1 || !fp {
        r := Err(IOError(o.errno, None));
      } else {
        r := Ok(File(fd, Join(path, name), "w+"));
      }
    }

    /**
     * `directory_iter`: a fresh iterator over `path`, built from a scan of
     * its own; `dirp` is not touched.
     */
    method Iter(o: IterOracle, records: seq<DirRecord>) returns (r: Result<DirectoryIter, PyError>, calls: seq<SysCall>)
      ensures unchanged(this)
      ensures var s := OpenDirStream(path, o);
        && calls == s.calls
        && r.Ok? == s.result.Ok?
        && (r.Err? ==> r.error == s.result.error)
        && (r.Ok? ==> fresh(r.value) && r.value.Valid() && !r.value.freed
                      && r.value.path == path && r.value.records == records
                      && r.value.pos == 0 && r.value.stream == Some(s.result.value))
    {
      r, calls := NewDirectoryIter(path, o, records);
    }

    /** `directory_type_dealloc`: `dirp` is closed only if it was opened. */
    method Dealloc() returns (calls: seq<SysCall>)
      requires !freed
      modifies this`freed
      ensures freed
      ensures calls == DeallocDirectory(dirp)
    {
      calls := if dirp != -1 then [Close(dirp)] else [];
      freed := true;
    }
  }
}
