/**
 * The system calls the module issues, with their results as oracle inputs,
 * and the decisions the module takes on those results. Every operation here
 * is a total function of its inputs and the oracle; each returns the trace
 * of system calls it issued, so that descriptor ownership can be stated.
 */
module Syscalls {
  import opened Wrappers
  import opened Text
  import opened Dirent
  import opened Paths

  /** What `open`, `openat` and `dirfd` return: a descriptor, or -1 on failure. */
  type FdResult = x: int | -1 <= x

  /** One system call, with the result the OS gave it. */
  datatype SysCall =
    | Open(path: Bytes, result: FdResult)              // open(path, O_DIRECTORY | O_RDONLY)
    | FdOpenDir(fd: int, ok: bool)                   // fdopendir(fd): a stream, or NULL
    | OpenAt(dirfd: int, name: Bytes, result: FdResult)// openat(dirfd, name, O_CREAT | O_RDWR, 0777)
    | FdOpen(fd: int, ok: bool)                      // fdopen(fd, "r+"): a FILE, or NULL
    | DirFd(result: FdResult)                          // dirfd(stream)
    | ReadDir(code: int)                             // readdir_r(stream, ...): 0 or an error number
    | Close(fd: int)                                 // close(fd)
    | CloseDir(fd: int)                              // closedir(stream), which closes the stream's fd

  /** The exceptions the module raises. */
  datatype PyError = IOError(errno: int, filename: Option<Bytes>) | TypeError(message: string)

  const OPEN_TYPE_ERROR: string := "Directory.open(...) must be called with a str"

  /** The argument of `Directory.open`: a Python `str`, or any other object. */
  datatype PyArg = Str(s: Bytes) | NotStr

  /** The Python file object wrapped around a `FILE *`: its descriptor, its name label and its mode label. */
  datatype File = File(fd: int, name: Bytes, mode: string)

  /** The descriptor a successful directory `open` returned. */
  function OpenedBy(c: SysCall): (fds: seq<int>)
  {
    if c.Open? && c.result != -1 then [c.result] else []
  }

  /** The descriptor a `close` or `closedir` released. */
  function ReleasedBy(c: SysCall): (fds: seq<int>)
  {
    if c.Close? || c.CloseDir? then [c.fd] else []
  }

  /** The descriptors that successful directory `open` calls returned, in order. */
  function DirOpens(trace: seq<SysCall>): (fds: seq<int>)
  {
    if trace == [] then [] else OpenedBy(trace[0]) + DirOpens(trace[1..])
  }

  /** The descriptors released by `close` or `closedir`, in order. */
  function Releases(trace: seq<SysCall>): (fds: seq<int>)
  {
    if trace == [] then [] else ReleasedBy(trace[0]) + Releases(trace[1..])
  }

  /** `DirOpens` lists the descriptor of every successful directory `open` in the trace, and nothing else. */
  lemma {:induction false} DirOpensMembers(trace: seq<SysCall>, fd: int)
    ensures fd in DirOpens(trace) <==> exists i :: 0 <= i < |trace| && trace[i].Open? && trace[i].result == fd != -1
    decreases |trace|
  {
    if trace != [] {
      DirOpensMembers(trace[1..], fd);
      if fd in DirOpens(trace[1..]) {
        var i :| 0 <= i < |trace[1..]| && trace[1..][i].Open? && trace[1..][i].result == fd != -1;
        assert trace[i + 1] == trace[1..][i];
      }
      if exists i :: 0 <= i < |trace| && trace[i].Open? && trace[i].result == fd != -1 {
        var i :| 0 <= i < |trace| && trace[i].Open? && trace[i].result == fd != -1;
        if i > 0 {
          assert trace[1..][i - 1] == trace[i];
        }
      }
    }
  }

  /** `Releases` lists the descriptor of every `close` and `closedir` in the trace, and nothing else. */
  lemma {:induction false} ReleasesMembers(trace: seq<SysCall>, fd: int)
    ensures fd in Releases(trace) <==> exists i :: 0 <= i < |trace| && (trace[i].Close? || trace[i].CloseDir?) && trace[i].fd == fd
    decreases |trace|
  {
    if trace != [] {
      ReleasesMembers(trace[1..], fd);
      if fd in Releases(trace[1..]) {
        var i :| 0 <= i < |trace[1..]| && (trace[1..][i].Close? || trace[1..][i].CloseDir?) && trace[1..][i].fd == fd;
        assert trace[i + 1] == trace[1..][i];
      }
      if exists i :: 0 <= i < |trace| && (trace[i].Close? || trace[i].CloseDir?) && trace[i].fd == fd {
        var i :| 0 <= i < |trace| && (trace[i].Close? || trace[i].CloseDir?) && trace[i].fd == fd;
        if i > 0 {
          assert trace[1..][i - 1] == trace[i];
        }
      }
    }
  }

  lemma TraceOfOne(x: SysCall)
    ensures DirOpens([x]) == OpenedBy(x) && Releases([x]) == ReleasedBy(x)
  {
    assert [x][1..] == [];
    assert OpenedBy(x) + [] == OpenedBy(x) && ReleasedBy(x) + [] == ReleasedBy(x);
  }

  lemma TraceOfTwo(x: SysCall, y: SysCall)
    ensures DirOpens([x, y]) == OpenedBy(x) + OpenedBy(y)
    ensures Releases([x, y]) == ReleasedBy(x) + ReleasedBy(y)
  {
    assert [x, y][1..] == [y];
    TraceOfOne(y);
  }

  lemma TraceOfThree(x: SysCall, y: SysCall, z: SysCall)
    ensures DirOpens([x, y, z]) == OpenedBy(x) + OpenedBy(y) + OpenedBy(z)
    ensures Releases([x, y, z]) == ReleasedBy(x) + ReleasedBy(y) + ReleasedBy(z)
  {
    assert [x, y, z][1..] == [y, z];
    TraceOfTwo(y, z);
  }

  lemma {:induction false} DirOpensAppend(a: seq<SysCall>, b: seq<SysCall>)
    ensures DirOpens(a + b) == DirOpens(a) + DirOpens(b)
  {
    if a == [] {
      assert a + b == b;
    } else {
      assert (a + b)[0] == a[0];
      assert (a + b)[1..] == a[1..] + b;
      DirOpensAppend(a[1..], b);
    }
  }

  lemma {:induction false} ReleasesAppend(a: seq<SysCall>, b: seq<SysCall>)
    ensures Releases(a + b) == Releases(a) + Releases(b)
  {
    if a == [] {
      assert a + b == b;
    } else {
      assert (a + b)[0] == a[0];
      assert (a + b)[1..] == a[1..] + b;
      ReleasesAppend(a[1..], b);
    }
  }

  // ---------------------------------------------------------------------------
  // Directory.open

  /** The results the OS gives the three steps of `Directory.open`, and `errno` on failure. */
  datatype OpenOracle = OpenOracle(dirFd: FdResult, fileFd: FdResult, fdopenOk: bool, errno: int)

  /** The new `dirp`, the value or exception returned, and the system calls issued. */
  datatype OpenStep = OpenStep(dirp: FdResult, result: Result<File, PyError>, calls: seq<SysCall>)

  /**
   * `directory_open`: reject a non-`str` name before touching anything; open
   * the directory only while `dirp` is -1; `openat` the name only under an
   * open `dirp`; `fdopen` only a descriptor `openat` returned. Any failed step
   * raises `IOError` from `errno`, without a filename.
   */
  function DirectoryOpenStep(path: Bytes, dirp: FdResult, arg: PyArg, o: OpenOracle): (s: OpenStep)
    ensures arg.NotStr? ==> s == OpenStep(dirp, Err(TypeError(OPEN_TYPE_ERROR)), [])
    ensures dirp != -1 ==> s.dirp == dirp && forall c :: c in s.calls ==> !c.Open?
    ensures arg.Str? && dirp == -1 ==> s.dirp == o.dirFd && 1 <= |s.calls| && s.calls[0] == Open(path, o.dirFd)
    ensures (exists c :: c in s.calls && c.OpenAt?) <==> arg.Str? && s.dirp != -1
    ensures forall c :: c in s.calls && c.OpenAt? ==> c.dirfd == s.dirp && c.name == arg.s
    ensures s.result.Ok? <==> arg.Str? && s.dirp != -1 && o.fileFd != -1 && o.fdopenOk
    ensures s.result.Ok? ==> s.result.value == File(o.fileFd, Join(path, arg.s), "w+")
    ensures arg.Str? && s.result.Err? ==> s.result.error == IOError(o.errno, None)
    ensures Releases(s.calls) == []
  {
    if arg.NotStr? then OpenStep(dirp, Err(TypeError(OPEN_TYPE_ERROR)), [])
    else
      var dirp' := if dirp == -1 then o.dirFd else dirp;
      var dirOpen := if dirp == -1 then [Open(path, o.dirFd)] else [];
      var fd := if dirp' != -1 then o.fileFd else -1;
      var created := if dirp' != -1 then [OpenAt(dirp', arg.s, o.fileFd)] else [];
      var fp := fd != -1 && o.fdopenOk;
      var wrapped := if fd != -1 then [FdOpen(fd, o.fdopenOk)] else [];
      var result :=
        if dirp' == -1 || fd == -1 || !fp then Err(IOError(o.errno, None))
        else Ok(File(fd, Join(path, arg.s), "w+"));
      assert Releases(dirOpen) == Releases(created) == Releases(wrapped) == [];
      ReleasesAppend(dirOpen, created);
      ReleasesAppend(dirOpen + created, wrapped);
      OpenStep(dirp', result, dirOpen + created + wrapped)
  }

  /** One call of `Directory.open`: its argument and what the OS answers. */
  datatype OpenCall = OpenCall(arg: PyArg, oracle: OpenOracle)

  /** A run of `Directory.open` calls on one Directory: the final `dirp` and every system call, in order. */
  function RunOpens(path: Bytes, dirp: FdResult, calls: seq<OpenCall>): (r: (FdResult, seq<SysCall>))
    decreases |calls|
  {
    if calls == [] then (dirp, [])
    else
      var s := DirectoryOpenStep(path, dirp, calls[0].arg, calls[0].oracle);
      var rest := RunOpens(path, s.dirp, calls[1..]);
      (rest.0, s.calls + rest.1)
  }

  /** `directory_type_dealloc`: the descriptor is closed only if it was opened. */
  function DeallocDirectory(dirp: FdResult): (calls: seq<SysCall>)
    ensures Releases(calls) == if dirp != -1 then [dirp] else []
    ensures DirOpens(calls) == []
  {
    if dirp != -1 then [Close(dirp)] else []
  }

  /**
   * Over any run of `open` calls, a Directory opens its own descriptor at most
   * once: starting from -1 the only successful directory `open` is the one
   * whose descriptor ends up in `dirp`; once `dirp` is set it is reused and
   * never reopened. No call of `open` releases anything.
   */
  lemma {:induction false} RunOpensReusesDescriptor(path: Bytes, dirp: FdResult, calls: seq<OpenCall>)
    ensures Releases(RunOpens(path, dirp, calls).1) == []
    ensures dirp != -1 ==> RunOpens(path, dirp, calls).0 == dirp && DirOpens(RunOpens(path, dirp, calls).1) == []
    ensures dirp == -1 ==>
      var d := RunOpens(path, dirp, calls).0;
      DirOpens(RunOpens(path, dirp, calls).1) == if d != -1 then [d] else []
    decreases |calls|
  {
    if calls != [] {
      var s := DirectoryOpenStep(path, dirp, calls[0].arg, calls[0].oracle);
      var rest := RunOpens(path, s.dirp, calls[1..]);
      RunOpensReusesDescriptor(path, s.dirp, calls[1..]);
      DirOpensAppend(s.calls, rest.1);
      ReleasesAppend(s.calls, rest.1);
      assert DirOpens(s.calls) == if dirp == -1 && s.dirp != -1 then [s.dirp] else [] by {
        DirectoryOpenDirOpens(path, dirp, calls[0].arg, calls[0].oracle);
      }
    }
  }

  /** The only successful directory `open` one call of `Directory.open` can issue is the one that sets `dirp`. */
  lemma DirectoryOpenDirOpens(path: Bytes, dirp: FdResult, arg: PyArg, o: OpenOracle)
    ensures var s := DirectoryOpenStep(path, dirp, arg, o);
      DirOpens(s.calls) == if dirp == -1 && s.dirp != -1 then [s.dirp] else []
  {
    var s := DirectoryOpenStep(path, dirp, arg, o);
    if arg.Str? {
      var c := s.calls;
      assert forall i :: 1 <= i < |c| ==> !c[i].Open?;
      assert dirp != -1 ==> !c[0].Open?;
      assert DirOpens(c) == DirOpens(c[..1]) + DirOpens(c[1..]) by {
        assert c == c[..1] + c[1..];
        DirOpensAppend(c[..1], c[1..]);
      }
      NoOpens(c[1..]);
    }
  }

  lemma {:induction false} NoOpens(trace: seq<SysCall>)
    requires forall i :: 0 <= i < |trace| ==> !trace[i].Open?
    ensures DirOpens(trace) == []
  {
    if trace != [] {
      NoOpens(trace[1..]);
    }
  }

  /**
   * From creation to dealloc, a Directory's own descriptor is opened at most
   * once and released exactly as often as it was opened.
   */
  lemma DirectoryLifecycle(path: Bytes, calls: seq<OpenCall>)
    ensures var (d, trace) := RunOpens(path, -1, calls);
      var life := trace + DeallocDirectory(d);
      |DirOpens(life)| <= 1 && Releases(life) == DirOpens(life)
  {
    var (d, trace) := RunOpens(path, -1, calls);
    RunOpensReusesDescriptor(path, -1, calls);
    DirOpensAppend(trace, DeallocDirectory(d));
    ReleasesAppend(trace, DeallocDirectory(d));
  }

  // ---------------------------------------------------------------------------
  // DirectoryIter construction and release

  /** The results the OS gives `open` and `fdopendir`, and `errno` on failure. */
  datatype IterOracle = IterOracle(fd: FdResult, streamOk: bool, errno: int)

  /** The descriptor under the new stream, or the exception; and the system calls issued. */
  datatype StreamOpen = StreamOpen(result: Result<nat, PyError>, calls: seq<SysCall>)

  /**
   * `make_new_directory_iter`, up to the object allocation: open the path,
   * then `fdopendir` the descriptor; if the second step fails the descriptor
   * is closed before `IOError` (with the path as filename) is raised.
   */
  function OpenDirStream(path: Bytes, o: IterOracle): (r: StreamOpen)
    ensures 1 <= |r.calls| && r.calls[0] == Open(path, o.fd) && |DirOpens(r.calls)| <= 1
    ensures r.result.Ok? <==> o.fd != -1 && o.streamOk
    ensures r.result.Ok? ==> r.result.value == o.fd && DirOpens(r.calls) == [o.fd] && Releases(r.calls) == []
    ensures r.result.Err? ==> r.result.error == IOError(o.errno, Some(path)) && Releases(r.calls) == DirOpens(r.calls)
  {
    if o.fd == -1 then
      TraceOfOne(Open(path, -1));
      StreamOpen(Err(IOError(o.errno, Some(path))), [Open(path, -1)])
    else if !o.streamOk then
      var calls := [Open(path, o.fd), FdOpenDir(o.fd, false), Close(o.fd)];
      TraceOfThree(Open(path, o.fd), FdOpenDir(o.fd, false), Close(o.fd));
      StreamOpen(Err(IOError(o.errno, Some(path))), calls)
    else
      var calls := [Open(path, o.fd), FdOpenDir(o.fd, true)];
      TraceOfTwo(Open(path, o.fd), FdOpenDir(o.fd, true));
      StreamOpen(Ok(o.fd), calls)
  }

  /** `directory_iter_type_dealloc`: the stream is closed only if there is one. */
  function DeallocIter(stream: Option<int>): (calls: seq<SysCall>)
    ensures Releases(calls) == if stream.Some? then [stream.value] else []
    ensures DirOpens(calls) == []
  {
    if stream.Some? then [CloseDir(stream.value)] else []
  }

  /**
   * Whether construction fails or the iterator is later released, the
   * descriptor opened for the scan is released exactly once.
   */
  lemma IterLifecycle(path: Bytes, o: IterOracle)
    ensures var r := OpenDirStream(path, o);
      var life := r.calls + (if r.result.Ok? then DeallocIter(Some(r.result.value)) else []);
      |DirOpens(life)| <= 1 && Releases(life) == DirOpens(life)
  {
    var r := OpenDirStream(path, o);
    if r.result.Ok? {
      DirOpensAppend(r.calls, DeallocIter(Some(r.result.value)));
      ReleasesAppend(r.calls, DeallocIter(Some(r.result.value)));
    } else {
      assert r.calls + [] == r.calls;
    }
  }

  // ---------------------------------------------------------------------------
  // DirectoryIter.next

  /** What `readdir_r` returns, and `errno` when it fails. */
  datatype ReadOracle = ReadOracle(code: int, errno: int)

  /** How one `next` ends: an entry for a record, the end of the stream, or an exception. */
  datatype Step = Yielded(record: DirRecord) | Exhausted | Failed(error: PyError)

  /**
   * `directory_iter_next` over a stream that will deliver `records` and has
   * delivered the first `pos`: a nonzero `readdir_r` code raises `IOError`
   * (from `errno`, without filename); a null result ends the iteration with no
   * error; otherwise the next record is delivered.
   */
  function IterStep(records: seq<DirRecord>, pos: nat, o: ReadOracle): (r: (nat, Step))
    requires pos <= |records|
    ensures pos <= r.0 <= |records|
    ensures r.1.Failed? <==> o.code != 0
    ensures r.1.Failed? ==> r.1.error == IOError(o.errno, None)
    ensures r.1.Exhausted? <==> o.code == 0 && pos == |records|
    ensures r.1.Yielded? ==> r.0 == pos + 1 && r.1.record == records[pos]
    ensures !r.1.Yielded? ==> r.0 == pos
  {
    if o.code != 0 then (pos, Failed(IOError(o.errno, None)))
    else if pos == |records| then (pos, Exhausted)
    else (pos + 1, Yielded(records[pos]))
  }

  /** Repeated `next` calls, one per oracle answer: the final position and every step's outcome. */
  function Drive(records: seq<DirRecord>, pos: nat, oracles: seq<ReadOracle>): (r: (nat, seq<Step>))
    requires pos <= |records|
    ensures pos <= r.0 <= |records| && |r.1| == |oracles|
    decreases |oracles|
  {
    if oracles == [] then (pos, [])
    else
      var (pos', step) := IterStep(records, pos, oracles[0]);
      var rest := Drive(records, pos', oracles[1..]);
      (rest.0, [step] + rest.1)
  }

  /** The records the steps delivered, in order. */
  function Yields(steps: seq<Step>): (delivered: seq<DirRecord>)
  {
    if steps == [] then []
    else (if steps[0].Yielded? then [steps[0].record] else []) + Yields(steps[1..])
  }

  /**
   * Whatever the OS answers, repeated `next` calls deliver a prefix of the
   * stream's remaining records, each exactly once and in stream order.
   */
  lemma {:induction false} DriveYieldsInOrder(records: seq<DirRecord>, pos: nat, oracles: seq<ReadOracle>)
    requires pos <= |records|
    ensures Yields(Drive(records, pos, oracles).1) == records[pos..Drive(records, pos, oracles).0]
    decreases |oracles|
  {
    if oracles != [] {
      var (pos', step) := IterStep(records, pos, oracles[0]);
      DriveYieldsInOrder(records, pos', oracles[1..]);
      var r := Drive(records, pos, oracles);
      assert r.1[1..] == Drive(records, pos', oracles[1..]).1;
      if step.Yielded? {
        assert records[pos..r.0] == [records[pos]] + records[pos'..r.0];
      }
    }
  }

  /**
   * Driving the iterator to the end when `readdir_r` never fails delivers
   * every remaining record in stream order, and then the end of the stream.
   */
  lemma DriveToEnd(records: seq<DirRecord>, pos: nat, oracles: seq<ReadOracle>)
    requires pos <= |records|
    requires forall i :: 0 <= i < |oracles| ==> oracles[i].code == 0
    requires |records| - pos < |oracles|
    ensures Drive(records, pos, oracles).0 == |records|
    ensures Yields(Drive(records, pos, oracles).1) == records[pos..]
    ensures Drive(records, pos, oracles).1[|records| - pos] == Exhausted
  {
    DriveWithoutErrors(records, pos, oracles);
    DriveYieldsInOrder(records, pos, oracles);
  }

  lemma {:induction false} DriveWithoutErrors(records: seq<DirRecord>, pos: nat, oracles: seq<ReadOracle>)
    requires pos <= |records|
    requires forall i :: 0 <= i < |oracles| ==> oracles[i].code == 0
    requires |records| - pos < |oracles|
    ensures Drive(records, pos, oracles).0 == |records|
    ensures Drive(records, pos, oracles).1[|records| - pos] == Exhausted
    decreases |oracles|
  {
    var (pos', step) := IterStep(records, pos, oracles[0]);
    if pos < |records| {
      DriveWithoutErrors(records, pos', oracles[1..]);
    } else {
      AtEndStaysAtEnd(records, oracles[1..]);
    }
  }

  /** Once the stream is exhausted no later call delivers a record. */
  lemma {:induction false} AtEndStaysAtEnd(records: seq<DirRecord>, oracles: seq<ReadOracle>)
    ensures Drive(records, |records|, oracles).0 == |records|
    ensures forall k :: 0 <= k < |oracles| ==> !Drive(records, |records|, oracles).1[k].Yielded?
    decreases |oracles|
  {
    if oracles != [] {
      AtEndStaysAtEnd(records, oracles[1..]);
    }
  }

  /** Exhaustion is permanent: after a step that reports the end, no later step delivers a record. */
  lemma {:induction false} ExhaustionIsPermanent(records: seq<DirRecord>, pos: nat, oracles: seq<ReadOracle>, i: nat, j: nat)
    requires pos <= |records|
    requires i < j < |oracles|
    requires Drive(records, pos, oracles).1[i].Exhausted?
    ensures !Drive(records, pos, oracles).1[j].Yielded?
    decreases |oracles|
  {
    var (pos', step) := IterStep(records, pos, oracles[0]);
    if i == 0 {
      AtEndStaysAtEnd(records, oracles[1..]);
      assert Drive(records, pos, oracles).1[j] == Drive(records, pos', oracles[1..]).1[j - 1];
    } else {
      ExhaustionIsPermanent(records, pos', oracles[1..], i - 1, j - 1);
    }
  }

  // ---------------------------------------------------------------------------
  // Entry.open

  /**
   * Whether `dirfd` succeeds on the iterator's stream, the results the OS
   * gives `openat` and `fdopen`, and `errno` on failure.
   */
  datatype EntryOpenOracle = EntryOpenOracle(dirfdOk: bool, fileFd: FdResult, fdopenOk: bool, errno: int)

  /** What `dirfd` returns for the iterator's stream: its descriptor, or -1. */
  function StreamFd(stream: Option<nat>, o: EntryOpenOracle): (fd: FdResult)
    ensures fd != -1 <==> stream.Some? && o.dirfdOk
    ensures fd != -1 ==> stream == Some(fd)
  {
    if stream.Some? && o.dirfdOk then stream.value else -1
  }

  /**
   * `entry_open` for an entry of an iterator over `iterPath` whose stream
   * stands on the descriptor `stream`: without a descriptor for the stream it
   * raises `IOError` naming the iterator path; otherwise it creates or opens
   * the raw name under the stream's own descriptor, and a failure from there
   * on names the entry's path. The file is labelled with the entry's path and
   * mode `r+`. The stream is left open.
   */
  function EntryOpenStep(iterPath: Bytes, stream: Option<nat>, name: Bytes, o: EntryOpenOracle)
    : (r: (Result<File, PyError>, seq<SysCall>))
    ensures StreamFd(stream, o) == -1 ==> r == (Err(IOError(o.errno, Some(iterPath))), [DirFd(-1)])
    ensures StreamFd(stream, o) != -1 ==>
              |r.1| >= 3 && r.1[0] == DirFd(stream.value) && r.1[2] == OpenAt(stream.value, name, o.fileFd)
    ensures StreamFd(stream, o) != -1 && r.0.Err? ==> r.0.error == IOError(o.errno, Some(Join(iterPath, name)))
    ensures r.0.Ok? <==> stream.Some? && o.dirfdOk && o.fileFd != -1 && o.fdopenOk
    ensures r.0.Ok? ==> r.0.value == File(o.fileFd, Join(iterPath, name), "r+")
    ensures forall c :: c in r.1 && c.OpenAt? ==> stream == Some(c.dirfd) && c.name == name
    ensures forall c :: c in r.1 ==> !c.Close? && !c.CloseDir?
  {
    var dfd := StreamFd(stream, o);
    if dfd == -1 then (Err(IOError(o.errno, Some(iterPath))), [DirFd(-1)])
    else
      var path := Join(iterPath, name);
      var created := [DirFd(dfd), DirFd(dfd), OpenAt(dfd, name, o.fileFd)];
      if o.fileFd == -1 then (Err(IOError(o.errno, Some(path))), created)
      else if !o.fdopenOk then (Err(IOError(o.errno, Some(path))), created + [FdOpen(o.fileFd, false)])
      else (Ok(File(o.fileFd, path, "r+")), created + [FdOpen(o.fileFd, true)])
  }
}
