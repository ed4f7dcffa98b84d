/** Concrete runs of the model: the path join the tests check, and worked examples on a small directory `/tmp/d`. */
module Scenarios {
  import opened Wrappers
  import opened Text
  import opened Dirent
  import opened Paths
  import opened Formats
  import opened Syscalls
  import opened DirectoryModule

  /**
   * The path the tests expect of every entry of the `d2` subdirectory,
   * `os.path.join(PATH, "d2", name)`, is the module's own join of the join.
   */
  lemma EntryPathIsOsPathJoin(root: Bytes, name: Bytes)
    requires root != [] && root[|root| - 1] != '/'
    requires '/' !in name
    ensures Join(Join(root, "d2"), name) == PosixJoin(PosixJoin(root, "d2"), name)
  {
    JoinIsPosixJoin(root, "d2");
    assert name != [] ==> name[0] in name;
    JoinIsPosixJoin(Join(root, "d2"), name);
  }

  /** A regular file `a.txt` with inode 101 in `/tmp/d`: its type, path and `pfind` line. */
  lemma RegularFileEntry()
    ensures var r := DirRecord("a.txt", 101, DT_REG);
      && Classify(r.tag) == Reg
      && Join("/tmp/d", r.name) == "/tmp/d/a.txt"
      && PfindLine("/tmp/d", r) == "101\t/tmp/d/a.txt\n"
  {
    assert DecimalNat(101) == DecimalNat(10) + ['1'];
    assert DecimalNat(10) == DecimalNat(1) + ['0'];
  }

  /**
   * A Directory opens its own descriptor on the first `open`, and the file is
   * labelled with the Directory's path joined with the name.
   */
  method FirstOpenOpensDirectory() returns (d: Directory)
    ensures fresh(d) && d.path == "/tmp/d" && d.dirp == 3 && d.opens == 1 && !d.freed
  {
    d := new Directory("/tmp/d");
    var r1, c1 := d.Open(Str("new.txt"), OpenOracle(3, 4, true, 0));
    assert Join("/tmp/d", "new.txt") == "/tmp/d/new.txt";
    assert r1 == Ok(File(4, "/tmp/d/new.txt", "w+"));
  }

  /**
   * The second `open` reuses the descriptor: it issues no directory `open` at
   * all, and dealloc closes that one descriptor.
   */
  method OpenTwiceReusesDescriptor()
  {
    var d := FirstOpenOpensDirectory();
    var r2, c2 := d.Open(Str("new.txt"), OpenOracle(9, 5, true, 0));
    assert c2 == [OpenAt(3, "new.txt", 5), FdOpen(5, true)];
    assert d.dirp == 3 && d.opens == 1;
    var closing := d.Dealloc();
    assert closing == [Close(3)];
  }

  /** A name that is not a `str` is refused before any system call. */
  method NonStrNameIsRefused()
  {
    var d := new Directory("/tmp/d");
    var r, c := d.Open(NotStr, OpenOracle(9, 6, true, 0));
    assert r.Err? && r.error.TypeError? && c == [] && d.dirp == -1;
  }

  /** An Entry's `open` runs `openat` under the descriptor of its own iterator's stream. */
  method EntryOpensUnderItsStream()
  {
    var it := new DirectoryIter("/tmp/d", 3, []);
    var e := new Entry(DirRecord("a.txt", 101, DT_REG), it);
    var r, calls := e.Open(EntryOpenOracle(true, 8, true, 0));
    assert calls[2] == OpenAt(3, "a.txt", 8);
    assert Join("/tmp/d", "a.txt") == "/tmp/d/a.txt";
    assert r == Ok(File(8, "/tmp/d/a.txt", "r+"));
  }

  /** A failed directory open leaves `dirp` at -1, so the next call tries again. */
  method FailedOpenIsRetried()
  {
    var d := new Directory("/tmp/missing");
    var r1, c1 := d.Open(Str("x"), OpenOracle(-1, 4, true, 2));
    assert r1 == Err(IOError(2, None)) && c1 == [SysCall.Open("/tmp/missing", -1)];
    assert d.dirp == -1;
    var r2, c2 := d.Open(Str("x"), OpenOracle(5, 6, true, 0));
    assert d.dirp == 5 && d.opens == 2 && r2.Ok?;
    var closing := d.Dealloc();
    assert closing == [Close(5)];
  }

  /**
   * Iterating a directory that holds `a.txt` and the subdirectory `b`: every
   * record comes back once, `.` and `..` included, then the end, and the end
   * stays the end.
   */
  method IterateTwoEntries()
  {
    var dot := DirRecord(".", 100, DT_DIR);
    var dotdot := DirRecord("..", 2, DT_DIR);
    var a := DirRecord("a.txt", 101, DT_REG);
    var b := DirRecord("b", 102, DT_DIR);
    var d := new Directory("/tmp/d");
    var r, calls := d.Iter(IterOracle(3, true, 0), [dot, a, dotdot, b]);
    assert r.Ok? && d.dirp == -1;
    var it := r.value;
    var ok := ReadOracle(0, 0);
    var n1, _ := it.Next(ok);
    assert n1.Yield? && n1.entry.record == dot;
    var n2, _ := it.Next(ok);
    assert n2.Yield? && n2.entry.record == a && n2.entry.iter == it;
    var n3, _ := it.Next(ok);
    assert n3.Yield? && n3.entry.record == dotdot;
    var n4, _ := it.Next(ok);
    assert n4.Yield? && n4.entry.record == b;
    var n5, _ := it.Next(ok);
    assert n5 == End;
    var n6, _ := it.Next(ok);
    assert n6 == End;
    var closing := it.Dealloc();
    assert closing == [CloseDir(3)];
  }

  /** The entry for `a.txt` is a regular file with no Directory; the one for `b` gives a Directory for `/tmp/d/b`. */
  method EntriesOfTwo(it: DirectoryIter)
    requires it.path == "/tmp/d"
  {
    var fileEntry := new Entry(DirRecord("a.txt", 101, DT_REG), it);
    var t := fileEntry.DType();
    assert t == Reg;
    var none := fileEntry.Subdirectory();
    assert none.None?;
    assert fileEntry.Path() == "/tmp/d/a.txt";

    var dirEntry := new Entry(DirRecord("b", 102, DT_DIR), it);
    var sub := dirEntry.Subdirectory();
    assert Join("/tmp/d", "b") == "/tmp/d/b";
    assert sub.Some? && sub.value.path == "/tmp/d/b" && sub.value.dirp == -1;
  }
}
