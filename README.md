# directory: a verified model of `directorymodule.c`

`directorymodule.c` is a CPython 2 extension that walks one directory with
`opendir`/`readdir_r` and creates files relative to a directory descriptor
with `openat`. It defines three Python types:

- `Directory`: a path and a descriptor `dirp`. The descriptor is -1 until the
  first `open(name)` opens the directory, and it is reused afterwards.
  `open(name)` creates or opens `name` under it. Iterating a `Directory`
  builds a new `DirectoryIter` with its own scan of the path.
- `DirectoryIter`: a `DIR *` stream over a path. Each `next` reads one record
  with `readdir_r` and wraps it in an `Entry`.
- `Entry`: a copy of one `struct dirent` and a reference to its iterator. It
  has lazily cached `d_name()`, `d_ino()` and `d_type()`, plus `path()`,
  `directory()`, `open()`, `pfind_str()` and a `repr`.

The model keeps each of these in its own form. The text and classification
logic is pure functions. The objects are classes whose fields the methods
update: the Entry caches, the iterator position and the Directory's `dirp`.
The file system is abstract. A directory stream is the sequence of records
the OS will deliver. Every system call's result (a descriptor or -1, a
stream or NULL, a `readdir_r` code, `errno`) is an oracle input. Every
operation returns the trace of system calls it issued, with their results,
so the model can state which descriptors are opened, reused and released.

Modules:
- `Wrappers`: `Option` and `Result`.
- `Text`: byte strings, the `%lld` numeral, and CPython 2's `repr` of a `str`.
- `Dirent`: the raw record, the `DT_*` tags, and the `d_type` and `repr` switches.
- `Paths`: the `parent + "/" + name` join, its inverse, and `posixpath.join`.
- `Formats`: the `pfind_str` line, a parser for it, and the Entry `repr`.
- `Syscalls`: the system-call trace and the pure state machines for
  `Directory.open`, iterator construction, `next`, `Entry.open` and the two
  deallocators, with their lifecycle lemmas.
- `DirectoryModule`: the classes `Entry`, `DirectoryIter` and `Directory`.
- `Scenarios`: concrete runs of the model. They cover the path join the tests check, and worked examples on a small directory `/tmp/d`.

In these details the model follows what the code does:
- `Directory.open` raises `IOError` from `errno` without a filename. It does
  not name the joined path.
- A `readdir_r` failure also carries no filename.
- A failed `fdopen` in `Directory.open` and `Entry.open` leaves the `openat`
  descriptor open. The traces show this, and no lemma claims otherwise.
- The file `Directory.open` returns is labelled with mode `w+`, although the
  stream is opened `r+`. `Entry.open` labels its file `r+`.
- `Entry.directory()` tests the raw `d_type` tag, not the `d_type()` cache.

## Model

| member | source | states |
|---|---|---|
| `Dirent.Classify` | directorymodule.c:457-482 | the value `d_type()` yields is the raw tag when the tag is one of DT_BLK, DT_CHR, DT_DIR, DT_FIFO, DT_LNK, DT_REG, DT_SOCK, and DT_UNKNOWN for every other tag |
| `Dirent.TagValue` | directorymodule.c:645-652 | the registered constants: only the unknown constant has value DT_UNKNOWN, and every other constant's value is one of the seven known tags |
| `Dirent.ClassifyTagValue` | directorymodule.c:645-652 | classifying a constant's own value gives back that constant, so each of the eight constants is reached by exactly its own tag |
| `Dirent.ReprNameAgreesWithClassify` | directorymodule.c:258-283 | the type name `repr` picks from the raw tag is always the name of the constant `d_type()` returns for that tag |
| `Dirent.TypeNameInjective` | directorymodule.c:645-652 | the eight constants have eight distinct names |
| `Dirent.AsLong` | directorymodule.c:396-397 | the inode as a signed 64-bit `long`: in range, congruent to the unsigned inode modulo 2^64, and equal to it below 2^63 |
| `Text.DecimalNat` | directorymodule.c:407 | the numeral `%lld` prints for a non-negative value is non-empty, all digits, and has no leading zero |
| `Text.ParseDecimalOfDecimal` | directorymodule.c:407 | the decimal numeral reads back as the number it was written from |
| `Text.SignedDecimal` | directorymodule.c:407 | the `%lld` text of any value is non-empty and holds no tab or newline |
| `Text.ParseSignedOfSigned` | directorymodule.c:407 | the `%lld` text of any signed value reads back as that value |
| `Text.EscapeByte` | directorymodule.c:249-255 | one byte inside a `repr`: shown as itself exactly when it is printable ASCII other than the quote and backslash, otherwise as a backslash escape of at most four bytes, all printable |
| `Text.Escape` | directorymodule.c:249-255 | the escaped text is between one and four times as long as the input and is printable ASCII throughout |
| `Text.PyRepr` | directorymodule.c:249-255 | the `repr` of a name or path begins and ends with the quote CPython chooses for it and is printable ASCII throughout |
| `Text.UnescapeEscape` | directorymodule.c:249-255 | for either quote, the escaped text reads back, escape by escape, as exactly the original bytes |
| `Text.PyReprReadsBack` | directorymodule.c:249-255 | the text between the two quotes of a `repr` reads back as the shown `str`, so it holds no unescaped quote and loses or alters no byte |
| `Text.PlainRepr` | directorymodule.c:249-255 | printable text without quote or backslash is shown unchanged between single quotes |
| `Paths.Join` | directorymodule.c:183-189 | the child path is the parent, then `/`, then the name, byte for byte |
| `Paths.SplitJoin` | directorymodule.c:183-189 | for a name without `/`, splitting the joined path at its last `/` gives back the parent and the name |
| `Paths.JoinSplit` | directorymodule.c:230-233 | any path that holds a `/` is the join of what lies before and after its last `/`, and that last part has no `/` |
| `Paths.JoinIsPosixJoin` | tests/test_directorymodule.py:39-40 | the join equals `os.path.join` when the parent is non-empty without a trailing `/` and the name does not start with `/` |
| `Paths.JoinDoesNotNormalise` | directorymodule.c:198-201 | with a trailing `/` on the parent the join differs from `os.path.join`: nothing is normalised |
| `Formats.PfindLine` | directorymodule.c:403-409 | the `pfind_str` line is at least four bytes long and ends in a newline |
| `Formats.PfindLineRoundTrip` | directorymodule.c:407 | the line always parses back to the `%lld` inode and the iterator path + `/` + raw name, whatever tabs or newlines the path holds |
| `Formats.PfindLineSmallInode` | directorymodule.c:407 | for an inode below 2^63 the line is exactly decimal(inode), tab, iterator path, `/`, name, newline |
| `Formats.EntryReprPlain` | directorymodule.c:246-290 | for a plain path and name the `repr` is `<Entry(path='…', d_ino=…, d_type=…, d_name='…')>` and names the constant `d_type()` returns |
| `Syscalls.DirOpensMembers` | directorymodule.c:220-221 | a descriptor is among a trace's directory opens exactly when some directory `open` in the trace returned it rather than -1 |
| `Syscalls.ReleasesMembers` | directorymodule.c:53-71 | a descriptor is among a trace's releases exactly when some `close` or `closedir` in the trace released it |
| `Syscalls.DirectoryOpenStep` | directorymodule.c:206-236 | `Directory.open`: a non-str name raises TypeError with no state change and no call; an open `dirp` is kept and no directory `open` is issued; from -1 the directory is opened first and `dirp` takes its result; `openat` is tried exactly when `dirp` ends up open, under that `dirp`; success means all three steps succeeded and returns the file labelled path + `/` + name, mode `w+`; every failure is IOError from errno without filename; nothing is closed |
| `Syscalls.DirectoryOpenDirOpens` | directorymodule.c:220-221 | one `open` call issues a successful directory open only when `dirp` goes from -1 to a descriptor, and then only for that descriptor |
| `Syscalls.RunOpensReusesDescriptor` | directorymodule.c:220-223 | over any run of `open` calls, once `dirp` is set it never changes and the directory is never opened again; from -1 the only successful directory open is the one whose descriptor ends in `dirp` |
| `Syscalls.DeallocDirectory` | directorymodule.c:55-59 | the Directory's dealloc releases `dirp` if and only if it is not -1, and opens nothing |
| `Syscalls.DirectoryLifecycle` | directorymodule.c:53-61 | from creation to dealloc, a Directory opens its own descriptor at most once and releases exactly the descriptors it opened |
| `Syscalls.OpenDirStream` | directorymodule.c:602-614 | iterator construction opens the path first; it succeeds exactly when both `open` and `fdopendir` succeed, and then owns the one opened descriptor; on failure it raises IOError with the path, and every descriptor it opened has been closed |
| `Syscalls.DeallocIter` | directorymodule.c:64-68 | the iterator's dealloc closes the stream if and only if there is one |
| `Syscalls.IterLifecycle` | directorymodule.c:593-630 | whether construction fails or the iterator is later deallocated, the scan's descriptor is opened at most once and released exactly once |
| `Syscalls.IterStep` | directorymodule.c:121-139 | one `next`: a nonzero `readdir_r` code raises IOError from errno and delivers nothing; a zero code at the end of the stream ends the iteration without error; otherwise the next record is delivered and the position advances by one |
| `Syscalls.Drive` | directorymodule.c:121-139 | repeated `next` calls give one outcome per call and never move past the end of the stream |
| `Syscalls.DriveYieldsInOrder` | directorymodule.c:127-135 | whatever the OS answers, the records delivered by repeated `next` calls are exactly a contiguous run of the stream, each once, in stream order |
| `Syscalls.DriveToEnd` | tests/test_directorymodule.py:18-22 | when `readdir_r` never fails, driving the iterator delivers every remaining record of the stream in order and then reports the end; the test expects all names, `.` and `..` among them |
| `Syscalls.AtEndStaysAtEnd` | directorymodule.c:136-139 | at the end of the stream no further call delivers a record |
| `Syscalls.ExhaustionIsPermanent` | directorymodule.c:132-139 | after a call that reports the end, no later call delivers a record; the code keeps no end flag and calls `readdir_r` again each time, so this holds because the stream's records are fixed |
| `Syscalls.EntryOpenStep` | directorymodule.c:411-452 | `Entry.open`: when `dirfd` gives no descriptor for the iterator's stream it raises IOError naming the iterator path and issues nothing else; otherwise `openat` runs on the raw name under the stream's own descriptor, and any later failure names the entry's path; success means `dirfd`, `openat` and `fdopen` all succeeded and returns the file labelled with the entry path, mode `r+`; nothing is closed |
| `DirectoryModule.DirectoryIter.constructor` | directorymodule.c:615-620 | a new iterator holds the path, the stream over the opened descriptor, and is at the start of its records |
| `DirectoryModule.DirectoryIter.Next` | directorymodule.c:120-139 | `next` moves the position and reports the outcome exactly as `IterStep`; a delivered Entry is new, refers to this iterator, copies the delivered record and has all caches empty; one `readdir_r` is issued |
| `DirectoryModule.DirectoryIter.Dealloc` | directorymodule.c:63-71 | dealloc issues exactly the calls `DeallocIter` gives for the stream |
| `DirectoryModule.NewDirectoryIter` | directorymodule.c:593-630 | the iterator exists exactly when `OpenDirStream` succeeds; it is new, at position 0, over the path, on the descriptor that succeeded; the error and the system calls are those of `OpenDirStream` |
| `DirectoryModule.Entry.constructor` | directorymodule.c:543-559 | a new Entry copies the record, refers to the iterator, and has all three caches empty |
| `DirectoryModule.Entry.DName` | directorymodule.c:174-180 | `d_name()` returns the raw name and fills only the name cache; a filled cache is left as it was |
| `DirectoryModule.Entry.DIno` | directorymodule.c:394-400 | `d_ino()` returns the raw inode as a signed `long` and fills only the inode cache; a filled cache is left as it was |
| `DirectoryModule.Entry.DType` | directorymodule.c:454-487 | `d_type()` returns the constant for the raw tag and fills only the type cache; a filled cache is left as it was |
| `DirectoryModule.Entry.Path` | directorymodule.c:182-190 | `path()` is the iterator's path, `/`, and the raw name, with nothing normalised |
| `DirectoryModule.Entry.PfindStr` | directorymodule.c:402-409 | `pfind_str()` ends in a newline and parses back to exactly the inode `d_ino()` reports and the path `path()` reports |
| `DirectoryModule.Entry.Subdirectory` | directorymodule.c:192-203 | `directory()` is None exactly when the raw tag is not DT_DIR; otherwise it is a new Directory for `path()` with `dirp` -1 |
| `DirectoryModule.Entry.Open` | directorymodule.c:411-452 | `open()` returns and issues exactly what `EntryOpenStep` gives for the iterator's path and stream and the raw name; every `openat` it issues runs under the descriptor of this Entry's own iterator's stream |
| `DirectoryModule.Entry.ReprString` | directorymodule.c:239-302 | the `repr` is the `EntryRepr` text, and producing it fills the name cache through `d_name()` |
| `DirectoryModule.Directory.constructor` | directorymodule.c:562-591 | a new Directory holds its path, has `dirp` -1, and has issued no directory open |
| `DirectoryModule.Directory.Open` | directorymodule.c:205-236 | `open(name)` moves `dirp`, returns and issues exactly what `DirectoryOpenStep` gives; the directory-open count grows by one only for a str name while `dirp` is -1 |
| `DirectoryModule.Directory.Iter` | directorymodule.c:114-118 | iterating a Directory changes nothing in it; the new iterator is over the Directory's path, at its start, and its success, error and system calls are those of `OpenDirStream` |
| `DirectoryModule.Directory.Dealloc` | directorymodule.c:53-61 | dealloc issues exactly the calls `DeallocDirectory` gives for `dirp` |
| `Scenarios.EntryPathIsOsPathJoin` | tests/test_directorymodule.py:36-40 | an entry of `d2` has the path `os.path.join(PATH, "d2", name)` |
| `Scenarios.RegularFileEntry` | directorymodule.c:402-409 | `a.txt` with inode 101 in `/tmp/d` is a regular file, has path `/tmp/d/a.txt`, and has the line `101\t/tmp/d/a.txt\n` |

## Left out

- The system calls themselves (`open`, `openat`, `fdopen`, `fdopendir`, `readdir_r`, `dirfd`, `close`, `closedir`) are not modelled as behaviour. Their results are oracle inputs, and each operation returns the trace of calls it made.
- A directory stream is the fixed sequence of records the OS will deliver. Live changes to the directory during a scan are not modelled, and neither is what the position does after a failed `readdir_r`: the model leaves it in place. The code keeps no end flag and calls `readdir_r` again after the end; that the end stays the end (`Syscalls.ExhaustionIsPermanent`) follows from the fixed records.
- `dirfd` on a null stream is treated as a failing `dirfd`. An iterator the module builds always has a stream.
- `errno` is an oracle value. The model assumes the `close` after a failed `fdopendir` leaves it unchanged.
- `PyFile_FromFile` and `fclose` are foreign library code. A returned file is only its descriptor, name label and mode label.
- Reference counting and the failure of object or string allocation (`PyObject_New`, `PyString_FromString`, `PyObject_Repr` returning NULL) are not modelled. The Entry's reference to its iterator is a plain field.
- The GIL release around blocking calls is left out. It adds no logical concurrency.
- Buffer sizing with `alloca`/`sprintf` is left out: results are plain concatenation. This includes the undersized buffer in `directory_repr` and the fixed 300-byte tail in `pfind_str`.
- Descriptor leaks are not asserted away. A failed `fdopen` leaks the `openat` descriptor in `Directory.open` and `Entry.open`, and the traces show it.
- A `Directory` without a path is not modelled. This covers `Directory()` with no argument (the path pointer is then uninitialised), the `None` path that `make_new_directory_iter` hands to `PyString_AsString`, and `make_new_directory` building the path object twice.
- Names and paths are byte strings. The truncation a C string would apply at a NUL byte is not modelled.
- Module initialisation and registration are replaced by the `EntryType` datatype. `Dirent.TagValue` gives each constant's integer value.
- The `repr` of `Directory` and `DirectoryIter` is left out. It is debug text that wraps the path's `repr`.
- `DirectoryIter.__iter__` (`PyObject_SelfIter`, which returns the iterator itself) and the empty `tp_init` functions are left out. They hold no logic.
- The test `test_directory_path` calls a `Directory.path()` method that the C type does not define, so it is not modelled.
- `setup.py` is build configuration and is not part of this model.
