/**
 * One raw directory record (`struct dirent`) and the classification of its
 * `d_type` tag into the module's eight type constants.
 */
module Dirent {
  import opened Text

  /** `2^64`: `ino_t` is an unsigned 64-bit integer. */
  const INO_MODULUS: int := 0x1_0000_0000_0000_0000

  /** `2^63`: the first value a signed 64-bit `long` cannot hold. */
  const LONG_LIMIT: int := 0x8000_0000_0000_0000

  type Ino = x: int | 0 <= x < 0x1_0000_0000_0000_0000

  /** `d_type` is an `unsigned char`. */
  type Tag = t: int | 0 <= t < 256

  // The `DT_*` tags of `<dirent.h>` as glibc defines them on Linux.
  const DT_UNKNOWN: Tag := 0
  const DT_FIFO: Tag := 1
  const DT_CHR: Tag := 2
  const DT_DIR: Tag := 4
  const DT_BLK: Tag := 6
  const DT_REG: Tag := 8
  const DT_LNK: Tag := 10
  const DT_SOCK: Tag := 12

  /** The fields of a `struct dirent` the module reads: `d_name`, `d_ino`, `d_type`. */
  datatype DirRecord = DirRecord(name: Bytes, ino: Ino, tag: Tag)

  /** The eight type constants the module exports (`DT_BLK` ... `DT_UNKNOWN`). */
  datatype EntryType = Blk | Chr | Dir | Fifo | Lnk | Reg | Sock | Unknown

  /** The tags `entry_d_type` and `entry_repr` single out; every other tag is "unknown". */
  predicate KnownTag(tag: Tag) {
    tag == DT_BLK || tag == DT_CHR || tag == DT_DIR || tag == DT_FIFO
    || tag == DT_LNK || tag == DT_REG || tag == DT_SOCK
  }

  /** The integer value the module registers for each constant (`PyInt_FromLong(DT_*)`). */
  function TagValue(t: EntryType): (tag: Tag)
    ensures t == Unknown <==> tag == DT_UNKNOWN
    ensures t != Unknown ==> KnownTag(tag)
  {
    match t
    case Blk => DT_BLK
    case Chr => DT_CHR
    case Dir => DT_DIR
    case Fifo => DT_FIFO
    case Lnk => DT_LNK
    case Reg => DT_REG
    case Sock => DT_SOCK
    case Unknown => DT_UNKNOWN
  }

  /** The name under which the module exports each constant. */
  function TypeName(t: EntryType): (s: string)
  {
    match t
    case Blk => "DT_BLK"
    case Chr => "DT_CHR"
    case Dir => "DT_DIR"
    case Fifo => "DT_FIFO"
    case Lnk => "DT_LNK"
    case Reg => "DT_REG"
    case Sock => "DT_SOCK"
    case Unknown => "DT_UNKNOWN"
  }

  /**
   * The switch in `entry_d_type`: the value `Entry.d_type()` yields is the
   * raw tag itself when the tag is one of the seven known ones, and
   * `DT_UNKNOWN` for every other tag.
   */
  function Classify(tag: Tag): (t: EntryType)
    ensures TagValue(t) == if KnownTag(tag) then tag else DT_UNKNOWN
  {
    if tag == DT_BLK then Blk
    else if tag == DT_CHR then Chr
    else if tag == DT_DIR then Dir
    else if tag == DT_FIFO then Fifo
    else if tag == DT_LNK then Lnk
    else if tag == DT_REG then Reg
    else if tag == DT_SOCK then Sock
    else Unknown
  }

  /** Each constant is recovered from its own value: the classification is onto and one-to-one on known tags. */
  lemma ClassifyTagValue(t: EntryType)
    ensures Classify(TagValue(t)) == t
  {
  }

  /** The switch in `entry_repr`, written out over the raw tag as the source does. */
  function ReprTypeName(tag: Tag): (s: string)
  {
    if tag == DT_BLK then "DT_BLK"
    else if tag == DT_CHR then "DT_CHR"
    else if tag == DT_DIR then "DT_DIR"
    else if tag == DT_FIFO then "DT_FIFO"
    else if tag == DT_LNK then "DT_LNK"
    else if tag == DT_REG then "DT_REG"
    else if tag == DT_SOCK then "DT_SOCK"
    else "DT_UNKNOWN"
  }

  /** The two switches partition the tags the same way: the repr always names the constant `d_type()` returns. */
  lemma ReprNameAgreesWithClassify(tag: Tag)
    ensures ReprTypeName(tag) == TypeName(Classify(tag))
  {
  }

  /** The eight constants carry eight distinct names. */
  lemma TypeNameInjective(a: EntryType, b: EntryType)
    ensures TypeName(a) == TypeName(b) ==> a == b
  {
  }

  /**
   * `d_ino` converted to a signed 64-bit `long`, as both `PyInt_FromLong`
   * and the `%lld` conversions do: the same 64 bits, read in two's complement.
   */
  function AsLong(ino: Ino): (x: int)
    ensures -LONG_LIMIT <= x < LONG_LIMIT
    ensures (x - ino) % INO_MODULUS == 0
    ensures ino < LONG_LIMIT ==> x == ino
  {
    if ino < LONG_LIMIT then ino else ino - INO_MODULUS
  }
}
