/** The file-I/O adapters (libretro.c): the stdio fallbacks used when the
    host offers no virtual file system (`File_OpenDefault`,
    `File_SeekDefault`), and the callbacks the CD reader is given
    (`ClownCDFileOpen`, `ClownCDFileRead`, `ClownCDFileWrite`,
    `ClownCDFileTell`, `ClownCDFileSeek`). The calls into stdio and into
    the host's VFS are replaced by their answers, passed as parameters.

    Integer widths are those of a 64-bit LP64 target: `long`, `int64_t`
    and `ptrdiff_t` are 64-bit signed, `size_t` and `uint64_t` 64-bit unsigned. */
module Vfs {
  import opened Base

  const TwoTo64: int := 0x1_0000_0000_0000_0000
  const Int64Min: int := -0x8000_0000_0000_0000
  const Int64Max: int := 0x7FFF_FFFF_FFFF_FFFF
  const SizeMax: int := 0xFFFF_FFFF_FFFF_FFFF
  const LongMin: int := Int64Min
  const LongMax: int := Int64Max

  predicate IsInt64(x: int) { Int64Min <= x <= Int64Max }
  predicate IsSize(x: int) { 0 <= x <= SizeMax }

  // ---------------------------------------------------------------------
  // Access modes (libretro.c:96-118)
  // ---------------------------------------------------------------------

  /** The libretro VFS access bits. */
  const AccessRead: nat := 1
  const AccessWrite: nat := 2
  const AccessUpdateExisting: nat := 4

  predicate HasBit(mode: nat, bit: nat)
    requires bit == 1 || bit == 2 || bit == 4
  {
    (mode / bit) % 2 == 1
  }

  /** The fopen mode string for an access mask, or None for the masks the
      switch rejects (the caller then gets a NULL handle). */
  function StdioMode(mode: nat): (m: Option<string>)
    ensures m.Some? <==> mode < 8 && (HasBit(mode, AccessRead) || HasBit(mode, AccessWrite))
    ensures m.Some? ==> m.value in {"rb", "wb", "r+b", "w+b"}
  {
    match mode
    case 1 => Some("rb")      // READ
    case 5 => Some("rb")      // READ | UPDATE_EXISTING
    case 2 => Some("wb")      // WRITE
    case 6 => Some("r+b")     // WRITE | UPDATE_EXISTING
    case 7 => Some("r+b")     // READ | WRITE | UPDATE_EXISTING
    case 3 => Some("w+b")     // READ | WRITE
    case _ => None
  }

  /** What the mode string means, in terms of the bits: a mask is accepted
      exactly when it is below 8 and asks to read or to write; the stream is
      truncated ("w") exactly when writing is asked without
      UPDATE_EXISTING; it is opened for both directions ("+") exactly when
      writing is asked together with reading or UPDATE_EXISTING; every mode
      is binary. */
  lemma StdioModeMeaning(mode: nat)
    ensures StdioMode(mode).Some? <==>
            mode < 8 && (HasBit(mode, AccessRead) || HasBit(mode, AccessWrite))
    ensures StdioMode(mode).Some? ==>
      var s := StdioMode(mode).value;
      && 2 <= |s| && s[|s| - 1] == 'b'
      && (s[0] == 'w' <==> HasBit(mode, AccessWrite) && !HasBit(mode, AccessUpdateExisting))
      && (s[0] == 'r' <==> !(HasBit(mode, AccessWrite) && !HasBit(mode, AccessUpdateExisting)))
      && ('+' in s <==> HasBit(mode, AccessWrite) && (HasBit(mode, AccessRead) || HasBit(mode, AccessUpdateExisting)))
  {
    if mode >= 8 {
      assert StdioMode(mode) == None;
    }
  }

  // ---------------------------------------------------------------------
  // Seek origins (libretro.c:155-184, 893-916)
  // ---------------------------------------------------------------------

  /** stdio's origins. */
  datatype Whence = SeekSet | SeekCur | SeekEnd

  /** The libretro VFS seek positions. */
  const PositionStart: int := 0
  const PositionCurrent: int := 1
  const PositionEnd: int := 2

  /** The switch of `File_SeekDefault`. */
  function WhenceFor(position: int): Option<Whence>
  {
    if position == PositionStart then Some(SeekSet)
    else if position == PositionCurrent then Some(SeekCur)
    else if position == PositionEnd then Some(SeekEnd)
    else None
  }

  /** `File_SeekDefault`: -1 for an offset outside `long`, an unknown
      origin or a failed fseek; otherwise the position ftell then reports. */
  function SeekDefault(offset: int, position: int, fseekSucceeds: bool, tell: int): (r: int)
    ensures r == -1 || r == tell
    ensures (offset < LongMin || offset > LongMax || WhenceFor(position).None? || !fseekSucceeds) ==> r == -1
    ensures (LongMin <= offset <= LongMax && WhenceFor(position).Some? && fseekSucceeds) ==> r == tell
  {
    if offset < LongMin || offset > LongMax then -1
    else match WhenceFor(position)
      case None => -1
      case Some(_) => if fseekSucceeds then tell else -1
  }

  /** The CD reader's origins; `OtherOrigin` is any other enumerator value. */
  datatype ClownCDOrigin = ClownCDSeekSet | ClownCDSeekCur | ClownCDSeekEnd | OtherOrigin(code: int)

  /** The switch of `ClownCDFileSeek`. */
  function VfsPositionFor(origin: ClownCDOrigin): Option<int>
  {
    match origin
    case ClownCDSeekSet => Some(PositionStart)
    case ClownCDSeekCur => Some(PositionCurrent)
    case ClownCDSeekEnd => Some(PositionEnd)
    case OtherOrigin(_) => None
  }

  /** Through both switches, each CD-reader origin arrives at the stdio origin
      of the same name, and no two origins arrive at the same place. */
  lemma OriginsChainToStdio(o: ClownCDOrigin, p: ClownCDOrigin)
    ensures o == ClownCDSeekSet ==> WhenceFor(VfsPositionFor(o).value) == Some(SeekSet)
    ensures o == ClownCDSeekCur ==> WhenceFor(VfsPositionFor(o).value) == Some(SeekCur)
    ensures o == ClownCDSeekEnd ==> WhenceFor(VfsPositionFor(o).value) == Some(SeekEnd)
    ensures VfsPositionFor(o).Some? && VfsPositionFor(p).Some? && o != p ==>
              VfsPositionFor(o) != VfsPositionFor(p)
    ensures VfsPositionFor(o).None? <==> o.OtherOrigin?
  {
  }

  /** `ClownCDFileSeek`: 0 on success, -1 for an unknown origin or when the
      VFS seek answers -1. `seek` is the VFS seek's answer for a position and
      a libretro origin. */
  function ClownCDFileSeek(position: int, origin: ClownCDOrigin, seek: (int, int) -> int): (r: int)
    ensures r == 0 || r == -1
    ensures r == 0 <==> VfsPositionFor(origin).Some? && seek(position, VfsPositionFor(origin).value) != -1
  {
    match VfsPositionFor(origin)
    case None => -1
    case Some(p) => if seek(position, p) == -1 then -1 else 0
  }

  /** `ClownCDFileTell`: the VFS position when it fits a non-negative `long`, else -1. */
  function ClownCDFileTell(position: int): (r: int)
    ensures r == -1 || (0 <= r <= LongMax && r == position)
    ensures 0 <= position <= LongMax ==> r == position
  {
    if position < 0 || position > LongMax then -1 else position
  }

  // ---------------------------------------------------------------------
  // Open modes of the CD reader (libretro.c:827-846)
  // ---------------------------------------------------------------------

  datatype ClownCDMode = ClownCDReadBinary | ClownCDWriteBinary | OtherMode(code: int)

  /** The VFS access mask `ClownCDFileOpen` asks for; None means it returns NULL. */
  function ClownCDAccess(mode: ClownCDMode): (access: Option<nat>)
    ensures access.Some? <==> !mode.OtherMode?
    ensures access.Some? ==> StdioMode(access.value).Some?
    ensures access.Some? ==> (HasBit(access.value, AccessRead) <==> mode.ClownCDReadBinary?)
    ensures access.Some? ==> (HasBit(access.value, AccessWrite) <==> mode.ClownCDWriteBinary?)
    ensures access.Some? ==> !HasBit(access.value, AccessUpdateExisting)
  {
    match mode
    case ClownCDReadBinary => Some(AccessRead)
    case ClownCDWriteBinary => Some(AccessWrite)
    case OtherMode(_) => None
  }

  /** Through the stdio fallback, the CD reader's "rb" and "wb" open the
      file with exactly those fopen modes. */
  lemma ClownCDModesReachStdio()
    ensures StdioMode(ClownCDAccess(ClownCDReadBinary).value) == Some("rb")
    ensures StdioMode(ClownCDAccess(ClownCDWriteBinary).value) == Some("wb")
  {
  }

  // ---------------------------------------------------------------------
  // Item counts of ClownCDFileRead / ClownCDFileWrite (libretro.c:853-881)
  // ---------------------------------------------------------------------

  /** The byte count handed to the VFS: `size * count` in `size_t`, which
      wraps modulo 2^64. */
  function RequestLength(size: nat, count: nat): (n: nat)
    ensures n < TwoTo64
    ensures size * count < TwoTo64 ==> n == size * count
  {
    (size * count) % TwoTo64
  }

  /** The item count the two adapters return, exactly as the C expression
      `File_Read(...) / size` evaluates on LP64: `int64_t` and `size_t` have
      the same rank, so the signed byte count is converted to unsigned
      before the division, and the quotient is converted back to `int64_t`.
      `transferred` is the VFS's answer: a byte count, or -1 on error. */
  function TransferredItemsAsWritten(size: nat, count: nat, transferred: int): (r: nat)
    requires IsSize(size) && IsSize(count) && IsInt64(transferred)
    ensures IsSize(r)
  {
    if size == 0 || count == 0 then 0
    else
      var unsigned := transferred % TwoTo64;
      var quotient := unsigned / size;
      var total := if quotient > Int64Max then quotient - TwoTo64 else quotient;
      if total < 0 || total > SizeMax then 0 else total
  }

  /** On a 64-bit target an error answer of -1 with an item size of 2 is
      reported as 2^63 - 1 items transferred, more than the one requested. */
  lemma ErrorReadsAsHugeCount()
    ensures TransferredItemsAsWritten(2, 1, -1) == Int64Max
    ensures TransferredItemsAsWritten(2, 1, -1) > 1
  {
    assert -1 % TwoTo64 == TwoTo64 - 1;
    assert (TwoTo64 - 1) / 2 == Int64Max;
  }

  /** The item count with the division done in signed arithmetic, so that
      a VFS error reads as nothing transferred. For a VFS that transfers at
      most the bytes asked for, the count never exceeds `count`, covers no
      more bytes than were transferred, and is the full `count` exactly when
      every byte was transferred. */
  function TransferredItems(size: nat, count: nat, transferred: int): (r: nat)
    requires IsSize(size) && IsSize(count) && IsInt64(transferred)
    ensures IsSize(r)
    ensures transferred < 0 ==> r == 0
    ensures size > 0 && transferred >= 0 ==> r * size <= transferred < (r + 1) * size || count == 0
    ensures transferred <= size * count ==> r <= count
    ensures size > 0 && count > 0 && transferred <= size * count ==> (r == count <==> transferred == size * count)
  {
    if size == 0 || count == 0 then 0
    else if transferred < 0 then 0
    else
      DivisionBounds(transferred, size, count);
      transferred / size
  }

  lemma DivisionBounds(t: nat, s: nat, c: nat)
    requires s > 0
    ensures 0 <= t / s <= t
    ensures (t / s) * s <= t < (t / s + 1) * s
    ensures t <= s * c ==> t / s <= c
    ensures t <= s * c ==> (t / s == c <==> t == s * c)
  {
    var q := t / s;
    assert t == q * s + t % s;
    MulLeft(q, 1, s);
    assert q * s <= t < (q + 1) * s;
    if t <= s * c && q > c {
      MulLeft(s, c + 1, q);
      assert false;
    }
    if t == s * c {
      if q < c {
        MulLeft(s, q + 1, c);
        assert false;
      }
    }
  }

  lemma MulLeft(s: nat, a: nat, b: nat)
    requires a <= b
    ensures a * s <= b * s
  {
  }

  /** Whenever the VFS answers with a byte count rather than an error, the
      code as written and the signed version agree. */
  lemma TransferredItemsAgreeOnSuccess(size: nat, count: nat, transferred: int)
    requires IsSize(size) && IsSize(count) && IsInt64(transferred)
    requires transferred >= 0
    ensures TransferredItemsAsWritten(size, count, transferred) == TransferredItems(size, count, transferred)
  {
    if size > 0 && count > 0 {
      assert transferred % TwoTo64 == transferred;
      DivisionBounds(transferred, size, count);
      assert transferred / size <= Int64Max;
    }
  }
}
