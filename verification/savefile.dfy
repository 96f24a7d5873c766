/** The save-file bridge (libretro.c:573-704): the engine's serial, byte-at-
    a-time access to backup-RAM files, over the host's file system.

    The file system is an abstract map from path to contents. There is one
    process-wide handle slot (`buram_file_handle`). Opening stores the new
    handle in the slot without closing what was there; closing releases the
    handle but leaves it in the slot. Using a handle that was never opened or
    was already closed is undefined behaviour in C; the model records it as a
    sticky `fault`. The size query and removal work on their own local
    handle and never touch the slot.

    Besides the file system, the host decides three things the bridge
    cannot: whether the `malloc` for a path succeeds, whether a VFS call on
    an existing path still fails (no permission, a missing directory), and
    whether the size query of an open file fails. They are parameters. */
module SaveFile {
  import opened Base
  import opened Vfs

  // ---------------------------------------------------------------------
  // Paths (libretro.c:573-602)
  // ---------------------------------------------------------------------

  /** The host's answers to the save-directory and system-directory
      queries; None when the host does not answer. */
  datatype Directories = Directories(save: Option<CString>, system: Option<CString>)

  /** `GetBuRAMDirectory`: the save directory, else the system directory,
      else the empty string. */
  function BuRAMDirectory(dirs: Directories): (d: CString)
    ensures dirs.save.Some? ==> d == dirs.save.value
    ensures dirs.save.None? && dirs.system.Some? ==> d == dirs.system.value
    ensures dirs.save.None? && dirs.system.None? ==> d == ""
  {
    match dirs.save
    case Some(d) => d
    case None =>
      match dirs.system
      case Some(d) => d
      case None => ""
  }

  /** `GetBuRAMPath`: the directory's characters, a '/' at index
      `|directory|`, then the file name's characters, NUL-terminated. */
  function BuRAMPath(directory: CString, filename: CString): (path: CString)
    ensures |path| == |directory| + 1 + |filename|
    ensures path[..|directory|] == directory
    ensures path[|directory|] == '/'
    ensures path[|directory| + 1..] == filename
  {
    directory + "/" + filename
  }

  /** For a fixed directory, distinct file names give distinct paths. */
  lemma PathDeterminesFilename(directory: CString, f: CString, g: CString)
    requires BuRAMPath(directory, f) == BuRAMPath(directory, g)
    ensures f == g
  {
    assert f == BuRAMPath(directory, f)[|directory| + 1..];
  }

  /** With neither directory available the path is rooted: "/" then the name. */
  lemma NoDirectoryGivesRootPath(filename: CString)
    ensures BuRAMPath(BuRAMDirectory(Directories(None, None)), filename) == "/" + filename
  {
  }

  function PathOf(dirs: Directories, filename: CString): CString
  {
    BuRAMPath(BuRAMDirectory(dirs), filename)
  }

  // ---------------------------------------------------------------------
  // File system, handle slot
  // ---------------------------------------------------------------------

  type FileSystem = map<string, seq<bv8>>

  datatype Direction = ForReading | ForWriting

  datatype Handle = Handle(path: string, direction: Direction, position: nat)

  /** The handle slot: empty (NULL), holding an open handle, or still
      holding a handle that has been closed. */
  datatype Slot = NoHandle | Live(handle: Handle) | Dangling(handle: Handle)

  /** `leaked` counts open handles that were overwritten without being closed. */
  datatype Bridge = Bridge(fs: FileSystem, slot: Slot, leaked: nat, fault: bool)

  function Contents(fs: FileSystem, path: string): seq<bv8>
  {
    if path in fs then fs[path] else []
  }

  /** The file after writing `b` at byte `pos`: overwritten inside the file,
      appended at its end, zero-filled up to `pos` beyond it. */
  function Put(data: seq<bv8>, pos: nat, b: bv8): (r: seq<bv8>)
    ensures |r| == if pos < |data| then |data| else pos + 1
    ensures r[pos] == b
    ensures forall i | 0 <= i < |data| && i != pos :: r[i] == data[i]
  {
    if pos < |data| then data[pos := b]
    else data + seq(pos - |data|, _ => 0) + [b]
  }

  /** The host's answers to one path-based call: the `malloc` in
      `GetBuRAMPath` succeeds, the VFS call on the path fails for a reason
      of its own, `File_GetSize` fails (-1). */
  datatype HostAnswers = HostAnswers(pathAllocated: bool, vfsFails: bool, sizeFails: bool)

  /** A host that allocates, opens and sizes whatever the file system allows. */
  const Cooperative: HostAnswers := HostAnswers(true, false, false)

  datatype OpenResult = OpenResult(bridge: Bridge, success: bool)

  /** `SaveFileOpened`. When the path cannot be allocated the call fails
      and nothing changes. Otherwise `File_Open` is called: opening for
      writing creates or truncates the file ("wb"), opening for reading needs
      the file, and either can fail on the host's side. The slot receives
      the new handle, or NULL on failure, and a handle it held before is
      neither closed nor kept. */
  function Open(b: Bridge, dirs: Directories, filename: CString, forWriting: bool, host: HostAnswers): (r: OpenResult)
    ensures r.success <==> host.pathAllocated && !host.vfsFails && (forWriting || PathOf(dirs, filename) in b.fs)
    ensures !host.pathAllocated ==> r.bridge == b
    ensures host.pathAllocated ==> (r.success <==> r.bridge.slot.Live?)
    ensures host.pathAllocated ==> !r.success ==> r.bridge.slot == NoHandle
    ensures r.success ==> r.bridge.slot.handle == Handle(PathOf(dirs, filename), if forWriting then ForWriting else ForReading, 0)
    ensures host.pathAllocated ==> r.bridge.leaked == b.leaked + (if b.slot.Live? then 1 else 0)
    ensures r.bridge.fault == b.fault
    ensures r.success && forWriting ==> r.bridge.fs == b.fs[PathOf(dirs, filename) := []]
    ensures !(r.success && forWriting) ==> r.bridge.fs == b.fs
  {
    var path := PathOf(dirs, filename);
    var leaked := b.leaked + (if b.slot.Live? then 1 else 0);
    if !host.pathAllocated then
      OpenResult(b, false)
    else if host.vfsFails || (!forWriting && path !in b.fs) then
      OpenResult(Bridge(b.fs, NoHandle, leaked, b.fault), false)
    else if forWriting then
      OpenResult(Bridge(b.fs[path := []], Live(Handle(path, ForWriting, 0)), leaked, b.fault), true)
    else
      OpenResult(Bridge(b.fs, Live(Handle(path, ForReading, 0)), leaked, b.fault), true)
  }

  // ---------------------------------------------------------------------
  // Reading one byte (libretro.c:628-638)
  // ---------------------------------------------------------------------

  /** `SaveFileReadCallback` as written: -1 only when the VFS read returns
      0. `buffer` is the byte variable the VFS was asked to fill; when the
      VFS fails with -1 it was never filled and holds whatever it held. */
  function ReadCallbackAsWritten(transferred: int, buffer: bv8): (r: int)
    ensures r == -1 <==> transferred == 0
    ensures transferred != 0 ==> r == buffer as int && 0 <= r < 256
  {
    if transferred == 0 then -1 else buffer as int
  }

  /** A failed VFS read (-1) is passed to the engine as a data byte, the
      uninitialised contents of `buffer`, instead of as end of data. */
  lemma FailedReadLooksLikeData()
    ensures ReadCallbackAsWritten(-1, 0x42) == 0x42
  {
  }

  /** The read callback with every answer other than one byte read taken as
      end of data: the result is -1 or a byte value, and a byte value only
      when a byte was actually read. */
  function ReadCallback(transferred: int, buffer: bv8): (r: int)
    ensures r == -1 || 0 <= r < 256
    ensures r != -1 <==> transferred == 1
    ensures transferred == 1 ==> r == buffer as int
  {
    if transferred != 1 then -1 else buffer as int
  }

  /** For the answers a one-byte read can give without error, 0 or 1, the
      two versions agree. */
  lemma ReadCallbacksAgreeWithoutError(transferred: int, buffer: bv8)
    requires transferred == 0 || transferred == 1
    ensures ReadCallbackAsWritten(transferred, buffer) == ReadCallback(transferred, buffer)
  {
  }

  datatype ReadResult = ReadResult(bridge: Bridge, value: int)

  /** One byte from the slot's handle. A handle open for reading yields the
      next byte and advances, or -1 at end of file; a handle open for
      writing reads nothing (-1); an empty or closed slot is a fault. */
  function Read(b: Bridge): (r: ReadResult)
    ensures r.value == -1 || 0 <= r.value < 256
    ensures r.bridge.fs == b.fs && r.bridge.leaked == b.leaked
    ensures r.bridge.fault <==> b.fault || !b.slot.Live?
    ensures b.slot.Live? && b.slot.handle.direction == ForReading ==>
      var h := b.slot.handle;
      var data := Contents(b.fs, h.path);
      if h.position < |data| then r.value == data[h.position] as int && r.bridge.slot == Live(h.(position := h.position + 1))
      else r.value == -1 && r.bridge.slot == b.slot
  {
    match b.slot
    case Live(h) =>
      if h.direction == ForReading then
        var data := Contents(b.fs, h.path);
        var transferred := if h.position < |data| then 1 else 0;
        var buffer := if h.position < |data| then data[h.position] else 0;
        var next := if transferred == 1 then Live(h.(position := h.position + 1)) else b.slot;
        ReadResult(b.(slot := next), ReadCallback(transferred, buffer))
      else
        ReadResult(b, ReadCallback(0, 0))
    case _ =>
      ReadResult(b.(fault := true), -1)
  }

  // ---------------------------------------------------------------------
  // Writing, closing, removing, sizing (libretro.c:645-704)
  // ---------------------------------------------------------------------

  /** `SaveFileWrittenCallback`: one byte at the handle's position when it
      is open for writing; nothing when it is open for reading; a fault on
      an empty or closed slot. A file removed while open takes the byte with
      it out of the name space. */
  function Write(b: Bridge, value: bv8): (r: Bridge)
    ensures r.leaked == b.leaked && (r.fault <==> b.fault || !b.slot.Live?)
    ensures b.slot.Live? && b.slot.handle.direction == ForWriting && b.slot.handle.path in b.fs ==>
      r.fs == b.fs[b.slot.handle.path := Put(b.fs[b.slot.handle.path], b.slot.handle.position, value)]
    ensures b.slot.Live? && b.slot.handle.direction == ForWriting ==>
      r.slot == Live(b.slot.handle.(position := b.slot.handle.position + 1))
    ensures !(b.slot.Live? && b.slot.handle.direction == ForWriting) ==> r.fs == b.fs && r.slot == b.slot
  {
    match b.slot
    case Live(h) =>
      if h.direction == ForWriting then
        var fs := if h.path in b.fs then b.fs[h.path := Put(b.fs[h.path], h.position, value)] else b.fs;
        b.(fs := fs, slot := Live(h.(position := h.position + 1)))
      else b
    case _ => b.(fault := true)
  }

  /** `SaveFileClosedCallback`: the handle is closed but stays in the slot,
      so closing twice is a fault. Closing an empty slot does nothing. */
  function Close(b: Bridge): (r: Bridge)
    ensures r.fs == b.fs && r.leaked == b.leaked
    ensures b.slot.Live? ==> r.slot == Dangling(b.slot.handle) && r.fault == b.fault
    ensures b.slot.NoHandle? ==> r == b
    ensures b.slot.Dangling? ==> r.fault
  {
    match b.slot
    case Live(h) => b.(slot := Dangling(h))
    case NoHandle => b
    case Dangling(_) => b.(fault := true)
  }

  datatype RemoveResult = RemoveResult(bridge: Bridge, success: bool)

  /** `SaveFileRemovedCallback`: succeeds exactly when the path can be
      allocated, the file exists and the host removes it; only then does the
      file system change. The slot is left alone. */
  function Remove(b: Bridge, dirs: Directories, filename: CString, host: HostAnswers): (r: RemoveResult)
    ensures r.success <==> host.pathAllocated && !host.vfsFails && PathOf(dirs, filename) in b.fs
    ensures r.success ==> r.bridge == b.(fs := b.fs - {PathOf(dirs, filename)})
    ensures !r.success ==> r.bridge == b
  {
    var path := PathOf(dirs, filename);
    if host.pathAllocated && !host.vfsFails && path in b.fs then RemoveResult(b.(fs := b.fs - {path}), true)
    else RemoveResult(b, false)
  }

  /** What `File_GetSize` answers for an open file: its length, or -1. */
  function ReportedSize(data: seq<bv8>, host: HostAnswers): (n: int)
    ensures n == -1 || n == |data|
    ensures n == -1 <==> host.sizeFails
  {
    if host.sizeFails then -1 else |data|
  }

  /** `SaveFileSizeObtainedCallback` as written: once the file is open, the
      signed answer of `File_GetSize` is stored into the `size_t` result,
      wrapping modulo 2^64, and the call reports success. */
  function SizeQueryAsWritten(b: Bridge, dirs: Directories, filename: CString, host: HostAnswers): (r: Option<nat>)
    ensures r.Some? <==> host.pathAllocated && !host.vfsFails && PathOf(dirs, filename) in b.fs
    ensures r.Some? ==> r.value <= SizeMax
    ensures r.Some? && host.sizeFails ==> r.value == SizeMax
    ensures r.Some? && !host.sizeFails && |b.fs[PathOf(dirs, filename)]| <= SizeMax ==>
              r.value == |b.fs[PathOf(dirs, filename)]|
  {
    var path := PathOf(dirs, filename);
    if host.pathAllocated && !host.vfsFails && path in b.fs then
      Some(ReportedSize(b.fs[path], host) % TwoTo64)
    else None
  }

  /** A failed size query on an existing file is reported as a success of
      SIZE_MAX bytes. */
  lemma SizeErrorReadsAsHugeFile(b: Bridge, dirs: Directories, filename: CString)
    requires PathOf(dirs, filename) in b.fs
    ensures SizeQueryAsWritten(b, dirs, filename, HostAnswers(true, false, true)) == Some(SizeMax)
  {
  }

  /** The size query with a failed `File_GetSize` taken as a failure: it
      succeeds exactly when the path can be allocated, the file opened and
      sized, and then answers the file's length. It uses a handle of its
      own, so the bridge is not changed. */
  function SizeQuery(b: Bridge, dirs: Directories, filename: CString, host: HostAnswers): (size: Option<nat>)
    ensures size.Some? <==> host.pathAllocated && !host.vfsFails && !host.sizeFails && PathOf(dirs, filename) in b.fs
    ensures size.Some? ==> size.value == |b.fs[PathOf(dirs, filename)]|
  {
    var path := PathOf(dirs, filename);
    if host.pathAllocated && !host.vfsFails && path in b.fs && ReportedSize(b.fs[path], host) >= 0 then
      Some(ReportedSize(b.fs[path], host))
    else None
  }

  /** Whenever `File_GetSize` answers, for a file whose length it can
      express as an `int64_t`, the two size queries agree. */
  lemma SizeQueriesAgreeWithoutSizeError(b: Bridge, dirs: Directories, filename: CString, host: HostAnswers)
    requires !host.sizeFails
    requires PathOf(dirs, filename) in b.fs ==> |b.fs[PathOf(dirs, filename)]| <= Int64Max
    ensures SizeQueryAsWritten(b, dirs, filename, host) == SizeQuery(b, dirs, filename, host)
  {
  }

  // ---------------------------------------------------------------------
  // Sequences of calls
  // ---------------------------------------------------------------------

  function WriteAll(b: Bridge, bytes: seq<bv8>): Bridge
    decreases |bytes|
  {
    if |bytes| == 0 then b else WriteAll(Write(b, bytes[0]), bytes[1..])
  }

  datatype ReadsResult = ReadsResult(bridge: Bridge, values: seq<int>)

  function ReadMany(b: Bridge, n: nat): ReadsResult
    decreases n
  {
    if n == 0 then ReadsResult(b, [])
    else
      var r := Read(b);
      var rest := ReadMany(r.bridge, n - 1);
      ReadsResult(rest.bridge, [r.value] + rest.values)
  }

  function AsInts(bytes: seq<bv8>): (r: seq<int>)
    ensures |r| == |bytes| && forall i | 0 <= i < |r| :: r[i] == bytes[i] as int
  {
    seq(|bytes|, i requires 0 <= i < |bytes| => bytes[i] as int)
  }

  /** Writing through a handle open for writing at the end of its file
      appends the bytes, in order. */
  lemma {:induction false} WriteAllAppends(b: Bridge, bytes: seq<bv8>)
    requires b.slot.Live? && b.slot.handle.direction == ForWriting
    requires b.slot.handle.path in b.fs && b.slot.handle.position == |b.fs[b.slot.handle.path]|
    ensures var r := WriteAll(b, bytes);
            && r.fs == b.fs[b.slot.handle.path := b.fs[b.slot.handle.path] + bytes]
            && r.slot == Live(b.slot.handle.(position := b.slot.handle.position + |bytes|))
            && r.fault == b.fault && r.leaked == b.leaked
    decreases |bytes|
  {
    var h := b.slot.handle;
    var data := b.fs[h.path];
    if |bytes| == 0 {
      assert data + bytes == data;
      assert b.fs[h.path := data] == b.fs;
    } else {
      var b1 := Write(b, bytes[0]);
      assert Put(data, h.position, bytes[0]) == data + [bytes[0]];
      assert b1.fs == b.fs[h.path := data + [bytes[0]]];
      assert b1.slot == Live(h.(position := h.position + 1));
      WriteAllAppends(b1, bytes[1..]);
      assert data + [bytes[0]] + bytes[1..] == data + bytes;
      assert b1.fs[h.path := data + [bytes[0]] + bytes[1..]] == b.fs[h.path := data + bytes];
    }
  }

  /** What `n` reads return on a file whose unread part is `rest`: its bytes
      one by one, then end of data (-1) for every read beyond them. */
  function ReadsOf(rest: seq<bv8>, n: nat): (values: seq<int>)
    ensures |values| == n
    decreases n
  {
    if n == 0 then []
    else if |rest| == 0 then [-1] + ReadsOf(rest, n - 1)
    else [rest[0] as int] + ReadsOf(rest[1..], n - 1)
  }

  /** Reading one more time than there are bytes yields every byte, then -1. */
  lemma {:induction false} ReadsOfWholeFile(bytes: seq<bv8>)
    ensures ReadsOf(bytes, |bytes| + 1) == AsInts(bytes) + [-1]
    decreases |bytes|
  {
    if |bytes| == 0 {
      assert ReadsOf(bytes, 1) == [-1] + ReadsOf(bytes, 0);
    } else {
      ReadsOfWholeFile(bytes[1..]);
      assert AsInts(bytes) == [bytes[0] as int] + AsInts(bytes[1..]);
    }
  }

  /** Reading through a handle open for reading yields the unread part of
      the file as `ReadsOf` describes it, and changes nothing but the slot. */
  lemma {:induction false} ReadManyYieldsRest(b: Bridge, n: nat)
    requires b.slot.Live? && b.slot.handle.direction == ForReading
    requires b.slot.handle.path in b.fs && b.slot.handle.position <= |b.fs[b.slot.handle.path]|
    ensures var r := ReadMany(b, n);
            && r.values == ReadsOf(b.fs[b.slot.handle.path][b.slot.handle.position..], n)
            && r.bridge.fs == b.fs && r.bridge.fault == b.fault
    decreases n
  {
    var h := b.slot.handle;
    var data := b.fs[h.path];
    var rest := data[h.position..];
    if n > 0 {
      var r := Read(b);
      ReadManyYieldsRest(r.bridge, n - 1);
      if h.position < |data| {
        assert r.value == rest[0] as int;
        assert data[h.position + 1..] == rest[1..];
      } else {
        assert r.value == -1 && r.bridge == b;
        assert |rest| == 0;
      }
    }
  }

  /** The host lets a path-based call through: the path is allocated and
      the VFS does not fail on its own. */
  predicate Grants(host: HostAnswers)
  {
    host.pathAllocated && !host.vfsFails
  }

  /** Opening a file for writing, writing bytes and closing leaves exactly
      those bytes in the file, and adds no fault. */
  lemma WrittenAndClosed(b: Bridge, dirs: Directories, filename: CString, bytes: seq<bv8>, host: HostAnswers)
    requires Grants(host)
    ensures var written := Close(WriteAll(Open(b, dirs, filename, true, host).bridge, bytes));
            && PathOf(dirs, filename) in written.fs
            && written.fs[PathOf(dirs, filename)] == bytes
            && written.fault == b.fault
  {
    var path := PathOf(dirs, filename);
    var b1 := Open(b, dirs, filename, true, host).bridge;
    assert b1.slot == Live(Handle(path, ForWriting, 0)) && b1.fs[path] == [];
    WriteAllAppends(b1, bytes);
    assert [] + bytes == bytes;
  }

  /** Opening for reading a file that holds `bytes` and reading one more
      time than there are bytes yields them, then end of data. */
  lemma ReopenAndReadAll(w: Bridge, dirs: Directories, filename: CString, bytes: seq<bv8>, host: HostAnswers)
    requires Grants(host)
    requires PathOf(dirs, filename) in w.fs && w.fs[PathOf(dirs, filename)] == bytes
    ensures var reopened := Open(w, dirs, filename, false, host);
            var back := ReadMany(reopened.bridge, |bytes| + 1);
            && reopened.success
            && back.values == AsInts(bytes) + [-1]
            && back.bridge.fault == w.fault
  {
    var reopened := Open(w, dirs, filename, false, host);
    assert reopened.bridge.slot == Live(Handle(PathOf(dirs, filename), ForReading, 0));
    ReadManyYieldsRest(reopened.bridge, |bytes| + 1);
    assert bytes[0..] == bytes;
    ReadsOfWholeFile(bytes);
  }

  /** Opening a file for writing, writing bytes, closing, and opening it for
      reading yields those bytes and then end of data, whatever the bridge
      held before, and without a fault being added, as long as the host lets
      both opens through. */
  lemma WriteThenReadBack(b: Bridge, dirs: Directories, filename: CString, bytes: seq<bv8>,
                          writeHost: HostAnswers, readHost: HostAnswers)
    requires Grants(writeHost) && Grants(readHost)
    ensures
      var written := Close(WriteAll(Open(b, dirs, filename, true, writeHost).bridge, bytes));
      var reopened := Open(written, dirs, filename, false, readHost);
      var back := ReadMany(reopened.bridge, |bytes| + 1);
      && reopened.success
      && back.values == AsInts(bytes) + [-1]
      && back.bridge.fault == b.fault
  {
    WrittenAndClosed(b, dirs, filename, bytes, writeHost);
    ReopenAndReadAll(Close(WriteAll(Open(b, dirs, filename, true, writeHost).bridge, bytes)),
                     dirs, filename, bytes, readHost);
  }

  /** An open the host refuses still overwrites the slot, with NULL: a
      live handle is leaked, the file is not truncated, and a byte the
      engine then writes is a fault. When the path cannot even be
      allocated, the slot keeps its handle. */
  lemma RefusedOpenEmptiesSlot(b: Bridge, dirs: Directories, filename: CString, forWriting: bool, value: bv8)
    ensures var r := Open(b, dirs, filename, forWriting, HostAnswers(true, true, false));
            && !r.success && r.bridge.slot == NoHandle && r.bridge.fs == b.fs
            && r.bridge.leaked == b.leaked + (if b.slot.Live? then 1 else 0)
            && Write(r.bridge, value).fault
    ensures Open(b, dirs, filename, forWriting, HostAnswers(false, false, false)).bridge.slot == b.slot
  {
  }

  /** The handle stays in the slot after closing: a read or a second close
      afterwards is a fault, where a NULL slot would have been harmless to
      close again. */
  lemma CloseDoesNotClearSlot(b: Bridge)
    requires b.slot.Live?
    ensures Close(b).slot.Dangling?
    ensures Close(Close(b)).fault
    ensures Read(Close(b)).bridge.fault
    ensures Close(b.(slot := NoHandle)) == b.(slot := NoHandle)
  {
  }

  /** Opening twice without closing in between overwrites the first handle:
      it is counted as leaked and only the second one remains reachable. */
  lemma SecondOpenLeaksFirst(b: Bridge, dirs: Directories, f: CString, g: CString, w: bool,
                             first: HostAnswers, second: HostAnswers)
    requires Open(b, dirs, f, true, first).success && second.pathAllocated
    ensures var once := Open(b, dirs, f, true, first).bridge;
            var twice := Open(once, dirs, g, w, second).bridge;
            twice.leaked == b.leaked + (if b.slot.Live? then 1 else 0) + 1
            && (twice.slot.Live? ==> twice.slot.handle.path == PathOf(dirs, g))
  {
  }

  /** Removal never touches the engine's handle. */
  lemma LocalHandlesLeaveSlot(b: Bridge, dirs: Directories, filename: CString, host: HostAnswers)
    ensures Remove(b, dirs, filename, host).bridge.slot == b.slot
    ensures Remove(b, dirs, filename, host).bridge.leaked == b.leaked
  {
  }
}
