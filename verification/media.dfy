/** The media side of the bridge (libretro.c): the cartridge callbacks the
    engine reads the ROM through, the CD-audio track callback, loading a
    whole file into memory (`LoadFileToBuffer`) and `retro_load_game`. The
    CD reader, the host VFS and `malloc` are replaced by their answers,
    passed as parameters. */
module Media {
  import opened Base

  // ---------------------------------------------------------------------
  // The cartridge (libretro.c:278-293)
  // ---------------------------------------------------------------------

  /** What the cartridge callbacks see: `rom` (None for a NULL pointer) and
      `rom_size`. */
  datatype Cartridge = Cartridge(rom: Option<seq<bv8>>, romSize: nat)

  /** `rom_size` is the length of `rom` whenever there is one. */
  predicate Describes(c: Cartridge)
  {
    c.rom.Some? ==> |c.rom.value| == c.romSize
  }

  /** Additionally, without a ROM the size is 0, so no read reaches `rom`. */
  predicate Sound(c: Cartridge)
  {
    Describes(c) && (c.rom.None? ==> c.romSize == 0)
  }

  /** `CartridgeReadCallback`: 0 at or past `rom_size`, otherwise the ROM
      byte. None stands for a read that dereferences a NULL `rom`. */
  function CartridgeRead(c: Cartridge, address: nat): (r: Option<bv8>)
    requires Describes(c)
    ensures r.None? <==> c.rom.None? && address < c.romSize
    ensures address >= c.romSize ==> r == Some(0)
    ensures c.rom.Some? && address < c.romSize ==> r == Some(c.rom.value[address])
  {
    if address >= c.romSize then Some(0)
    else if c.rom.None? then None
    else Some(c.rom.value[address])
  }

  /** `CartridgeWriteCallback` ignores its arguments: the cartridge is
      read-only. */
  function CartridgeWrite(c: Cartridge, address: nat, value: bv8): (r: Cartridge)
    ensures r == c
  {
    c
  }

  /** The reference picture of the cartridge space: the ROM followed by
      zeros. */
  function ZeroExtended(rom: seq<bv8>, n: nat): (z: seq<bv8>)
    ensures |z| == if n < |rom| then |rom| else n
    ensures forall a | 0 <= a < |rom| :: z[a] == rom[a]
    ensures forall a | |rom| <= a < |z| :: z[a] == 0
  {
    if n <= |rom| then rom else ZeroExtended(rom, n - 1) + [0]
  }

  /** The bytes a sound cartridge holds. */
  function RomBytes(c: Cartridge): seq<bv8>
  {
    if c.rom.Some? then c.rom.value else []
  }

  /** Every read of a sound cartridge succeeds and sees the ROM extended
      with zeros, whatever the address. */
  lemma ReadsSeeZeroExtendedRom(c: Cartridge, address: nat)
    requires Sound(c)
    ensures CartridgeRead(c, address) == Some(ZeroExtended(RomBytes(c), address + 1)[address])
  {
    var z := ZeroExtended(RomBytes(c), address + 1);
    if address < c.romSize {
      assert z[address] == RomBytes(c)[address];
    } else {
      assert |RomBytes(c)| <= address < |z|;
    }
  }

  /** A cartridge whose size describes its ROM faults exactly when there is
      no ROM but a non-zero size: a sound cartridge never faults. */
  lemma ReadFaultsOnlyWithoutRom(c: Cartridge, address: nat)
    requires Describes(c)
    ensures CartridgeRead(c, address).None? <==> c.rom.None? && address < c.romSize
    ensures Sound(c) ==> CartridgeRead(c, address).Some?
  {
  }

  // ---------------------------------------------------------------------
  // CD audio (libretro.c:537-564)
  // ---------------------------------------------------------------------

  /** The engine's CDDA modes; `OtherCddaMode` is any other enumerator value. */
  datatype CddaMode = PlayAll | PlayOnce | PlayRepeat | OtherCddaMode(code: int)

  /** The CD reader's playback settings. */
  datatype Playback = PlaybackAll | PlaybackOnce | PlaybackRepeat

  /** The switch of `CDSeekTrackCallback`. */
  function PlaybackFor(mode: CddaMode): Option<Playback>
  {
    match mode
    case PlayAll => Some(PlaybackAll)
    case PlayOnce => Some(PlaybackOnce)
    case PlayRepeat => Some(PlaybackRepeat)
    case OtherCddaMode(_) => None
  }

  /** The mode of the same name as a setting. */
  function ModeFor(p: Playback): CddaMode
  {
    match p
    case PlaybackAll => PlayAll
    case PlaybackOnce => PlayOnce
    case PlaybackRepeat => PlayRepeat
  }

  /** The switch sends each mode to the setting of the same name and
      nothing else there: it is the inverse of `ModeFor`, in both
      directions, and rejects exactly the unknown modes. */
  lemma PlaybackForInvertsModeFor(mode: CddaMode, p: Playback)
    ensures PlaybackFor(mode) == Some(p) <==> mode == ModeFor(p)
    ensures PlaybackFor(mode).None? <==> mode.OtherCddaMode?
  {
  }

  /** `CDSeekTrackCallback`: an unknown mode fails without reaching the
      reader; a known one returns the reader's answer for the track and the
      setting. `play` is `CDReader_PlayAudio`. */
  function CDSeekTrack(track: nat, mode: CddaMode, play: (nat, Playback) -> bool): (r: bool)
    ensures PlaybackFor(mode).None? ==> !r
    ensures PlaybackFor(mode).Some? ==> r == play(track, PlaybackFor(mode).value)
  {
    match PlaybackFor(mode)
    case None => false
    case Some(p) => play(track, p)
  }

  /** A track starts under the setting of the same name as its mode: the
      reader is asked for exactly `ModeFor`'s inverse. */
  lemma SeekTrackAsksForSameSetting(track: nat, p: Playback, play: (nat, Playback) -> bool)
    ensures CDSeekTrack(track, ModeFor(p), play) == play(track, p)
  {
    PlaybackForInvertsModeFor(ModeFor(p), p);
  }

  // ---------------------------------------------------------------------
  // Loading a file (libretro.c:237-272)
  // ---------------------------------------------------------------------

  /** The VFS's and `malloc`'s answers while a file is loaded: whether it
      opens, the size `File_GetSize` reports (negative on error), whether
      the buffer is allocated, the answer of the seek to the start, and the
      bytes the read delivers (None when it answers -1). */
  datatype FileReplies = FileReplies(opens: bool, size: int, allocates: bool, seek: int, read: Option<seq<bv8>>)

  /** What loading leaves behind: the buffer handed to the caller, whether
      the file was closed again, and whether a buffer was allocated and
      whether it was freed. */
  datatype LoadedFile = LoadedFile(buffer: Option<seq<bv8>>, closed: bool, bufferAllocated: bool, bufferFreed: bool)

  /** The answers of a VFS serving a readable file with `contents`. */
  function Honest(contents: seq<bv8>): FileReplies
  {
    FileReplies(true, |contents|, true, 0, Some(contents))
  }

  /** `LoadFileToBuffer`. It succeeds exactly when every step does and the
      read delivers as many bytes as the size reported; the buffer is then
      the bytes read. An opened file is always closed, and an allocated
      buffer is either handed over or freed, never both. */
  function LoadFileToBuffer(r: FileReplies): (l: LoadedFile)
    ensures l.buffer.Some? <==>
      r.opens && r.size >= 0 && r.allocates && r.seek == 0 && r.read.Some? && |r.read.value| == r.size
    ensures l.buffer.Some? ==> l.buffer == r.read
    ensures l.closed <==> r.opens
    ensures l.bufferAllocated <==> r.opens && r.size >= 0 && r.allocates
    ensures l.bufferAllocated ==> (l.bufferFreed <==> l.buffer.None?)
    ensures !l.bufferAllocated ==> !l.bufferFreed && l.buffer.None?
  {
    if !r.opens then LoadedFile(None, false, false, false)
    else if r.size < 0 || !r.allocates then LoadedFile(None, true, false, false)
    else if r.seek != 0 then LoadedFile(None, true, true, true)
    else match r.read
      case Some(bytes) =>
        if |bytes| == r.size then LoadedFile(Some(bytes), true, true, false)
        else LoadedFile(None, true, true, true)
      case None => LoadedFile(None, true, true, true)
  }

  /** Against a VFS that serves the file faithfully, loading yields the
      whole file; a read that stops short of the reported size yields
      nothing. */
  lemma LoadsWholeFile(contents: seq<bv8>, short: seq<bv8>)
    requires |short| < |contents|
    ensures LoadFileToBuffer(Honest(contents)).buffer == Some(contents)
    ensures LoadFileToBuffer(Honest(contents).(read := Some(short))).buffer.None?
  {
  }

  // ---------------------------------------------------------------------
  // Loading a game (libretro.c:1205-1256)
  // ---------------------------------------------------------------------

  /** The host's game description: the content already in memory (None
      for a NULL `data`; its length is `size`), and its path. */
  datatype GameInfo = GameInfo(data: Option<seq<bv8>>, path: string)

  /** The CD reader's answers: whether the opened image is a Mega CD game,
      and whether it seeks to sector 0. */
  datatype DiscReplies = DiscReplies(isMegaCd: bool, seeksToFirstSector: bool)

  /** The outcome: success, the cartridge the callbacks then see, whether
      the boot is a CD boot, whether the CD reader is left open, and the
      argument the engine was reset with (None: not reset). */
  datatype Loaded = Loaded(success: bool, cartridge: Cartridge, cdBoot: bool, readerOpen: bool, reset: Option<bool>)

  /** `retro_load_game` as written. `rom` is cleared first but `rom_size`
      keeps the previous game's size unless a new ROM is installed. */
  function LoadGameAsWritten(c: Cartridge, info: GameInfo, disc: DiscReplies, file: FileReplies): (l: Loaded)
    ensures l.cartridge.romSize == c.romSize || l.cartridge.rom.Some?
  {
    match info.data
    case Some(data) =>
      Loaded(true, Cartridge(Some(data), |data|), false, false, Some(false))
    case None =>
      if disc.isMegaCd then
        if disc.seeksToFirstSector then Loaded(true, Cartridge(None, c.romSize), true, true, Some(true))
        else Loaded(false, Cartridge(None, c.romSize), true, false, None)
      else
        var loaded := LoadFileToBuffer(file);
        match loaded.buffer
        case Some(bytes) => Loaded(true, Cartridge(Some(bytes), |bytes|), false, false, Some(false))
        case None => Loaded(false, Cartridge(None, c.romSize), false, false, None)
  }

  /** After a cartridge game, a successful Mega CD load leaves `rom` NULL
      with the cartridge's size, so a cartridge read below that size
      dereferences NULL. */
  lemma StaleRomSizeAfterDiscLoad()
    ensures var first := LoadGameAsWritten(Cartridge(None, 0), GameInfo(Some([1, 2, 3, 4]), "game.md"),
                                           DiscReplies(false, false), Honest([]));
            var second := LoadGameAsWritten(first.cartridge, GameInfo(None, "game.cue"),
                                            DiscReplies(true, true), Honest([]));
            && first.success && second.success && second.cdBoot
            && Describes(second.cartridge)
            && CartridgeRead(second.cartridge, 0).None?
  {
  }

  /** `retro_load_game` with `rom_size` cleared together with `rom`. In
      memory content is used as it is; otherwise the image is a Mega CD
      game booted from CD when the reader can seek to its first sector, or
      else a cartridge loaded from the file. The engine is reset exactly on
      success, with the CD-boot flag; the reader stays open exactly after a
      CD boot; and the cartridge stays sound. */
  function LoadGame(c: Cartridge, info: GameInfo, disc: DiscReplies, file: FileReplies): (l: Loaded)
    ensures l.success <==> l.reset.Some?
    ensures l.success ==> l.reset == Some(l.cdBoot)
    ensures l.readerOpen <==> l.success && l.cdBoot
    ensures info.data.Some? ==> l.success && !l.cdBoot && l.cartridge.rom == info.data
    ensures info.data.None? ==> (l.cdBoot <==> disc.isMegaCd)
    ensures info.data.None? && disc.isMegaCd ==> (l.success <==> disc.seeksToFirstSector) && l.cartridge.rom.None?
    ensures info.data.None? && !disc.isMegaCd ==>
      (l.success <==> LoadFileToBuffer(file).buffer.Some?) && l.cartridge.rom == LoadFileToBuffer(file).buffer
    ensures !l.success ==> l.cartridge.rom.None?
    ensures Sound(l.cartridge)
  {
    var l := LoadGameAsWritten(c, info, disc, file);
    if l.cartridge.rom.None? then l.(cartridge := Cartridge(None, 0)) else l
  }

  /** The corrected load differs from the code as written only in the size
      it leaves with no ROM; whenever a ROM is installed they agree. */
  lemma LoadGamesAgree(c: Cartridge, info: GameInfo, disc: DiscReplies, file: FileReplies)
    ensures LoadGame(c, info, disc, file).(cartridge := c) == LoadGameAsWritten(c, info, disc, file).(cartridge := c)
    ensures LoadGame(c, info, disc, file).cartridge.rom == LoadGameAsWritten(c, info, disc, file).cartridge.rom
    ensures LoadGameAsWritten(c, info, disc, file).cartridge.rom.Some? ==>
              LoadGame(c, info, disc, file) == LoadGameAsWritten(c, info, disc, file)
  {
  }

  /** A file-backed cartridge game loads the whole file as its ROM. */
  lemma CartridgeFromFile(c: Cartridge, path: string, contents: seq<bv8>, disc: DiscReplies)
    requires !disc.isMegaCd
    ensures var l := LoadGame(c, GameInfo(None, path), disc, Honest(contents));
            l.success && !l.cdBoot && l.cartridge == Cartridge(Some(contents), |contents|)
  {
  }
}
