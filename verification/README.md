# clownmdemu-libretro bridge, modelled in Dafny

This project models the libretro front end of the clownmdemu Mega Drive
emulator. That front end is `libretro.c` and the core-option table and
publisher in `libretro_core_options.h`. Calls into the host, the
emulation engine, the audio mixer, the CD reader, stdio or `malloc` are
replaced by their answers, passed in as parameters, except where
"Left out" says otherwise. The save bridge's files live in an abstract map
from path to bytes, and the host's failures there (the path's `malloc`, an
open or removal the VFS refuses, a failed size query) are parameters too.
The rest is pure functions over immutable data, plus a few methods where
the source loops.

Modules, one per file:

- `Base`: `Option`, and `CString`, a C string's text without its NUL.
- `Colour`: the three palette-entry conversions from the engine's 0BGR4444
  colours, and the 192-entry palette. The 16-bit and 32-bit views of the
  palette are kept as separate sequences.
- `Scanline`: converting one row of indexed pixels through the palette.
- `Video`: the target buffer chosen at scanline 0, the latched screen size,
  the guarded row writes, fallback pixel-format negotiation, the reported
  geometry, and `retro_get_system_av_info`.
- `Input`: the engine-button to RetroPad mapping, and the input descriptor
  table.
- `Vfs`: the stdio fallbacks and the CD reader's file callbacks, including
  their 64-bit integer conversions.
- `SaveFile`: the backup-RAM save bridge over an abstract file system,
  with its single global handle.
- `OptionTable`: the core-option categories and the 30 option definitions.
- `OptionPublisher`: `libretro_set_core_options`. It covers the version
  dispatch, the version-1 copy and the version-0 "label; default|other"
  strings with their exact buffer length.
- `Options`: `DoOptionBoolean` and `UpdateOptions`, reading the host's
  variables as a map from C-string keys to C-string values.
- `Media`: the cartridge callbacks, the CD-audio track callback,
  `LoadFileToBuffer` and `retro_load_game`.
- `Session`: one frame of `retro_run`, as an ordered trace of events.

## Model

| member | source | states |
|---|---|---|
| Colour.Red | libretro.c:298 | red is the low four bits of the engine colour (bits 0-3), so it is below 16 |
| Colour.Green | libretro.c:299 | green is bits 4-7 of the engine colour, below 16 |
| Colour.Blue | libretro.c:300 | blue is bits 8-11 of the engine colour, below 16 |
| Colour.Widen5 | libretro.c:304-306 | a 4-bit channel widened to 5 bits is the channel shifted up by one with its top bit replicated into bit 0 |
| Colour.Widen6 | libretro.c:319 | the RGB565 green channel widened to 6 bits is the channel shifted up by two with its top two bits replicated |
| Colour.Widen8 | libretro.c:332-334 | a channel widened to 8 bits has the channel in both nibbles, i.e. times 0x11 |
| Colour.WideningApproximatesScaling | libretro.c:295-335 | each widening is the channel rescaled to the wider range, rounded: 5-bit exactly round(31c/15), 6-bit within one unit of 63c/15, 8-bit exactly 17c |
| Colour.WideningIsMonotone | libretro.c:295-335 | each widening is strictly increasing on 0..15, maps 0 to 0 and 15 to the full-scale value |
| Colour.To0RGB1555 | libretro.c:295-307 | the 0RGB1555 pixel has a clear top bit and red, green, blue widened to 5 bits at bits 10, 5 and 0 |
| Colour.ToRGB565 | libretro.c:309-321 | the RGB565 pixel has red and blue widened to 5 bits at bits 11 and 0, green widened to 6 bits at bit 5 |
| Colour.ToXRGB8888 | libretro.c:323-335 | the XRGB8888 pixel has a clear top byte and the channels widened to 8 bits at bits 16, 8 and 0 |
| Colour.ConversionIgnoresHighBits | libretro.c:295-335 | the bits of the engine colour above bit 11 never affect any of the three pixels |
| Colour.SameChannelsSamePixel | libretro.c:295-335 | two colours with equal channels give equal pixels in every format |
| Colour.ConversionExtremes | libretro.c:295-335 | black gives 0 in every format; white (0xFFF) gives 0x7FFF, 0xFFFF and 0xFFFFFF |
| Colour.ColourUpdated | libretro.c:41-45 | the installed callback writes entry `index` of the view its format uses, with that format's pixel, and leaves every other entry and the other view unchanged |
| Scanline.ConvertScanline | libretro.c:337-361 | the destination gets the palette entry of the source index at every position in [left, right) and keeps every other pixel; nothing changes when left >= right |
| Video.StrategyFor | libretro.c:384-402 | each host format installs the colour conversion of that format with the writer of matching pixel width |
| Video.SelectTarget | libretro.c:367-427 | a usable host buffer is adopted with its pitch and format pair; otherwise the fallback buffer with the fallback pair and the fallback row length; the size is latched either way and the state stays valid |
| Video.HostFormatPairs | libretro.c:384-402 | 0RGB1555 and RGB565 buffers get the 16-bit writer and XRGB8888 the 32-bit writer |
| Video.ScanlineRendered | libretro.c:363-431 | only scanline 0 changes the state; a row is written exactly when the scanline lies below the latched height, at `pitch * scanline` bytes into the target |
| Video.LatchOnlyAtLineZero | libretro.c:425-431 | a later scanline at or beyond the latched height changes nothing and writes nothing |
| Video.FallbackWriteInBounds | libretro.c:19-20 | a fallback write stays inside the 320 x 480 buffer when the latched height is at most 480 and `right` at most 320 |
| Video.FallbackBoundNeedsHeightLimit | libretro.c:425-431 | without the height limit a fallback write can run past the end of the buffer, so the source's guard alone does not bound it |
| Video.Rank | libretro.c:1027-1046 | every format has a place in the preference order RGB565, XRGB8888, 0RGB1555 |
| Video.NegotiateFallback | libretro.c:1027-1046 | the fallback is the first accepted format in preference order (0RGB1555 always counts as accepted), its pair is width-consistent, and the host is asked exactly the formats up to the first accepted one |
| Video.SetGeometry | libretro.c:1007-1018 | the base size is the latched size, the maximum is 320 x 480, and the aspect ratio times the height is 320, or 640 when squished (tall-interlace off and height >= 448) |
| Video.SquishMatchesHalfHeight | libretro.c:1013-1017 | a squished height reports the same aspect ratio as half that height |
| Video.TallNeverSquishes | libretro.c:1016-1017 | with tall-interlace on, the aspect ratio is always 320 / height |
| Video.GetSystemAvInfo | libretro.c:1020-1057 | the fallback is renegotiated, the size reset to 320 x 224, the geometry is that of 320 x 224, and the timing follows the PAL flag |
| Input.JoypadId | libretro.c:434-493 | every button is asked about as one of the 12 RetroPad ids; a listed button's id is the one the inverse table reads back as that button; an unlisted button is asked about as Up |
| Input.JoypadIdIsBijective | libretro.c:434-493 | the 12 engine buttons map one-to-one onto the 12 RetroPad ids, with an explicit inverse; an unknown button reads as Up |
| Input.InputRequested | libretro.c:434-494 | the answer is the host's joypad state for the engine's player, device `RETRO_DEVICE_JOYPAD`, index 0, at the id the inverse table maps back to the asked button (such an id exists for every listed button); an unlisted button gets the host's Up |
| Input.DescriptorsAgreeWithMapping | libretro.c:1091-1120 | for both players, the descriptor for each button's id carries that button's own label |
| Input.DescriptorTableShape | libretro.c:1091-1120 | the table has 12 entries per player and a NULL-labelled terminator |
| Vfs.StdioMode | libretro.c:96-118 | a mask gets an fopen mode exactly when it is below 8 and asks to read or to write, and that mode is one of "rb", "wb", "r+b", "w+b" |
| Vfs.StdioModeMeaning | libretro.c:96-118 | a mask is accepted exactly when it is below 8 and asks to read or to write; the mode truncates exactly for write without update-existing, is "+" exactly for write with read or update-existing, and is binary |
| Vfs.SeekDefault | libretro.c:155-184 | the result is -1 for an offset outside `long`, an unknown origin or a failed fseek, and otherwise the position ftell reports |
| Vfs.OriginsChainToStdio | libretro.c:162-178 | through both switches each CD-reader origin reaches the stdio origin of the same name, distinct origins stay distinct, and only unknown origins are rejected |
| Vfs.ClownCDFileSeek | libretro.c:893-916 | the result is 0 exactly when the origin is known and the VFS seek does not answer -1, otherwise -1 |
| Vfs.ClownCDFileTell | libretro.c:883-891 | the VFS position when it fits a non-negative `long`, else -1 |
| Vfs.ClownCDAccess | libretro.c:827-846 | only the CD reader's read and write modes get an access mask; read asks exactly for the read bit, write exactly for the write bit, neither for update-existing, and both masks are accepted by the stdio fallback |
| Vfs.ClownCDModesReachStdio | libretro.c:827-846 | the CD reader's read and write opens reach fopen as "rb" and "wb" |
| Vfs.RequestLength | libretro.c:853-881 | the byte count `size * count` wraps modulo 2^64 and is exact when it fits |
| Vfs.TransferredItemsAsWritten | libretro.c:853-881 | the item count as the C expression evaluates on LP64, always a `size_t` value |
| Vfs.ErrorReadsAsHugeCount | libretro.c:853-866 | a VFS error (-1) with item size 2 is reported as 2^63 - 1 items, more than were asked for |
| Vfs.TransferredItems | libretro.c:853-881 | an error gives 0 items; otherwise the count is the number of whole items transferred, never more than asked, and all of them exactly when every byte was transferred |
| Vfs.TransferredItemsAgreeOnSuccess | libretro.c:853-881 | on every non-error answer the code as written and the corrected count agree |
| SaveFile.BuRAMDirectory | libretro.c:573-584 | the save directory if the host has one, else the system directory, else "" |
| SaveFile.BuRAMPath | libretro.c:586-602 | the path is the directory, then '/', then the file name, with length `|dir| + 1 + |filename|` |
| SaveFile.PathDeterminesFilename | libretro.c:586-602 | two file names with the same path in the same directory are equal |
| SaveFile.NoDirectoryGivesRootPath | libretro.c:573-602 | with no directory from the host the path is "/" followed by the file name |
| SaveFile.Put | libretro.c:645-652 | a byte written at a position replaces that byte, or extends the file by it, and leaves every other byte |
| SaveFile.Open | libretro.c:604-621 | the open succeeds exactly when the path is allocated, the VFS does not refuse, and the open is for writing or the file exists; without a path nothing changes; otherwise the slot gets the new handle at the start of the file, or NULL, a live handle in it is leaked, and only a successful write-open truncates |
| SaveFile.ReadCallbackAsWritten | libretro.c:628-638 | the callback as written returns -1 exactly when the VFS reports 0 bytes; for any other answer, an error included, it returns the buffer byte, a value in 0..255 |
| SaveFile.FailedReadLooksLikeData | libretro.c:628-638 | a VFS error (-1) makes the read callback return the uninitialised byte as if it were data |
| SaveFile.ReadCallback | libretro.c:628-638 | the corrected read callback gives -1 unless exactly one byte arrived, and then that byte |
| SaveFile.ReadCallbacksAgreeWithoutError | libretro.c:628-638 | when the VFS answers 0 or 1 the code as written and the corrected callback agree |
| SaveFile.Read | libretro.c:628-638 | a read through a live reading handle returns the byte at the position and advances, or -1 at the end; without a live handle it is a fault |
| SaveFile.Write | libretro.c:645-652 | a write through a live writing handle stores the byte at the position and advances; without a live handle it is a fault |
| SaveFile.Close | libretro.c:654-659 | closing leaves the handle dangling rather than clearing it, so closing twice is a fault |
| SaveFile.Remove | libretro.c:661-677 | removal succeeds exactly when the path is allocated, the VFS does not refuse and the file exists; it then removes only that file, and otherwise changes nothing |
| SaveFile.SizeQueryAsWritten | libretro.c:679-704 | the query as written succeeds exactly when the path is allocated, the VFS opens the file and the file exists, whatever `File_GetSize` answers; a size error is reported as 2^64 - 1, and otherwise the size is the file's length when it fits `size_t` |
| SaveFile.SizeErrorReadsAsHugeFile | libretro.c:679-704 | a failed `File_GetSize` (-1) on an existing file is reported as success with a size of 2^64 - 1 |
| SaveFile.SizeQuery | libretro.c:679-704 | the corrected query succeeds exactly when the path is allocated and the file is opened and sized, and then answers the file's length |
| SaveFile.SizeQueriesAgreeWithoutSizeError | libretro.c:679-704 | when `File_GetSize` answers, for any file an `int64_t` can measure, the code as written and the corrected query agree |
| SaveFile.WriteAllAppends | libretro.c:645-652 | writing bytes one by one from the end of a file appends them |
| SaveFile.ReadsOfWholeFile | libretro.c:628-638 | reading one more time than the file is long yields every byte and then -1 |
| SaveFile.ReadManyYieldsRest | libretro.c:628-638 | n reads from a position yield the next n bytes, padded with -1 past the end |
| SaveFile.WriteThenReadBack | libretro.c:604-659 | when the host lets both opens through, a file written, closed, reopened for reading and read to its end yields exactly the bytes written, then -1 |
| SaveFile.RefusedOpenEmptiesSlot | libretro.c:604-621 | an open the VFS refuses stores NULL in the slot, leaking a live handle and leaving the file alone, so the engine's next write is a fault; without a path the slot keeps its handle |
| SaveFile.CloseDoesNotClearSlot | libretro.c:654-659 | after a close, a second close or a read uses the dangling handle |
| SaveFile.SecondOpenLeaksFirst | libretro.c:604-621 | opening while a handle is live leaks that handle, whether or not the second open succeeds |
| SaveFile.LocalHandlesLeaveSlot | libretro.c:661-677 | removal uses no handle of the engine's and never touches the global one or the leak count |
| OptionTable.Toggle | libretro_core_options.h:90-607 | an on/off option has its key, texts, category and default, and the values "enabled" and "disabled" before the terminator |
| OptionTable.ToggleWellFormed | libretro_core_options.h:90-607 | an on/off option whose default is one of its values is well formed |
| OptionTable.DebugOptionsWellFormed | libretro_core_options.h:90-449 | the 23 debug options are well formed, in the debug category, default "disabled", with their keys in table order |
| OptionTable.SettingOptionsWellFormed | libretro_core_options.h:451-605 | the seven setting options are well formed, each with its default among its values |
| OptionTable.DefinitionsLayout | libretro_core_options.h:90-607 | the table is the 23 debug options, then the 7 settings, then the NULL sentinel |
| OptionTable.TableShape | libretro_core_options.h:90-607 | 30 well-formed options precede the sentinel |
| OptionTable.KeysAreUnique | libretro_core_options.h:90-607 | no two options share a key |
| OptionTable.CategoriesShape | libretro_core_options.h:54-88 | four categories, each with a key and a description, pairwise distinct in both, then a NULL terminator |
| OptionPublisher.OptionsBeforeSentinel | libretro_core_options.h:715-721 | the count stops at the first option with a NULL key, and every option before it has a key |
| OptionPublisher.ValuesBeforeTerminator | libretro_core_options.h:832-846 | the count stops at the first NULL value, and every value before it is set |
| OptionPublisher.DefaultIndex | libretro_core_options.h:835-840 | the index of the last value equal to the default, or 0 when the default is NULL or not listed |
| OptionPublisher.DefaultFirst | libretro_core_options.h:860-873 | the same values with the default moved to the front and the others in their original order |
| OptionPublisher.ScanValues | libretro_core_options.h:829-846 | the first loop counts the values, finds the default's index, and adds their lengths to 3 |
| OptionPublisher.JoinValues | libretro_core_options.h:857-873 | the string built is the label, "; ", the default, then "|" and each other value in order |
| OptionPublisher.BufferFits | libretro_core_options.h:824-856 | 3 plus the value lengths, the separators and the label's length is exactly the built string's length plus its NUL |
| OptionPublisher.BuildValue | libretro_core_options.h:824-875 | the version-0 value is built, with a buffer exactly one longer than the string, and is NULL when no value is listed |
| OptionPublisher.CountOptions | libretro_core_options.h:715-721 | the loop stops at the sentinel, and its count is the number of options before it |
| OptionPublisher.CopyValues | libretro_core_options.h:740-749 | the value/label pairs before the NULL value are copied in order, then terminated |
| OptionPublisher.CopyV1 | libretro_core_options.h:723-751 | num_options + 1 entries: each option's version-1 copy, then a zeroed terminator |
| OptionPublisher.BuildVariables | libretro_core_options.h:807-884 | one variable per option, keeping the key even when the value is NULL, then a zeroed terminator |
| OptionPublisher.Version | libretro_core_options.h:670-676 | a failed version query is read as version 0; otherwise the host's answer is the version |
| OptionPublisher.Publish | libretro_core_options.h:668-884 | a failed version query counts as 0; version >= 2 publishes the table unchanged, version 1 the copies, anything else the variables |
| OptionPublisher.V1KeepsValues | libretro_core_options.h:731-749 | a version-1 copy keeps key, texts and default and every listed value/label pair, and ends right after them |
| OptionPublisher.V0ValueListsEveryValue | libretro_core_options.h:857-873 | a version-0 value lists each value exactly as often as the option does, with the default first |
| OptionPublisher.TableHasThirtyOptions | libretro_core_options.h:715-721 | the counting loop finds 30 options, each with a terminated value list |
| OptionPublisher.TwoValueVariable | libretro_core_options.h:824-875 | a two-value option becomes "label; default|other" |
| OptionPublisher.ToggleAsVariable | libretro_core_options.h:824-875 | an on/off option becomes "label; default|other state" |
| OptionPublisher.TvStandardAsVariable | libretro_core_options.h:824-875 | the TV-standard option becomes "Console > TV Standard; ntsc|pal" |
| Options.OptionBoolean | libretro.c:767-772 | an option reads as on only when the host answers for the key; it is then on exactly when the value equals the true value, character by character as `strcmp` compares; a failed query or NULL value reads as off |
| Options.ReadConfig | libretro.c:794-820 | each engine setting follows its own question: overseas region exactly when "elsewhere", the TV standard from the PAL flag, low-pass filter and ladder effect disabled exactly when their options are not "enabled", and each sprite, window, plane, FM, DAC, PSG and PCM switch disabled exactly when its option is "enabled" |
| Options.UpdateOptions | libretro.c:774-821 | the PAL and tall-interlace flags end equal to their variables and the engine configuration is the one read for the refreshed PAL flag; effects happen exactly when the PAL flag changes outside the first call, and are then the mixer restart, one offer per pixel format `retro_get_system_av_info` tries while it renegotiates the fallback (libretro.c:1027-1046), and the announcement of the refreshed flags' geometry and timing; the video state becomes the one that call leaves |
| Options.AnnouncementIgnoresTall | libretro.c:780-791 | announcing before the tall flag is refreshed is harmless, because the announced size is 320 x 224 |
| Options.ConfigOnlyQueries | libretro.c:793-820 | two sets of variables that answer every query alike give the same engine configuration |
| Options.OnlyQueriesMatter | libretro.c:774-821 | the whole update depends on the variables only through the queried key/value pairs |
| Options.QueriesCoverConfig | libretro.c:793-820 | every query the configuration reads is among the queries |
| Options.UnreadOptions | libretro.c:774-821 | the CD add-on and widescreen variables do not affect the update |
| Options.DebugQueriesMatchTable | libretro.c:797-820 | each debug query asks for its table key to be "enabled" |
| Options.QueriesNameTableOptions | libretro.c:776-820 | every key/value pair the update tests names a table option whose value list holds that value |
| Options.DefaultsGiveStockConfig | libretro.c:774-821 | with every variable at its default, PAL and tall-interlace are off and the configuration disables nothing |
| Media.CartridgeRead | libretro.c:278-286 | at or past `rom_size` a read gives 0; below it the read gives the ROM byte, and faults exactly when there is no ROM |
| Media.CartridgeWrite | libretro.c:288-293 | the write callback ignores its arguments: the cartridge is read-only |
| Media.ReadsSeeZeroExtendedRom | libretro.c:278-286 | a read of a sound cartridge sees the ROM followed by zeros |
| Media.ReadFaultsOnlyWithoutRom | libretro.c:278-286 | a read faults exactly when there is no ROM but a non-zero size, so a sound cartridge never faults |
| Media.PlaybackForInvertsModeFor | libretro.c:544-561 | each CDDA mode reaches the playback setting of the same name, with an explicit inverse; only unknown modes are rejected |
| Media.CDSeekTrack | libretro.c:538-564 | an unknown mode fails without reaching the reader; a known one returns the reader's answer for the track and its setting |
| Media.SeekTrackAsksForSameSetting | libretro.c:544-563 | a track started in a mode is played with the setting of the same name |
| Media.LoadFileToBuffer | libretro.c:237-272 | success exactly when every step succeeds and the read returns the reported size, with the bytes read as the buffer; an opened file is always closed, and an allocated buffer is either handed over or freed |
| Media.LoadsWholeFile | libretro.c:237-272 | a faithful VFS loads the whole file, and a short read loads nothing |
| Media.LoadGameAsWritten | libretro.c:1205-1256 | `rom_size` keeps its old value unless a new ROM is installed |
| Media.StaleRomSizeAfterDiscLoad | libretro.c:1210-1233 | a 4-byte cartridge game followed by a Mega CD game leaves no ROM but size 4, and a read at address 0 faults |
| Media.LoadGame | libretro.c:1205-1256 | content in memory is used as it is; otherwise a Mega CD image boots from CD when its first sector can be reached, else the file is loaded as a cartridge; the engine is reset exactly on success with the CD-boot flag, the reader stays open exactly after a CD boot, and the cartridge stays sound |
| Media.LoadGamesAgree | libretro.c:1205-1256 | the corrected load differs from the code as written only in the size left with no ROM |
| Media.CartridgeFromFile | libretro.c:1236-1245 | a cartridge game on a faithful VFS loads the whole file as its ROM |
| Session.Iterate | libretro.c:363-431 | the engine's callbacks keep the state valid, produce only row writes, change the video state only at scanline 0, and change the palette only through colour calls |
| Session.Run | libretro.c:1177-1203 | options are refreshed exactly when the host reports changed variables, and the frame's trace then opens with that update's effects; the rows written, the final video state and the palette are those of the engine's calls run from the refreshed video state (or the old one); input is polled once, rows are written only between the mixer's single begin and end, the geometry for the latched size is sent on every frame, then the frame is uploaded |
| Session.Refresh | libretro.c:1182-1183 | when `GET_VARIABLE_UPDATE` answers true the refresh is a later call's `UpdateOptions` (with `only_flags` false); a failed call or a false answer leaves options and video as they were and has no effects |
| Session.FrameEvents | libretro.c:1177-1203 | a frame's trace is phase-ordered, with one poll, one mixer begin and one mixer end; it opens with the options' effects (none when there are none), its row writes are exactly the engine's, and it ends with the geometry and the upload |
| Session.FrameRows | libretro.c:1186-1191 | the row writes of a frame's trace, in order, are exactly those the engine made |
| Session.FrameHead | libretro.c:1182-1186 | a frame's trace starts with the options' effects and holds no option effect when there were none |
| Session.FrameLayout | libretro.c:1177-1203 | effects, poll, mixer begin, rows, mixer end, geometry, upload form a phase-ordered trace with one poll, begin and end |
| Session.RowsInsideMixer | libretro.c:1187-1191 | in a phase-ordered trace every row write lies after every mixer begin and before every mixer end |
| Session.ColourThenRow16 | libretro.c:295-361 | after a colour update, a row copied by the 16-bit writer shows that colour packed in the installed format wherever the source names the updated entry, the old entries elsewhere in the range, and the old pixels outside it |
| Session.ColourThenRow32 | libretro.c:323-361 | the same through the 32-bit writer, with the colour packed as XRGB8888 |
| Session.PaletteKeptAcrossFormatSwitch | libretro.c:384-402 | a palette entry set to red under 0RGB1555 still holds 0x7C00 after the switch to an RGB565 host buffer, whose red is 0xF800: the palette is not re-converted |

## Left out

- Real file I/O (`fopen`, `fread`, `fseek`, `remove`, `File_GetSizeDefault`) and the host's VFS: the save files live in an abstract map from path to bytes, and only the failures listed above are parameters.
- SaveFile.Read: a VFS error on a read through the engine's open handle is not produced by the bridge model; its effect on the callback's answer is modelled on its own by `SaveFile.ReadCallback`.
- SaveFile.Write: a VFS error on a write through the engine's open handle is not modelled; the callback ignores `File_Write`'s answer, so such a byte is simply lost.
- The emulation engine, the mixer and the CD reader, including the audio callbacks that only forward frame counts: their calls are parameters, or appear as events in the frame trace.
- Snapshot saving and restoring, and the memory-region queries: opaque copies of structures whose layout is not part of this model.
- Logging, including its unbounded `vsprintf`: foreign and side-effecting only.
- Floating point: the aspect ratio and frame rates are exact reals, and the timing is reduced to PAL or NTSC.
- The union that overlays the palette's 16-bit and 32-bit views, and the one that overlays the fallback framebuffer: the views are separate sequences.
- The language-specific branches of the option publisher, which this build compiles out.
- `calloc` failure in the option publisher. For version 0 (libretro_core_options.h:810-815, 856-858) it jumps to `error`, which frees what was allocated and publishes nothing; for version 1 (726-727) the result is not checked and lines 731-749 write through the NULL pointer. Allocation is not a parameter of the model, so neither path is modelled.
- Trivial setters, `retro_get_system_info`, `retro_api_version`, `retro_get_region`, `retro_reset`, `retro_unload_game`, the cheat stubs and `retro_load_game_special`.
- The debug-build `assert` in the default branches of the two switches; the release behaviour is modelled.
- The host's limit of 128 values per version-1 option, because libretro.h is not part of this model.
- `size_t` overflow of the version-0 buffer length, which cannot happen for strings that fit in memory.
- Callbacks that are NULL before the first `retro_set_*` call, and a NULL save directory string from the host.
- The state before the first `retro_get_system_av_info`: there the fallback function pointers are still NULL (libretro.c:52-53), so a frame would take the 32-bit fallback branch (libretro.c:410-418), while `retro_init` has installed the 0RGB1555 colour callback (libretro.c:945). No `VideoState` represents that start; every state the model runs from has a negotiated fallback pair.
- Media.CartridgeRead: addresses are unbounded naturals rather than `cc_u32f`, which changes nothing because the comparison with `rom_size` is the same.
- Session.Run: the video upload and geometry are events carrying values; the host's handling of them is not modelled.
- Options.OptionBoolean: a failed variable query and a NULL value are both modelled as the key being absent from the variables, because both read as false.

## Findings

| source | as written | input that shows it | evidently intended | confidence | as-written member | corrected member |
|---|---|---|---|---|---|---|
| libretro.c:853-881 | `File_Read(...) / size` divides a signed 64-bit byte count by `size_t`, so -1 is converted to 2^64 - 1 before the division | the VFS answers -1 to a read of 1 item of size 2: the callback reports 2^63 - 1 items | an error reports 0 items | medium, not executed | Vfs.TransferredItemsAsWritten, Vfs.ErrorReadsAsHugeCount | Vfs.TransferredItems |
| libretro.c:628-638 | only a zero-byte read returns -1; a -1 error answer returns the uninitialised byte | the VFS answers -1 while the buffer byte holds 0x42: the callback returns 0x42 | anything but exactly one byte read returns -1 | medium, not executed | SaveFile.ReadCallbackAsWritten, SaveFile.FailedReadLooksLikeData | SaveFile.ReadCallback |
| libretro.c:1210-1233 | `retro_load_game` clears `rom` but not `rom_size`, so a CD boot keeps the previous cartridge's size | a 4-byte cartridge game is loaded, then a Mega CD game: `rom` is NULL, `rom_size` is 4, and a cartridge read at address 0 dereferences NULL | `rom_size` is cleared with `rom` | low, not executed (it depends on the engine reading cartridge space during a CD boot) | Media.LoadGameAsWritten, Media.StaleRomSizeAfterDiscLoad | Media.LoadGame |
| libretro.c:679-704 | the signed answer of `File_GetSize` is stored into the `size_t` result and success is reported whatever it was | a file exists but `File_GetSizeDefault`'s `fgetpos`, `fseek` or `fsetpos` fails, so it answers -1: the engine is told the save file is 2^64 - 1 bytes long | a failed size query reports failure | medium, not executed | SaveFile.SizeQueryAsWritten, SaveFile.SizeErrorReadsAsHugeFile | SaveFile.SizeQuery |
