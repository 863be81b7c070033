# A verified model of the GrafX2 start-up, screen and logging core

This project models, in Dafny, the parts of GrafX2 (the 256-colour bitmap
paint program) that read its GUI skin and font, build the button and video-mode
tables, load and save the configuration file `gfx2.cfg`, keep track of the
part of the screen that must be redrawn, and filter and format log messages.
It also proves properties of each of these parts.

- **Skin and font** (`skin.dfy`). This covers the colour swatches in the first row of a
  skin, the search for the next element (`GUI_seek_down`, `GUI_seek_right`), and
  `Read_GUI_block` with its size check and its per-type colour rules. It also
  covers the packing of 16x16 patterns into bit rows (`Read_GUI_pattern`),
  `Center_GUI_cursor` and the 8x8 font parser `Parse_font`.
- **Buttons and video modes** (`buttons.dfy`, `videomodes.dfy`). This covers
  `Init_button` on the button table, and the mode table that `Set_video_mode`
  fills, with the initial state of each mode. It also covers
  `Compare_video_modes`.
- **Configuration** (`cfgformat.dfy`, `cfgspec.dfy`, `cfgload.dfy`, `cfgsave.dfy`,
  `cfgglobals.dfy`, `cfgdefaults.dfy`, `cfgroundtrip.dfy`).
  - The settings that `gfx2.cfg` holds form one record, `Settings`.
  - `Load_CFG` and `Save_CFG` are first given as functions over byte sequences
    (`LoadCfgSpec`, `SaveCfgSpec`).
  - They are then written as the loops of the source: methods over a `Globals`
    object whose fields are the program's global tables. Each loop is proved
    equal to its function.
  - The round trip is proved on the functions: a file that `Save_CFG` wrote is
    loaded back by `Load_CFG` into the settings that were saved, up to the
    normalisation the format imposes.
  - `Set_config_defaults` and the paintbrush bitmap decode of `Init_paintbrush`
    (`paintbrush.dfy`) are also modelled.
- **Screen** (`screen.dfy`). This covers the bounds-checked `Get_Screen_pixel`
  and `Set_Screen_pixel` on a screen surface object. It also covers the
  cumulated dirty rectangle and status-line span that `Update_rect`,
  `Update_status_line` and `Flush_update` maintain, in C `short`s. Finally it
  covers `Surface_to_bytefield` and `Get_SDL_pixel_hicolor`, whose 3-byte case is little-endian on every host as written (see "## Findings").
- **Logging** (`log.dfy`). This covers the `GFX2_LogV` verbosity filter and the
  choice of output stream or SDL priority, and the line layout of
  `GFX2_LogHexDump`.

Things outside the program become parameters:
- A file is a byte sequence, or `None` when it cannot be opened.
- An image is an `Image` whose pixel accessor answers 0 outside the image.
  The accessor `Get_GFX2_Surface_pixel` is not part of this model.
- `Key_for_scancode` and the program's version bytes are fields of `Env`.
- The display's answer about fullscreen support is an argument.
- SDL update calls become the rectangles returned for the display.

Integer widths are written out where they matter:
- `byte` and `word` are ranges of `int`.
- A C `short` store wraps with `ToShort`.
- A `word` subtraction wraps with `ToWord`.
- The unsigned cast in the log filter is `AsUnsigned`.

The model follows the code, not any prose description, wherever the two could
differ:
- A configuration error is a result value (`CfgMissing`, `CfgCorrupted`,
  `CfgOld`) that the caller sees, not an abort.
- A saved and reloaded configuration is not byte-identical. Brush pixels come
  back as 0 or 1, empty scripts come back as absent, and only the mode states
  0, 2 and 3 survive the mask that `Load_CFG` applies.

## Model

| member | source | states |
|---|---|---|
| Log.AsUnsigned | src/gfx2log.c:49 | the `(unsigned)` cast of a 32-bit int: the value itself when non-negative, the value plus 2^32 when negative, always below 2^32 |
| Log.Route | src/gfx2log.c:46-73 | a message reaches no sink exactly when the verbosity filter drops it; a shown message goes to the SDL log exactly when the build uses it, and to a stream otherwise |
| Log.ReleaseFilter | src/gfx2log.c:48-50 | in a release build with a non-negative verbosity, a message is dropped exactly when its priority is negative or above the verbosity (the unsigned comparison) |
| Log.DebugBuildKeepsAll | src/gfx2log.c:48-51 | a `_DEBUG` build never drops a message |
| Log.MoreSevereAlsoShown | src/gfx2log.c:49-50 | if a priority is shown, every more severe non-negative priority is shown as well |
| Log.DefaultVerbosity | src/gfx2log.c:35-50 | with the initial verbosity GFX2_INFO, errors, warnings and information are shown and debug messages are dropped |
| Log.StreamChoice | src/gfx2log.c:53 | without the SDL log, errors and warnings go to stderr and every other shown priority (information, debug, unknown and negative ones) to stdout |
| Log.SdlChoice | src/gfx2log.c:55-73 | with the SDL log, error, warning, information and debug messages are logged at SDL's error, warn, info and debug levels, and any other priority at the critical level |
| Log.SdlLevelsDistinct | src/gfx2log.c:57-73 | the four known priorities map to four distinct SDL levels, none of them the critical level used for unknown priorities |
| Log.LogHexDump | src/gfx2log.c:86-119 | the lines produced are HexDump's: one per started group of 16 bytes (none for count <= 0), line k formatting the bytes from offset + 16k |
| Log.FormatLine | src/gfx2log.c:92-114 | one loop turn shows min(count, 16) bytes and builds exactly the line HexLine describes for them |
| Log.AppendHexBytes | src/gfx2log.c:97-103 | the first inner loop appends " %02x" for each byte of the chunk, in order |
| Log.Spaces | src/gfx2log.c:104-108 | the padding is n blanks |
| Log.AsciiColumn | src/gfx2log.c:112-113 | the printable column has one character per byte: the byte itself in [32, 127), '.' otherwise |
| Log.AppendAscii | src/gfx2log.c:112-113 | the second inner loop appends the printable column of the chunk |
| Log.HexUpperWidth | src/gfx2log.c:93 | `%06lX` prints exactly six digits for an offset below 16^6, and never more than d digits for an offset below 16^d |
| Log.HexUpperValue | src/gfx2log.c:93 | reading the printed offset back as hexadecimal gives the offset |
| Log.Hex2Value | src/gfx2log.c:99 | reading the two printed digits of a byte back gives the byte |
| Log.HexBytesAt | src/gfx2log.c:97-103 | the hexadecimal column is 3 characters per byte, and characters 3j..3j+3 are " " and byte j's two digits |
| Log.HexLineLayout | src/gfx2log.c:93-113 | a line starts with its prefix (the header, the offset in at least six upper-case hex digits, and a colon), has " \| " 48 characters after that prefix and the ASCII column of the bytes after the separator |
| Log.HexLineColumn | src/gfx2log.c:97-103 | the hexadecimal column, three characters per byte, comes right after the prefix |
| Log.FullLineFitsBuffer | src/gfx2log.c:88-114 | a full line and its NUL fit the 128-byte buffer exactly when the header is at most 53 characters |
| Log.Dropped | src/gfx2log.c:48-50 | a release build drops a message exactly when its priority exceeds the verbosity compared as unsigned: for a non-negative verbosity, a negative priority or one above it; for a negative verbosity, a negative priority above it; a debug build drops nothing |
| Log.SdlPriorityOf | src/gfx2log.c:57-73 | the SDL level is critical exactly for a priority outside error to debug |
| Log.HexLine | src/gfx2log.c:92-114 | every line is prefix + 51 + (bytes shown) characters long, so " \| " always sits in the same column |
| Log.HexDump | src/gfx2log.c:86-119 | no lines for a count of 0 or less; otherwise as many lines as 16-byte chunks of the count |
| Buttons.Initialized | src/init.c:831-844 | the button keeps its shortcuts, stores width and height minus one, is not pressed and has no icon |
| Buttons.ZeroSizeWraps | src/init.c:833-834 | a zero width or height is stored as 65535, as the word arithmetic of the source wraps round |
| Buttons.InitButton | src/init.c:821-845 | button n becomes the initialized button and every other button of the pool is unchanged |
| VideoModes.InitialState | src/init.c:1937-1950 | a windowed mode gets state 128, a supported fullscreen mode state 1, and a mode is skipped (0) exactly when it is fullscreen and unsupported |
| VideoModes.VideoModeTable.constructor | src/init.c:1922-1958 | the table starts empty with the given capacity |
| VideoModes.VideoModeTable.SetVideoMode | src/init.c:1932-1957 | a full table or an unsupported fullscreen mode leaves the table unchanged; otherwise the mode is appended with its initial state, the count grows by one and the free slots are untouched; every listed mode keeps short dimensions |
| VideoModes.CompareVideoModes | src/init.c:1961-1972 | negative, zero or positive exactly when the first mode is narrower (or as wide and lower), the same size, or wider (or as wide and taller); for two modes of short dimensions the result fits an `int` |
| VideoModes.CompareAntisymmetric | src/init.c:1961-1972 | swapping the modes negates the comparison |
| VideoModes.CompareTransitive | src/init.c:1961-1972 | the order the comparison induces is transitive |
| VideoModes.SortedMeansLexicographic | src/init.c:1961-1972 | a table sorted by the comparison is sorted by width, then by height |
| Paintbrushes.Unpack | src/init.c:3036-3040 | n pixels decode from (n + 7) / 8 bytes, each pixel 1 or 0 from bit 0x80 >> (i & 7) of byte i / 8 |
| Paintbrushes.Pack | src/init.c:2761-2779 | the packed form of a sprite has (n + 7) / 8 bytes |
| Paintbrushes.UnpackPack | src/init.c:2761-2779 | decoding an encoded sprite gives back its pixels, every non-zero pixel as 1 |
| Paintbrushes.PackUnpack | src/init.c:2434-2444 | encoding the pixels of a whole number of packed bytes gives back those bytes |
| Paintbrushes.PackSprite | src/init.c:2761-2779 | the encoding loop of Save_CFG (or-ing bits, emitting every eighth pixel and a last partial byte) outputs exactly the packed form |
| Paintbrushes.PackStep | src/init.c:2763-2771 | one turn of the encoding loop adds the pixel's bit and stays below 256; the eighth pixel completes the packed byte and restarts from 0 |
| Paintbrushes.ReadSprite | src/init.c:2434-2444 | the decoding loop of Load_CFG succeeds exactly when (n + 7) / 8 bytes are left, and then yields the unpacked pixels and the input after them |
| Paintbrushes.ReadSpritePixel | src/init.c:2436-2443 | one turn of the decoding loop reads a new byte before every eighth pixel, fails exactly when none is left, and extends the decoded pixels by one |
| Paintbrushes.InitPaintbrush | src/init.c:3024-3041 | brush index gets the shape, the size, the hot spot at half the size and the pixels decoded from the bitmap; no other brush changes |
| Screen.PixelIndexInjective | src/sdlscreen.c:83 | two different points of a surface whose rows are no wider than the pitch never share a byte of the pixel buffer |
| Screen.PixelIndexInRange | src/sdlscreen.c:78-83 | a point that passes the bounds check lies inside the h * pitch bytes of the surface |
| Screen.ScreenSurface.constructor | src/sdlscreen.c:76-94 | a fresh w x h surface, all pixels 0 |
| Screen.ScreenSurface.SetPixel | src/sdlscreen.c:86-94 | a point outside [0, w) x [0, h) changes nothing and is reported; otherwise Get_Screen_pixel reads back the written value there and every other point of the surface keeps its pixel |
| Screen.AddRectIsLeastEnclosing | src/sdlscreen.c:279-290 | Update_rect of a non-empty rectangle makes the dirty box the least box enclosing the old box and the rectangle |
| Screen.FirstRectAfterFlush | src/sdlscreen.c:250-251 | after a flush the first rectangle added becomes exactly the dirty box |
| Screen.FlushedRectIsClippedBox | src/sdlscreen.c:234-248 | a non-empty dirty box is pushed as the box with its corner moved onto the screen and its far edges cut at the screen's edges, scaled by the pixel size |
| Screen.FlushIsIdempotent | src/sdlscreen.c:234-262 | a second flush right after a flush pushes no rectangle and leaves the box as it is |
| Screen.AddStatusIsLeastEnclosing | src/sdlscreen.c:316-319 | Update_status_line makes the dirty span the least span enclosing the old span and the new characters |
| Screen.FirstStatusAfterFlush | src/sdlscreen.c:261-262 | after a flush, the first status update makes the span exactly its characters |
| Screen.FlushedStatusCoversSpan | src/sdlscreen.c:253-259 | a status span with a non-zero end is pushed as 8 zoomed pixels per character after an 18-pixel margin |
| Screen.UpdateTracker.constructor | src/sdlscreen.c:205-210 | the initial globals: the whole screen dirty, an empty status span |
| Screen.UpdateTracker.UpdateRect | src/sdlscreen.c:268-300 | the dirty box grows by the rectangle (an empty rectangle asks for the whole screen), the far corner kept as a `short`; the status span is unchanged |
| Screen.UpdateTracker.UpdateStatusLine | src/sdlscreen.c:304-327 | the status span merges the new characters; the dirty box is unchanged |
| Screen.UpdateTracker.FlushUpdate | src/sdlscreen.c:217-264 | returns the clipped dirty rectangle and the status rectangle it pushes, then resets the box to the inverted box (when it pushed) and the span to [25, 0) |
| Screen.Stride | src/sdlscreen.c:346-349 | the row length of an 8-bit surface is the width rounded up to a multiple of 4 |
| Screen.RowsFromLength | src/sdlscreen.c:354-360 | the byte field has w * h bytes |
| Screen.RowsFromRow | src/sdlscreen.c:354-360 | row y of the byte field is the w bytes y strides into the surface |
| Screen.UnpaddedAt | src/sdlscreen.c:354-360 | pixel (x, y) of the byte field, at y * w + x, is pixel (x, y) of the surface, at y * stride + x |
| Screen.UnpaddedOfPadded | src/sdlscreen.c:335-363 | converting a surface laid out with zero row padding gives back its rows end to end |
| Screen.SurfaceToBytefield | src/sdlscreen.c:335-363 | a surface of any other depth than 8 bits gives null; otherwise the first w * h bytes of the result (the given buffer, or a fresh one of w * h bytes) are the unpadded pixels and the rest of a given buffer is unchanged |
| Screen.CopyRows | src/sdlscreen.c:354-360 | the copy loop writes exactly the unpadded rows at the start of the buffer and nothing after them |
| Screen.CopyNextRow | src/sdlscreen.c:355-359 | one turn of the copy loop puts the next source row after the rows already copied, advances the source by one stride and leaves the rest of the buffer |
| Screen.RowPadding | src/sdlscreen.c:346-349 | the padding is under 4 bytes and makes the width up to the stride |
| Screen.CopyRow | src/sdlscreen.c:356 | the memcpy of a row puts its w bytes after the bytes already written and changes nothing further |
| Screen.ThreeBytePixelLittleEndian | src/sdlscreen.c:409-412 | as written, on either host, a 3-byte pixel has a zero top byte and its three bytes in order from the least significant |
| Screen.ThreeBytePixelBigEndian | src/sdlscreen.c:413-415 | read in host order, as the comments intend, a 3-byte pixel on a big-endian host has a zero low byte and its three bytes in order from the most significant |
| Screen.ScreenSurface.GetPixel | src/sdlscreen.c:76-84 | a pixel off the surface reads 0; one on it reads the byte at x + y * pitch, which lies inside the buffer |
| Screen.HicolorPixel | src/sdlscreen.c:395-420 | the value fits a 32-bit dword and a 3-byte pixel fits in three bytes on every host; for 2- and 4-byte pixels, and on a little-endian host, it is the host-order reading |
| Screen.HostOrderPixel | src/sdlscreen.c:399-419 | the host-order reading fits a dword; on a little-endian host it fits in the bytes read; a big-endian 3-byte value has a zero low byte |
| Screen.ThreeBytePixelBigEndianHost | src/sdlscreen.c:410-415 | on a big-endian host the bytes 1, 2, 3 read as 0x030201 as written, but as 0x01020300 in host order |
| Screen.AddRect | src/sdlscreen.c:279-294 | an empty rectangle marks the whole screen; otherwise the corners move out to take in the rectangle, the far corner truncated to a short when it moves |
| Screen.AddStatus | src/sdlscreen.c:316-319 | the dirty span begins at the lower of the two starts and ends at the higher of the two ends, the new end truncated to a short |
| Screen.FlushedRect | src/sdlscreen.c:234-248 | nothing is sent exactly for an empty box; what is sent starts at non-negative coordinates |
| Screen.FlushedStatus | src/sdlscreen.c:253-259 | nothing is sent exactly when the span ends at 0; what is sent is one character row high, at the status line |
| Skin.GuiSeekDown | src/init.c:107-127 | fails exactly when column 0 is the neutral colour from the start row down to the bottom (the start pixel is always looked at), leaving the position; otherwise stops at the first other pixel |
| Skin.GuiSeekRight | src/init.c:129-149 | fails exactly when the row is the neutral colour from the start column to the right edge (the start pixel is always looked at), leaving the position; otherwise stops at the first other pixel |
| Skin.RowsValidFrom | src/init.c:170-197 | the row-by-row validity of a block is the validity of each of its rows |
| Skin.BlockRowsLength | src/init.c:170-197 | a block reads width bytes per row |
| Skin.BlockIndex | src/init.c:174-196 | byte i * width + j of a block is the stored value of pixel (start_x + j, start_y + i) |
| Skin.ReadGuiBlock | src/init.c:151-200 | fails exactly when the block reaches the last row or column of the image or holds a colour its type refuses; on success the block's stored values, monochrome pixels as 0/1, fill dest in row order; a size failure writes nothing and nothing past the block is ever written |
| Skin.ReadGuiRows | src/init.c:170-199 | the row loop fails exactly when some row holds a refused colour, and otherwise writes the whole block |
| Skin.ReadGuiRow | src/init.c:172-196 | the pixel loop of one row fails exactly on a refused colour, and otherwise writes the row's stored values at its place, leaving the rest of dest |
| Skin.ReadNextRow | src/init.c:170-197 | one turn of the row loop fails exactly when the row holds a refused colour; otherwise the row follows the rows already read, and the rest of dest is untouched |
| Skin.ReadGuiPattern | src/init.c:205-221 | fails exactly when the 16x16 monochrome block fails; otherwise bit x of word y is set exactly when pixel (x, y) of the block is not transparent, and a failure writes nothing |
| Skin.PackPattern | src/init.c:211-220 | the 16 words are the rows of the block packed one bit per pixel |
| Skin.PatternRow | src/init.c:185-193 | a row of a monochrome block holds 0 or 1 per pixel, 1 exactly for the non-transparent ones |
| Skin.PackRow | src/init.c:215-218 | or-ing pixel x in at bit x gives the packing of the row |
| Skin.CenterGuiCursor | src/init.c:225-268 | the offsets are 14 minus the first non-transparent column and row among the first 14 (0 when there is none), so they lie in [0, 14]; the sprite is the area read from there |
| Skin.NextChangeIsFirst | src/init.c:283-338 | a swatch scan stops at the first later column of row 0 whose colour differs, and fails exactly when every column up to its limit matches |
| Skin.NextChangeOneFurther | src/init.c:306-315 | a scan limit one column further can only turn a failure into a stop at the old limit |
| Skin.ThirdScanLimitHarmless | src/init.c:306-315 | the third scan's limit of width + 1 (the others use width) gives the same header as a limit of width |
| Skin.HeaderColorsDistinct | src/init.c:282-352 | each swatch colour differs from the one before, the neutral colour from the transparent one, and the rows from row 1 to the cursor row start with black |
| Skin.RowAfterBlackIsFirst | src/init.c:343-352 | the scan down column 0 stops at the first row that is not black |
| Skin.ScanSwatch | src/init.c:283-338 | one do-while swatch loop fails exactly when the scan finds no change, and otherwise stops at the change and reads its colour |
| Skin.ParseSkinHeader | src/init.c:282-352 | reads the five swatches, the neutral colour and the first non-black row of column 0 exactly as the header scan defines them, failing when it fails |
| Skin.ParseFont | src/init.c:698-746 | refuses a width that is not a multiple of 8, a main font under 256 characters and any pixel other than 0 or 1, and otherwise returns 64 bytes per character with pixel (x, y) of character c from image pixel ((c % per_line) * 8 + x, (c / per_line) * 8 + y) |
| Skin.ReadGlyph | src/init.c:728-743 | reads the 64 pixels of character c, succeeding exactly when they are all 0 or 1 and storing them in its 64 bytes, and writes nothing outside them |
| Skin.NextGlyphBinary | src/init.c:726-745 | the first c + 1 characters are all 0/1 exactly when the first c are and character c is |
| Skin.GlyphNotBinary | src/init.c:734-739 | a character with a pixel above 1 makes the whole font fail |
| Skin.NextGlyphStored | src/init.c:726-745 | storing character c after the first c stores the first c + 1 |
| Skin.GlyphReadsInside | src/init.c:714-736 | when both sides are multiples of 8, every pixel read lies inside the image |
| Skin.GlyphReadsBelowPartialLine | src/init.c:714-736 | with a height that is not a multiple of 8 the character count covers a partial last line, read below the image (a 16 x 12 image has 3 characters, the third read from rows 8 to 15) |
| Skin.Block | src/init.c:170-197 | a block holds height rows of width values |
| Skin.BlockPixel | src/init.c:174-196 | value i * width + j of a block is the stored value of pixel (start_x + j, start_y + i) |
| Skin.NextChange | src/init.c:283-338 | a swatch scan stops at a column after the start and below the limit whose colour differs |
| Skin.RowAfterBlack | src/init.c:343-352 | the row found starts with a colour other than Color[0] |
| Skin.ScanHeader | src/init.c:282-352 | a header read from a skin has Color[0] from pixel (0, 0), a neutral colour other than the transparent one, and a cursor row at or below row 1 not starting with Color[0] |
| Skin.SkinHeaderAsWritten | src/init.c:282-352 | the header Parse_skin reads is the one a third scan limited at the width would read |
| Skin.FontAccepted | src/init.c:698-746 | an accepted font is a multiple of 8 wide, has at least 256 characters when it is the main font, and every character is made of 0 and 1 |
| CfgFormat.WordLE | src/init.c:2550-2551 | a word is written as two bytes |
| CfgFormat.ReadWordLE | src/init.c:2183-2191 | reading back a written word gives the word and the bytes after it |
| CfgFormat.WordLERead | src/init.c:2183-2191 | writing a word read from two bytes gives those two bytes back |
| CfgFormat.ReadWords | src/init.c:2281-2285 | reading n words succeeds exactly when 2 n bytes remain, and then gives n words and the bytes after them |
| CfgFormat.ReadWordsLE | src/init.c:2621-2627 | reading back n written words gives the words and the bytes after them |
| CfgFormat.Skip | src/init.c:2236-2240 | skipping a chunk never leaves more to read than before; a skip past the end of the file leaves nothing |
| CfgFormat.UpToNul | src/init.c:2477-2481 | a script read into a zeroed buffer is seen as a C string no longer than the bytes read |
| CfgFormat.UpToNulOfCString | src/init.c:2477-2481 | a C string is seen whole |
| CfgSpec.FindShortcut | src/init.c:2210-2212 | finds the first slot from a position on with the given shortcut number, and none exactly when no slot has it |
| CfgSpec.LoadKeys | src/init.c:2189-2232 | reading shortcut records keeps one key pair per slot and never reads past the input |
| CfgSpec.FindMode | src/init.c:2253-2268 | finds the first mode from a position on with the given resolution, and none exactly when no mode has it |
| CfgSpec.SetModeState | src/init.c:2253-2268 | one video-mode record changes at most the first mode from index 1 with its resolution, and changes it exactly when that mode's state lacks bit 128, to the record's state modulo 4 with everything else kept; mode 0 and modes with bit 128 never change |
| CfgSpec.LoadModes | src/init.c:2243-2269 | n video-mode records read exactly when 5n bytes are there and leave the bytes after them; no resolution changes, mode 0 and modes with bit 128 keep everything, and any other mode keeps its state or takes one below 4 |
| CfgSpec.ReadShade | src/init.c:2280-2289 | a shade list read has 512 entries |
| CfgSpec.ReadShades | src/init.c:2278-2289 | n shade lists read have 512 entries each |
| CfgSpec.ReadBrush | src/init.c:2416-2444 | a paintbrush read has width x height pixels |
| CfgSpec.ReadBrushes | src/init.c:2411-2445 | n paintbrushes read each have width x height pixels |
| CfgSpec.ReadScript | src/init.c:2468-2482 | one script reads exactly when a length byte is there and no more bytes are announced than remain; the script is none exactly for a zero length and is a C string otherwise, and reading resumes after the announced bytes |
| CfgSpec.LoadScripts | src/init.c:2460-2491 | the scripts loop keeps ten slots and never reads past the input |
| CfgSpec.StoreCString | src/init.c:2470-2482 | storing a C string or no script in a slot keeps every slot a C string |
| CfgSpec.ScriptsLoopStep | src/init.c:2460-2491 | one turn of the scripts loop fails when the script cannot be read, and otherwise stores it in its slot and goes on after it unless that was the tenth slot |
| CfgSpec.LoadScriptsCStrings | src/init.c:2460-2491 | every script the loop stores is a C string |
| CfgSpec.ReadBytes | src/init.c:2302 | Read_bytes succeeds exactly when n bytes remain and gives those bytes and the rest |
| CfgSpec.KeysChunkLoad | src/init.c:2187-2235 | the keys chunk keeps the settings well formed |
| CfgSpec.ModesChunkLoad | src/init.c:2242-2270 | the video-mode chunk keeps the settings well formed |
| CfgSpec.ShadeChunkLoad | src/init.c:2271-2293 | the shade chunk keeps the settings well formed |
| CfgSpec.GridChunkLoad | src/init.c:2388-2399 | the grid chunk keeps the settings well formed |
| CfgSpec.BrushChunkLoad | src/init.c:2407-2446 | the paintbrush chunk keeps the settings well formed |
| CfgSpec.ScriptsChunkLoad | src/init.c:2455-2492 | the scripts chunk keeps the settings well formed |
| CfgSpec.ReloadChunk | src/init.c:2185-2494 | every chunk read with reload_all keeps the settings well formed and never reads past the input |
| CfgSpec.ApplyChunk | src/init.c:2185-2497 | a chunk keeps the settings well formed and never reads past the input, and an unknown tag fails |
| CfgSpec.LoadChunks | src/init.c:2182-2499 | the chunk loop, until no tag byte can be read, ends with well-formed settings when it does not fail |
| CfgSpec.HeaderChecks | src/init.c:2144-2179 | a missing file gives ERROR_CFG_MISSING; a file under 7 bytes or without "CFG" gives ERROR_CFG_CORRUPTED; any version but the program's own, 2.0.96 and 2.0.97 gives ERROR_CFG_OLD |
| CfgSpec.OldVersionConversions | src/init.c:2159-2208 | under the conversion a file's version calls for, 2.0.96 translates the main key through the scancode table and keeps the second; 2.0.97 reads a key as 0 exactly when it is 0 or 0x00FF and keeps every other key; the program's own version keeps both keys |
| CfgSpec.UnknownTagCorrupted | src/init.c:2496-2497 | a tag past the last known one fails the load whatever follows |
| CfgSpec.KeysPayload | src/init.c:2547-2575 | the keys chunk has 6 bytes per shortcut |
| CfgSpec.SavedAmong | src/init.c:2584-2586 | the modes saved are among the table's modes and all have state 0, 2 or 3 |
| CfgSpec.ModesPayload | src/init.c:2589-2611 | a video-mode record has 5 bytes |
| CfgSpec.ScriptsSize | src/init.c:2788-2795 | the declared scripts size counts at least one byte per slot |
| CfgSpec.VersionConversion | src/init.c:2158-2179 | a file is too old exactly when its version is neither 2.0.96, 2.0.97 nor the program's own; it needs no conversion exactly when it is the program's own |
| CfgSpec.Convert | src/init.c:2198-2208 | the own version keeps a key pair; 2.0.96 replaces the main key by its scancode translation and keeps the second; 2.0.97 turns each 0x00FF into 0 and keeps every other key |
| CfgSpec.ChunkSize | src/init.c:2182-2184 | with two bytes left the size is their little-endian word and reading goes on after them; otherwise the size of the previous chunk stays and the file is used up |
| CfgSpec.ReloadAllIgnoresSkip | src/init.c:2188-2494 | with `reload_all` set, the chunk loop gives the same outcome whether or not an unread scripts chunk would be skipped |
| CfgSpec.FullLoadIgnoresSkip | src/init.c:2128-2511 | with `reload_all` set, the whole load gives the same outcome whether or not an unread scripts chunk would be skipped |
| CfgSpec.LoadCfgWith | src/init.c:2128-2511 | the file is missing exactly when there is none; it is too old exactly when its signature holds and its version is unknown; a loaded file gives well-formed settings, and a partial load changes nothing but the video-mode states |
| CfgSpec.LoadCfgSpec | src/init.c:2128-2511 | Load_CFG as written; with `reload_all` set it gives the same outcome as the load that skips the payload of a scripts chunk it does not read |
| CfgSpec.Chunk | src/init.c:2547-2552 | a chunk is its tag, the little-endian word of its size, then its payload, and the size reader gives back that size and payload |
| CfgSpec.SavedChunks | src/init.c:2546-2815 | the saved chunks have the length of their eleven headers and payloads, and start with the keys chunk |
| CfgSpec.SaveCfgSpec | src/init.c:2533-2815 | a saved file starts with the signature "CFG", a version the loader accepts, then the keys chunk |
| CfgLoad.PrependNothing | src/init.c:2278-2289 | nothing read in front of an outcome leaves it as it is |
| CfgLoad.FindShortcutSlot | src/init.c:2210-2212 | the search loop stops at the first slot with the shortcut number, or at the end when no slot has it, and agrees with the slot search of the chunk decoder |
| CfgLoad.ReadKeyRecords | src/init.c:2189-2232 | the keys loop succeeds exactly when the key records decode (enough bytes, every number known), and then leaves the decoded key table and the input after the records |
| CfgLoad.FindModeIndex | src/init.c:2253-2268 | the search loop from index 1 stops at the first mode with the saved resolution, or past the last mode when none has it, and agrees with the mode search of the chunk decoder |
| CfgLoad.ReadModeRecords | src/init.c:2243-2269 | the video-mode loop succeeds exactly when the records decode, and then leaves the decoded mode table (low two bits of the state into the first matching mode without bit 128) and the input after the records |
| CfgLoad.ReadWordsValue | src/init.c:2281-2285 | reading n words that are there gives the words at even offsets and what follows them |
| CfgLoad.ReadShadeList | src/init.c:2280-2289 | one shade list reads exactly when its 512 words, step and mode are there, and gives them and the bytes after them |
| CfgLoad.ReadShadeChunk | src/init.c:2274-2289 | the shade chunk reads exactly when the current shade and the eight lists are there, and gives them and the bytes after them |
| CfgLoad.ReadShadesStep | src/init.c:2278-2289 | one turn of the shade loop fails with its list, or moves the list read to the lists done |
| CfgLoad.ReadBrushRecord | src/init.c:2416-2444 | one paintbrush reads exactly when its header and packed pixels are there, and gives it and the bytes after it |
| CfgLoad.ReadBrushRecords | src/init.c:2411-2445 | the paintbrush loop reads exactly when every brush decodes, and gives the brushes and the bytes after them |
| CfgLoad.ReadBrushesStep | src/init.c:2411-2445 | one turn of the paintbrush loop fails with its brush, or moves the brush read to the brushes done |
| CfgLoad.ReadScriptStrings | src/init.c:2457-2491 | the scripts loop succeeds exactly when the scripts chunk decodes, and then leaves the decoded scripts and the input after them |
| CfgLoad.ScriptTurn | src/init.c:2462-2489 | one turn of the scripts loop either fails as the chunk does, leaving everything, or ends at the tenth slot with the chunk's outcome, or leaves a state whose remaining turns give that outcome |
| CfgLoad.ReadOneScript | src/init.c:2467-2482 | a length byte and that many bytes read exactly when they are there, as the script decoder reads them |
| CfgSave.WriteKeys | src/init.c:2553-2575 | the keys loop writes number, key and key2 of every slot |
| CfgSave.CountSavedModes | src/init.c:2578-2586 | the counting loop counts exactly the modes from index 1 whose state is 0, 2 or 3 |
| CfgSave.WriteModes | src/init.c:2595-2611 | the video-mode loop writes state, width and height of exactly those modes, in order |
| CfgSave.SavedModesStep | src/init.c:2600-2611 | the records from mode index on are that mode's record when its state is saved, then the later ones |
| CfgSave.WriteWords | src/init.c:2623-2627 | a shade list's words are written two bytes each, low byte first |
| CfgSave.WriteShades | src/init.c:2621-2631 | the shade loop writes each list's words, then its step and its mode |
| CfgSave.ComputeBrushesSize | src/init.c:2724-2727 | the size loop adds 9 plus the packed size of every brush |
| CfgSave.WriteBrushes | src/init.c:2740-2780 | the paintbrush loop writes shape, size and hot spot, then the packed pixels, of every brush |
| CfgSave.BrushesPayloadStep | src/init.c:2740-2780 | the records from brush index on are that brush's record, then the later ones |
| CfgSave.ComputeScriptsSize | src/init.c:2788-2795 | the size loop counts each script's full length plus one, and one for no script |
| CfgSave.WriteScripts | src/init.c:2802-2814 | the scripts loop writes each script's length truncated to a byte, then that many bytes |
| CfgRoundTrip.ChunkStep | src/init.c:2182-2184 | a chunk that decodes up to its end lets the loop go on with what follows, remembering its size |
| CfgRoundTrip.SkippedChunk | src/init.c:2236-2240 | without reload_all a saved chunk other than the video modes and the scripts is skipped by its declared size |
| CfgRoundTrip.KeysDispatch | src/init.c:2187-2188 | with reload_all the keys tag selects the keys decoder |
| CfgRoundTrip.ShadeDispatch | src/init.c:2271-2272 | with reload_all the shade tag selects the shade decoder |
| CfgRoundTrip.GridDispatch | src/init.c:2388-2389 | with reload_all the grid tag selects the grid decoder |
| CfgRoundTrip.BrushDispatch | src/init.c:2407-2408 | with reload_all the paintbrush tag selects the paintbrush decoder |
| CfgRoundTrip.ScriptsDispatch | src/init.c:2455-2456 | with reload_all the scripts tag selects the scripts decoder |
| CfgRoundTrip.ModesDispatch | src/init.c:2242-2243 | the video-mode chunk is decoded with or without reload_all |
| CfgRoundTrip.ByteChunks | src/init.c:2299-2387 | with reload_all the mask, stencil, smooth, excluded-colours and quick-shade chunks read back exactly the bytes written |
| CfgRoundTrip.GridChunk | src/init.c:2388-2399 | with reload_all the grid chunk reads back the four words written |
| CfgRoundTrip.LoadKeysOfSaved | src/init.c:2189-2232 | with distinct shortcut numbers the saved key records restore every slot |
| CfgRoundTrip.KeysChunk | src/init.c:2547-2575 | the keys chunk Save_CFG writes restores every shortcut |
| CfgRoundTrip.KeysLoadOfSaved | src/init.c:2187-2235 | the keys decoder on the saved records gives the saved key table |
| CfgRoundTrip.ApplySavedModes | src/init.c:2243-2269 | applying saved video-mode records keeps the number of modes |
| CfgRoundTrip.LoadModesOfSaved | src/init.c:2243-2269 | the saved video-mode records decode to the saved modes applied in order |
| CfgRoundTrip.ModesChunk | src/init.c:2589-2611 | the video-mode chunk applies the saved modes to the table, with or without reload_all |
| CfgRoundTrip.SetOwnModeState | src/init.c:2258-2266 | applying the record of one of the table's own saved modes changes nothing |
| CfgRoundTrip.ApplyOwnModes | src/init.c:2243-2269 | applying records of the table's own saved modes leaves the table as it was |
| CfgRoundTrip.ReloadSavedModes | src/init.c:2584-2611 | saving then reloading the video modes of a table whose resolutions are distinct gives the table back |
| CfgRoundTrip.ReadShadesOfSaved | src/init.c:2278-2289 | the shade lists written read back as they were |
| CfgRoundTrip.ShadesPayloadLength | src/init.c:2613-2631 | each shade list takes 1026 bytes, so the declared size 8209 is the shade chunk's length |
| CfgRoundTrip.ShadeChunk | src/init.c:2613-2631 | the shade chunk restores the current shade and the eight lists |
| CfgRoundTrip.ReloadedBrush | src/init.c:2434-2444 | a brush comes back with its shape, size and hot spot, and each pixel 1 exactly when it was non-zero |
| CfgRoundTrip.ReloadedBrushes | src/init.c:2411-2445 | every brush comes back as its reloaded form |
| CfgRoundTrip.UnpackPrefix | src/init.c:2434-2444 | decoding looks only at the bytes the pixels occupy |
| CfgRoundTrip.BrushHeader | src/init.c:2750-2759 | a brush record starts with 9 bytes |
| CfgRoundTrip.ReadBrushOfSaved | src/init.c:2416-2444 | one saved brush reads back with its pixels normalised, followed by what was after it |
| CfgRoundTrip.ReadBrushesOfSaved | src/init.c:2411-2445 | the saved brushes read back with their pixels normalised |
| CfgRoundTrip.BrushChunk | src/init.c:2735-2780 | with reload_all the paintbrush chunk restores every brush, its pixels normalised |
| CfgRoundTrip.BrushesPayloadLength | src/init.c:2724-2736 | the size declared for the paintbrush chunk is the number of bytes written for it |
| CfgRoundTrip.ReloadedScript | src/init.c:2470-2482 | a script comes back as it was unless it was empty, which comes back as none |
| CfgRoundTrip.ReloadedScripts | src/init.c:2460-2491 | every script comes back as its reloaded form |
| CfgRoundTrip.ReadScriptOfSaved | src/init.c:2804-2813 | a script under 256 bytes written with its length byte reads back whole, as a C string, and none for a zero length |
| CfgRoundTrip.ScriptsHead | src/init.c:2802-2814 | the first saved script is written as its length byte and its bytes, counts its length plus one in the declared size, and reads back as its reloaded form |
| CfgRoundTrip.LoadScriptsOfSaved | src/init.c:2460-2491 | the saved scripts read back into their slots while the declared size accounts for them |
| CfgRoundTrip.LoadScriptStep | src/init.c:2462-2489 | a saved script other than the tenth is read into its slot and the loop goes on with the next one |
| CfgRoundTrip.LoadLastScript | src/init.c:2486-2488 | the tenth saved script ends the loop |
| CfgRoundTrip.FillScriptsIsReloaded | src/init.c:2460-2491 | storing the reloaded scripts one slot after the other from slot k gives the slots before k followed by the reloaded scripts |
| CfgRoundTrip.ScriptsPayloadLength | src/init.c:2788-2814 | the declared scripts size is the number of bytes written, when every script is under 256 bytes |
| CfgRoundTrip.ScriptsSizeBound | src/init.c:2788-2795 | storable scripts fit a 16-bit chunk size |
| CfgRoundTrip.ScriptsChunk | src/init.c:2783-2815 | with reload_all the scripts chunk restores every script but the empty ones |
| CfgRoundTrip.Reloaded | src/init.c:2182-2499 | a full reload restores the keys, shades, mask, stencil, smooth matrix, excluded colours, quick-shade and grid exactly |
| CfgRoundTrip.SavedChunksSplit | src/init.c:2546-2575 | the saved file starts with the keys chunk |
| CfgRoundTrip.LastChunk | src/init.c:2182 | a last chunk that decodes to its end ends the loop with its settings |
| CfgRoundTrip.ReloadFromScripts | src/init.c:2455-2494 | with reload_all the saved scripts chunk restores the scripts |
| CfgRoundTrip.ReloadFromBrush | src/init.c:2407-2494 | with reload_all the saved chunks from the paintbrushes on restore the brushes and the scripts |
| CfgRoundTrip.ReloadFromGrid | src/init.c:2388-2494 | with reload_all the saved chunks from the grid on restore the grid, the brushes and the scripts |
| CfgRoundTrip.ReloadFromQuickShade | src/init.c:2374-2494 | with reload_all the saved chunks from the quick-shade on restore everything they hold |
| CfgRoundTrip.ReloadFromExclude | src/init.c:2362-2494 | with reload_all the saved chunks from the excluded colours on restore everything they hold |
| CfgRoundTrip.ReloadFromSmooth | src/init.c:2348-2494 | with reload_all the saved chunks from the smooth matrix on restore everything they hold |
| CfgRoundTrip.ReloadFromStencil | src/init.c:2311-2494 | with reload_all the saved chunks from the stencil on restore everything they hold |
| CfgRoundTrip.ReloadFromMask | src/init.c:2299-2494 | with reload_all the saved chunks from the mask on restore everything they hold |
| CfgRoundTrip.ReloadFromShade | src/init.c:2271-2494 | with reload_all the saved chunks from the shades on restore everything they hold |
| CfgRoundTrip.ReloadSavedChunks | src/init.c:2182-2499 | with reload_all the chunk loop over a whole saved file gives the reloaded settings |
| CfgRoundTrip.SaveThenLoad | src/init.c:2128-2825 | Load_CFG with reload_all on the file Save_CFG wrote succeeds with every setting saved, the mode states applied to the table, brush pixels normalised and empty scripts dropped |
| CfgRoundTrip.SaveThenLoadSameTable | src/init.c:2128-2825 | saving and reloading into the same video-mode table whose resolutions are distinct restores the settings whole, up to brush pixels and empty scripts |
| CfgRoundTrip.SkipFromBrush | src/init.c:2446-2450 | without reload_all the saved paintbrush chunk is skipped |
| CfgRoundTrip.SkipFromGrid | src/init.c:2400-2404 | without reload_all the saved chunks from the grid to the scripts are skipped |
| CfgRoundTrip.SkipFromQuickShade | src/init.c:2382-2386 | without reload_all the saved chunks from the quick-shade to the scripts are skipped |
| CfgRoundTrip.SkipFromExclude | src/init.c:2368-2372 | without reload_all the saved chunks from the excluded colours to the scripts are skipped |
| CfgRoundTrip.SkipFromSmooth | src/init.c:2356-2360 | without reload_all the saved chunks from the smooth matrix to the scripts are skipped |
| CfgRoundTrip.SkipFromStencil | src/init.c:2317-2321 | without reload_all the saved chunks from the stencil to the scripts are skipped |
| CfgRoundTrip.SkipFromMask | src/init.c:2305-2309 | without reload_all the saved chunks from the mask to the scripts are skipped |
| CfgRoundTrip.SkipFromShade | src/init.c:2294-2298 | without reload_all the saved chunks from the shades to the scripts are skipped |
| CfgRoundTrip.PartialSavedChunks | src/init.c:2182-2452 | without reload_all the chunk loop skips every saved chunk up to the scripts but applies the video modes |
| CfgRoundTrip.ScriptsReadAsChunks | src/init.c:2455-2494 | without reload_all the scripts chunk is left in place, so a first script longer than 11 bytes has its length read as an unknown tag and fails the load |
| CfgRoundTrip.ScriptsSkipped | src/init.c:2455-2494 | skipped by its size, the scripts chunk ends the load and changes nothing |
| CfgRoundTrip.OwnHeaderLoad | src/init.c:2147-2182 | a file with the signature and the program's own version runs the chunk loop over what follows the header |
| CfgRoundTrip.PartialLoadRejectsSavedScripts | src/init.c:2455-2494 | Load_CFG without reload_all reports ERROR_CFG_CORRUPTED for a file Save_CFG wrote whose first script is longer than 11 bytes |
| CfgRoundTrip.PartialLoadOfSaved | src/init.c:2128-2511 | with the scripts chunk skipped like the other chunks, Load_CFG without reload_all on a saved file succeeds and changes only the video-mode states |
| CfgDefaults.PaletteShadeList | src/init.c:2857-2863 | the first default shade list has 512 entries |
| CfgDefaults.DefaultShades | src/init.c:2852-2863 | there are eight default shade lists |
| CfgDefaults.DefaultsWellFormed | src/init.c:2828-2901 | the defaults have the shapes of the globals they fill |
| CfgDefaults.PaletteShadeRuns | src/init.c:2861-2863 | place j of run i of the first list holds colour 16 i + j + 16 |
| CfgDefaults.PaletteShadeGaps | src/init.c:2857-2863 | between the runs and after the seventh, the first list holds no colour (256) |
| CfgDefaults.PaletteShadeColours | src/init.c:2861-2863 | every colour from 16 to 127 appears in the first list, at its place in its run |
| CfgDefaults.FillBytes | src/init.c:2871-2891 | a table loop sets every entry to the value |
| CfgDefaults.CopyKeys | src/init.c:2833-2850 | the shortcut loop gives every slot the keys of the ConfigKey table |
| CfgDefaults.ClearShades | src/init.c:2853-2859 | the first shade loop gives every list step 1, mode 0 and no colour in its 512 entries |
| CfgDefaults.PaintPaletteShade | src/init.c:2861-2863 | the second shade loop, on a list with no colour, gives the first default list |
| CfgDefaults.EntryOfRun | src/init.c:2861-2863 | place j of run i holds the run's colour below 16 and no colour at 16 |
| CfgDefaults.DefaultShadeLists | src/init.c:2852-2863 | the two shade loops give the default shade lists |
| CfgDefaults.DefaultSettings | src/init.c:2828-2901 | the loops of Set_config_defaults give the default settings, and leave the video modes, paintbrushes and scripts as they were |
| CfgDefaults.Defaults | src/init.c:2828-2901 | the defaults take the default keys, keep the video modes, brushes and scripts, and set the mask and exclusion tables to 0 and the stencil table to 1 |
| CfgGlobals.Globals.constructor | src/init.c:2128-2511 | the globals start from the given settings |
| CfgGlobals.Globals.LoadCfg | src/init.c:2128-2511 | Load_CFG's result is the load of the file from the old globals, and after a successful load the globals are the loaded settings |
| CfgGlobals.Globals.LoadChunk | src/init.c:2185-2497 | one chunk succeeds exactly when the chunk decoder does, and then leaves its settings in the globals and its rest as the input |
| CfgGlobals.Globals.ReloadChunkInto | src/init.c:2187-2494 | a chunk read with reload_all succeeds exactly when its decoder does, leaving the decoded settings |
| CfgGlobals.Globals.ReloadKeys | src/init.c:2187-2235 | the keys chunk into the globals, as its decoder says |
| CfgGlobals.Globals.ReloadShades | src/init.c:2271-2293 | the shade chunk into the globals, as its decoder says |
| CfgGlobals.Globals.ReloadBrushes | src/init.c:2407-2446 | the paintbrush chunk into the globals, as its decoder says |
| CfgGlobals.Globals.ReloadScripts | src/init.c:2455-2492 | the scripts chunk into the globals, as its decoder says |
| CfgGlobals.Globals.ReloadTables | src/init.c:2299-2405 | the mask, stencil, smooth, excluded-colours, quick-shade and grid chunks into the globals, as their decoders say |
| CfgGlobals.Globals.SaveCfg | src/init.c:2515-2825 | Save_CFG writes the signature, the program's version and the chunks of the globals |
| CfgGlobals.Globals.SetConfigDefaults | src/init.c:2828-2901 | the globals become the defaults |
| CfgGlobals.ReadSmoothMatrix | src/init.c:2351-2354 | the smoothing matrix reads exactly when 9 bytes remain, and is those bytes |

## Left out

- SDL, window and renderer calls (`SDL_UpdateRect`, `SDL_RenderPresent`, texture updates, window resizing) are not modelled. The model returns the rectangle that would be sent to SDL instead.
- File I/O is reduced to byte sequences. The model does not cover `fopen` or `fclose` failures, write errors during `Save_CFG`, or the `ERROR_MEMORY` path of a failed `malloc`.
- When `Load_CFG` fails partway through, the globals it has already overwritten are not modelled. The model reports only the error.
- `Shade_list_to_lookup_tables` is not part of this model. Neither is the `Ordering` table that maps a shortcut slot to its global. Shortcuts are addressed by slot index.
- The chunk reader's behaviour on a truncated size word is modelled as keeping the previous chunk size. Before the first chunk that size is indeterminate in C (`Chunk` is an uninitialised local at src/init.c:2135); the model chooses 0. `fseek` past the end of the file is allowed, as the C library allows it.
- The GP2X, Wiz and Caanoo builds start the video-mode scan at index 0 in `Load_CFG` (src/init.c:2250-2254) and `Save_CFG` (src/init.c:2579-2583, 2595-2599). The model follows the other builds, which start at index 1.
- `NB_PAINTBRUSH_SPRITES`, `NB_SHORTCUTS`, `MAX_VIDEO_MODES` and the cursor sprite sizes are taken as the lengths of the tables passed in.
- The contents of the gradients chunk are not modelled. `Save_CFG` does not write that chunk and `Load_CFG` skips it.
- The `Init_paintbrush` path for a missing bitmap is not modelled.
- `Set_all_video_modes` is not modelled, and neither is the `qsort` call that uses `Compare_video_modes`. Only the comparison is modelled.
- After the header and the swatches, the rest of `Parse_skin` is not modelled: the sequence of blocks and the messages it builds. Its building blocks are modelled.
- `Load_Unicode_font` is not part of this model.
- Signal handlers are not modelled.
- The text of the messages built with `snprintf` and `sprintf`, apart from the hex-dump lines, is not modelled.
- `Get_SDL_pixel_8` and `Set_SDL_pixel_8` are not modelled. They have no bounds check of their own.
- CfgSpec.ReadBrush and Paintbrushes.InitPaintbrush: each brush's `Sprite` is a fixed-size two-dimensional array declared outside this core, written at `Sprite[i/width][i%width]` (src/init.c:2442, 3039; read back at 2763). The model keeps the pixels in one flat sequence of any length and does not model those fixed bounds: it assumes every brush read from a file or built from a bitmap fits the array. A brush wider or taller than the array is not covered.
- Screen.HicolorPixel: for the 2- and 4-byte cases, which read one host-order word, only the range of the value is proved. The 3-byte case has its own lemmas.
- The `Video_mode` table keeps width and height as C `short`s: `VideoModes.VideoModeTable.Valid` requires every listed mode to fit, and `SetVideoMode` takes only shorts. The modes inside `Settings` do not carry that bound.
- Screen.AddRectIsLeastEnclosing: holds only when the far corner of the rectangle fits in a C `short`. Beyond that, `Max_X` and `Max_Y` wrap (`ToShort`), and that wrap-around is what `AddRect` models.
- Screen.AddStatusIsLeastEnclosing: holds only when the span end fits in a C `short`, for the same reason.
- CfgRoundTrip.SaveThenLoad: requires what `Reloadable` states about the program and the settings:
  - distinct shortcut numbers;
  - a keys chunk whose size (6 bytes per shortcut) fits in a word;
  - a video-modes chunk whose size (5 bytes per saved mode) fits in a word;
  - every script shorter than 256 bytes, because `Save_CFG` stores the length in one byte;
  - a program version other than 2.0.96 and 2.0.97, since files of those versions are converted on load.
- CfgRoundTrip.PartialSavedChunks, CfgRoundTrip.PartialLoadOfSaved, CfgRoundTrip.PartialLoadRejectsSavedScripts and the `SkipFrom` lemmas also require a brush chunk whose size fits in a word. Without `reload_all` that chunk is skipped by its declared size, and a truncated size would land inside the brush records.
- Log.LogHexDump: returns every line whole. In `GFX2_LogHexDump` (src/gfx2log.c:86-119) each line is formatted into a 128-byte buffer. A header longer than 53 characters, or an offset of 16^6 or more, makes a line overrun that buffer, which is undefined behaviour in C; `Log.FullLineFitsBuffer` states the bound. The early returns when `snprintf` reports an error are not modelled, and the offset is a natural number rather than a signed `long`.
- CfgSpec.KeysChunkLoad, CfgSpec.ModesChunkLoad, CfgSpec.ShadeChunkLoad and the other chunk functions have contracts that state only that the settings stay well formed. What they load is stated by the round-trip lemmas and by the loop methods proved equal to them.
- Skin.GlyphReadsBelowPartialLine: `Parse_font` reads below the image when its height is not a multiple of 8. What the pixel accessor answers there is outside the model (here it is 0).

## Findings

| source | as written | input that shows it | evidently intended | confidence | as-written member | corrected member |
|---|---|---|---|---|---|---|
| src/sdlscreen.c:410-415 | the 3-byte case tests `#ifdef SDL_LIL_ENDIAN`, a macro `SDL_endian.h` (included at line 28) defines on every host, so the `#else` branch for big-endian hosts is never compiled | the bytes 1, 2, 3 of a 3-byte surface on a big-endian host: the function returns 0x030201 | the test `SDL_BYTEORDER == SDL_LIL_ENDIAN`, so that a big-endian host gets 0x01020300 as the comment at line 414 says | not executed | Screen.ThreeBytePixelBigEndianHost | Screen.HostOrderPixel |
| src/init.c:2455-2494 | when `reload_all` is 0, the `CHUNK_SCRIPTS` case does nothing, so the chunk's payload is read as further chunks | a file written by `Save_CFG` whose first bound script is longer than 11 bytes, loaded with `reload_all` 0: the script's length byte is read as an unknown chunk tag and the load fails with `ERROR_CFG_CORRUPTED` | skip the chunk by its size, as every other chunk is skipped when it is not reloaded | not executed | CfgRoundTrip.PartialLoadRejectsSavedScripts | CfgRoundTrip.PartialLoadOfSaved |

`LoadCfgWith` takes a `skipScripts` flag:
- `LoadCfgSpec` is the code as written (`skipScripts` false).
- `Globals.LoadCfg` takes the flag as an argument, so the corrected behaviour is available to its callers.
