# termpixels, modelled in Dafny

termpixels is a Python library for drawing on a terminal as if it were a grid
of pixels. Each cell ("pixel") holds:

- a character,
- a foreground colour,
- a background colour.

A program draws into a `Buffer` with `put_char`, `print`, `fill`, `clear` and
`blit`. The `drawing` helpers draw lines, boxes, frames and colour maps on
top of those.

A `Screen` keeps a cache of the cells it last rendered. Its `update` sends a
backend only the cells that changed, in row-major order. There are three
backends:

- **Unix**: VT escape codes, with 24-bit SGR colours and CUP cursor moves.
- **Windows console**: `SetConsoleTextAttribute` with a 16-colour attribute
  word.
- **Windows VT**: escape codes collected in a queue and written on `flush`.

Each backend remembers the cursor and the colours, and sends a code only
when one of them changes. The Unix backend also remembers the cursor
visibility. The Windows console backend has no cursor visibility setting.
The Windows VT backend compares the visibility but never stores it, so a
repeated hide is queued again (`Win32Vt.ShowCursorNeverStored`).

The model also covers:

- the colour reductions to 16 and 256 colours;
- terminal character widths and line splitting;
- `SparseBuffer`;
- key and mouse events, and the Unix key and SGR-mouse parsers;
- the `Observable` event emitter;
- the falling-sand example's update and draw steps.

Each Dafny module follows one source file:

| module | file |
|---|---|
| `Colors` | `color.py` |
| `Util` | `util.py` |
| `Pixels` | `pixeldata.py` |
| `Geometry`, `Grids`, `CellGrids` | the value-level logic of `buffer.py` |
| `Buffers` | the `Buffer` class |
| `SparseBuffers` | `sparsebuffer.py` |
| `Unix` | `unix.py` |
| `Screens` | `screen.py` |
| `Win32` | `win32.py` |
| `Win32Vt` | `win32_vt.py` |
| `Drawing` | `drawing.py` |
| `Keys` | `keys.py` |
| `UnixKeys` | `unix_keys.py` |
| `Observables` | `observable.py` |
| `Sand` | `examples/sand.py` |

`Wrappers`, `Strings` and `Decimal` hold the Option/Result types, string
splitting and `str`/`int` of integers.

How the model is put together:

- **Classes.** A class whose methods update fields in place is a Dafny
  `class`. This covers `Buffer`, `PixelData`, `SparseBuffer`, `Screen`,
  every backend, `KeyParser` and `Observable`. Each method is proved
  against a function that states its new state.
- **Functions.** The functions carry the properties: round trips,
  bijections, idempotence, "only dirty cells are rendered", permutation,
  and so on.
- **The sand step.** It works in place on an `array`.
- **Errors.** Python exceptions are results: `Result`/`Outcome` values that
  say where the source raises them.
- **I/O.** Output is a log of the strings written. Windows API calls
  (`windll`) are a log of calls.

Where the tests and the code disagree, the model follows the code:

- `tests/color_test.py:163` and `tests/color_test.py:169` expect different
  256-colour indices than `color.py` computes. `Colors.ColorTo256Examples`
  states what the code gives: black→232 and grey 204→251.
- `tests/util_test.py:33-38` expects a terminal width that `util.py` does
  not compute.

`win32.py` imports `Color` from `termpixels.screen`, whose `Color` class has
no `rgb`. The model starts the Windows backend at full-intensity white on
black, which is evidently what `Color.rgb(1,1,1)` and `Color.rgb(0,0,0)`
mean.

`unix.py:26` reads `"[?25h" if show else "l"`, because the conditional binds
looser than the concatenation. So hiding the cursor sends `ESC l`, not
`ESC [?25l`. The model keeps this as written (`Unix.ShowCursorCode`,
`Unix.HideCursorCode`).

## Model

| member | source | states |
|---|---|---|
| Strings.Split | termpixels/unix_keys.py:57 | `str.split(sep)`: at least one piece, and no piece contains the separator |
| Strings.SplitJoin | termpixels/unix_keys.py:57 | splitting pieces joined by a separator none of them contains gives the pieces back |
| Strings.JoinSplit | termpixels/unix_keys.py:57 | joining the pieces of a split with the separator gives the string back |
| Decimal.IntToString | termpixels/unix.py:16 | `str(n)`: a minus sign exactly for negative n, followed by a non-empty run of decimal digits |
| Decimal.NatToString | termpixels/unix.py:36 | `str(n)` of a natural number: a non-empty run of decimal digits, beginning with `0` only for zero itself |
| Decimal.ParseInt | termpixels/unix_keys.py:58-60 | `int(s)` on an optional sign and ASCII digits: the empty string has no value, a value means every character after the first is a digit, and a negative value needs a leading minus |
| Decimal.NatRoundTrip | termpixels/unix.py:36 | parsing the decimal text of a natural number gives the number back |
| Decimal.IntRoundTrip | termpixels/unix.py:16 | parsing `str(n)` gives n back, for every integer |
| Decimal.IntToStringNoChar | termpixels/unix.py:36 | the text of a number has no `;`, so the fields of an escape code stay separable |
| Colors.ColorTo16 | termpixels/color.py:1-10 | the index is in 0..15, black is 0, bit k is set exactly when component k exceeds 63, and the bright bit exactly when the components sum to at least 381 |
| Colors.Scale6 | termpixels/color.py:27 | `int(c / 256 * 6)` is a cube coordinate in 0..5 |
| Colors.Scale24 | termpixels/color.py:24 | `int(c / 256 * 24)` is a grey level in 0..23 |
| Colors.ColorTo256 | termpixels/color.py:12-32 | white-grey maps to 231; other greys map into the ramp 232..255 at 232 + level; non-greys map into the cube 16..231 with each coordinate the component's 6-level scale |
| Colors.CubeDecodes | termpixels/color.py:28-31 | a cube index decodes back to its three 6-level coordinates |
| Colors.CubeIndexInjective | termpixels/color.py:25-31 | two non-grey colours share a cube index only when all three scaled coordinates agree |
| Colors.GreyRampMonotone | termpixels/color.py:19-24 | a lighter grey never gets a lower index |
| Colors.ColorTo16Examples | tests/color_test.py:151-157 | the 16-colour indices of the test's colours |
| Colors.ColorTo256Examples | tests/color_test.py:163-175 | the 256-colour indices the code computes for the test's colours |
| Util.TerminalCharLen | termpixels/util.py:12-16 | a character is 1 or 2 columns; 2 exactly for wide and fullwidth characters, and for ambiguous ones when they are set to count as wide |
| Util.TerminalLen | termpixels/util.py:18-20 | the width of a string lies between its length and twice its length |
| Util.TerminalLenAppend | termpixels/util.py:18-20 | the width of a concatenation is the sum of the widths |
| Util.TerminalLenNarrow | termpixels/util.py:18-20 | the width equals the length exactly when no character is double width |
| Util.SplitLines | tests/util_test.py:58-67 | `splitlines_print`: at least one line, and no line holds a line break |
| Util.SplitJoin | tests/util_test.py:58-67 | splitting lines without breaks, joined with `\n`, gives the lines back |
| Util.SplitLinesUnixExamples | tests/util_test.py:58-60 | `\n` and a lone `\r` each split a line, as the test expects |
| Util.SplitLinesWindowsExample | tests/util_test.py:62-63 | `\r\n` splits like `\n`, as the test expects |
| Util.SplitLinesEmptyLineExamples | tests/util_test.py:65-67 | empty lines are kept, as the test expects |
| Geometry.Clip | termpixels/buffer.py:58-60 | clipping lands inside the buffer and leaves an in-bounds coordinate alone |
| Geometry.Locate | termpixels/buffer.py:48-65 | without clipping: the position itself when in bounds, otherwise the x error before the y error; with clipping: the clamped position, or the x error for a buffer without columns and the y error for one without rows |
| Pixels.PixelData.Default | termpixels/pixeldata.py:10-16 | a new pixel is a space, white on black, with no hash cached |
| Pixels.PixelData.Make | termpixels/pixeldata.py:10-16 | a pixel with the given character and colours and no hash cached |
| Pixels.PixelData.New | termpixels/pixeldata.py:10-16 | construction fails exactly when the character string is not one character long |
| Pixels.PixelData.Hash | termpixels/pixeldata.py:41-44 | the hash depends only on the cell's value, so equal cells hash equal; it is cached, and a cached hash is kept |
| Pixels.PixelData.Equals | termpixels/pixeldata.py:36-39 | two pixels are equal exactly when character, foreground and background agree |
| Pixels.PixelData.SetChar | termpixels/pixeldata.py:59-65 | fails exactly on a string that is not one character long and then changes nothing; otherwise sets the character and drops the cached hash unless the character is the same |
| Pixels.PixelData.SetFg | termpixels/pixeldata.py:67-71 | sets the foreground alone, dropping the cached hash unless the colour is the same |
| Pixels.PixelData.SetBg | termpixels/pixeldata.py:73-77 | sets the background alone, dropping the cached hash unless the colour is the same |
| Pixels.PixelData.Set | termpixels/pixeldata.py:79-84 | copies the other pixel's three fields, drops the cached hash and returns itself |
| Buffers.Buffer.constructor | termpixels/buffer.py:17-23 | a w by h buffer of fresh default pixels, cursor and print position at the origin |
| Buffers.Buffer.Resize | termpixels/buffer.py:35-40 | cells inside both sizes keep their pixel objects, new cells get fresh default pixels |
| Buffers.Buffer.InBounds | termpixels/buffer.py:42-43 | true exactly for 0 <= x < w and 0 <= y < h |
| Buffers.Buffer.At | termpixels/buffer.py:48-65 | `buffer[x, y]`: the pixel at the (optionally clipped) position, or the out-of-bounds `Exception`, x checked before y |
| Buffers.Buffer.SetItem | termpixels/buffer.py:71-73 | `buffer[x, y] = pixel` copies the pixel's fields into the cell and touches no other cell |
| Buffers.Buffer.PutChar | termpixels/buffer.py:140-176 | returns the character's width; the cells change as `PutCharGrid` says |
| Buffers.Buffer.Print | termpixels/buffer.py:178-218 | the lines of the text go one below the other, the first from (x, y) and the others from the line start; a missing coordinate comes from the last print; returns and stores the end position |
| Buffers.Buffer.PrintLines | termpixels/buffer.py:210-216 | the outer loop computes `PrintRun`: line k from row y0 + k |
| Buffers.Buffer.PrintLineAt | termpixels/buffer.py:213-215 | the inner loop computes `PrintLine`: the cells and the end column of one line |
| Buffers.Buffer.Fill | termpixels/buffer.py:75-94 | fails exactly when the character is bad and the rectangle meets the buffer, having filled the colours of the first cell only; otherwise the rectangle's in-bounds cells take the given parts and the others are kept |
| Buffers.Buffer.Clear | termpixels/buffer.py:96-105 | fails exactly on a character string that is not one long, changing nothing; otherwise every cell becomes the given character and colours |
| Buffers.Buffer.Blit | termpixels/buffer.py:107-138 | the cells become `BlitGrid` of the source's block between the two corners |
| Buffers.GoodChar | termpixels/pixeldata.py:59-65 | a character string is accepted exactly when it is one character long |
| Grids.Coords | termpixels/buffer.py:42-43 | the cells of a w by h grid are exactly the in-bounds positions |
| Grids.PutCharGrid | termpixels/buffer.py:156-176 | `put_char` keeps the buffer's shape; its cells are stated by `PutCharGridCells` |
| Grids.PutCharGridCells | termpixels/buffer.py:156-176 | nothing changes when the character does not fit; otherwise its cell takes it, a wide one blanks the next cell with the same colours, and no other cell changes |
| Grids.PutCharGridFits | termpixels/buffer.py:156-176 | a character that fits writes its cell, then, when wide, the covered cell |
| Grids.PrintLine | termpixels/buffer.py:213-215 | one line of `print` keeps the buffer's shape; its cells are stated by the lemmas below |
| Grids.PrintRun | termpixels/buffer.py:210-216 | the lines of `print` keep the buffer's shape |
| Grids.PrintLineEnd | termpixels/buffer.py:213-215 | a line ends at its start column plus its terminal width |
| Grids.PrintLineOtherRows | termpixels/buffer.py:213-215 | printing a line leaves every other row unchanged |
| Grids.PrintLineNarrow | termpixels/buffer.py:213-215 | with narrow characters, each in-bounds column x + i of the row holds character i and every other cell is kept |
| Grids.PrintFullwidthExample | tests/buffer_test.py:112-119 | a fullwidth character takes two cells, as the test expects |
| Grids.PrintRunEnd | termpixels/buffer.py:210-217 | `print` ends on the row of its last line, that line's width past where it started |
| Grids.FillCell | termpixels/buffer.py:84-94 | each part given replaces the cell's, each missing part is kept |
| Grids.FillGrid | termpixels/buffer.py:84-94 | cells inside the rectangle are filled, every other cell is kept |
| Grids.FillGridEmpty | termpixels/buffer.py:84-94 | an empty rectangle fills nothing |
| Grids.ClearGrid | termpixels/buffer.py:102-105 | every cell of the w by h grid is the fill pixel |
| Grids.FillGridClears | termpixels/buffer.py:102-105 | filling the whole grid with all three parts is clearing it |
| Grids.BlockSource | termpixels/buffer.py:122-138 | a destination cell has a source exactly when it is in bounds, in the block and its offset cell exists in the source |
| Grids.BlitBlock | termpixels/buffer.py:122-138 | each destination cell with a source takes the source cell, the others are kept |
| Grids.BlitGrid | termpixels/buffer.py:122-138 | `blit` keeps the destination's shape; its cells are stated by `BlitGridCells` |
| Grids.BlitGridCells | termpixels/buffer.py:122-138 | a cell of the clipped block takes the source cell at the same offset from the nearer corner; every other cell is kept |
| Grids.BlitWhole | termpixels/buffer.py:122-138 | blitting a whole same-sized buffer at the origin copies it |
| Grids.BlitGridByColumns | termpixels/buffer.py:122-138 | the column-by-column copy of the loop equals the block copy |
| Grids.ResizeGrid | termpixels/buffer.py:35-40 | cells inside both sizes are kept, new ones are default |
| Grids.ResizeSame | termpixels/buffer.py:35-40 | resizing to the same size changes nothing |
| Grids.ResizeShrinkGrow | termpixels/buffer.py:35-40 | shrinking and growing back keeps the cells inside the smaller size and resets the others to default |
| SparseBuffers.SparseBuffer.constructor | termpixels/sparsebuffer.py:20-24 | a bounded buffer of the given size, nothing stored, clear pixel a white-on-black space |
| SparseBuffers.SparseBuffer.Resize | termpixels/sparsebuffer.py:26-28 | only the size changes; stored cells stay, even outside it |
| SparseBuffers.SparseBuffer.ExtendTo | termpixels/sparsebuffer.py:30-37 | each bound becomes the larger of old and requested, so it never shrinks |
| SparseBuffers.SparseBuffer.InBounds | termpixels/sparsebuffer.py:39-42 | bounded: inside the size; unbounded: both coordinates non-negative |
| SparseBuffers.SparseBuffer.AtUnsafe | termpixels/sparsebuffer.py:44-54 | the stored cell, or a new one showing the clear pixel, stored at that position; other stored cells are untouched |
| SparseBuffers.SparseBuffer.At | termpixels/sparsebuffer.py:56-68 | the error of `Buffer.at`'s bounds check, nothing stored; otherwise the stored cell at the (clipped, when bounded) position |
| SparseBuffers.SparseBuffer.Clear | termpixels/sparsebuffer.py:70-78 | fails exactly on a character string that is not one long; otherwise nothing stays stored and every position shows the new clear pixel |
| Unix.ShowCursorCode | termpixels/unix.py:23-27 | the code as written: `[?25h` to show and the bare `l` to hide |
| Unix.SendEscape | termpixels/unix.py:53-54 | appends ESC and the code to the output; nothing else changes |
| Unix.WriteText | termpixels/unix.py:56-58 | appends the text and moves the cursor right by its length |
| Unix.MoveCursor | termpixels/unix.py:13-17 | the cursor ends at p; a CUP is sent exactly when p differs from the remembered position |
| Unix.SetFg | termpixels/unix.py:33-37 | the foreground becomes c; an SGR 38 is sent exactly when it differs |
| Unix.SetBg | termpixels/unix.py:43-47 | the background becomes c; an SGR 48 is sent exactly when it differs |
| Unix.SetShowCursor | termpixels/unix.py:23-27 | the setting becomes `show`; a code is sent exactly when it changes |
| Unix.ClearScreen | termpixels/unix.py:49-51 | moves to the origin and writes ED; because ED goes through `write`, the remembered cursor ends at (4, 0) |
| Unix.CupRoundTrip | termpixels/unix.py:16 | a CUP code reads back as the position it moves to |
| Unix.SgrRoundTrip | termpixels/unix.py:36 | an SGR colour code reads back as its layer and colour |
| Unix.CupCode | termpixels/unix.py:16 | the CUP code is framed by `[` and `H`; `CupRoundTrip` shows that it carries the 1-based row, then the column |
| Unix.SgrColorCode | termpixels/unix.py:33-47 | the SGR colour code is framed by `[` and `m`; `SgrRoundTrip` shows that it carries its layer and the colour |
| Unix.CupExamples | termpixels/unix.py:16 | the 1-based row;column text of CUP codes |
| Unix.SgrExample | termpixels/unix.py:46 | the text of a background SGR code |
| Unix.SettersIdempotent | termpixels/unix.py:13-47 | setting the same value twice is setting it once |
| Unix.AdjacentNeedsNoMove | termpixels/unix.py:15 | writing a character leaves the cursor where the next cell needs it, so no CUP follows |
| Unix.HideCursorCode | termpixels/unix.py:26 | hiding the cursor sends ESC `l` |
| Unix.UnixBackend.constructor | termpixels/unix.py:2-7 | nothing is remembered, then the screen is cleared |
| Unix.UnixBackend.SetCursorPos | termpixels/unix.py:13-17 | the backend's new state is `MoveCursor` of the old one |
| Unix.UnixBackend.SetShowCursorTo | termpixels/unix.py:23-27 | the new state is `SetShowCursor` of the old one |
| Unix.UnixBackend.SetFgTo | termpixels/unix.py:33-37 | the new state is `SetFg` of the old one |
| Unix.UnixBackend.SetBgTo | termpixels/unix.py:43-47 | the new state is `SetBg` of the old one |
| Unix.UnixBackend.ClearScreenNow | termpixels/unix.py:49-51 | the new state is `ClearScreen` of the old one |
| Unix.UnixBackend.WriteEscape | termpixels/unix.py:53-54 | the new state is `SendEscape` of the old one |
| Unix.UnixBackend.Write | termpixels/unix.py:56-58 | the new state is `WriteText` of the old one |
| Unix.UnixBackend.Flush | termpixels/unix.py:60-61 | the state is unchanged |
| Screens.CacheOf | termpixels/screen.py:63 | the cache after an update mirrors the shape of the cells |
| Screens.EmptyCache | termpixels/screen.py:27 | a fresh cache has the screen's shape and holds no copies |
| Screens.RenderAllAppend | termpixels/screen.py:57-65 | rendering two lists of calls is rendering one after the other |
| Screens.RenderRowCalls | termpixels/screen.py:57-65 | one row of `update` renders that row's dirty cells, left to right |
| Screens.RenderRowsCalls | termpixels/screen.py:57-65 | `update` renders the dirty cells, row by row |
| Screens.UpdateRendersDirtyCells | termpixels/screen.py:57-65 | the backend after `update` has rendered the dirty cells in order, then moved to the screen's cursor |
| Screens.DirtyRowFacts | termpixels/screen.py:58-62 | a row's calls are its differing cells, each with its current cell, left to right |
| Screens.DirtyRow | termpixels/screen.py:59-63 | the scan of one row renders at most one call per cell |
| Screens.DirtyRows | termpixels/screen.py:57-63 | `update` renders at most one call per cell of the screen; which cells is stated by `DirtyRowsSound` and `DirtyRowsComplete` |
| Screens.RenderCell | termpixels/screen.py:67-71 | after `render` the backend's cursor is just right of the cell, its colours are the cell's, and the cursor visibility is unchanged |
| Screens.RenderRow | termpixels/screen.py:59-63 | rendering one row leaves the cursor visibility unchanged |
| Screens.RenderRows | termpixels/screen.py:57-63 | rendering the rows leaves the cursor visibility unchanged |
| Screens.UpdateState | termpixels/screen.py:57-64 | after `update` the backend's cursor is the screen's `cursor_pos`, and its cursor visibility is unchanged |
| Screens.DirtyRowsSound | termpixels/screen.py:58-62 | only in-range cells that differ from their copy are rendered, each with its current cell |
| Screens.DirtyRowsOrdered | termpixels/screen.py:58-62 | the calls are in strict row-major order, so no cell is rendered twice |
| Screens.DirtyRowsHas | termpixels/screen.py:58-62 | one given dirty cell is among the calls |
| Screens.DirtyRowsComplete | termpixels/screen.py:58-62 | every dirty cell is among the calls |
| Screens.CleanRendersNothing | termpixels/screen.py:63 | with the cache a copy of the cells, nothing is rendered |
| Screens.UpdateIdempotent | termpixels/screen.py:63 | a second update with no change in between sends nothing more |
| Screens.OnlyDirtyRows | termpixels/screen.py:58-63 | with one differing cell, exactly that cell is rendered |
| Screens.OneChangeOneRender | termpixels/screen.py:58-63 | changing one cell after an update makes the next update render just that cell |
| Screens.EmptyCacheRendersAll | termpixels/screen.py:27-30 | after a resize every cell is rendered |
| Screens.AdjacentRenders | termpixels/screen.py:67-71 | rendering the next cell of a row sends no cursor move |
| Screens.UpdateCursor | termpixels/screen.py:64 | after `update` the backend's cursor is the screen's |
| Screens.ResizeCells | termpixels/screen.py:25-26 | cells inside both sizes are kept, the others are default |
| Screens.Screen.constructor | termpixels/screen.py:5-13 | a resized screen of the given size: cleared, fully rendered, then the cursor hidden |
| Screens.Screen.Resize | termpixels/screen.py:23-30 | clears the terminal, keeps overlapping cells, and renders every cell from an empty cache |
| Screens.Screen.SetShowCursorTo | termpixels/screen.py:36-38 | the setting is passed on to the backend |
| Screens.Screen.At | termpixels/screen.py:40-45 | the cell, or the out-of-bounds `Exception`, x checked before y |
| Screens.Screen.Fill | termpixels/screen.py:47-52 | the in-bounds cells of the rectangle become the pixel, the rest are kept |
| Screens.Screen.ClearTo | termpixels/screen.py:54-55 | every cell becomes the pixel |
| Screens.Screen.Update | termpixels/screen.py:57-65 | the backend renders exactly the dirty cells in row-major order; the cache becomes a copy of the cells |
| Screens.Screen.Render | termpixels/screen.py:67-71 | moves to the cell, sets its colours, writes its character |
| Screens.Screen.Print | termpixels/screen.py:73-78 | the characters go to successive cells of the row up to the edge; a bad start raises and changes nothing |
| Win32.ColorWin32 | termpixels/win32.py:44-57 | a foreground value lies in the low nibble, a background value in the high nibble |
| Win32.CharAttrs | termpixels/win32.py:108-111 | the attribute word holds the foreground part in its low nibble and the background part in its high nibble |
| Win32.BackgroundIsShifted | termpixels/win32.py:55-57 | the background attribute is the foreground one shifted four bits |
| Win32.ColorWin32Bits | termpixels/win32.py:47-54 | red, green, blue and intensity of the 16-colour index set the console's red, green, blue and intensity bits |
| Win32.BackgroundBits | termpixels/win32.py:39-42 | the background attribute's bits are the BACKGROUND_* constants |
| Win32.CharAttrsDecode | termpixels/win32.py:108-111 | each `FOREGROUND_` red, green and blue bit of the attribute word is set exactly when that component of the foreground exceeds 63, and each `BACKGROUND_` bit likewise by the background |
| Win32.UpdateCharAttrs | termpixels/win32.py:108-115 | one `SetConsoleTextAttribute` call with the combined word |
| Win32.SetFg | termpixels/win32.py:79-84 | the foreground becomes c; attributes are sent only when it changes in 16-colour mode |
| Win32.SetBg | termpixels/win32.py:90-95 | the background becomes c; attributes are sent only when it changes in 16-colour mode |
| Win32.MoveCursor | termpixels/win32.py:101-106 | the cursor becomes p; `SetConsoleCursorPosition` is called only when it differs |
| Win32.WriteText | termpixels/win32.py:117-126 | the text always goes to the console; then it fails exactly when no cursor position is known, else moves right by its length |
| Win32.SettersIdempotent | termpixels/win32.py:79-106 | setting the same value twice is setting it once |
| Win32.AdjacentNeedsNoMove | termpixels/win32.py:101-126 | after a character the next cell needs no cursor call |
| Win32.Win32Backend.constructor | termpixels/win32.py:60-69 | white on black, no cursor position known, 16-colour mode, no calls; the name says whether it is a Windows 10 console |
| Win32.Win32Backend.SetFgTo | termpixels/win32.py:79-84 | the new state is `SetFg` of the old one |
| Win32.Win32Backend.SetBgTo | termpixels/win32.py:90-95 | the new state is `SetBg` of the old one |
| Win32.Win32Backend.SetCursorPos | termpixels/win32.py:101-106 | the new state is `MoveCursor` of the old one |
| Win32.Win32Backend.UpdateCharAttrsNow | termpixels/win32.py:108-115 | the new state is `UpdateCharAttrs` of the old one |
| Win32.Win32Backend.Write | termpixels/win32.py:117-126 | the `WriteText` outcome and state |
| Win32.Win32Backend.Flush | termpixels/win32.py:128-130 | nothing changes |
| Win32Vt.ShowCursorCode | termpixels/win32_vt.py:65 | DECTCEM: `[?25h` to show, `[?25l` to hide |
| Win32Vt.WriteEscape | termpixels/win32_vt.py:78-79 | the text joins the queue and nothing else changes |
| Win32Vt.SetFg | termpixels/win32_vt.py:31-35 | the foreground becomes c; an SGR 38 is queued only when it differs |
| Win32Vt.SetBg | termpixels/win32_vt.py:41-45 | the background becomes c; an SGR 48 is queued only when it differs |
| Win32Vt.MoveCursor | termpixels/win32_vt.py:51-56 | the cursor becomes p; a CUP is queued only when it differs |
| Win32Vt.SetShowCursor | termpixels/win32_vt.py:62-65 | an unset visibility raises AttributeError; otherwise a code is queued when it changes, and the new value is never stored |
| Win32Vt.WriteText | termpixels/win32_vt.py:73-76 | the text joins the queue; a known cursor moves right by its terminal width |
| Win32Vt.FlushAsWritten | termpixels/win32_vt.py:82-83 | as written, flush raises NameError and changes nothing |
| Win32Vt.Flush | termpixels/win32_vt.py:81-92 | as intended, flush empties the queue and sends its strings joined |
| Win32Vt.Concat | termpixels/win32_vt.py:82 | `"".join`: no pieces give the empty text, and the joined text begins with the first piece; `ConcatLength` and `ConcatAppend` give its length and its split over two runs |
| Win32Vt.FlushAsWrittenKeepsQueue | termpixels/win32_vt.py:82-83 | as written, text is still queued after a flush, unlike the intended flush |
| Win32Vt.FlushSendsInOrder | termpixels/win32_vt.py:81-92 | as intended, a flush after queuing s sends the earlier queue, then s; a second flush sends nothing |
| Win32Vt.ShowCursorNeverStored | termpixels/win32_vt.py:62-65 | hiding a visible cursor twice queues the code twice, because the new value is never stored |
| Win32Vt.SettersIdempotent | termpixels/win32_vt.py:31-56 | setting the same value twice is setting it once |
| Win32Vt.AdjacentNeedsNoMove | termpixels/win32_vt.py:51-76 | after a character the next cell needs no CUP |
| Win32Vt.Win32VtBackend.SetFgTo | termpixels/win32_vt.py:31-35 | the new state is `SetFg` of the old one |
| Win32Vt.Win32VtBackend.SetBgTo | termpixels/win32_vt.py:41-45 | the new state is `SetBg` of the old one |
| Win32Vt.Win32VtBackend.SetCursorPos | termpixels/win32_vt.py:51-56 | the new state is `MoveCursor` of the old one |
| Win32Vt.Win32VtBackend.SetShowCursorTo | termpixels/win32_vt.py:62-65 | the `SetShowCursor` outcome and state |
| Win32Vt.Win32VtBackend.EnterAltBuffer | termpixels/win32_vt.py:67-68 | queues the code that enters the alternate buffer |
| Win32Vt.Win32VtBackend.ExitAltBuffer | termpixels/win32_vt.py:70-71 | queues the code that leaves the alternate buffer |
| Win32Vt.Win32VtBackend.Write | termpixels/win32_vt.py:73-76 | the new state is `WriteText` of the old one |
| Win32Vt.Win32VtBackend.WriteEscapeNow | termpixels/win32_vt.py:78-79 | the new state is `WriteEscape` of the old one |
| Win32Vt.Win32VtBackend.FlushNowAsWritten | termpixels/win32_vt.py:82-83 | the NameError outcome, with the state unchanged |
| Win32Vt.Win32VtBackend.FlushNow | termpixels/win32_vt.py:81-92 | the corrected flush's state |
| Drawing.GeometryTablesInverse | termpixels/drawing.py:43-62 | the character table and the connection table are inverse maps between the 15 frame characters and their four-bit connection codes |
| Drawing.FrameGeometry | termpixels/drawing.py:43-60 | a frame character points at least one way and a non-frame index nowhere; `─` and `│` join opposite sides, and each of the four stubs points one way |
| Drawing.GeometryFrame | termpixels/drawing.py:61-62 | every four-bit geometry has an entry, and only the empty one is no frame character |
| Drawing.Invert | termpixels/drawing.py:140-142 | after turning, a direction is set exactly when the opposite one was set before |
| Drawing.InvertSwaps | termpixels/drawing.py:140-142 | turning twice gives the geometry back |
| Drawing.IndexOf | termpixels/drawing.py:157-160 | the index of a character in a string is a position holding it, the first one |
| Drawing.BufferChar | termpixels/drawing.py:153-160 | `buffer_char`: an index into the frame characters, or -1 |
| Drawing.JoinIndex | termpixels/drawing.py:162-169 | the lookup always succeeds: the result is a frame character whose geometry is the character's own directions joined with those of the neighbours that point back at it |
| Drawing.ConnectingIndex | termpixels/drawing.py:144-169 | `_frame_connecting_char` yields one of the 15 frame characters |
| Drawing.ConnectingBits | termpixels/drawing.py:144-169 | the joined character keeps its own directions, and gains one exactly when the neighbour that way points back |
| Drawing.JoinExample | termpixels/drawing.py:144-169 | a vertical piece right of a horizontal line joins to `┤` |
| Drawing.JoinedPixel | termpixels/drawing.py:175-177 | `pixel(char_idx, x, y)` is placed at (x, y) |
| Drawing.FramePixels | termpixels/drawing.py:174-199 | nothing for a frame without width or height; otherwise every pixel lies on the frame's rows or columns, and their count is fixed by the frame's size |
| Drawing.PutAll | termpixels/drawing.py:201-202 | writing the pixels keeps the buffer's shape |
| Drawing.PutAllOthers | termpixels/drawing.py:201-202 | a cell that no pixel lands on, and that is not just right of one, is unchanged |
| Drawing.FrameUntouched | termpixels/drawing.py:171-202 | `draw_frame` leaves every cell off the frame's rows and columns unchanged, except one just right of them |
| Drawing.FramePixelsOf | termpixels/drawing.py:174-199 | the loop that collects the frame's pixels computes `FramePixels` |
| Drawing.PutPixels | termpixels/drawing.py:201-202 | the loop that writes the pixels computes `PutAll` |
| Drawing.DrawFrame | termpixels/drawing.py:171-202 | all joined characters are computed from the buffer before the call, then written in order |
| Drawing.PrintAll | termpixels/drawing.py:104-138 | a list of `print` calls keeps the buffer's shape |
| Drawing.PrintAllCell | termpixels/drawing.py:104-138 | after prints of single narrow characters, a cell shows the last one printed on it, or its old content |
| Drawing.BoxNothing | termpixels/drawing.py:119-125 | a box without width or height, or one cell in size, prints nothing |
| Drawing.HLineCells | termpixels/drawing.py:104-108 | for one narrow character: row y takes the character, every other cell is unchanged |
| Drawing.VLineCells | termpixels/drawing.py:110-114 | for one narrow character: column x takes the character, every other cell is unchanged |
| Drawing.BoxLastAt | termpixels/drawing.py:126-138 | the last character a box prints on each cell is the box's character there |
| Drawing.BoxCells | termpixels/drawing.py:116-138 | for eight narrow box characters: each box cell takes the box character there, every other cell is unchanged |
| Drawing.BoxExample | tests/drawing_test.py:32-64 | the 3 by 3 box of the test |
| Drawing.DrawHLine | termpixels/drawing.py:104-108 | the loop makes the prints of the line, as `HLineCells` describes them |
| Drawing.DrawVLine | termpixels/drawing.py:110-114 | the loop makes the prints of the line, as `VLineCells` describes them |
| Drawing.DrawBox | termpixels/drawing.py:116-138 | the loops make the prints of the box, as `BoxCells` describes them |
| Drawing.MapIndexInRange | termpixels/drawing.py:271 | `dy * w + dx` lies in the colormap |
| Drawing.ColormapCells | termpixels/drawing.py:256-280 | each target cell takes the character and its colour as foreground, its background kept; other cells are unchanged |
| Drawing.DrawColormap | termpixels/drawing.py:256-280 | fails exactly when the character is not one long and some cell is a target, changing nothing; otherwise the cells are as `ColormapCells` says |
| Keys.Str | termpixels/keys.py:6-9 | the character when there is a non-empty one, otherwise empty |
| Keys.Equals | termpixels/keys.py:16-22 | a string matches the name or the character; a key-like object matches both fields; anything else never matches |
| Keys.KeyEqualityIsValueEquality | termpixels/keys.py:19-22 | between keys, `==` is equality of (char, name): reflexive, symmetric, transitive |
| Keys.EqualsOwnText | termpixels/keys.py:6-9 | a key equals its own non-empty text |
| Keys.TextEqualityNotTransitive | termpixels/keys.py:17-18 | a key equals two strings that differ from each other |
| Keys.NamedKeyExample | termpixels/keys.py:6-22 | a named key without a character prints as empty and equals its name but no other name |
| Keys.NewMouse | termpixels/keys.py:25-37 | each flag holds exactly when its argument is that name |
| Keys.OneActionFlag | termpixels/keys.py:30-32 | at most one action flag is set, one exactly when the action is a known name |
| Keys.OneButtonFlag | termpixels/keys.py:33-37 | at most one button flag is set, one exactly when the button is a known name |
| UnixKeys.Equals | termpixels/unix_keys.py:19-25 | a string is compared with the character alone, never the name; other operands as in `keys.py` |
| UnixKeys.NameNotCompared | termpixels/unix_keys.py:20-21 | a key without a character equals no string; otherwise string equality here implies it in `keys.py` |
| UnixKeys.NamedKeyExample | termpixels/unix_keys.py:20-21 | a named key equals its name under `keys.py` but not here |
| UnixKeys.Register | termpixels/unix_keys.py:41-42 | a new pattern goes at the end of the order and a known one keeps its place; the key is replaced either way |
| UnixKeys.FirstMatch | termpixels/unix_keys.py:45-46 | the first position, in registration order, whose pattern is a prefix of the input, or -1 when none is |
| UnixKeys.Lookup | termpixels/unix_keys.py:44-48 | None exactly when no registered pattern is a prefix of the input; otherwise the key of a prefix pattern registered before every other prefix pattern |
| UnixKeys.FirstNotLongest | termpixels/unix_keys.py:44-48 | a shorter pattern registered first wins over a longer one |
| UnixKeys.ReregisterKeepsPlace | termpixels/unix_keys.py:41-42 | re-registering the one matching pattern changes the answer to the new key |
| UnixKeys.LookupNone | termpixels/unix_keys.py:44-48 | the answer is None exactly when no registered pattern is a prefix |
| UnixKeys.KeyParser.constructor | termpixels/unix_keys.py:38-39 | no codes registered |
| UnixKeys.KeyParser.RegisterKey | termpixels/unix_keys.py:41-42 | the table becomes `Register` of the old one |
| UnixKeys.KeyParser.Parse | termpixels/unix_keys.py:44-48 | returns the key of the first matching pattern, and a key exactly when some pattern is a prefix |
| UnixKeys.Fields | termpixels/unix_keys.py:57 | the `;`-separated fields of the report body, at least one |
| UnixKeys.ParseMouse | termpixels/unix_keys.py:54-61 | None without the prefix; with it, either an event whose fields read back as button, x + 1 and y + 1, pressed exactly for a final `M`, or IndexError exactly when a field is missing, else ValueError |
| UnixKeys.SgrReport | termpixels/unix_keys.py:54-61 | the report a terminal sends for an event starts with the prefix and goes beyond it |
| UnixKeys.ReportFields | termpixels/unix_keys.py:54-61 | a report's fields are the decimal texts of the button and the 1-based coordinates, and it ends in `M` exactly for a press |
| UnixKeys.MouseRoundTrip | termpixels/unix_keys.py:54-61 | parsing the report of an event gives the event back |
| UnixKeys.MouseExample | termpixels/unix_keys.py:54-61 | a concrete report and the event it decodes to |
| UnixKeys.MalformedExamples | termpixels/unix_keys.py:54-61 | a report with two fields raises IndexError; the prefix alone raises ValueError |
| Observables.FirstIndex | termpixels/observable.py:19 | the first position holding the listener |
| Observables.RemoveFirst | termpixels/observable.py:19 | `list.remove`: one fewer element, the first occurrence gone, the rest in order |
| Observables.ListenTo | termpixels/observable.py:13-15 | the listener is appended to that event's list; other events keep theirs |
| Observables.UnlistenFrom | termpixels/observable.py:17-19 | removes the first occurrence; raises ValueError exactly when the listener is absent; other events keep theirs |
| Observables.Emitted | termpixels/observable.py:21-24 | one call per listener of the event, in order, each with the data |
| Observables.EmitWithoutListeners | termpixels/observable.py:23 | an event without listeners calls nothing |
| Observables.EmitCallsListeners | termpixels/observable.py:21-24 | an emit calls exactly the event's listeners in the order they were added |
| Observables.UnlistenUndoesListen | termpixels/observable.py:13-19 | unlisten right after listen of a listener not yet there succeeds and restores every event's list |
| Observables.UnlistenExamples | tests/observable_test.py:27-37 | after listen and unlisten nothing is called; unlisten of an absent listener raises |
| Observables.UnlistenFirstExample | termpixels/observable.py:19 | a listener added twice loses its first registration only |
| Observables.SeparateEvents | tests/observable_test.py:13-25 | each event calls only its own listeners |
| Observables.Observable.constructor | termpixels/observable.py:10-11 | no listeners |
| Observables.Observable.Listen | termpixels/observable.py:13-15 | the registry becomes `ListenTo` of the old one |
| Observables.Observable.Unlisten | termpixels/observable.py:17-19 | the registry and outcome of `UnlistenFrom` |
| Observables.Observable.Emit | termpixels/observable.py:21-24 | the loop makes the calls `Emitted` lists |
| Sand.Swap | termpixels/examples/sand.py:47 | an exchange of two entries keeps the length |
| Sand.SwapExchanges | termpixels/examples/sand.py:47 | the two entries trade places and every other entry stays |
| Sand.SwapPermutes | termpixels/examples/sand.py:62-68 | a swap keeps the particles |
| Sand.Fall | termpixels/examples/sand.py:43-47 | the fall keeps the length; `FallMoves` states when it swaps |
| Sand.FallMoves | termpixels/examples/sand.py:43-47 | it swaps with the cell below exactly when the particle falls, is above the bottom row and is denser |
| Sand.Slide | termpixels/examples/sand.py:48-68 | the slide keeps the length; `SlideChoice` and `SlideMoves` state what it does |
| Sand.SlideChoice | termpixels/examples/sand.py:60-68 | with both diagonals open the coin decides, with one open that one is taken, with none nothing moves |
| Sand.SlideMoves | termpixels/examples/sand.py:48-68 | only a sliding particle above the bottom row moves, and only into a less dense diagonal neighbour |
| Sand.SlidePermutes | termpixels/examples/sand.py:48-68 | a slide is a permutation |
| Sand.Visit | termpixels/examples/sand.py:42-68 | the visit of a cell keeps the length |
| Sand.VisitIsLocal | termpixels/examples/sand.py:42-68 | nothing moves in the bottom row or for a non-falling particle; otherwise only the cell and the cells below it change |
| Sand.VisitPermutes | termpixels/examples/sand.py:42-68 | a visit is a permutation |
| Sand.FallIsLocal | termpixels/examples/sand.py:43-47 | a fall changes only the cell and the one below |
| Sand.SlideIsLocal | termpixels/examples/sand.py:48-68 | a slide changes only the cell and a lower neighbour |
| Sand.RowOrder | termpixels/examples/sand.py:39-41 | even rows are visited left to right, odd rows right to left |
| Sand.RowPass | termpixels/examples/sand.py:40-68 | the visits of one row keep the length |
| Sand.Rows | termpixels/examples/sand.py:39-68 | the rows from the bottom up keep the length |
| Sand.Update | termpixels/examples/sand.py:39-68 | one step keeps the length; `UpdatePermutes` states that it keeps the particles |
| Sand.UpdatePermutes | termpixels/examples/sand.py:39-68 | a step only rearranges the particles: no particle is created or lost |
| Sand.FallExample | termpixels/examples/sand.py:43-47 | a grain above air falls |
| Sand.SlideExample | termpixels/examples/sand.py:48-68 | a grain on a grain slides into open air |
| Sand.SlideExampleBottom | termpixels/examples/sand.py:44-49 | a grain on the bottom row stays |
| Sand.SlideExampleTop | termpixels/examples/sand.py:48-68 | a top-row grain slides the way the coin says |
| Sand.VisitCell | termpixels/examples/sand.py:42-68 | visiting a cell in place computes `Visit` |
| Sand.PassRow | termpixels/examples/sand.py:40-68 | the row loop in place computes `RowPass` |
| Sand.UpdateInPlace | termpixels/examples/sand.py:30-68 | `P.update` in place computes `Update` and permutes the array |
| Sand.DrawHalf | termpixels/examples/sand.py:75-79 | one particle's half of a cell keeps the screen's shape |
| Sand.DrawCells | termpixels/examples/sand.py:72-79 | a cell of the drawn columns shows its two particle rows; every other cell is kept |
| Sand.DrawExample | termpixels/examples/sand.py:72-79 | a sand grain over air, drawn into one cell |
| Sand.Draw | termpixels/examples/sand.py:72-79 | the loops compute `DrawColumns`, changing only the cells' contents |

## Left out

- `Key.__repr__` and `Mouse.__repr__` are not modelled: display strings only.
- `make_key_parser` and `make_mouse_parser` are not modelled. They fill the tables from terminfo, which belongs to the terminal database. `KeyParser` is modelled with any registered table.
- Listener bodies are not run. A listener is modelled by its identity, and an emit by the list of calls it makes.
- `Decimal.ParseInt`: models `int()` on an optional `+` or `-` followed by ASCII digits. Python also accepts surrounding whitespace, underscores between digits and non-ASCII digits; no SGR mouse report contains them.
- `Sand.Update`: `random()` is a coin given per position, as a parameter. The app loop, `main` and input handling are not modelled.
- `Sand.UpdateInPlace` and `Sand.Update`: require a list with a particle per cell. A shorter list makes Python raise IndexError, which is not modelled.
- `Sand.Draw`: requires the particle grid to fit the screen, `w <= screen.w` and `h <= 2 * screen.h`. Otherwise `screen[x, y // 2]` raises the out-of-bounds `Exception` of `Buffer.at` (`buffer.py:61-64`), x checked before y.
- `Drawing.DrawBox`: requires at least eight box characters; Python raises IndexError on a shorter string.
- `Drawing.DrawFrame`: requires exactly 15 frame characters. A shorter string makes Python raise IndexError. A longer one is accepted by `draw_frame` and fails only when a neighbouring cell's character is first found at index 15 or beyond, where `_FRAME_GEOMETRY[buffer_char(...)]` raises KeyError (`drawing.py:157-167`); the model does not cover longer strings.
- `Drawing.DrawColormap`: requires the colormap to hold `w * h` entries, where Python raises IndexError.
- `Drawing.BoxCells` and `Drawing.BoxLastAt`: stated for boxes at non-negative positions. A negative position makes the last printed character depend on clipping order.
- `Drawing.HLineCells`, `Drawing.VLineCells` and `Drawing.BoxCells`: stated only for narrow characters that are not line breaks. A wide character (width class F or W, or A when ambiguous characters count as wide, which covers the default box-drawing characters) makes each `print` also blank the cell to its right, and one that does not fit at the right edge is not printed at all; so `draw_hline` of `"Ａ"` on a 3-wide buffer leaves the last cell of the row a space, and `draw_vline` blanks column x+1. These lemmas do not describe that case; `Drawing.DrawHLine`, `Drawing.DrawVLine` and `Drawing.DrawBox` still tie the loops to `PrintAll` for any character, and `Grids.PutCharGridCells` states the wide-character shadow.
- `draw_spinner`, `draw_progress` and `draw_colormap_2x` are not modelled: they compute with floating point.
- The constructor of the Windows VT backend is not modelled. It calls names that `win32_vt.py:19-20` does not define. The class's methods are modelled from any starting state.
- Windows console calls are a log of calls with their arguments. The truncation of `COORD` fields to 16 bits is not modelled.
- The Unix backend's `print` and `flush` are an output log: nothing reaches a terminal.
- `Util.SplitLines`: `splitlines_print` is imported by `buffer.py:2` but `util.py` does not define it. It is modelled from its use at `buffer.py:210` and its tests at `tests/util_test.py:58-67`: `\n`, `\r` and `\r\n` each end a line, and empty lines are kept.
- `set_ambiguous_is_wide` is a parameter of the width functions. As written, `set_ambiguous_is_wide` can never change the setting: it assigns `_ambiguous_is_wide` without a `global` declaration, so the name is local and the comparison at `util.py:8` raises UnboundLocalError before the assignment at `util.py:9`; the flag stays False, and a model run with `ambiguousIsWide = true` describes the evidently intended setter. The `lru_cache` on `terminal_char_len` changes nothing visible and is left out.
- Colours are opaque triples of components in 0..255. The float constructor `Color.rgb` is not modelled.
- `Buffers.Buffer.Blit`: requires the source and destination buffers to be different objects. Blitting a buffer onto itself aliases cells and is not modelled.
- `if fg:` and `if bg:` truthiness tests are modelled as tests against `None`: every colour object is truthy.
- `Screens.Screen.constructor`: takes the screen size as parameters. `screen.py:11` reads `backend.size` and `screen.py:12` calls `backend.listen`, and the Unix backend of `unix.py:1-61` defines neither, so as written `Screen(UnixBackend())` raises AttributeError at `screen.py:11`. The model describes a backend that reports the given size.
- The `resize` listener a `Screen` registers on its backend is not modelled. The model calls `Resize` directly.
- `Sand.Draw` draws into a `Buffer`. `screen.py`'s `Screen` defines no `__getitem__`, and `app.py` builds a screen with a different constructor, so the draw target is modelled as a `Buffer`, whose `[x, y]` is `at`.
- The screen's cache is a grid of cell values. `update` stores `copy(pixel)` in it (`screen.py:63`), and `fill` stores such copies in the cells (`screen.py:52`). A shallow copy shares its `Color` objects with the cell it was taken from, so in the source a colour mutated in place is invisible to `update`. The model does not capture this aliasing.
- `app.py`, `detector.py` and `terminfo.py` are not part of this model: they hold the event loop, platform detection and the terminal database lookup.

## Findings

| source | as written | input that shows it | evidently intended | confidence | as-written member | corrected member |
|---|---|---|---|---|---|---|
| termpixels/win32_vt.py:83 | `flush` calls `WORD()`, a name the module never defines, so it raises NameError before anything is written | any call of `flush`, with any queue | write the joined queue to the console in one call and empty the queue | not executed | Win32Vt.FlushAsWritten, Win32Vt.FlushAsWrittenKeepsQueue | Win32Vt.Flush, Win32Vt.FlushSendsInOrder, Win32Vt.Win32VtBackend.FlushNow |
