# The engine of YTerm, verified

YTerm never repaints its window. A program's output is decoded from UTF-8, run through
an escape-sequence machine, and ends up as cells in a *cell buffer* that keeps a dirty bit
per cell and a running count of them. Scrolls are not drawn at once: they are accumulated,
and a frame replays them as one copy of the window's own pixels before it draws the dirty
cells. Around that engine stand the scrollback file, the relayout of wrapped lines on a
resize, the selection view over history and screen, the output queue to the child process,
the chunked clipboard transfer, and the hot swap that carries all tabs over to a new
program. This project models those parts and proves what they are for.

The sources update their state in place, and so do the classes here: `CellBuffer`,
`EscParser`, `Terminal`, `Window`, `HistoryFile`, `OutBuffer`, `IncrTrack`, `Receiver`,
`Selection`, `HotTab`. Each method is tied to a function on plain values (`Abs() ==
F(old(Abs()))`), and the results about whole runs are theorems about those functions.

| file | what it is about |
|---|---|
| `Cells.dfy`, `CellBuffer.dfy`, `LineSplice.dfy` | cells, row-major grids, dirty counts; the cell buffer in place; inserting and deleting characters |
| `GridFacts.dfy` | what each grid operation leaves dirty, and scrolls as index moves |
| `TermModel.dfy`, `CsiModel.dfy` | the terminal's state and every step of it, as functions; what every reachable state satisfies |
| `EscParser.dfy`, `Terminal.dfy` | the same steps in place |
| `Fidelity.dfy`, `FidelitySteps.dfy`, `FidelityRuns.dfy` | the window as a cache of the screen: invariant, its preservation, exactness after each frame |
| `Render.dfy`, `Painting.dfy`, `Frames.dfy` | batched drawing, the dirty scan, the window copy; what a painted cell looks like; one frame down to glyphs |
| `Commands.dfy` | from the bytes of a control sequence to the command it carries out |
| `CursorMoves.dfy`, `Controls.dfy` | where cursor commands, control characters and short escape sequences take the cursor |
| `Erasing.dfy`, `Edits.dfy`, `Attributes.dfy`, `Settings.dfy` | what erasing, line and character commands, attribute lists, modes, character sets and saved cursors do, from their bytes |
| `Scrollback.dfy`, `ScrollbackRuns.dfy` | what scrolling does to the lines of screen and history |
| `AltScreen.dfy`, `Screens.dfy` | the main screen while a full-screen program runs on the other one; what switching keeps and clears |
| `Typing.dfy`, `Overtyping.dfy` | from the bytes of a text to consecutive cells, with wrapping on and off, and through a resize |
| `Strings.dfy` | titles, device control strings and privacy messages, from their bytes |
| `Relayout.dfy` | the rewrapper and what it refines |
| `HistoryFile.dfy` | the buffered scrollback file as a list of lines |
| `Selection.dfy` | the scrolled view, its cursor and its block |
| `Utf8.dfy`, `CsiText.dfy` | the UTF-8 automaton; printing and parsing CSI parameters |
| `OutBuffer.dfy`, `Incr.dfy`, `Hotswap.dfy` | the output queue, the incremental transfer, the hot swap |

How things are modelled:

- A cell's 16-bit flag word is a record of its bits; *looks alike* means equal character,
  style and colours, everything but the dirty and the wrap bit.
- The window of the fidelity theorem is a sequence of inks: what was asked to be drawn in
  each cell, with cursor shape, reverse video and colour mode. `Render` and `Frames` take
  the same frame down to glyphs with decoded 24-bit colours.
- Conditions the source reads from its surroundings (is the window visible, is a menu open,
  which process group owns the terminal) come with each event as free booleans.
- C `int` values that can wrap or saturate are written out: the sixteen arguments below
  65536, relative moves of at most 32767, the lock value 0x7fffffff of the pending scroll.
- Reading, writing and resizing files do not fail; partial transfers to the child and the
  end of the other side are modelled.

Where the code is not what one would expect, the model follows the code:

- ESC c resets the terminal without marking anything dirty, so the next frame can leave
  the window wrong; `FidelityRuns.ResetBreaks` gives such a screen. When the frame is right
  nevertheless is an exact condition: `FidelityRuns.ResetExactOnMain` and
  `FidelityRuns.ResetCoveredOnMain` for resets on the main screen,
  `FidelityRuns.ResetExactFromAlt` for resets on the alternate one with no scroll pending,
  `FidelityRuns.ResetExactIff` for any state.
- The rewrapper never marks the first new row as wrapped, so a second relayout splits a
  line that begins there; `Relayout.Lay` states contents and marks as they come out.
- Moving to a column (CSI G) goes through the absolute move with the present row, so in origin
  mode it also moves the cursor down by the region's top.
- Clearing a region without an attribute cell fills it with character 2, not with blanks.
- The private request `666;69;669;69 l` closes the history file but leaves the history
  enabled, so the next scrolled-off line starts a new one.
- In an ignored string the control characters are handled before the state's own handling
  is reached.
- Wiping an overlong history frees the write buffer without clearing its pointer and sets
  its size to 0. From then on every line is written straight to the file, and closing the
  history frees the pointer again; the model has the direct writes and no memory management.
- A selection that is started keeps the old second row on record; dropping it then does
  nothing if that row lies above the first.

## Model

| member | source | states |
|---|---|---|
| `FidelityRuns.WindowExactAfterFrames` | src/yterm_main.c:1451-1504 | display fidelity: over every run of input bytes (any bytes, any acceleration conditions), frames, focus changes, cursor blinks, forced redraws and group checks from a fresh terminal, right after each frame every window cell is what the active screen, cursor and drawing modes ask for, provided no full reset came since the start or since a redraw was last asked for |
| `FidelityRuns.RunFaithful` | src/yterm_main.c:1406-1511 | the inductive invariant over the same runs, as long as no full reset comes: every clean cell is shown by the window where the pending scroll will take it from, and every row that scroll leaves stale is dirty |
| `FidelityRuns.NextKeeps` | src/yterm_main.c:1451-1504 | each single event other than the full reset keeps that invariant, and a frame makes the window exact |
| `FidelityRuns.FrameExact` | src/yterm_main.c:1451-1504 | one frame: pending scroll replayed as one window copy or its rows marked dirty, dirty cells drawn; afterwards nothing is dirty or pending and the window is exact |
| `FidelityRuns.CopiedShows` | src/yterm_main.c:1453-1498 | what is clean when drawing starts is already right in the copied window |
| `FidelityRuns.ResetExactOnMain` | src/term_lib.inc.c:96-132 | the full reset (ESC c) marks nothing dirty: on the main screen, for every faithful window, whatever is dirty and whatever scroll is pending, the following frames are exact if and only if every cell they do not draw looks the same before and after the reset |
| `FidelityRuns.ResetCoveredOnMain` | src/term_lib.inc.c:96-132 | that condition spelled out: in reverse video every cell is due; a visible cursor away from the origin stands on a cell that is due; the origin is due or held the visible cursor |
| `FidelityRuns.ResetExactFromAlt` | src/term_lib.inc.c:96-132 | from the alternate screen with no scroll pending: the following frames are exact for every faithful window if and only if each clean cell of the main screen was clean on the alternate one too and looks the same after the reset |
| `FidelityRuns.ResetExactIff` | src/term_lib.inc.c:96-132 | from either screen, with anything dirty and any scroll pending: the following frames are exact for every faithful window if and only if each cell they do not draw takes over what a clean cell of the screen before was sure to show there |
| `FidelityRuns.FramesExactIff` | src/yterm_main.c:1451-1504 | for any state and window: every frame is exact if and only if the cells it does not draw are right after the window copy |
| `FidelityRuns.ResetJustDrawn` | src/term_lib.inc.c:96-132 | right after a frame the condition is simple: no reverse video, the cursor visible at the origin, and both screens alike |
| `FidelityRuns.ResetBreaks` | src/term_lib.inc.c:96-132 | a concrete state (one cell, reverse video) after whose full reset the next frame leaves the window wrong |
| `FidelitySteps.ReadByteKeeps` | src/yterm_main.c:1149-1189 | one byte from the child keeps the window invariant unless it completes ESC c |
| `FidelitySteps.ProcessCharKeeps` | src/term_lib.inc.c:1839-1885 | one decoded character keeps the window invariant, in every parser state, unless it completes ESC c |
| `FidelitySteps.PutCharKeeps` | src/term_lib.inc.c:609-661 | writing a character keeps the window invariant, with wrapping, insert mode and scrolling |
| `FidelitySteps.LcfDoKeeps` | src/term_lib.inc.c:494-512 | carrying out a pending wrap keeps the window invariant |
| `FidelitySteps.LineFeedKeeps` | src/term_lib.inc.c:712-730 | a line feed keeps the window invariant, scrolling included |
| `FidelitySteps.SwitchKeeps` | src/term_lib_csi.inc.c:376-405 | switching screens keeps the window invariant, by merging dirty bits or by redrawing everything |
| `FidelitySteps.CsiNormalKeeps` | src/term_lib_csi.inc.c:796-1063 | every plain CSI sequence keeps the window invariant |
| `FidelitySteps.CsiPrivKeeps` | src/term_lib_csi.inc.c:763-788 | every private CSI sequence keeps the window invariant |
| `FidelitySteps.ProcessEscKeeps` | src/term_lib.inc.c:1738-1829 | every ESC sequence but ESC c keeps the window invariant |
| `FidelitySteps.CsiScrollKeeps` | src/term_lib_csi.inc.c:900-934 | line insertion and deletion and the region scrolls keep the window invariant |
| `Fidelity.ScrollKeeps` | src/term_lib.inc.c:383-453 | any scroll, accelerated, accumulated, locked or plain, keeps the window invariant, and redraws the cell the cursor was drawn in |
| `Fidelity.ScrollByKeeps` | src/term_lib.inc.c:402-451 | the part of a scroll shorter than the region: joined to the pending one, started anew, or given up |
| `Fidelity.OverwriteKeeps` | src/term_lib.inc.c:412-447 | an accumulated scroll: the buffer moves with its dirty bits, so the pending window shift grows by the same amount |
| `Fidelity.MergeKeeps` | src/term_lib.inc.c:431-447 | an unaccelerated scroll: merging leaves dirty every cell whose look changes |
| `Fidelity.InkMoved` | src/term_lib.inc.c:426-447 | a cell moved by the scroll still agrees with the longer pending shift of the window |
| `Fidelity.GiveUpKeeps` | src/yterm_main.c:681-693 | locking the scroll with one pending marks the rows that the dropped copy would have moved |
| `Fidelity.CurMoveAbsKeeps` | src/term_lib.inc.c:541-559 | an absolute cursor move redraws the cell the cursor leaves and the one it enters |
| `GridFacts.ScrollMoves` | src/cellwin.c:756-807 | an overwriting scroll moves looks and dirty bits together and leaves every exposed cell dirty |
| `GridFacts.SrcCompose` | src/term_lib.inc.c:426-429 | two shifts of one region in one direction are one longer shift, which is what accumulation relies on |
| `GridFacts.MergeScrollHonest` | src/cellwin.c:756-807 | a merging scroll leaves every cell whose look changed dirty |
| `GridFacts.ShiftCharsHonest` | src/cellwin.c:815-881 | inserting and deleting characters leaves every changed cell dirty |
| `GridFacts.RegionHonest` | src/cellwin.c:514-586 | every region walk but cleaning leaves what it changes dirty |
| `GridFacts.MergeAligned` | src/cellwin.c:597-616 | on a screen switch a cell stays clean only if it is clean and looks alike on both screens |
| `Fidelity.ScrollUpKeeps` | src/term_lib.inc.c:463-474 | an upward scroll, history append included, keeps the window invariant |
| `Frames.DrawFaithful` | src/yterm_main.c:1406-1511 | a frame on real drawing: from a window that shows the right inks, after window copy, marking, drawing and cleaning every glyph is the active screen's cell painted on its own, legibly: away from the cursor it has the cell's character and its own colours, direct or from the palette, exchanged exactly when one of inverse text and reverse video is on, or the selection colours; nothing is pending or dirty |
| `Frames.DrawFrame` | src/yterm_main.c:1451-1504 | the imperative frame refines the abstract frame step of the fidelity theorem |
| `Frames.CopyPending` | src/yterm_main.c:1455-1498 | the window copy of a pending scroll, computed in pixels, moves each glyph as the pending shift says |
| `Frames.Prepare` | src/yterm_main.c:1453-1498 | a pending scroll too long to copy has its rows marked dirty, and no scroll stays pending |
| `Frames.GoalIsInk` | src/x11_render.inc.c:143-229 | what batched drawing aims at for a cell is that cell as the active screen wants it |
| `Render.RenderLine` | src/x11_render.inc.c:143-229 | batched drawing refines per-cell drawing: each cell of the clipped strip is drawn once, at its own column, as the painting of that cell alone (what that looks like is stated by `Painting.PlainShown` and its neighbours), the cursor cell with cursor colours; cells outside keep their glyphs; drawn cells are clean |
| `Render.RenderClipped` | src/x11_render.inc.c:172-229 | the run-collecting loop, whose flushes do not advance, terminates by (count, cursor pending, colour mismatch) and draws exactly the strip |
| `Render.FlushStr` | src/x11_render.inc.c:81-127 | the collected string is drawn at the pen with the colours in force, and the pen moves past it |
| `Render.DrawCursor` | src/x11_render.inc.c:183-199 | the cell under a visible cursor gets the cursor's colours |
| `Render.DrawBoxed` | src/x11_render.inc.c:200-218 | without focus the cell is drawn as it is with the cursor's box around it |
| `Render.RenderDirtyLine` | src/x11_render.inc.c:288-323 | strips that swallow a few clean cells draw every dirty cell of a line, and only the cells of the line |
| `Render.RenderDirty` | src/x11_render.inc.c:333-340 | every dirty cell is drawn and ends clean, with the early exit on the counter; the dirty count ends at zero, so the final assert holds |
| `Render.AllScanned` | src/x11_render.inc.c:333-340 | leaving the loop because the counter reached zero means no dirty cell is left |
| `Render.Window.CopyRows` | src/yterm_main.c:1469-1495 | a pixel copy of whole rows is a move of whole rows of glyphs, overlap allowed |
| `Render.Window.DrawString` | src/x11_render.inc.c:81-127 | a string drawn at a pixel position lands in the cells that position belongs to |
| `Render.PaletteIndex` | src/cellwin.c:259-329 | which palette entry a colour number becomes: the first eight are brightened by blink and, in the foreground, by bold; the others up to 255 are themselves; default colours get an entry above 255; only an underlined foreground asks for a line |
| `Render.DefaultsApart` | src/cellwin.c:259-329 | the entry of a default colour tells foreground from background and which of bold, underline and blink picked it |
| `Render.ModeTints` | src/cellwin.c:259-329 | the colour modes: a direct colour is shown as it is in the normal mode, black and white gives greys, green only green, amber one colour for each of foreground and background |
| `Painting.PlainShown` | src/cellwin.c:259-348 | an unselected cell away from the cursor shows its character (U+FFFD when it cannot be printed), in normal colour mode its direct colours as they are and its palette and default colours by the entries of its attributes, in this order unless exactly one of inverse text and reverse video is on; and where a line is drawn under it |
| `Painting.InverseExchanges` | src/cellwin.c:337-348 | in every colour mode turning one of inverse text and reverse video over exchanges foreground and background, turning both over changes nothing |
| `Painting.SelectedShown` | src/cellwin.c:337-348 | selected text has the selection colours, whatever its own are |
| `Painting.CursorShown` | src/x11_render.inc.c:183-218 | the cell under the cursor is its own glyph in the cursor's colours of this phase, or in a box without focus, or left alone when those colours are switched off |
| `Painting.Shades` | src/cellwin.c:310-324 | the brightness of greys and primaries in the tinted modes |
| `CellBuffers.CellBuffer.CopyStrip` | src/cellwin.c:698-742 | in either direction and either dirty mode, overlap included, every destination cell gets its source's original contents, and the dirty count stays exact |
| `CellBuffers.CellBuffer.ScrollRows` | src/cellwin.c:756-807 | the clipped scroll: rows moved, exposed rows blanked, stale wrap marks dropped, dirty count exact |
| `CellBuffers.CellBuffer.InsertChars` | src/cellwin.c:815-844 | a gap of characters opened in a line, clipped; dirty count exact |
| `CellBuffers.CellBuffer.DeleteChars` | src/cellwin.c:852-881 | characters removed from a line, clipped; dirty count exact |
| `CellBuffers.CellBuffer.ProcessRegion` | src/cellwin.c:514-586 | marking, cleaning or clearing a clipped rectangle changes exactly its cells; dirty count exact |
| `CellBuffers.CellBuffer.WriteWcharCount` | src/cellwin.c:624-649 | copies of one character along a row, clipped on both sides; characters outside 16 bits become U+FFFD; dirty count exact |
| `CellBuffers.CellBuffer.MergeAllDirtyFrom` | src/cellwin.c:597-616 | the overlap of two buffers of any sizes is merged cell by cell; dirty count exact |
| `CellBuffers.CellBuffer.MergeCellAt` | src/cellwin.c:975-988 | a cell is taken over, dirty, unless it looks the same; dirty count exact |
| `CellBuffers.CellBuffer.Resize` | src/cellwin.c:420-485 | a new size with or without relayout; every cell dirty and the dirty count their number |
| `CellBuffers.CellBuffer.New` | src/cellwin.c:384-399 | default cells, all dirty |
| `CellBuffers.CellBuffer.CleanCell` | src/x11_render.inc.c:81-127 | drawing a cell clears its dirty bit and keeps the dirty count exact |
| `CellBuffers.CellBuffer.MarkLineAutowrap` | src/cellwin.c:493-498 | sets the wrap mark of one row's last cell and nothing else |
| `CellBuffers.CellBuffer.UnmarkLineAutowrap` | src/cellwin.c:506-511 | clears the wrap mark of one row's last cell and nothing else |
| `CellBuffers.MovedStep` | src/cellwin.c:698-742 | the chosen copy direction never reads a cell it has overwritten |
| `LineSplice.ShiftIsSplice` | src/cellwin.c:815-881 | copy, blank and unmark amount to the pure splice of one line: what is left of the column stays, what is right of it moves, what is exposed is blank, other rows are untouched |
| `LineSplice.DeleteUndoesInsert` | src/cellwin.c:815-881 | deleting at the same place what was inserted restores every cell that had not been pushed out |
| `Scrollback.AccelerationInvisible` | src/cellwin.c:698-807 | overwriting and merging dirty bits leave the same cell contents for any scroll |
| `Scrollback.ScrollRow` | src/cellwin.c:756-807 | a scroll of a buffer puts at each row the row it came from, or a blank one; rows outside the region stay |
| `Scrollback.ScrollInternalRow` | src/term_lib.inc.c:383-453 | whatever the acceleration does, a scroll by any number of lines moves the region's rows, blanks what it exposes and leaves the rows outside alone |
| `Scrollback.ScrollConserves` | src/term_lib.inc.c:463-474 | a one-line scroll into the history turns history and rows down to the region's bottom into the same list of lines with one blank row appended |
| `Scrollback.ScrollKept` | src/term_lib.inc.c:383-453 | a scroll changes only the active screen's cells and the pending scroll |
| `ScrollbackRuns.LineFeedConserves` | src/term_lib.inc.c:712-730 | a line feed on the region's last row, with or without the carriage return it may imply, conserves in the same way: one blank row more, no line lost or changed |
| `ScrollbackRuns.LcfDoConserves` | src/term_lib.inc.c:494-512 | so does a pending wrap taken on the region's last row |
| `ScrollbackRuns.IndexConserves` | src/term_lib.inc.c:1752-1764 | so does the index command (ESC D) there |
| `ScrollbackRuns.HistoryOnlyGrows` | src/term_lib.inc.c:463-474 | over any run of bytes below the line cap that does not close the history, stored lines neither change nor get lost |
| `ScrollbackRuns.ReadByteMore` | src/yterm_main.c:1149-1189 | one byte adds at most one line to the history, and then the top line of the main screen as it looked |
| `ScrollbackRuns.ProcessCharMore` | src/term_lib.inc.c:1839-1885 | one character adds at most one line to the history, in every parser state |
| `ScrollbackRuns.ReadAll` | src/yterm_main.c:1149-1189 | state-machine safety over whole runs: from any safe state every byte string leads to a safe state (see `TermModel.OnScreen`) |
| `Commands.CommandRuns` | src/term_lib_csi.inc.c:234-298 | from bytes to handlers: between two sequences, reading ESC [, a private mark, any arguments and a final character carries out exactly that command with those arguments on the state found, and nothing else happens on the way |
| `Commands.EscapeRuns` | src/term_lib.inc.c:1738-1829 | the same for a one-character escape sequence |
| `CursorMoves.Addressed` | src/term_lib_csi.inc.c:841-844 | cursor addressing: ESC [ r ; c H takes the cursor to column c and row r, counted from 1 and limited to the screen, in origin mode counted from the region's top and limited to its bottom, with no wrap pending and no cell changed |
| `CursorMoves.MoveRead` | src/term_lib_csi.inc.c:814-844 | every relative and absolute move (A B C D E F a e G, backquote, d, H, f) with any arguments: the row and column it leads to |
| `CursorMoves.AbsLands` | src/term_lib.inc.c:541-559 | where an absolute move ends, origin mode included, and that it changes no cell |
| `CursorMoves.RelLands` | src/term_lib.inc.c:567-590 | where a relative move ends; the limit of 32767 on its steps never shows |
| `CursorMoves.TabRead` | src/term_lib_csi.inc.c:845-861 | tabbing forth and back by n stops, in closed form |
| `CursorMoves.RegionRead` | src/term_lib_csi.inc.c:1020-1037 | the scroll region asked for is the one set, the whole screen when its rows are in the wrong order, and the cursor goes home |
| `Controls.ControlRead` | src/term_lib.inc.c:679-745 | where backspace, tab, line feed and carriage return take the cursor, and that a line feed on the region's last row moves the region's rows up by one |
| `Controls.EscapeRead` | src/term_lib.inc.c:1752-1786 | index, next line, reverse index and lower left corner: the cursor's place, and the rows when the region scrolls |
| `Controls.WrapLands` | src/term_lib.inc.c:494-512 | a pending wrap takes the cursor to the start of the next row; on the region's last row the region moves up by one instead |
| `Controls.ReturnCloses` | src/term_lib.inc.c:731-740 | a carriage return ends its line: its row is not marked as going on |
| `Controls.FeedCloses` | src/term_lib.inc.c:712-730 | so does a line feed that does not scroll |
| `Controls.StaleCloses` | src/term_lib.inc.c:609-661 | typing after a move into a row drops the mark that row still had |
| `Erasing.EraseRead` | src/term_lib_csi.inc.c:862-899 | erasing, from the bytes of J and K: exactly the cells from the cursor on, up to the cursor, or all of them, of the screen or the row, look like the pen; and of X: n cells of the row; all other cells look as before |
| `Erasing.EraseBothWays` | src/term_lib_csi.inc.c:862-899 | erasing from the cursor on and then up to it looks like erasing everything, on the screen and in the row |
| `Edits.LinesRead` | src/term_lib_csi.inc.c:900-934 | inserting and deleting lines and scrolling up and down: every row shows the row it came from, or is blank, and the cursor stays |
| `Edits.CharsRead` | src/term_lib_csi.inc.c:810-813 | inserting and deleting characters at the cursor splices its row and touches no other |
| `Edits.InsertTyped` | src/term_lib.inc.c:609-661 | typing in insert mode puts the character into the cursor's cell, moves the rest of the row on by one, and changes no other look |
| `Attributes.AttrsRead` | src/term_lib_csi.inc.c:98-219 | the bytes of an attribute list set the pen as the list says and do nothing else |
| `Attributes.ColorCodes` | src/term_lib_csi.inc.c:205-214 | 30 to 37 and 90 to 97 set the foreground and nothing else, 40 to 47 and 100 to 107 the background and nothing else |
| `Attributes.IndexedCodes` | src/term_lib_csi.inc.c:135-205 | 38;5;k and 48;5;k set any of the 256 colours, and the first sixteen agree with the short codes |
| `Attributes.DirectCodes` | src/term_lib_csi.inc.c:135-205 | 38;2;r;g;b and 48;2;r;g;b set a colour with exactly these channels |
| `Attributes.StyleCodes` | src/term_lib_csi.inc.c:117-136 | each attribute is one bit, set by one code and cleared by another |
| `Attributes.PlainCodes` | src/term_lib_csi.inc.c:98-219 | 0 and the empty list give the plain pen, 39 and 49 the default colours |
| `Attributes.OneByOne` | src/term_lib_csi.inc.c:98-219 | a list of codes is its codes one after the other, extended colours included |
| `Attributes.ColoredText` | src/cellwin.c:337-348 | from bytes to colours: a character typed after ESC [ 3k m is painted in palette colour k on the background the pen had |
| `Settings.SaveMoveRestore` | src/term_lib.inc.c:327-363 | saving, any one move and restoring bring cursor, pending wrap, pen and character set back and change no cell |
| `Settings.RestoresSaved` | src/term_lib.inc.c:346-363 | whatever happened to the cursor and the pen, restoring brings back what was saved |
| `Settings.SavedByCommand` | src/term_lib.inc.c:327-363 | the same for CSI s and CSI u, from their bytes |
| `Settings.SavedAsMode` | src/term_lib.inc.c:327-363 | and for private mode 1048, wrapping included |
| `Settings.CharsetRead` | src/term_lib.inc.c:1315-1363 | a designation turns line drawing on or off for the set it names and changes nothing else |
| `Settings.ShiftRead` | src/term_lib.inc.c:1685-1728 | shifting out and in chooses the set in use |
| `Settings.LinesDrawn` | src/term_lib.inc.c:609-661 | the corners, crossings and lines of the line drawing set |
| `Settings.SymbolsDrawn` | src/term_lib.inc.c:609-661 | and its symbols |
| `Settings.OthersDrawn` | src/term_lib.inc.c:609-661 | outside the columns of the set, or without line drawing in use, a character stands for itself |
| `Settings.AlignmentShown` | src/term_lib.inc.c:1397-1415 | the alignment test shows an E in every cell, in the pen's colours |
| `Settings.PrivRead` | src/term_lib_csi.inc.c:496-753 | the bytes of a private mode being set or reset carry out that mode and nothing else |
| `Settings.ModeSteps` | src/term_lib_csi.inc.c:522-703 | what turning reverse video, origin mode, wrapping, carriage returns with line feeds and the cursor's visibility on or off changes, and what it does not; private mode 2 ends line drawing |
| `Settings.ColumnsSwitched` | src/term_lib_csi.inc.c:522-703 | private mode 3 empties the screen with the pen and takes the cursor home |
| `Settings.PlainModeRead` | src/term_lib_csi.inc.c:967-1010 | insert mode and carriage returns with line feeds, from the bytes |
| `Settings.ColorsRead` | src/term_lib_csi.inc.c:413-488 | the private request for a colour mode sets it and has everything drawn anew |
| `Settings.HistoryRead` | src/term_lib_csi.inc.c:413-488 | the private request for the history turns it on or drops its lines, and does nothing else |
| `Settings.EnteredBlank` | src/term_lib_csi.inc.c:577-595 | private mode 1049 shows an empty alternate screen in the default colours |
| `Screens.EntersBy` | src/term_lib_csi.inc.c:577-595 | private modes 47 and 1047 show the alternate screen as it was left, an empty one if there was none; 1049 saves the cursor and shows it empty; the main screen keeps its cells, and where the alternate screen is shown or disabled nothing happens |
| `Screens.LeavesBy` | src/term_lib_csi.inc.c:714-732 | resetting 47 leaves the alternate screen as it is, resetting 1047 or 1049 empties it, 1049 also brings back the saved cursor |
| `Screens.SwitchedOff` | src/term_lib_csi.inc.c:496-753 | disabling the alternate screen leaves it and keeps both |
| `Screens.SeenAgain` | src/term_lib_csi.inc.c:376-405 | left and entered again, the alternate screen looks as before with mode 47 and is empty with 1047 |
| `Strings.StringRead` | src/term_lib.inc.c:1423-1507 | the bytes of an operating system command, a device control string or a privacy message, with any UTF-8 text without control characters in it, change no cell, cursor, mode or history line; afterwards the terminal reads on in ground state. At most an alternate screen that is not shown is dropped |
| `Strings.BellEnds` | src/term_lib.inc.c:1423-1507 | BEL ends an operating system command |
| `Strings.SlashEnds` | src/term_lib.inc.c:1629-1652 | ESC \ ends every kind of string |
| `Commands.AsksOnly` | src/term_lib_csi.inc.c:1071-1099 | a command marked with > is read to its end and changes nothing |
| `Settings.Cancelled` | src/term_lib.inc.c:1685-1728 | in every parser state the cancel character ends the sequence and does nothing else |
| `Settings.FreshTerminal` | src/term_lib.inc.c:142-187 | what a new terminal shows: an empty screen in default colours, the cursor visible at home, the whole screen as region, only wrapping on |
| `Settings.ResetStartsAfresh` | src/term_lib.inc.c:96-132 | the full reset gives the same settings on the main screen and leaves its cells and the history alone |
| `TermModel.OnScreen` | src/term_lib.inc.c:494-512 | what a safe state gives: cursor and saved cursor on the screen, pending wrap only in the last column, scroll region ordered and inside the screen |
| `CsiModel.ReadByte` | src/yterm_main.c:1149-1189 | one byte, valid UTF-8 or not, keeps the state safe |
| `CsiModel.ProcessChar` | src/term_lib.inc.c:1839-1885 | one character keeps the state safe: both cursors of both screens, scroll regions, pending scroll, argument list and string buffer |
| `CsiModel.ProcessState` | src/term_lib.inc.c:1839-1885 | every parser state keeps the state safe, so its assert on the state cannot fail |
| `CsiModel.ControlChar` | src/term_lib.inc.c:1685-1728 | control characters keep the state safe; one that is not taken changes nothing |
| `CsiModel.ProcessEsc` | src/term_lib.inc.c:1738-1829 | escape sequences keep the state safe |
| `CsiModel.ProcessCsi` | src/term_lib.inc.c:1660-1675 | CSI input keeps the state safe |
| `CsiModel.ProcessOsc` | src/term_lib.inc.c:1423-1507 | operating system commands keep the state safe and the string buffer terminated |
| `CsiModel.ProcessDcs` | src/term_lib.inc.c:1629-1652 | a query string is zero-terminated at its length when it is answered |
| `CsiModel.AppendChar` | src/term_lib.inc.c:1629-1652 | collecting string characters never leaves the buffer nor its terminator behind |
| `CsiModel.CsiNextChar` | src/term_lib_csi.inc.c:234-298 | parameter characters keep at most sixteen arguments, each omitted or below 65536 |
| `CsiModel.FillArgs` | src/term_lib_csi.inc.c:1071-1099 | arguments not given are omitted ones, within the array |
| `CsiModel.SgrColor` | src/term_lib_csi.inc.c:98-219 | an extended colour is a direct one, one of 256 or the default, and skips at most four arguments |
| `CsiModel.SgrReadsOnly` | src/term_lib_csi.inc.c:98-219 | the attributes set depend only on the arguments given: none past the last is read |
| `CsiModel.CsiNormal` | src/term_lib_csi.inc.c:796-1063 | every plain CSI sequence keeps the state safe |
| `CsiModel.SetRegion` | src/term_lib_csi.inc.c:1020-1037 | a scroll region that is set is ordered and inside the screen |
| `CsiModel.CsiPriv` | src/term_lib_csi.inc.c:763-788 | every private CSI sequence keeps the state safe |
| `CsiModel.PrivModes` | src/term_lib_csi.inc.c:496-753 | a list of private modes keeps the state safe, each mode starting where the last one left off |
| `CsiModel.TabForwardOk` | src/term_lib_csi.inc.c:845-861 | tabbing forward stays inside the row |
| `TermModel.LcfDo` | src/term_lib.inc.c:494-512 | a pending wrap is found only in the last column, and afterwards none is pending |
| `TermModel.PutChar` | src/term_lib.inc.c:609-661 | writing a character keeps the state safe |
| `TermModel.PutC` | src/term_lib.inc.c:609-745 | writing any character or control keeps the state safe |
| `TermModel.ScrollInternal` | src/term_lib.inc.c:383-453 | a scroll of any length keeps the pending scroll shorter than its region, or locked |
| `Fidelity.AccumulateKinds` | src/term_lib.inc.c:407-435 | a scroll that is replayed as a copy joins the pending one, same direction, same region, lengths added; with acceleration it is given up only against a pending scroll of another direction or region, or when the sum reaches the region's height |
| `TermModel.CurMoveAbs` | src/term_lib.inc.c:541-559 | an absolute move ends on the screen with no wrap pending |
| `TermModel.CurMoveRel` | src/term_lib.inc.c:567-590 | a relative move ends on the screen with no wrap pending |
| `TermModel.RestoreCursor` | src/term_lib.inc.c:346-363 | restoring a cursor keeps the state safe, pending wrap included |
| `TermModel.SwitchScreen` | src/term_lib_csi.inc.c:376-405 | switching screens keeps the state safe |
| `TermModel.EnsureAlt` | src/term_lib_csi.inc.c:337-354 | the alternate screen has the main screen's size when it is there |
| `TermModel.ResetMode` | src/term_lib.inc.c:96-132 | the full reset keeps the state safe and returns to the main screen |
| `TermModel.NewTerm` | src/term_lib.inc.c:142-187 | a new terminal is safe and every cell of it is due for drawing |
| `Terminals.Terminal.constructor` | src/term_lib.inc.c:142-187 | the new terminal object stands for the new terminal state |
| `Terminals.Terminal.ReadByte` | src/yterm_main.c:1149-1189 | the terminal object, updated in place, does to its state what the run theorems speak about, for every byte |
| `Terminals.Terminal.ProcessChar` | src/term_lib.inc.c:1839-1885 | in place: one decoded character, in every parser state |
| `Terminals.Terminal.ControlChar` | src/term_lib.inc.c:1685-1728 | in place: the control characters |
| `Terminals.Terminal.ProcessEsc` | src/term_lib.inc.c:1738-1829 | in place: the escape sequences |
| `Terminals.Terminal.ProcessCsi` | src/term_lib.inc.c:1660-1675 | in place: parameter collection, then the sequence |
| `Terminals.Terminal.ProcessOsc` | src/term_lib.inc.c:1423-1507 | in place: operating system commands, with the characters that end them |
| `Terminals.Terminal.ProcessDcs` | src/term_lib.inc.c:1629-1652 | in place: device control strings |
| `Terminals.Terminal.ProcessHash` | src/term_lib.inc.c:1397-1415 | in place: the alignment test |
| `Terminals.Terminal.Designate` | src/term_lib.inc.c:1315-1363 | in place: the character set designations |
| `Terminals.Terminal.StringControl` | src/term_lib.inc.c:1423-1553 | in place: the characters that end or interrupt a string |
| `Terminals.Terminal.PutC` | src/term_lib.inc.c:609-745 | in place: characters and basic controls |
| `Terminals.Terminal.PutChar` | src/term_lib.inc.c:609-661 | in place: writing one character |
| `Terminals.Terminal.LineFeed` | src/term_lib.inc.c:712-730 | in place: line feed, with scrolling at the region's bottom |
| `Terminals.Terminal.Tab` | src/term_lib.inc.c:701-711 | in place: the next tab stop |
| `Terminals.Terminal.LcfDo` | src/term_lib.inc.c:494-512 | in place: the pending wrap carried out |
| `Terminals.Terminal.ScrollInternal` | src/term_lib.inc.c:383-453 | in place: a scroll, accumulated, locked or cleared |
| `Terminals.Terminal.ScrollUp` | src/term_lib.inc.c:463-474 | in place: an upward scroll, with the history append |
| `Terminals.Terminal.ScrollDown` | src/term_lib.inc.c:482-486 | in place: a downward scroll |
| `Terminals.Terminal.LockScroll` | src/yterm_main.c:681-693 | in place: locking the scroll |
| `Terminals.Terminal.CurMoveAbs` | src/term_lib.inc.c:541-559 | in place: absolute cursor moves, origin mode included |
| `Terminals.Terminal.CurMoveRel` | src/term_lib.inc.c:567-590 | in place: relative cursor moves, origin mode included |
| `Terminals.Terminal.SaveCursor` | src/term_lib.inc.c:327-338 | in place: saving cursor, attributes and modes |
| `Terminals.Terminal.RestoreCursor` | src/term_lib.inc.c:346-363 | in place: restoring them |
| `Terminals.Terminal.InvalidateCursor` | src/term_lib.inc.c:305-310 | in place: the visible cursor's cell is marked dirty |
| `Terminals.Terminal.EnsureAlt` | src/term_lib_csi.inc.c:337-354 | in place: the alternate buffer taken when it is needed |
| `Terminals.Terminal.ReleaseAlt` | src/term_lib_csi.inc.c:364-368 | in place: the alternate buffer given up when it is not shown |
| `Terminals.Terminal.SwitchScreen` | src/term_lib_csi.inc.c:376-405 | in place: the screen switch with its dirty merge |
| `Terminals.Terminal.CsiNormal` | src/term_lib_csi.inc.c:796-1063 | in place: every plain CSI sequence does what the state functions do, whose effects `CursorMoves`, `Erasing`, `Edits`, `Attributes` and `Settings` state |
| `Terminals.Terminal.SetAttr` | src/term_lib_csi.inc.c:98-219 | the argument loop of the attribute sequence computes the pen whose codes `Attributes` states |
| `Terminals.Terminal.PrivModes` | src/term_lib_csi.inc.c:496-753 | in place: the private mode lists |
| `Terminals.Terminal.PrivSet` | src/term_lib_csi.inc.c:496-617 | in place: one private mode set |
| `Terminals.Terminal.PrivReset` | src/term_lib_csi.inc.c:625-753 | in place: one private mode reset |
| `Terminals.Terminal.PrivateCodes` | src/term_lib_csi.inc.c:413-488 | in place: the terminal's own private requests |
| `Terminals.Terminal.CsiHandle` | src/term_lib_csi.inc.c:1071-1099 | in place: dispatch of a finished CSI sequence |
| `Terminals.Terminal.ResetMode` | src/term_lib.inc.c:96-132 | in place: the full reset |
| `EscParsers.EscParser.NextChar` | src/term_lib_csi.inc.c:234-298 | in place: one parameter character, in the array of arguments |
| `EscParsers.EscParser.AppendChar` | src/term_lib.inc.c:1629-1652 | in place: one string character, in the fixed buffer |
| `EscParsers.EscParser.OscText` | src/term_lib.inc.c:1423-1507 | in place: one character of an operating system command |
| `AltScreen.RoundTrip` | src/term_lib_csi.inc.c:577-732 | a full-screen program leaves no trace: entering the alternate screen with private mode 1049, any bytes that do not leave it, and leaving again give back the main screen's cells, wrap marks included, and cursor, attributes, character sets and wrapping |
| `AltScreen.MainUntouched` | src/yterm_main.c:1149-1189 | over any run of bytes on the alternate screen the main screen's cells, cursor, saved cursor and scroll region do not change |
| `AltScreen.ReadByteApart` | src/term_lib.inc.c:1839-1885 | one byte either leaves the alternate screen or leaves the main one alone |
| `AltScreen.PrivModesApart` | src/term_lib_csi.inc.c:496-753 | a list of private modes that leaves the alternate screen does not come back to it |
| `AltScreen.SwitchedMain` | src/term_lib_csi.inc.c:376-405 | a screen switch changes no more of the main screen than dirty bits, whether it merges or redraws |
| `AltScreen.Leaves` | src/term_lib_csi.inc.c:714-732 | leaving restores what was saved with the main screen |
| `Typing.TextShown` | src/yterm_main.c:1149-1189 | end to end: the UTF-8 bytes of any printable text that fits without scrolling, read in ground state with wrapping on, put its characters into consecutive cells in reading order with the current attributes, mark as wrapped exactly the rows that go on, leave every other cell's look alone and the cursor behind the text |
| `Typing.MalformedShown` | src/yterm_main.c:1149-1189 | a byte that cannot go on is shown as U+FFFD |
| `Typing.SubstituteShown` | src/term_lib.inc.c:1685-1728 | the substitute character is shown as a question mark |
| `Overtyping.TextHeld` | src/term_lib.inc.c:609-661 | with wrapping off the UTF-8 bytes of any printable text, however long, stay in the cursor's row: what fits is shown in reading order, the last column shows the last character if there were too many, no other cell changes its look |
| `Overtyping.PutOver` | src/term_lib.inc.c:609-661 | one character with wrapping off replaces the cursor's cell; the cursor moves on, or stays in the last column |
| `Typing.TypeOne` | src/term_lib.inc.c:609-661 | one more character extends the typed text by one cell |
| `Typing.TypeBytes` | src/yterm_main.c:1149-1189 | byte after byte, what the decoder emits is what gets typed |
| `Typing.TextRelaid` | src/cellwin.c:420-460 | text typed from the top left corner, after a relayout to any size, still shows its characters in reading order |
| `Typing.WrapArrives` | src/term_lib.inc.c:494-512 | a pending wrap with a row below only moves the cursor and marks the row it leaves |
| `Relayout.Lay` | src/cellwin.c:433-459 | the in-place rewrapper, in bounds and terminating by (rows, columns), writes every cell once and its result is: old rows joined at wrap marks, re-chunked at the new width, padded per line, cut off or filled up to the new height |
| `Relayout.LineIt.Get` | src/cellwin.c:235-251 | the line iterator yields the old cells in order and an end of line exactly after a line's last cell |
| `Relayout.FlowJoined` | src/cellwin.c:207-251 | the iterator's stream of cells and line ends is the joined lines, padded and put end to end |
| `Relayout.Crop` | src/cellwin.c:460-478 | without relayout rows are cut off or filled up on the right and at the bottom |
| `Relayout.RelaidDirty` | src/cellwin.c:420-485 | after a relayout every cell is dirty and their number is the dirty count |
| `Relayout.CroppedDirty` | src/cellwin.c:460-485 | the same without relayout |
| `HistoryFiles.HistoryFile.AppendLine` | src/history.inc.c:223-285 | appending, through the buffer or past it, after the width change and the wipe it may need, appends to the list of lines the file stands for |
| `HistoryFiles.HistoryFile.Flush` | src/history.inc.c:64-89 | emptying the write buffer leaves the list of lines as it was |
| `HistoryFiles.HistoryFile.Reformat` | src/history.inc.c:99-157 | another width cuts off or pads every stored line and loses none |
| `HistoryFiles.HistoryFile.Ensure` | src/history.inc.c:175-189 | opens the file, or brings it to the width asked for |
| `HistoryFiles.HistoryFile.LoadLine` | src/history.inc.c:296-321 | loading a line gives that line of history and screen together, and nothing outside them |
| `HistoryFiles.HistoryFile.Close` | src/history.inc.c:43-56 | a closed history has no lines |
| `HistoryFiles.LinesStay` | src/history.inc.c:223-285 | over any run of appends below the cap a stored line keeps its place and changes only by the widths of later lines |
| `HistoryFiles.LineFound` | src/history.inc.c:223-321 | the k-th appended line is found at its place, cut off or padded by the width changes in between |
| `HistoryFiles.FitKeeps` | src/history.inc.c:99-157 | a line refitted to its own width is unchanged, padding comes off again, and of two width changes only the narrower counts |
| `HistoryFiles.TextStays` | src/history.inc.c:99-157 | over any run of later lines at least as wide as its text, a stored line keeps its text |
| `HistoryFiles.TerminalAppends` | src/term_lib.inc.c:463-474 | the line the terminal archives is appended to the list the file refines |
| `Selections.RunClamps` | src/selection.inc.c:390-430 | over every run of moves the cursor's row and scroll position act as one line number clamped to history and screen, the column as one clamped number, and all stay in range |
| `Selections.StepClamps` | src/selection.inc.c:390-430 | one move clamps line and column, and the view scrolls no further than it must |
| `Selections.Selection.CurMove` | src/selection.inc.c:390-430 | in place: a move keeps the view right, and whatever looks different afterwards is dirty |
| `Selections.Selection.Draw` | src/selection.inc.c:162-230 | after drawing, row i shows line (history length - scroll position + i) of history and screen, the selection is marked exactly on the block, what changed is dirty and the dirty count exact; a view of another size starts over |
| `Selections.RowShown` | src/selection.inc.c:162-230 | with lines as wide as the view, each of its rows is one whole line of history and screen |
| `Selections.DrawnPicture` | src/selection.inc.c:175-229 | merging lines, marking the block and comparing the remembered flags together give a right view and forget no changed cell |
| `Selections.Selection.MarkBlock` | src/selection.inc.c:112-150 | the visible cells of the block are marked, a block in progress being finished only for the time being |
| `Selections.Selection.End` | src/selection.inc.c:66-104 | a finished block has its corners in order |
| `Selections.EndedSame` | src/selection.inc.c:66-104 | finishing a selection leaves exactly the same cells selected |
| `Selections.StreamIsRun` | src/selection.inc.c:112-150 | text selected between two places is exactly one run of cells in reading order |
| `Selections.Selection.HistoryPutLine` | src/history.inc.c:199-215 | one stored line is merged into one row of the view |
| `Selections.Selection.Start` | src/selection.inc.c:253-262 | a block begins under the cursor, and the view shows it |
| `Selections.Selection.Reset` | src/selection.inc.c:238-245 | a recorded block is dropped, and the view shows that |
| `Selections.Selection.constructor` | src/x11_keypress.inc.c:195-210 | selection mode starts with a right view of the screen, nothing selected and the cursor where the terminal's is |
| `Utf8.ReadEncoded` | src/utf.c:114-156 | completeness: reading the encoding of any scalar values, from any accepting or rejected state, yields exactly those values (section 3 of RFC 3629) |
| `Utf8.ReadSound` | src/utf.c:96-124 | soundness: bytes read without a rejection up to an accepting state are exactly the encoding of what was read, so nothing overlong, no surrogate and nothing above 10FFFF passes (section 4 of RFC 3629) |
| `Utf8.ReadOne` | src/utf.c:114-156 | one character's encoding yields it at its last byte and nothing before |
| `Utf8.ConsumePacked` | src/utf.c:114-124 | the packed state word keeps a table state and the bits that state allows |
| `Utf8.EncodedShape` | src/utf.c:132-156 | the encoder's length and byte ranges for each class of code points |
| `CsiText.PrintParse` | src/term_lib_csi.inc.c:30-53 | printing a reachable parser state's private mark and arguments and parsing the text again gives the same mark and arguments, omitted ones included (section 5.4 of ECMA-48) |
| `CsiText.PrintParseFinal` | src/term_lib_csi.inc.c:234-298 | with the final character fed too, the command comes back as well |
| `CsiText.AllShaped` | src/term_lib_csi.inc.c:234-298 | what every reachable parser state looks like: arguments omitted or below 65536, a single one never omitted |
| `CsiText.FeedDigits` | src/term_lib_csi.inc.c:234-298 | the printed digits of a value accumulate to that value |
| `OutBuffers.Fifo` | src/yterm_main.c:1079-1127 | over any interleaving of sends and partially successful writes, until a close, delivered then pending bytes are the accepted bytes, and fill and size stay within bounds |
| `OutBuffers.NothingLost` | src/yterm_main.c:1079-1127 | on a new connection, over every run of sends and writes in which no write fails, takes nothing or takes too much, and no more than the limit less one page is sent, the connection is open at the end and delivered then pending bytes are exactly those sent |
| `OutBuffers.SendStaysOpen` | src/term_lib.inc.c:941-980 | a send leaves an open connection open if and only if the bytes fit the present size, or that size is below 0x200000 and lies at least as many bytes below it; then they are pending behind the others |
| `OutBuffers.DrainStaysOpen` | src/yterm_main.c:1079-1127 | a write leaves it open if and only if nothing was to be written, it could not be written yet, or some of it but no more than there was has been taken |
| `OutBuffers.AcceptOk` | src/term_lib.inc.c:941-980 | accepting bytes keeps fill within size and size within 0x201000 |
| `OutBuffers.DeliverOk` | src/yterm_main.c:1079-1127 | delivering bytes, with the buffer shrunk when it is empty, keeps the same bounds |
| `OutBuffers.OutBuffer.WriteRaw` | src/term_lib.inc.c:941-980 | in place: bytes join the pending ones, or the connection is closed in exactly the case `OutBuffers.SendStaysOpen` states |
| `OutBuffers.OutBuffer.Write` | src/yterm_main.c:1079-1127 | in place: what the write took leaves the front, the rest moves down |
| `Incr.TransferDelivers` | src/xsel/xsel.c:1278-1391 | every announced transfer of any data that is not empty, with any chunk limit up to the receiver's read limit (the source's is 4000), ends within a bounded number of steps, no chunk exceeds the limit, and a transfer that cannot go on has delivered exactly the data (section 2.7.2 of the ICCCM) |
| `Incr.StepKeeps` | src/xsel/xsel.c:592-689 | in every reachable state received bytes, bytes in the property and bytes not sent are the data, and no chunk exceeds the limit |
| `Incr.StepCounts` | src/xsel/xsel.c:1553-1570 | every step of sender or receiver brings the end nearer |
| `Incr.StopsWhenDone` | src/xsel/xsel.c:645-689 | the system stops only when the empty write was made and the receiver holds exactly the data |
| `Incr.IncrTrack.Continue` | src/xsel/xsel.c:1349-1391 | in place: the sender's record makes one chunk, or the final empty write |
| `Incr.Receiver.GetAppend` | src/xsel/xsel.c:592-644 | in place: the receiver's buffer grows by what the property held |
| `Hotswaps.Swap` | src/hotswap.inc.c:363-461 | the round trip: every list of tabs written and read back gives the same tabs in order, both grids, pending output, raw fields and active screen included, up to the redraw marks; dirty counts are exact and the file is consumed to its last byte |
| `Hotswaps.HotTab.Io` | src/hotswap.inc.c:238-345 | one routine in both directions: writing appends a tab's encoding and leaves the tab alone; reading where that encoding lies gives the tab and stops right behind it |
| `Hotswaps.Save` | src/hotswap.inc.c:413-437 | the file gains the encoding of all tabs and the end mark, and no tab changes |
| `Hotswaps.Load` | src/hotswap.inc.c:363-388 | from a file that holds the encoding of a list of tabs, exactly that list is loaded, drawn anew |
| `Hotswaps.HotTab.IoShape` | src/hotswap.inc.c:238-275 | the size and the alternate screen's presence; buffers are resized when reading, a size out of range or another mark stops the load |
| `Hotswaps.HotTab.IoPending` | src/hotswap.inc.c:280-294 | pending output comes back whole; a fill beyond the size stops the load, an empty buffer is given up |
| `Hotswaps.SwapFile.IoCells` | src/hotswap.inc.c:201-228 | cells, narrowed and widened, come back exactly |
| `Hotswaps.FlagsBack` | src/hotswap.inc.c:201-228 | a cell's 16-bit flag word and character survive the widening to 32 bits |
| `Hotswaps.PartReady` | src/hotswap.inc.c:63-71 | after any prefix of the parts the file stands at the next part, in either direction |

## Left out

- Replies to the child (device attributes, cursor reports, query strings): not written to the output queue by the terminal model; the queue itself is modelled.
- Window titles, tab titles and the trimming of title text in operating system commands.
- Mouse, keypad, bracketed paste and focus modes, key translation, and the input method.
- Exposure and visibility events, menus, tab bar, messages and clip regions: the fidelity theorem is about a visible, uncovered window.
- Selection mode during the fidelity runs: drawing the selection view uses the same routines on another buffer.
- Column switching for `vttest`, and resizing inside the fidelity and safety runs: runs are at a fixed size, and saved cursors are not clamped by a resize.
- The pixel row of underlines and of the cursor's box; a glyph records that they are there.
- Configuration, palettes, fonts, keyboard tables, KOI tables: tables or single branches. Palette colours are taken to be 24-bit.
- The word moves and the copying of selected text, and the key bindings of selection mode.
- `cbuf_copy_region`: nothing calls it, and its row loop reads a pointer that is never set.
- I/O errors, memory exhaustion and signals.
- Clipboard transfers of several targets at once, 32-bit formats, timeouts and the list of concurrent transfers: one 8-bit transfer is modelled.
- The hot-swap signature and the options before the tabs; raw fields of a tab are blocks of bytes of the sizes a 64-bit compiler gives them.
- `Typing.TextShown`: covers text that needs no scrolling and no line-drawing set switch in between; scrolling text is covered by the scrollback theorems.
- `ScrollbackRuns.HistoryOnlyGrows`: holds below the cap of 0xffffff lines, at which the source wipes the history, and between requests to close it.
- `Hotswaps.Swap`: the capacity of an empty output buffer, the pending scroll, the selection and the history file are not part of the format.
- `HistoryFiles.HistoryFile.LoadLine`: a history line of another width than the view is not loaded, as in the source.
