# Engines of a terminal multiplexer, modelled and verified

This project models the stateful engines of a fork of tmux and proves what they keep: the grid that
stores and re-wraps the scrollback, the control-mode output engine, the sixel codec, the command queue
with its wait channels, event dispatch, the fuzzy matcher and the hyperlink index.  `dafny verify
dfyconfig.toml` checks all of it.

The engines that change things in place are methods over objects with loops (`Grid`, `ControlState`,
`Queue`, `Registry`, `WaitChannels`, `Store`, and the sixel printer over its array of chunks).  Each
method is proved against a function on values, and the main results are about those functions or about
every run of them.

* **Grid.**  `GridCell` and `GridStore` hold cells in compact entries with a side array of extended
  slots; a line is shown to behave like an array of cells.  `ReflowRows` says what reflow does to rows of
  cells, `ReflowLayout` proves that this is the canonical layout of the logical lines exactly when there
  is no gap (a WRAPPED line followed by an empty one that is not), `ReflowWide` says for cells of any width
  exactly when the logical lines survive, and `GridReflow` proves that the
  in-place algorithm, which cuts and kills its own source lines, does that.  `GridPosition` carries
  positions across a reflow, `GridView` has the region operations in 32-bit arithmetic, and `GridSgr` folds
  the terminal's own interpreter over the codes that are emitted for cells.
* **Control mode.**  `ControlModel` is the state machine over the shared queue, `ControlInvariant`,
  `ControlSteps` and `ControlWriter` prove that every step keeps its invariant and that the writer ends,
  `ControlRun` states what holds in every run, `ControlShortage` and `ControlAccounts` say exactly when the
  writer runs out of data and when a pane's offsets and queue agree, and `ControlEngine` has the object with
  its own fields and a list of blocks for every pane, which is proved to follow the machine event by event.
  History variables record what was accepted and sent.  `ControlAge` and `ControlSwitch` say which panes
  are paused and which clients end, and what they are told, `ControlHeads` what a client reads off the text it
  gets, and `ControlBuffer` how full its buffer is.
* **Sixel.**  `Sixel` is the parser as a function of its text, `strtoul` included; `SixelText` shows
  that it reads back printed operations, `SixelPrint` and `SixelRoundTrip` that the printer's run-length
  planes draw the image, `SixelGrammar` what the parser makes of any text of commands, `SixelParser` what
  holds of every parsed image, `SixelSnapshot` the bounded binary form.
* **Commands.**  In `CmdQueue` an item is known by what it will do: the chains it inserts, whether it
  fails or waits, and what is inserted before it continues.  Sequential execution is a recursion over these
  trees, and the queue is proved to follow it; `CmdTurns` says which items it fires, and why any other is not.
  `WaitFor` has the wait channels.
* **Events, Fuzzy, Hyperlinks** have one module each.  What callbacks do is given as trees of scripts,
  so that every terminating nesting of fire, add and remove is covered.

Where the code falls short of what one would expect of it, the code is modelled as it is, with an input
and the exact condition: a wide cell can cut a logical line (`WideCellLosesWrap`, `LinesSurvive`), a gap is
never repaired (`ReflowNoBetter`), overline is printed as a code that means nothing (`OverlineLost`,
`CodesExact`), a client that is told to exit with output queued can reach the fatal shortage of data
(`ExitFlagRunsShort`, `WritePendingFatal`, `DebtIsShortage`), a pane that is gone loses track of what it has
queued (`GoneRunLosesTrack`, `QueuedIsExact`), pixels beyond the width of a sixel image are not printed
(`WiderThanItsWidth`, `Print`), WRAPPED flags do not follow the text where lines are inserted or scrolled
(`InsertFlags`, `ScrollFlags`), insertion without a region leaves old lines and cells between
(`InsertLinesBlank`, `InsertCells`), and a second signal on a woken channel takes the first one away with it
(`SignalKept`).

Conventions: integers are unbounded unless a 32-bit wrap is written out; `char` is signed, so bytes from
0x80 are negative; text is bytes.

## Model

| member | source | states |
|---|---|---|
| `GridCell.ReadBackIff` | grid.c:98-170 | A stored cell reads back as it was written, up to the CLEARED flag, if and only if it fits the compact form it is put in or gets an extended slot; the condition is on the cell alone and whether a slot was there |
| `GridCell.PutCellOk` | grid.c:660-681 | Storing a cell keeps every extended offset in range and no slot shared, gives the cell the image of what was written, and changes no other read |
| `GridCell.ClearCellOk` | grid.c:262-290 | Clearing a cell blanks it, reusing its slot unless the entry is a leftover of a move, keeps offsets in range and unshared, and changes no other cell |
| `GridStore.Grid.GetCell` | grid.c:625-658 | A read is the cell the line stores; below the grid it is the default cell |
| `GridStore.Grid.ExpandLine` | grid.c:562-589 | A line grows to the size the thresholds of a quarter and half the width give; its old cells, used length and flags are kept and the new cells read blank in the background colour |
| `GridStore.ExpandSizeIs` | grid.c:570-579 | The size allocated is the smallest that is more than asked for of a quarter, half and the whole of the width, or what is asked for, so a line grows at most three times on the screen |
| `GridStore.Grid.SetCell` | grid.c:660-681 | One cell is written, the used length grows to it, and no other line or cell changes |
| `GridStore.Grid.SetPadding` | grid.c:683-692 | A padding cell reads back as padding; its width depends on whether it went into a slot |
| `GridStore.Grid.SetCells` | grid.c:694-721 | Every byte of the text lands in its own cell with the cell's style, slots are reused or added without sharing, and other cells are untouched |
| `GridStore.Grid.ClearSpan` | grid.c:723-761 | A span of one line reads back blank in the background colour and everything else as before |
| `GridStore.Grid.MoveCells` | grid.c:827-855 | A block of cells moves as a whole, overlapping or not, what it leaves behind is blank, and no two cells share a slot afterwards |
| `GridStore.Grid.CompactLine` | grid.c:187-227 | Compaction leaves exactly one slot for each extended cell and changes no read |
| `ReflowRows.ReflowKeepsCells` | grid.c:1350-1610 | For any cells and any width, reflow loses, repeats and reorders no used cell |
| `ReflowLayout.ReflowIsLayout` | grid.c:1350-1610 | For width-1 cells, reflow is the canonical layout of the logical lines if and only if no WRAPPED line is followed by an empty one that ends it |
| `ReflowLayout.ReflowCanonical` | grid.c:1350-1610 | Without such a gap, every row is full before it wraps, no row is empty for nothing, and the text with its line ends is the same |
| `ReflowLayout.CanonicalUnique` | grid.c:1350-1524 | There is only one canonical layout of a text in a width |
| `ReflowLayout.ReflowNoBetter` | grid.c:1350-1456 | A gap is never repaired: it stays, or a logical line is cut in two |
| `ReflowLayout.ReflowTwice` | grid.c:1526-1610 | Reflow to one width and then, with blank lines added, to another is reflow to the other up to those blank lines |
| `ReflowWide.LinesSurvive` | grid.c:1350-1610 | For any rows, any widths and any flags, reflow keeps the text with its line ends if and only if, in a greedy layout of the source rows, no last row of a logical line lacks room on a row that has been joined before it; every such place adds exactly one line end |
| `ReflowWide.NarrowStartsSurvive` | grid.c:1350-1610 | So logical lines survive wherever the wide cells are, if none is the first cell of an unwrapped row and there are no gaps |
| `ReflowWide.WideCellLosesWrap` | grid.c:1385-1443 | An input where a line is cut: three one-cell rows of which the last is wide, at three columns |
| `GridReflow.ReflowGrid` | grid.c:1526-1610 | The in-place algorithm leaves the grid with the rows of the reflow followed by blank lines up to the screen's height; for width-1 cells without gaps these are the canonical layout |
| `GridReflow.ReflowLines` | grid.c:1536-1596 | The loop over the source lines, which kills and cuts lines below as it goes and skips dead ones, builds the rows of the reflow |
| `GridReflow.LineTurn` | grid.c:1536-1596 | One source line is moved, joined with lines below or split; the target grows by the rows of a turn and the source keeps what a turn leaves |
| `GridReflow.JoinOnto` | grid.c:1350-1456 | Joining fills the last target row from the lines below, marks them dead, and leaves the remainder of the last one in place |
| `GridReflow.Split` | grid.c:1458-1524 | A line that is too wide becomes full WRAPPED rows and a last row, which is joined with the lines below if the line was WRAPPED |
| `GridReflow.Measure` | grid.c:1553-1577 | The width of the used cells, and where the first row of a split ends |
| `GridReflow.Move` | grid.c:1338-1348 | A line moves to the target unchanged and the source line is marked dead |
| `GridPosition.GridWrapPosition` | grid.c:1612-1632 | The place of a cell: how many line ends are above it and how many cells since the last one |
| `GridPosition.GridUnwrapPosition` | grid.c:1634-1665 | The cell at such a place, walking WRAPPED lines |
| `GridPosition.WrapIsText` | grid.c:1612-1632 | A wrap position depends only on the text before the cell |
| `GridPosition.WrapRoundTrip` | grid.c:1612-1665 | Unwrapping the wrap position of a used cell gives the cell back |
| `GridPosition.PositionSurvivesReflow` | grid.c:1526-1665 | After reflow to any width, the wrap position of a used cell leads to that same cell |
| `GridPosition.UnwrapEnd` | grid.c:1634-1665 | Unwrapping the end of a line leads to the line end after exactly as many line ends as asked for, or to the last one of the grid |
| `GridPosition.SameTextSameEnd` | grid.c:1612-1665 | A place behind the text of its row, wrapped and unwrapped in any rows that start with the same text, is a line end, and that of the same logical line if and only if that line ends there |
| `GridPosition.EndSurvivesReflow` | screen.c:674-697 | A cursor behind the text stays at the end of its logical line when the screen is reflowed to any width |
| `GridPosition.UnwrapInside` | grid.c:1634-1665 | Any other place leads into its logical line, so many cells on from its start, and into a row that has the cell unless the line is too short |
| `GridView.ClearLines` | grid.c:763-783 | Lines in range become empty in the background colour and the line above loses WRAPPED; a range that ends outside, in 32-bit arithmetic, changes nothing |
| `GridView.MoveLines` | grid.c:785-825 | For every line of the grid, where it comes from after a block of lines has moved, which lines are empty, and which have lost WRAPPED |
| `GridView.Clear` | grid.c:723-761 | In a rectangle every column of the screen reads blank in the background colour, and every other column and every other line reads as before; whole lines go through clearing of lines, with 32-bit counts |
| `GridView.InsertLinesRegion` | grid-view.c:149-163 | Inside the region this is list insertion of blank lines, for every count from 1 to the region's height, also where the count of lines to move wraps below zero; which lines lose WRAPPED is given exactly, and outside only the line above does |
| `GridView.DeleteLinesRegion` | grid-view.c:179-193 | Inside the region this is list deletion with blank lines entering at the bottom, for the same counts; exactly the last line kept and the one above the region lose WRAPPED |
| `GridView.DeleteLines` | grid-view.c:165-177 | The same for the region that ends with the screen |
| `GridView.ScrollRegionUp` | grid-view.c:104-123 | Without history, scrolling a region up is deleting its first line |
| `GridView.ScrollRegionDown` | grid-view.c:125-134 | Scrolling a region down is inserting a line at its top |
| `GridView.DeleteCells` | grid-view.c:212-225 | Cells to the right move left and blank cells enter; other cells and lines stay |
| `GridView.InsertLines` | grid-view.c:136-147 | Inserting above the bottom of the screen moves the lines down; of the lines opened only as many become blank as were moved, and the others keep what they had |
| `GridView.InsertLinesBlank` | grid-view.c:136-147 | So this is list insertion of blank lines exactly if the lines in between are blank already, as they need not be when more are inserted than stay |
| `GridView.InsertCells` | grid-view.c:195-210 | Cells to the right move right; all columns opened are blank if and only if no more are opened than stay to their right, or the cursor is in the last column |
| `GridView.DeleteFlags` | grid.c:785-825 | After deleting lines a line has lost WRAPPED exactly if it no longer stands before what followed it |
| `GridView.InsertFlags` | grid.c:785-825 | After inserting lines in a region this is so if and only if as many lines stay as are inserted, or none; otherwise a line inside loses the flag and the last one keeps it |
| `GridView.ScrollFlags` | grid.c:785-825 | After scrolling a region it is so if and only if the region has two lines |
| `GridView.DeleteUndoesInsert` | grid-view.c:149-193 | Deleting undoes inserting for the lines that did not leave the region, and the other way round |
| `GridSgr.StringCellsCode` | grid.c:1061-1176 | The codes emitted between two cells are those of the specification, built by the loops over attributes and colours |
| `GridSgr.NeedsReset` | grid.c:1096-1107 | A reset is needed exactly if a coded attribute goes, or the underscore colour goes back to the default |
| `GridSgr.StringCells` | grid.c:1178-1271 | A span of a line is emitted cell by cell, each after the codes that lead from the cell before |
| `GridSgr.VisibleExact` | grid.c:1210-1232 | Exactly the padding cells are left out, and a cell sends its character, or a tab if it stands for one |
| `GridSgr.CodesReceived` | grid.c:857-1176 | A terminal that shows the last cell's style shows the next one's after its codes, overline aside |
| `GridSgr.CodesExact` | grid.c:1061-1176 | The codes lead to exactly the cell's style if and only if the cell's style can be sent: one kind of underscore, no overline, colours that have a code |
| `GridSgr.RunDrawn` | grid.c:1178-1271 | For a run of cells, what a terminal draws is every cell with its own style if and only if every cell's style can be sent |
| `GridSgr.DifferenceIsEnough` | grid.c:1061-1176 | Sending the difference is the same as a reset and the full style, from any terminal state |
| `GridSgr.OverlineLost` | grid.c:1078-1129 | Overline is printed as a code no terminal understands, so it never arrives |
| `GridSgr.ColonsMeanTheSame` | input.c:2228-2383 | The interpreter takes a colour to mean the same with colons, with or without a colour space, as with semicolons |
| `ControlOutput.UnescapeEscape` | control.c:805-843 | Un-escaping undoes the octal escaping, whatever follows |
| `ControlOutput.EscapeBytes` | control.c:826-841 | The escaping loop, which copies plain runs at once, appends the escaped bytes |
| `ControlHeads.HeadReadBack` | control.c:816-824 | The head of a message with anything after it is read back: the pane, the age exactly for a client with pause-after, and the un-escaped bytes |
| `ControlHeads.StepSent` | control.c:805-922 | Messages are sent only by the writer; each is headed by its pane and, for a client with pause-after, by the age of the block it begins with |
| `ControlHeads.ClientReads` | control.c:805-922 | In every run, what a client reads from the text of its messages of a pane that is on and not paused is exactly the stream from where the pane was started to its offset |
| `ControlQueue.TakeFacts` | control.c:898-906 | Taking bytes from a pane's first block changes no other pane's blocks, no line and no account but the pane's |
| `ControlInvariant.WriteLineOk` | control.c:423-483 | A line joins the accepted ones, sent or queued, unless the client is too far behind or being discarded; every invariant is kept, and at most queued output is dropped |
| `ControlSteps.FlushLinesOk` | control.c:786-803 | After flushing, no line stands before the first output block; order and the reply account are kept |
| `ControlSteps.NotifyOk` | control.c:550-580 | A notification is written at once or deferred, and none is lost, repeated or put inside a guard block |
| `ControlSteps.GuardClose` | control.c:485-548 | The guard that closes the outermost block is followed at once by the deferred notifications, each once and in order, unless the client is being discarded |
| `ControlSteps.DoPauseOk` | control.c:390-402 | Pausing drops what the pane has queued and notifies, keeping every invariant |
| `ControlSteps.SetOffOk` | control.c:362-373 | Turning a pane off keeps every invariant |
| `ControlSteps.Restart` | control.c:348-388 | A pane that was off or paused and starts again at the pane's own offset keeps every invariant |
| `ControlSteps.ResetPaneOk` | control.c:404-421 | Resetting a pane whose buffer was replaced keeps every invariant |
| `ControlSteps.SetNoOutputOk` | control.c:306-321 | Resetting all offsets keeps every invariant |
| `ControlSteps.WriteOutputOk` | control.c:617-669 | New pane output, be it queued, ignored, or the end of a pane that is too old, keeps every invariant, among them the account of the pane's bytes |
| `ControlWriter.WriteChunksOk` | control.c:880-921 | The loop that writes one pane keeps every invariant and the account of its bytes, and leaves less queued unless it stops; when it finds too little data is said exactly by WritePendingFatal |
| `ControlWriter.PassOk` | control.c:947-955 | A pass over the pending panes leaves less work, unless the buffer is full |
| `ControlWriter.WriteLoop` | control.c:924-959 | The writer loop ends, by a measure of queued bytes and pending panes, with the buffer full or no pane pending |
| `ControlRun.StepOk` | control.c:306-1048 | Every event keeps every invariant |
| `ControlRun.LinesKeepOrder` | control.c:453-483 | In every run, what was accepted is what was sent followed by what is queued: lines leave in order, each once |
| `ControlRun.LinesNeverOvertake` | control.c:786-803 | In every run, when a line has left, every output block queued before it is gone, and nothing of such a block is sent later |
| `ControlRun.PaneOutputIsExact` | control.c:617-922 | For a pane that is on and not paused of a client that is not exiting, the un-escaped payloads are exactly the stream from where the pane was started to its offset |
| `ControlRun.AccountsAreExact` | control.c:168-184 | In every run, the reply account is the length of the queued lines plus newlines, the pending count is the length of the pending list, and every pane with blocks is active and pending |
| `ControlRun.NotificationsAreKept` | control.c:528-580 | In every run, a notification is accepted only where no guard block is open, and those asked for are those accepted followed by those deferred, unless the client is being discarded |
| `ControlShortage.WritePendingFatal` | control.c:805-922 | Writing one pane runs out of data if and only if it is not gone and its offset plus the least of the limit and its queued bytes lies beyond its stream, provided none of its blocks is too old |
| `ControlAccounts.DebtIsShortage` | control.c:617-922 | In every run, the queue promises more than a pane's stream holds exactly where the events say so: output reported after the exit flag while blocks were queued, those blocks not all gone since, and not as many new bytes |
| `ControlAccounts.FatalIsShort` | control.c:805-959 | A run turns fatal only by letting the writer run while a pane that is not gone is short by its events; with no block too old and room left in the buffer, if and only if one is |
| `ControlAccounts.NeverShortOfData` | control.c:826-828 | If the client is only told to exit by dropping its output, the writer never finds too little data |
| `ControlAccounts.ExitFlagRunsShort` | control.c:686-694 | An input that runs short: the exit flag is set with output queued, and the pane writes again |
| `ControlAccounts.QueuedIsExact` | control.c:617-922 | For a pane that is on and not paused of a client that is not exiting, queued minus offset is the sum of its blocks if and only if the writer has not emptied its queue because it was gone, since it was last started |
| `ControlAccounts.GoneRunLosesTrack` | control.c:869-878 | An input where the two differ: data, output, and a writer that finds the pane gone |
| `ControlEngine.ControlState.DiscardBlocks` | control.c:278-289 | Freeing the blocks of the pane's own list one by one takes exactly the pane's blocks out of the queue and leaves its list empty |
| `ControlEngine.ControlState.DiscardAll` | control.c:1038-1048 | Emptying every pane's list leaves exactly the lines in the queue |
| `ControlEngine.ControlState.WriteOneLine` | control.c:423-483 | The line is refused, written to the buffer or stored at the end of the queue with its bytes counted, as the fields say; the object then stands for the state whose order and accounts WriteLineOk and LinesKeepOrder prove |
| `ControlEngine.ControlState.FlushDeferredLines` | control.c:485-497 | The loop that takes deferred lines off their list and writes each computes the recursion of the model |
| `ControlEngine.ControlState.FlushAllBlocks` | control.c:786-803 | The loop that writes and frees the lines at the head of the queue stops at the first output block and touches no pane |
| `ControlEngine.ControlState.WritePaneOutput` | control.c:617-669 | From the pane's own offsets, flags and first block: new bytes are ignored, or the pane is too old, or a block joins both lists and the pane the pending list; the object then stands for the state of which WriteOutputOk proves the invariant |
| `ControlEngine.ControlState.CheckAge` | control.c:582-614 | The age of the first block on the pane's list decides whether the pane is paused or the client told to exit |
| `ControlEngine.ControlState.AppendData` | control.c:805-843 | The message grows by the escaped bytes of the stream at the pane's offset |
| `ControlEngine.ControlState.WritePaneChunks` | control.c:880-921 | The loop over the first block of the pane's own list, with the check of its age, the escaping, the freeing in both lists and the lines it lets go, computes the recursion of the model |
| `ControlEngine.ControlState.WriteCallback` | control.c:924-959 | Both loops over the object's own counters and pending list compute the model's callback, and end |
| `ControlEngine.ControlState.Handle` | control.c:306-1048 | Each event takes the object to the state of the model's step, with every pane's list equal to its part of the queue |
| `ControlEngine.Serve` | control.c:306-1048 | An object that is given any events stands for the state every theorem about runs speaks of |
| `ControlAge.OutputTold` | control.c:582-669 | New output of a pane that is not ignored: if a first block is too old, a client with pause-after has the pane paused, its blocks dropped and one notification asked for, and exits only if that is refused, and any other client is told to exit with no output left; if not, one block takes all new bytes and nothing is switched |
| `ControlAge.WritePendingTold` | control.c:860-922 | Writing one pane gives it up in the same way exactly if a block within reach of the limit is too old, unless the data runs out first, and otherwise switches and asks for nothing |
| `ControlSwitch.StepEffect` | control.c:306-1048 | What every event does to the panes that are on, off or paused, to the notifications asked for and to the exit flag, said without the functions of the model |
| `ControlSwitch.ExitIsEarned` | control.c:423-614 | In every run, a client is told to exit only if the server ends it, or a line was refused, or it has no pause-after and a pane fell behind |
| `ControlSwitch.PausesAreAnnounced` | control.c:375-402 | In every run that does not forget the panes, a pane is paused exactly if the client was told so once more than it was told that the pane goes on |
| `ControlBuffer.BufferIsExact` | control.c:786-858 | In every run, the buffer holds exactly what was sent and has not gone to the client |
| `ControlBuffer.RepliesAreBounded` | control.c:423-451 | In every run, less than 64 MiB of lines wait in the queue |
| `ControlBuffer.RefusedExactly` | control.c:423-483 | A line is refused exactly if the buffer, the lines queued and the line itself come to 64 MiB, or one was refused before |
| `ControlBuffer.LimitIsFair` | control.c:936-946 | The limit shares a third of the room among the pending panes, and is at least 32 bytes |
| `ControlBuffer.FullBufferWaits` | control.c:936-949 | With a full buffer nothing of any pane is written |
| `ControlBuffer.GivenUpSendsNothing` | control.c:880-886 | A message under construction is dropped with the pane that is given up: unless a line waits in the queue, nothing is sent |
| `Bytes.StrtoulDecimal` | image-sixel.c:204-208 | A decimal number is read back as it was printed |
| `Sixel.SetPixelOk` | image-sixel.c:70-122 | Setting a pixel within the limits succeeds and changes that pixel only, however lines and image grow |
| `SixelText.WriteColumnsOk` | image-sixel.c:124-136 | Writing columns of sixels draws exactly their bits in the current colour |
| `SixelText.ReadOps` | image-sixel.c:138-358 | The parser reads the text of operations one by one and applies them |
| `SixelPrint.GatherColumn` | image-sixel.c:533-545 | The first inner loop collects the six colours of a column and each colour's bits |
| `SixelPrint.CompressColours` | image-sixel.c:525-575 | After a band, every chunk's text with its open run draws exactly the colour's columns, and the active colours are those with a pixel in the band |
| `SixelRoundTrip.DrawColour` | image-sixel.c:631-643 | The text of one active colour draws its pixels of the band over what is there, and nothing else |
| `SixelRoundTrip.PrintBand` | image-sixel.c:627-647 | After a band, the rows down to its end are drawn and no other |
| `SixelRoundTrip.Print` | image-sixel.c:577-663 | Parsing the printed text gives back every palette entry and every pixel below the width of any printable image, and so what sixel_get_pixel gives everywhere if and only if no pixel beyond the width has a colour; it fails exactly if no pixel below the width has one and there is no raster size |
| `SixelRoundTrip.WiderThanItsWidth` | image-sixel.c:97-189 | An input with such pixels: a run of five columns and then a raster attribute of two |
| `SixelParser.ParseText` | image-sixel.c:295-358 | The parsing loop computes the parse of which ParsePieces says for every text of commands, well formed or not, what comes of it |
| `SixelGrammar.ParsePieces` | image-sixel.c:138-358 | Any text of operations, skipped bytes, stray bytes, and attributes, registers and repeats with any numbers is parsed to what its pieces mean one after the other, and refused exactly at the first that has no meaning, or if nothing was drawn |
| `SixelGrammar.SkippedBytes` | image-sixel.c:337-339 | Control bytes and bytes from 0x80 between operations never change the image |
| `SixelParser.ParseRepeatLoop` | image-sixel.c:254-293 | The repeat loops compute the specified parse of a repeat |
| `SixelParser.ParsedIsKept` | image-sixel.c:191-358 | Every image the parser returns, for any input, keeps its registers, pixels, palette words and sizes in range, and so can be printed |
| `SixelSnapshot.Validate` | image-sixel.c:840-873 | The checking loops accept exactly the valid objects and count their pixels |
| `SixelSnapshot.Encode` | image-sixel.c:875-900 | The encoder refuses images beyond the caps and encodes the others row by row |
| `SixelSnapshot.Decode` | image-sixel.c:902-924 | The decoder builds the specified image from every valid object and refuses the others |
| `SixelSnapshot.EncodedIsValid` | image-sixel.c:840-900 | What is encoded from a parsed image is accepted if and only if its second parameter fits an int |
| `SixelSnapshot.DecodeEncode` | image-sixel.c:875-924 | Decoding it gives the same size, palette, parameters and pixels below the width, and so what sixel_get_pixel gives everywhere if and only if no pixel beyond the width has a colour |
| `SixelSnapshot.EncodeDecode` | image-sixel.c:840-924 | Encoding what was decoded from a valid object gives the object back |
| `CmdQueue.Queue.Append` | cmd-queue.c:309-331 | Appended items stand after everything that is queued; what will be fired is what would have been, followed by what sequential execution leaves of the new items |
| `CmdQueue.Queue.InsertAfter` | cmd-queue.c:333-359 | A chain stands in order right after the item it was inserted after |
| `CmdQueue.Queue.RemoveGroup` | cmd-queue.c:444-459 | Exactly the later items of the item's group go, none if the group is 0 |
| `CmdQueue.Queue.Continue` | cmd-queue.c:421-426 | Continuing a waiting item does not change the order of execution |
| `CmdQueue.Queue.Next` | cmd-queue.c:715-795 | Firing items until one waits never changes the sequential order, of which TurnsExact says what it fires; a waiting item stops everything behind it |
| `CmdQueue.Queue.Perform` | cmd-queue.c:309-795 | For appends, runs of the queue and continuations in any order, what will have been fired is the order at the start followed by what every append gains in turn |
| `CmdQueue.Queue.RunToEnd` | cmd-queue.c:715-795 | A queue that is run and continued until it is empty has fired exactly the sequential order |
| `CmdQueue.ExecConcat` | cmd-queue.c:715-795 | Sequential execution of two lists is that of the first and then that of what the first leaves of the second |
| `CmdQueue.ExecFirst` | cmd-queue.c:750-785 | What an item brings runs right after it and before the rest |
| `CmdQueue.FiredOnce` | cmd-queue.c:751-785 | Nothing fires that was not queued or inserted, and nothing fires twice |
| `CmdQueue.ErrorStopsGroup` | cmd-queue.c:760-769 | After a command of a group fails, no item of that group queued behind it ever fires, nor anything it would have brought |
| `CmdTurns.TurnsExact` | cmd-queue.c:715-795 | Sequential execution fires, in order, every item that takes its turn, but those of a group of which a command failed after they were queued; every number due was fired, or belongs to an item that was not or to what that item would have brought |
| `CmdTurns.AllFired` | cmd-queue.c:715-795 | If no command with a group fails, everything queued, inserted and given to waiting items is fired, each number as often as it is due |
| `CmdTurns.MissingHasReason` | cmd-queue.c:760-769 | A number that is due and not fired belongs to an item, or to what one would have brought, of whose group a command failed before the item's turn |
| `Events.Registry.AddSink` | events.c:64-78 | A sink is registered last, with a new generation |
| `Events.Registry.RemoveSink` | events.c:80-90 | A live sink is removed, once: marked dead while something is being dispatched, else freed; for any other nothing changes |
| `Events.Registry.FireEvent` | events.c:92-114 | Under any nesting, a dispatch calls exactly the sinks with the name that existed at its start and had not been removed when their turn came, each at that moment; no sink is freed while a dispatch is active, and the outermost one leaves no dead sink |
| `Events.Registry.FreeDead` | events.c:52-62 | Exactly the dead sinks go |
| `Events.ExpectedExact` | events.c:92-114 | Said of the trace alone: the calls are in order of registration and each at most once, and a sink of the start is called if and only if it has the name and was not removed before the dispatch went past it |
| `WaitFor.WaitChannels.Signal` | cmd-wait-for.c:379-404 | A signal continues all waiters, or is kept for the next one; no queued item is dropped with the channel |
| `WaitFor.SignalKept` | cmd-wait-for.c:379-433 | The next item passes after a signal if and only if the signal found no waiter and was the first, or the channel was woken and is locked; a second signal on an unlocked channel is the input that loses both |
| `WaitFor.SignalsNoticed` | cmd-wait-for.c:379-433 | Of n signals on an unlocked channel without waiters the next item notices an odd number only; on a locked one any |
| `WaitFor.WaitUsesSignal` | cmd-wait-for.c:379-433 | After one signal on an idle channel the first wait passes, and the second waits if and only if the channel is not locked |
| `WaitFor.LockTurns` | cmd-wait-for.c:435-481 | A free lock is taken at once and given back; a held one goes to the item that asked next and stays held |
| `WaitFor.WokeExact` | cmd-wait-for.c:347-377 | The item a client is woken from is its first among the waiters, or else its first among the lockers, and all others stay |
| `WaitFor.WaitChannels.WaitOn` | cmd-wait-for.c:406-433 | An item waits unless the channel was woken; without a client it fails |
| `WaitFor.WaitChannels.Lock` | cmd-wait-for.c:435-458 | The lock is granted if free and queued for otherwise, and the history records just that |
| `WaitFor.WaitChannels.Unlock` | cmd-wait-for.c:460-481 | The lock passes to the item that has waited longest, which is continued, or becomes free; grants minus releases stay equal to the locked flag |
| `WaitFor.WaitChannels.Remove` | cmd-wait-for.c:134-148 | Removing a channel never drops a queued item |
| `WaitFor.WaitChannels.Wake` | cmd-wait-for.c:347-377 | One item of a client is continued, of the waiters first |
| `WaitFor.WaitChannels.ClientLost` | cmd-wait-for.c:483-515 | All items of a lost client are continued, on every channel, and no others |
| `WaitFor.WaitChannels.Flush` | cmd-wait-for.c:517-545 | Every item is continued and no channel is left |
| `WaitFor.Enqueued` | cmd-wait-for.c:428-451 | Queueing an item keeps the account of items told to wait, and the order of the lockers |
| `WaitFor.Granted` | cmd-wait-for.c:453-457 | Granting the lock keeps one holder at a time |
| `WaitFor.Take` | cmd-wait-for.c:498-511 | Taking a client's items off a list one by one leaves exactly the others, in order |
| `Fuzzy.Forward` | fuzzy.c:312-323 | The first pass finds the embedding that is earliest at every place, and fails exactly if there is none |
| `Fuzzy.Backward` | fuzzy.c:325-345 | The second pass always succeeds, never steps below index 0, keeps the end, and no embedding with that end is later anywhere |
| `Fuzzy.MatchFuzzy` | fuzzy.c:297-353 | A token matches if and only if it is a subsequence; the marked places are the tightest embedding, and the score is theirs |
| `Fuzzy.MatchExact` | fuzzy.c:380-433 | The first of the best-scoring places that the anchors allow is found, if there is any |
| `Fuzzy.MatchTerm` | fuzzy.c:473-498 | A positive term matches if it holds and is then marked; an inverse term matches if it does not hold and marks nothing |
| `Fuzzy.MatchGroup` | fuzzy.c:500-526 | A group matches if and only if it has terms, all can be parsed, all positive ones hold and no inverse one does; then every positive term has its best places, exactly those are marked, and the score is the sum of what they are worth |
| `Fuzzy.ScorePositions` | fuzzy.c:264-295 | The loop computes what a match is worth by its places alone: its start, six for every character that follows the one before, eight for every other one after a boundary, and one less for every character of the text that lies between first and last place unmatched |
| `Fuzzy.RunIsBest` | fuzzy.c:264-295 | Of all matches that start at a place, one in a single run is worth the most, those aside that step over exactly one boundary |
| `Fuzzy.HopIsMost` | fuzzy.c:264-295 | Such a step is worth one more than a run, and no match more than one that takes it every time |
| `Fuzzy.EqualExact` | fuzzy.c:93-106 | Characters are equal if they are the same or, folding case, the two cases of one ASCII letter, and this is symmetric and transitive |
| `Fuzzy.StartIsWorth` | fuzzy.c:264-295 | A start at the beginning is the best; elsewhere a boundary before it is worth eight and every column costs one, up to ten |
| `Fuzzy.ExactIsWorth` | fuzzy.c:355-378 | An exact match is worth what the same run is worth as a fuzzy match and 1006 more, with 200 or 100 for an anchor, and without any the text behind costs one each |
| `Fuzzy.ExactIsFuzzy` | fuzzy.c:297-433 | A group still matches when the anchors and quotes of its positive terms are dropped |
| `Fuzzy.Trim` | fuzzy.c:620-627 | Trimming stops as soon as the parts fit, the centre giving way before the right and the right before the left |
| `Fuzzy.LayOut` | fuzzy.c:612-646 | The layout arithmetic never goes below zero; the left, centre and right parts lie side by side within the width, the centre with the same room on both sides up to a column, and so the absolute part and what is cut off the centre's text |
| `Hyperlinks.ComparatorIsOrder` | hyperlinks.c:78-104 | The comparator is a total order whose classes are named pairs and single anonymous links |
| `Hyperlinks.Store.Put` | hyperlinks.c:145-195 | A named pair that is there gets its old number back, anything else a number the set never gave out; the oldest link of all goes when the limit is reached |
| `Hyperlinks.Store.Get` | hyperlinks.c:197-215 | A link is found by its number exactly if the set has it |
| `Hyperlinks.Store.Remove` | hyperlinks.c:125-143 | A link leaves both trees and, unless the set is detached, the global list |
| `Hyperlinks.Store.Evict` | hyperlinks.c:191-192 | The first link of the global list goes, and nothing else |
| `Hyperlinks.Store.Reset` | hyperlinks.c:239-247 | A reset set has no links and keeps its next number |
| `Hyperlinks.Store.Free` | hyperlinks.c:249-257 | The last reference takes the set and its links with it |
| `Hyperlinks.InsertOk` | hyperlinks.c:179-187 | A new link enters both trees under a number not used before |
| `Hyperlinks.DropOk` | hyperlinks.c:135-142 | A link that goes leaves both trees holding the same links |
| `Hyperlinks.SnapshotHas` | hyperlinks.c:309-323 | The binary search finds a number exactly if the table has it |
| `Hyperlinks.SnapshotEncode` | hyperlinks.c:325-341 | The links are encoded in ascending order, or refused |
| `Hyperlinks.EncodedIsOk` | hyperlinks.c:285-341 | A set is encoded exactly if its links in ascending order are a table that is accepted |
| `Hyperlinks.SnapshotDecode` | hyperlinks.c:343-365 | Both trees of a decoded set hold exactly the rows of the table |
| `Hyperlinks.Store.Activate` | hyperlinks.c:367-381 | The links of an activated set join the global list in ascending order; of a list that gets too long exactly the oldest links go, down to the limit, and no other link changes or goes |

## Left out

- GridStore.Grid.SetCells: not for cells with the TAB flag, whose glyph is remade for every byte.
- GridReflow.ReflowGrid: the adjustment of `hscrolled`, line times and OSC 133 data are not modelled; the history size is only what the line count gives.
- ReflowLayout.ReflowIsLayout: the shape of the rows is claimed for cells one column wide and a last line that is not WRAPPED; that no cell is lost and when the logical lines survive is proved for all widths and flags (`ReflowKeepsCells`, `LinesSurvive`).
- ReflowLayout.ReflowCanonical: for cells one column wide and no gaps, as the layout theorem.
- ReflowLayout.ReflowNoBetter: for cells one column wide; `LinesSurvive` counts the cuts for all widths.
- ReflowLayout.ReflowTwice: for cells one column wide and no gaps, as the layout theorem.
- GridPosition.PositionSurvivesReflow: for grids without gaps and with fewer than UINT_MAX cells, since UINT_MAX stands for the end of a line.
- GridView.ScrollRegionUp: only the branch for a grid that keeps no history; collecting and trimming history is not modelled.
- GridSgr.StringCells: hyperlink escapes, trimming of trailing spaces and backslash escapes are not modelled; the interpreter is the one of input.c, restricted to the codes that are emitted.
- GridCell.ReadBackIff: the character codec (`utf8_from_data`, `utf8_to_data`) is opaque, so a character in a slot reads back as it was given.
- ControlModel: a pane's buffer is a stream that only grows; dropping data that all clients have used, subscriptions, window sizes and reading commands are not modelled, nor are suspended or dead clients.
- ControlEngine.ControlState.WriteCallback: the clock is read once for each event, and which panes are closed or not in the session is a parameter of the event.
- ControlEngine.ControlState: a pane is a record in a map and a block a value on two lists, told apart by its number, where the code has pointers; what is written is a sequence of lines and messages with their lengths.
- ControlRun.StepOk: shutting down (`control_discard_all`, `control_stop`) is not an event.
- SixelParser.ParseText: attributes and colours are read by the functions that specify them; only the writing, repeating and main loops are loops here.
- Sixel.Parse: the parser's place is not wrapped at 32 bits, which takes more than 700 million bytes of input to reach, and line arrays that grow in place are values.
- SixelRoundTrip.Print: scaling, logging, conversion to a screen and the scan for dimensions are not modelled; buffers that double are sequences.
- SixelSnapshot.Encode: the msgpack encoder itself is not modelled; objects are trees.
- CmdQueue.Queue.InsertAfter: insertion after an item other than the running or waiting one is not part of the runs; running commands that never end are not covered, since items are finite trees.
- CmdQueue.Queue: reference counts, client flags, target lookup, hooks and messages are not modelled.
- Events.Registry.FireEvent: payloads are not modelled, and a run of callbacks is finite.
- WaitFor.WaitChannels.Unlock: mutual exclusion and order are claimed for locks, unlocks, waits and signals only; waking by client, client loss and flushing continue lockers without granting the lock.
- WaitFor: waiting for events (`-E`) and listing are not modelled; names are whole strings.
- Fuzzy.MatchGroup: splitting a pattern into groups and terms, scanning the text for styles and decoding UTF-8 are not modelled; choosing the best group and setting the bits of the mask are left out as easy.
- Hyperlinks.Store.Put: text is what `utf8_stravis` made of it, the set must not be detached, and numbers are not wrapped at 32 bits.
- Hyperlinks.EncodedIsOk: what is accepted is a predicate on tables, not the loops that check it.
- Hyperlinks.SnapshotEncode: the checks of text and object bounds and the sort that finds repeated pairs are not modelled; the accepted tables are stated as a predicate.
- Hyperlinks.Store.Activate: external IDs are not modelled.
- Not modelled at all: terminals, sockets, events of libevent, `format-draw.c`, `grid-reader.c`, `environ.c`, options, target lookup and the single commands.
