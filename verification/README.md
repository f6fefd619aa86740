# Model of the terminal, search, room server, file search and stream code

The project models the stateful core of the repository and proves what its parts promise.

* **Terminal emulator** (`Cells`, `RowEdits`, `Screens`, `Emulator`, `ScreenLaws`, `LongText`, `RowLaws`,
  `EditLaws`, `Rendering`).
  `Emulator.Terminal` is the object edited in place; `Screens` says what each operation does to the
  screen as a value. Each method is proved to do what the function of the same name says, and
  `ScreenLaws` holds what follows for whole runs. `RowLaws` and `EditLaws` say in terms of rows and
  cells what the events do.
* **Host cursor tracker** (`HostTracker`, `Decimal`): the light emulator that answers cursor
  requests, and how far it follows the real one.
* **Search tree and its driver** (`SearchTree`, `Selection`, `PendingSearch`, `MctsClasses` in
  `Mcts.dfy`, `ReportLaws`, `SearchRuns`, `Widening`, `Persistence`, `TreeShape`).
* **Room server** (`Rooms`, `RoomServer`, `Mailboxes`, `WsRuntime`, `RoomRuns`, `RoomViews`,
  `ServerLaws`, `ClientViews`, `Misorders`, `RateLimits`). A run is a trace of steps of many tasks: what a
  task does while it holds the lock, and, one by one, the messages it enqueues after it has released it.
* **Gitignore-aware find** (`Gitignore`, `FindFiles`, `FindLaws`).
* **Byte and sample streams** (`Transcript`, `StreamBridge`, `AudioVideo`).

Where a promise does not hold for every input, the project gives the input and the exact condition:

* a wide character on a terminal of one column is written past the end of its row
  (`ScreenLaws.WideWriteInRangeIff`);
* an accent at the left edge of the upper margin joins the row above, outside the scroll region
  (`EditLaws.PrintStaysInsideIff`);
* the tracker stands with the emulator exactly as long as each event meets its guard
  (`HostTracker.StepAgreesIff`). The program gives the two different sizes, so they part at the
  right edge (`HostTracker.ProgramSizesPart`); at equal sizes they part on a reverse index and on
  misjudged widths (`HostTracker.ReverseIndexParts`, `HostTracker.CombiningAccentParts`);
* a refused reward that is not finite leaves the new child in the tree. The widening bound counts
  such children apart (`Widening.ProgressiveWideningBound`); counted with the others, enough of them
  break it for every configuration (`Widening.RefusedReportsEscapeTheBound`);
* loading accepts a child listed twice and cycles away from the root
  (`Persistence.DuplicateChildIsLoadable`, `Persistence.DetachedCycleIsLoadable`); what it accepts
  is a tree exactly if the root alone has no parent and no node is its own ancestor
  (`TreeShape.IsTreeIff`), and lists no child twice exactly by the count of `TreeShape.NoTwinsIff`;
* messages are enqueued after the lock is released, so they may overtake each other. Clients wait for
  their greeting and give up on other news and on signals before it. In any order a client sees who
  is there exactly under the condition of `RoomViews.ViewRightIff`; in lock order exactly if no signal
  overtook its greeting (`ClientViews.OrderedRunsShowMembers`). `Misorders` has a run for each way in
  which it goes wrong: the greeting overtaken, a farewell that comes late, and, in lock order too, a
  zookeeper that signals itself;
* a transcript cursor past the head goes back (`Transcript.CursorAdvancesIff`);
* I420 planes of a picture with an odd side are cut in the wrong places
  (`AudioVideo.PictureRecoveredIff`, `AudioVideo.OddPictureIsCut`).

Verify with `dafny verify dfyconfig.toml`.

## Model

| member | source | states |
|---|---|---|
| ScreenLaws.EveryRunIsSafe | mitb-box/src/terminal.rs:140-181 | after any accepted output on a fresh terminal of any size the grid is rows by cols, each row has its wide characters paired with their continuations, the cursor is on the screen and the scroll region is ordered and on it |
| ScreenLaws.WideWriteInRangeIff | mitb-box/src/terminal.rs:240-282 | writing a wide character stays inside its row, from every state, exactly if the terminal has two columns or more; one column is the only input outside the safety theorem |
| ScreenLaws.AlternateScreenRoundTrip | mitb-box/src/terminal.rs:560-609 | from the main screen: enter, any events that do not reset mode 1049 (new margins, full reset and entering again included), leave, is the identity on the whole state |
| ScreenLaws.RunStaysAlternate | mitb-box/src/terminal.rs:550-623 | nothing but resetting mode 1049 changes or drops the saved main screen |
| ScreenLaws.SwitchedOnce | mitb-box/src/terminal.rs:550-558 | naming mode 1049 several times in one sequence, or among others, acts as naming it once |
| ScreenLaws.DeleteUndoesInsert | mitb-box/src/terminal.rs:471-503 | deleting n lines after inserting n restores every row except those pushed past the bottom margin, which are blank |
| ScreenLaws.InsertLinesScrolls | mitb-box/src/terminal.rs:471-503 | inserting and deleting lines is scrolling with the top margin moved to the cursor row; on the bottom margin it clears that row; outside the region it does nothing |
| ScreenLaws.TextIsShown | mitb-box/src/terminal.rs:240-331 | over whatever was in the row before: text with room left before the right margin ends up cell by cell where it was printed; left of it everything stays but for the left half of a wide character on whose right half the cursor stood, which becomes a blank; all other rows are untouched |
| LongText.LongTextIsShown | mitb-box/src/terminal.rs:222-282 | text of any length, narrow and wide characters mixed, under any margins and with the cursor between them, on rows blank from the cursor to the lower margin: it wraps and scrolls, and the rows between the margins show exactly the last rows of the lines it lays out, cursor behind the last character; all rows outside stay |
| LongText.BlankFromCursorDisplays | mitb-box/src/terminal.rs:183-199 | every screen whose cursor is between the margins, with nothing from it down to the lower one, is one to which that applies |
| LongText.LaidHoldsText | mitb-box/src/terminal.rs:240-282 | those lines one after the other hold the cells of the text, none lost and none added |
| LongText.LaidFits | mitb-box/src/terminal.rs:253-281 | every line that the text finishes is full, or one cell short just before a wide character; the last one always has room |
| LongText.NewTerminalDisplays | mitb-box/src/terminal.rs:140-163 | a new terminal shows an empty paper, so that all this applies to it |
| LongText.LinefeedShows | mitb-box/src/terminal.rs:222-230 | a linefeed at the end of a line shows the paper with one more line between the margins, scrolled or not |
| RowLaws.LinefeedRows | mitb-box/src/terminal.rs:222-230 | row by row: at the lower margin each row between the margins becomes the one below it, the last one blank, all others stay; on the last row of the screen below the margins the whole screen does so; elsewhere only the cursor moves |
| RowLaws.ReverseIndexRows | mitb-box/src/terminal.rs:232-238 | at the upper margin each row between the margins becomes the one above it, the first one blank; elsewhere only the cursor moves, up, as far as there are rows |
| RowLaws.ScrollRows | mitb-box/src/terminal.rs:815-822 | scrolling n rows up or down moves the rows between the margins by n, blank ones in their place, and no others |
| RowLaws.RowsOutsideStay | mitb-box/src/terminal.rs:222-535 | over every run with the cursor between the margins, the rows outside them are never touched |
| RowLaws.StepSameOutside | mitb-box/src/terminal.rs:625-863 | and only a motion or a restored position can take the cursor out |
| EditLaws.PrintStaysInsideIff | mitb-box/src/terminal.rs:284-308 | printing between the margins leaves the rows outside exactly if it is not an accent at the left edge of the upper margin with a row above it to join |
| ScreenLaws.SaveThenRestore | mitb-box/src/terminal.rs:847-863 | saving the cursor and restoring it returns to the same position over any events between them that do not save again, reset, or switch screens |
| Cells.SanitizedIsPaired | mitb-box/src/terminal.rs:333-358 | the repair pass makes every row whatever a properly paired one of the same length |
| Cells.SanitizedIdentityIffPaired | mitb-box/src/terminal.rs:333-358 | the repair pass changes nothing exactly on rows that are already paired, and doing it twice is doing it once |
| Cells.OverwrittenIsPaired | mitb-box/src/terminal.rs:240-331 | writing a cell over either half of a wide character, or a wide one over two, leaves a paired row |
| Cells.ClearThenWriteOverwrites | mitb-box/src/terminal.rs:263-331 | clearing the overlapped cells one after the other and then writing is one step that blanks exactly the orphaned halves |
| Cells.WithCombiningIsPaired | mitb-box/src/terminal.rs:284-308 | a combining character may join any base cell without breaking a pair |
| RowEdits.ClearOverlappedCell | mitb-box/src/terminal.rs:310-331 | the in-row edit that blanks the other half of a wide character |
| RowEdits.SanitizeRow | mitb-box/src/terminal.rs:333-358 | the one pass with its look-ahead and write-behind gives the cell-wise repair of the original row, and a paired row |
| RowEdits.ClearRange | mitb-box/src/terminal.rs:360-377 | the loop blanks exactly the range, cut at the row end, and repairs |
| RowEdits.InsertBlanks | mitb-box/src/terminal.rs:407-429 | the right-to-left copying loop shifts cells right, drops those past the end, and repairs |
| RowEdits.DeleteCells | mitb-box/src/terminal.rs:431-453 | the left-to-right copying loop shifts cells left, fills with blanks, and repairs |
| RowEdits.EraseCells | mitb-box/src/terminal.rs:455-469 | erases count cells, cut at the row end, and repairs |
| RowEdits.WriteCell | mitb-box/src/terminal.rs:263-275 | writes the lead and, for a wide character, its continuation, and leaves a paired row |
| RowEdits.FindBase | mitb-box/src/terminal.rs:299-307 | the scan from the right end finds the last cell that is not a continuation |
| EditLaws.ErasedCells | mitb-box/src/terminal.rs:333-377 | cell by cell what erasing a range leaves: blanks in the style inside, a wide character that reaches in from the left whole, one that reaches out without its half, all else as it was |
| EditLaws.InsertedCells | mitb-box/src/terminal.rs:407-429 | cell by cell where the cells come from after inserting, and which halves are lost |
| EditLaws.DeletedCells | mitb-box/src/terminal.rs:431-453 | the same for deleting |
| EditLaws.EraseInLineLaw | mitb-box/src/terminal.rs:783-806 | which cells of which row each erasing sequence of the line erases |
| EditLaws.EraseInDisplayLaw | mitb-box/src/terminal.rs:379-405 | which rows and cells each erasing sequence of the display clears, and that all others stay |
| EditLaws.InsertDeleteLaw | mitb-box/src/terminal.rs:407-453 | inserting and deleting characters: every cell of the row of the cursor, and that the other rows stay |
| EditLaws.CombiningLaw | mitb-box/src/terminal.rs:284-308 | an accent is added to the text of the character before the cursor, at the end of the row above if the cursor is in the first column, and nowhere on the first cell of all |
| EditLaws.StyleLaw | mitb-box/src/terminal.rs:698-772 | which number selects what, and that none resets |
| EditLaws.StylesFollow | mitb-box/src/terminal.rs:698-772 | several in one sequence act one after the other |
| EditLaws.ExtendedColours | mitb-box/src/terminal.rs:698-772 | the extended colours take the numbers behind them, red, green and blue cut at 255 |
| EditLaws.EmptyScreens | mitb-box/src/terminal.rs:560-623 | the alternate screen and a reset one are empty, margins wide open, cursor and saved cursor at the origin; entering keeps the main screen, a reset forgets the style |
| EditLaws.MarginsLaw | mitb-box/src/terminal.rs:537-548 | valid margins are those counted from one with the first above the second, zeroes standing for the first row and the last; all others open them wide; the cursor goes to the upper one |
| EditLaws.MotionsLaw | mitb-box/src/terminal.rs:655-697 | where each relative motion ends, at the edges too |
| EditLaws.PositionsLaw | mitb-box/src/terminal.rs:655-697 | where each absolute one does |
| EditLaws.ControlsLaw | mitb-box/src/terminal.rs:630-645 | carriage return, backspace and tab, and saving and restoring the cursor in both spellings |
| Screens.ScrolledUp | mitb-box/src/terminal.rs:505-519 | scrolling up is a shift of the region with blank rows behind it, rows outside the margins unchanged |
| Screens.ScrolledDown | mitb-box/src/terminal.rs:521-535 | the same downwards |
| Screens.ScrolledUpComposes | mitb-box/src/terminal.rs:505-519 | scrolling n and then m is scrolling n + m, counts cut at the height of the region |
| Screens.ScrolledDownComposes | mitb-box/src/terminal.rs:521-535 | the same downwards |
| Screens.PutChar | mitb-box/src/terminal.rs:240-282 | printing keeps the invariant, size and saved state; wide characters wrap early |
| Screens.AppendCombining | mitb-box/src/terminal.rs:284-308 | a combining character changes the buffer only |
| Screens.SetScrollRegion | mitb-box/src/terminal.rs:537-548 | invalid margins mean the whole screen; the invariant is kept |
| Screens.EnterAlternate | mitb-box/src/terminal.rs:560-586 | entering keeps the invariant for the new and for the saved screen |
| Screens.LeaveAlternate | mitb-box/src/terminal.rs:588-609 | leaving keeps the invariant |
| Screens.Reset | mitb-box/src/terminal.rs:611-623 | a reset keeps the invariant and the saved main screen |
| Screens.Step | mitb-box/src/terminal.rs:625-863 | every event keeps the invariant and the dimensions |
| Emulator.Terminal.constructor | mitb-box/src/terminal.rs:140-163 | a terminal is never smaller than one by one and starts blank |
| Emulator.Terminal.ClearRows | mitb-box/src/terminal.rs:379-405 | the row loop of the clearing operations |
| Emulator.Terminal.ClearScreenAll | mitb-box/src/terminal.rs:379-383 | every row becomes blank in the current style, nothing else changes |
| Emulator.Terminal.ClearToEndOfScreen | mitb-box/src/terminal.rs:385-394 | the cursor row from the cursor on and every row below become blank, a halved wide character repaired |
| Emulator.Terminal.ClearToStartOfScreen | mitb-box/src/terminal.rs:396-405 | every row above and the cursor row up to and with the cursor become blank, repaired |
| Emulator.Terminal.InsertBlankChars | mitb-box/src/terminal.rs:407-429 | the cursor row is shifted right and repaired, all else kept |
| Emulator.Terminal.DeleteChars | mitb-box/src/terminal.rs:431-453 | the cursor row is shifted left and repaired, all else kept |
| Emulator.Terminal.EraseChars | mitb-box/src/terminal.rs:455-469 | cells from the cursor on become blank and the row is repaired, all else kept |
| Emulator.Terminal.ScrollUpRegion | mitb-box/src/terminal.rs:505-519 | the nested row loops, n times one row, shift the region by n at once |
| Emulator.Terminal.ScrollDownRegion | mitb-box/src/terminal.rs:521-535 | the same downwards, copying from the bottom |
| Emulator.Terminal.InsertLines | mitb-box/src/terminal.rs:471-486 | the row loop shifts the sub-region below the cursor |
| Emulator.Terminal.DeleteLines | mitb-box/src/terminal.rs:488-503 | the row loop shifts the sub-region below the cursor |
| Emulator.Terminal.Linefeed | mitb-box/src/terminal.rs:222-230 | moves down, or scrolls at the bottom margin and at the last row |
| Emulator.Terminal.ReverseIndex | mitb-box/src/terminal.rs:232-238 | moves up, or scrolls down at the top margin |
| Emulator.Terminal.PutChar | mitb-box/src/terminal.rs:240-282 | the imperative steps, linefeeds among them, take the terminal where the specification says |
| Emulator.Terminal.AppendCombiningChar | mitb-box/src/terminal.rs:284-308 | finds the base cell left of the cursor or at the end of the row above |
| Emulator.Terminal.SetScrollRegion | mitb-box/src/terminal.rs:537-548 | new margins and the cursor at their top |
| Emulator.Terminal.EnterAlternateScreen | mitb-box/src/terminal.rs:560-586 | saves the main screen once and blanks the grid |
| Emulator.Terminal.LeaveAlternateScreen | mitb-box/src/terminal.rs:588-609 | restores every saved field |
| Emulator.Terminal.ResetTerminal | mitb-box/src/terminal.rs:611-623 | resets all but the saved main screen |
| Emulator.Terminal.CsiDispatch | mitb-box/src/terminal.rs:655-845 | every control sequence, by its final character and parameters |
| Emulator.Terminal.EscDispatch | mitb-box/src/terminal.rs:847-863 | every escape sequence |
| Emulator.Terminal.ExecuteControl | mitb-box/src/terminal.rs:630-645 | every control character |
| Emulator.Terminal.Feed | mitb-box/src/terminal.rs:165-181 | feeding events in place gives the run of the specification over them |
| Rendering.PushCell | mitb-box/src/terminal.rs:36-62 | a cell joins the last span exactly if the style is the same; nothing visible is lost |
| Rendering.RowLine | mitb-box/src/terminal.rs:187-196 | the spans of a row hold its visible characters with their styles, in order, neighbours differing in style |
| Rendering.Lines | mitb-box/src/terminal.rs:183-199 | so for every row of the screen |
| HostTracker.TrackerFollowsEmulator | mitb-host/src/terminal_state.rs:26-171 | over runs of any length and terminals of any two sizes: tracker and emulator have the same cursor and saved cursor all the way exactly if each event meets its condition, and then each report gives the position of the emulator |
| HostTracker.StepAgreesIff | mitb-host/src/terminal_state.rs:73-171 | for every event kind, any two sizes, margins, saved cursors and saved screens: the event keeps the two together if and only if its guard holds |
| HostTracker.PrintAgreesIff | mitb-host/src/terminal_state.rs:54-63 | that guard for printing, terminals of one and two columns included: same width and no wrap, or both wrap and a linefeed moves both or neither, or a misjudged character wraps in place |
| HostTracker.MotionAgreesIff | mitb-host/src/terminal_state.rs:103-152 | for cursor motions: the target is cut alike, because the sizes are equal or it is short of both edges |
| HostTracker.OtherCsiAgreesIff | mitb-host/src/terminal_state.rs:101-155 | for all other control sequences, which the tracker ignores: margins and screen switches agree only where they happen not to move the cursor |
| HostTracker.EscAgreesIff | mitb-host/src/terminal_state.rs:157-171 | for escape sequences: a reverse index agrees at the top margin or top row only, a reset only at the origin |
| HostTracker.ControlAgreesIff | mitb-host/src/terminal_state.rs:78-91 | for control characters: linefeeds at the margins and ends, tabs at the right edges |
| HostTracker.PlainRunsAgree | mitb-host/src/terminal_state.rs:26-171 | between terminals of one size, emulator scrolling as a whole, every run of ASCII text, control characters and control sequences that leave margins and screen alone meets the guards; the reports are right |
| HostTracker.ProgramSizesPart | mitb-host/src/pty_io.rs:70 | at the sizes of the program, 80 by 24 for the tracker and 72 by 27 for the emulator, one space printed in column 72 parts them |
| HostTracker.ReverseIndexParts | mitb-host/src/terminal_state.rs:157-171 | at equal sizes, five rows down and `ESC M` parts them |
| HostTracker.CombiningAccentParts | mitb-host/src/terminal_state.rs:54-63 | at equal sizes, a combining accent parts them |
| HostTracker.CursorReportInjective | mitb-host/src/terminal_state.rs:65-70 | different positions give different report texts |
| HostTracker.ReportLaw | mitb-host/src/terminal_state.rs:143-147 | exactly `CSI 6 n` without marks draws a report, of the position counted from one |
| HostTracker.PtyTerminalState.CsiDispatch | mitb-host/src/terminal_state.rs:101-155 | the tracker's control sequences, in place |
| HostTracker.PtyTerminalState.Execute | mitb-host/src/terminal_state.rs:78-91 | the tracker's control characters, in place |
| HostTracker.PtyTerminalState.EscDispatch | mitb-host/src/terminal_state.rs:157-171 | the tracker's escape sequences, in place |
| HostTracker.PtyTerminalState.Feed | mitb-host/src/terminal_state.rs:26-37 | the loop over events leaves the cursor and the responses of the specification |
| Decimal.ValueOfDec | mitb-host/src/terminal_state.rs:65-70 | decimal numerals read back as the number they were made from |
| Decimal.DecInjective | mitb-server/src/app_state.rs:39-41 | different numbers have different numerals |
| SearchTree.EnsureChild | mitb-sdk/src/search/mcts.rs:171-203 | keeps the index inverse to the keys and the parent and child links symmetric, whether it adds, finds or refuses |
| SearchTree.Backpropagate | mitb-sdk/src/search/mcts.rs:205-245 | failing or not, it leaves keys, links and index as they are |
| SearchTree.CreditChain | mitb-sdk/src/search/mcts.rs:205-245 | along a chain from the root it always succeeds and credits each node on it exactly once |
| SearchTree.ChainDistinct | mitb-sdk/src/search/mcts.rs:379-462 | a path of child links from the root never repeats a node, in loaded trees too |
| Selection.BestOf | mitb-sdk/src/search/mcts.rs:314-354 | the highest score, ties to the smallest key |
| Selection.BestIsUnique | mitb-sdk/src/search/mcts.rs:314-354 | two lists of the same children in any order have the same best child |
| Selection.BestIsPreferred | mitb-sdk/src/search/mcts.rs:314-354 | in the fields of the nodes: an unvisited child if there is one, of these the smallest key; otherwise none has a larger rewardSum / visits plus bonus, and none as large a smaller key |
| Selection.NextIsPreferred | mitb-sdk/src/search/mcts.rs:255-312 | a node is widened exactly while it has no child or fewer than the limit at its visits; otherwise the walk goes to that child |
| Selection.WalkPrefers | mitb-sdk/src/search/mcts.rs:247-272 | so does each step of a walk, which never goes past an unvisited child to a visited one |
| Selection.LessIffPrecedes | mitb-sdk/src/search/mcts.rs:344-349 | smaller means: ends first, or has the smaller character where the two part |
| Selection.WalkIsTheGreedyWalk | mitb-sdk/src/search/mcts.rs:247-272 | the walk is the only path that takes the best child at each step and stops at the first node that may be widened or at the depth limit |
| Selection.KeysOnwardIsWalk | mitb-sdk/src/search/mcts.rs:247-272 | collecting keys while descending gives the keys of that walk |
| Selection.SelectedIsChain | mitb-sdk/src/search/mcts.rs:247-272 | the selected path starts at the root, follows child links, is no longer than the depth and has no key twice |
| MctsClasses.Mcts.EnsureChild | mitb-sdk/src/search/mcts.rs:171-203 | the mutating call does what the specification says and keeps the tree well formed |
| MctsClasses.Mcts.BackpropagatePath | mitb-sdk/src/search/mcts.rs:205-245 | the loop credits node by node; on an error the nodes already credited stay credited |
| MctsClasses.Mcts.ShouldExpandHere | mitb-sdk/src/search/mcts.rs:302-312 | true for a leaf and while children are fewer than the limit for the visits |
| MctsClasses.Mcts.SelectBestChildByUcb | mitb-sdk/src/search/mcts.rs:314-354 | the scan finds the best child of any list of children, the preferred one in the fields of the nodes, and fails only on an empty one |
| MctsClasses.Mcts.Descend | mitb-sdk/src/search/mcts.rs:255-269 | the step never meets a node that may not be widened and has no child to select |
| MctsClasses.Mcts.SelectPath | mitb-sdk/src/search/mcts.rs:247-272 | the loop returns the greedy walk; a depth of zero is refused |
| MctsClasses.PendingTreeSearch.SelectNext | mitb-sdk/src/search/mcts.rs:604-616 | selecting, with the path remembered |
| MctsClasses.PendingTreeSearch.BackpropagateAndSelect | mitb-sdk/src/search/mcts.rs:618-662 | the call, with every early return, makes the driver step of the specification |
| PendingSearch.Do | mitb-sdk/src/search/mcts.rs:604-662 | every call, successful or not, keeps the tree well formed and the pending path a chain from the root |
| PendingSearch.ReportFailsIff | mitb-sdk/src/search/mcts.rs:618-662 | a report fails exactly if the key sits under another parent, the reward is not finite or the depth is zero, with the error of the first of these |
| ReportLaws.ReportLaw | mitb-sdk/src/search/mcts.rs:618-662 | a report that succeeds returns the pending path, or the root, with its own key behind it unless it ends there; each node on that path has one visit more, its reward sum the reward more and its best the larger of the two, a new one starting from nothing; all other statistics stay |
| ReportLaws.SelectionLaw | mitb-sdk/src/search/mcts.rs:604-662 | a call that succeeds returns and remembers one path: from the root of the tree it leaves to the preferred child each time, until a node may be widened or the depth is used up; one that fails goes on remembering the old path; selecting alone changes no tree and fails for depth zero only |
| ReportLaws.AcceptedAreVisits | mitb-sdk/src/search/mcts.rs:618-662 | over every run a node has at least as many visits as reports for its key have succeeded, as far as its counter goes |
| ReportLaws.DoKeepsVisits | mitb-sdk/src/search/mcts.rs:604-662 | no call, failing or not, takes visits away |
| SearchRuns.FreshRunTallied | mitb-sdk/src/search/mcts.rs:205-245 | after any calls on a fresh tree each node's visits, reward sum and best reward are those of the backpropagations through it |
| SearchRuns.FlowConservation | mitb-sdk/src/search/mcts.rs:205-245 | each node's visits and rewards are those of the backpropagations that ended there plus those of its children; the root counts them all |
| ReportLaws.BestIsLargest | mitb-sdk/src/search/mcts.rs:205-245 | the best reward through a node is one of those credited to it, and none of them is better |
| ReportLaws.BestWasReported | mitb-sdk/src/search/mcts.rs:205-245 | over every run from a fresh tree it is one that was reported |
| SearchRuns.MeanAtMostBest | mitb-sdk/src/search/mcts.rs:56-62 | under rewards in [0, 1] a visited node has 0 <= mean <= best <= 1 |
| Widening.ProgressiveWideningBound | mitb-sdk/src/search/mcts.rs:302-312 | in every run with one depth and a limit that grows with the visits, whatever the rewards, a node above the last level has fewer than max(limit, 1) + 1 children besides those that refused reports added to it |
| Widening.FiniteRunsRefuseNothing | mitb-sdk/src/search/mcts.rs:618-662 | with finite rewards there are none of these |
| Widening.RefusedAddsChild | mitb-sdk/src/search/mcts.rs:624-650 | a refused report for a new key adds just that child at the end of the path |
| Widening.RefusedChangesNothing | mitb-sdk/src/search/mcts.rs:624-650 | a refused report for a key already in the tree changes nothing at all |
| Widening.RefusedReportsEscapeTheBound | mitb-sdk/src/search/mcts.rs:624-650 | for every configuration and every depth of two or more there is a run of refused reports for new keys after which the root breaks the bound |
| Persistence.IndexNodes | mitb-sdk/src/search/mcts.rs:403-423 | the first pass reports a real fault, or statistics are numbers, keys distinct and the index their inverse |
| Persistence.CheckLinks | mitb-sdk/src/search/mcts.rs:425-454 | the second pass reports a real fault, or the links are in range and symmetric |
| Persistence.FromPersisted | mitb-sdk/src/search/mcts.rs:379-462 | accepts exactly the loadable files, each error names a fault that is there, and what is loaded is well formed |
| Persistence.SaveThenLoad | mitb-sdk/src/search/mcts.rs:464-561 | a well-formed tree saves to a loadable file, and the only well-formed tree with its nodes is the tree itself |
| Persistence.SaveAndLoad | mitb-sdk/src/search/mcts.rs:379-477 | loading what was saved gives the same tree, index included |
| Persistence.DuplicateChildIsLoadable | mitb-sdk/src/search/mcts.rs:425-454 | a file that lists a child twice passes the check |
| Persistence.DetachedCycleIsLoadable | mitb-sdk/src/search/mcts.rs:425-454 | a file with a cycle apart from the root passes the check |
| TreeShape.IsTreeIff | mitb-sdk/src/search/mcts.rs:425-454 | what loading accepts has every node below the root if and only if the root is the only node without a parent and no node is its own ancestor |
| TreeShape.ReachableIffClimbs | mitb-sdk/src/search/mcts.rs:425-454 | node by node: a path of child links from the root ends there if and only if the way up its parents reaches the root |
| TreeShape.OnlyPath | mitb-sdk/src/search/mcts.rs:425-454 | and then there is one such path only |
| TreeShape.LostNode | mitb-sdk/src/search/mcts.rs:425-454 | from any other node the way up comes to a cycle or to a second node without a parent |
| TreeShape.NoTwinsIff | mitb-sdk/src/search/mcts.rs:442-453 | a node lists no child twice if and only if it lists as many as name it their parent |
| Rooms.FirstFresh | mitb-server/src/app_state.rs:329-336 | all events before it are expired and it is not |
| Rooms.CandidateInjective | mitb-server/src/app_state.rs:39-45 | different counters give different generated ids |
| Rooms.FirstFree | mitb-server/src/app_state.rs:39-45 | the first free number lies within |occupied| + 1 of the counter |
| Rooms.ChosenId | mitb-server/src/app_state.rs:34-46 | the id given is never an occupied one |
| RoomServer.PruneEventWindow | mitb-server/src/app_state.rs:329-336 | popping from the front leaves the events from the first fresh one on |
| RoomServer.PruneLogs | mitb-server/src/app_state.rs:226-239 | prunes every log and drops the empty ones |
| RoomServer.AppState.PruneExpiredRooms | mitb-server/src/app_state.rs:313-327 | removes the rooms that are empty and past their time to live |
| RoomServer.AppState.GenerateId | mitb-server/src/app_state.rs:39-45 | the id loop ends at the first free number |
| RoomServer.AppState.Register | mitb-server/src/app_state.rs:14-108 | new state, id, initial messages and broadcasts |
| RoomServer.AppState.Unregister | mitb-server/src/app_state.rs:110-158 | removes the member and returns whom to tell |
| RoomServer.AppState.StoreRoom | mitb-server/src/app_state.rs:189-215 | creates an empty room unless the quota is reached or, failing that, the handle is taken; prunes either way |
| RoomServer.AppState.CheckAuthRateLimit | mitb-server/src/app_state.rs:226-239 | prunes the log of the address, then refuses at the limit or records the attempt |
| RoomServer.AppState.ForwardSignal | mitb-server/src/app_state.rs:245-311 | an attempt that passes the limiter is counted even if its sender or peer is missing or both are agents |
| RoomViews.EveryRunIsConsistent | mitb-server/src/app_state.rs:14-158 | in every run, whatever the order in which tasks enqueue after releasing the lock: ids of the two roles are disjoint, an id maps to the one live connection holding it, what was issued to a client under the lock tells it exactly who is there, and each message issued to one that is not penalized is enqueued or on its way exactly once |
| RoomRuns.StepKeepsInv | mitb-server/src/ws_runtime.rs:35-114 | each step of a task, under the lock or enqueueing, keeps membership and what is issued in agreement |
| RoomViews.StepKeepsMail | mitb-server/src/ws_runtime.rs:209-238 | each step loses and doubles no message, and in lock order keeps what is enqueued a prefix of what was issued |
| RoomViews.OrderedRunsTellMembers | mitb-server/src/ws_runtime.rs:55-113 | in runs that enqueue in lock order, however late, at every moment what is enqueued and then what is on its way tells an unpenalized client exactly the members of the other role |
| ClientViews.OrderedRunsShowMembers | mitb-server/src/ws_runtime.rs:55-190 | in such runs with signals in between, once everything due is enqueued, an unpenalized client sees exactly the members of the other role if and only if no signal overtook its greeting; for a zookeeper, if no zookeeper signals another |
| ClientViews.SettledIsKnown | mitb-server/static/index.html:326-342 | in lock order a live zookeeper knows every agent whose task has nothing more on its way to it, so that a signal from it adds nobody |
| ClientViews.SignalReaches | mitb-server/src/app_state.rs:245-311 | a signal reaches a member of the room of its sender and names the sender |
| ServerLaws.SignalLaw | mitb-server/src/app_state.rs:245-311 | a signal that succeeds goes to a connection in the room of its sender, under the id asked for, and they are not both agents; it fails only at the rate limit, or because nobody has that id there, or because both are agents, with the error for that |
| ServerLaws.AddresseeLaw | mitb-server/src/app_state.rs:269-302 | the same of the lookup, which the limiter does not enter |
| ServerLaws.OneSits | mitb-server/src/app_state.rs:245-311 | there is never more than one connection in a room under an id |
| ServerLaws.NewcomersId | mitb-server/src/app_state.rs:14-108 | a newcomer gets the id it wishes for unless it is taken, and else its role and a number larger than all numbers given before; registering fails exactly if the room is gone |
| ServerLaws.PrunedIff | mitb-server/src/app_state.rs:313-327 | a room is pruned exactly if nobody is in it and it has been idle for its time to live; others are not changed |
| ServerLaws.NewRoomLasts | mitb-server/src/app_state.rs:189-215 | storing a room fails exactly at the quota or on a taken handle; a new one lasts its time to live if nobody comes |
| ServerLaws.LeftRoomLasts | mitb-server/src/app_state.rs:110-158 | a room that somebody leaves lasts as long as others are in it, and else its time to live from then on |
| ClientViews.StepKeepsBacked | mitb-server/src/ws_runtime.rs:209-238 | each step in lock order keeps, behind whatever is on its way about a member, something from the task of that member |
| ClientViews.StepKeepsSignals | mitb-server/src/ws_runtime.rs:171-190 | each step keeps the sender of a pending signal a member with nothing else on its way |
| ClientViews.StepKeepsHearing | mitb-server/static/index.html:403-442 | each step in lock order keeps a live zookeeper's knowledge that of the news alone |
| ClientViews.AgentHearsNews | mitb-host/src/agent/signaling_handlers.rs:13-134 | signals change nothing in what an agent knows |
| RoomViews.ViewRightIff | mitb-server/src/ws_runtime.rs:55-113 | in any order, once everything is enqueued: an unpenalized client sees exactly those members if and only if its greeting came before all other news and signals and for each id the message enqueued last that settles it says what the one issued last under the lock says |
| Mailboxes.HeardIff | mitb-host/src/agent/signaling_handlers.rs:13-134 | a client is live if and only if the first message it does not let pass is its greeting, waits if and only if there was none, and a live one knows of exactly those ids whose last settling message is not a farewell |
| Mailboxes.DeliveryKeepsAccounted | mitb-server/src/ws_runtime.rs:215-238 | enqueueing any message that is on its way loses and doubles none |
| Mailboxes.DeliveryKeepsInLine | mitb-server/src/ws_runtime.rs:215-238 | enqueueing the oldest one keeps the order |
| Misorders.StaleGreetingMisleads | mitb-server/src/ws_runtime.rs:53-61 | a run: the join of an agent reaches a zookeeper before its own greeting, and its client gives up |
| Misorders.LateFarewellMisleads | mitb-server/src/ws_runtime.rs:53-113 | a run: an agent takes the name of one that has just left, the farewell of the first is enqueued after the join of the second, and the client, still live, takes it to have left |
| Misorders.SelfSignalMisleads | mitb-server/static/index.html:332-342 | a run in lock order: a zookeeper signals itself and its client counts it among the agents |
| RoomRuns.AddresseeIsConnected | mitb-server/src/app_state.rs:245-311 | a signal is only ever addressed to a connection that has a queue |
| RoomRuns.LeaveKeepsOwned | mitb-server/src/app_state.rs:110-158 | unregistering removes that connection's entry only |
| RoomViews.OthersKeepSeats | mitb-server/src/app_state.rs:110-158 | no step takes a seat from a connection other than the one leaving |
| RoomViews.OccupiedRoomsStay | mitb-server/src/app_state.rs:313-327 | a room with somebody in it survives every step except the leaving of its members |
| Mailboxes.DroppedMeansPenalized | mitb-server/src/ws_runtime.rs:215-238 | a message to an open queue arrives, or its owner is penalized |
| Mailboxes.Outbound.EnqueueLocalMessage | mitb-server/src/ws_runtime.rs:215-228 | the queue after sending, and whether the connection goes on |
| Mailboxes.Outbound.EnqueueRemoteMessage | mitb-server/src/ws_runtime.rs:230-238 | the queue after sending to a peer |
| Mailboxes.Outbound.IssueBroadcasts | mitb-server/src/app_state.rs:68-101 | the list of broadcasts has one message for each peer, drawn up in any order |
| Mailboxes.Outbound.Deliver | mitb-server/src/ws_runtime.rs:209-213 | one message of the list leaves it and enters the queue, or penalizes the owner of a full one |
| WsRuntime.Runtime.Connect | mitb-server/src/ws_runtime.rs:35-53 | what happens to server, queues and lists while the lock is held |
| WsRuntime.Runtime.Deliver | mitb-server/src/ws_runtime.rs:55-61 | what enqueueing one message afterwards does, others having run in between |
| WsRuntime.Runtime.BroadcastAll | mitb-server/src/ws_runtime.rs:209-213 | worked off without interruption, the list reaches each peer once, in any order with the same result |
| WsRuntime.Runtime.Disconnect | mitb-server/src/ws_runtime.rs:110-112 | unregistering under the lock and the farewells it issues |
| WsRuntime.Runtime.Close | mitb-server/src/ws_runtime.rs:113-115 | the queue is dropped with the task, after its last broadcast |
| WsRuntime.Runtime.HandleSignal | mitb-server/src/ws_runtime.rs:131-189 | the part of a signal under the lock: the message, or the error, that is to be sent |
| WsRuntime.Runtime.DeliverNote | mitb-server/src/ws_runtime.rs:171-190 | a forwarded signal never ends the loop, even one to oneself on a full queue; an error to the sender does if there is no room for it |
| WsRuntime.LeaversPeersAreConnected | mitb-server/src/ws_runtime.rs:110-114 | those told of a leaving are live connections, none twice, the leaver not among them |
| RateLimits.AuthAttemptAcceptedIff | mitb-server/src/app_state.rs:226-239 | over every run with a clock that does not go back, an attempt is accepted exactly if fewer than the limit of all attempts ever accepted from that address are younger than the window; no window holds more than the limit |
| RateLimits.SignalPassesIff | mitb-server/src/app_state.rs:245-267 | the same for signals counted in the lifetime of one room |
| RateLimits.AuthLogAgrees | mitb-server/src/app_state.rs:226-239 | the pruned and deleted logs agree with the full history after every run |
| RateLimits.SignalLogAgrees | mitb-server/src/app_state.rs:245-267 | the same for a room's signal log |
| Gitignore.JoinedPath | mitb-sdk/src/fs.rs:542-548 | the name and the base of a joined path can be read off again |
| Gitignore.PrefixesAreDirectories | mitb-sdk/src/fs.rs:554-574 | the listed prefixes are exactly the ancestors of the path and, for a directory, the path |
| Gitignore.ListDirectoryPrefixes | mitb-sdk/src/fs.rs:554-574 | the loop over slashes lists them from the top |
| Gitignore.FindSlash | mitb-sdk/src/fs.rs:564-571 | finds the next slash, or the end |
| Gitignore.LastMatchWins | mitb-sdk/src/fs.rs:479-522 | a path is ignored exactly if the last rule that applies to it is not a negated one |
| Gitignore.RulesAreScoped | mitb-sdk/src/fs.rs:479-497 | a rule says nothing about paths outside its own directory |
| Gitignore.PathIsIgnored | mitb-sdk/src/fs.rs:479-522 | the loop computes that |
| Gitignore.ParseGitignoreRules | mitb-sdk/src/fs.rs:419-477 | appends the rules of the lines in order, or fails at the first bad pattern |
| FindFiles.Find | mitb-sdk/src/fs.rs:87-176 | the stack with one shared, truncated rule list returns on every finite tree what the recursive definition returns, in which each directory uses the rules of its ancestors and its own; same errors |
| FindFiles.FindIsNatural | mitb-sdk/src/fs.rs:87-176 | which has the same matches, each as often, as the search in listing order |
| FindFiles.FoundIsReached | mitb-sdk/src/fs.rs:87-176 | nothing is reported without a way down on which no folder and not the entry is ignored |
| FindFiles.ReachedIsFound | mitb-sdk/src/fs.rs:87-176 | everything with such a way is reported, unless the search fails |
| FindLaws.FoundIffWay | mitb-sdk/src/fs.rs:87-176 | a search that succeeds reports exactly what there is a way down to, with nothing on it passed over: its path is the names on the way joined, it is marked as a folder if it is one, folders and files come only if asked for, and the pattern is held against the whole path if it has a slash and against the last name if not |
| FindLaws.FailIffTrouble | mitb-sdk/src/fs.rs:87-176 | it fails exactly if somewhere it enters an ignore file or directory cannot be read, a pattern does not compile, or a folder cannot be opened |
| FindLaws.BasenameIff | mitb-sdk/src/fs.rs:524-531 | the name is the part behind the last slash |
| FindLaws.RulesAtLaw | mitb-sdk/src/fs.rs:382-417 | the rules of a directory are those it inherits and then its own; none if they are not respected |
| FindLaws.ReadLineIff | mitb-sdk/src/fs.rs:424-455 | a line holds a rule exactly if it is the marks of the rule around its text, carriage returns at the end aside: `!` and then `/` before it, `/` behind it |
| FindLaws.RulesComeFromLines | mitb-sdk/src/fs.rs:419-477 | every line that holds a rule gives one, in order, compiled with slashes for backslashes, seen from its directory |
| FindLaws.RulesFailIff | mitb-sdk/src/fs.rs:457-464 | there are none exactly if the pattern of some line does not compile |
| FindLaws.AppliesIff | mitb-sdk/src/fs.rs:479-522 | a rule for directories applies to a path exactly if it fits a directory on the way to it or the path as a directory, any other if it fits the path; anchored rules and those with a slash are held against all of it, others against the last name |
| FindLaws.AppliesInsideOnly | mitb-sdk/src/fs.rs:479-497 | a rule applies below its own directory only |
| FindFiles.TopDone | mitb-sdk/src/fs.rs:98-112 | one directory taken off the stack fails as the whole search does or leaves the same to find |
| FindFiles.ScanEntries | mitb-sdk/src/fs.rs:112-172 | the entry loop records own matches and pushes the folders that are entered, with their rule length |
| FindFiles.LoadRules | mitb-sdk/src/fs.rs:382-417 | a directory's rules are appended to those inherited |
| Transcript.ReadIsHistory | mitb-host/src/transcript.rs:24-41 | a read from a cursor not past the head returns the history right before the returned cursor, and nothing only if there is nothing or nothing was wanted |
| Transcript.CursorAdvancesIff | mitb-host/src/transcript.rs:24-41 | the cursor goes back exactly if it was past the head |
| Transcript.SnapshotIsSuffix | mitb-host/src/transcript.rs:12-22 | a snapshot is the end of the history, as long as wanted and retained |
| Transcript.PollingConserves | mitb-host/src/transcript.rs:24-41 | over any interleaving of output and reads, delivered and evicted bytes add up to the cursor's advance; without eviction the delivered bytes are the history without a gap |
| Transcript.PollingAdvances | mitb-host/src/transcript.rs:24-41 | each poll advances by all it may return until the head is reached |
| Transcript.PollingReachesHead | mitb-host/src/transcript.rs:3-41 | the head is reached within as many polls as there are bytes to it |
| Transcript.TranscriptBuffer.Append | mitb-host/src/pty_io.rs:88-92 | appending a chunk and trimming keeps the end of the history within the limit |
| Transcript.TranscriptBuffer.Trim | mitb-host/src/pty_io.rs:135-141 | trimming drops from the front and moves the start |
| StreamBridge.MpscStreamConsumer.PollConsume | mitb-host/src/stream_bridge.rs:76-135 | the two loops make the poll step on an open channel, with the outcome; on a closed one exactly which items are lost |
| StreamBridge.MpscStreamProducer.PollProduce | mitb-host/src/stream_bridge.rs:25-62 | hands over the oldest items, at most count, and which outcome |
| StreamBridge.TakeBatch | mitb-host/src/lib.rs:498-523 | a batch of the writer is the front of the channel, at most 4096 items |
| StreamBridge.PolledConserves | mitb-host/src/stream_bridge.rs:76-135 | a poll keeps all items in order, and reads the source only once everything held back is in the channel |
| StreamBridge.PolledFills | mitb-host/src/stream_bridge.rs:76-135 | a poll goes as far as there is room: it leaves nothing behind, or the channel full |
| StreamBridge.NothingLostOrReordered | mitb-host/src/stream_bridge.rs:25-135 | over every interleaving of writes, polls and receives, delivered ++ channel ++ held back ++ unread is the input |
| AudioVideo.DecodePacket | mitb-av/src/lib.rs:178-205 | every channel holds its samples of the interleaved packet |
| AudioVideo.InterleaveAudioBuffer | mitb-av/src/lib.rs:513-543 | filling the output in place gives the packet back without the frames to be skipped, whose count goes down |
| AudioVideo.PlayedDropsPreSkip | mitb-av/src/lib.rs:513-543 | over any packets what is played is the decoded stream without exactly its first pre-skip frames |
| AudioVideo.CopyPlane | mitb-av/src/lib.rs:703-725 | succeeds exactly if the stride is wide and the plane long enough, and then gives its rows without padding |
| AudioVideo.UnpaddedRows | mitb-av/src/lib.rs:703-725 | for a plane without padding that is the plane itself |
| AudioVideo.PictureToYuv | mitb-av/src/lib.rs:618-701 | succeeds exactly if all three planes can be copied, and then holds them one after the other |
| AudioVideo.I420RecoveredIff | mitb-av/src/yuv.rs:22-41 | the three planes come out as they went in exactly if luma is four times a chroma plane |
| AudioVideo.Y444Recovered | mitb-av/src/yuv.rs:22-41 | for Y444 they always do |
| AudioVideo.EvenSizesIff | mitb-av/src/lib.rs:631-663 | luma is four times chroma exactly for even or empty pictures |
| AudioVideo.PictureRecoveredIff | mitb-av/src/lib.rs:618-725 | so copied planes are recovered exactly for Y444 and for even or empty pictures |
| AudioVideo.OddPictureIsCut | mitb-av/src/yuv.rs:22-41 | a 3 by 2 picture comes out with its luma plane cut short |
| AudioVideo.RenderableFrom | mitb-av/src/yuv.rs:65-98 | the NV12 conversion splits chroma into its even and odd bytes |
| AudioVideo.TakenApart | mitb-av/src/yuv.rs:76-95 | one pass over the bytes does that |
| AudioVideo.AlternatingTakenApart | mitb-av/src/yuv.rs:76-95 | which recovers two alternating planes |
| AudioVideo.Nv12Recovered | mitb-av/src/yuv.rs:65-98 | so an NV12 picture is rendered from its own three planes |

## Left out

- The `vte` byte parser: its output is the datatype `Screens.Event`; intermediate bytes marked as ignored are not distinguished.
- Unicode width tables: a character carries its width; `HostTracker.StepAgreesIff` assumes of the table only that control characters have none.
- Colour values: colours are symbolic, and the 256-colour and true-colour arithmetic (terminal.rs:910-965) is not modelled.
- Floating point: rewards, means and scores are reals, with the non-finite values as a case of their own; rounding, NaN and overflow are not modelled. Exploration and widening are arbitrary functions of the visit counts.
- SearchRuns.FlowConservation: stated for fewer backpropagations than a visit counter can hold, because the source saturates there; the counter itself saturates in the model as well.
- Persistence: the JSON text, the file and the saving after each change; the in-memory form is modelled.
- `tree_mut` of the search driver, and `backpropagate_path` on paths that are no chains beyond what it keeps.
- Wrap-around of the 64-bit counters for client ids and transcript positions.
- Clients handle one message after the other: what the browser's handlers do between two awaits, their WebRTC connections and errors of these are not part of the model of a client.
- ClientViews.OrderedRunsShowMembers: for zookeepers it assumes that no zookeeper signals another, which the server would forward; `Misorders.SelfSignalMisleads` shows why that is needed.
- Order of hash maps: broadcasts go to a set of connections, and lists of members are sets.
- Signal payloads are numbers, message texts of errors are cases of a datatype.
- The login exchange before registration counts as one step that prunes rooms.
- FindFiles.Find: file system errors are flags of a tree node, glob matching and pattern compilation are arbitrary functions, and symbolic links and devices are entries of another kind.
- FindLaws.FoundIffWay: for trees whose entry names hold no slash, as file systems have them.
- Searching file contents and counting lines (fs.rs:182-285).
- StreamBridge.NothingLostOrReordered: for an open channel only; on a closed one items are lost, as `StreamBridge.MpscStreamConsumer.PollConsume` says.
- The output reader's waiting send, task spawning and the writes to child processes and PTYs.
- AudioVideo.DecodePacket: the channel buffers are filled as sequences, not as reused buffers; samples and bytes are opaque values.
- Overflow of the size computations in `copy_plane`, bit depths other than 8 and pixel layouts other than the two copied.
- Policies, password protocol, WebRTC, HTTP, command line, windows, shaders and the animated eye.
