# A verified model of mycoder's editor, launcher and checks

mycoder is a terminal coding agent. This project models the parts of it whose correctness is an
argument rather than a lookup, and proves that argument in Dafny.

- **The line editor** (`src/cli/editor.ts`). `ApplyKey` is its state machine, `ParseInput` its decoder
  with a bracketed paste carried between reads, `ComputeLayout` and `Divide` its row arithmetic,
  `Render` and `ClearBlock` the bytes it writes. The buffer is proved to refine one text with an offset
  in it. The bytes are run on a small terminal - rows, a cursor, a window top that only moves down,
  deferred wrap at the last column, tab stops, returns and backspaces - and every run of keys that types
  no control character but line breaks is proved to leave the transcript alone and the cursor where the
  state says (`EditorSession.SessionIsSafe`), over any chunks of input and read after read
  (`EditorSession.ReadIsSafe`, `EditorSession.ReadsAreSafe`); for width-1 text that is on the very
  character the buffer's cursor is before (`CursorOnScreen.SessionShowsTheCursor`), and what the rows
  say is the lines, the menu or the search (`DrawnText`). For other keys the exact condition is
  `RealEnds.SessionIsUntouchedExactly`. What a terminal sends for each key decodes to it
  (`KeyBytes.StrokesDecode`), a search takes the entry it was typed for (`SearchRuns.SearchTakesTheNth`)
  and a session remembers what was submitted (`ReadHistory.HistoryIsWhatWasSubmitted`).
- **The native launcher** (`native/mycoder-sandbox.c`). The filter it compiles is run by a BPF
  interpreter; the plan reader and the steps before exec are proved to launch exactly the plans whose
  every restriction could be applied, and what the target may then do is what the lines of the plan give
  (`Confinement.LaunchPermits`).
- **Scanners**: the shell tokenizer, the blanking of code for lint rules, the highlighter.
- **Checks and accounts**: the interference trap, the evidence corpus, tool friction, the framed box.

Code that updates things in place is modelled by methods and classes, each proved against a
specification function; code made of expressions is a function. The theorems are about those
functions. `Strings.dfy` and `Lines.dfy` hold what the modules share. `dafny verify dfyconfig.toml`
checks everything.

What the theorems assume is in their `requires`, and for the editor in a few predicates, all but the last
to be checked before the run: `OptionsOk` (the window holds the chrome and two rows, two columns are
left beside the prompts, and prompts, frame and footer hold no control character), `HostOk` (candidates
are one row, without control characters), `TameKeys` (what is typed or pasted holds no control character
but line breaks), `AllTame` (nor does history) and `SearchesFit` (what a reverse search shows is one
row). `SearchesAreShort` implies the last: no search is opened, or label, everything typed and nine
columns fit the width and nothing typed or remembered holds a control character
(`SearchLine.ShortSessionIsSafe`). Character width is an arbitrary function into 0, 1 and 2.

## Where the code falls short of what it promises

Each of these is a theorem of the model: the exact condition under which the promise holds.

- Ctrl-Z takes back only what left a snapshot. Newline, delete, completion, history moves and taking
  a search's entry leave none (`EditorRuns.UndoTakesBack`, `EditorRuns.NewlineIsNotTakenBack`), though
  the comment on `remember` calls it the snapshot before an edit.
- Pasted text reaches the buffer and the screen as it is, and a tab is measured as no column. Pasted into
  a framed prompt, a tab and a letter make a row that closes past the last column, and the next redraw
  and the final erasure leave part of the block behind (`RealEnds.TabAndLetter`). A redraw is erased
  again exactly when every drawn row really ends on its row (`RealEnds.ErasedExactly`), in a frame and
  among tabs exactly when no drawn row has one (`RealEnds.FramedBlockStays`), and that holds along
  whole runs (`RealEnds.SessionIsUntouchedExactly`).
- A paste in any number of reads comes out as its body exactly when no marker is cut
  (`PasteCuts.ReadsKeepThePaste`). Cut in the opening marker, its newlines are Enters and submit the line
  (`PasteCuts.PastedNewlineIsEnter`); cut in the closing one, the marker's halves become text and the
  paste stays open (`PasteCuts.CutInClosing`, `PasteCuts.CutInsideMarkerLeavesPasteOpen`).
- Line feed decodes as Enter before the control table is consulted, so the table's newline entry for
  it is never reached (`KeyDecoder.LineFeedIsEnter`).
- The cursor cell ignores the column left blank when a wide character straddles a row end
  (`Layout.CursorCell`). The row index is right for all text.
- A reverse search whose line holds a newline or runs over with a tab, or whose label and query leave
  too little room for what it finds, parks the cursor below the row the driver records
  (`SearchLine.SearchLineParksWhenOneRow`, `SearchLine.QuietSearchLineParks`).
- While a search is open the cursor stands past what is typed by the query's own width, in the entry
  found (`DrawnText.SearchCursorIsFurtherOn`).
- A deny list means only its last 255 entries, because the jump is a byte
  (`Seccomp.FilterMeansTheLast255`, `Seccomp.MeansTheListWhenReached`). The list in the source is far
  shorter.
- `seccomp` with any argument but 1 asks for no filter and is not refused
  (`Launcher.OnlyOneAsksForSeccomp`); a plan line of 4095 characters or more is read in pieces
  (`Launcher.LinesAreRead`).
- An escape directly before a newline or the end of input shifts positions in the blanked source
  (`BlankCode.LengthSurvives`, `BlankCode.NewlinesSurvive`); without one nothing moves
  (`BlankCode.PositionsSurvive`).
- `$(` in single quotes still sends a line to a shell unless a quote or a backslash stands before it
  (`ShellParse.QuotedLineIsSimple`); an escaped operator counts as one, one glued to a quoted piece does
  not, and an escaped blank at the end of a line is trimmed into an error (`ShellParse.OperatorsOfALine`,
  `ShellParse.GluedIsSimple`).
- Reading the target under a path the trap does not recognise leaves a receipt that matches
  (`Interference.UnknownPathDodgesTheTrap`).
- A newline, a deletion, a kill or a join of two lines leaves a menu open, with the candidates of the
  text before it (`EditorKeys.MenuStaysExactly`).
- What was edited in a history entry is lost on leaving it (`EditorKeys.StepBackAndForth`,
  `EditorKeys.StepForthAndBack`).
- An indent that leaves fewer than ten columns can make the box ragged (`Box.IndentIsSafe`,
  `Box.BoxIsEvenExactly`).
- Two tools that share a key, which takes a colon in a name and in a hash, are charged for each
  other's calls; otherwise a tool's repeats are its own (`Friction.RepeatsAreTheToolsUnlessShared`,
  `Friction.ColonsCanCollide`). Hashes are hexadecimal, so this does not arise in practice.

## Model

| member | source | states |
|---|---|---|
| `EditorState.ApplyKey` | `src/cli/editor.ts:337-617` | one key, in any mode, keeps the state well formed: cursor inside a line, menu selection inside the menu, a draft whenever history is being walked, at most 200 snapshots on the two stacks together |
| `EditorState.NewState` | `src/cli/editor.ts:148-164` | the state a read starts from is well formed |
| `EditorState.ComputeTokenStart` | `src/cli/editor.ts:639-643` | the loop finds the start of the run of non-blanks before the cursor: nothing blank inside it, a blank or the line start before it |
| `EditorState.MatchHistory` | `src/cli/editor.ts:629-636` | the loop over history gives exactly the list the search is specified by |
| `EditorState.ApplyKeysConcat` | `src/cli/editor.ts:1160-1197` | a run of keys may be cut anywhere: the second part continues from the state the first one left |
| `FlatBuffer.FlatIsExact` | `src/cli/editor.ts:167-169` | the text before and after the cursor is the buffer's text, and determines the lines on both sides |
| `FlatBuffer.FlatDetermines` | `src/cli/editor.ts:108-148` | two buffers with the same text around the cursor have the same lines, row and column |
| `FlatBuffer.KeyRefinesFlat` | `src/cli/editor.ts:400-514` | text, newline, backspace, delete, left, right, home, end, word moves, the three kills and yank do on lines, row and column exactly what they do to one text with an offset in it, kill ring included |
| `FlatBuffer.CompletionReplacesTheToken` | `src/cli/editor.ts:639-643` | a candidate replaces the run of non-blanks before the cursor, seen in the whole text, and touches nothing before it or after the cursor |
| `FlatBuffer.MenuKeyCompletes` | `src/cli/editor.ts:390-397` | with a menu open Enter and Tab take the selected candidate, close the menu and do not end the read |
| `FlatBuffer.TabCompletes` | `src/cli/editor.ts:551-562` | Tab takes a lone candidate, opens a menu on several, and with none leaves the state alone |
| `EditorRuns.KeyKeepsClean` | `src/cli/editor.ts:337-617` | no key in any mode puts a newline inside a line, the kill ring, the menu or a snapshot, given candidates without newlines |
| `EditorRuns.RunKeepsClean` | `src/cli/editor.ts:1160-1197` | the same over every run of keys |
| `EditorRuns.KillThenYank` | `src/cli/editor.ts:488-514` | any kill followed by a yank gives the text back |
| `EditorRuns.TextInPieces` | `src/cli/editor.ts:401-422` | inserting a text in two pieces leaves the lines, row and column of inserting it at once, newlines anywhere |
| `EditorRuns.KeyAndStacks` | `src/cli/editor.ts:342-347` | exactly which keys leave a snapshot, what it holds, and that every other key leaves both stacks as they were |
| `EditorRuns.UndoTakesBack` | `src/cli/editor.ts:574-586` | in any mode, an undo right after a key that changed the buffer restores it if and only if that key left a snapshot, which none does while a search is open, or the newest snapshot already held that buffer |
| `EditorRuns.NewlineIsNotTakenBack` | `src/cli/editor.ts:427-431` | concrete failure of "undo takes back the last edit": a newline on a fresh prompt |
| `EditorRuns.RedoAfterUndo` | `src/cli/editor.ts:574-600` | redo after undo restores lines, row, column and both stacks |
| `EditorRuns.UndoAfterRedo` | `src/cli/editor.ts:574-600` | undo after redo restores lines, row, column and both stacks |
| `EditorRuns.UndosThenRedos` | `src/cli/editor.ts:574-600` | k undos and then k redos change nothing but close the menu, for every k up to the depth of the stack |
| `EditorRuns.RunLeavesTrail` | `src/cli/editor.ts:342-347` | after any run of motions and remembered edits the undo stack ends in exactly the buffers before each edit, oldest dropped at 200 |
| `EditorRuns.RunIsTakenBack` | `src/cli/editor.ts:574-586` | such a run is taken back whole by as many undos as it made edits, up to 200 |
| `EditorRuns.HistoryRoundTrip` | `src/cli/editor.ts:516-549` | walking history with any mix of Up, Down, Left, Right, Home and End and coming back to the typing position restores the lines that were typed |
| `EditorRuns.KeyKeepsSearchExact` | `src/cli/editor.ts:349-382` | every key keeps the search showing the matches of its own query, and no key but Enter touches the buffer while it is open |
| `EditorRuns.SearchIsExact` | `src/cli/editor.ts:349-382` | in every reachable searching state the matches are exactly the entries containing the query, strictly newest first, and the selection is one of them |
| `EditorKeys.WordStartIsAWord` | `src/cli/editor.ts:474-479` | word-left and the kill of a word go to the start of the word before the cursor: a whole word, then no word character; to the line start when there is none |
| `EditorKeys.WordEndIsAWord` | `src/cli/editor.ts:481-486` | word-right goes to the end of the word after the cursor, or to the line end |
| `EditorKeys.UpThenDown` | `src/cli/editor.ts:516-538` | inside the buffer Down undoes Up if and only if the row above is long enough for the column |
| `EditorKeys.UpShowsTheEntry` | `src/cli/editor.ts:523-533` | on the first row Up shows exactly the entry before, with the cursor at its end |
| `EditorKeys.DownShowsTheNext` | `src/cli/editor.ts:540-549` | on the last row Down shows exactly the entry after, or what was typed, with the cursor at its end |
| `EditorKeys.RowMotions` | `src/cli/editor.ts:516-546` | inside the buffer Up and Down go one row, to the same offset or the end of a shorter line, and change nothing else |
| `EditorKeys.StepBackAndForth` | `src/cli/editor.ts:523-549` | Up and then Down gives the text back if and only if it was being typed or is the entry unchanged |
| `EditorKeys.StepForthAndBack` | `src/cli/editor.ts:516-549` | Down and then Up gives the text back if and only if the later text is one line and this one is the entry unchanged, or the later text has several and is the same |
| `EditorKeys.MenuStepsUndo` | `src/cli/editor.ts:386-388` | in a menu Up and Down undo each other, round both ends |
| `EditorKeys.MenuStaysExactly` | `src/cli/editor.ts:386-600` | which keys close a menu and that no others do: a newline, a deletion, a kill or a join of two lines leaves one open with the candidates of the text before |
| `EditorKeys.EnterTakesAMatch` | `src/cli/editor.ts:363-372` | in every reachable searching state Enter closes the search and takes an entry containing the query if there is one, and leaves the buffer alone if there is none |
| `SearchRuns.SearchTakesTheNth` | `src/cli/editor.ts:349-382` | Ctrl-R, any texts and Backspaces, k more Ctrl-Rs and Enter load the entry that contains what was typed and has exactly k newer ones that do, or the oldest if there are not so many, cursor at its end; and leave the buffer alone if none does |
| `SearchRuns.TypingSearches` | `src/cli/editor.ts:374-380` | what is searched for is what was typed, each Backspace taking one character, and its matches |
| `SearchRuns.LeavingTheSearch` | `src/cli/editor.ts:356-362` | Escape and Ctrl-C leave the search with the state as it was, no other key but Enter leaves it, and those that are not for the search do nothing |
| `EditorKeys.ReadEndsExactly` | `src/cli/editor.ts:358-572` | a key ends the read exactly when it is Enter without a menu, Ctrl-C, or Ctrl-D on an empty buffer, and never while a search is open |
| `KeyDecoder.ParseInput` | `src/cli/editor.ts:180-273` | the index loop, with the paste flag carried between chunks, gives the keys and the flag of the declarative decoder |
| `KeyDecoder.LineFeedIsEnter` | `src/cli/editor.ts:235-251` | a line feed is Enter whatever the control table or an override says of it |
| `KeyDecoder.StepAt` | `src/cli/editor.ts:198-270` | one turn of the loop: paste, control sequence, control character, printable run |
| `KeyBytes.StrokesDecode` | `src/cli/editor.ts:198-325` | whatever keys are pressed in any order, by whichever sequences a terminal has for them (section 5.4 of ECMA-48), as control characters or as a user has bound them, the bytes decode to exactly those keys; unless text follows text or a bracket follows Escape |
| `KeyBytes.SequenceDecodes` | `src/cli/editor.ts:217-228` | a whole control sequence decodes to the key it is of, and to nothing if it is of none |
| `KeyBytes.ByteDecodes` | `src/cli/editor.ts:230-257` | a character below the printable ones decodes to the key it was typed for or is bound to, and to nothing if there is none |
| `KeyBytes.BindingWins` | `src/cli/editor.ts:246-251` | a user's binding of a control character wins over the table, except for Escape, return, line feed and the two Backspace bytes, which no binding changes |
| `KeyBytes.StrokeMovesFlat` | `src/cli/editor.ts:400-514` | each editing or motion key, by its bytes, is its operation on the one text with an offset in it |
| `KeyBytes.ArrowsMove` | `src/cli/editor.ts:298-301` | the Left arrow's bytes move the cursor back one character where there is one, the Right arrow's on by one |
| `KeyBytes.DeleteCuts` | `src/cli/editor.ts:307-308` | the Delete key's bytes take the one character behind the cursor |
| `KeyDecoder.ParseSettled` | `src/cli/editor.ts:198-270` | what is typed before a paste decodes as if the paste did not follow |
| `KeyDecoder.PasteInChunks` | `src/cli/editor.ts:188-214` | a paste cut anywhere in its body into any number of reads: the keys before it, one text key for each non-empty piece and never an Enter, the paste closed, and the rest decoded as if unsplit |
| `KeyDecoder.ChunksAreTheStream` | `src/cli/editor.ts:188-214` | those chunks, put together, are the byte stream of one bracketed paste |
| `KeyDecoder.PiecesInsertTheBody` | `src/cli/editor.ts:401-422` | applying the pieces leaves the state that applying the whole body leaves, snapshots apart |
| `PasteCuts.ReadsKeepThePaste` | `src/cli/editor.ts:188-270` | for every body and any number of reads, cut anywhere: text keys alone that insert exactly the body, and the paste over, if and only if no cut is strictly inside a marker |
| `PasteCuts.CutKeepsThePaste` | `src/cli/editor.ts:188-270` | the same of two reads, by the place of the one cut |
| `PasteCuts.PastedNewlineIsEnter` | `src/cli/editor.ts:216-251` | cut inside the opening marker, the first newline of a pasted text is decoded as Enter |
| `PasteCuts.TwoPastedLinesSubmit` | `src/cli/editor.ts:216-251` | a concrete input: two pasted lines, the source's own tables, a cut after the first byte |
| `PasteCuts.CutInClosing` | `src/cli/editor.ts:188-214` | cut inside the closing marker, both halves of it become text and the paste stays open |
| `PasteCuts.CutInsideMarkerLeavesPasteOpen` | `src/cli/editor.ts:188-214` | over every cut, the paste is left open if and only if the cut is strictly inside the closing marker |
| `PasteCuts.DefaultBindsNoText` | `src/cli/editor.ts:275-325` | the source's tables, with any bindings that carry no text, are among those the results are about |
| `Layout.ChunkByColumns` | `src/cli/editor.ts:658-676` | the loop gives the pieces of the recursive definition |
| `Layout.ChunksAreExact` | `src/cli/editor.ts:658-676` | the pieces are the text, none is empty, none is wider than the budget, and none could have taken the next piece's first character |
| `Layout.RowsHoldTheLine` | `src/cli/editor.ts:713-729` | the rows of a line, prefix removed, are the line and nothing else |
| `Layout.LineRowsFit` | `src/cli/editor.ts:713-729` | with two columns beside the prefix every row fits and the last row is never full |
| `Layout.RowsFitWhenRoom` | `src/cli/editor.ts:713-729` | where some character is two columns wide, every line fits if and only if two columns are left beside the prefix |
| `Layout.CursorOnARow` | `src/cli/editor.ts:731-741` | the computed row is one of the line's rows and the column is on the screen, for every mix of widths |
| `Layout.CellIsLinear` | `src/cli/editor.ts:731-741` | where the text before the cursor really ends, in columns: its width, the prefix, and the columns left blank above it |
| `Layout.CursorCell` | `src/cli/editor.ts:731-741` | the sum and division of the source give that cell if and only if no row above was left short and the cell is not past the last column |
| `Layout.NarrowCursorIsExact` | `src/cli/editor.ts:731-741` | for width-1 text they always do |
| `Viewport.ComputeLayout` | `src/cli/editor.ts:699-745` | the loop over the lines gives the rows and the cursor cell of the definition |
| `Viewport.LayoutAgrees` | `src/cli/editor.ts:699-745` | every row of the whole layout fits, and the cursor is a column of one of them, for every mix of widths |
| `Viewport.WindowIsDivided` | `src/cli/editor.ts:850-855` | the two shares use all the content rows there are, and the menu passes half only when every buffer row is drawn |
| `Viewport.ViewFitsWindow` | `src/cli/editor.ts:826-880` | for a window of chrome + 2 rows or more the block is at most height - 1 rows, and the counts add up |
| `Viewport.NoWindowShowsAll` | `src/cli/editor.ts:826-848` | where the height is not known the whole buffer and the whole menu are drawn |
| `Viewport.ViewShowsCursorRow` | `src/cli/editor.ts:857-862` | the cursor row is inside the drawn slice and is the row the layout put the cursor on |
| `Viewport.ViewShowsSelection` | `src/cli/editor.ts:864-868` | the selected candidate is inside the drawn slice |
| `Viewport.WindowIsCentred` | `src/cli/editor.ts:857-868` | away from both ends the window has what it follows in its middle, and at an end it touches it |
| `Terminal.PutRowsShows` | `src/cli/editor.ts:956-989` | rows that fit and hold no control character, written with newlines between them from an empty row, each take one row of the terminal, and scroll it by exactly what does not fit |
| `Redraw.BodyIsRows` | `src/cli/editor.ts:956-989` | what the source concatenates - frame, menu, footer - is the block's rows with a newline between each two |
| `Redraw.FramedRowCloses` | `src/cli/editor.ts:964-971` | every framed row is measured as wide as the terminal, and its frame adds no control character to it; `RealEnds.FramedTabsOverflow` says when it really closes there |
| `Redraw.UpReachesTheBlock` | `src/cli/editor.ts:902-905` | moving up by the parked row and erasing leaves exactly what was above the block |
| `Redraw.DrawParks` | `src/cli/editor.ts:933-997` | from lines without control characters: the bytes of a redraw show exactly the view's rows, touch no row above and park the cursor on the view's cell; a search line likewise while it is one row |
| `EditorSession.RedrawParks` | `src/cli/editor.ts:1133-1137` | from a state without control characters, a redraw over a parked block starts on the block's own first row and parks the new one there |
| `EditorSession.RedrawChangesNothing` | `src/cli/editor.ts:1192-1195` | a redraw of an unchanged state leaves the screen as it is |
| `EditorSession.KeyStepIsSafe` | `src/cli/editor.ts:1160-1197` | one key through the driver, in any mode, that types no control character but line breaks: the screen stays right or the block is taken down |
| `EditorSession.RunKeepsInvariant` | `src/cli/editor.ts:1160-1197` | what every key of a kind keeps, every run of them keeps, and so does the part of the transcript that Ctrl-L spares |
| `EditorSession.SessionIsSafe` | `src/cli/editor.ts:1115-1207` | over every run of keys that type no control character but line breaks: transcript untouched, block exactly the view's rows, cursor parked in it; once the read is over the screen is the transcript again. Only Ctrl-L costs rows, and only those in the window |
| `EditorSession.NewStateIsFresh` | `src/cli/editor.ts:148-164` | the state a read starts from is one of those, if history holds no control character but line breaks |
| `EditorSession.ReadIsSafe` | `src/cli/editor.ts:1115-1207` | the same over any chunks of input a terminal delivers, from any screen, and what the read adds to history is again fit for the next |
| `EditorSession.ReadsAreSafe` | `src/cli/editor.ts:1115-1207` | so any number of reads, one after another, leave the transcript above the next one: all of it unless Ctrl-L was pressed |
| `EditorSession.FeedIsRest` | `src/cli/editor.ts:1160-1197` | chunk by chunk, decoded and applied with the paste flag between, is as the keys of all chunks at once |
| `ReadHistory.HistoryIsWhatWasSubmitted` | `src/cli/editor.ts:1144-1158` | after any reads, history is what it was and then the lines submitted, in order, without those that trim to nothing; an abandoned read and the end of input add none |
| `ReadHistory.UpsShowWhatWasSubmitted` | `src/cli/editor.ts:1115-1158` | so the first Up of the next read shows the line submitted last, and k Ups the k-th latest while those passed over are one line each |
| `ReadHistory.UpsShow` | `src/cli/editor.ts:523-533` | from a fresh prompt k Ups show the k-th latest entry of any history, under the same condition |
| `CursorOnScreen.CursorIsOnItsCharacter` | `src/cli/editor.ts:699-997` | on every screen a redraw has left of lines without control characters, with width-1 text on the cursor's line: the terminal's cursor stands on the character the buffer's cursor is before, and on a blank or past the row at the end of the line |
| `CursorOnScreen.SessionShowsTheCursor` | `src/cli/editor.ts:1115-1207` | so it does after every run of keys that type no control character but line breaks, while the read is on and no search is open |
| `CursorOnScreen.CutOnScreen` | `src/cli/editor.ts:699-997` | layout, viewport and frame together: what the drawn row holds before the cursor is exactly as wide as the cursor's column, and the text from the cursor on follows it |
| `DrawnText.LinesAreShown` | `src/cli/editor.ts:699-971` | on the screen a redraw leaves, every drawn row of every line shows exactly its piece of that line, behind the prompt, the continuation or nothing, between the frame's sides |
| `DrawnText.PiecesAreTheLine` | `src/cli/editor.ts:713-729` | those pieces, put together, are the line |
| `DrawnText.MenuIsShown` | `src/cli/editor.ts:974-987` | and each row of the menu shows its candidate, behind the mark if and only if it is the selected one |
| `DrawnText.DrawnCandidates` | `src/cli/editor.ts:864-880` | the candidates drawn are some of the menu's, one after another, and the selected row is that of the menu's selection |
| `DrawnText.SearchIsShown` | `src/cli/editor.ts:945-954` | while a search is open the one row says the query and the entry found, cut to the room there is |
| `DrawnText.SearchCursorIsFurtherOn` | `src/cli/editor.ts:952-953` | the cursor of a search is as many columns past the label as the query in the label is wide, so right behind it only for a query of no width or at the end of the row |
| `DrawnText.TruncatedIs` | `src/cli/render.ts:370-381` | a text that is cut is the longest front that leaves a column, and an ellipsis |
| `QuietRuns.KeyKeepsQuiet` | `src/cli/editor.ts:337-617` | no key in any mode brings a control character into a line, the kill ring, the menu, a snapshot or the draft that it does not itself type, given candidates without any |
| `QuietRuns.RunKeepsQuiet` | `src/cli/editor.ts:1160-1197` | the same over every run of keys |
| `RealEnds.PutsEnd` | `src/cli/editor.ts:956-989` | a text with tabs, returns, backspaces and line feeds stays on its row of the terminal if and only if its real end, tabs expanded, is on it; and there the cursor is |
| `RealEnds.ErasedExactly` | `src/cli/editor.ts:902-997` | of any state whatever it holds but escape sequences: the bytes of a redraw touch no row above, and the next redraw or the final erasure takes exactly the block away if and only if every drawn row really ends on its row |
| `RealEnds.SessionIsUntouchedExactly` | `src/cli/editor.ts:1115-1207` | over every run of keys, typing anything but escape sequences: after each key the transcript is whole and the cursor is on the recorded row, or the block is taken down, if and only if every row of every block drawn really ends on its row |
| `RealEnds.FramedTabsOverflow` | `src/cli/editor.ts:964-971` | a framed row whose control characters are tabs really closes in the last column if and only if it has none, because a tab is measured as no column |
| `RealEnds.FramedBlockStays` | `src/cli/editor.ts:964-971` | so a framed block is erased again if and only if no drawn row of the buffer has a tab |
| `RealEnds.PastedTabs` | `src/cli/editor.ts:188-204` | text pasted into an empty framed prompt, short enough for one row: what is drawn is erased again if and only if the text has no tab |
| `RealEnds.TabAndLetter` | `src/cli/editor.ts:188-204` | a concrete input: a tab and a letter, at any width, in any frame, behind any prompt |
| `SearchLine.SearchLineParksWhenOneRow` | `src/cli/editor.ts:948-954` | the search line leaves the cursor on the row the driver records if and only if its real end, tabs expanded, is on the row it starts on |
| `SearchLine.QuietSearchLineParks` | `src/cli/editor.ts:948-954` | without control characters in it, if and only if it is no wider than the terminal |
| `SearchLine.ShortSearchIsOk` | `src/cli/editor.ts:948-954` | it is one row while the caption leaves nine columns and neither the query nor history holds a control character |
| `SearchLine.ShortSessionIsSafe` | `src/cli/editor.ts:1115-1207` | the safety of every run that types no control character but line breaks and opens no search, or whose searches have room for everything typed, none of it and nothing in history with a control character; all as can be checked before it starts |
| `SearchLine.ShortSessionShowsTheCursor` | `src/cli/editor.ts:1115-1207` | in every such run the cursor stands on its character |
| `EditorSession.InputFrameIsOk` | `src/cli/render.ts:1048-1058` | with one-column glyphs and twelve columns the frame closes on all four sides |
| `EditorSession.Editor.DrawNow` | `src/cli/editor.ts:1133-1137` | the driver's redraw and recorded row are those of the specification |
| `EditorSession.Editor.Read` | `src/cli/editor.ts:1115-1143` | a read starts from a new state over the history so far and draws it |
| `EditorSession.Editor.Press` | `src/cli/editor.ts:1162-1195` | one key: Ctrl-L, the mode key, an edit with its redraw, or the end of the read, which adds to history what `HistoryIsWhatWasSubmitted` says |
| `EditorSession.Editor.PressAll` | `src/cli/editor.ts:1161-1196` | keys in order until one ends the read, each redrawn as specified |
| `EditorSession.Editor.OnData` | `src/cli/editor.ts:1160-1197` | one chunk, decoded and applied key by key, leaves the state, screen, paste flag and history of the specification |
| `EditorSession.Editor.Feed` | `src/cli/editor.ts:1160-1205` | chunks of input, as events deliver them until a key ends the read, are decoded and applied with the paste flag between them |
| `EditorSession.Editor.ReadLine` | `src/cli/editor.ts:1115-1207` | a whole read, chunk after chunk until a key ends it, leaves the state, screen and history that `ReadIsSafe` is about |
| `Seccomp.BuildFilter` | `native/mycoder-sandbox.c:217-250` | the array is filled to the program of the definition and is large enough |
| `Seccomp.FilterMeansTheLast255` | `native/mycoder-sandbox.c:217-250` | run by a BPF interpreter on any call, the filter of a list of any length allows exactly the calls of its architecture that are not among the last 255 entries |
| `Seccomp.FilterMeansTheList` | `native/mycoder-sandbox.c:217-250` | so up to 255 numbers it allows exactly the calls of its architecture that are not listed, and returns the error for every other |
| `Seccomp.FilterIsAccepted` | `native/mycoder-sandbox.c:225-250` | every jump lands inside the program and the last instruction returns |
| `Seccomp.LongListLetsOneThrough` | `native/mycoder-sandbox.c:244-246` | a number that is listed, but not among the last 255 entries, is allowed |
| `Seccomp.MeansTheListWhenReached` | `native/mycoder-sandbox.c:244-246` | any list is what its filter means if and only if every entry stands among its last 255 |
| `Seccomp.MeansTheListUpTo255` | `native/mycoder-sandbox.c:244-246` | a list without repetition is what its filter means if and only if it has at most 255 entries |
| `Launcher.VerbsAreOrdered` | `native/mycoder-sandbox.c:106-151` | reading is strictly within running, running strictly within writing, writing within what is handled; all of them grow with the ABI |
| `Launcher.LinesAreRead` | `native/mycoder-sandbox.c:308-314` | the lines of a plan reach the reader as written if and only if each is shorter than 4095 characters |
| `Launcher.CommandsAreRead` | `native/mycoder-sandbox.c:311-355` | from any point of the loop: a plan is accepted exactly when each command up to the end marker is well formed and the rules fit, and then the reader holds exactly what the commands say |
| `Launcher.PlanIsRead` | `native/mycoder-sandbox.c:296-360` | the same for the whole text: version and end marker required, rules in order, last setting wins, every other plan refused with the plan exit code |
| `Launcher.OnlyOneAsksForSeccomp` | `native/mycoder-sandbox.c:341-342` | an argument of `seccomp` other than 1 is not refused and asks for no filter |
| `Launcher.Plan.Add` | `native/mycoder-sandbox.c:284-294` | the rule is appended, or the exit code is the one for a relative path, an over-long one or a full table |
| `Launcher.Plan.Take` | `native/mycoder-sandbox.c:316-354` | one line changes the plan as the reader's step says, or refuses it |
| `Launcher.ReadPlanText` | `native/mycoder-sandbox.c:296-360` | the loop over the lines accepts and refuses exactly as specified |
| `Launcher.AddRules` | `native/mycoder-sandbox.c:479-504` | rules are requested in order with the narrowed masks until one cannot be added, whose exit code is returned |
| `Launcher.ConfineAndExec` | `native/mycoder-sandbox.c:506-531` | no_new_privs, then seccomp when asked for, then the ruleset, then exec: each only after the one before succeeded, and the exit code of the first that does not |
| `Launcher.Launch` | `native/mycoder-sandbox.c:442-531` | the target is executed if and only if the plan was accepted and every restriction it asks for could be applied, and then after all of them in order; otherwise the code is that of what went wrong first, there is no exec, and what has been asked of the system is a start of what the plan needs |
| `Launcher.ExitIsZero` | `native/mycoder-sandbox.c:442-531` | the exit code is zero if and only if the plan is accepted and everything it asks for can be applied |
| `Confinement.HandledExactly` | `native/mycoder-sandbox.c:70-113` | for every right and every ABI from 1 on: the ruleset handles the right if and only if that ABI knows it |
| `Confinement.NetHandledExactly` | `native/mycoder-sandbox.c:115-118` | binding and connecting over TCP are handled if and only if the ABI is 4 or later |
| `Confinement.GrantedExactly` | `native/mycoder-sandbox.c:134-150` | a rule carries exactly the rights of its verb, by name, that the ABI knows and the inode's kind can carry |
| `Confinement.LaunchPermits` | `native/mycoder-sandbox.c:296-531` | a launched target may use a right its kernel knows on an inode if and only if some `ro`, `rx` or `rw` line of the plan, of a verb that gives it, names a path above the inode that can carry it; it may never make device nodes |
| `Confinement.LaunchPermitsNet` | `native/mycoder-sandbox.c:470-475` | it may bind and connect over TCP unless the last word of the plan on the network is to deny it, and then not |
| `Confinement.LaunchIsConfinedFirst` | `native/mycoder-sandbox.c:460-531` | before the target runs: inherited descriptors closed first, no new privileges, the filter if and only if the plan's last word on it asks for it, the ruleset in force, and no exec before |
| `Confinement.CommandIsRead` | `native/mycoder-sandbox.c:311-355` | each command, written as a line, is read back as that command |
| `Confinement.PlanIsBack` | `native/mycoder-sandbox.c:308-355` | and a plan of commands, a short enough line each, as those commands |
| `Launcher.RulesAreThePlans` | `native/mycoder-sandbox.c:492-502` | every rule in force on exec comes from a line of the plan and carries a non-empty set of rights, within its verb's and within the handled ones |
| `Interference.Trap.Fire` | `evals/experiments/interference.ts:118-122` | counts the firing, records the work at stake the first time, and replaces the file |
| `Interference.Trap.ReadExecuted` | `evals/experiments/interference.ts:137-150` | the read trigger and its four conditions |
| `Interference.Trap.MutationExecuted` | `evals/experiments/interference.ts:165-192` | a stale refusal disarms, an error is not counted, the landing that reaches the threshold fires |
| `Interference.StepKeepsInvariant` | `evals/experiments/interference.ts:112-199` | every call, in any order, keeps: an armed trap has left no receipt that matches the file, and the first firing had the threshold's work behind it |
| `Interference.TrapAlwaysBites` | `evals/experiments/interference.ts:112-199` | over every run: once the threshold's work has landed no edit of the target lands until one has been refused as stale, and the first firing came no earlier than the threshold |
| `Interference.EveryReceiptIsStale` | `evals/experiments/interference.ts:112-199` | until then no receipt ever issued for the target matches it |
| `Interference.DisarmedForGood` | `evals/experiments/interference.ts:137-190` | a mutation answered as stale anywhere in a run disarms the trap for good: the firings stay those counted when it came, and from then on only a landed edit changes the target |
| `Interference.LogIsOfTheRun` | `evals/experiments/interference.ts:165-176` | over every run: the flag is set if and only if a mutation has been answered as stale, and the landings counted are those of the run |
| `Interference.ArmedUntilRefused` | `evals/experiments/interference.ts:137-150` | so the trap is armed if and only if nothing has been refused as stale and the threshold's work has landed |
| `Interference.FiringsAreCounted` | `evals/experiments/interference.ts:118-190` | it fires on exactly the reads and landings that the two triggers describe, each leaves the bytes of its number, and the first is the one whose stake is recorded |
| `Interference.RereadThenEditLands` | `evals/experiments/interference.ts:147-190` | after a run with such a refusal, a fresh read followed by an edit citing it succeeds |
| `Interference.UnknownPathDodgesTheTrap` | `evals/experiments/interference.ts:147-148` | an armed trap leaves a matching receipt behind a successful read if and only if the path read does not end with the target's |
| `ShellParse.TokenizeShell` | `src/cli/shell-parse.ts:86-153` | the character loop gives the tokens, or the error, of the definition |
| `ShellParse.QuotingRoundTrip` | `src/cli/shell-parse.ts:86-153` | words made of pieces in single or double quotes (sections 2.2.2 and 2.2.3 of XCU in IEEE Std 1003.1-2017), or without quotes and with a backslash before every blank, quote and backslash, in any mix, with any blanks between the words, tokenize back to exactly themselves, and exactly those without a quoted piece are bare |
| `ShellParse.RefusedExactly` | `src/cli/shell-parse.ts:86-153` | any line is refused if and only if a quote is left open or a backslash has nothing after it, and the message says which |
| `ShellParse.BackslashIsKept` | `src/cli/shell-parse.ts:111-122` | in double quotes a backslash before a character it does not escape stays, with that character |
| `ShellParse.BlanksAround` | `src/cli/shell-parse.ts:57-59` | blanks before and after a line change nothing |
| `ShellParse.ShowsInPrinted` | `src/cli/shell-parse.ts:171-172` | the raw-line test for `$(` sees it in a printed line exactly when it sees it in one of its words by itself |
| `ShellParse.ShowsInQuoted` | `src/cli/shell-parse.ts:171-172` | and in a quoted word exactly when it is in single quotes and shows behind a quote; never in double quotes |
| `ShellParse.OperatorsOfALine` | `src/cli/shell-parse.ts:57-78` | exactly what becomes of any printed line: refused when its last character is an escaped blank, because trimming leaves the backslash; otherwise a simple command of its words' values unless a word without a quoted piece holds an operator, escaped or not, or another shows `$(`; then it goes to a shell charged with exactly those |
| `ShellParse.QuotedLineIsSimple` | `src/cli/shell-parse.ts:57-78` | a line of arguments in single or double quotes, in any mix, is the simple command of its arguments, unless one in single quotes holds `$(` after a character other than a quote or backslash: exactly then it goes to a shell |
| `ShellParse.GluedIsSimple` | `src/cli/shell-parse.ts:127-131` | an operator glued to a quoted piece is not seen, whichever it is but `$(`: `"a"|sh` is the name of one command |
| `BlankCode.BlankNonCode` | `scripts/lint.ts:98-232` | the loop writes the text of the definition, for both projections |
| `BlankCode.StepInCode` | `scripts/lint.ts:112-158` | one turn in code: comments, regular expressions and literals open where the source says |
| `BlankCode.StepOutsideCode` | `scripts/lint.ts:160-228` | one turn inside a comment, a literal or a regular expression |
| `BlankCode.LengthSurvives` | `scripts/lint.ts:98-232` | the output is as long as the source, and one longer exactly when the source ends in an escape |
| `BlankCode.BlankMasks` | `scripts/lint.ts:98-232` | every output character is the source character at its place or a blank |
| `BlankCode.NewlinesSurvive` | `scripts/lint.ts:98-232` | newlines stay exactly in place if and only if no escape takes one |
| `BlankCode.ProjectionsAgree` | `scripts/lint.ts:757-762` | whatever is not blank in the code projection is the same character at the same place in the text projection |
| `BlankCode.LineNumbersSurvive` | `scripts/lint.ts:306-313` | so the line and column found in a projection are those of the source, outside those two cases |
| `BlankCode.PositionsSurvive` | `scripts/lint.ts:98-232` | a source without a backslash directly before a newline or its end keeps its length, its newlines and every line's length in both projections |
| `BlankCode.PlainCodeIsKept` | `scripts/lint.ts:154-157` | code without quotes or slashes is kept character for character |
| `BlankCode.LineCommentIsBlanked` | `scripts/lint.ts:113-118` | a line comment is blank to its end and code goes on after it |
| `BlankCode.LiteralIsBlankedOrKept` | `scripts/lint.ts:134-228` | a string, escapes and all, is blanked with its quotes in one projection and kept whole in the other, and code goes on after its closing quote |
| `BlankCode.BlockCommentIsBlanked` | `scripts/lint.ts:119-124` | a block comment is blank to its first closing mark, line breaks kept, and code goes on after it |
| `BlankCode.RegexIsBlanked` | `scripts/lint.ts:125-187` | a regular expression is blanked in both projections to the slash that ends it, which is none in a character class or behind a backslash, and code goes on after it |
| `BlankCode.OpenRegexEndsWithItsLine` | `scripts/lint.ts:176-182` | one that does not end on its line is blanked to the line's end and code goes on with the next |
| `BlankCode.DivisionIsKept` | `scripts/lint.ts:125-158` | a slash that cannot start an expression, and opens no comment, is code |
| `Highlight.HighlightLine` | `src/cli/highlight.ts:182-266` | the scan, with the carried comment state, writes the pieces and leaves the state of the definition |
| `Highlight.LexFrom` | `src/cli/highlight.ts:200-263` | the loop strictly advances and appends the pieces of the rest of the line |
| `Highlight.HighlightingKeepsText` | `src/cli/highlight.ts:182-266` | stripping the colours gives the line back, for every language and carried state |
| `Highlight.StateIsRight` | `src/cli/highlight.ts:193-216` | after a line the state says a comment is open exactly when a character-by-character lexer of strings and comments is inside one |
| `Highlight.CommentIsCarried` | `src/cli/highlight.ts:193-216` | the same over any sequence of lines |
| `Highlight.ColoursFit` | `src/cli/highlight.ts:208-260` | a coloured piece is what its colour stands for: keyword, type, number, string or comment |
| `Highlight.WordsAreWhole` | `src/cli/highlight.ts:220-255` | words and numbers are coloured whole: each piece that starts like one is all of it |
| `Highlight.WholeLines` | `src/cli/highlight.ts:182-276` | a line of no known language is left as it is, and a line of a diff has the one colour of what it starts with |
| `Corpus.GroupRows` | `scripts/evidence-corpus.ts:129-146` | each key lists, in order and once, exactly the rows that carry it |
| `Corpus.SortOrders` | `scripts/evidence-corpus.ts:153` | the stable sort orders a group by milestone and then by row |
| `Corpus.SortKeepsRows` | `scripts/evidence-corpus.ts:153` | and rearranges it without loss |
| `Corpus.CheckOneClaimOneStatus` | `scripts/evidence-corpus.ts:124-181` | for any rows: every report is a conflict - a shared key, another status, the later notes silent about the earlier milestone - no pair of places is reported twice, and no conflict goes unreported |
| `Corpus.ReportIsExact` | `scripts/evidence-corpus.ts:124-181` | when no two rows stand in one place the reports are exactly the ordered conflicting pairs, each once, even when both keys group a pair |
| `Corpus.SameClaimIs` | `scripts/evidence-corpus.ts:128-147` | two rows are one claim if and only if they say the same once normalised, or carry the same index id, in an open marker or, without one, in a closed one |
| `Corpus.CheckIndexReconciliation` | `scripts/evidence-corpus.ts:191-255` | the findings are exactly the open rows with no marker, with several, with an unknown id, and the entries no row names, each once |
| `Corpus.NoFindingMeansReconciled` | `scripts/evidence-corpus.ts:191-255` | nothing is found if and only if every open row has one marker and rows and index name the same ids |
| `Friction.CountEvent` | `evals/runners/run.ts:461-486` | one turn of the loop changes its three tables as defined |
| `Friction.ToolFrictionFromLog` | `evals/runners/run.ts:440-490` | the loop over the log leaves the table of the definition |
| `Friction.CallsAreCounted` | `evals/runners/run.ts:461-476` | a tool's calls are the calls naming it, its repeats those whose key was seen before |
| `Friction.ErrorsAreCounted` | `evals/runners/run.ts:478-486` | a tool's count of a code is the errors with that code that name it, or that answer its call when they name none |
| `Friction.FrictionConserves` | `evals/runners/run.ts:440-490` | total calls are the named calls, total errors the error events, total repeats the hashed calls less the distinct keys |
| `Friction.CodesSumToErrors` | `evals/runners/run.ts:483-485` | each tool's codes add up to its errors |
| `Friction.RepeatsAreTheToolsUnlessShared` | `evals/runners/run.ts:468-475` | every tool's repeats are its hashed calls less its distinct keys if and only if no two tools have used one key |
| `Friction.RepeatsAre` | `evals/runners/run.ts:468-475` | in every log: repeats and distinct keys of a tool are its hashed calls and those under keys only other tools had used |
| `Friction.RepeatsAreTheTools` | `evals/runners/run.ts:468-475` | so it is when no hash holds a colon |
| `Friction.ColonsCanCollide` | `evals/runners/run.ts:469` | a concrete log with a shared key: a tool called once is charged a repeat |
| `Friction.LogsAdd` | `evals/runners/run.ts:440-490` | one log after another: calls add tool by tool, repeats never fall short of the two, no error is lost |
| `Friction.SplitFriction` | `evals/runners/run.ts:507-517` | the two halves partition the table by the prefix, entries unchanged |
| `Friction.MergeFriction` | `evals/runners/run.ts:520-536` | the nested loops give the entry-by-entry sum of the tables |
| `Friction.HalvesMergeBack` | `evals/runners/run.ts:507-536` | merging the two halves of a split gives the table back |
| `Friction.MergesMerge` | `evals/runners/run.ts:520-536` | attempts may be merged in any grouping |
| `Friction.MergeAddsTotals` | `evals/runners/run.ts:528-530` | merging loses no call, error or repeat |
| `Friction.MergeCounts` | `evals/runners/run.ts:520-536` | over any number of tables: a merge counts for each tool, column and error code what the tables count together |
| `Friction.MergeKeepsCodes` | `evals/runners/run.ts:528-532` | and its codes still add up to its errors |
| `Box.HardWrap` | `src/cli/render.ts:597-613` | the loop gives the parts of the definition |
| `Box.HardWrapIsExact` | `src/cli/render.ts:597-613` | the parts are the text, each fits, and none could have taken the next one's first character |
| `Box.WrapRuns` | `src/cli/render.ts:628-652` | the loop over runs gives the rows of the definition |
| `Box.WrapRunsWraps` | `src/cli/render.ts:628-652` | the rows are the text broken at white space only, starting and ending with a word, within the width unless one word, and broken only where the next word does not fit |
| `Box.WrapsKeepInk` | `src/cli/render.ts:628-652` | so everything but white space is kept, in order |
| `Box.Box` | `src/cli/render.ts:654-689` | the loops fit and frame the lines as defined; a negative bar throws |
| `Box.BoxIsEven` | `src/cli/render.ts:654-689` | when every line that has to be wrapped has room behind its indent, all rows of the box have one width, within the width asked for |
| `Box.BoxIsEvenExactly` | `src/cli/render.ts:654-689` | all rows of a box, bars included, have one width if and only if no fitted row is wider than the room inside |
| `Box.BoxIsTight` | `src/cli/render.ts:654-663` | the box is as wide as asked, or else as its widest line needs, or has eight columns when all are narrower |
| `Box.IndentIsSafe` | `src/cli/render.ts:668-677` | an indent is safe for every text if and only if it leaves that room |
| `Box.TenColumnsAreRoom` | `src/cli/render.ts:674-675` | for spaces the room is ten columns |
| `Box.BoxKeepsInk` | `src/cli/render.ts:664-678` | the fitted rows hold all the lines' characters but white space, in order |
| `Box.BoxShowsTheRows` | `src/cli/render.ts:680-687` | between its two bars the box shows the fitted rows, one a row, in order |

## Left out

- Strings are sequences of single-unit characters: surrogate pairs, and the difference between UTF-16
  units and code points, are not modelled. Upper and lower case is a function the host supplies.
- The width tables behind `charWidth`; any function into 0, 1 and 2 will do for every theorem.
- Colour codes inside buffer lines, candidates or box lines: the palette is a pair of codes around a
  text, and no text holds one.
- Escape sequences and the control characters from 128 to 159 in drawn text: the terminal does not read
  them, and every result that lets control characters be drawn excludes these (`RealEnds.Readable`).
  Tab stops are every eight columns, the last column at most.
- The terminal is a window over an ever-growing list of rows. Line feed also returns the carriage, as
  it does with output processing on; resizing, alternate screens and scroll regions are not modelled.
- Raw mode, the paste on/off codes, signals, teardown on exit, timers and the end-of-input
  subscription of the driver; `onChange` and `onClear` notices.
- Shift-Tab's host notice: the key redraws and nothing is printed above the block. Options, prompts
  and window size do not change during a read.
- EditorSession.KeyStep: redraws when the new state differs from the old as a value, where the source
  compares object identity and so also redraws equal states; `RedrawChangesNothing` covers those.
- EditorSession.SessionIsSafe: keys that type no control character but line breaks, and searches that
  show one row, because otherwise the source does mis-park: `SessionIsUntouchedExactly` and
  `SearchLineParksWhenOneRow` are the exact conditions. They speak of the rows and the transcript; what
  is shown inside a row with a return or a backspace in it is not described.
- EditorSession.ReadsAreSafe: nothing else is printed between two reads; `ReadIsSafe` starts from any
  screen, so a read after other output is safe by itself.
- KeyDecoder.PasteInChunks: cuts fall inside the body, not inside a marker, because there the source
  loses the paste; `PasteCuts` treats every way of cutting a paste with no input around it.
- KeyBytes.StrokesDecode: one chunk, whose sequences are whole; text that follows text is one text, and
  a bracket behind a bare Escape begins a sequence, as the source reads them.
- PasteCuts.ReadsKeepThePaste: bindings carry no text, as the actions a user may bind do not.
- EditorRuns.RunIsTakenBack: gives back the lines, not the cursor, which the source does not snapshot
  on motions.
- Layout.NarrowCursorIsExact: width-1 text; for any other text the exact condition is `CursorCell`.
- CursorOnScreen.CursorIsOnItsCharacter: width-1 text on the cursor's line, for the same reason; the
  other lines, prompts and frame are arbitrary but for control characters.
- Confinement.LaunchPermits: one ruleset, by the rule that a handled right needs a rule above the inode;
  which inodes lie below a path is a parameter. Rights of a newer ABI than the kernel's are not handled,
  and the kernel's own exception for linking and renaming between directories is not modelled.
- Rights are sets instead of bit masks, and requests to the kernel are steps that succeed or fail:
  Landlock, file descriptors, `close_inherited_fds`, argument parsing, `--probe` and a failing `execvp`
  are not modelled, nor NUL bytes in a plan.
- Seccomp.BuildFilter: takes the architecture and the numbers as parameters; the refusal to build for an
  unknown architecture is not modelled, nor the 16-bit program length, which a list past 65529 overflows.
- What the receipts guard guarantees in the interference protocol is assumed: a call lands on the target only with
  an issued receipt that matches. The trap's tools other than Read and the mutators never touch it.
- ShellParse.ParseShellLine: the operators of a compound line are a set, so the order of their labels is
  not modelled; `describePlan` is left out.
- Lint rules, suppressions and the regular expressions they use; only the line numbering they rely on.
- The keyword tables of the highlighter's languages: a language is a parameter whose comment marks and
  quotes are not empty and do not start like a word or a number.
- Corpus.CheckOneClaimOneStatus: normalising a claim and finding index markers are parameters, because
  they are regular expressions; a pair is remembered as two places rather than as one string;
  `checkClosedAnnotations` is left out.
- Friction.ToolFrictionFromLog: takes the parsed events; a table is a map, so names of built-in object
  properties are ordinary names. `wastedCallRatio`, the distributions and the printed report are left out.
- Box.BoxIsEven: one way from the indents, because whether a tight one spoils a particular box depends
  on where its words end; `IndentIsSafe` says exactly which indents are safe for every text, and
  `BoxIsEvenExactly` exactly which fitted rows make an even box.
- Box.Box: gives the rows; joining them with newlines and colouring the frame are left out.
- The menu, the select list, key bindings, arguments, exit codes and the rest of the kernel, evals and
  scripts: table lookups, wiring, or easier instances of what is here.
