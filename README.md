# A kanban board in a terminal, modelled in Dafny

The program is a three-lane kanban board (TODO, DOING, DONE) that runs in a terminal.
It draws every frame into a fixed 80 × 24 character buffer made of box-drawing glyphs, prints the buffer, and then reads keys:
- `h` and `l` move the selected lane;
- `a` enters Add mode;
- in Add mode, typed characters build a task text; a newline appends that text as a task to the selected lane, Backspace deletes the last character and Esc leaves Add mode;
- `Q` quits.

This project models the drawing primitives, the layout of a frame, the task store and the key state machine together with the main loop, and proves what each of them does.

Modules, one per concern of the program:

- `Grid` (grid.dfy) holds the buffer dimensions, the sixteen glyph constants, the `Outcome` of a drawing call (done, or the panic that aborts the program), and the bounds-checked cell write `Put`.
- `Ui` (ui.dfy) holds the primitives of `src/ui.rs` as methods on an `array2<char>` buffer: `DrawBox`, `DrawDoubleBox`, `DrawBorders`, `DrawRow` and `DrawTextObject`, which lays out a `TextObject`.
  - Each method's contract gives its outcome and, when it succeeds, the new value of every cell in terms of a pure write function (`BoxWrite`, `FrameWrite`, `PartitionWrite`, `TextWrite`).
  - Lemmas state the geometry of those write functions.
- `Db` (db.dfy) holds `Task`, the `Column` class and `add_task`.
- `Script` (script.dfy) describes a frame as the sequence of drawing calls it makes (`Op`).
  - `Render` gives what a cell shows after a sequence of calls.
  - `OpsOutcome` gives the first panic.
  - `Covers` relates two frames.
- `Layout` (layout.dfy) holds `draw_column_title`, `draw_text_at_column`, `draw_column`, the highlight of the selected lane and the calls of a whole frame.
  - Lemmas describe how task boxes stack: as written, and as evidently intended.
- `Session` (session.dfy) holds the key machine of `src/main.rs` as a pure `Step` function, key sequences (`Feed`) and the whole session (`Play`/`Listen`).
  - The `Board` class holds main's variables.
  - `Board.HandleKey`, `Board.Refresh` and `Board.Run` change those variables and the buffer, and are proved against `Step` and `Play`.

The buffer is never cleared between frames: `clear_screen` only sends escape codes to the terminal.
The model proves that this is harmless. Every frame draws every cell the previous frame drew (`Layout.FrameCoversEarlier`, `Session.StepCovers`), so after each frame the buffer shows exactly that frame drawn over a blank buffer (`Session.Board.Refresh`, `Session.Board.Run`).

A panic (Rust's checked indexing, the "Box out of bounds" and zero-size checks, an unsigned subtraction below zero in a debug build) is an `Outcome.Panic` with its reason. The program aborts at that point, so contracts leave the buffer unspecified after a panic.

## Model

| member | source | states |
|---|---|---|
| Grid.Put | src/ui.rs:131 | An indexed buffer write happens exactly when the cell is inside the 24 × 80 buffer (otherwise the index panics), and no other cell changes |
| Ui.DrawCorners | src/ui.rs:72-75 | The four corner writes, in order, after the bounds check: a corner on row 24 or column 80 fails with an index panic; otherwise exactly the corner cells change, and a later corner wins where corners coincide |
| Ui.DrawBox | src/ui.rs:66-87 | Panics with "box out of bounds" exactly when x+width > 80 or y+height > 24, and with an index panic when the far edge lies exactly on 80 or 24. Otherwise every cell becomes the as-written box geometry: edge loops over absolute rows 1..height-1 and columns 1..width-1 |
| Ui.DrawDoubleBox | src/ui.rs:89-110 | Same outcome as draw_box. On success the cells become exactly the double-line perimeter: corners, and edges strictly between them; nothing else changes |
| Ui.DrawBorders | src/ui.rs:45-47 | Draws the single-line box (79, 23) at the origin, which never panics |
| Ui.DrawRow | src/ui.rs:49-64 | Panics exactly when size is 0. Otherwise every cell becomes the frame plus, at each separator column i*(80/size) for 1 <= i < size, a T-junction on rows 0 and 23 and a vertical bar between them |
| Ui.SeparatorInRange | src/ui.rs:55-57 | Every separator column of a partition lies inside the buffer |
| Ui.DrawTextObject | src/ui.rs:127-139 | Puts character k at row y + k/w and column x + k mod w, where w is the width and a width of 0 wraps after every character. Panics exactly when one of these cells is outside the buffer. On success sets height to y + len/w + 1 and changes no other cell |
| Ui.TextObject.constructor | src/ui.rs:30-35 | A text object has text, position and width, and begins with no height |
| Ui.WrapWidth | src/ui.rs:133-136 | The wrap width the layout loop really uses is positive |
| Ui.BoxFailsOnTheEdge | src/ui.rs:67-75 | A box routine succeeds exactly when its far corner is strictly inside the buffer; the explicit check refuses exactly the boxes whose far corner is past the edge |
| Ui.FrameCorners | src/ui.rs:95-98 | With a positive width and height the four corners of a double box keep their four corner glyphs |
| Ui.FrameEdges | src/ui.rs:101-109 | A double box writes a cell exactly when the cell is on its perimeter. Vertical edges cover rows y+1..y+height-1 and horizontal edges cover columns x+1..x+width-1 |
| Ui.BordersFrameTheBuffer | src/ui.rs:45-47 | The borders put horizontals on rows 0 and 23, verticals on columns 0 and 79, the single corners in the buffer's corners, and leave every inner cell alone |
| Ui.BoxAtOriginIsFrame | src/ui.rs:78-86 | At the origin (its only use) the as-written draw_box is exactly the box on its own perimeter |
| Ui.BoxOffOriginStrays | src/ui.rs:78-86 | Away from the origin draw_box writes a bar off its perimeter and leaves a hole in its left edge (see Findings) |
| Ui.PartitionSeparators | src/ui.rs:55-63 | Each separator column is in range and shows the down T on row 0, the up T on row 23 and a vertical bar in between |
| Ui.ThreeLaneSeparators | src/ui.rs:55-57 | With three lanes the separators are at columns 26 and 52 and nowhere else |
| Ui.TextReadBack | src/ui.rs:130-137 | The k-th character of the text can be read back from its layout cell |
| Ui.TextWritesOnlyItsCells | src/ui.rs:130-137 | Every cell the layout writes is the cell of one of its characters and holds that character |
| Ui.TextHeightShape | src/ui.rs:138 | The height is an absolute row. It is y+1 for an empty text; otherwise it is the row after the last character, plus one more when the length is a multiple of the width |
| Ui.TextFitsExactly | src/ui.rs:131 | The layout fits exactly when the last line is above row 24 and the widest line ends before column 80 |
| Ui.WrapStep | src/ui.rs:132-136 | One iteration of the layout loop advances the counters from index i to index i+1 |
| Db.WithTask | src/db.rs:16-19 | add_task appends exactly one task, with the given text and position 0; the earlier tasks and the title are unchanged |
| Db.Column.constructor | src/db.rs:10-13 | A column holds its title and its tasks |
| Db.Column.AddTask | src/db.rs:16-19 | The column's new value is the old one with the task appended |
| Script.LastWriteAppend | src/main.rs:92-100 | Drawing a then b: a cell shows b's write if b reaches it, else a's |
| Script.RenderAppend | src/main.rs:98-100 | Drawing a then b over what a left is drawing a + b |
| Script.OpsOutcomeAppend | src/main.rs:92-100 | Calls in sequence stop at the first panic |
| Script.OpsOutcomeOk | src/main.rs:92-100 | A sequence of calls succeeds exactly when every call succeeds |
| Script.LastWriteSome | src/main.rs:92-100 | A cell is drawn exactly when some call reaches it |
| Script.CoversByCalls | src/main.rs:92-100 | A frame covers another when every cell any call of the other reaches is reached by one of its own calls |
| Script.RenderOverCovered | src/main.rs:91-100 | A frame drawn over a frame it covers leaves no trace of the older frame |
| Layout.DrawColumnTitle | src/main.rs:22-31 | The title starts at x = 26*i + 13 - len/2 on row 1 with wrap width 26. Panics exactly when that subtraction goes below zero or the text does not fit |
| Layout.BoardTitlesFit | src/main.rs:22-31 | TODO, DOING and DONE start at columns 11, 37 and 63 and fit |
| Layout.DrawTextAtColumn | src/main.rs:33-42 | A text object with wrap width 23 at the given position, laid out; on success its height is the layout's height |
| Layout.DrawTask | src/main.rs:48-50 | One task: its text at (80i/3+2, cursor+1), that is x = 2, 28 or 55, then a double box at (26i, cursor) as high as the text's reported height. The next cursor is that height |
| Layout.DrawColumn | src/main.rs:44-52 | The column's outcome and cells are those of its title followed by each task's text and box, in order, with the running cursor from 2 |
| Layout.TaskTextColumns | src/main.rs:48 | Task texts start at columns 2, 28 and 55, three columns right of the lane edge (52) in the last lane |
| Layout.TaskOpsAt | src/main.rs:46-51 | Call 2k is task k's text at x = 80i/3+2 (2, 28 or 55), y = cursor+1, width 23. Call 2k+1 is its box at x = 26i, y = cursor, with height equal to the next cursor |
| Layout.CursorAdvance | src/main.rs:50 | Each task replaces the cursor by its text's reported height, which is at least two rows lower |
| Layout.CursorGrowth | src/main.rs:46-50 | After n tasks the cursor is at least 2n below where it started |
| Layout.TaskOpsAppend | src/main.rs:47-51 | The calls for a + b are a's calls followed by b's, with b starting at the cursor a leaves |
| Layout.ColumnStep | src/main.rs:47-51 | How the calls of draw_column grow by one task |
| Layout.HighlightFits | src/main.rs:93-97 | The highlight is a 26-wide (27 for DONE) and 23-high double box at x = 26*selected, and it never panics |
| Layout.HighlightUnderPartition | src/main.rs:92-97 | Every cell of a highlight is a cell of the three-lane partition |
| Layout.ColumnGrows | src/main.rs:44-52 | Adding a task only appends calls to a lane's drawing |
| Layout.ColumnsOpsGrow | src/main.rs:98-100 | A call of the lanes' drawing is still made after lanes only grew |
| Layout.FrameCoversEarlier | src/main.rs:91-100 | A frame covers every earlier frame whose lanes it extends, whichever lanes both highlight, so the never-cleared buffer shows the latest frame |
| Layout.AsWrittenBoxesOverlap | src/main.rs:49-50 | As written, each task box reaches past the top of the next task's box |
| Layout.SixShortTasksCrash | src/main.rs:49-50 | Six one-letter tasks in TODO make the sixth box panic with "box out of bounds" |
| Layout.OneLetterTaskAt | src/main.rs:48-50 | The k-th one-letter task has its text on row 2k+3 and its box from row 2k+2 with height 2k+4 |
| Layout.OneLetterCallFits | src/main.rs:48-50 | The first five one-letter tasks are drawn within the buffer |
| Layout.IntendedTaskAt | src/main.rs:48-50 | Corrected, task k's box runs from the cursor down to the next cursor |
| Layout.IntendedBoxesStack | src/main.rs:49-50 | Corrected, each box ends on the row where the next one starts |
| Layout.IntendedTextInsideBox | src/main.rs:48-49 | Corrected, every character of a task's text lies strictly between its box's top and bottom rows |
| Layout.IntendedSixShortTasksFit | src/main.rs:49-50 | Corrected, six one-letter tasks fit in a lane |
| Layout.IntendedOneLetterCallFits | src/main.rs:48-50 | Corrected, every one of up to ten one-letter tasks is drawn within the buffer |
| Session.Step | src/main.rs:110-161 | One key keeps the selection in 0..2. A key that does not repaint changes neither the selection nor the lanes |
| Session.SelectionMoves | src/main.rs:118-129 | h moves the selection one lane left and l one lane right, both modulo 3, and both repaint |
| Session.SelectionCycles | src/main.rs:118-129 | Three h, or three l, return to the starting lane |
| Session.QuitOnlyFromNormal | src/main.rs:112-117 | The session ends exactly on Q in Normal mode, without any change |
| Session.RepaintExactly | src/main.rs:118-151 | The keys that leave the key loop for a repaint are exactly h, l and a in Normal mode, and Esc and newline in Add mode |
| Session.NormalIgnores | src/main.rs:135 | Any other key in Normal mode changes nothing |
| Session.AddModeRoundTrip | src/main.rs:130-142 | a enters Add mode and Esc leaves it; the typed text is kept across both |
| Session.TypingAndBackspace | src/main.rs:143-155 | In Add mode any character but newline is appended, Backspace removes it, and Backspace on empty text does nothing |
| Session.CommitAddsToSelected | src/main.rs:146-151 | Newline adds the typed text as the last task of the selected lane only, clears the text and returns to Normal mode |
| Session.StepCovers | src/main.rs:89-161 | After any key the next frame covers the previous one |
| Session.Feed | src/main.rs:110-161 | A key sequence keeps the state valid |
| Session.FeedCons | src/main.rs:110-161 | Feeding a key that does not end the session, then the rest |
| Session.FeedAppend | src/main.rs:110-161 | Keys without Q can be fed in two parts |
| Session.TypingAppends | src/main.rs:146-155 | Typing a string in Add mode appends it to the typed text |
| Session.LanesGrow | src/main.rs:146-151 | Over any key sequence every lane keeps its title, and its tasks only grow at the end |
| Session.SelectLastLaneAndAdd | src/main.rs:126-134 | l, l, a from TODO select DONE and enter Add mode |
| Session.TypingThenKeys | src/main.rs:146-155 | Typing any text without a newline in Add mode, Q included, appends it to the typed text and leaves the key loop running for the keys after it |
| Session.AddToLastLane | src/main.rs:110-161 | l, l, a, any text without a newline (Q included) and newline append the earlier typed text plus that text as a task to DONE, leave the other lanes alone, clear the text and return to Normal mode |
| Session.ShipItScenario | src/main.rs:110-161 | With "buy milk" in TODO, l l a "ship it" newline leaves DONE holding exactly "ship it" |
| Session.BackspaceEscapeScenario | src/main.rs:139-145 | "abc", two Backspaces and Esc leave "a" typed, in Normal mode |
| Session.ListenFollowsFeed | src/main.rs:89-163 | A session that does not crash ends in the state its keys lead to |
| Session.RepaintIdempotent | src/main.rs:91-100 | Drawing a frame twice gives the frame once |
| Session.DrawLanes | src/main.rs:98-100 | draw_column for each lane in order: the outcome is the first panic, and the cells are those of all the lanes' calls |
| Session.DrawHighlight | src/main.rs:93-97 | The highlight of the selected lane is drawn and never panics |
| Session.LaneStep | src/main.rs:98-100 | Drawing lane i after the lanes before it; a panic there is the frame's panic |
| Session.LanePanics | src/main.rs:98-100 | A panic in lane i is the outcome of the whole lanes loop |
| Session.ColumnsOpsPrefix | src/main.rs:98-100 | The calls of the first i lanes begin the calls of the first n |
| Session.Board.constructor | src/main.rs:64-88 | Fresh buffer and columns: a blank buffer, lanes TODO, DOING and DONE as loaded, lane 0 selected, Normal mode, empty text |
| Session.Board.DrawFrame | src/main.rs:92-100 | Partition, highlight, then the lanes; outcome and cells are those of the frame's calls |
| Session.Board.Refresh | src/main.rs:91-100 | After a frame is drawn over the never-cleared buffer, the buffer shows exactly that frame over a blank buffer |
| Session.Board.HandleKey | src/main.rs:111-160 | Main's variables and the selected column change exactly as Step says, and the buffer invariant is kept |
| Session.Board.ReadKeys | src/main.rs:110-162 | Keys are handled until one repaints or quits, or until the keys run out, as Listen says |
| Session.Launch | src/main.rs:64-163 | From the loaded tasks, the board and its main loop end exactly as the session over the keys does, starting on lane 0 in Normal mode with no text |
| Session.Board.Run | src/main.rs:89-163 | The main loop ends as Play says. When it does not crash, main's variables are the end state and the buffer shows the current frame |

## Left out

- Terminal output is not modelled: `draw_buffer`, `draw_options`, `clear_screen`, the "Selected column" status line and the `> text` prompt only write to the terminal and do not change the buffer or the state.
- Raw mode and stdin: keys are a parameter of `Run`. `Waiting` is the program blocked reading the next key. At end of input the program would repaint forever, because `keys()` returns at once; that is not modelled. A failing key read (`character.unwrap()`) is not modelled.
- Persistence, `load_data`, `create_db`, JSON (de)serialisation, the `migrate` argument and the "Save" comment on Q: the tasks are a parameter of the constructor, and Q saves nothing in the source either.
- Session.Board.Run: says nothing about the buffer after a panic, because the program aborts there.
- Layout.DrawColumnTitle: models the debug-build panic on a title x below zero; the release-build wrap-around is not modelled.
- Integer width: `usize` arithmetic is unbounded here. Every index the program computes is far below 2^64.
- Text is a sequence of characters, and the title offset uses its length. The source divides the UTF-8 byte length, which is the same for ASCII titles only.
- Layout.DrawColumn: follows the code as written. The corrected stacking (`IntendedTaskOps`) is stated and proved separately, because the board under study is the program as written.

## Findings

| source | as written | input that shows it | evidently intended | confidence | as-written member | corrected member |
|---|---|---|---|---|---|---|
| src/ui.rs:78-86 | draw_box's edge loops run over the absolute rows 1..height-1 and columns 1..width-1, whatever the box's position | a 2 × 2 box at (5, 5): a bar appears at row 1, column 5, and the middle of its left edge (6, 5) stays empty | rows y+1..y+height-1 and columns x+1..x+width-1, as draw_double_box does | not executed (harmless in the program, whose only draw_box is at the origin) | Ui.BoxOffOriginStrays | Ui.FrameEdges |
| src/main.rs:49-50 | draw_column passes the text's absolute reported height as the box's height | six one-letter tasks in one lane: the sixth box starts on row 12 with height 14 and fails the "box out of bounds" check; every box also reaches into the next one | the box height relative to its top, last_height, so that boxes stack | not executed | Layout.SixShortTasksCrash | Layout.IntendedSixShortTasksFit |
