/**
 * How one frame of the board is laid out: the lane titles, the stacked task
 * boxes of each lane, the highlight of the selected lane and the order of the
 * drawing calls of a whole frame.
 */
module Layout {
  import opened Grid
  import opened Ui
  import opened Script
  import opened Db

  const COLUMNS_AMOUNT: nat := 3
  const COLUMN_WIDTH: nat := WIDTH / COLUMNS_AMOUNT

  /** The wrap width of a task's text. */
  const TASK_TEXT_WIDTH: nat := WIDTH / 3 - 3

  // ---------------------------------------------------------------------------
  // Titles

  /**
   * The x at which a lane title starts: the lane's middle minus half the
   * title's length. Below zero the unsigned subtraction of the program fails.
   */
  function TitleX(columnIndex: nat, title: string): int {
    var columnWidth := WIDTH / 3;
    columnIndex * columnWidth + columnWidth / 2 - |title| / 2
  }

  function TitleOp(columnIndex: nat, title: string): Op {
    var x := TitleX(columnIndex, title);
    if x < 0 then Fail(SubtractOverflow) else Text(title, Position(x, 1), WIDTH / 3)
  }

  /** draw_column_title: the title on row 1, centred in its lane, wrapped at the lane width. */
  method DrawColumnTitle(grid: array2<char>, columnIndex: nat, text: string) returns (out: Outcome)
    requires IsBuffer(grid)
    modifies grid
    ensures out == OpOutcome(TitleOp(columnIndex, text))
    ensures out.Panic? <==> TitleX(columnIndex, text) < 0 || !TextFits(text, TitleX(columnIndex, text) as nat, 1, WIDTH / 3)
    ensures out.Ok? ==> forall r, c :: InBuffer(r, c) ==>
              grid[r, c] == Paint(OpWrite(TitleOp(columnIndex, text), r, c), old(grid[r, c]))
  {
    var columnWidth := WIDTH / 3;
    if columnIndex * columnWidth + columnWidth / 2 < |text| / 2 {
      return Panic(SubtractOverflow);
    }
    var columnTitleTextObject := new TextObject(text, Position(columnIndex * columnWidth + columnWidth / 2 - |text| / 2, 1), columnWidth);
    out := DrawTextObject(grid, columnTitleTextObject);
  }

  /** The three lanes' titles all fit, at columns 11, 37 and 63. */
  lemma BoardTitlesFit()
    ensures TitleOp(0, "TODO") == Text("TODO", Position(11, 1), 26) && OpOutcome(TitleOp(0, "TODO")) == Ok
    ensures TitleOp(1, "DOING") == Text("DOING", Position(37, 1), 26) && OpOutcome(TitleOp(1, "DOING")) == Ok
    ensures TitleOp(2, "DONE") == Text("DONE", Position(63, 1), 26) && OpOutcome(TitleOp(2, "DONE")) == Ok
  {
    TextFitsExactly("TODO", 11, 1, 26);
    TextFitsExactly("DOING", 37, 1, 26);
    TextFitsExactly("DONE", 63, 1, 26);
  }

  // ---------------------------------------------------------------------------
  // Tasks

  /** draw_text_at_column: a text object of wrap width 23 at the given position, laid out. */
  method DrawTextAtColumn(grid: array2<char>, text: string, position: Position)
    returns (textObject: TextObject, out: Outcome)
    requires IsBuffer(grid)
    modifies grid
    ensures fresh(textObject)
    ensures textObject.text == text && textObject.position == position && textObject.width == TASK_TEXT_WIDTH
    ensures out == TextOutcome(text, position.x, position.y, TASK_TEXT_WIDTH)
    ensures out.Ok? ==> textObject.height == Some(TextHeight(text, position.y, TASK_TEXT_WIDTH))
    ensures out.Ok? ==> forall r, c :: InBuffer(r, c) ==>
              grid[r, c] == Paint(TextWrite(text, position.x, position.y, TASK_TEXT_WIDTH, r, c), old(grid[r, c]))
  {
    textObject := new TextObject(text, position, WIDTH / 3 - 3);
    out := DrawTextObject(grid, textObject);
  }

  /** The x at which the text of a task in lane `columnIndex` starts. */
  function TaskTextX(columnIndex: nat): nat {
    columnIndex * WIDTH / 3 + 2
  }

  /** Task texts start at columns 2, 28 and 55: two columns right of the lane edge in the first two lanes, three in the last. */
  lemma TaskTextColumns()
    ensures TaskTextX(0) == 2 && TaskTextX(1) == 28 && TaskTextX(2) == 55
    ensures TaskTextX(2) == 2 * COLUMN_WIDTH + 3
  {
  }

  /** The height the layout of a task's text reports: the next value of the running cursor. */
  function NextHeight(text: string, lastHeight: nat): nat {
    TextHeight(text, lastHeight + 1, TASK_TEXT_WIDTH)
  }

  function TaskTextOp(columnIndex: nat, text: string, lastHeight: nat): Op {
    Text(text, Position(TaskTextX(columnIndex), lastHeight + 1), TASK_TEXT_WIDTH)
  }

  /** The box of a task, as written: the text's absolute height is used as the box's height. */
  function TaskBoxOp(columnIndex: nat, text: string, lastHeight: nat): Op {
    DoubleBox(COLUMN_WIDTH, NextHeight(text, lastHeight), Position(columnIndex * COLUMN_WIDTH, lastHeight))
  }

  /** The calls draw_column makes for its tasks, starting from the cursor `lastHeight`. */
  function TaskOps(columnIndex: nat, tasks: seq<Task>, lastHeight: nat): seq<Op>
    decreases |tasks|
  {
    if |tasks| == 0 then []
    else [TaskTextOp(columnIndex, tasks[0].text, lastHeight), TaskBoxOp(columnIndex, tasks[0].text, lastHeight)]
         + TaskOps(columnIndex, tasks[1..], NextHeight(tasks[0].text, lastHeight))
  }

  /** The cursor after the tasks: each one replaces it by the height its text reports. */
  function Cursor(tasks: seq<Task>, lastHeight: nat): nat
    decreases |tasks|
  {
    if |tasks| == 0 then lastHeight else Cursor(tasks[1..], NextHeight(tasks[0].text, lastHeight))
  }

  /** All calls of draw_column: the title, then the tasks from cursor 2. */
  function ColumnOps(columnIndex: nat, lane: Lane): seq<Op> {
    [TitleOp(columnIndex, lane.title)] + TaskOps(columnIndex, lane.tasks, 2)
  }

  lemma {:induction false} TaskOpsAppend(columnIndex: nat, a: seq<Task>, b: seq<Task>, lastHeight: nat)
    ensures TaskOps(columnIndex, a + b, lastHeight)
            == TaskOps(columnIndex, a, lastHeight) + TaskOps(columnIndex, b, Cursor(a, lastHeight))
    ensures Cursor(a + b, lastHeight) == Cursor(b, Cursor(a, lastHeight))
    decreases |a|
  {
    if |a| > 0 {
      assert (a + b)[1..] == a[1..] + b;
      TaskOpsAppend(columnIndex, a[1..], b, NextHeight(a[0].text, lastHeight));
    } else {
      assert a + b == b;
    }
  }

  /** Each task moves the cursor down by at least two rows. */
  lemma CursorAdvance(tasks: seq<Task>, k: nat, lastHeight: nat)
    requires k < |tasks|
    ensures Cursor(tasks[..k + 1], lastHeight) == NextHeight(tasks[k].text, Cursor(tasks[..k], lastHeight))
    ensures Cursor(tasks[..k + 1], lastHeight) >= Cursor(tasks[..k], lastHeight) + 2
  {
    var t, before := tasks[k], tasks[..k];
    var h := Cursor(before, lastHeight);
    assert tasks[..k + 1] == before + [t];
    CursorAppend(before, [t], lastHeight);
    assert [t][1..] == [];
    assert Cursor([t], h) == NextHeight(t.text, h);
    assert NextHeight(t.text, h) == h + 1 + |t.text| / 23 + 1;
  }

  lemma {:induction false} CursorAppend(a: seq<Task>, b: seq<Task>, lastHeight: nat)
    ensures Cursor(a + b, lastHeight) == Cursor(b, Cursor(a, lastHeight))
    decreases |a|
  {
    if |a| > 0 {
      assert (a + b)[1..] == a[1..] + b;
      CursorAppend(a[1..], b, NextHeight(a[0].text, lastHeight));
    } else {
      assert a + b == b;
    }
  }

  /**
   * draw_column's layout: after the title come, per task k, its text at
   * x = columnIndex * 80 / 3 + 2, y = cursor + 1 with wrap width 23, then its
   * box at the lane's x and y = cursor, where the cursor starts at
   * `lastHeight` and takes the text's reported height after each task.
   */
  lemma {:induction false} TaskOpsAt(columnIndex: nat, tasks: seq<Task>, lastHeight: nat, k: nat)
    requires k < |tasks|
    ensures |TaskOps(columnIndex, tasks, lastHeight)| == 2 * |tasks|
    ensures TaskOps(columnIndex, tasks, lastHeight)[2 * k]
            == Text(tasks[k].text, Position(TaskTextX(columnIndex), Cursor(tasks[..k], lastHeight) + 1), TASK_TEXT_WIDTH)
    ensures TaskOps(columnIndex, tasks, lastHeight)[2 * k + 1]
            == DoubleBox(COLUMN_WIDTH, Cursor(tasks[..k + 1], lastHeight),
                         Position(columnIndex * COLUMN_WIDTH, Cursor(tasks[..k], lastHeight)))
    decreases |tasks|
  {
    var next := NextHeight(tasks[0].text, lastHeight);
    if k == 0 {
      TaskOpsLength(columnIndex, tasks[1..], next);
      assert tasks[..1][1..] == [];
    } else {
      TaskOpsAt(columnIndex, tasks[1..], next, k - 1);
      assert tasks[1..][..k - 1] == tasks[..k][1..];
      assert tasks[1..][..k] == tasks[..k + 1][1..];
    }
  }

  lemma {:induction false} TaskOpsLength(columnIndex: nat, tasks: seq<Task>, lastHeight: nat)
    ensures |TaskOps(columnIndex, tasks, lastHeight)| == 2 * |tasks|
    decreases |tasks|
  {
    if |tasks| > 0 {
      TaskOpsLength(columnIndex, tasks[1..], NextHeight(tasks[0].text, lastHeight));
    }
  }

  /** The first panicking call decides the outcome. */
  lemma FirstPanic(done: seq<Op>, op: Op, rest: seq<Op>)
    requires OpsOutcome(done).Ok? && OpOutcome(op).Panic?
    ensures OpsOutcome(done + [op] + rest) == OpOutcome(op)
  {
    OpsOutcomeAppend(done + [op], rest);
    OpsOutcomeAppend(done, [op]);
  }

  /** Drawing one more call over `done`. */
  lemma RenderSnoc(done: seq<Op>, op: Op, under: char, r: int, c: int)
    ensures Render(done + [op], under, r, c) == Paint(OpWrite(op, r, c), Render(done, under, r, c))
  {
    LastWriteAppend(done, [op], r, c);
  }

  /** The body of draw_column's loop: one task's text, then its box, at cursor `lastHeight`. */
  method DrawTask(grid: array2<char>, columnIndex: nat, text: string, lastHeight: nat)
    returns (out: Outcome, height: nat)
    requires IsBuffer(grid)
    modifies grid
    ensures out == OpsOutcome(TaskOps(columnIndex, [Task(text, 0)], lastHeight))
    ensures out.Ok? ==> height == NextHeight(text, lastHeight)
    ensures out.Ok? ==> forall r, c :: InBuffer(r, c) ==>
              grid[r, c] == Render(TaskOps(columnIndex, [Task(text, 0)], lastHeight), old(grid[r, c]), r, c)
  {
    var textOp, boxOp := TaskTextOp(columnIndex, text, lastHeight), TaskBoxOp(columnIndex, text, lastHeight);
    assert TaskOps(columnIndex, [Task(text, 0)], lastHeight) == [textOp, boxOp];
    assert [textOp, boxOp][..1] == [textOp] && [textOp][..0] == [];
    var textObject;
    textObject, out := DrawTextAtColumn(grid, text, Position(columnIndex * WIDTH / 3 + 2, lastHeight + 1));
    assert OpsOutcome([textOp]) == OpOutcome(textOp) == out;
    if out.Panic? {
      return out, 0;
    }
    label texted:
    height := textObject.height.value;
    out := DrawDoubleBox(grid, COLUMN_WIDTH, height, Position(columnIndex * COLUMN_WIDTH, lastHeight));
    forall r, c | InBuffer(r, c)
      ensures LastWrite([textOp, boxOp], r, c)
              == if OpWrite(boxOp, r, c).Some? then OpWrite(boxOp, r, c) else OpWrite(textOp, r, c)
    {
      assert LastWrite([textOp], r, c) == OpWrite(textOp, r, c);
    }
  }

  /**
   * draw_column: the title, then each task's text and box, stacked with the
   * running cursor; the outcome is the first panic among these calls.
   */
  method DrawColumn(grid: array2<char>, columnIndex: nat, column: Column) returns (out: Outcome)
    requires IsBuffer(grid)
    modifies grid
    ensures out == OpsOutcome(ColumnOps(columnIndex, column.Value()))
    ensures out.Ok? ==> forall r, c :: InBuffer(r, c) ==>
              grid[r, c] == Render(ColumnOps(columnIndex, column.Value()), old(grid[r, c]), r, c)
  {
    var lane := column.Value();
    var title := TitleOp(columnIndex, column.title);
    out := DrawColumnTitle(grid, columnIndex, column.title);
    if out.Panic? {
      FirstPanic([], title, TaskOps(columnIndex, lane.tasks, 2));
      assert [] + [title] + TaskOps(columnIndex, lane.tasks, 2) == ColumnOps(columnIndex, lane);
      return;
    }
    forall r, c | InBuffer(r, c) ensures grid[r, c] == Render([title], old(grid[r, c]), r, c) {
      RenderSnoc([], title, old(grid[r, c]), r, c);
    }
    var lastHeight := 2;
    ghost var done := [title];
    for i := 0 to |column.tasks|
      invariant lastHeight == Cursor(lane.tasks[..i], 2)
      invariant done == [title] + TaskOps(columnIndex, lane.tasks[..i], 2)
      invariant OpsOutcome(done) == Ok
      invariant forall r, c :: InBuffer(r, c) ==> grid[r, c] == Render(done, old(grid[r, c]), r, c)
    {
      var task := column.tasks[i];
      ghost var step := TaskOps(columnIndex, [Task(task.text, 0)], lastHeight);
      ColumnStep(columnIndex, lane, i);
      label before:
      var o, height := DrawTask(grid, columnIndex, task.text, lastHeight);
      OpsOutcomeAppend(done, step);
      if o.Panic? {
        OpsOutcomeAppend(done + step, TaskOps(columnIndex, lane.tasks[i + 1..], NextHeight(task.text, lastHeight)));
        return o;
      }
      forall r, c | InBuffer(r, c) ensures grid[r, c] == Render(done + step, old(grid[r, c]), r, c) {
        LastWriteAppend(done, step, r, c);
      }
      lastHeight := height;
      done := done + step;
    }
    assert lane.tasks[..|lane.tasks|] == lane.tasks;
    return Ok;
  }

  /** How draw_column's ops grow by task i, and what follows it. */
  lemma ColumnStep(columnIndex: nat, lane: Lane, i: nat)
    requires i < |lane.tasks|
    ensures var lh := Cursor(lane.tasks[..i], 2);
            var step := TaskOps(columnIndex, [Task(lane.tasks[i].text, 0)], lh);
            && [TitleOp(columnIndex, lane.title)] + TaskOps(columnIndex, lane.tasks[..i + 1], 2)
               == [TitleOp(columnIndex, lane.title)] + TaskOps(columnIndex, lane.tasks[..i], 2) + step
            && Cursor(lane.tasks[..i + 1], 2) == NextHeight(lane.tasks[i].text, lh)
            && ColumnOps(columnIndex, lane)
               == [TitleOp(columnIndex, lane.title)] + TaskOps(columnIndex, lane.tasks[..i], 2) + step
                  + TaskOps(columnIndex, lane.tasks[i + 1..], NextHeight(lane.tasks[i].text, lh))
  {
    var tasks := lane.tasks;
    var t := tasks[i];
    var lh := Cursor(tasks[..i], 2);
    // only the text of a task takes part in drawing
    assert TaskOps(columnIndex, [Task(t.text, 0)], lh) == TaskOps(columnIndex, [t], lh);
    assert tasks[..i + 1] == tasks[..i] + [t];
    TaskOpsAppend(columnIndex, tasks[..i], [t], 2);
    assert tasks == tasks[..i + 1] + tasks[i + 1..];
    TaskOpsAppend(columnIndex, tasks[..i + 1], tasks[i + 1..], 2);
  }

  // ---------------------------------------------------------------------------
  // The frame

  /** The selected lane's highlight: a double box over its lane, one column wider for the last lane. */
  function HighlightOp(selected: nat): Op {
    if selected == 2 then DoubleBox(COLUMN_WIDTH + 1, HEIGHT - 1, Position(selected * COLUMN_WIDTH, 0))
    else DoubleBox(COLUMN_WIDTH, HEIGHT - 1, Position(selected * COLUMN_WIDTH, 0))
  }

  /** The calls of draw_column for lanes 0..n-1, in order. */
  function ColumnsOps(lanes: seq<Lane>, n: nat): seq<Op>
    requires n <= |lanes|
  {
    if n == 0 then [] else ColumnsOps(lanes, n - 1) + ColumnOps(n - 1, lanes[n - 1])
  }

  /** One frame: the partition, the highlight, then every lane. */
  function FrameOps(selected: nat, lanes: seq<Lane>): seq<Op> {
    [Row(COLUMNS_AMOUNT), HighlightOp(selected)] + ColumnsOps(lanes, |lanes|)
  }

  /**
   * The highlight of any of the three lanes is a 26- (or, for the last lane,
   * 27-) wide, 23-high double box at x = 26 * selected, y = 0, and always passes
   * the bounds of draw_double_box.
   */
  lemma HighlightFits(selected: nat)
    requires selected < 3
    ensures HighlightOp(selected)
            == DoubleBox(if selected == 2 then 27 else 26, 23, Position(26 * selected, 0))
    ensures OpOutcome(HighlightOp(selected)) == Ok
  {
  }

  /**
   * Every cell of a highlight is a cell of the three-lane partition, so the
   * next frame's partition erases the highlight of the lane selected before.
   */
  lemma HighlightUnderPartition(selected: nat, r: int, c: int)
    requires selected < 3 && InBuffer(r, c)
    requires OpWrite(HighlightOp(selected), r, c).Some?
    ensures OpWrite(Row(COLUMNS_AMOUNT), r, c).Some?
  {
    ThreeLaneSeparators(c);
  }

  /** A lane's drawing calls only grow when a task is added to it. */
  lemma ColumnGrows(columnIndex: nat, lane: Lane, text: string)
    ensures ColumnOps(columnIndex, WithTask(lane, text))
            == ColumnOps(columnIndex, lane) + TaskOps(columnIndex, [Task(text, 0)], Cursor(lane.tasks, 2))
  {
    TaskOpsAppend(columnIndex, lane.tasks, [Task(text, 0)], 2);
  }

  /** Every call of the first n lanes' drawing is still made when each lane's calls only grew. */
  lemma {:induction false} ColumnsOpsGrow(lanes: seq<Lane>, lanes': seq<Lane>, n: nat, op: Op)
    requires n <= |lanes| && n <= |lanes'|
    requires forall i :: 0 <= i < n ==> ColumnOps(i, lanes[i]) <= ColumnOps(i, lanes'[i])
    requires op in ColumnsOps(lanes, n)
    ensures op in ColumnsOps(lanes', n)
  {
    if n > 0 {
      var lastOps, lastOps' := ColumnOps(n - 1, lanes[n - 1]), ColumnOps(n - 1, lanes'[n - 1]);
      if op in ColumnsOps(lanes, n - 1) {
        ColumnsOpsGrow(lanes, lanes', n - 1, op);
      } else {
        assert op in lastOps;
        var k :| 0 <= k < |lastOps| && lastOps[k] == op;
        assert lastOps'[k] == op;
      }
    }
  }

  /**
   * A frame covers every earlier frame whose lanes' calls are prefixes of its
   * own, whichever lanes the two highlight: the partition redraws every cell
   * of the old highlight. So a buffer that is never cleared between frames
   * shows exactly what the latest frame draws over a blank buffer.
   */
  lemma FrameCoversEarlier(selected: nat, lanes: seq<Lane>, selected': nat, lanes': seq<Lane>)
    requires selected < 3 && selected' < 3 && |lanes| == |lanes'|
    requires forall i :: 0 <= i < |lanes| ==> ColumnOps(i, lanes[i]) <= ColumnOps(i, lanes'[i])
    ensures Covers(FrameOps(selected', lanes'), FrameOps(selected, lanes))
  {
    var before, after := FrameOps(selected, lanes), FrameOps(selected', lanes');
    forall i, r, c | 0 <= i < |before| && InBuffer(r, c) && OpWrite(before[i], r, c).Some?
      ensures exists j :: 0 <= j < |after| && OpWrite(after[j], r, c).Some?
    {
      if i == 0 {
        assert after[0] == before[0];
      } else if i == 1 {
        HighlightUnderPartition(selected, r, c);
        assert after[0] == Row(COLUMNS_AMOUNT);
      } else {
        var op := before[i];
        assert op == ColumnsOps(lanes, |lanes|)[i - 2];
        ColumnsOpsGrow(lanes, lanes', |lanes|, op);
        var j :| 0 <= j < |ColumnsOps(lanes', |lanes'|)| && ColumnsOps(lanes', |lanes'|)[j] == op;
        assert after[j + 2] == op;
      }
    }
    CoversByCalls(after, before);
  }

  // ---------------------------------------------------------------------------
  // The stacking of task boxes, as written and as intended

  lemma {:induction false} CursorGrowth(tasks: seq<Task>, lastHeight: nat)
    ensures Cursor(tasks, lastHeight) >= lastHeight + 2 * |tasks|
    decreases |tasks|
  {
    if |tasks| > 0 {
      CursorGrowth(tasks[1..], NextHeight(tasks[0].text, lastHeight));
    }
  }

  /**
   * As written, a task's box is as high as the absolute row its text reports,
   * so it reaches far below its text: the next task's box starts strictly
   * inside it.
   */
  lemma AsWrittenBoxesOverlap(columnIndex: nat, tasks: seq<Task>, k: nat)
    requires k + 1 < |tasks|
    ensures var ops := TaskOps(columnIndex, tasks, 2);
            |ops| == 2 * |tasks| && ops[2 * k + 1].DoubleBox? && ops[2 * k + 3].DoubleBox?
            && ops[2 * k + 1].at.y < ops[2 * k + 3].at.y < ops[2 * k + 1].at.y + ops[2 * k + 1].height
  {
    TaskOpsAt(columnIndex, tasks, 2, k);
    TaskOpsAt(columnIndex, tasks, 2, k + 1);
    CursorAdvance(tasks, k, 2);
    CursorGrowth(tasks[..k], 2);
  }

  /** n tasks whose text is the single letter "a". */
  function OneLetterTasks(n: nat): seq<Task> {
    seq(n, _ => Task("a", 0))
  }

  lemma {:induction false} OneLetterCursor(n: nat, lastHeight: nat)
    ensures Cursor(OneLetterTasks(n), lastHeight) == lastHeight + 2 * n
    decreases n
  {
    if n > 0 {
      var tasks := OneLetterTasks(n);
      assert tasks[0].text == "a" && tasks[1..] == OneLetterTasks(n - 1);
      assert NextHeight("a", lastHeight) == lastHeight + 2;
      assert Cursor(tasks, lastHeight) == Cursor(tasks[1..], lastHeight + 2);
      OneLetterCursor(n - 1, lastHeight + 2);
    }
  }

  /** The calls for the k-th of n one-letter tasks of lane 0: text on row 2k+3, box from row 2k+2. */
  lemma OneLetterTaskAt(n: nat, k: nat)
    requires k < n
    ensures |TaskOps(0, OneLetterTasks(n), 2)| == 2 * n
    ensures TaskOps(0, OneLetterTasks(n), 2)[2 * k] == Text("a", Position(2, 2 * k + 3), 23)
    ensures TaskOps(0, OneLetterTasks(n), 2)[2 * k + 1] == DoubleBox(26, 2 * k + 4, Position(0, 2 * k + 2))
  {
    var tasks := OneLetterTasks(n);
    TaskOpsAt(0, tasks, 2, k);
    assert tasks[..k] == OneLetterTasks(k);
    assert tasks[..k + 1] == OneLetterTasks(k + 1);
    OneLetterCursor(k, 2);
    OneLetterCursor(k + 1, 2);
  }

  /** The first five one-letter tasks of lane 0 are drawn within the buffer. */
  lemma OneLetterCallFits(n: nat, i: nat)
    requires i < 2 * n && i <= 10
    ensures |TaskOps(0, OneLetterTasks(n), 2)| == 2 * n
    ensures OpOutcome(TaskOps(0, OneLetterTasks(n), 2)[i]) == Ok
  {
    var k := i / 2;
    OneLetterTaskAt(n, k);
    if i == 2 * k {
      TextFitsExactly("a", 2, 2 * k + 3, 23);
    }
  }

  /**
   * Six one-letter tasks are enough to crash a lane: the first five boxes end
   * on rows 6, 10, 14, 18 and 22, the sixth would end on row 26.
   */
  lemma SixShortTasksCrash()
    ensures OpsOutcome(ColumnOps(0, Lane("TODO", OneLetterTasks(6)))) == Panic(BoxOutOfBounds)
  {
    var tasks := TaskOps(0, OneLetterTasks(6), 2);
    var ops := [TitleOp(0, "TODO")] + tasks;
    BoardTitlesFit();
    OneLetterTaskAt(6, 5);
    var done := ops[..12];
    forall i | 0 <= i < |done| ensures OpOutcome(done[i]).Ok? {
      if i > 0 {
        assert done[i] == tasks[i - 1];
        OneLetterCallFits(6, i - 1);
      }
    }
    OpsOutcomeOk(done);
    assert ops[12] == DoubleBox(26, 14, Position(0, 12));
    FirstPanic(done, ops[12], ops[13..]);
    assert ops == done + [ops[12]] + ops[13..];
  }

  /**
   * The intended box of a task: the same call with its height taken relative
   * to the box's top, so that it ends on the row its text reports.
   */
  function RelativeBox(op: Op): Op {
    if op.DoubleBox? && op.height >= op.at.y then DoubleBox(op.width, op.height - op.at.y, op.at) else op
  }

  function IntendedTaskOps(columnIndex: nat, tasks: seq<Task>): (ops: seq<Op>)
    ensures |ops| == |TaskOps(columnIndex, tasks, 2)|
    ensures forall i :: 0 <= i < |ops| ==> ops[i] == RelativeBox(TaskOps(columnIndex, tasks, 2)[i])
  {
    var asWritten := TaskOps(columnIndex, tasks, 2);
    seq(|asWritten|, i requires 0 <= i < |asWritten| => RelativeBox(asWritten[i]))
  }

  /** The intended calls of task k: its text below the cursor, its box from the cursor to the next one. */
  lemma IntendedTaskAt(columnIndex: nat, tasks: seq<Task>, k: nat)
    requires k < |tasks|
    ensures Cursor(tasks[..k + 1], 2) >= Cursor(tasks[..k], 2) + 2
    ensures var ops, top, next := IntendedTaskOps(columnIndex, tasks), Cursor(tasks[..k], 2), Cursor(tasks[..k + 1], 2);
            && |ops| == 2 * |tasks|
            && ops[2 * k] == Text(tasks[k].text, Position(TaskTextX(columnIndex), top + 1), TASK_TEXT_WIDTH)
            && ops[2 * k + 1] == DoubleBox(COLUMN_WIDTH, next - top, Position(columnIndex * COLUMN_WIDTH, top))
  {
    TaskOpsAt(columnIndex, tasks, 2, k);
    CursorAdvance(tasks, k, 2);
    var asWritten := TaskOps(columnIndex, tasks, 2);
    assert IntendedTaskOps(columnIndex, tasks)[2 * k] == RelativeBox(asWritten[2 * k]);
    assert IntendedTaskOps(columnIndex, tasks)[2 * k + 1] == RelativeBox(asWritten[2 * k + 1]);
  }

  /** With relative box heights the boxes stack: each box ends on the row where the next one starts. */
  lemma IntendedBoxesStack(columnIndex: nat, tasks: seq<Task>, k: nat)
    requires k + 1 < |tasks|
    ensures var ops := IntendedTaskOps(columnIndex, tasks);
            |ops| == 2 * |tasks| && ops[2 * k + 1].DoubleBox? && ops[2 * k + 3].DoubleBox?
            && ops[2 * k + 1].at.y + ops[2 * k + 1].height == ops[2 * k + 3].at.y
  {
    IntendedTaskAt(columnIndex, tasks, k);
    IntendedTaskAt(columnIndex, tasks, k + 1);
    assert 2 * (k + 1) + 1 == 2 * k + 3;
  }

  /** With relative box heights every character of a task's text lies strictly between its box's top and bottom rows. */
  lemma IntendedTextInsideBox(columnIndex: nat, tasks: seq<Task>, k: nat, j: nat)
    requires k < |tasks| && j < |tasks[k].text|
    ensures var ops := IntendedTaskOps(columnIndex, tasks);
            |ops| == 2 * |tasks| && ops[2 * k].Text? && ops[2 * k + 1].DoubleBox?
            && ops[2 * k + 1].at.y < TextRow(ops[2 * k].at.y, ops[2 * k].wrapWidth, j)
                                   < ops[2 * k + 1].at.y + ops[2 * k + 1].height
  {
    IntendedTaskAt(columnIndex, tasks, k);
    CursorAdvance(tasks, k, 2);
    var top := Cursor(tasks[..k], 2);
    DivMonotone(j, |tasks[k].text|, TASK_TEXT_WIDTH);
    assert TextRow(top + 1, TASK_TEXT_WIDTH, j) <= top + 1 + |tasks[k].text| / TASK_TEXT_WIDTH;
  }

  /** With relative box heights the six one-letter tasks fit: the boxes end on rows 4, 6, ..., 14. */
  lemma IntendedSixShortTasksFit()
    ensures OpsOutcome([TitleOp(0, "TODO")] + IntendedTaskOps(0, OneLetterTasks(6))) == Ok
  {
    var intended := IntendedTaskOps(0, OneLetterTasks(6));
    var ops := [TitleOp(0, "TODO")] + intended;
    BoardTitlesFit();
    forall i | 0 <= i < |ops| ensures OpOutcome(ops[i]).Ok? {
      if i > 0 {
        assert ops[i] == intended[i - 1];
        IntendedOneLetterCallFits(6, i - 1);
      }
    }
    OpsOutcomeOk(ops);
  }

  /** Relative heights give every one-letter task a box two rows high, whatever came before. */
  lemma IntendedOneLetterCallFits(n: nat, i: nat)
    requires i < 2 * n && i < 20
    ensures |IntendedTaskOps(0, OneLetterTasks(n))| == 2 * n
    ensures OpOutcome(IntendedTaskOps(0, OneLetterTasks(n))[i]) == Ok
  {
    var k := i / 2;
    OneLetterTaskAt(n, k);
    var asWritten := TaskOps(0, OneLetterTasks(n), 2);
    var op := asWritten[i];
    assert IntendedTaskOps(0, OneLetterTasks(n))[i] == RelativeBox(op);
    if i == 2 * k {
      assert op == Text("a", Position(2, 2 * k + 3), 23);
      TextFitsExactly("a", 2, 2 * k + 3, 23);
    } else {
      assert op == DoubleBox(26, 2 * k + 4, Position(0, 2 * k + 2));
      assert RelativeBox(op) == DoubleBox(26, 2, Position(0, 2 * k + 2));
    }
  }
}
