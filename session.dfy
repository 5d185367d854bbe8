/**
 * The interactive board: the Normal/Add key machine over the selected lane,
 * the mode, the text being typed and the three lanes, and the main loop that
 * repaints the never-cleared buffer and then reads keys until one of them
 * asks for a repaint or ends the session.
 */
module Session {
  import opened Grid
  import opened Ui
  import opened Script
  import opened Db
  import opened Layout

  datatype Mode = Normal | Add

  /** The keys the machine tells apart; every other key event is OtherKey. */
  datatype Key = Char(ch: char) | Esc | Backspace | OtherKey

  /** What follows a key: stay in the key loop, leave it to repaint, or end the program. */
  datatype Effect = Stay | Repaint | Exit

  datatype State = State(selected: nat, mode: Mode, typed: string, lanes: seq<Lane>)

  datatype Reaction = Reaction(state: State, effect: Effect)

  predicate ValidState(s: State) {
    s.selected < COLUMNS_AMOUNT && |s.lanes| == COLUMNS_AMOUNT
  }

  /** The lanes after the typed text is committed to the selected lane. */
  function Commit(s: State): seq<Lane>
    requires ValidState(s)
  {
    s.lanes[s.selected := WithTask(s.lanes[s.selected], s.typed)]
  }

  /** One key of the key loop. */
  function Step(s: State, key: Key): (r: Reaction)
    requires ValidState(s)
    ensures ValidState(r.state)
    ensures r.effect != Repaint ==> r.state.selected == s.selected && r.state.lanes == s.lanes
  {
    match s.mode
    case Normal =>
      if key == Char('Q') then Reaction(s, Exit)
      else if key == Char('h') then
        Reaction(s.(selected := if s.selected == 0 then 2 else s.selected - 1), Repaint)
      else if key == Char('l') then Reaction(s.(selected := (s.selected + 1) % 3), Repaint)
      else if key == Char('a') then Reaction(s.(mode := Add), Repaint)
      else Reaction(s, Stay)
    case Add =>
      match key
      case Esc => Reaction(s.(mode := Normal), Repaint)
      case Backspace =>
        Reaction(s.(typed := if |s.typed| > 0 then s.typed[..|s.typed| - 1] else s.typed), Stay)
      case Char(c) =>
        if c == '\n' then Reaction(State(s.selected, Normal, "", Commit(s)), Repaint)
        else Reaction(s.(typed := s.typed + [c]), Stay)
      case OtherKey => Reaction(s, Stay)
  }

  // ---------------------------------------------------------------------------
  // The key machine, key by key

  /** h moves one lane left and l one lane right, both modulo 3, and both repaint. */
  lemma SelectionMoves(s: State)
    requires ValidState(s) && s.mode == Normal
    ensures Step(s, Char('h')) == Reaction(s.(selected := (s.selected + 2) % 3), Repaint)
    ensures Step(s, Char('l')) == Reaction(s.(selected := (s.selected + 1) % 3), Repaint)
  {
  }

  /** Exactly Q in Normal mode ends the session, and it leaves the state as it was. */
  lemma QuitOnlyFromNormal(s: State, key: Key)
    requires ValidState(s)
    ensures Step(s, key).effect == Exit <==> s.mode == Normal && key == Char('Q')
    ensures Step(s, key).effect == Exit ==> Step(s, key).state == s
  {
  }

  /** The keys that leave the key loop for a repaint: h, l, a in Normal mode; Esc and newline in Add mode. */
  lemma RepaintExactly(s: State, key: Key)
    requires ValidState(s)
    ensures Step(s, key).effect == Repaint
            <==> (s.mode == Normal && key in {Char('h'), Char('l'), Char('a')})
                 || (s.mode == Add && key in {Esc, Char('\n')})
  {
  }

  /** Any other key in Normal mode changes nothing and does not repaint. */
  lemma NormalIgnores(s: State, key: Key)
    requires ValidState(s) && s.mode == Normal
    requires key !in {Char('Q'), Char('h'), Char('l'), Char('a')}
    ensures Step(s, key) == Reaction(s, Stay)
  {
  }

  /** a enters Add mode keeping whatever was typed before; Esc leaves it, keeping the text too. */
  lemma AddModeRoundTrip(s: State)
    requires ValidState(s) && s.mode == Normal
    ensures Step(s, Char('a')) == Reaction(s.(mode := Add), Repaint)
    ensures Step(Step(s, Char('a')).state, Esc) == Reaction(s, Repaint)
  {
  }

  /**
   * In Add mode every character but newline, Q, h, l and a included, is
   * appended, and Backspace undoes it; on empty text Backspace does nothing.
   * Neither repaints nor leaves Add mode.
   */
  lemma TypingAndBackspace(s: State, c: char)
    requires ValidState(s) && s.mode == Add && c != '\n'
    ensures Step(s, Char(c)) == Reaction(s.(typed := s.typed + [c]), Stay)
    ensures Step(Step(s, Char(c)).state, Backspace) == Reaction(s, Stay)
    ensures s.typed == [] ==> Step(s, Backspace) == Reaction(s, Stay)
    ensures s.typed != [] ==> Step(s, Backspace).state.typed + [s.typed[|s.typed| - 1]] == s.typed
  {
    assert (s.typed + [c])[..|s.typed|] == s.typed;
  }

  /**
   * Newline in Add mode appends one task with the typed text to the selected
   * lane only, clears the text and returns to Normal mode.
   */
  lemma CommitAddsToSelected(s: State)
    requires ValidState(s) && s.mode == Add
    ensures var r := Step(s, Char('\n'));
            && r.effect == Repaint && r.state.mode == Normal && r.state.typed == []
            && r.state.selected == s.selected
            && (forall i :: 0 <= i < 3 && i != s.selected ==> r.state.lanes[i] == s.lanes[i])
            && r.state.lanes[s.selected].title == s.lanes[s.selected].title
            && r.state.lanes[s.selected].tasks == s.lanes[s.selected].tasks + [Task(s.typed, 0)]
  {
  }

  /**
   * Whatever the key, the next frame covers the previous one: the selection
   * moves inside the partition and a lane's drawing calls only grow.
   */
  lemma StepCovers(s: State, key: Key)
    requires ValidState(s)
    ensures var t := Step(s, key).state;
            Covers(FrameOps(t.selected, t.lanes), FrameOps(s.selected, s.lanes))
  {
    var t := Step(s, key).state;
    forall i | 0 <= i < |s.lanes| ensures ColumnOps(i, s.lanes[i]) <= ColumnOps(i, t.lanes[i]) {
      if t.lanes[i] != s.lanes[i] {
        assert t.lanes[i] == WithTask(s.lanes[i], s.typed);
        ColumnGrows(i, s.lanes[i], s.typed);
      }
    }
    FrameCoversEarlier(s.selected, s.lanes, t.selected, t.lanes);
  }

  // ---------------------------------------------------------------------------
  // Key sequences

  /** The state after the keys, stopping at the key that ends the session. */
  function Feed(s: State, keys: seq<Key>): (t: State)
    requires ValidState(s)
    ensures ValidState(t)
    decreases |keys|
  {
    if |keys| == 0 then s
    else
      var r := Step(s, keys[0]);
      if r.effect == Exit then r.state else Feed(r.state, keys[1..])
  }

  lemma FeedCons(s: State, key: Key, keys: seq<Key>)
    requires ValidState(s) && Step(s, key).effect != Exit
    ensures Feed(s, [key] + keys) == Feed(Step(s, key).state, keys)
  {
    assert ([key] + keys)[1..] == keys;
  }

  /** The keys of a typed string. */
  function Typing(text: string): seq<Key> {
    seq(|text|, i requires 0 <= i < |text| => Char(text[i]))
  }

  /** Typing a string without newline in Add mode appends it to the typed text. */
  lemma TypingAppends(s: State, text: string)
    requires ValidState(s) && s.mode == Add && '\n' !in text
    ensures Feed(s, Typing(text)) == s.(typed := s.typed + text)
  {
    assert Typing(text) + [] == Typing(text);
    TypingThenKeys(s, text, []);
  }

  /** Three presses of h, or of l, come back to the lane they started from. */
  lemma SelectionCycles(s: State)
    requires ValidState(s) && s.mode == Normal
    ensures Step(Step(Step(s, Char('h')).state, Char('h')).state, Char('h')).state == s
    ensures Step(Step(Step(s, Char('l')).state, Char('l')).state, Char('l')).state == s
  {
    var h1 := s.(selected := (s.selected + 2) % 3);
    var h2 := s.(selected := (s.selected + 4) % 3);
    SelectionMoves(s);
    SelectionMoves(h1);
    SelectionMoves(h2);
    var l1 := s.(selected := (s.selected + 1) % 3);
    var l2 := s.(selected := (s.selected + 2) % 3);
    SelectionMoves(l1);
    SelectionMoves(l2);
  }

  /** Over any key sequence the lanes keep their titles and their tasks only grow at the end. */
  lemma {:induction false} LanesGrow(s: State, keys: seq<Key>)
    requires ValidState(s)
    ensures forall i :: 0 <= i < 3 ==>
              Feed(s, keys).lanes[i].title == s.lanes[i].title
              && s.lanes[i].tasks <= Feed(s, keys).lanes[i].tasks
    decreases |keys|
  {
    if |keys| > 0 {
      var t := Step(s, keys[0]).state;
      assert forall i :: 0 <= i < 3 ==> t.lanes[i].title == s.lanes[i].title && s.lanes[i].tasks <= t.lanes[i].tasks by {
        forall i | 0 <= i < 3 ensures t.lanes[i].title == s.lanes[i].title && s.lanes[i].tasks <= t.lanes[i].tasks {
          if t.lanes[i] != s.lanes[i] {
            assert t.lanes[i] == WithTask(s.lanes[i], s.typed);
          }
        }
      }
      if Step(s, keys[0]).effect != Exit {
        LanesGrow(t, keys[1..]);
      }
    }
  }

  /** Three lanes of the board, as loaded. */
  function LoadedLanes(todo: seq<Task>, doing: seq<Task>, done: seq<Task>): seq<Lane> {
    [Lane("TODO", todo), Lane("DOING", doing), Lane("DONE", done)]
  }

  /**
   * From Normal mode on lane 0, l, l, a, some text (Q included) and newline
   * append the text, after whatever was typed before, as a task to the last lane, leave
   * the other lanes as they were, the text empty and the mode Normal.
   */
  lemma {:induction false} AddToLastLane(s: State, text: string)
    requires ValidState(s) && s.selected == 0 && s.mode == Normal && '\n' !in text
    ensures Feed(s, [Char('l'), Char('l'), Char('a')] + Typing(text) + [Char('\n')])
            == State(2, Normal, "", s.lanes[2 := WithTask(s.lanes[2], s.typed + text)])
  {
    var select, typing := [Char('l'), Char('l'), Char('a')], Typing(text);
    var adding := s.(selected := 2, mode := Add);
    SelectLastLaneAndAdd(s);
    assert select + typing + [Char('\n')] == select + (typing + [Char('\n')]);
    FeedAppend(s, select, typing + [Char('\n')]);
    TypingThenKeys(adding, text, [Char('\n')]);
    CommitAddsToSelected(adding.(typed := s.typed + text));
  }

  /** "buy milk" in TODO; l, l, a, "ship it", newline: DONE holds exactly "ship it". */
  lemma ShipItScenario()
    ensures var s := State(0, Normal, "", LoadedLanes([Task("buy milk", 0)], [], []));
            Feed(s, [Char('l'), Char('l'), Char('a')] + Typing("ship it") + [Char('\n')])
            == State(2, Normal, "", LoadedLanes([Task("buy milk", 0)], [], [Task("ship it", 0)]))
  {
    var s := State(0, Normal, "", LoadedLanes([Task("buy milk", 0)], [], []));
    AddToLastLane(s, "ship it");
    assert s.typed + "ship it" == "ship it";
  }

  /** From lane 0 in Normal mode, l, l, a select DONE and enter Add mode. */
  lemma SelectLastLaneAndAdd(s: State)
    requires ValidState(s) && s.selected == 0 && s.mode == Normal
    ensures Feed(s, [Char('l'), Char('l'), Char('a')]) == s.(selected := 2, mode := Add)
  {
    SelectionMoves(s);
    SelectionMoves(s.(selected := 1));
    FeedCons(s, Char('l'), [Char('l'), Char('a')]);
    FeedCons(s.(selected := 1), Char('l'), [Char('a')]);
    FeedCons(s.(selected := 2), Char('a'), []);
  }

  /**
   * Typing a string without newline in Add mode, Q, h, l and a included,
   * appends it to the typed text and leaves the key loop running for the
   * keys that follow.
   */
  lemma {:induction false} TypingThenKeys(s: State, text: string, rest: seq<Key>)
    requires ValidState(s) && s.mode == Add && '\n' !in text
    ensures Feed(s, Typing(text) + rest) == Feed(s.(typed := s.typed + text), rest)
    decreases |text|
  {
    if |text| == 0 {
      assert Typing(text) + rest == rest;
      assert s.typed + text == s.typed;
    } else {
      var c := text[0];
      assert text == [c] + text[1..];
      assert Typing(text) + rest == [Char(c)] + (Typing(text[1..]) + rest);
      FeedCons(s, Char(c), Typing(text[1..]) + rest);
      TypingThenKeys(s.(typed := s.typed + [c]), text[1..], rest);
      assert s.typed + [c] + text[1..] == s.typed + text;
    }
  }

  /** In Add mode with "abc" typed, two Backspaces and Esc leave "a" typed and the mode Normal. */
  lemma BackspaceEscapeScenario(selected: nat, lanes: seq<Lane>)
    requires selected < 3 && |lanes| == 3
    ensures Feed(State(selected, Add, "abc", lanes), [Backspace, Backspace, Esc])
            == State(selected, Normal, "a", lanes)
  {
    var s := State(selected, Add, "abc", lanes);
    FeedCons(s, Backspace, [Backspace, Esc]);
    FeedCons(s.(typed := "ab"), Backspace, [Esc]);
    FeedCons(s.(typed := "a"), Esc, []);
  }

  /** Keys without Q never end the session, so they can be fed in two parts. */
  lemma {:induction false} FeedAppend(s: State, a: seq<Key>, b: seq<Key>)
    requires ValidState(s) && Char('Q') !in a
    ensures Feed(s, a + b) == Feed(Feed(s, a), b)
    decreases |a|
  {
    if |a| == 0 {
      assert a + b == b;
    } else {
      QuitOnlyFromNormal(s, a[0]);
      assert (a + b)[1..] == a[1..] + b;
      assert Char('Q') !in a[1..] by {
        forall i | 0 <= i < |a[1..]| ensures a[1..][i] != Char('Q') {
          assert a[1..][i] == a[i + 1];
        }
      }
      FeedAppend(Step(s, a[0]).state, a[1..], b);
    }
  }

  // ---------------------------------------------------------------------------
  // The session: repaint, then keys until a repaint or the end

  datatype End =
    | Quit(state: State)       // Q in Normal mode
    | Crashed(reason: Panic)   // a frame panicked
    | Waiting(state: State)    // the keys ran out: the program waits for the next one

  /** A frame, then the keys. */
  function Play(s: State, keys: seq<Key>): End
    requires ValidState(s)
    decreases |keys|, 1
  {
    var frame := OpsOutcome(FrameOps(s.selected, s.lanes));
    if frame.Panic? then Crashed(frame.reason) else Listen(s, keys)
  }

  /** The key loop over a painted frame. */
  function Listen(s: State, keys: seq<Key>): End
    requires ValidState(s)
    decreases |keys|, 0
  {
    if |keys| == 0 then Waiting(s)
    else
      var r := Step(s, keys[0]);
      match r.effect
      case Exit => Quit(r.state)
      case Stay => Listen(r.state, keys[1..])
      case Repaint => Play(r.state, keys[1..])
  }

  /** A session that does not crash ends in the state the keys lead to. */
  lemma {:induction false} ListenFollowsFeed(s: State, keys: seq<Key>)
    requires ValidState(s) && !Listen(s, keys).Crashed?
    ensures Listen(s, keys).state == Feed(s, keys)
    decreases |keys|
  {
    if |keys| > 0 {
      var r := Step(s, keys[0]);
      if r.effect != Exit {
        ListenFollowsFeed(r.state, keys[1..]);
      }
    }
  }

  /** Drawing a frame over itself changes nothing: a repaint with no key in between is idempotent. */
  lemma RepaintIdempotent(s: State, under: char, r: int, c: int)
    requires ValidState(s) && InBuffer(r, c)
    ensures var f := FrameOps(s.selected, s.lanes);
            Render(f, Render(f, under, r, c), r, c) == Render(f, under, r, c)
  {
    var f := FrameOps(s.selected, s.lanes);
    FrameCoversEarlier(s.selected, s.lanes, s.selected, s.lanes);
    RenderOverCovered(f, f, under, r, c);
  }

  /** The loop of the main loop over the columns: draw_column for each lane in order. */
  method DrawLanes(grid: array2<char>, columns: seq<Column>, ghost lanes: seq<Lane>) returns (out: Outcome)
    requires IsBuffer(grid) && |columns| == |lanes|
    requires forall i :: 0 <= i < |columns| ==> columns[i].Value() == lanes[i]
    modifies grid
    ensures out == OpsOutcome(ColumnsOps(lanes, |lanes|))
    ensures out.Ok? ==> forall r, c :: InBuffer(r, c) ==>
              grid[r, c] == Render(ColumnsOps(lanes, |lanes|), old(grid[r, c]), r, c)
  {
    for i := 0 to |columns|
      invariant OpsOutcome(ColumnsOps(lanes, i)) == Ok
      invariant forall r, c :: InBuffer(r, c) ==> grid[r, c] == Render(ColumnsOps(lanes, i), old(grid[r, c]), r, c)
    {
      assert columns[i].Value() == lanes[i];
      var o := DrawColumn(grid, i, columns[i]);
      LaneStep(lanes, i);
      if o.Panic? {
        return o;
      }
      forall r, c | InBuffer(r, c) ensures grid[r, c] == Render(ColumnsOps(lanes, i + 1), old(grid[r, c]), r, c) {
        RenderAppend(ColumnsOps(lanes, i), ColumnOps(i, lanes[i]), old(grid[r, c]), r, c);
      }
    }
    return Ok;
  }

  /** The highlight of the selected lane, as the main loop draws it: it always fits. */
  method DrawHighlight(grid: array2<char>, selected: nat) returns (out: Outcome)
    requires IsBuffer(grid) && selected < COLUMNS_AMOUNT
    modifies grid
    ensures out == OpOutcome(HighlightOp(selected)) == Ok
    ensures forall r, c :: InBuffer(r, c) ==> grid[r, c] == Paint(OpWrite(HighlightOp(selected), r, c), old(grid[r, c]))
  {
    HighlightFits(selected);
    if selected == 2 {
      out := DrawDoubleBox(grid, COLUMN_WIDTH + 1, HEIGHT - 1, Position(selected * COLUMN_WIDTH, 0));
    } else {
      out := DrawDoubleBox(grid, COLUMN_WIDTH, HEIGHT - 1, Position(selected * COLUMN_WIDTH, 0));
    }
  }

  /**
   * main's state: the buffer, the three columns, the selected lane, the mode
   * and the typed text. `shown` is the last frame drawn into the buffer.
   */
  class Board {
    const grid: array2<char>
    const columns: seq<Column>
    var selected: nat
    var mode: Mode
    var typed: string
    ghost var shown: seq<Op>

    function Lanes(): seq<Lane>
      reads this, columns
      requires |columns| == 3
    {
      [columns[0].Value(), columns[1].Value(), columns[2].Value()]
    }

    function Snapshot(): State
      reads this, columns
      requires |columns| == 3
    {
      State(selected, mode, typed, Lanes())
    }

    /**
     * The buffer shows the last frame drawn over a blank buffer, and the frame
     * of the current state covers it.
     */
    ghost predicate Valid()
      reads this, grid, columns
    {
      && IsBuffer(grid)
      && |columns| == 3
      && columns[0] != columns[1] && columns[0] != columns[2] && columns[1] != columns[2]
      && selected < 3
      && (forall r, c :: InBuffer(r, c) ==> grid[r, c] == Render(shown, ' ', r, c))
      && Covers(FrameOps(selected, Lanes()), shown)
    }

    /** The start of main: a blank buffer, the loaded lanes, lane 0 selected, Normal mode, no text. */
    constructor (todo: seq<Task>, doing: seq<Task>, done: seq<Task>)
      ensures Valid() && fresh(grid)
      ensures forall i :: 0 <= i < |columns| ==> fresh(columns[i])
      ensures Snapshot() == State(0, Normal, "", LoadedLanes(todo, doing, done))
    {
      grid := new char[HEIGHT, WIDTH]((_, _) => ' ');
      var c0 := new Column("TODO", todo);
      var c1 := new Column("DOING", doing);
      var c2 := new Column("DONE", done);
      columns := [c0, c1, c2];
      selected := 0;
      mode := Normal;
      typed := "";
      shown := [];
    }

    /**
     * The frame at the top of the main loop: the partition, the highlight of
     * the selected lane, then each lane in order.
     */
    method DrawFrame() returns (out: Outcome)
      requires Valid()
      modifies grid
      ensures out == OpsOutcome(FrameOps(selected, Lanes()))
      ensures out.Ok? ==> forall r, c :: InBuffer(r, c) ==>
                grid[r, c] == Render(FrameOps(selected, Lanes()), old(grid[r, c]), r, c)
    {
      var lanes := Lanes();
      var frame := FrameOps(selected, lanes);
      out := DrawRow(grid, COLUMNS_AMOUNT);
      assert out == Ok;
      var highlight := HighlightOp(selected);
      forall r, c | InBuffer(r, c) ensures grid[r, c] == Render([Row(COLUMNS_AMOUNT)], old(grid[r, c]), r, c) {
        RenderSnoc([], Row(COLUMNS_AMOUNT), old(grid[r, c]), r, c);
      }
      out := DrawHighlight(grid, selected);
      ghost var done := [Row(COLUMNS_AMOUNT), highlight];
      forall r, c | InBuffer(r, c) ensures grid[r, c] == Render(done, old(grid[r, c]), r, c) {
        RenderSnoc([Row(COLUMNS_AMOUNT)], highlight, old(grid[r, c]), r, c);
        assert [Row(COLUMNS_AMOUNT)] + [highlight] == done;
      }
      assert OpsOutcome([Row(COLUMNS_AMOUNT)]) == Ok;
      OpsOutcomeAppend([Row(COLUMNS_AMOUNT)], [highlight]);
      ghost var rest := ColumnsOps(lanes, 3);
      out := DrawLanes(grid, columns, lanes);
      OpsOutcomeAppend(done, rest);
      if out.Ok? {
        forall r, c | InBuffer(r, c) ensures grid[r, c] == Render(frame, old(grid[r, c]), r, c) {
          LastWriteAppend(done, rest, r, c);
        }
      }
    }

    /** One key of the key loop, on main's variables and the selected column. */
    method HandleKey(key: Key) returns (effect: Effect)
      requires Valid()
      modifies this, columns
      ensures Valid() && shown == old(shown)
      ensures Reaction(Snapshot(), effect) == Step(old(Snapshot()), key)
    {
      ghost var before := Snapshot();
      assert Covers(FrameOps(before.selected, before.lanes), shown);
      match mode {
        case Normal =>
          if key == Char('Q') {
            effect := Exit;
          } else if key == Char('h') {
            if selected == 0 {
              selected := 2;
            } else {
              selected := selected - 1;
            }
            effect := Repaint;
          } else if key == Char('l') {
            selected := (selected + 1) % 3;
            effect := Repaint;
          } else if key == Char('a') {
            mode := Add;
            effect := Repaint;
          } else {
            effect := Stay;
          }
        case Add =>
          match key {
            case Esc =>
              mode := Normal;
              effect := Repaint;
            case Backspace =>
              if |typed| > 0 {
                typed := typed[..|typed| - 1];
              }
              effect := Stay;
            case Char(c) =>
              if c == '\n' {
                columns[selected].AddTask(typed);
                typed := "";
                mode := Normal;
                effect := Repaint;
              } else {
                typed := typed + [c];
                effect := Stay;
              }
            case OtherKey =>
              effect := Stay;
            }
      }
      ghost var after := Snapshot();
      assert Reaction(after, effect) == Step(before, key);
      StepCovers(before, key);
      CoversTransitive(FrameOps(after.selected, after.lanes), FrameOps(before.selected, before.lanes), shown);
      assert FrameOps(selected, Lanes()) == FrameOps(after.selected, after.lanes);
    }

    /**
     * The top of the main loop: the frame is drawn over whatever the buffer
     * held, which leaves the buffer showing this frame over a blank buffer.
     */
    method Refresh() returns (out: Outcome)
      requires Valid()
      modifies this`shown, grid
      ensures out == OpsOutcome(FrameOps(selected, Lanes()))
      ensures out.Ok? ==> Valid() && shown == FrameOps(selected, Lanes())
    {
      out := DrawFrame();
      if out.Ok? {
        ghost var frame := FrameOps(selected, Lanes());
        forall r, c | InBuffer(r, c) ensures grid[r, c] == Render(frame, ' ', r, c) {
          assert old(grid[r, c]) == Render(shown, ' ', r, c);
          RenderOverCovered(frame, shown, ' ', r, c);
        }
        shown := frame;
        FrameCoversEarlier(selected, Lanes(), selected, Lanes());
      }
    }

    /**
     * The key loop of one frame, from keys[start]: keys are handled until one
     * repaints or quits, or until the keys run out.
     */
    method ReadKeys(keys: seq<Key>, start: nat) returns (next: nat, effect: Effect)
      requires Valid() && start <= |keys| && shown == FrameOps(selected, Lanes())
      modifies this, columns
      ensures Valid() && shown == old(shown) && start <= next <= |keys|
      ensures effect != Stay ==> next > start
      ensures effect != Repaint ==> shown == FrameOps(selected, Lanes())
      ensures Listen(old(Snapshot()), keys[start..])
              == match effect
                 case Stay => Waiting(Snapshot())
                 case Exit => Quit(Snapshot())
                 case Repaint => Play(Snapshot(), keys[next..])
    {
      next := start;
      while next < |keys|
        invariant start <= next <= |keys| && Valid() && shown == old(shown)
        invariant shown == FrameOps(selected, Lanes())
        invariant Listen(old(Snapshot()), keys[start..]) == Listen(Snapshot(), keys[next..])
        decreases |keys| - next
      {
        ghost var before := Snapshot();
        effect := HandleKey(keys[next]);
        assert keys[next..][1..] == keys[next + 1..];
        next := next + 1;
        if effect != Stay {
          return;
        }
      }
      effect := Stay;
    }

    /**
     * The main loop over a sequence of keys: each frame is drawn over the
     * previous one without clearing, then keys are handled until one repaints
     * or quits. The result is the session's end, and whenever the program is
     * still alive or quits normally the buffer shows exactly the current frame
     * drawn over a blank buffer.
     */
    method Run(keys: seq<Key>) returns (end: End)
      requires Valid()
      modifies this, grid, columns
      ensures end == Play(old(Snapshot()), keys)
      ensures !end.Crashed? ==> Valid() && Snapshot() == end.state
      ensures !end.Crashed? ==> forall r, c :: InBuffer(r, c) ==>
                grid[r, c] == Render(FrameOps(selected, Lanes()), ' ', r, c)
    {
      var i := 0;
      while true
        invariant i <= |keys| && Valid()
        invariant Play(old(Snapshot()), keys) == Play(Snapshot(), keys[i..])
        decreases |keys| - i
      {
        var out := Refresh();
        if out.Panic? {
          return Crashed(out.reason);
        }
        var effect;
        i, effect := ReadKeys(keys, i);
        if effect == Stay {
          return Waiting(Snapshot());
        } else if effect == Exit {
          return Quit(Snapshot());
        }
      }
    }
  }

  /**
   * main from the loaded tasks on: the board of three fresh columns, then the
   * main loop over the keys, ending as the session does.
   */
  method Launch(todo: seq<Task>, doing: seq<Task>, done: seq<Task>, keys: seq<Key>) returns (end: End)
    ensures end == Play(State(0, Normal, "", LoadedLanes(todo, doing, done)), keys)
  {
    var board := new Board(todo, doing, done);
    end := board.Run(keys);
  }

  /** Drawing lane i after the lanes before it: a panic there is the panic of the whole frame. */
  lemma LaneStep(lanes: seq<Lane>, i: nat)
    requires i < |lanes| && OpsOutcome(ColumnsOps(lanes, i)) == Ok
    ensures ColumnsOps(lanes, i + 1) == ColumnsOps(lanes, i) + ColumnOps(i, lanes[i])
    ensures OpsOutcome(ColumnsOps(lanes, i + 1)) == OpsOutcome(ColumnOps(i, lanes[i]))
    ensures OpsOutcome(ColumnOps(i, lanes[i])).Panic? ==>
              OpsOutcome(ColumnsOps(lanes, |lanes|)) == OpsOutcome(ColumnOps(i, lanes[i]))
  {
    OpsOutcomeAppend(ColumnsOps(lanes, i), ColumnOps(i, lanes[i]));
    if OpsOutcome(ColumnOps(i, lanes[i])).Panic? {
      LanePanics(lanes, i);
    }
  }

  /** A panic while drawing lane i is the panic of the whole frame. */
  lemma LanePanics(lanes: seq<Lane>, i: nat)
    requires i < |lanes| && OpsOutcome(ColumnsOps(lanes, i + 1)).Panic?
    ensures OpsOutcome(ColumnsOps(lanes, |lanes|)) == OpsOutcome(ColumnsOps(lanes, i + 1))
  {
    var drawn, all := ColumnsOps(lanes, i + 1), ColumnsOps(lanes, |lanes|);
    ColumnsOpsPrefix(lanes, i + 1, |lanes|);
    assert all == drawn + all[|drawn|..];
    OpsOutcomeAppend(drawn, all[|drawn|..]);
  }

  /** The calls of the first i lanes begin the calls of the first n. */
  lemma {:induction false} ColumnsOpsPrefix(lanes: seq<Lane>, i: nat, n: nat)
    requires i <= n <= |lanes|
    ensures ColumnsOps(lanes, i) <= ColumnsOps(lanes, n)
    decreases n - i
  {
    if i < n {
      ColumnsOpsPrefix(lanes, i, n - 1);
    }
  }
}
