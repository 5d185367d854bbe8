/**
 * A frame as the sequence of drawing calls it makes. Each call leaves a glyph
 * in some cells or none; the visible cell is the one the last writing call
 * left, and a frame stops at its first call that panics.
 */
module Script {
  import opened Grid
  import opened Ui

  datatype Op =
    | Box(width: nat, height: nat, at: Position)             // draw_box
    | DoubleBox(width: nat, height: nat, at: Position)       // draw_double_box
    | Row(size: nat)                                         // draw_row
    | Text(text: string, at: Position, wrapWidth: nat)       // draw_text_object
    | Fail(reason: Panic)                                    // a panic before any drawing (arithmetic)

  function OpOutcome(op: Op): Outcome {
    match op
    case Box(w, h, p) => BoxOutcome(w, h, p.x, p.y)
    case DoubleBox(w, h, p) => BoxOutcome(w, h, p.x, p.y)
    case Row(size) => RowOutcome(size)
    case Text(t, p, w) => TextOutcome(t, p.x, p.y, w)
    case Fail(reason) => Panic(reason)
  }

  function OpWrite(op: Op, r: int, c: int): Option<char> {
    match op
    case Box(w, h, p) => BoxWrite(w, h, p.x, p.y, r, c)
    case DoubleBox(w, h, p) => FrameWrite(Double, w, h, p.x, p.y, r, c)
    case Row(size) => if size == 0 then None else PartitionWrite(size, size, r, c)
    case Text(t, p, w) => TextWrite(t, p.x, p.y, w, r, c)
    case Fail(_) => None
  }

  /** The glyph the last call of `ops` that reaches (r, c) leaves there. */
  function LastWrite(ops: seq<Op>, r: int, c: int): Option<char>
    decreases |ops|
  {
    if |ops| == 0 then None
    else
      var w := OpWrite(ops[|ops| - 1], r, c);
      if w.Some? then w else LastWrite(ops[..|ops| - 1], r, c)
  }

  /** Cell (r, c) after drawing `ops` over a cell that held `under`. */
  function Render(ops: seq<Op>, under: char, r: int, c: int): char {
    Paint(LastWrite(ops, r, c), under)
  }

  /** The outcome of running `ops` in order: the first panic, if any. */
  function OpsOutcome(ops: seq<Op>): Outcome
    decreases |ops|
  {
    if |ops| == 0 then Ok
    else
      var before := OpsOutcome(ops[..|ops| - 1]);
      if before.Panic? then before else OpOutcome(ops[|ops| - 1])
  }

  /** Drawing `a` then `b`: a cell shows b's last write if b reaches it, else a's. */
  lemma {:induction false} LastWriteAppend(a: seq<Op>, b: seq<Op>, r: int, c: int)
    ensures LastWrite(a + b, r, c) == if LastWrite(b, r, c).Some? then LastWrite(b, r, c) else LastWrite(a, r, c)
    decreases |b|
  {
    if |b| == 0 {
      assert a + b == a;
    } else {
      assert (a + b)[..|a + b| - 1] == a + b[..|b| - 1];
      LastWriteAppend(a, b[..|b| - 1], r, c);
    }
  }

  /** Drawing `a` and then `b` over what `a` left is drawing `a + b`. */
  lemma RenderAppend(a: seq<Op>, b: seq<Op>, under: char, r: int, c: int)
    ensures Render(b, Render(a, under, r, c), r, c) == Render(a + b, under, r, c)
  {
    LastWriteAppend(a, b, r, c);
  }

  /** Running `a` then `b` panics with a's panic if a panics, else with b's outcome. */
  lemma {:induction false} OpsOutcomeAppend(a: seq<Op>, b: seq<Op>)
    ensures OpsOutcome(a + b) == if OpsOutcome(a).Panic? then OpsOutcome(a) else OpsOutcome(b)
    decreases |b|
  {
    if |b| == 0 {
      assert a + b == a;
    } else {
      assert (a + b)[..|a + b| - 1] == a + b[..|b| - 1];
      OpsOutcomeAppend(a, b[..|b| - 1]);
    }
  }

  /** A sequence of calls succeeds exactly when each of its calls does. */
  lemma {:induction false} OpsOutcomeOk(ops: seq<Op>)
    ensures OpsOutcome(ops).Ok? <==> forall i :: 0 <= i < |ops| ==> OpOutcome(ops[i]).Ok?
    decreases |ops|
  {
    if |ops| > 0 {
      var init := ops[..|ops| - 1];
      OpsOutcomeOk(init);
      assert forall i :: 0 <= i < |init| ==> init[i] == ops[i];
    }
  }

  /** A cell is drawn by a sequence of calls exactly when one of its calls reaches it. */
  lemma {:induction false} LastWriteSome(ops: seq<Op>, r: int, c: int)
    ensures LastWrite(ops, r, c).Some? <==> exists i :: 0 <= i < |ops| && OpWrite(ops[i], r, c).Some?
    decreases |ops|
  {
    if |ops| > 0 {
      var init := ops[..|ops| - 1];
      LastWriteSome(init, r, c);
      assert forall i :: 0 <= i < |init| ==> init[i] == ops[i];
    }
  }

  /** Every cell that `b` draws, `a` draws too. */
  ghost predicate Covers(a: seq<Op>, b: seq<Op>) {
    forall r, c :: InBuffer(r, c) && LastWrite(b, r, c).Some? ==> LastWrite(a, r, c).Some?
  }

  /** `a` covers `b` when every cell any call of b reaches is reached by some call of a. */
  lemma CoversByCalls(a: seq<Op>, b: seq<Op>)
    requires forall i, r, c :: 0 <= i < |b| && InBuffer(r, c) && OpWrite(b[i], r, c).Some?
               ==> exists j :: 0 <= j < |a| && OpWrite(a[j], r, c).Some?
    ensures Covers(a, b)
  {
    forall r, c | InBuffer(r, c) && LastWrite(b, r, c).Some?
      ensures LastWrite(a, r, c).Some?
    {
      LastWriteSome(b, r, c);
      LastWriteSome(a, r, c);
    }
  }

  lemma CoversTransitive(a: seq<Op>, b: seq<Op>, d: seq<Op>)
    requires Covers(a, b) && Covers(b, d)
    ensures Covers(a, d)
  {
  }

  /**
   * Drawing `a` over what `b` drew gives what `a` gives over the cell's
   * earlier contents, when `a` covers `b`: b leaves no trace.
   */
  lemma RenderOverCovered(a: seq<Op>, b: seq<Op>, under: char, r: int, c: int)
    requires Covers(a, b) && InBuffer(r, c)
    ensures Render(a, Render(b, under, r, c), r, c) == Render(a, under, r, c)
  {
  }
}
