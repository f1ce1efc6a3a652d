/**
 * The `simulate_drag` tool of the MCP server (mcp-server/src/tools/simulate-drag.ts): a press at
 * the centre of the element, `steps` moves along a smoothstep-eased line with ±1 px of jitter,
 * and a release at the centre shifted by the offset.
 */
module SimulateDrag {
  import opened Wrappers
  import opened JsMath

  /** `steps ?? 30` and `offset_y ?? 0`. */
  const DefaultSteps: real := 30.0
  const DefaultOffsetY: real := 0.0

  /** `smoothstep(t) = t·t·(3 − 2t)`. */
  function Smoothstep(t: real): real {
    t * t * (3.0 - 2.0 * t)
  }

  /** The easing starts at rest at 0 and arrives at 1. */
  lemma SmoothstepEnds()
    ensures Smoothstep(0.0) == 0.0 && Smoothstep(1.0) == 1.0
  {
  }

  lemma ProductNonNeg(x: real, y: real)
    requires x >= 0.0 && y >= 0.0
    ensures x * y >= 0.0
  {
  }

  lemma NonNegSum(d: real, p: real, q: real, r: real)
    requires d >= 0.0 && p >= 0.0 && q >= 0.0 && r >= 0.0
    ensures d + 2.0 * p + 2.0 * q + 2.0 * r >= 0.0
  {
  }

  /** On [0, 1] the easing stays within [0, 1]: `1 − smoothstep(t) = (1 − t)²·(1 + 2t)`. */
  lemma SmoothstepRange(t: real)
    requires 0.0 <= t <= 1.0
    ensures 0.0 <= Smoothstep(t) <= 1.0
  {
    var u := 1.0 - t;
    ProductNonNeg(t * t, 3.0 - 2.0 * t);
    ProductNonNeg(u * u, 1.0 + 2.0 * t);
    assert 1.0 - Smoothstep(t) == (u * u) * (1.0 + 2.0 * t);
  }

  /** On [0, 1] the easing never goes back: the drag only advances towards its end. */
  lemma SmoothstepMonotone(a: real, b: real)
    requires 0.0 <= a <= b <= 1.0
    ensures Smoothstep(a) <= Smoothstep(b)
  {
    // smoothstep(b) − smoothstep(a) = (b − a)·k, where k = 3(a + b) − 2(a² + ab + b²) is a sum of non-negative terms.
    ProductNonNeg(a, 1.0 - a);
    ProductNonNeg(a, 1.0 - b);
    ProductNonNeg(b, 1.0 - b);
    NonNegSum(b - a, a * (1.0 - a), a * (1.0 - b), b * (1.0 - b));
    var k := (b - a) + 2.0 * (a * (1.0 - a)) + 2.0 * (a * (1.0 - b)) + 2.0 * (b * (1.0 - b));
    assert Smoothstep(b) - Smoothstep(a) == (b - a) * k;
    ProductNonNeg(b - a, k);
  }

  /** The easing is symmetric: the second half of the drag mirrors the first. */
  lemma SmoothstepSymmetric(t: real)
    ensures Smoothstep(1.0 - t) == 1.0 - Smoothstep(t)
  {
    var u := 1.0 - t;
    assert u * u == 1.0 - 2.0 * t + t * t;
    assert Smoothstep(u) == (u * u) * (1.0 + 2.0 * t);
    assert (1.0 - 2.0 * t + t * t) * (1.0 + 2.0 * t) == 1.0 - 3.0 * (t * t) + 2.0 * (t * (t * t));
  }

  // ---------------------------------------------------------------------------------------------
  // The event sequence

  /** The `Input.dispatchMouseEvent` commands, with their rounded coordinates (left button). */
  datatype MouseEvent =
    | MousePressed(x: int, y: int)
    | MouseMoved(x: int, y: int)
    | MouseReleased(x: int, y: int)

  /** What the tool returns: the element was not found (and nothing was sent), or the events it sent. */
  datatype DragOutcome =
    | ElementNotFound
    | Dragged(events: seq<MouseEvent>)

  /** How many times `for (let i = 1; i <= steps; i++)` runs for a numeric `steps`. */
  function MoveCount(steps: real): nat {
    if steps < 1.0 then 0 else steps.Floor
  }

  /** The loop runs for `i` exactly when `i <= steps`, i.e. for i = 1..MoveCount(steps). */
  lemma LoopBound(steps: real, i: int)
    requires 1 <= i
    ensures i <= MoveCount(steps) <==> i as real <= steps
  {
    if steps >= 1.0 {
      assert steps.Floor as real <= steps < steps.Floor as real + 1.0;
    }
  }

  /**
   * Move `i` (1-based): the point eased by `smoothstep(i/steps)` along the offset, moved by the
   * jitter `(r − 0.5)·2` of the two draws `rand[2(i−1)]` and `rand[2(i−1)+1]`, then rounded.
   */
  function Move(sx: real, sy: real, dx: real, dy: real, steps: real, rand: seq<real>, i: int): MouseEvent
    requires 1 <= i && i as real <= steps && 2 * i <= |rand|
  {
    var ease := Smoothstep(i as real / steps);
    var jitterX := (rand[2 * (i - 1)] - 0.5) * 2.0;
    var jitterY := (rand[2 * (i - 1) + 1] - 0.5) * 2.0;
    MouseMoved(Round(sx + dx * ease + jitterX), Round(sy + dy * ease + jitterY))
  }

  /** The first `k` moves. */
  function Moves(sx: real, sy: real, dx: real, dy: real, steps: real, rand: seq<real>, k: nat): (ms: seq<MouseEvent>)
    requires k <= MoveCount(steps) && 2 * k <= |rand|
    ensures |ms| == k
    ensures forall j :: 0 <= j < k ==> ms[j] == Move(sx, sy, dx, dy, steps, rand, j + 1)
  {
    seq(k, j requires 0 <= j < k => Move(sx, sy, dx, dy, steps, rand, j + 1))
  }

  lemma MovesStep(sx: real, sy: real, dx: real, dy: real, steps: real, rand: seq<real>, k: nat)
    requires 1 <= k <= MoveCount(steps) && 2 * k <= |rand|
    ensures Moves(sx, sy, dx, dy, steps, rand, k)
      == Moves(sx, sy, dx, dy, steps, rand, k - 1) + [Move(sx, sy, dx, dy, steps, rand, k)]
  {
    assert Moves(sx, sy, dx, dy, steps, rand, k)[..k - 1] == Moves(sx, sy, dx, dy, steps, rand, k - 1);
  }

  /** Every event the tool sends for an element centred at (sx, sy): press, the moves, release. */
  function DragEvents(sx: real, sy: real, dx: real, dy: real, steps: real, rand: seq<real>): seq<MouseEvent>
    requires 2 * MoveCount(steps) <= |rand|
  {
    [MousePressed(Round(sx), Round(sy))]
      + Moves(sx, sy, dx, dy, steps, rand, MoveCount(steps))
      + [MouseReleased(Round(sx + dx), Round(sy + dy))]
  }

  /**
   * `simulateDrag`: `pos` is the element centre the page reported (`None` when the selector
   * matched nothing), `rand` the `Math.random()` draws in the order the loop takes them.
   */
  method Drag(pos: Option<(real, real)>, offsetX: real, offsetY: Option<real>, steps: Option<real>, rand: seq<real>)
    returns (r: DragOutcome)
    requires AllDraws(rand) && 2 * MoveCount(steps.GetOr(DefaultSteps)) <= |rand|
    ensures pos.None? <==> r == ElementNotFound
    ensures pos.Some? ==>
      r == Dragged(DragEvents(pos.value.0, pos.value.1, offsetX, offsetY.GetOr(DefaultOffsetY), steps.GetOr(DefaultSteps), rand))
  {
    var st := steps.GetOr(DefaultSteps);
    var dy := offsetY.GetOr(DefaultOffsetY);
    if pos.None? {
      return ElementNotFound;
    }
    var (sx, sy) := pos.value;
    var moves := MoveLoop(sx, sy, offsetX, dy, st, rand);
    return Dragged([MousePressed(Round(sx), Round(sy))] + moves + [MouseReleased(Round(sx + offsetX), Round(sy + dy))]);
  }

  /** The loop `for (let i = 1; i <= steps; i++)` of `simulateDrag`: the moves between press and release. */
  method MoveLoop(sx: real, sy: real, dx: real, dy: real, steps: real, rand: seq<real>) returns (moves: seq<MouseEvent>)
    requires 2 * MoveCount(steps) <= |rand|
    ensures moves == Moves(sx, sy, dx, dy, steps, rand, MoveCount(steps))
  {
    moves := [];
    var i := 1;
    while i as real <= steps
      invariant 1 <= i <= MoveCount(steps) + 1
      invariant moves == Moves(sx, sy, dx, dy, steps, rand, i - 1)
      decreases MoveCount(steps) + 1 - i
    {
      LoopBound(steps, i);
      var move := Move(sx, sy, dx, dy, steps, rand, i);
      MovesStep(sx, sy, dx, dy, steps, rand, i);
      moves := moves + [move];
      i := i + 1;
    }
    LoopBound(steps, i);
  }

  /**
   * The sequence is one press at the rounded start, exactly `steps` moves, and one release at
   * the rounded `start + offset`; move `i` lies within 1.5 px (rounding and jitter) of
   * `start + offset·smoothstep(i/steps)`.
   */
  lemma DragEventsShape(sx: real, sy: real, dx: real, dy: real, steps: real, rand: seq<real>)
    requires AllDraws(rand) && 2 * MoveCount(steps) <= |rand|
    ensures var evs := DragEvents(sx, sy, dx, dy, steps, rand);
      && |evs| == MoveCount(steps) + 2
      && evs[0] == MousePressed(Round(sx), Round(sy))
      && evs[|evs| - 1] == MouseReleased(Round(sx + dx), Round(sy + dy))
      && (forall i :: 1 <= i <= MoveCount(steps) ==>
            && evs[i].MouseMoved?
            && var ease := Smoothstep(i as real / steps);
            && -1.5 < evs[i].x as real - (sx + dx * ease) <= 1.5
            && -1.5 < evs[i].y as real - (sy + dy * ease) <= 1.5)
  {
    var evs := DragEvents(sx, sy, dx, dy, steps, rand);
    forall i | 1 <= i <= MoveCount(steps)
      ensures evs[i] == Move(sx, sy, dx, dy, steps, rand, i)
    {
    }
    forall i | 1 <= i <= MoveCount(steps)
      ensures var ease := Smoothstep(i as real / steps);
        && -1.5 < evs[i].x as real - (sx + dx * ease) <= 1.5
        && -1.5 < evs[i].y as real - (sy + dy * ease) <= 1.5
    {
      var ease := Smoothstep(i as real / steps);
      JitteredRoundNear(sx + dx * ease, rand[2 * (i - 1)]);
      JitteredRoundNear(sy + dy * ease, rand[2 * (i - 1) + 1]);
    }
  }

  /** Without `steps` the tool sends 30 moves between the press and the release. */
  lemma DefaultDragHasThirtyMoves(sx: real, sy: real, dx: real, dy: real, rand: seq<real>)
    requires 60 <= |rand|
    ensures |DragEvents(sx, sy, dx, dy, DefaultSteps, rand)| == 32
  {
    assert MoveCount(DefaultSteps) == 30;
  }
}
