/**
 * The two human-input synthesizers of the background script: the keyDown/char/keyUp chain of
 * `dispatchRealKey` and the cubic Bézier mouse trajectory of `generateHumanMousePath`.
 * `Math.random()` draws are parameters in [0, 1), in the order the source draws them;
 * `Math.hypot` is a parameter constrained to its defining equation; coordinates are reals.
 */
module HumanInput {
  import opened JsMath

  // ---------------------------------------------------------------------------------------------
  // dispatchRealKey

  datatype KeyEventType = KeyDown | Char | KeyUp

  /**
   * One step of the chain: an `Input.dispatchKeyEvent` with the shared key, code and virtual
   * key code (and `text` on the `char` event), or a wait in milliseconds.
   */
  datatype KeyStep =
    | KeyEvent(eventType: KeyEventType, key: string, code: string, keyCode: int, text: string)
    | Pause(ms: real)

  /** `dispatchRealKey(key, code, keyCode)` with the two waits drawn as `r0` and `r1`. */
  function RealKeyChain(key: string, code: string, keyCode: int, r0: real, r1: real): (steps: seq<KeyStep>)
    requires IsDraw(r0) && IsDraw(r1)
    ensures |steps| == 5
    ensures steps[0].KeyEvent? && steps[0].eventType == KeyDown && steps[0].text == ""
    ensures steps[2].KeyEvent? && steps[2].eventType == Char && steps[2].text == key
    ensures steps[4].KeyEvent? && steps[4].eventType == KeyUp && steps[4].text == ""
    ensures forall i | i in {0, 2, 4} :: steps[i].key == key && steps[i].code == code && steps[i].keyCode == keyCode
    ensures forall i | i in {1, 3} :: steps[i].Pause? && 5.0 <= steps[i].ms < 25.0
  {
    [KeyEvent(KeyDown, key, code, keyCode, ""), Pause(5.0 + r0 * 20.0),
     KeyEvent(Char, key, code, keyCode, key), Pause(5.0 + r1 * 20.0),
     KeyEvent(KeyUp, key, code, keyCode, "")]
  }

  // ---------------------------------------------------------------------------------------------
  // generateHumanMousePath

  /** The ease-in-out curve: `2t²` below one half, `1 - 2(1 - t)²` from there. */
  function Ease(t: real): real {
    if t < 0.5 then 2.0 * (t * t) else 1.0 - 2.0 * ((1.0 - t) * (1.0 - t))
  }

  lemma MulMonotone(x: real, y: real, z: real)
    requires 0.0 <= x <= y && z >= 0.0
    ensures x * z <= y * z
  {
    assert (y - x) * z >= 0.0;
  }

  lemma SquareMonotone(x: real, y: real)
    requires 0.0 <= x <= y
    ensures x * x <= y * y
  {
    MulMonotone(x, y, x);
    MulMonotone(x, y, y);
  }

  lemma EaseRange(t: real)
    requires 0.0 <= t <= 1.0
    ensures 0.0 <= Ease(t) <= 1.0
    ensures t == 0.0 ==> Ease(t) == 0.0
    ensures t == 1.0 ==> Ease(t) == 1.0
  {
    if t < 0.5 {
      MulMonotone(t, 0.5, t);
      MulMonotone(0.0, t, t);
    } else {
      var u := 1.0 - t;
      assert Ease(t) == 1.0 - 2.0 * (u * u);
      MulMonotone(u, 0.5, u);
      MulMonotone(0.0, u, u);
    }
  }

  /** The first half of the samples is eased into the first half of the way, the second half into the second. */
  lemma EaseHalves(t: real)
    requires 0.0 <= t <= 1.0
    ensures t < 0.5 ==> Ease(t) < 0.5
    ensures t >= 0.5 ==> Ease(t) >= 0.5
  {
    if t < 0.5 {
      MulMonotone(t, 0.5, t);
    } else {
      var u := 1.0 - t;
      assert Ease(t) == 1.0 - 2.0 * (u * u);
      MulMonotone(u, 0.5, u);
    }
  }

  lemma EaseMonotoneBelowHalf(a: real, b: real)
    requires 0.0 <= a <= b < 0.5
    ensures Ease(a) <= Ease(b)
  {
    SquareMonotone(a, b);
  }

  lemma EaseMonotoneAboveHalf(a: real, b: real)
    requires 0.5 <= a <= b <= 1.0
    ensures Ease(a) <= Ease(b)
  {
    SquareMonotone(1.0 - b, 1.0 - a);
  }

  /** The ease curve never goes back: a later sample is never eased to an earlier point. */
  lemma EaseMonotone(a: real, b: real)
    requires 0.0 <= a <= b <= 1.0
    ensures Ease(a) <= Ease(b)
  {
    if b < 0.5 {
      EaseMonotoneBelowHalf(a, b);
    } else if a >= 0.5 {
      EaseMonotoneAboveHalf(a, b);
    } else {
      EaseHalves(a);
      EaseHalves(b);
    }
  }

  /** One coordinate of the cubic Bézier curve from `p0` to `p3` with control points `p1`, `p2`, at parameter `e`. */
  function Bezier(p0: real, p1: real, p2: real, p3: real, e: real): real {
    var u := 1.0 - e;
    u * u * u * p0 + 3.0 * u * u * e * p1 + 3.0 * u * e * e * p2 + e * e * e * p3
  }

  lemma BezierEnds(p0: real, p1: real, p2: real, p3: real)
    ensures Bezier(p0, p1, p2, p3, 0.0) == p0 && Bezier(p0, p1, p2, p3, 1.0) == p3
  {
  }

  /** `steps = max(10, floor(dist / 5))`. */
  function Steps(dist: real): (n: nat)
    requires dist >= 0.0
    ensures n >= 10
  {
    if (dist / 5.0).Floor < 10 then 10 else (dist / 5.0).Floor
  }

  /**
   * A control-point coordinate: `s + (e - s)·(base + 0.3·a) + (b - 0.5)·dist·0.3`, from two
   * draws `a` and `b`.
   */
  function Control(s: real, e: real, base: real, a: real, b: real, dist: real): real {
    s + (e - s) * (base + a * 0.3) + (b - 0.5) * dist * 0.3
  }

  datatype PathPoint = PathPoint(x: int, y: int, delay: real)

  /** The path's geometry: start, end, distance and the four control-point coordinates. */
  datatype Curve = Curve(sx: real, sy: real, ex: real, ey: real, dist: real, cp1x: real, cp1y: real, cp2x: real, cp2y: real)

  /** The curve of `generateHumanMousePath(sx, sy, ex, ey)`: the control points use the first eight draws. */
  function CurveOf(sx: real, sy: real, ex: real, ey: real, dist: real, rand: seq<real>): Curve
    requires |rand| >= 8
  {
    Curve(sx, sy, ex, ey, dist,
          Control(sx, ex, 0.2, rand[0], rand[1], dist), Control(sy, ey, 0.2, rand[2], rand[3], dist),
          Control(sx, ex, 0.5, rand[4], rand[5], dist), Control(sy, ey, 0.5, rand[6], rand[7], dist))
  }

  /** The unjittered point of sample `i` of `steps`. */
  function CurveX(c: Curve, i: nat, steps: nat): real
    requires steps > 0
  {
    Bezier(c.sx, c.cp1x, c.cp2x, c.ex, Ease(i as real / steps as real))
  }

  function CurveY(c: Curve, i: nat, steps: nat): real
    requires steps > 0
  {
    Bezier(c.sy, c.cp1y, c.cp2y, c.ey, Ease(i as real / steps as real))
  }

  /** The first draw after the control points and the three draws of each of the `steps + 1` samples: the overshoot test. */
  function OvershootDraw(steps: nat): nat {
    8 + 3 * (steps + 1)
  }

  /** Enough draws for the longest path: control points, samples, the test and the two extra points. */
  function DrawsNeeded(steps: nat): nat {
    OvershootDraw(steps) + 4
  }

  /**
   * `generateHumanMousePath(sx, sy, ex, ey)`: `steps + 1` jittered samples of the eased curve,
   * each with a delay in [5, 20); with probability 0.2 an overshoot point past the end and a
   * correction point; finally the last point is set exactly to the rounded end.
   */
  method GenerateHumanMousePath(sx: real, sy: real, ex: real, ey: real, dist: real, rand: seq<real>)
      returns (path: seq<PathPoint>)
    requires dist >= 0.0 && dist * dist == (ex - sx) * (ex - sx) + (ey - sy) * (ey - sy)
    requires AllDraws(rand) && |rand| >= DrawsNeeded(Steps(dist))
    ensures var steps := Steps(dist);
      |path| == steps + (if rand[OvershootDraw(steps)] < 0.2 then 3 else 1)
    ensures path[|path| - 1].x == Round(ex) && path[|path| - 1].y == Round(ey)
    ensures forall i :: 0 <= i <= Steps(dist) ==> 5.0 <= path[i].delay < 20.0
    ensures var c := CurveOf(sx, sy, ex, ey, dist, rand);
      forall i :: 0 <= i < |path| - 1 && i <= Steps(dist) ==>
        -1.5 < path[i].x as real - CurveX(c, i, Steps(dist)) <= 1.5 &&
        -1.5 < path[i].y as real - CurveY(c, i, Steps(dist)) <= 1.5
    ensures |path| == Steps(dist) + 3 ==>
      10.0 <= path[Steps(dist) + 1].delay < 30.0 && 15.0 <= path[Steps(dist) + 2].delay < 40.0
  {
    var steps := if (dist / 5.0).Floor < 10 then 10 else (dist / 5.0).Floor;
    var c := CurveOf(sx, sy, ex, ey, dist, rand);
    path := [];
    var next := 8;
    var i := 0;
    while i <= steps
      invariant 0 <= i <= steps + 1 && |path| == i && next == 8 + 3 * i
      invariant forall j :: 0 <= j < i ==> 5.0 <= path[j].delay < 20.0
      invariant forall j :: 0 <= j < i ==>
        -1.5 < path[j].x as real - CurveX(c, j, steps) <= 1.5 && -1.5 < path[j].y as real - CurveY(c, j, steps) <= 1.5
    {
      var t := i as real / steps as real;
      var ease := Ease(t);
      var x := Bezier(sx, c.cp1x, c.cp2x, ex, ease);
      var y := Bezier(sy, c.cp1y, c.cp2y, ey, ease);
      var jitterX := (rand[next] - 0.5) * 2.0;
      var jitterY := (rand[next + 1] - 0.5) * 2.0;
      path := path + [PathPoint(Round(x + jitterX), Round(y + jitterY), 5.0 + rand[next + 2] * 15.0)];
      next := next + 3;
      i := i + 1;
    }
    if rand[next] < 0.2 {
      var overshootDist := 5.0 + rand[next + 1] * 15.0;
      var cosA := if dist == 0.0 then 1.0 else (ex - sx) / dist;
      var sinA := if dist == 0.0 then 0.0 else (ey - sy) / dist;
      path := path + [PathPoint(Round(ex + cosA * overshootDist), Round(ey + sinA * overshootDist), 10.0 + rand[next + 2] * 20.0)];
      path := path + [PathPoint(Round(ex), Round(ey), 15.0 + rand[next + 3] * 25.0)];
    }
    path := path[|path| - 1 := PathPoint(Round(ex), Round(ey), path[|path| - 1].delay)];
  }

  /** The first sample is the start point up to rounding and jitter: the eased curve starts at `(sx, sy)`. */
  lemma PathStartsNearStart(sx: real, sy: real, ex: real, ey: real, dist: real, rand: seq<real>)
    requires dist >= 0.0 && |rand| >= 8
    ensures var c := CurveOf(sx, sy, ex, ey, dist, rand);
      CurveX(c, 0, Steps(dist)) == sx && CurveY(c, 0, Steps(dist)) == sy
  {
    var c := CurveOf(sx, sy, ex, ey, dist, rand);
    var steps := Steps(dist);
    assert 0 as real / steps as real == 0.0;
    EaseRange(0.0);
    BezierEnds(sx, c.cp1x, c.cp2x, ex);
    BezierEnds(sy, c.cp1y, c.cp2y, ey);
  }

  /** The unjittered samples run from the start to the end: the last one is the end point itself. */
  lemma PathSamplesReachEnd(sx: real, sy: real, ex: real, ey: real, dist: real, rand: seq<real>)
    requires dist >= 0.0 && |rand| >= 8
    ensures var c := CurveOf(sx, sy, ex, ey, dist, rand);
      CurveX(c, Steps(dist), Steps(dist)) == ex && CurveY(c, Steps(dist), Steps(dist)) == ey
  {
    var c := CurveOf(sx, sy, ex, ey, dist, rand);
    var steps := Steps(dist);
    assert steps as real / steps as real == 1.0;
    EaseRange(1.0);
    BezierEnds(sx, c.cp1x, c.cp2x, ex);
    BezierEnds(sy, c.cp1y, c.cp2y, ey);
  }
}
