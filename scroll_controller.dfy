/**
 * The gaze-to-scroll controller: a dead-zone velocity map followed by a
 * first-order exponential filter whose only state is the previous output.
 */
module ScrollControl {
  import opened Types

  /** Fraction of the viewport, at the top and at the bottom, that triggers scrolling. */
  const SCROLL_ZONE: real := 0.15
  /** Largest scroll speed, in pixels per frame. */
  const MAX_SCROLL: real := 30.0
  /** Weight given to the new target on every call. */
  const SMOOTHING: real := 0.2

  /** The central band where gaze produces no motion; both edges belong to it. */
  predicate InDeadZone(y: real) {
    SCROLL_ZONE <= y <= 1.0 - SCROLL_ZONE
  }

  predicate WithinMax(d: real) {
    -MAX_SCROLL <= d <= MAX_SCROLL
  }

  /**
   * The velocity the controller steers towards for vertical gaze position `y`:
   * negative above the dead zone, positive below it, zero inside it, and at
   * most MAX_SCROLL in magnitude for any on-screen position.
   */
  function TargetDeltaY(y: real): (t: real)
    ensures t < 0.0 <==> y < SCROLL_ZONE
    ensures t > 0.0 <==> y > 1.0 - SCROLL_ZONE
    ensures t == 0.0 <==> InDeadZone(y)
    ensures InUnit(y) ==> WithinMax(t)
    ensures y == 0.0 ==> t == -MAX_SCROLL
    ensures y == 1.0 ==> t == MAX_SCROLL
  {
    if y < SCROLL_ZONE then
      -MAX_SCROLL * (1.0 - y / SCROLL_ZONE)
    else if y > 1.0 - SCROLL_ZONE then
      MAX_SCROLL * ((y - (1.0 - SCROLL_ZONE)) / SCROLL_ZONE)
    else
      0.0
  }

  /**
   * One step of the exponential filter. The result lies between the previous
   * output and the target, and its distance to the target shrinks by the
   * factor 1 - SMOOTHING.
   */
  function Smooth(last: real, target: real): (d: real)
    ensures d - target == (1.0 - SMOOTHING) * (last - target)
    ensures last <= target ==> last <= d <= target
    ensures target <= last ==> target <= d <= last
  {
    last + (target - last) * SMOOTHING
  }

  /**
   * The output of one call, given the stored previous output and the gaze row:
   * it stays put exactly when the previous output already equals the target,
   * and otherwise gets strictly closer to the target.
   */
  function Step(last: real, y: real): (d: real)
    ensures d == last <==> last == TargetDeltaY(y)
    ensures last != TargetDeltaY(y) ==> Abs(d - TargetDeltaY(y)) < Abs(last - TargetDeltaY(y))
  {
    Smooth(last, TargetDeltaY(y))
  }

  /** The outputs of consecutive calls fed the rows `ys`, starting from state `last`. */
  function Outputs(last: real, ys: seq<real>): (ds: seq<real>)
    ensures |ds| == |ys|
    decreases |ys|
  {
    if ys == [] then []
    else
      var d := Step(last, ys[0]);
      [d] + Outputs(d, ys[1..])
  }

  /** The state after `n` calls that all see the same row `y`. */
  function Iterate(last: real, y: real, n: nat): real {
    if n == 0 then last else Smooth(Iterate(last, y, n - 1), TargetDeltaY(y))
  }

  function Pow(b: real, n: nat): real {
    if n == 0 then 1.0 else b * Pow(b, n - 1)
  }

  /** The velocity map is antisymmetric about the middle of the screen. */
  lemma TargetSymmetric(y: real)
    ensures TargetDeltaY(1.0 - y) == -TargetDeltaY(y)
  {
  }

  /** Looking lower never asks for a smaller (more upward) velocity. */
  lemma TargetMonotone(y1: real, y2: real)
    requires y1 <= y2
    ensures TargetDeltaY(y1) <= TargetDeltaY(y2)
  {
  }

  /**
   * No jump at the zone edges: the target moves by at most MAX_SCROLL / SCROLL_ZONE
   * (200 pixels) per unit of gaze movement.
   */
  lemma TargetLipschitz(y1: real, y2: real)
    ensures Abs(TargetDeltaY(y1) - TargetDeltaY(y2)) <= (MAX_SCROLL / SCROLL_ZONE) * Abs(y1 - y2)
  {
  }

  /** Bounded state and an on-screen gaze give a bounded output. */
  lemma StepPreservesBound(last: real, y: real)
    requires WithinMax(last) && InUnit(y)
    ensures WithinMax(Step(last, y))
  {
  }

  /** Consecutive outputs differ by at most SMOOTHING times the full range 2 * MAX_SCROLL. */
  lemma StepJumpBounded(last: real, y: real)
    requires WithinMax(last) && InUnit(y)
    ensures Abs(Step(last, y) - last) <= SMOOTHING * (2.0 * MAX_SCROLL)
  {
  }

  /** In the dead zone each call scales the state by 1 - SMOOTHING, so motion decays. */
  lemma DeadZoneDecay(last: real, y: real)
    requires InDeadZone(y)
    ensures Step(last, y) == (1.0 - SMOOTHING) * last
    ensures last != 0.0 ==> Abs(Step(last, y)) < Abs(last)
  {
  }

  /** Every output of a run from a bounded state over on-screen rows is bounded. */
  lemma {:induction false} OutputsBounded(last: real, ys: seq<real>)
    requires WithinMax(last)
    requires forall i :: 0 <= i < |ys| ==> InUnit(ys[i])
    ensures forall i :: 0 <= i < |ys| ==> WithinMax(Outputs(last, ys)[i])
    decreases |ys|
  {
    if ys != [] {
      var d := Step(last, ys[0]);
      StepPreservesBound(last, ys[0]);
      OutputsBounded(d, ys[1..]);
      assert Outputs(last, ys) == [d] + Outputs(d, ys[1..]);
    }
  }

  /** A controller at rest that only sees dead-zone rows outputs zero on every call. */
  lemma {:induction false} DeadZoneStaysAtRest(ys: seq<real>)
    requires forall i :: 0 <= i < |ys| ==> InDeadZone(ys[i])
    ensures forall i :: 0 <= i < |ys| ==> Outputs(0.0, ys)[i] == 0.0
  {
    if ys != [] {
      DeadZoneDecay(0.0, ys[0]);
      DeadZoneStaysAtRest(ys[1..]);
      assert Outputs(0.0, ys) == [0.0] + Outputs(0.0, ys[1..]);
    }
  }

  /** After `n` identical calls the distance to the target is (1 - SMOOTHING)^n of the initial one. */
  lemma {:induction false} IterateDistance(last: real, y: real, n: nat)
    ensures Iterate(last, y, n) - TargetDeltaY(y) == Pow(1.0 - SMOOTHING, n) * (last - TargetDeltaY(y))
  {
    if n > 0 {
      IterateDistance(last, y, n - 1);
      var t := TargetDeltaY(y);
      var prev := Iterate(last, y, n - 1);
      var p := Pow(1.0 - SMOOTHING, n - 1);
      assert Iterate(last, y, n) == Smooth(prev, t);
      assert Iterate(last, y, n) - t == 0.8 * (prev - t);
      assert prev - t == p * (last - t);
      assert Pow(1.0 - SMOOTHING, n) == 0.8 * p;
      assert 0.8 * (p * (last - t)) == (0.8 * p) * (last - t);
    }
  }

  /** Bernoulli-style bound: (4/5)^n * (1 + n/4) never exceeds 1. */
  lemma {:induction false} PowDecays(n: nat)
    ensures 0.0 < Pow(1.0 - SMOOTHING, n) <= 1.0
    ensures Pow(1.0 - SMOOTHING, n) * (1.0 + 0.25 * n as real) <= 1.0
  {
    if n > 0 {
      PowDecays(n - 1);
      var p := Pow(1.0 - SMOOTHING, n - 1);
      var m := (n - 1) as real;
      assert Pow(1.0 - SMOOTHING, n) == 0.8 * p;
      calc {
        Pow(1.0 - SMOOTHING, n) * (1.0 + 0.25 * n as real);
        0.8 * p * (1.0 + 0.25 * m) + 0.2 * p;
      <= 0.8 + 0.2 * p;
      <= 1.0;
      }
    }
  }

  /**
   * Repeated identical input converges to its target: after `n` calls the
   * remaining distance is at most the initial distance divided by 1 + n/4.
   * In particular gaze held at the top edge drives the output to -MAX_SCROLL,
   * and gaze held at the bottom edge to +MAX_SCROLL.
   */
  lemma IterateConverges(last: real, y: real, n: nat)
    ensures Abs(Iterate(last, y, n) - TargetDeltaY(y)) * (1.0 + 0.25 * n as real)
            <= Abs(last - TargetDeltaY(y))
  {
    IterateDistance(last, y, n);
    PowDecays(n);
    ScaledDistance(Iterate(last, y, n), last, TargetDeltaY(y), Pow(1.0 - SMOOTHING, n), 1.0 + 0.25 * n as real);
  }

  /** A distance scaled by p, with p * q <= 1, is at most the original distance divided by q. */
  lemma ScaledDistance(cur: real, last: real, t: real, p: real, q: real)
    requires cur - t == p * (last - t)
    requires 0.0 < p && 0.0 < q && p * q <= 1.0
    ensures Abs(cur - t) * q <= Abs(last - t)
  {
    var d := last - t;
    if d >= 0.0 {
      assert p * d >= 0.0;
      assert Abs(cur - t) * q == (p * q) * d;
      assert (p * q) * d <= 1.0 * d;
    } else {
      assert p * d <= 0.0;
      assert Abs(cur - t) * q == (p * q) * (-d);
      assert (p * q) * (-d) <= 1.0 * (-d);
    }
  }

  /** The worked scenario: three calls at the top edge, then one in the dead zone. */
  lemma ScenarioOutputs()
    ensures Outputs(0.0, [0.0, 0.0, 0.0, 0.5]) == [-6.0, -10.8, -14.64, -11.712]
  {
  }

  /**
   * The controller instance of one tracking session. Its only state is the
   * previous output, carried forward to smooth the next one.
   */
  class ScrollController {
    var lastDeltaY: real

    constructor ()
      ensures lastDeltaY == 0.0
    {
      lastDeltaY := 0.0;
    }

    /**
     * Maps one gaze sample to a scroll signal and remembers it. Only the
     * vertical position and the stored output matter; `x` and `confidence`
     * are ignored.
     */
    method ComputeScrollSignal(gaze: GazeData) returns (signal: ScrollSignal)
      modifies this
      ensures signal.deltaY == Step(old(lastDeltaY), gaze.y)
      ensures lastDeltaY == signal.deltaY
      ensures WithinMax(old(lastDeltaY)) && InUnit(gaze.y) ==> WithinMax(lastDeltaY)
      ensures InDeadZone(gaze.y) ==> lastDeltaY == (1.0 - SMOOTHING) * old(lastDeltaY)
    {
      var targetDeltaY := TargetDeltaY(gaze.y);
      var deltaY := lastDeltaY + (targetDeltaY - lastDeltaY) * SMOOTHING;
      lastDeltaY := deltaY;
      signal := ScrollSignal(deltaY);
    }
  }

  /** A fresh controller driven through the worked scenario, with arbitrary x and confidence. */
  method FreshControllerScenario(x: real, confidence: real) returns (outputs: seq<real>)
    ensures outputs == [-6.0, -10.8, -14.64, -11.712]
  {
    var c := new ScrollController();
    var s1 := c.ComputeScrollSignal(GazeData(x, 0.0, confidence));
    var s2 := c.ComputeScrollSignal(GazeData(x, 0.0, confidence));
    var s3 := c.ComputeScrollSignal(GazeData(x, 0.0, confidence));
    var s4 := c.ComputeScrollSignal(GazeData(x, 0.5, confidence));
    outputs := [s1.deltaY, s2.deltaY, s3.deltaY, s4.deltaY];
  }
}
