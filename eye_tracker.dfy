/**
 * The gaze sensor adapter: turns the face-landmark result of one video frame
 * into at most one gaze sample and fans that sample out to every registered
 * listener, in registration order. The landmark detector itself is an input.
 */
module EyeTracking {
  import opened Types

  /** One face-mesh landmark in normalized image coordinates (depth is unused). */
  datatype Landmark = Landmark(x: real, y: real)

  /** Face-mesh index of the outer corner of the left eye. */
  const LEFT_EYE: nat := 33
  /** Face-mesh index of the outer corner of the right eye. */
  const RIGHT_EYE: nat := 263

  /** `value` limited to [lo, hi]: Math.max(lo, Math.min(hi, value)). */
  function Clamp(value: real, lo: real, hi: real): (r: real)
    ensures lo <= hi ==> lo <= r <= hi
    ensures lo <= value <= hi ==> r == value
    ensures lo <= hi && value < lo ==> r == lo
    ensures lo <= hi && hi < value ==> r == hi
  {
    var m := if hi < value then hi else value;
    if lo < m then m else lo
  }

  /** Clamping twice is clamping once. */
  lemma ClampIdempotent(value: real, lo: real, hi: real)
    ensures Clamp(Clamp(value, lo, hi), lo, hi) == Clamp(value, lo, hi)
  {
  }

  /** What the result handler does with one frame. */
  datatype FrameOutcome =
    | NoFace                   // no face list, or an empty one: the handler returns early
    | Sample(gaze: GazeData)   // a sample to hand to every listener
    | LandmarkMissing          // the first face lacks an eye landmark: the property read throws

  /**
   * The sample built from the detector's face list for one frame: the clamped
   * midpoint of the two eye corners of the first face, with confidence 1 when
   * a face was found and 0 otherwise.
   */
  function BuildSample(faces: Option<seq<seq<Landmark>>>): (o: FrameOutcome)
    ensures o.NoFace? <==> faces.None? || |faces.value| == 0
    ensures o.LandmarkMissing? <==>
              faces.Some? && |faces.value| > 0 &&
              (LEFT_EYE >= |faces.value[0]| || RIGHT_EYE >= |faces.value[0]|)
    ensures o.Sample? ==> InUnit(o.gaze.x) && InUnit(o.gaze.y)
  {
    if faces.None? || |faces.value| == 0 then
      NoFace
    else
      var landmarks := faces.value[0];
      if LEFT_EYE >= |landmarks| || RIGHT_EYE >= |landmarks| then
        LandmarkMissing
      else
        var leftEye := landmarks[LEFT_EYE];
        var rightEye := landmarks[RIGHT_EYE];
        var gazeX := (leftEye.x + rightEye.x) / 2.0;
        var gazeY := (leftEye.y + rightEye.y) / 2.0;
        Sample(GazeData(
          Clamp(gazeX, 0.0, 1.0),
          Clamp(gazeY, 0.0, 1.0),
          if |faces.value| > 0 then 1.0 else 0.0))
  }

  /** Every emitted sample reports full confidence: the zero-face case never gets this far. */
  lemma EmittedConfidenceIsOne(faces: Option<seq<seq<Landmark>>>)
    requires BuildSample(faces).Sample?
    ensures BuildSample(faces).gaze.confidence == 1.0
  {
  }

  /**
   * An emitted sample sits at the midpoint of the two eye corners of the first
   * face when that midpoint is on screen, and at the nearest screen edge otherwise.
   */
  lemma EmittedSampleIsEyeMidpoint(faces: Option<seq<seq<Landmark>>>)
    requires BuildSample(faces).Sample?
    ensures |faces.value| > 0 && RIGHT_EYE < |faces.value[0]| && LEFT_EYE < |faces.value[0]|
    ensures var l := faces.value[0][LEFT_EYE];
            var r := faces.value[0][RIGHT_EYE];
            var g := BuildSample(faces).gaze;
            var mx := (l.x + r.x) / 2.0;
            var my := (l.y + r.y) / 2.0;
            (InUnit(mx) ==> g.x == mx) && (mx < 0.0 ==> g.x == 0.0) && (mx > 1.0 ==> g.x == 1.0) &&
            (InUnit(my) ==> g.y == my) && (my < 0.0 ==> g.y == 0.0) && (my > 1.0 ==> g.y == 1.0)
  {
  }

  /** One call of a listener with a sample. */
  datatype Invocation<L> = Invocation(listener: L, gaze: GazeData)

  /**
   * The tracker of one page: the append-only list of gaze listeners. The
   * listener type is left open; a listener is only ever stored and invoked.
   */
  class EyeTracker<L> {
    var callbacks: seq<L>

    constructor ()
      ensures callbacks == []
    {
      callbacks := [];
    }

    /** Registers a listener after all earlier ones. */
    method OnGazeUpdate(callback: L)
      modifies this
      ensures callbacks == old(callbacks) + [callback]
    {
      callbacks := callbacks + [callback];
    }

    /**
     * Handles the detector result of one frame and returns, in order, the
     * listener calls it makes: every registered listener once, in registration
     * order, with the same sample, or no call at all when no sample is built.
     */
    method OnResults(faces: Option<seq<seq<Landmark>>>) returns (calls: seq<Invocation<L>>)
      ensures BuildSample(faces).Sample? ==>
                |calls| == |callbacks| &&
                forall i :: 0 <= i < |calls| ==>
                  calls[i] == Invocation(callbacks[i], BuildSample(faces).gaze)
      ensures !BuildSample(faces).Sample? ==> calls == []
    {
      calls := [];
      var outcome := BuildSample(faces);
      if !outcome.Sample? {
        return;
      }
      var gazeData := outcome.gaze;
      var i := 0;
      while i < |callbacks|
        invariant 0 <= i <= |callbacks|
        invariant |calls| == i
        invariant forall k :: 0 <= k < i ==> calls[k] == Invocation(callbacks[k], gazeData)
      {
        calls := calls + [Invocation(callbacks[i], gazeData)];
        i := i + 1;
      }
    }
  }

  /**
   * Two listeners registered on a fresh tracker are called first-registered
   * first, with the same sample; a frame without a face calls neither.
   */
  method RegistrationOrderScenario<L>(first: L, second: L, faces: Option<seq<seq<Landmark>>>)
    returns (calls: seq<Invocation<L>>)
    ensures BuildSample(faces).Sample? ==>
              calls == [Invocation(first, BuildSample(faces).gaze), Invocation(second, BuildSample(faces).gaze)]
    ensures BuildSample(faces).NoFace? ==> calls == []
  {
    var tracker := new EyeTracker<L>();
    tracker.OnGazeUpdate(first);
    tracker.OnGazeUpdate(second);
    calls := tracker.OnResults(faces);
  }
}
