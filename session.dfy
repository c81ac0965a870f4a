/**
 * The wiring of one page session: every sample the tracker emits is fed to
 * the page's scroll controller, and frames without a sample are skipped, so
 * the controller keeps its last output across them.
 */
module Session {
  import opened Types
  import opened EyeTracking
  import opened ScrollControl

  /** The vertical positions of the samples emitted for `frames`, in order. */
  function EmittedRows(frames: seq<Option<seq<seq<Landmark>>>>): (ys: seq<real>)
    ensures |ys| <= |frames|
    ensures (forall i :: 0 <= i < |frames| ==> !BuildSample(frames[i]).Sample?) ==> ys == []
    ensures (forall i :: 0 <= i < |frames| ==> BuildSample(frames[i]).Sample?) ==> |ys| == |frames|
  {
    if frames == [] then []
    else
      var o := BuildSample(frames[0]);
      (if o.Sample? then [o.gaze.y] else []) + EmittedRows(frames[1..])
  }

  /** Every row the controller receives from the tracker is on screen. */
  lemma {:induction false} EmittedRowsOnScreen(frames: seq<Option<seq<seq<Landmark>>>>)
    ensures forall i :: 0 <= i < |EmittedRows(frames)| ==> InUnit(EmittedRows(frames)[i])
  {
    if frames != [] {
      EmittedRowsOnScreen(frames[1..]);
    }
  }

  /**
   * Whatever the camera delivers, a session that starts from a fresh
   * controller never outputs a scroll speed above MAX_SCROLL.
   */
  lemma SessionOutputsBounded(frames: seq<Option<seq<seq<Landmark>>>>)
    ensures forall i :: 0 <= i < |EmittedRows(frames)| ==> WithinMax(Outputs(0.0, EmittedRows(frames))[i])
  {
    EmittedRowsOnScreen(frames);
    OutputsBounded(0.0, EmittedRows(frames));
  }

  /** A frame without a face leaves the session's outputs exactly as they were. */
  lemma NoFaceFrameSkipped(frame: Option<seq<seq<Landmark>>>, rest: seq<Option<seq<seq<Landmark>>>>)
    requires frame.None? || |frame.value| == 0
    ensures EmittedRows([frame] + rest) == EmittedRows(rest)
  {
  }
}
