/**
 * Shared value types of the extension: the optional value used for missing
 * DOM attributes and missing face landmarks, one gaze observation, one scroll
 * output and the two page kinds.
 */
module Types {

  /** A value that may be absent (`null`/`undefined` in the browser). */
  datatype Option<+T> = None | Some(value: T) {
    /** The value, or `default` when absent (the fallback in `getAttribute("src") || ""`). */
    function GetOr(default: T): T {
      match this
      case Some(v) => v
      case None => default
    }
  }

  /** One sensor observation: normalized position and its reliability. */
  datatype GazeData = GazeData(x: real, y: real, confidence: real)

  /** One control output: a signed vertical pixel offset (positive scrolls down). */
  datatype ScrollSignal = ScrollSignal(deltaY: real)

  /** How the page is scrolled: the whole document, or an embedded PDF viewer. */
  datatype PageType = WEB | PDF

  /** Membership in the closed unit interval [0, 1]. */
  predicate InUnit(v: real) {
    0.0 <= v <= 1.0
  }

  function Abs(v: real): (r: real)
    ensures r >= 0.0 && (r == v || r == -v)
  {
    if v < 0.0 then -v else v
  }
}
