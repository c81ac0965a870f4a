# EyeFlow gaze-to-scroll core in Dafny

EyeFlow is a browser extension that scrolls a page hands-free. A face-mesh
tracker turns each camera frame into a normalized gaze sample `(x, y,
confidence)`. Every sample goes to a per-page scroll controller. The
controller maps the vertical position to a target velocity: negative in the
top 15 % of the screen, zero in the central dead zone, positive in the bottom
15 %. It then blends that target into its previous output with an
exponential filter of weight 0.2, and stores and returns the result. Before
the loop starts, a page classifier decides whether the page is a PDF or an
ordinary web page.

The project models these pieces:

- `types.dfy` (module `Types`): the shared values `GazeData`, `ScrollSignal`,
  `PageType` and `Option`.
- `scroll_controller.dfy` (module `ScrollControl`): the target map
  `TargetDeltaY`, the filter `Smooth`, and the class `ScrollController`. Its
  one real field is `lastDeltaY`, which `ComputeScrollSignal` updates in
  place. The lemmas are about runs of consecutive calls (`Outputs`,
  `Iterate`).
- `eye_tracker.dfy` (module `EyeTracking`): `Clamp`, the construction of one
  sample from the detector's face list (`BuildSample`), and the class
  `EyeTracker`. That class keeps an append-only listener list and fans each
  sample out to the listeners in order.
- `page_detector.dfy` (module `PageDetection`): the three-rule priority check
  `DetectPageType`. It takes the DOM reads as parameters.
- `session.dfy` (module `Session`): the content script's wiring, in which
  every emitted sample drives the controller.

All arithmetic is over Dafny's `real`. The constants 0.15, 30 and 0.2 are
the ones in the source.

## Model

| member | source | states |
|---|---|---|
| ScrollControl.TargetDeltaY | src/content/scrollController.ts:35-45 | the target is negative exactly when y < 0.15 and positive exactly when y > 0.85; it is zero exactly on the closed dead zone [0.15, 0.85], so both edges give 0; it is within [-30, 30] for y in [0,1]; y = 0 gives -30 and y = 1 gives +30 |
| ScrollControl.Smooth | src/content/scrollController.ts:48 | the filtered output lies between the previous output and the target; its distance to the target is 0.8 times the previous distance |
| ScrollControl.Step | src/content/scrollController.ts:37-49 | one call stays put exactly when the stored output already equals the target of y, and otherwise moves strictly closer to that target |
| ScrollControl.TargetSymmetric | src/content/scrollController.ts:37-42 | the top and bottom zones mirror each other: target(1 - y) = -target(y) |
| ScrollControl.TargetMonotone | src/content/scrollController.ts:37-45 | looking lower never gives a smaller target |
| ScrollControl.TargetLipschitz | src/content/scrollController.ts:37-45 | the target has no jump at the zone edges: it changes by at most 200 per unit change of y |
| ScrollControl.StepPreservesBound | src/content/scrollController.ts:48-49 | from a state with magnitude at most 30, an on-screen gaze gives an output with magnitude at most 30 |
| ScrollControl.StepJumpBounded | src/content/scrollController.ts:48 | two consecutive outputs differ by at most 0.2 times the full range 60 |
| ScrollControl.DeadZoneDecay | src/content/scrollController.ts:44-48 | in the dead zone a call multiplies the state by exactly 0.8, so a non-zero magnitude strictly decreases |
| ScrollControl.OutputsBounded | src/content/scrollController.ts:30-51 | over any run of on-screen gaze rows that starts from a bounded state, every output has magnitude at most 30 |
| ScrollControl.DeadZoneStaysAtRest | src/content/scrollController.ts:30-48 | a controller at rest that only sees dead-zone rows returns 0 on every call |
| ScrollControl.IterateDistance | src/content/scrollController.ts:48-49 | after n calls with the same y, the distance to the target is 0.8^n times the initial distance |
| ScrollControl.PowDecays | src/content/scrollController.ts:28 | 0 < 0.8^n <= 1, and 0.8^n (1 + n/4) <= 1 |
| ScrollControl.IterateConverges | src/content/scrollController.ts:48-49 | repeated identical input converges to its target: after n calls the remaining distance is at most the initial distance divided by 1 + n/4, so gaze held at y = 0 or y = 1 approaches -30 or +30 |
| ScrollControl.ScenarioOutputs | src/content/scrollController.ts:30-51 | from state 0, the rows 0, 0, 0, 0.5 give the outputs -6, -10.8, -14.64, -11.712 |
| ScrollControl.ScrollController.constructor | src/content/scrollController.ts:30 | a new controller starts with lastDeltaY = 0 |
| ScrollControl.ScrollController.ComputeScrollSignal | src/content/scrollController.ts:32-52 | the returned deltaY is the smoothing step from the old lastDeltaY towards the target of gaze.y, and lastDeltaY becomes that value; x and confidence play no part; the bound of 30 is preserved for on-screen gaze; in the dead zone the state shrinks by the factor 0.8 |
| ScrollControl.FreshControllerScenario | src/content/scrollController.ts:24-57 | a fresh controller returns -6, -10.8, -14.64, -11.712 for the rows 0, 0, 0, 0.5, whatever x and confidence are |
| EyeTracking.Clamp | src/content/eyeTracker.ts:93-95 | if lo <= hi the result lies in [lo, hi]; a value already in range is returned unchanged; a value below lo gives lo and a value above hi gives hi |
| EyeTracking.ClampIdempotent | src/content/eyeTracker.ts:93-95 | clamping twice gives the same result as clamping once |
| EyeTracking.BuildSample | src/content/eyeTracker.ts:46-69 | no sample exactly when the face list is missing or empty; a failed property read exactly when the first face lacks landmark 33 or 263; an emitted sample has x and y in [0,1] |
| EyeTracking.EmittedConfidenceIsOne | src/content/eyeTracker.ts:47-68 | every emitted sample has confidence exactly 1.0 |
| EyeTracking.EmittedSampleIsEyeMidpoint | src/content/eyeTracker.ts:58-67 | the emitted x and y are the midpoints of landmarks 33 and 263 of the first face when those midpoints are on screen, and otherwise the nearest edge, 0 or 1 |
| EyeTracking.EyeTracker.constructor | src/content/eyeTracker.ts:32 | a new tracker has no listeners |
| EyeTracking.EyeTracker.OnGazeUpdate | src/content/eyeTracker.ts:85-87 | registration appends the listener after all earlier ones and leaves their order unchanged |
| EyeTracking.EyeTracker.OnResults | src/content/eyeTracker.ts:46-72 | when a sample is built, every registered listener is called once, in registration order, with that same sample; otherwise no listener is called |
| EyeTracking.RegistrationOrderScenario | src/content/eyeTracker.ts:71-86 | two listeners registered on a fresh tracker are called first-registered first with the same sample; a frame without a face calls neither |
| PageDetection.ToLower | src/utils/pageDetector.ts:41 | lower-casing keeps the length, turns every upper-case ASCII letter into its lower-case partner (code + 32), keeps every other character, and leaves no upper-case ASCII letter |
| PageDetection.EndsWith | src/utils/pageDetector.ts:41 | `endsWith` never holds for a string shorter than the suffix, and every suffix match is also a substring match |
| PageDetection.Includes | src/utils/pageDetector.ts:47 | `includes` never holds for a string shorter than the searched text, and holds whenever the text is a prefix |
| PageDetection.ElementIsPdf | src/utils/pageDetector.ts:38-41 | an element typed exactly "application/pdf" matches; an element that matches otherwise has a src of at least four characters, so a missing src never matches through the src rule |
| PageDetection.ScanEmbeds | src/utils/pageDetector.ts:37-44 | the scan in document order that stops at the first match finds one exactly when some element has type "application/pdf" or a lower-cased src ending in ".pdf" |
| PageDetection.DetectPageType | src/utils/pageDetector.ts:27-52 | PDF exactly when the content type is "application/pdf", or some embed/object element matches, or the lower-cased href contains ".pdf"; WEB exactly when none of the three rules fires |
| PageDetection.ContentTypeWins | src/utils/pageDetector.ts:29-31 | the content type "application/pdf" gives PDF, whatever the embeds and the URL are |
| PageDetection.ContentTypeIsCaseSensitive | src/utils/pageDetector.ts:29 | the content-type rule is an exact comparison: "APPLICATION/PDF" alone gives WEB |
| PageDetection.TypeAttributeWins | src/utils/pageDetector.ts:38-42 | one element whose type is exactly "application/pdf" gives PDF |
| PageDetection.SourceSuffixWins | src/utils/pageDetector.ts:39-42 | any src whose last four characters spell ".pdf" in any letter case makes the element match, whatever its type attribute |
| PageDetection.MissingSourceNeverMatches | src/utils/pageDetector.ts:39-41 | an element without a src matches only through its type attribute |
| PageDetection.HrefSubstringWins | src/utils/pageDetector.ts:47-49 | the URL rule is a substring test: an href with ".PDF" in the middle and not at the end gives PDF |
| PageDetection.HrefMatchesAnyCase | src/utils/pageDetector.ts:47-49 | four consecutive href characters anywhere that spell ".pdf" in any letter case give PDF, whatever the content type and embeds |
| PageDetection.HrefCaseInsensitive | src/utils/pageDetector.ts:47 | lower-casing the href first never changes the result |
| PageDetection.EmbedOrderIrrelevant | src/utils/pageDetector.ts:37-44 | the scan's result depends only on the multiset of elements and not on their order |
| Session.EmittedRows | src/content/main.ts:57-60 | the controller receives at most one row per frame: none when no frame yields a sample, one per frame when every frame does |
| Session.EmittedRowsOnScreen | src/content/main.ts:57-60 | every gaze row that the tracker hands to the controller lies in [0,1] |
| Session.SessionOutputsBounded | src/content/main.ts:57-60 | whatever the camera delivers, a session that starts from a fresh controller never outputs a magnitude above 30 |
| Session.NoFaceFrameSkipped | src/content/eyeTracker.ts:47-49 | a frame without a face adds no row, so the controller keeps its last output |

## Left out

- The MediaPipe face mesh, camera start-up and hidden video element (src/content/eyeTracker.ts:27-44, 74-82) are a foreign inference pipeline with asynchronous I/O. The detector's face list is an input to `BuildSample` and `OnResults`.
- Listener invocation is modelled as the ordered list of calls that `OnResults` returns. What a listener does, and callbacks that fire after teardown, are not modelled.
- `BuildSample`: with `refineLandmarks` the detector always supplies 478 landmarks. The model still covers a shorter list, as the outcome `LandmarkMissing`, because there the source's `.x` read throws and no listener is called.
- Landmark depth (`z`) is not read by the source and is not modelled.
- Numbers are Dafny `real`s, not IEEE-754 doubles. Rounding, NaN and infinities are not modelled, and the scenario values are exact rational results.
- `TargetDeltaY`, `StepPreservesBound`, `OutputsBounded`, `SessionOutputsBounded`: the bound of 30 and the value +30 at y = 1 hold over reals only. In doubles the bottom-zone expression at y = 1, `(1 - (1 - 0.15)) / 0.15`, rounds to 1.0000000000000002, so the source's target there is 30.000000000000007.
- `ToLower`: only ASCII letters are lower-cased; `toLowerCase` also maps non-ASCII letters. Every string the rules compare against is ASCII.
- The DOM reads in `detectPageType` (`document.contentType`, `querySelectorAll("embed, object")`, `getAttribute`, `window.location.href`) become parameters.
- The background service worker, the renderers (`window.scrollBy`/`element.scrollBy` with multiplier 1), the double-injection flag and the asynchronous bootstrap in src/content/main.ts are browser plumbing without logic of their own.
