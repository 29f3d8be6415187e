# Scrolling screenshot extension: a Dafny model of its geometry and session

This project models the core of a browser extension that builds one tall
screenshot of a web page. The user presses Start, then Scroll & Capture as
often as needed, then End. Each capture measures the page's fixed and sticky
overlays (headers and footers). It takes a snapshot of the viewport and crops
the overlays off. Each scroll moves the page by the part of the viewport that
the overlays do not cover. End stacks the chunks vertically and downloads the
result.

Modules, one per source file:

- `Results` (results.dfy): `Option` and `Result`.
- `Metrics` (metrics.dfy, metrics.js): the in-page overlay scan, the scroll
  range and the scroll clamp. The page is a value. It holds the viewport size,
  the device pixel ratio, the document height, the scroll offset, and one
  record per element (computed style and bounding box, or `Unreadable` when
  inspecting it throws). The scan is an imperative loop, `GetOverlayMetrics`.
  It is proved equal to the recursive fold `OverlayOf`, and the lemmas about
  the scan are stated on that fold.
- `Capture` (capture.dfy, capture.js): device-pixel rounding, the crop
  geometry with its decode-failure fallback, and `captureAndCrop`.
- `Stitch` (stitch.dfy, stitch.js): loading, filtering, the canvas size and
  the draw loop with its running offset.
- `Popup` (popup.dfy, popup.js): the scroll step, plus the class `Session`.
  Its fields are `chunks` and `lastMetrics`, and its methods are the Start,
  Scroll & Capture, End and full-page handlers. `Session.Valid()` is the
  invariant the handlers keep: metrics are remembered exactly while chunks are
  held, and those metrics are well formed.

Foreign calls are parameters:

- the active-tab query is a `TabQuery`;
- a script run in the page is an `Option<Page>` (`None` when the script cannot run);
- `captureVisibleTab` is an `Option<Snapshot>`;
- image decoding during the crop is the snapshot's `decoded` field;
- image decoding during stitching is the function `load`.

Three behaviours of the code are worth knowing:

- The crop is the same for every chunk, the first one included. With a
  viewport of 800 px, overlays of 50 px and 30 px, ratio 2 and a snapshot of
  1600 rows, 1440 rows are kept (`Capture.UniformCropExample`).
- The stitched canvas takes its width and heights from the decoded images,
  not from the chunk records' `width` and `height` fields.
- After the tab query answers, Start clears the session before capturing. A
  failed first capture therefore leaves an empty session, not the old one.

## Model

| member | source | states |
|---|---|---|
| `Metrics.EffectiveDpr` | metrics.js:9 | the ratio used is always positive; it equals the page's ratio when that is non-zero, and a zero ratio falls back to 1 |
| `Metrics.IsOverlayCandidate` | metrics.js:17-23 | defines which elements take part in the scan: inspectable, fixed or sticky, shown and visible, of non-zero size, and overlapping the viewport. Every candidate ends below the viewport top, starts above its bottom, and overlaps it horizontally; an element that cannot be inspected is never a candidate |
| `Metrics.Coverage` | metrics.js:17-30 | an element covers an edge (positive amount) exactly when it is fixed or sticky, shown, visible, has non-zero size, overlaps the viewport, and lies within 10 px of that edge; otherwise 0 |
| `Metrics.OverlayOf` | metrics.js:10-32 | the overlay at an edge is at least 0 and at least every element's coverage, and it is either 0 or the coverage of one element, so overlays at one edge combine by maximum, never by sum |
| `Metrics.ScanStep` | metrics.js:25-30 | one iteration of the scan folds the next element's coverage into the accumulator by maximum |
| `Metrics.MaxScrollTop` | metrics.js:34-37 | the scroll range is never negative, is at least scrollHeight minus innerHeight, and is one of those two values |
| `Metrics.MetricsOf` | metrics.js:34-38 | defines the record the in-page function returns: both overlays, the viewport height, the scroll range and the effective ratio. The record is well formed, holds the page's viewport height, has a scroll range of at least scrollHeight minus innerHeight, and keeps a non-zero ratio as it is |
| `Metrics.GetOverlayMetrics` | metrics.js:7-39 | the imperative scan returns exactly the fold's top and bottom overlays, the viewport height, the scroll range and the effective ratio, with nothing negative |
| `Metrics.ScrollBy` | metrics.js:47-53 | the new offset never exceeds the scroll range or scrollY + step, equals one of them, and for a non-negative step from an offset within range it does not go backwards |
| `Metrics.OverlayIsLeast` | metrics.js:25-30 | every bound that is at least 0 and at least each coverage is at least the overlay |
| `Metrics.OverlayNeverLowered` | metrics.js:10-30 | a longer prefix of the scan never has a smaller overlay, so the accumulators are only raised |
| `Metrics.OverlayIgnoresOrder` | metrics.js:13-32 | two element lists with the same members give the same overlay at each edge, whatever the order |
| `Metrics.MetricsIgnoreOrder` | metrics.js:13-38 | a permutation of the page's elements gives identical metrics |
| `Metrics.IgnoredElementChangesNothing` | metrics.js:17-23 | inserting an element that is not fixed or sticky, is hidden, has no area or lies outside the viewport anywhere in the list leaves both overlays unchanged |
| `Metrics.UnreadableElementSkipped` | metrics.js:14-31 | an element whose inspection throws is skipped and the elements after it count as before |
| `Metrics.OneElementCanBeBothOverlays` | metrics.js:25-30 | an element near both edges is both a top overlay (its bottom) and a bottom overlay (viewport height minus its top) |
| `Metrics.NoCandidatesNoOverlay` | metrics.js:10-32 | a page without overlay candidates has both overlays 0 |
| `Capture.RoundHalfUp` | capture.js:27-28 | the result is the integer nearest to n/d, with halves rounded up, as `Math.round` does |
| `Capture.RoundExact` | capture.js:27-28 | rounding a whole multiple of d divided by d gives the multiplier back exactly |
| `Capture.DevicePx` | capture.js:27-28 | an overlay in CSS px times the ratio, rounded to the nearest device pixel; never negative for a non-negative overlay, 0 for 0, exact for a whole ratio |
| `Capture.CropImage` | capture.js:20-51 | a decoded snapshot keeps its width. The band kept starts at row topPx and is h >= 1 rows tall. topPx + h + bottomPx is the snapshot height when the overlays leave room, and h is 1 otherwise. A snapshot that fails to decode is returned raw with every size 0 |
| `Capture.CaptureAndCrop` | capture.js:7-18 | a failed measurement or capture is an error. Otherwise the metrics are freshly measured and well formed, and they are exactly the metrics the chunk was cropped with |
| `Capture.NoOverlayCropIsNoOp` | capture.js:27-35 | with no overlays, the crop keeps every row of the snapshot from row 0 |
| `Capture.UniformCropExample` | capture.js:27-35 | 800 px viewport, overlays 50 and 30, ratio 2, 1600 rows: 100 rows cut at the top, 60 at the bottom, 1440 kept |
| `Stitch.LoadAll` | stitch.js:10-19 | one load result per chunk, in chunk order |
| `Stitch.Load` | stitch.js:12-16 | loading one chunk gives `null` exactly when its image fails to decode; otherwise it gives that chunk's image with the decoded size |
| `Stitch.ValidImages` | stitch.js:21 | the kept images are exactly the ones that loaded, and there are no more of them than chunks |
| `Stitch.TotalHeight` | stitch.js:27 | defines the summed height of the loaded images. It is 0 for no images and at least the height of every image |
| `Stitch.ValidImagesAppend` | stitch.js:21 | filtering splits over concatenation, so the images that loaded keep their relative order |
| `Stitch.TotalHeightAppend` | stitch.js:27 | the summed height of a concatenation is the sum of the summed heights |
| `Stitch.OffsetsTile` | stitch.js:33-37 | offsets never decrease; each image ends where the next begins; each lies within the canvas height |
| `Stitch.DrawAll` | stitch.js:33-37 | image i is drawn at the sum of the heights before it, and the running offset ends at the total height |
| `Stitch.StitchAndDownload` | stitch.js:6-46 | fails exactly when no chunk loads. Otherwise the canvas is as wide as the first loaded image and as tall as all of them together, and each image is drawn at its prefix-sum offset |
| `Stitch.NoneLoadedNoneValid` | stitch.js:21-24 | filtering only failed loads leaves nothing |
| `Stitch.NothingLoadsNothingStitched` | stitch.js:10-24 | when no chunk's image loads, nothing is left to stitch |
| `Stitch.OffsetsExample` | stitch.js:26-37 | heights 400, 720, 150 are drawn at 0, 400, 1120 on a canvas 1270 tall |
| `Popup.ScrollStep` | popup.js:46-49 | the step is at least 1; it is the uncovered viewport height when the overlays leave room, and 1 when they cover the whole viewport |
| `Popup.ScrollStepExample` | popup.js:46-49 | viewport 800 with overlays 50 and 30 scrolls by 720 |
| `Popup.ScrollMakesProgress` | popup.js:46-52 | scrolling by the session's step never goes backwards or past the end; it moves whenever the page is not at the bottom; it moves by the full step unless it reaches the end |
| `Popup.Session.constructor` | popup.js:14-15 | a new session has no chunks and no metrics |
| `Popup.Session.Start` | popup.js:20-36 | a rejected tab query changes nothing. Otherwise the session is cleared first. On success it holds exactly the one chunk and the metrics it was cropped with; on failure it stays empty |
| `Popup.Session.Scroll` | popup.js:39-68 | without metrics it is refused and nothing changes; any failed call leaves chunks and metrics unchanged. On success exactly one chunk is appended after the old ones and the metrics are replaced. The step comes from the previous metrics. "Reached bottom" is reported exactly when newY >= maxScrollTop |
| `Popup.Session.End` | popup.js:71-87 | an empty session is refused. A failed stitch keeps chunks and metrics. A successful stitch downloads the canvas (first image's width, summed height) and empties the session |
| `Popup.Session.FullPage` | popup.js:90-120 | downloads exactly when the tab query answers, the automatic capture returns chunks, and at least one of them loads. It has no modifies clause, so the manual session is untouched |

## Left out

- The automatic full-page capture loop is imported by popup.js from capture.js, which does not define or export it. Its result is an input of `Popup.Session.FullPage`, and its termination and monotonicity are not modelled.
- Pixel work is not modelled: image decoding, canvas drawing, PNG encoding, and the click on the download link. A cropped chunk records which band of which snapshot it holds, and decoding is an input.
- DOM queries (`getComputedStyle`, `getBoundingClientRect`, `querySelectorAll`, `scrollTo`) are replaced by the `Page` value. Style values are compared as plain strings.
- Floating point is not modelled. Rect coordinates and scroll offsets are integers, so `Math.ceil` of a coordinate and `Math.round` of an offset are the identity. The device pixel ratio is an exact rational.
- Chrome messaging, status text, button `disabled` flags, the settle delay, `console` logging and `alert` are not modelled. Each handler instead returns which message it would show.
- Async interleaving is not modelled. Two handlers never overlap in the model, and the page measured after the settle delay is an independent input of `Scroll`.
- The status message's `chunk.index` is never set by the code and is left out.
- utils.js and background.js (tab query, delay, capture relay) are not part of this model beyond the inputs named above.
