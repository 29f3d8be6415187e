/**
 * popup.js: the manual capture session behind the Start, Scroll & Capture and
 * End buttons, and the full-page button. The session is the pair of
 * module-level variables `chunks` and `lastMetrics`. Each handler receives
 * what its browser calls produced: the active-tab query, the page as the
 * injected scripts see it (None when the script cannot run) and the viewport
 * snapshot (None when the browser refuses it).
 */
module Popup {
  import opened Results
  import opened Metrics
  import opened Capture
  import opened Stitch

  /** What `getActiveTab` produced: a rejected query, no tab (`undefined`), or a tab. */
  datatype TabQuery = QueryRejected | NoActiveTab | ActiveTab

  /** The alert or status line each handler ends with. */
  datatype Outcome =
    | FirstChunkCaptured
    | StartError
    | PleaseStartFirst
    | ReachedBottom
    | CapturedAt(newY: int, maxScrollTop: int)
    | ScrollError
    | NoScreenshots
    | Downloaded(file: Download)
    | StitchFailed
    | FullPageDownloaded(file: Download)
    | FullPageError

  /**
   * How far one press of Scroll & Capture scrolls: the part of the viewport
   * not covered by overlays, and never less than 1 CSS px.
   */
  function ScrollStep(m: OverlayMetrics): (step: int)
    ensures step >= 1
    ensures m.topOverlay + m.bottomOverlay < m.viewportHeight ==>
              step == m.viewportHeight - m.topOverlay - m.bottomOverlay
    ensures m.topOverlay + m.bottomOverlay >= m.viewportHeight ==> step == 1
  {
    Max(1, m.viewportHeight - m.topOverlay - m.bottomOverlay)
  }

  /** Viewport 800 px with overlays of 50 px and 30 px: a step of 720 px. */
  lemma ScrollStepExample(dpr: Ratio, maxScrollTop: int)
    ensures ScrollStep(OverlayMetrics(50, 30, 800, maxScrollTop, dpr)) == 720
  {
  }

  /**
   * One scroll with the session's step never goes backwards or past the end,
   * and it moves the page whenever the page is not yet at the bottom.
   */
  lemma ScrollMakesProgress(p: Page, m: OverlayMetrics)
    requires 0 <= p.scrollY <= MaxScrollTop(p.scrollHeight, p.innerHeight)
    ensures var s := ScrollBy(p, ScrollStep(m));
      && p.scrollY <= s.newY <= s.maxScrollTop
      && (p.scrollY < s.maxScrollTop ==> p.scrollY < s.newY)
      && (s.newY < s.maxScrollTop ==> s.newY == p.scrollY + ScrollStep(m))
  {
  }

  class Session {
    var chunks: seq<Chunk>
    var lastMetrics: Option<OverlayMetrics>

    /** Metrics are remembered exactly while the session holds chunks, and they are well formed. */
    ghost predicate Valid()
      reads this
    {
      (lastMetrics.Some? <==> chunks != []) &&
      (lastMetrics.Some? ==> WellFormed(lastMetrics.value))
    }

    /** The popup opens with no chunks and no metrics. */
    constructor ()
      ensures Valid() && chunks == [] && lastMetrics == None
    {
      chunks := [];
      lastMetrics := None;
    }

    /**
     * Start: clear the session, then capture the first chunk. Once the tab
     * query has answered, the session is cleared even if the capture then
     * fails.
     */
    method Start(tab: TabQuery, page: Option<Page>, shot: Option<Snapshot>) returns (out: Outcome)
      requires Valid()
      modifies this
      ensures Valid()
      ensures tab == QueryRejected ==>
        out == StartError && chunks == old(chunks) && lastMetrics == old(lastMetrics)
      ensures tab == NoActiveTab ==> out == StartError && chunks == [] && lastMetrics == None
      ensures tab == ActiveTab && (page.None? || shot.None?) ==>
        out == StartError && chunks == [] && lastMetrics == None
      ensures tab == ActiveTab && page.Some? && shot.Some? ==>
        var m := MetricsOf(page.value);
        out == FirstChunkCaptured && chunks == [CropImage(shot.value, m)] && lastMetrics == Some(m)
    {
      if tab == QueryRejected {
        return StartError;
      }
      chunks := [];
      lastMetrics := None;
      if tab == NoActiveTab {
        // `tab.id` of an undefined tab throws inside captureAndCrop
        return StartError;
      }
      var captured := CaptureAndCrop(page, shot);
      if captured.Err? {
        return StartError;
      }
      chunks := chunks + [captured.value.chunk];
      lastMetrics := Some(captured.value.metrics);
      out := FirstChunkCaptured;
    }

    /**
     * Scroll & Capture: scroll by the step the last metrics give, measure
     * again, capture, and append the new chunk. Without a started session,
     * or when any browser call fails, nothing changes; the chunk is appended
     * only after every call has succeeded. `scrollPage` is the page the
     * scrolling script sees; `page` is the page measured after the settle
     * delay.
     */
    method Scroll(tab: TabQuery, scrollPage: Option<Page>, page: Option<Page>, shot: Option<Snapshot>)
      returns (out: Outcome)
      requires Valid()
      modifies this
      ensures Valid()
      ensures old(lastMetrics).None? ==>
        out == PleaseStartFirst && chunks == old(chunks) && lastMetrics == old(lastMetrics)
      ensures old(lastMetrics).Some? &&
              !(tab == ActiveTab && scrollPage.Some? && page.Some? && shot.Some?) ==>
        out == ScrollError && chunks == old(chunks) && lastMetrics == old(lastMetrics)
      ensures old(lastMetrics).Some? && tab == ActiveTab && scrollPage.Some? && page.Some? && shot.Some? ==>
        var s := ScrollBy(scrollPage.value, ScrollStep(old(lastMetrics).value));
        var m := MetricsOf(page.value);
        && chunks == old(chunks) + [CropImage(shot.value, m)]
        && lastMetrics == Some(m)
        && (out == ReachedBottom <==> s.newY >= s.maxScrollTop)
        && (out != ReachedBottom ==> out == CapturedAt(s.newY, s.maxScrollTop))
    {
      if lastMetrics.None? {
        return PleaseStartFirst;
      }
      if tab != ActiveTab {
        return ScrollError;
      }
      var step := ScrollStep(lastMetrics.value);
      if scrollPage.None? {
        return ScrollError;
      }
      var s := ScrollBy(scrollPage.value, step);
      var captured := CaptureAndCrop(page, shot);
      if captured.Err? {
        return ScrollError;
      }
      chunks := chunks + [captured.value.chunk];
      lastMetrics := Some(captured.value.metrics);
      if s.newY >= s.maxScrollTop {
        out := ReachedBottom;
      } else {
        out := CapturedAt(s.newY, s.maxScrollTop);
      }
    }

    /**
     * End: stitch the session's chunks and download the result. An empty
     * session is refused; a failed stitch keeps the chunks for another try;
     * a successful one empties the session.
     */
    method End(load: Pixels -> Option<Size>) returns (out: Outcome)
      requires Valid()
      modifies this
      ensures Valid()
      ensures old(chunks) == [] ==>
        out == NoScreenshots && chunks == old(chunks) && lastMetrics == old(lastMetrics)
      ensures old(chunks) != [] && ValidImages(LoadAll(old(chunks), load)) == [] ==>
        out == StitchFailed && chunks == old(chunks) && lastMetrics == old(lastMetrics)
      ensures old(chunks) != [] && ValidImages(LoadAll(old(chunks), load)) != [] ==>
        var valid := ValidImages(LoadAll(old(chunks), load));
        && out.Downloaded?
        && out.file.canvas.width == valid[0].width
        && out.file.canvas.height == TotalHeight(valid)
        && chunks == [] && lastMetrics == None
    {
      if chunks == [] {
        return NoScreenshots;
      }
      var r := StitchAndDownload(chunks, load);
      if r.Err? {
        return StitchFailed;
      }
      chunks := [];
      lastMetrics := None;
      out := Downloaded(r.value);
    }

    /**
     * The full-page button: stitch the chunks the automatic capture returns
     * (None when it throws). It works on its own list of chunks and, having
     * no modifies clause, leaves the manual session as it was.
     */
    method FullPage(tab: TabQuery, captured: Option<seq<Chunk>>, load: Pixels -> Option<Size>)
      returns (out: Outcome)
      ensures out.FullPageDownloaded? <==>
        tab != QueryRejected && captured.Some? && ValidImages(LoadAll(captured.value, load)) != []
      ensures !out.FullPageDownloaded? ==> out == FullPageError
      ensures out.FullPageDownloaded? ==>
        var valid := ValidImages(LoadAll(captured.value, load));
        out.file.canvas.width == valid[0].width && out.file.canvas.height == TotalHeight(valid)
    {
      if tab == QueryRejected || captured.None? {
        return FullPageError;
      }
      var r := StitchAndDownload(captured.value, load);
      if r.Err? {
        return FullPageError;
      }
      out := FullPageDownloaded(r.value);
    }
  }
}
