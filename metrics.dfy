/**
 * Overlay detection and scrolling, as done by the functions that metrics.js
 * injects into the page. The DOM is given as a value: the viewport size, the
 * device pixel ratio, the document height, the current scroll offset and one
 * record per element returned by `querySelectorAll('*')`.
 */
module Metrics {

  /** Distance in CSS px from a viewport edge within which an element counts as touching it. */
  const Threshold: int := 10

  type PosNat = n: nat | n > 0 witness 1

  /** A device pixel ratio num/den; JavaScript numbers are modelled by exact rationals. */
  datatype Ratio = Ratio(num: nat, den: PosNat)

  /** The result of `getBoundingClientRect`, in CSS px relative to the viewport (already whole numbers). */
  datatype Rect = Rect(left: int, top: int, right: int, bottom: int) {
    function Width(): int { right - left }
    function Height(): int { bottom - top }
  }

  /** The parts of `getComputedStyle` that the scan consults. */
  datatype Style = Style(position: string, display: string, visibility: string)

  /** One element of the document: either its style and box, or an element whose inspection throws. */
  datatype Element = Inspected(style: Style, rect: Rect) | Unreadable

  datatype Page = Page(
    innerWidth: int,
    innerHeight: int,
    devicePixelRatio: Ratio,
    scrollHeight: int,
    scrollY: int,
    elements: seq<Element>)

  datatype OverlayMetrics = OverlayMetrics(
    topOverlay: int,
    bottomOverlay: int,
    viewportHeight: int,
    maxScrollTop: int,
    dpr: Ratio)

  datatype Scrolled = Scrolled(newY: int, maxScrollTop: int)

  datatype Edge = Top | Bottom

  function Max(a: int, b: int): int { if a < b then b else a }

  function Min(a: int, b: int): int { if a < b then a else b }

  /** `window.devicePixelRatio || 1`: a zero ratio is falsy and replaced by 1. */
  function EffectiveDpr(r: Ratio): (d: Ratio)
    ensures d.num > 0
    ensures r.num > 0 ==> d == r
    ensures r.num == 0 ==> d == Ratio(1, 1)
  {
    if r.num == 0 then Ratio(1, 1) else r
  }

  /**
   * Whether an element takes part in overlay detection at all: fixed or sticky,
   * displayed and visible, of non-zero size and overlapping the viewport.
   */
  predicate IsOverlayCandidate(e: Element, innerWidth: int, vh: int)
    ensures IsOverlayCandidate(e, innerWidth, vh) ==>
      e.Inspected? && e.rect.bottom > 0 && e.rect.top < vh && e.rect.right > 0 && e.rect.left < innerWidth
    ensures e.Unreadable? ==> !IsOverlayCandidate(e, innerWidth, vh)
  {
    e.Inspected? &&
    (e.style.position == "fixed" || e.style.position == "sticky") &&
    !(e.style.display == "none" || e.style.visibility == "hidden") &&
    e.rect.Width() != 0 && e.rect.Height() != 0 &&
    !(e.rect.right <= 0 || e.rect.left >= innerWidth) &&
    !(e.rect.bottom <= 0 || e.rect.top >= vh)
  }

  /** How far one element covers the viewport from the given edge; 0 when it is not an overlay there. */
  function Coverage(e: Element, edge: Edge, innerWidth: int, vh: int): (c: int)
    ensures c >= 0
    ensures c > 0 <==> IsOverlayCandidate(e, innerWidth, vh) &&
                       (if edge == Top then e.rect.top <= Threshold else e.rect.bottom >= vh - Threshold)
  {
    if !IsOverlayCandidate(e, innerWidth, vh) then 0
    else match edge
      case Top => if e.rect.top <= Threshold then e.rect.bottom else 0
      case Bottom => if e.rect.bottom >= vh - Threshold then vh - e.rect.top else 0
  }

  /**
   * The overlay at one edge after scanning `es` in document order: the running
   * maximum of the coverages, starting from 0. It is the least number that is
   * at least 0 and at least every coverage, so several overlays at one edge
   * combine by maximum, never by sum.
   */
  function OverlayOf(es: seq<Element>, edge: Edge, innerWidth: int, vh: int): (r: int)
    ensures r >= 0
    ensures forall i :: 0 <= i < |es| ==> Coverage(es[i], edge, innerWidth, vh) <= r
    ensures r == 0 || exists i :: 0 <= i < |es| && r == Coverage(es[i], edge, innerWidth, vh)
  {
    if es == [] then 0
    else
      var prev := OverlayOf(es[..|es| - 1], edge, innerWidth, vh);
      var r := Max(prev, Coverage(es[|es| - 1], edge, innerWidth, vh));
      assert forall i :: 0 <= i < |es| - 1 ==> es[..|es| - 1][i] == es[i];
      r
  }

  /** `max(scrollHeight - innerHeight, 0)`: how far down the document can be scrolled. */
  function MaxScrollTop(scrollHeight: int, vh: int): (m: int)
    ensures m >= 0
    ensures m >= scrollHeight - vh
    ensures m == 0 || m == scrollHeight - vh
  {
    Max(scrollHeight - vh, 0)
  }

  /** What the in-page measuring function returns for a page. */
  function MetricsOf(p: Page): (m: OverlayMetrics)
    ensures WellFormed(m)
    ensures m.viewportHeight == p.innerHeight
    ensures m.maxScrollTop >= p.scrollHeight - p.innerHeight
    ensures p.devicePixelRatio.num > 0 ==> m.dpr == p.devicePixelRatio
  {
    OverlayMetrics(
      OverlayOf(p.elements, Top, p.innerWidth, p.innerHeight),
      OverlayOf(p.elements, Bottom, p.innerWidth, p.innerHeight),
      p.innerHeight,
      MaxScrollTop(p.scrollHeight, p.innerHeight),
      EffectiveDpr(p.devicePixelRatio))
  }

  /** The shape every measurement has: no negative overlay or scroll range, a positive ratio. */
  predicate WellFormed(m: OverlayMetrics)
  {
    m.topOverlay >= 0 && m.bottomOverlay >= 0 && m.maxScrollTop >= 0 && m.dpr.num > 0
  }

  /**
   * `getOverlayMetrics`: one pass over the elements, raising the top and bottom
   * accumulators; an element whose inspection throws is skipped.
   */
  method GetOverlayMetrics(p: Page) returns (m: OverlayMetrics)
    ensures m == MetricsOf(p)
    ensures WellFormed(m) && m.viewportHeight == p.innerHeight
  {
    var vh := p.innerHeight;
    var dpr := EffectiveDpr(p.devicePixelRatio);
    var topOverlay, bottomOverlay := 0, 0;
    var es := p.elements;
    var i := 0;
    while i < |es|
      invariant 0 <= i <= |es|
      invariant topOverlay == OverlayOf(es[..i], Top, p.innerWidth, vh)
      invariant bottomOverlay == OverlayOf(es[..i], Bottom, p.innerWidth, vh)
    {
      var el := es[i];
      ScanStep(es, i, Top, p.innerWidth, vh);
      ScanStep(es, i, Bottom, p.innerWidth, vh);
      i := i + 1;
      if el.Unreadable? { continue; }
      var style, r := el.style, el.rect;
      if !(style.position == "fixed" || style.position == "sticky") { continue; }
      if style.display == "none" || style.visibility == "hidden" { continue; }
      if r.Width() == 0 || r.Height() == 0 { continue; }
      if r.right <= 0 || r.left >= p.innerWidth { continue; }
      if r.bottom <= 0 || r.top >= vh { continue; }
      if r.top <= Threshold {
        topOverlay := Max(topOverlay, r.bottom);
      }
      if r.bottom >= vh - Threshold {
        bottomOverlay := Max(bottomOverlay, vh - r.top);
      }
    }
    assert es[..i] == es;
    var maxScrollTop := Max(p.scrollHeight - vh, 0);
    m := OverlayMetrics(topOverlay, bottomOverlay, vh, maxScrollTop, dpr);
  }

  /** One iteration of the scan: the next element's coverage is folded into the accumulator by maximum. */
  lemma ScanStep(es: seq<Element>, i: nat, edge: Edge, innerWidth: int, vh: int)
    requires i < |es|
    ensures OverlayOf(es[..i + 1], edge, innerWidth, vh)
            == Max(OverlayOf(es[..i], edge, innerWidth, vh), Coverage(es[i], edge, innerWidth, vh))
  {
    assert es[..i + 1][..i] == es[..i];
  }

  /**
   * `scrollBy`: the target offset `min(scrollY + step, max(scrollHeight - innerHeight, 0))`,
   * which the page is then scrolled to, and the scroll range it was clamped to.
   */
  function ScrollBy(p: Page, step: int): (s: Scrolled)
    ensures s.maxScrollTop == MaxScrollTop(p.scrollHeight, p.innerHeight)
    ensures s.newY <= s.maxScrollTop
    ensures s.newY <= p.scrollY + step
    ensures s.newY == p.scrollY + step || s.newY == s.maxScrollTop
    ensures step >= 0 && p.scrollY <= s.maxScrollTop ==> p.scrollY <= s.newY
  {
    var max := Max(p.scrollHeight - p.innerHeight, 0);
    Scrolled(Min(p.scrollY + step, max), max)
  }

  // ---------------------------------------------------------------------
  // Properties of the overlay scan
  // ---------------------------------------------------------------------

  /** Any bound that is at least 0 and at least every coverage is at least the overlay. */
  lemma {:induction false} OverlayIsLeast(es: seq<Element>, edge: Edge, innerWidth: int, vh: int, bound: int)
    requires bound >= 0
    requires forall i :: 0 <= i < |es| ==> Coverage(es[i], edge, innerWidth, vh) <= bound
    ensures OverlayOf(es, edge, innerWidth, vh) <= bound
  {
    var r := OverlayOf(es, edge, innerWidth, vh);
    if r != 0 {
      var i :| 0 <= i < |es| && r == Coverage(es[i], edge, innerWidth, vh);
    }
  }

  /** The scan only ever raises an accumulator: a longer prefix never has a smaller overlay. */
  lemma {:induction false} OverlayNeverLowered(es: seq<Element>, edge: Edge, innerWidth: int, vh: int, i: nat, j: nat)
    requires i <= j <= |es|
    ensures OverlayOf(es[..i], edge, innerWidth, vh) <= OverlayOf(es[..j], edge, innerWidth, vh)
  {
    var a, b := es[..i], es[..j];
    forall k | 0 <= k < |a|
      ensures Coverage(a[k], edge, innerWidth, vh) <= OverlayOf(b, edge, innerWidth, vh)
    {
      assert a[k] == b[k];
    }
    OverlayIsLeast(a, edge, innerWidth, vh, OverlayOf(b, edge, innerWidth, vh));
  }

  /** The overlay depends only on which elements are present, not on their order or repetition. */
  lemma {:induction false} OverlayIgnoresOrder(es: seq<Element>, fs: seq<Element>, edge: Edge, innerWidth: int, vh: int)
    requires forall e :: e in es <==> e in fs
    ensures OverlayOf(es, edge, innerWidth, vh) == OverlayOf(fs, edge, innerWidth, vh)
  {
    forall i | 0 <= i < |es|
      ensures Coverage(es[i], edge, innerWidth, vh) <= OverlayOf(fs, edge, innerWidth, vh)
    {
      assert es[i] in fs;
      var k :| 0 <= k < |fs| && fs[k] == es[i];
    }
    OverlayIsLeast(es, edge, innerWidth, vh, OverlayOf(fs, edge, innerWidth, vh));
    forall i | 0 <= i < |fs|
      ensures Coverage(fs[i], edge, innerWidth, vh) <= OverlayOf(es, edge, innerWidth, vh)
    {
      assert fs[i] in es;
      var k :| 0 <= k < |es| && es[k] == fs[i];
    }
    OverlayIsLeast(fs, edge, innerWidth, vh, OverlayOf(es, edge, innerWidth, vh));
  }

  /** Reordering the elements (a permutation) gives the same metrics. */
  lemma MetricsIgnoreOrder(p: Page, q: Page)
    requires multiset(p.elements) == multiset(q.elements)
    requires q == p.(elements := q.elements)
    ensures MetricsOf(p) == MetricsOf(q)
  {
    forall e ensures e in p.elements <==> e in q.elements {
      assert e in p.elements <==> e in multiset(p.elements);
      assert e in q.elements <==> e in multiset(q.elements);
    }
    OverlayIgnoresOrder(p.elements, q.elements, Top, p.innerWidth, p.innerHeight);
    OverlayIgnoresOrder(p.elements, q.elements, Bottom, p.innerWidth, p.innerHeight);
  }

  /**
   * An element that is not fixed/sticky, is hidden, has no area, lies outside the
   * viewport or cannot be inspected changes neither overlay, wherever it stands,
   * and the scan goes on to the elements after it.
   */
  lemma {:induction false} IgnoredElementChangesNothing(a: seq<Element>, e: Element, b: seq<Element>, edge: Edge, innerWidth: int, vh: int)
    requires !IsOverlayCandidate(e, innerWidth, vh)
    ensures OverlayOf(a + [e] + b, edge, innerWidth, vh) == OverlayOf(a + b, edge, innerWidth, vh)
  {
    var with, without := a + [e] + b, a + b;
    forall i | 0 <= i < |with|
      ensures Coverage(with[i], edge, innerWidth, vh) <= OverlayOf(without, edge, innerWidth, vh)
    {
      if i < |a| {
        assert with[i] == without[i];
      } else if i > |a| {
        assert with[i] == without[i - 1];
      }
    }
    OverlayIsLeast(with, edge, innerWidth, vh, OverlayOf(without, edge, innerWidth, vh));
    forall i | 0 <= i < |without|
      ensures Coverage(without[i], edge, innerWidth, vh) <= OverlayOf(with, edge, innerWidth, vh)
    {
      if i < |a| {
        assert without[i] == with[i];
      } else {
        assert without[i] == with[i + 1];
      }
    }
    OverlayIsLeast(without, edge, innerWidth, vh, OverlayOf(with, edge, innerWidth, vh));
  }

  /** An element whose inspection throws is skipped and the rest of the scan is unaffected. */
  lemma UnreadableElementSkipped(p: Page, a: seq<Element>, b: seq<Element>)
    requires p.elements == a + [Unreadable] + b
    ensures MetricsOf(p) == MetricsOf(p.(elements := a + b))
  {
    IgnoredElementChangesNothing(a, Unreadable, b, Top, p.innerWidth, p.innerHeight);
    IgnoredElementChangesNothing(a, Unreadable, b, Bottom, p.innerWidth, p.innerHeight);
  }

  /**
   * The top and bottom tests are independent: an element near both edges (a
   * full-height fixed panel, say) is both a top and a bottom overlay.
   */
  lemma OneElementCanBeBothOverlays(e: Element, innerWidth: int, vh: int)
    requires IsOverlayCandidate(e, innerWidth, vh)
    requires e.rect.top <= Threshold && e.rect.bottom >= vh - Threshold
    ensures OverlayOf([e], Top, innerWidth, vh) == e.rect.bottom > 0
    ensures OverlayOf([e], Bottom, innerWidth, vh) == vh - e.rect.top > 0
  {
    assert [e][..0] == [];
  }

  /** A page with no overlay candidate has both overlays 0. */
  lemma {:induction false} NoCandidatesNoOverlay(p: Page)
    requires forall i :: 0 <= i < |p.elements| ==> !IsOverlayCandidate(p.elements[i], p.innerWidth, p.innerHeight)
    ensures MetricsOf(p).topOverlay == 0 && MetricsOf(p).bottomOverlay == 0
  {
    OverlayIsLeast(p.elements, Top, p.innerWidth, p.innerHeight, 0);
    OverlayIsLeast(p.elements, Bottom, p.innerWidth, p.innerHeight, 0);
  }
}
