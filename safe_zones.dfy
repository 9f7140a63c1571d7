/**
 * Safe-zone geometry: the rectangle of a page image inside which text may be
 * placed, kept clear of the trim (outer margin) and of the binding (gutter
 * margin). Page types are the strings the renderer passes around.
 */
module SafeZones {
  import opened Wrappers
  import opened JsMath

  const DPI: real := 300.0
  const OUTER_SAFE_ZONE_INCHES: real := 0.75
  const GUTTER_SAFE_ZONE_INCHES: real := 1.0

  /** Safe-zone boundaries in image pixels. */
  datatype Zone = Zone(left: int, right: int, top: int, bottom: int)

  /** Margin on the edges away from the spine, in whole pixels. */
  function OuterMargin(dpi: real): int { (OUTER_SAFE_ZONE_INCHES * dpi).Floor }

  /** Margin on the spine edge, in whole pixels. */
  function GutterMargin(dpi: real): int { (GUTTER_SAFE_ZONE_INCHES * dpi).Floor }

  /**
   * `calculateSafeZones`: `"single"` keeps the outer margin on all four
   * edges, `"spread-left"` puts the gutter on the right edge, and every other
   * page type is treated as the right half of a spread (gutter on the left).
   * Nothing is validated: a margin wider than half the image gives an empty
   * or inverted zone.
   */
  function CalculateSafeZones(imageWidth: int, imageHeight: int, pageType: string, dpi: real := DPI): (z: Zone)
    ensures z.top == OuterMargin(dpi) && z.bottom == imageHeight - OuterMargin(dpi)
    ensures z.right - z.left ==
      imageWidth - (if pageType == "single" then 2 * OuterMargin(dpi) else OuterMargin(dpi) + GutterMargin(dpi))
    ensures pageType == "single" || pageType == "spread-left" ==> z.left == OuterMargin(dpi)
    ensures pageType == "spread-left" ==> z.right == imageWidth - GutterMargin(dpi)
    ensures pageType != "single" && pageType != "spread-left" ==> z.left == GutterMargin(dpi)
  {
    var outer := OuterMargin(dpi);
    var gutter := GutterMargin(dpi);
    if pageType == "single" then
      Zone(outer, imageWidth - outer, outer, imageHeight - outer)
    else if pageType == "spread-left" then
      Zone(outer, imageWidth - gutter, outer, imageHeight - outer)
    else
      Zone(gutter, imageWidth - outer, outer, imageHeight - outer)
  }

  /** At the default 300 dpi the outer margin is 225 px and the gutter 300 px. */
  lemma DefaultMargins()
    ensures OuterMargin(DPI) == 225 && GutterMargin(DPI) == 300
  {
  }

  /** A 4096 x 5461 single page at 300 dpi. */
  lemma SinglePageExample()
    ensures CalculateSafeZones(4096, 5461, "single") == Zone(225, 3871, 225, 5236)
  {
    DefaultMargins();
  }

  /**
   * Top and bottom do not depend on the page type; the zone of a spread half
   * is narrower than the single-page zone by exactly gutter - outer.
   */
  lemma SpreadNarrowerThanSingle(w: int, h: int, pageType: string, dpi: real)
    requires pageType != "single"
    ensures var s := CalculateSafeZones(w, h, "single", dpi);
            var p := CalculateSafeZones(w, h, pageType, dpi);
            s.top == p.top && s.bottom == p.bottom &&
            (s.right - s.left) - (p.right - p.left) == GutterMargin(dpi) - OuterMargin(dpi)
  {
  }

  /** The left and right halves of a spread are mirror images of each other. */
  lemma SpreadHalvesMirror(w: int, h: int, dpi: real)
    ensures var l := CalculateSafeZones(w, h, "spread-left", dpi);
            var r := CalculateSafeZones(w, h, "spread-right", dpi);
            r.left == w - l.right && r.right == w - l.left
  {
  }

  /** With non-negative margins the zone is non-empty exactly when the image exceeds both margins. */
  lemma NonEmptyIff(w: int, h: int, pageType: string, dpi: real)
    requires dpi >= 0.0
    ensures var z := CalculateSafeZones(w, h, pageType, dpi);
            var spent := if pageType == "single" then 2 * OuterMargin(dpi) else OuterMargin(dpi) + GutterMargin(dpi);
            (z.left < z.right <==> spent < w) && (z.top < z.bottom <==> 2 * OuterMargin(dpi) < h)
  {
  }

  /** `mapPageType`: story types to internal page types; anything else, `null` included, is `"single"`. */
  function MapPageType(storyType: Option<string>): (r: string)
    ensures r == "spread-left" <==> storyType == Some("spread-start")
    ensures r == "spread-right" <==> storyType == Some("spread-companion")
    ensures r == "single" || r == "spread-left" || r == "spread-right"
  {
    if storyType == Some("spread-start") then "spread-left"
    else if storyType == Some("spread-companion") then "spread-right"
    else "single"
  }

  /** CSS margins of a zone, as percentages of the container. */
  datatype CssMargins = CssMargins(left: JsNumber, right: JsNumber, top: JsNumber, bottom: JsNumber)

  /**
   * `safeZonesToCSS`: each edge's distance from its side of the container, in
   * percent. A container of zero size gives `NaN` or an infinity, as the
   * division does in JavaScript.
   */
  function SafeZonesToCss(z: Zone, containerWidth: real, containerHeight: real): (m: CssMargins)
    ensures containerWidth != 0.0 ==>
              m.left.Finite? && m.right.Finite? &&
              m.left.v * containerWidth / 100.0 == z.left as real &&
              containerWidth - m.right.v * containerWidth / 100.0 == z.right as real
    ensures containerHeight != 0.0 ==>
              m.top.Finite? && m.bottom.Finite? &&
              m.top.v * containerHeight / 100.0 == z.top as real &&
              containerHeight - m.bottom.v * containerHeight / 100.0 == z.bottom as real
    ensures containerWidth == 0.0 ==>
              !m.left.Finite? && !m.right.Finite? && (m.left.NaN? <==> z.left == 0) && (m.right.NaN? <==> z.right == 0)
    ensures containerHeight == 0.0 ==>
              !m.top.Finite? && !m.bottom.Finite? && (m.top.NaN? <==> z.top == 0) && (m.bottom.NaN? <==> z.bottom == 0)
  {
    CssMargins(
      DivPercent(z.left as real, containerWidth),
      DivPercent(containerWidth - z.right as real, containerWidth),
      DivPercent(z.top as real, containerHeight),
      DivPercent(containerHeight - z.bottom as real, containerHeight))
  }

  /** Over a non-empty container the two side margins and the zone's width make up the whole: 100%. */
  lemma CssMarginsSum(z: Zone, containerWidth: real, containerHeight: real)
    requires containerWidth != 0.0 && containerHeight != 0.0
    ensures var m := SafeZonesToCss(z, containerWidth, containerHeight);
            m.left.v + m.right.v + (z.right - z.left) as real / containerWidth * 100.0 == 100.0 &&
            m.top.v + m.bottom.v + (z.bottom - z.top) as real / containerHeight * 100.0 == 100.0
  {
    var m := SafeZonesToCss(z, containerWidth, containerHeight);
    SidesMakeWhole(m.left.v, m.right.v, z.left as real, z.right as real, containerWidth);
    SidesMakeWhole(m.top.v, m.bottom.v, z.top as real, z.bottom as real, containerHeight);
  }

  /** Two side percentages that convert back to the edges `lo` and `hi` add up with the span to 100%. */
  lemma SidesMakeWhole(a: real, b: real, lo: real, hi: real, w: real)
    requires w != 0.0
    requires a * w / 100.0 == lo && w - b * w / 100.0 == hi
    ensures a + b + (hi - lo) / w * 100.0 == 100.0
  {
    var q := (hi - lo) / w * 100.0;
    var aw, bw, qw := a * w, b * w, q * w;
    assert aw == lo * 100.0 by { assert aw / 100.0 == lo; }
    assert bw == (w - hi) * 100.0 by { assert w - bw / 100.0 == hi; }
    assert qw == (hi - lo) * 100.0 by { assert (hi - lo) / w * w == hi - lo; }
    var x := a + b + q;
    assert x * w == aw + bw + qw;
    assert x * w == 100.0 * w;
    assert x == 100.0 by { assert x == x * w / w; }
  }
}
