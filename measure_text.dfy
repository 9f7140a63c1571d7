/**
 * The text tester's measurement-based export: rendered text dimensions on
 * the preview image are scaled to the print image, and a print font size is
 * estimated from the height of the first rendered line.
 */
module MeasureText {
  import opened Wrappers
  import opened JsMath

  const DEFAULT_PRINT_WIDTH: real := 4096.0

  /** What `measureOverlay` reads off the rendered overlay (in preview pixels). */
  datatype Measurements = Measurements(
    textWidth: real,
    textHeight: real,
    containerWidth: real,
    containerHeight: real,
    imageWidth: real,
    imageHeight: real,
    displayImageWidth: real,
    displayImageHeight: real,
    fontFamily: string,
    fontSize: real,
    lineHeight: real,
    lineCount: nat,
    firstLineHeight: real)

  /** The print-side sizes `calculatePillowSize` derives. */
  datatype PillowSize = PillowSize(
    targetTextHeight: real,
    targetTextWidth: real,
    estimatedFontSize: int,
    scaleFactor: real,
    cssHeight: real,
    cssLineHeight: real,
    lineCount: nat)

  /**
   * `calculatePillowSize(measurements, printImageWidth = 4096)`: nothing
   * without measurements; otherwise the measured sizes times the print-to-
   * preview scale, and a font size of 1.2 first-line heights, rounded.
   */
  function CalculatePillowSize(m: Option<Measurements>, printImageWidth: Option<real>): (r: Option<PillowSize>)
    requires m.Some? ==> m.value.displayImageWidth > 0.0
    ensures r.None? <==> m.None?
    ensures r.Some? ==> r.value.scaleFactor * m.value.displayImageWidth == printImageWidth.GetOr(DEFAULT_PRINT_WIDTH)
    ensures r.Some? ==> r.value.targetTextHeight == m.value.textHeight * r.value.scaleFactor
    ensures r.Some? ==> r.value.targetTextWidth == m.value.textWidth * r.value.scaleFactor
    ensures r.Some? ==> var f := m.value.firstLineHeight * r.value.scaleFactor * 1.2;
                        r.value.estimatedFontSize as real - 0.5 <= f < r.value.estimatedFontSize as real + 0.5
    ensures r.Some? ==> r.value.cssHeight == m.value.textHeight && r.value.cssLineHeight == m.value.firstLineHeight
                        && r.value.lineCount == m.value.lineCount
  {
    match m
    case None => None
    case Some(ms) =>
      var scale := printImageWidth.GetOr(DEFAULT_PRINT_WIDTH) / ms.displayImageWidth;
      assert scale * ms.displayImageWidth == printImageWidth.GetOr(DEFAULT_PRINT_WIDTH);
      Some(PillowSize(ms.textHeight * scale, ms.textWidth * scale, Round(ms.firstLineHeight * scale * 1.2), scale,
                      ms.textHeight, ms.firstLineHeight, ms.lineCount))
  }

  /** Scaling keeps the measured text's aspect ratio: width over height is the same on both images. */
  lemma PillowSizeKeepsAspect(m: Measurements, printImageWidth: Option<real>)
    requires m.displayImageWidth > 0.0
    ensures var p := CalculatePillowSize(Some(m), printImageWidth).value;
            p.targetTextWidth * m.textHeight == p.targetTextHeight * m.textWidth
  {
    var s := CalculatePillowSize(Some(m), printImageWidth).value.scaleFactor;
    assert (m.textWidth * s) * m.textHeight == (m.textHeight * s) * m.textWidth;
  }

  /** A preview shown at the print width needs no scaling: the targets are the measured sizes. */
  lemma PillowSizeAtPrintWidth(m: Measurements)
    requires m.displayImageWidth == DEFAULT_PRINT_WIDTH
    ensures var p := CalculatePillowSize(Some(m), None).value;
            p.scaleFactor == 1.0 && p.targetTextHeight == m.textHeight && p.targetTextWidth == m.textWidth
  {
  }

  /** A taller first line never gives a smaller estimated font size. */
  lemma EstimatedFontSizeMonotone(m: Measurements, taller: real, printImageWidth: Option<real>)
    requires m.displayImageWidth > 0.0 && printImageWidth.GetOr(DEFAULT_PRINT_WIDTH) >= 0.0
    requires taller >= m.firstLineHeight
    ensures CalculatePillowSize(Some(m), printImageWidth).value.estimatedFontSize
            <= CalculatePillowSize(Some(m.(firstLineHeight := taller)), printImageWidth).value.estimatedFontSize
  {
    var s := printImageWidth.GetOr(DEFAULT_PRINT_WIDTH) / m.displayImageWidth;
    assert s >= 0.0;
    assert m.firstLineHeight * s <= taller * s by {
      assert (taller - m.firstLineHeight) * s >= 0.0;
    }
  }

  /** The element data the measured export copies besides the measurements. */
  datatype OverlayElement = OverlayElement(content: string, font: Option<string>, align: string,
                                           leftPercent: real, topPercent: real, widthPercent: real, heightPercent: real)

  /** The export `exportWithMeasurements` builds; `_measurements` is the measurements merged with the sizes. */
  datatype MeasuredExport = MeasuredExport(content: string, position: string, font: string, fontSize: real, align: string,
                                           leftPercent: real, topPercent: real, widthPercent: real, heightPercent: real,
                                           measurements: Measurements, pillowSize: PillowSize)

  /**
   * `exportWithMeasurements`: nothing when the overlay cannot be measured;
   * otherwise the overlay's own settings, custom-positioned, with the
   * measurements and the sizes derived from them.
   */
  function ExportWithMeasurements(e: OverlayElement, m: Option<Measurements>, printImageWidth: Option<real>)
    : (r: Option<MeasuredExport>)
    requires m.Some? ==> m.value.displayImageWidth > 0.0
    ensures r.None? <==> m.None?
    ensures r.Some? ==> r.value.position == "custom" && r.value.measurements == m.value
                        && r.value.fontSize == m.value.fontSize
                        && Some(r.value.pillowSize) == CalculatePillowSize(m, printImageWidth)
    ensures r.Some? ==> r.value.font == (if e.font.Some? && e.font.value != "" then e.font.value else "Nunito-Regular.ttf")
    ensures r.Some? ==> r.value.content == e.content && r.value.align == e.align
                        && r.value.leftPercent == e.leftPercent && r.value.topPercent == e.topPercent
                        && r.value.widthPercent == e.widthPercent && r.value.heightPercent == e.heightPercent
  {
    match m
    case None => None
    case Some(ms) =>
      Some(MeasuredExport(e.content, "custom", OrString(e.font, "Nunito-Regular.ttf"), ms.fontSize, e.align,
                          e.leftPercent, e.topPercent, e.widthPercent, e.heightPercent,
                          ms, CalculatePillowSize(m, printImageWidth).value))
  }
}
