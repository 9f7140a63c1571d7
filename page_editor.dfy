/**
 * The book-page text editor: global text settings with the preview-to-print
 * font-size conversion, pixel drag and corner resize of the selected text
 * overlay, and the page changes these gestures hand to the live-changes
 * registry. DOM rendering, popups and event wiring are not modelled; each
 * handler takes the event's values as parameters and returns the change it
 * registers.
 */
module PageEditor {
  import opened Wrappers
  import opened JsMath
  import LiveChanges

  /** Width of the original (print) page images. */
  const ORIGINAL_IMAGE_WIDTH: int := 4096
  /** Width of the preview page images. */
  const PREVIEW_IMAGE_WIDTH: int := 1200

  // ----- font sizes -----

  /** The print font size for a preview size: the nearest integer to `display · 4096 / 1200`. */
  function PrintFontSize(display: int): (r: int)
    ensures (r as real) - 0.5 <= (display * ORIGINAL_IMAGE_WIDTH) as real / PREVIEW_IMAGE_WIDTH as real < (r as real) + 0.5
  {
    Round((display * ORIGINAL_IMAGE_WIDTH) as real / PREVIEW_IMAGE_WIDTH as real)
  }

  /** A larger preview size never gives a smaller print size. */
  lemma PrintFontSizeMonotone(a: int, b: int)
    requires a <= b
    ensures PrintFontSize(a) <= PrintFontSize(b)
  {
    var x := (a * ORIGINAL_IMAGE_WIDTH) as real / PREVIEW_IMAGE_WIDTH as real;
    var y := (b * ORIGINAL_IMAGE_WIDTH) as real / PREVIEW_IMAGE_WIDTH as real;
    assert a * ORIGINAL_IMAGE_WIDTH <= b * ORIGINAL_IMAGE_WIDTH;
    assert x <= y;
  }

  /** The slider's ends and its default: 20 → 68, 70 → 239, 120 → 410. */
  lemma PrintFontSizeSlider()
    ensures PrintFontSize(20) == 68
    ensures PrintFontSize(70) == 239
    ensures PrintFontSize(120) == 410
  {
    assert (20 * ORIGINAL_IMAGE_WIDTH) as real / PREVIEW_IMAGE_WIDTH as real == 81920.0 / 1200.0;
    assert (70 * ORIGINAL_IMAGE_WIDTH) as real / PREVIEW_IMAGE_WIDTH as real == 286720.0 / 1200.0;
    assert (120 * ORIGINAL_IMAGE_WIDTH) as real / PREVIEW_IMAGE_WIDTH as real == 491520.0 / 1200.0;
  }

  // ----- global settings -----

  datatype GlobalSettings = GlobalSettings(font: Option<string>, fontSize: int, displayFontSize: int,
                                           colorMode: string, manualColor: string)

  /** The initial global settings, which `revertGlobal` restores. */
  const DEFAULT_GLOBALS := GlobalSettings(None, 240, 70, "auto", "#000000")

  /** The defaults do not form a pair the size slider produces: at 70 the slider gives 239, not 240. */
  lemma DefaultSizesNotSliderPair()
    ensures PrintFontSize(DEFAULT_GLOBALS.displayFontSize) != DEFAULT_GLOBALS.fontSize
  {
    PrintFontSizeSlider();
  }

  /** The settings object as the registry receives it. */
  function SettingsValues(g: GlobalSettings): (m: map<string, LiveChanges.Value>)
    ensures m.Keys == {"font", "fontSize", "displayFontSize", "colorMode", "manualColor"}
    ensures m["font"] == if g.font.Some? then LiveChanges.Str(g.font.value) else LiveChanges.Null
    ensures m["fontSize"] == LiveChanges.Num(g.fontSize as real)
  {
    map["font" := (if g.font.Some? then LiveChanges.Str(g.font.value) else LiveChanges.Null),
        "fontSize" := LiveChanges.Num(g.fontSize as real),
        "displayFontSize" := LiveChanges.Num(g.displayFontSize as real),
        "colorMode" := LiveChanges.Str(g.colorMode),
        "manualColor" := LiveChanges.Str(g.manualColor)]
  }

  /**
   * The settings object has no `color` key, so a global change from this
   * editor records at most the font and the size: a manual colour never
   * reaches the registry's global delta.
   */
  lemma GlobalChangeRecordsNoColour(g: GlobalSettings, original: map<string, LiveChanges.Value>)
    ensures "color" !in LiveChanges.GlobalDelta(SettingsValues(g), original, LiveChanges.GLOBAL_KEYS)
    ensures LiveChanges.GlobalDelta(SettingsValues(g), original, LiveChanges.GLOBAL_KEYS).Keys <= {"font", "fontSize"}
  {
    var m := SettingsValues(g);
    assert "color" !in m;
  }

  // ----- drag -----

  /** An overlay's pixel box inside its image container. */
  datatype PixelBox = PixelBox(left: real, top: real, width: real, height: real)

  datatype DragState = DragState(pageNumber: int, containerWidth: real, containerHeight: real,
                                 startX: real, startY: real, startLeft: real, startTop: real, hasMoved: bool)

  /** The pointer has left the 5px dead zone: `sqrt(dx² + dy²) >= 5`. */
  predicate BeyondThreshold(dx: real, dy: real)
  {
    dx * dx + dy * dy >= 25.0
  }

  /** One coordinate of a drag: the start moved by the pointer, kept inside `[0, container − size]`. */
  function DraggedTo(start: real, delta: real, container: real, size: real): (r: real)
    ensures 0.0 <= r
    ensures size <= container ==> r + size <= container
    ensures 0.0 <= start + delta <= container - size ==> r == start + delta
    ensures container - size < 0.0 ==> r == 0.0
  {
    ClampLow(0.0, container - size, start + delta)
  }

  /** An offset as a percentage of the container's extent. */
  function Percent(offset: real, container: real): (r: real)
    requires container > 0.0
    ensures r * container == offset * 100.0
    ensures 0.0 <= offset <= container ==> 0.0 <= r <= 100.0
  {
    offset / container * 100.0
  }

  /** A dragged overlay that fits its container is stored at a left percentage in `[0, 100 − width%]`. */
  lemma DraggedPercentInside(start: real, delta: real, container: real, size: real)
    requires container > 0.0 && 0.0 <= size <= container
    ensures 0.0 <= Percent(DraggedTo(start, delta, container, size), container)
    ensures Percent(DraggedTo(start, delta, container, size), container) + Percent(size, container) <= 100.0
  {
    var r := DraggedTo(start, delta, container, size);
    PercentsAdd(r, size, container);
  }

  /** Percentages of the same extent add up. */
  lemma PercentsAdd(a: real, b: real, container: real)
    requires container > 0.0
    ensures Percent(a, container) + Percent(b, container) == Percent(a + b, container)
  {
    assert a / container + b / container == (a + b) / container;
  }

  // ----- corner resize -----

  datatype ResizeState = ResizeState(pageNumber: int, containerWidth: real, containerHeight: real,
                                     position: string, startX: real, startY: real, start: PixelBox)

  /** The box the grabbed corner gives before the minimum size is enforced. */
  function CornerResize(position: string, start: PixelBox, dx: real, dy: real): PixelBox
  {
    match position
    case "se" => start.(width := start.width + dx, height := start.height + dy)
    case "sw" => start.(left := start.left + dx, width := start.width - dx, height := start.height + dy)
    case "ne" => start.(top := start.top + dy, width := start.width + dx, height := start.height - dy)
    case "nw" => PixelBox(start.left + dx, start.top + dy, start.width - dx, start.height - dy)
    case _ => start
  }

  /**
   * Each corner drags its own two edges by the pointer's movement and
   * leaves the opposite two where they were; any other handle name changes
   * nothing.
   */
  lemma CornerResizeMovesGrabbedEdges(position: string, start: PixelBox, dx: real, dy: real)
    ensures var b := CornerResize(position, start, dx, dy);
            (position in {"se", "ne"} ==> b.left == start.left && b.left + b.width == start.left + start.width + dx) &&
            (position in {"sw", "nw"} ==> b.left == start.left + dx && b.left + b.width == start.left + start.width) &&
            (position in {"se", "sw"} ==> b.top == start.top && b.top + b.height == start.top + start.height + dy) &&
            (position in {"ne", "nw"} ==> b.top == start.top + dy && b.top + b.height == start.top + start.height) &&
            (position !in {"se", "sw", "ne", "nw"} ==> b == start)
  {
  }

  /** `onResize`: the corner's box with width at least 100 and height at least 50; left and top are not clamped. */
  function Resized(position: string, start: PixelBox, dx: real, dy: real): (b: PixelBox)
    ensures b.width >= 100.0 && b.height >= 50.0
    ensures b.left == CornerResize(position, start, dx, dy).left && b.top == CornerResize(position, start, dx, dy).top
    ensures CornerResize(position, start, dx, dy).width >= 100.0 ==> b.width == CornerResize(position, start, dx, dy).width
    ensures CornerResize(position, start, dx, dy).height >= 50.0 ==> b.height == CornerResize(position, start, dx, dy).height
  {
    var c := CornerResize(position, start, dx, dy);
    c.(width := Max(100.0, c.width), height := Max(50.0, c.height))
  }

  // ----- overlays to re-render -----

  /** Whether an overlay whose spec has `useGlobal` as given follows the global settings (`useGlobal !== false`). */
  predicate FollowsGlobal(useGlobal: Option<LiveChanges.Value>)
  {
    useGlobal != Some(LiveChanges.Bool(false))
  }

  /**
   * `updateAllOverlays`: the positions, in document order, of the overlays
   * that are re-rendered, given each overlay's `useGlobal`.
   */
  method UpdateAllOverlays(useGlobals: seq<Option<LiveChanges.Value>>) returns (refreshed: seq<nat>)
    ensures forall i :: i in refreshed <==> 0 <= i < |useGlobals| && FollowsGlobal(useGlobals[i])
    ensures forall a, b :: 0 <= a < b < |refreshed| ==> refreshed[a] < refreshed[b]
  {
    refreshed := [];
    var k := 0;
    while k < |useGlobals|
      invariant 0 <= k <= |useGlobals|
      invariant forall i :: i in refreshed <==> 0 <= i < k && FollowsGlobal(useGlobals[i])
      invariant forall a, b :: 0 <= a < b < |refreshed| ==> refreshed[a] < refreshed[b]
      invariant forall a :: 0 <= a < |refreshed| ==> refreshed[a] < k
    {
      if FollowsGlobal(useGlobals[k]) {
        refreshed := refreshed + [k];
      }
      k := k + 1;
    }
  }

  /** The editor's module state: global settings, the selected overlay's page and box, and the gesture in progress. */
  class Editor {
    var globalSettings: GlobalSettings
    /** The page of the selected overlay, if one is selected. */
    var selectedPage: Option<int>
    /** The selected overlay's pixel box. */
    var overlay: PixelBox
    var dragState: Option<DragState>
    var resizeState: Option<ResizeState>

    /** A gesture in progress was started on a laid-out container. */
    ghost predicate Valid()
      reads this
    {
      && (dragState.Some? ==> dragState.value.containerWidth > 0.0 && dragState.value.containerHeight > 0.0)
      && (resizeState.Some? ==> resizeState.value.containerWidth > 0.0 && resizeState.value.containerHeight > 0.0)
    }

    constructor(box: PixelBox)
      ensures Valid()
      ensures globalSettings == DEFAULT_GLOBALS && selectedPage == None && overlay == box
      ensures dragState == None && resizeState == None
    {
      globalSettings := DEFAULT_GLOBALS;
      selectedPage := None;
      overlay := box;
      dragState := None;
      resizeState := None;
    }

    /** `selectTextOverlay`: the overlay of `page`, with pixel box `box`, becomes the selected one. */
    method SelectTextOverlay(page: int, box: PixelBox)
      modifies this`selectedPage, this`overlay
      ensures selectedPage == Some(page) && overlay == box
    {
      selectedPage := Some(page);
      overlay := box;
    }

    /** `deselectTextOverlay`. */
    method DeselectTextOverlay()
      modifies this`selectedPage
      ensures selectedPage == None
    {
      selectedPage := None;
    }

    /** `startDrag`: a press on a resize handle starts no drag; otherwise the drag remembers where it began. */
    method StartDrag(onHandle: bool, x: real, y: real, containerWidth: real, containerHeight: real)
      requires Valid() && selectedPage.Some?
      requires containerWidth > 0.0 && containerHeight > 0.0
      modifies this`dragState
      ensures Valid()
      ensures onHandle ==> dragState == old(dragState)
      ensures !onHandle ==> dragState == Some(DragState(selectedPage.value, containerWidth, containerHeight,
                                                        x, y, overlay.left, overlay.top, false))
    {
      if onHandle {
        return;
      }
      dragState := Some(DragState(selectedPage.value, containerWidth, containerHeight, x, y, overlay.left, overlay.top, false));
    }

    /**
     * `onDrag`: nothing happens while the pointer is within 5px of the
     * start and the drag has not moved yet; after that the drag has moved
     * for good and the box follows the pointer, clamped into the container.
     */
    method OnDrag(x: real, y: real)
      requires Valid()
      modifies this`dragState, this`overlay
      ensures Valid()
      ensures overlay.width == old(overlay.width) && overlay.height == old(overlay.height)
      ensures old(dragState).None? ==> dragState == old(dragState) && overlay == old(overlay)
      ensures old(dragState).Some? && !old(dragState).value.hasMoved &&
              !BeyondThreshold(x - old(dragState).value.startX, y - old(dragState).value.startY) ==>
                dragState == old(dragState) && overlay == old(overlay)
      ensures old(dragState).Some? && (old(dragState).value.hasMoved ||
              BeyondThreshold(x - old(dragState).value.startX, y - old(dragState).value.startY)) ==>
                var d := old(dragState).value;
                dragState == Some(d.(hasMoved := true)) &&
                overlay.left == DraggedTo(d.startLeft, x - d.startX, d.containerWidth, overlay.width) &&
                overlay.top == DraggedTo(d.startTop, y - d.startY, d.containerHeight, overlay.height)
    {
      if dragState.None? {
        return;
      }
      var d := dragState.value;
      var dx := x - d.startX;
      var dy := y - d.startY;
      if !d.hasMoved && !BeyondThreshold(dx, dy) {
        return;
      }
      dragState := Some(d.(hasMoved := true));
      overlay := overlay.(left := DraggedTo(d.startLeft, dx, d.containerWidth, overlay.width),
                          top := DraggedTo(d.startTop, dy, d.containerHeight, overlay.height));
    }

    /**
     * `endDrag`: the drag ends; only a drag that moved registers the box's
     * position, as percentages of the container, for the overlay's page.
     */
    method EndDrag() returns (change: Option<LiveChanges.Change>)
      requires Valid()
      modifies this`dragState
      ensures Valid() && dragState.None?
      ensures old(dragState).None? ==> change.None?
      ensures old(dragState).Some? ==> (change.Some? <==> old(dragState).value.hasMoved)
      ensures change.Some? ==>
                var d := old(dragState).value;
                change.value == LiveChanges.PageChange(d.pageNumber,
                  [("leftPercent", LiveChanges.Num(Percent(overlay.left, d.containerWidth))),
                   ("topPercent", LiveChanges.Num(Percent(overlay.top, d.containerHeight)))])
    {
      change := None;
      if dragState.None? {
        return;
      }
      var d := dragState.value;
      if d.hasMoved {
        change := Some(LiveChanges.PageChange(d.pageNumber,
                    [("leftPercent", LiveChanges.Num(Percent(overlay.left, d.containerWidth))),
                     ("topPercent", LiveChanges.Num(Percent(overlay.top, d.containerHeight)))]));
      }
      dragState := None;
    }

    /** `startResize`: the resize remembers the handle, the pointer and the box it began with. */
    method StartResize(position: string, x: real, y: real, containerWidth: real, containerHeight: real)
      requires Valid() && selectedPage.Some?
      requires containerWidth > 0.0 && containerHeight > 0.0
      modifies this`resizeState
      ensures Valid()
      ensures resizeState == Some(ResizeState(selectedPage.value, containerWidth, containerHeight, position, x, y, overlay))
    {
      resizeState := Some(ResizeState(selectedPage.value, containerWidth, containerHeight, position, x, y, overlay));
    }

    /** `onResize`: the box becomes the grabbed corner's box with the minimum size enforced. */
    method OnResize(x: real, y: real)
      requires Valid()
      modifies this`overlay
      ensures old(resizeState).None? ==> overlay == old(overlay)
      ensures resizeState.Some? ==>
                var r := resizeState.value;
                overlay == Resized(r.position, r.start, x - r.startX, y - r.startY)
    {
      if resizeState.None? {
        return;
      }
      var r := resizeState.value;
      overlay := Resized(r.position, r.start, x - r.startX, y - r.startY);
    }

    /** `endResize`: the resize ends and registers the box's width, left and top as percentages. */
    method EndResize() returns (change: Option<LiveChanges.Change>)
      requires Valid()
      modifies this`resizeState
      ensures Valid() && resizeState.None?
      ensures change.Some? <==> old(resizeState).Some?
      ensures change.Some? ==>
                var r := old(resizeState).value;
                change.value == LiveChanges.PageChange(r.pageNumber,
                  [("widthPercent", LiveChanges.Num(Percent(overlay.width, r.containerWidth))),
                   ("leftPercent", LiveChanges.Num(Percent(overlay.left, r.containerWidth))),
                   ("topPercent", LiveChanges.Num(Percent(overlay.top, r.containerHeight)))])
    {
      change := None;
      if resizeState.None? {
        return;
      }
      var r := resizeState.value;
      change := Some(LiveChanges.PageChange(r.pageNumber,
                  [("widthPercent", LiveChanges.Num(Percent(overlay.width, r.containerWidth))),
                   ("leftPercent", LiveChanges.Num(Percent(overlay.left, r.containerWidth))),
                   ("topPercent", LiveChanges.Num(Percent(overlay.top, r.containerHeight)))]));
      resizeState := None;
    }

    /** `updateGlobalFont`: the empty choice means the default font. */
    method UpdateGlobalFont(value: string) returns (change: LiveChanges.Change)
      modifies this`globalSettings
      ensures globalSettings == old(globalSettings).(font := if value == "" then None else Some(value))
      ensures change == LiveChanges.GlobalChange(SettingsValues(globalSettings))
    {
      globalSettings := globalSettings.(font := if value == "" then None else Some(value));
      change := LiveChanges.GlobalChange(SettingsValues(globalSettings));
    }

    /** `updateGlobalFontSize`: the slider's preview size and its print size. */
    method UpdateGlobalFontSize(displaySize: int) returns (change: LiveChanges.Change)
      modifies this`globalSettings
      ensures globalSettings == old(globalSettings).(displayFontSize := displaySize, fontSize := PrintFontSize(displaySize))
      ensures change == LiveChanges.GlobalChange(SettingsValues(globalSettings))
    {
      globalSettings := globalSettings.(displayFontSize := displaySize, fontSize := PrintFontSize(displaySize));
      change := LiveChanges.GlobalChange(SettingsValues(globalSettings));
    }

    /** `updateGlobalColorMode`. */
    method UpdateGlobalColorMode(mode: string) returns (change: LiveChanges.Change)
      modifies this`globalSettings
      ensures globalSettings == old(globalSettings).(colorMode := mode)
      ensures change == LiveChanges.GlobalChange(SettingsValues(globalSettings))
    {
      globalSettings := globalSettings.(colorMode := mode);
      change := LiveChanges.GlobalChange(SettingsValues(globalSettings));
    }

    /** `updateGlobalColor`. */
    method UpdateGlobalColor(color: string) returns (change: LiveChanges.Change)
      modifies this`globalSettings
      ensures globalSettings == old(globalSettings).(manualColor := color)
      ensures change == LiveChanges.GlobalChange(SettingsValues(globalSettings))
    {
      globalSettings := globalSettings.(manualColor := color);
      change := LiveChanges.GlobalChange(SettingsValues(globalSettings));
    }

    /** `revertGlobal`: once confirmed, the defaults are restored and registered. */
    method RevertGlobal(confirmed: bool) returns (change: Option<LiveChanges.Change>)
      modifies this`globalSettings
      ensures !confirmed ==> globalSettings == old(globalSettings) && change.None?
      ensures confirmed ==> globalSettings == DEFAULT_GLOBALS
      ensures confirmed ==> change == Some(LiveChanges.GlobalChange(SettingsValues(DEFAULT_GLOBALS)))
    {
      change := None;
      if !confirmed {
        return;
      }
      globalSettings := DEFAULT_GLOBALS;
      change := Some(LiveChanges.GlobalChange(SettingsValues(globalSettings)));
    }

    /** `updatePageFontSize`: with an overlay selected, its page records the print size and the preview size. */
    method UpdatePageFontSize(displaySize: int) returns (change: Option<LiveChanges.Change>)
      ensures selectedPage.None? ==> change.None?
      ensures selectedPage.Some? ==>
                change == Some(LiveChanges.PageChange(selectedPage.value,
                  [("fontSize", LiveChanges.Num(PrintFontSize(displaySize) as real)),
                   ("displayFontSize", LiveChanges.Num(displaySize as real))]))
    {
      change := None;
      if selectedPage.None? {
        return;
      }
      change := Some(LiveChanges.PageChange(selectedPage.value,
                  [("fontSize", LiveChanges.Num(PrintFontSize(displaySize) as real)),
                   ("displayFontSize", LiveChanges.Num(displaySize as real))]));
    }
  }
}
