/**
 * The text-tester's overlay editor: a list of text overlays positioned in
 * percent of the image wrapper, each with a unique generated id; selection,
 * deletion, dragging and corner/edge resizing with clamping; and the set of
 * web fonts already requested, so each is requested once.
 */
module OverlayEditor {
  import opened Wrappers
  import opened Strings
  import opened JsMath

  /** One overlay's data; positions and sizes are percentages of the image wrapper. */
  datatype OverlayData = OverlayData(
    id: string,
    pageNumber: Option<int>,
    content: string,
    fontFamily: string,
    fontSize: real,
    lineHeight: real,
    letterSpacing: real,
    color: string,
    align: string,
    leftPercent: real,
    topPercent: real,
    widthPercent: real,
    heightPercent: real)

  /** Settings loaded from a published page; `None` is a missing field. */
  datatype OverlaySettings = OverlaySettings(
    pageNumber: Option<int>,
    content: Option<string>,
    fontFamily: Option<string>,
    font: Option<string>,
    fontSize: Option<real>,
    lineHeight: Option<real>,
    letterSpacing: Option<real>,
    color: Option<string>,
    align: Option<string>,
    leftPercent: Option<real>,
    topPercent: Option<real>,
    widthPercent: Option<real>,
    heightPercent: Option<real>)

  const DEFAULT_FONT := "Quicksand"

  lemma DefaultFontTrimmed()
    ensures Trim(DEFAULT_FONT, IsJsWhitespace) == DEFAULT_FONT
  {
    TrimUntouched(DEFAULT_FONT, IsJsWhitespace);
  }

  const NO_SETTINGS := OverlaySettings(None, None, None, None, None, None, None, None, None, None, None, None, None)

  /** The id of the `k`-th overlay created: `overlay-<k>`. */
  function OverlayId(k: nat): string
  {
    "overlay-" + NatToString(k)
  }

  /** Different counters give different ids. */
  lemma OverlayIdInjective(a: nat, b: nat)
    ensures OverlayId(a) == OverlayId(b) ==> a == b
  {
    if OverlayId(a) == OverlayId(b) {
      assert NatToString(a) == OverlayId(a)[8..] == OverlayId(b)[8..] == NatToString(b);
      NatToStringInjective(a, b);
    }
  }

  /** The overlay `addTextOverlay` creates. */
  function NewOverlay(id: string, pageNumber: Option<int>): OverlayData
  {
    OverlayData(id, TruthyInt(pageNumber), "Sample text here", DEFAULT_FONT, 48.0, 1.2, 0.0, "#000000", "left",
                10.0, 70.0, 80.0, 20.0)
  }

  /** `addTextOverlayWithSettings`' merge: each missing or falsy setting takes its default. */
  function OverlayFromSettings(id: string, s: OverlaySettings, pageNumber: Option<int>): OverlayData
  {
    OverlayData(
      id,
      if TruthyInt(pageNumber).Some? then pageNumber else TruthyInt(s.pageNumber),
      OrString(s.content, "Sample text"),
      OrString(s.fontFamily, OrString(s.font, "Quicksand")),
      OrNumber(s.fontSize, 48.0),
      OrNumber(s.lineHeight, 1.2),
      OrNumber(s.letterSpacing, 0.0),
      OrString(s.color, "#000000"),
      OrString(s.align, "left"),
      OrNumber(s.leftPercent, 10.0),
      OrNumber(s.topPercent, 70.0),
      OrNumber(s.widthPercent, 80.0),
      OrNumber(s.heightPercent, 20.0))
  }

  /** Missing settings give the defaults. */
  lemma SettingsDefaults(id: string)
    ensures OverlayFromSettings(id, NO_SETTINGS, None) ==
            OverlayData(id, None, "Sample text", "Quicksand", 48.0, 1.2, 0.0, "#000000", "left", 10.0, 70.0, 80.0, 20.0)
  {
  }

  /** Zero counts as missing: a page-edge position of 0 is replaced by the default. */
  lemma ZeroSettingsDefaulted(id: string)
    ensures var d := OverlayFromSettings(id, NO_SETTINGS.(leftPercent := Some(0.0), topPercent := Some(0.0), pageNumber := Some(0)), None);
            d.leftPercent == 10.0 && d.topPercent == 70.0 && d.pageNumber == None
  {
  }

  /** Truthy settings are kept, `fontFamily` wins over `font`, and the call's page number over the settings'. */
  lemma SettingsKept(id: string, s: OverlaySettings, pageNumber: Option<int>)
    ensures var d := OverlayFromSettings(id, s, pageNumber);
            (s.fontFamily.Some? && s.fontFamily.value != "" ==> d.fontFamily == s.fontFamily.value) &&
            (s.leftPercent.Some? && s.leftPercent.value != 0.0 ==> d.leftPercent == s.leftPercent.value) &&
            (pageNumber.Some? && pageNumber.value != 0 ==> d.pageNumber == pageNumber) &&
            d.content != "" && d.fontFamily != "" && d.fontSize != 0.0
  {
  }

  // ----- the overlay list -----

  /** `overlays.findIndex(o => o.id === id)`. */
  function IndexOfId(s: seq<OverlayData>, id: string): (r: int)
    ensures -1 <= r < |s|
    ensures r >= 0 ==> s[r].id == id && forall k :: 0 <= k < r ==> s[k].id != id
    ensures r == -1 ==> forall k :: 0 <= k < |s| ==> s[k].id != id
  {
    if |s| == 0 then -1
    else if s[0].id == id then 0
    else
      var r := IndexOfId(s[1..], id);
      if r == -1 then -1 else r + 1
  }

  predicate HasId(s: seq<OverlayData>, id: string)
  {
    IndexOfId(s, id) >= 0
  }

  /** `overlays.filter(o => o.id !== id)`. */
  function RemoveId(s: seq<OverlayData>, id: string): (r: seq<OverlayData>)
    ensures |r| <= |s|
    ensures forall k :: 0 <= k < |r| ==> r[k].id != id
  {
    if |s| == 0 then []
    else (if s[0].id == id then [] else [s[0]]) + RemoveId(s[1..], id)
  }

  predicate DistinctIds(s: seq<OverlayData>)
  {
    forall i, j :: 0 <= i < j < |s| ==> s[i].id != s[j].id
  }

  /** With distinct ids, filtering out a present id removes exactly that one overlay and keeps the order. */
  lemma {:induction false} RemoveIdExactlyOne(s: seq<OverlayData>, id: string)
    requires DistinctIds(s) && HasId(s, id)
    ensures var i := IndexOfId(s, id); RemoveId(s, id) == s[..i] + s[i + 1..]
  {
    if s[0].id == id {
      RemoveIdAbsent(s[1..], id);
    } else {
      RemoveIdExactlyOne(s[1..], id);
      var i := IndexOfId(s, id);
      assert s[..i] == [s[0]] + s[1..][..i - 1];
      assert s[i + 1..] == s[1..][i..];
    }
  }

  /** Filtering out an absent id changes nothing. */
  lemma {:induction false} RemoveIdAbsent(s: seq<OverlayData>, id: string)
    requires forall k :: 0 <= k < |s| ==> s[k].id != id
    ensures RemoveId(s, id) == s
  {
    if |s| > 0 {
      RemoveIdAbsent(s[1..], id);
      assert s == [s[0]] + s[1..];
    }
  }

  // ----- geometry -----

  /** An overlay's box in percent of the wrapper. */
  datatype Box = Box(left: real, top: real, width: real, height: real)

  function BoxOf(d: OverlayData): Box
  {
    Box(d.leftPercent, d.topPercent, d.widthPercent, d.heightPercent)
  }

  function WithBox(d: OverlayData, b: Box): OverlayData
  {
    d.(leftPercent := b.left, topPercent := b.top, widthPercent := b.width, heightPercent := b.height)
  }

  /** Dragging by `(dx, dy)` percent: the size stays, the position is clamped to keep the box on the image. */
  function DragBox(b: Box, dx: real, dy: real): (r: Box)
    ensures r.width == b.width && r.height == b.height
    ensures 0.0 <= r.left && 0.0 <= r.top
    ensures b.width <= 100.0 ==> r.left + r.width <= 100.0
    ensures b.height <= 100.0 ==> r.top + r.height <= 100.0
    ensures 0.0 <= b.left + dx <= 100.0 - b.width ==> r.left == b.left + dx
    ensures 0.0 <= b.top + dy <= 100.0 - b.height ==> r.top == b.top + dy
  {
    Box(ClampLow(0.0, 100.0 - b.width, b.left + dx), ClampLow(0.0, 100.0 - b.height, b.top + dy), b.width, b.height)
  }

  /** The handle's edges follow the pointer: `w`/`n` move the left/top edge, `e`/`s` the right/bottom one. */
  function ResizeUnclamped(b: Box, handle: string, dx: real, dy: real): Box
  {
    var left := if 'w' in handle then b.left + dx else b.left;
    var width := (if 'w' in handle then b.width - dx else b.width) + (if 'e' in handle then dx else 0.0);
    var top := if 'n' in handle then b.top + dy else b.top;
    var height := (if 'n' in handle then b.height - dy else b.height) + (if 's' in handle then dy else 0.0);
    Box(left, top, width, height)
  }

  /** Before clamping, a west or north handle keeps the opposite edge in place; an east or south one keeps the origin. */
  lemma ResizeMovesOnlyGrabbedEdges(b: Box, handle: string, dx: real, dy: real)
    ensures var r := ResizeUnclamped(b, handle, dx, dy);
            ('w' in handle && 'e' !in handle ==> r.left + r.width == b.left + b.width) &&
            ('n' in handle && 's' !in handle ==> r.top + r.height == b.top + b.height) &&
            ('w' !in handle ==> r.left == b.left) &&
            ('n' !in handle ==> r.top == b.top) &&
            ('e' in handle && 'w' !in handle ==> r.width == b.width + dx) &&
            ('s' in handle && 'n' !in handle ==> r.height == b.height + dy)
  {
  }

  /** Size into `[5, 100]`, then position so the box stays on the image. */
  function ClampBox(b: Box): (r: Box)
    ensures 5.0 <= r.width <= 100.0 && 5.0 <= r.height <= 100.0
    ensures 0.0 <= r.left && r.left + r.width <= 100.0
    ensures 0.0 <= r.top && r.top + r.height <= 100.0
    ensures (5.0 <= b.width <= 100.0 && 5.0 <= b.height <= 100.0 &&
             0.0 <= b.left <= 100.0 - b.width && 0.0 <= b.top <= 100.0 - b.height) ==> r == b
  {
    var width := ClampLow(5.0, 100.0, b.width);
    var height := ClampLow(5.0, 100.0, b.height);
    Box(ClampLow(0.0, 100.0 - width, b.left), ClampLow(0.0, 100.0 - height, b.top), width, height)
  }

  function ResizeBox(b: Box, handle: string, dx: real, dy: real): Box
  {
    ClampBox(ResizeUnclamped(b, handle, dx, dy))
  }

  // ----- editor invariants, over values -----

  /** Each overlay's id is `overlay-<n>` for its own number `n`, numbers strictly increase and none exceeds the counter. */
  ghost predicate IdsWellFormed(s: seq<OverlayData>, numbers: seq<nat>, counter: nat)
  {
    |numbers| == |s| &&
    (forall i :: 0 <= i < |s| ==> s[i].id == OverlayId(numbers[i]) && numbers[i] <= counter) &&
    (forall i, j :: 0 <= i < j < |numbers| ==> numbers[i] < numbers[j])
  }

  predicate SelectionWellFormed(selected: Option<string>, s: seq<OverlayData>)
  {
    selected.Some? ==> HasId(s, selected.value)
  }

  /** One link per font name, and the name set is exactly the linked names. */
  predicate FontsWellFormed(loaded: set<string>, links: seq<string>)
  {
    loaded == (set f | f in links) &&
    (forall i, j :: 0 <= i < j < |links| ==> links[i] != links[j])
  }

  /** Linking a font name not yet loaded keeps one link per name. */
  lemma FontAdded(loaded: set<string>, links: seq<string>, name: string)
    requires FontsWellFormed(loaded, links) && name !in loaded
    ensures FontsWellFormed(loaded + {name}, links + [name])
  {
    var links' := links + [name];
    assert forall f :: f in links' <==> f in links || f == name;
    forall i, j | 0 <= i < j < |links'| ensures links'[i] != links'[j] {
      if j == |links| {
        assert links'[i] == links[i] && links[i] in loaded;
      }
    }
  }

  predicate SameIds(s: seq<OverlayData>, t: seq<OverlayData>)
  {
    |s| == |t| && forall k :: 0 <= k < |s| ==> s[k].id == t[k].id
  }

  /** Lookup by id only sees ids. */
  lemma {:induction false} IndexOfSameIds(s: seq<OverlayData>, t: seq<OverlayData>, id: string)
    requires SameIds(s, t)
    ensures IndexOfId(s, id) == IndexOfId(t, id)
  {
    if |s| > 0 {
      IndexOfSameIds(s[1..], t[1..], id);
    }
  }

  lemma IdsDistinct(s: seq<OverlayData>, numbers: seq<nat>, counter: nat)
    requires IdsWellFormed(s, numbers, counter)
    ensures DistinctIds(s)
  {
    forall i, j | 0 <= i < j < |s|
      ensures s[i].id != s[j].id
    {
      OverlayIdInjective(numbers[i], numbers[j]);
    }
  }

  /** An id made from a number above the counter is not in use. */
  lemma FreshIdUnused(s: seq<OverlayData>, numbers: seq<nat>, counter: nat, k: nat)
    requires IdsWellFormed(s, numbers, counter) && k > counter
    ensures forall i :: 0 <= i < |s| ==> s[i].id != OverlayId(k)
  {
    forall i | 0 <= i < |s| ensures s[i].id != OverlayId(k) {
      OverlayIdInjective(numbers[i], k);
    }
  }

  lemma IdsAppend(s: seq<OverlayData>, numbers: seq<nat>, counter: nat, data: OverlayData)
    requires IdsWellFormed(s, numbers, counter) && data.id == OverlayId(counter + 1)
    ensures IdsWellFormed(s + [data], numbers + [counter + 1], counter + 1)
  {
  }

  lemma IdsRemoveAt(s: seq<OverlayData>, numbers: seq<nat>, counter: nat, i: int)
    requires IdsWellFormed(s, numbers, counter) && 0 <= i < |s|
    ensures IdsWellFormed(s[..i] + s[i + 1..], numbers[..i] + numbers[i + 1..], counter)
  {
    RemovedAt(s, i);
    RemovedAt(numbers, i);
  }

  /** Removing position `i` shifts every later element down by one. */
  lemma RemovedAt<T>(s: seq<T>, i: int)
    requires 0 <= i < |s|
    ensures |s[..i] + s[i + 1..]| == |s| - 1
    ensures forall k :: 0 <= k < |s| - 1 ==> (s[..i] + s[i + 1..])[k] == if k < i then s[k] else s[k + 1]
  {
  }

  /** Changing overlays other than in their ids keeps the id and selection invariants. */
  lemma UpdateKeepsInvariants(s: seq<OverlayData>, t: seq<OverlayData>, numbers: seq<nat>, counter: nat,
                              selected: Option<string>)
    requires IdsWellFormed(s, numbers, counter) && SelectionWellFormed(selected, s)
    requires |s| == |t| && forall k :: 0 <= k < |s| ==> s[k].id == t[k].id
    ensures IdsWellFormed(t, numbers, counter) && SelectionWellFormed(selected, t)
  {
    if selected.Some? {
      IndexOfSameIds(s, t, selected.value);
    }
  }

  // ----- the editor -----

  class Editor {
    var overlayCounter: nat
    var overlays: seq<OverlayData>
    var selectedId: Option<string>
    var isDragging: bool
    var isResizing: bool
    /** The overlay being dragged or resized, by id. */
    var currentId: Option<string>
    var dragStartX: real
    var dragStartY: real
    var resizeHandle: string
    /** Font names already requested. */
    var loadedFonts: set<string>
    /** Stylesheet links appended, one per font name, in order. */
    var fontLinks: seq<string>
    /** The counter value each overlay's id was made from. */
    ghost var idNumbers: seq<nat>

    /** The overlay list's invariant: ids come from increasing counter values, and the selection is a present id. */
    ghost predicate Valid()
      reads this`overlays, this`idNumbers, this`overlayCounter, this`selectedId
    {
      IdsWellFormed(overlays, idNumbers, overlayCounter) &&
      SelectionWellFormed(selectedId, overlays)
    }

    /** The font set's invariant: one stylesheet link per loaded font name. */
    ghost predicate FontsValid()
      reads this`loadedFonts, this`fontLinks
    {
      FontsWellFormed(loadedFonts, fontLinks)
    }

    constructor()
      ensures Valid() && FontsValid()
      ensures overlayCounter == 0 && overlays == [] && selectedId == None
      ensures !isDragging && !isResizing && currentId == None
      ensures loadedFonts == {} && fontLinks == []
    {
      overlayCounter := 0;
      overlays := [];
      selectedId := None;
      isDragging := false;
      isResizing := false;
      currentId := None;
      dragStartX := 0.0;
      dragStartY := 0.0;
      resizeHandle := "";
      loadedFonts := {};
      fontLinks := [];
      idNumbers := [];
    }

    /** `loadAndApplyFont`: a blank name is ignored; a trimmed name is requested only the first time. */
    method LoadAndApplyFont(fontName: string)
      requires FontsValid()
      modifies this`loadedFonts, this`fontLinks
      ensures FontsValid()
      ensures var name := Trim(fontName, IsJsWhitespace);
              (name == "" ==> loadedFonts == old(loadedFonts) && fontLinks == old(fontLinks)) &&
              (name != "" ==> loadedFonts == old(loadedFonts) + {name} &&
                              fontLinks == if name in old(loadedFonts) then old(fontLinks) else old(fontLinks) + [name])
    {
      if fontName == "" || Trim(fontName, IsJsWhitespace) == "" {
        return;
      }
      var name := Trim(fontName, IsJsWhitespace);
      if name !in loadedFonts {
        FontAdded(loadedFonts, fontLinks, name);
        fontLinks := fontLinks + [name];
        loadedFonts := loadedFonts + {name};
      }
    }

    /** `selectOverlay`: an unknown id leaves the selection as it was. */
    method SelectOverlay(id: string)
      requires Valid()
      modifies this`selectedId
      ensures Valid()
      ensures selectedId == if HasId(overlays, id) then Some(id) else old(selectedId)
    {
      var i := IndexOfId(overlays, id);
      if i < 0 {
        return;
      }
      selectedId := Some(id);
    }

    /** `deselectAllOverlays`. */
    method DeselectAllOverlays()
      requires Valid()
      modifies this`selectedId
      ensures Valid() && selectedId == None
    {
      selectedId := None;
    }

    /** Appends `data` under the next id and selects it. */
    method Push(data: OverlayData)
      requires Valid() && data.id == OverlayId(overlayCounter + 1)
      modifies this`overlayCounter, this`overlays, this`idNumbers, this`selectedId
      ensures Valid()
      ensures overlayCounter == old(overlayCounter) + 1
      ensures overlays == old(overlays) + [data] && selectedId == Some(data.id)
      ensures forall k :: 0 <= k < |old(overlays)| ==> old(overlays)[k].id != data.id
    {
      FreshIdUnused(overlays, idNumbers, overlayCounter, overlayCounter + 1);
      IdsAppend(overlays, idNumbers, overlayCounter, data);
      var last := |overlays|;
      overlayCounter := overlayCounter + 1;
      overlays := overlays + [data];
      idNumbers := idNumbers + [overlayCounter];
      assert overlays[last].id == data.id;
      selectedId := Some(data.id);
    }

    /**
     * `addTextOverlay`: with an image loaded, appends a default overlay under
     * the next id, requests its font, and selects it; without one, nothing changes.
     */
    method AddTextOverlay(pageNumber: Option<int>, imageLoaded: bool) returns (r: Option<OverlayData>)
      requires Valid() && FontsValid()
      modifies this`overlayCounter, this`overlays, this`idNumbers, this`selectedId, this`loadedFonts, this`fontLinks
      ensures Valid() && FontsValid()
      ensures !imageLoaded ==> r.None? && overlayCounter == old(overlayCounter) && overlays == old(overlays) &&
                               selectedId == old(selectedId) && loadedFonts == old(loadedFonts) && fontLinks == old(fontLinks)
      ensures imageLoaded ==> overlayCounter == old(overlayCounter) + 1 &&
                              r == Some(NewOverlay(OverlayId(overlayCounter), pageNumber)) &&
                              overlays == old(overlays) + [r.value] && selectedId == Some(r.value.id) &&
                              loadedFonts == old(loadedFonts) + {DEFAULT_FONT}
      ensures imageLoaded ==>
                fontLinks == if DEFAULT_FONT in old(loadedFonts) then old(fontLinks) else old(fontLinks) + [DEFAULT_FONT]
      ensures imageLoaded ==> forall k :: 0 <= k < |old(overlays)| ==> old(overlays)[k].id != r.value.id
    {
      if !imageLoaded {
        return None;
      }
      var data := NewOverlay(OverlayId(overlayCounter + 1), pageNumber);
      Push(data);
      DefaultFontTrimmed();
      LoadAndApplyFont(DEFAULT_FONT);
      r := Some(data);
    }

    /** `addTextOverlayWithSettings`: as `AddTextOverlay`, with the settings merged over the defaults. */
    method AddTextOverlayWithSettings(settings: OverlaySettings, pageNumber: Option<int>, imageLoaded: bool)
      returns (r: Option<OverlayData>)
      requires Valid() && FontsValid()
      modifies this`overlayCounter, this`overlays, this`idNumbers, this`selectedId, this`loadedFonts, this`fontLinks
      ensures Valid() && FontsValid()
      ensures !imageLoaded ==> r.None? && overlayCounter == old(overlayCounter) && overlays == old(overlays) &&
                               selectedId == old(selectedId) && loadedFonts == old(loadedFonts) && fontLinks == old(fontLinks)
      ensures imageLoaded ==> overlayCounter == old(overlayCounter) + 1 &&
                              r == Some(OverlayFromSettings(OverlayId(overlayCounter), settings, pageNumber)) &&
                              overlays == old(overlays) + [r.value] && selectedId == Some(r.value.id)
      ensures imageLoaded ==>
                var name := Trim(r.value.fontFamily, IsJsWhitespace);
                (name == "" ==> loadedFonts == old(loadedFonts) && fontLinks == old(fontLinks)) &&
                (name != "" ==> loadedFonts == old(loadedFonts) + {name} &&
                                fontLinks == if name in old(loadedFonts) then old(fontLinks) else old(fontLinks) + [name])
      ensures imageLoaded ==> forall k :: 0 <= k < |old(overlays)| ==> old(overlays)[k].id != r.value.id
    {
      if !imageLoaded {
        return None;
      }
      var data := OverlayFromSettings(OverlayId(overlayCounter + 1), settings, pageNumber);
      Push(data);
      LoadAndApplyFont(data.fontFamily);
      r := Some(data);
    }

    /**
     * `deleteSelectedOverlay`: removes the selected overlay, then selects the
     * first remaining one or clears the selection; without a selection it does nothing.
     */
    method DeleteSelectedOverlay()
      requires Valid()
      modifies this`overlays, this`idNumbers, this`selectedId
      ensures Valid()
      ensures old(selectedId).None? ==> overlays == old(overlays) && selectedId == None
      ensures old(selectedId).Some? ==>
                overlays == RemoveId(old(overlays), old(selectedId).value) &&
                selectedId == if |overlays| > 0 then Some(overlays[0].id) else None
    {
      if selectedId.None? {
        return;
      }
      var id := selectedId.value;
      var i := IndexOfId(overlays, id);
      IdsDistinct(overlays, idNumbers, overlayCounter);
      RemoveIdExactlyOne(overlays, id);
      IdsRemoveAt(overlays, idNumbers, overlayCounter, i);
      overlays := overlays[..i] + overlays[i + 1..];
      idNumbers := idNumbers[..i] + idNumbers[i + 1..];
      if |overlays| > 0 {
        selectedId := Some(overlays[0].id);
      } else {
        selectedId := None;
      }
    }

    /** `clearAllOverlays`: no overlays and no selection. */
    method ClearAllOverlays()
      requires Valid()
      modifies this`overlays, this`idNumbers, this`selectedId
      ensures Valid() && overlays == [] && selectedId == None
    {
      overlays := [];
      idNumbers := [];
      selectedId := None;
    }

    /** Mouse down on an overlay body: select it and start dragging from the pointer. */
    method StartDrag(id: string, x: real, y: real)
      requires Valid()
      modifies this`selectedId, this`isDragging, this`currentId, this`dragStartX, this`dragStartY
      ensures Valid()
      ensures selectedId == if HasId(overlays, id) then Some(id) else old(selectedId)
      ensures isDragging && currentId == Some(id) && dragStartX == x && dragStartY == y
    {
      SelectOverlay(id);
      isDragging, currentId := true, Some(id);
      dragStartX, dragStartY := x, y;
    }

    /** Mouse down on a resize handle: select its overlay and start resizing from the pointer. */
    method StartResize(id: string, handle: string, x: real, y: real)
      requires Valid()
      modifies this`selectedId, this`isResizing, this`currentId, this`resizeHandle, this`dragStartX, this`dragStartY
      ensures Valid()
      ensures selectedId == if HasId(overlays, id) then Some(id) else old(selectedId)
      ensures isResizing && currentId == Some(id) && resizeHandle == handle && dragStartX == x && dragStartY == y
    {
      SelectOverlay(id);
      isResizing, currentId, resizeHandle := true, Some(id), handle;
      dragStartX, dragStartY := x, y;
    }

    /** Position of the overlay under the pointer, or -1. */
    function CurrentIndex(): int
      reads this`currentId, this`overlays
    {
      if currentId.Some? then IndexOfId(overlays, currentId.value) else -1
    }

    /**
     * `handleMouseMove`: the pointer delta, in percent of the wrapper, drags
     * or resizes the current overlay; the start point follows the pointer.
     */
    method MouseMove(x: real, y: real, wrapperWidth: real, wrapperHeight: real)
      requires Valid() && wrapperWidth > 0.0 && wrapperHeight > 0.0
      modifies this`overlays, this`dragStartX, this`dragStartY
      ensures Valid()
      ensures old(CurrentIndex()) < 0 || (!isDragging && !isResizing) ==>
                overlays == old(overlays) && dragStartX == old(dragStartX) && dragStartY == old(dragStartY)
      ensures old(CurrentIndex()) >= 0 && (isDragging || isResizing) ==> dragStartX == x && dragStartY == y
      ensures old(CurrentIndex()) >= 0 && isDragging ==>
                var i := old(CurrentIndex());
                overlays == old(overlays)[i := WithBox(old(overlays)[i], DragBox(BoxOf(old(overlays)[i]),
                  (x - old(dragStartX)) / wrapperWidth * 100.0, (y - old(dragStartY)) / wrapperHeight * 100.0))]
      ensures old(CurrentIndex()) >= 0 && !isDragging && isResizing ==>
                var i := old(CurrentIndex());
                overlays == old(overlays)[i := WithBox(old(overlays)[i], ResizeBox(BoxOf(old(overlays)[i]), resizeHandle,
                  (x - old(dragStartX)) / wrapperWidth * 100.0, (y - old(dragStartY)) / wrapperHeight * 100.0))]
    {
      if currentId.None? {
        return;
      }
      var i := IndexOfId(overlays, currentId.value);
      assert i == CurrentIndex();
      if i < 0 {
        return;
      }
      var deltaXPercent := (x - dragStartX) / wrapperWidth * 100.0;
      var deltaYPercent := (y - dragStartY) / wrapperHeight * 100.0;
      if !isDragging && !isResizing {
        return;
      }
      var box := if isDragging then DragBox(BoxOf(overlays[i]), deltaXPercent, deltaYPercent)
                 else ResizeBox(BoxOf(overlays[i]), resizeHandle, deltaXPercent, deltaYPercent);
      MoveTo(i, box, x, y);
    }

    /** Gives overlay `i` the new box and makes the pointer the next gesture's starting point. */
    method MoveTo(i: int, box: Box, x: real, y: real)
      requires Valid() && 0 <= i < |overlays|
      modifies this`overlays, this`dragStartX, this`dragStartY
      ensures Valid()
      ensures overlays == old(overlays)[i := WithBox(old(overlays)[i], box)]
      ensures dragStartX == x && dragStartY == y
    {
      var updated := overlays[i := WithBox(overlays[i], box)];
      UpdateKeepsInvariants(overlays, updated, idNumbers, overlayCounter, selectedId);
      overlays := updated;
      dragStartX := x;
      dragStartY := y;
    }

    /** `handleMouseUp`: ends any drag or resize. */
    method MouseUp()
      modifies this`isDragging, this`isResizing, this`currentId, this`resizeHandle
      ensures !isDragging && !isResizing && currentId == None && resizeHandle == ""
    {
      isDragging := false;
      isResizing := false;
      currentId := None;
      resizeHandle := "";
    }
  }
}
