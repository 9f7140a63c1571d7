/**
 * The book-page export of text settings: the cascade's pages become a
 * list of page entries sorted by page number, each carrying its content and
 * only the overrides and position data the page actually sets, together
 * with override counts and the global defaults with their fallbacks.
 */
module CascadeExport {
  import opened Wrappers
  import opened LiveChanges
  import Sorting
  import PageEditor

  /** JavaScript truthiness of a JSON value (numbers other than 0 are truthy; NaN is not modelled). */
  predicate Truthy(v: Value)
  {
    match v
    case Str(s) => |s| > 0
    case Num(n) => n != 0.0
    case Bool(b) => b
    case Null => false
    case Arr(_) => true
  }

  /** An optional field that is present and truthy. */
  predicate TruthyOpt(v: Option<Value>)
  {
    v.Some? && Truthy(v.value)
  }

  /** A page of the cascade; `None` is a property the page object does not have. */
  datatype CascadePage = CascadePage(content: Option<Value>, useGlobal: Option<Value>,
                                     font: Option<Value>, fontSize: Option<Value>, color: Option<Value>,
                                     position: Option<Value>, widthPercent: Option<Value>,
                                     leftPercent: Option<Value>, topPercent: Option<Value>)

  /** An exported page text; `None` is a property the export leaves out. */
  datatype ExportText = ExportText(content: Value, font: Option<Value>, fontSize: Option<Value>, color: Option<Value>,
                                   position: Option<Value>, widthPercent: Option<Value>,
                                   leftPercent: Option<Value>, topPercent: Option<Value>)

  datatype ExportEntry = ExportEntry(pageNumber: int, text: ExportText)

  function EntryKey(e: ExportEntry): int
  {
    e.pageNumber
  }

  /** `v` if the condition holds, else left out. */
  function KeepIf(c: bool, v: Option<Value>): Option<Value>
  {
    if c then v else None
  }

  /** The exported `text` of one cascade page. */
  function EntryText(data: CascadePage): ExportText
  {
    var own := !TruthyOpt(data.useGlobal);
    ExportText(if TruthyOpt(data.content) then data.content.value else Str(""),
               KeepIf(own && TruthyOpt(data.font), data.font),
               KeepIf(own && TruthyOpt(data.fontSize), data.fontSize),
               KeepIf(own && TruthyOpt(data.color), data.color),
               KeepIf(TruthyOpt(data.position) && data.position != Some(Str("bottom")), data.position),
               KeepIf(TruthyOpt(data.widthPercent), data.widthPercent),
               data.leftPercent,
               data.topPercent)
  }

  /**
   * What an exported text carries: the content or `''`; font, size and
   * colour only when the page does not use the global settings and sets
   * them truthy; a position other than `'bottom'`; a truthy width; and the
   * left and top percentages whenever they are defined, zero included.
   */
  lemma EntryTextFields(data: CascadePage)
    ensures var t := EntryText(data);
            && (TruthyOpt(data.content) ==> t.content == data.content.value)
            && (!TruthyOpt(data.content) ==> t.content == Str(""))
            && (t.font.Some? <==> !TruthyOpt(data.useGlobal) && TruthyOpt(data.font))
            && (t.fontSize.Some? <==> !TruthyOpt(data.useGlobal) && TruthyOpt(data.fontSize))
            && (t.color.Some? <==> !TruthyOpt(data.useGlobal) && TruthyOpt(data.color))
            && (t.position.Some? <==> TruthyOpt(data.position) && data.position.value != Str("bottom"))
            && (t.widthPercent.Some? <==> TruthyOpt(data.widthPercent))
            && (t.leftPercent.Some? <==> data.leftPercent.Some?)
            && (t.topPercent.Some? <==> data.topPercent.Some?)
            && (t.font.Some? ==> t.font == data.font) && (t.fontSize.Some? ==> t.fontSize == data.fontSize)
            && (t.color.Some? ==> t.color == data.color) && (t.position.Some? ==> t.position == data.position)
            && (t.widthPercent.Some? ==> t.widthPercent == data.widthPercent)
            && t.leftPercent == data.leftPercent && t.topPercent == data.topPercent
  {
  }

  /** The entry `exportTextSpecs` builds for cascade page `(n, data)`. */
  function EntryOf(page: (int, CascadePage)): ExportEntry
  {
    ExportEntry(page.0, EntryText(page.1))
  }

  /** The entries in cascade order. */
  function Entries(cascade: seq<(int, CascadePage)>): (es: seq<ExportEntry>)
    ensures |es| == |cascade|
    ensures forall i :: 0 <= i < |cascade| ==> es[i] == EntryOf(cascade[i])
  {
    seq(|cascade|, i requires 0 <= i < |cascade| => EntryOf(cascade[i]))
  }

  /** A page entry that overrides the global font, size or colour. */
  predicate HasOverride(e: ExportEntry)
  {
    TruthyOpt(e.text.font) || TruthyOpt(e.text.fontSize) || TruthyOpt(e.text.color)
  }

  /**
   * A page that uses the global settings never counts as an override; any
   * other page does exactly when it sets a truthy font, size or colour.
   */
  lemma OverrideIff(n: int, data: CascadePage)
    ensures TruthyOpt(data.useGlobal) ==> !HasOverride(EntryOf((n, data)))
    ensures !TruthyOpt(data.useGlobal) ==>
              (HasOverride(EntryOf((n, data))) <==> TruthyOpt(data.font) || TruthyOpt(data.fontSize) || TruthyOpt(data.color))
  {
  }

  datatype GlobalDefaults = GlobalDefaults(font: Value, fontSize: Value, color: Option<Value>)

  /** The exported global defaults: font and size fall back when falsy; a colour only in manual mode. */
  function GlobalDefaultsOf(globals: map<string, Value>): (g: GlobalDefaults)
    ensures g.font == if ("font" in globals && Truthy(globals["font"])) then globals["font"] else Str("Quicksand-Medium.ttf")
    ensures g.fontSize == if ("fontSize" in globals && Truthy(globals["fontSize"])) then globals["fontSize"] else Num(240.0)
    ensures Lookup(globals, "colorMode") == Some(Str("manual")) ==> g.color == Lookup(globals, "manualColor")
    ensures Lookup(globals, "colorMode") != Some(Str("manual")) ==> g.color == Some(Null)
  {
    GlobalDefaults(if ("font" in globals && Truthy(globals["font"])) then globals["font"] else Str("Quicksand-Medium.ttf"),
                   if ("fontSize" in globals && Truthy(globals["fontSize"])) then globals["fontSize"] else Num(240.0),
                   if Lookup(globals, "colorMode") == Some(Str("manual")) then Lookup(globals, "manualColor") else Some(Null))
  }

  /** The page editor's initial settings export as the stock font, size 240 and no colour. */
  lemma EditorDefaultsExport()
    ensures GlobalDefaultsOf(PageEditor.SettingsValues(PageEditor.DEFAULT_GLOBALS))
              == GlobalDefaults(Str("Quicksand-Medium.ttf"), Num(240.0), Some(Null))
  {
    var m := PageEditor.SettingsValues(PageEditor.DEFAULT_GLOBALS);
    assert m["font"] == Null;
    assert m["colorMode"] == Str("auto") != Str("manual");
  }

  /** The exported patch, without the DOM-derived scale metadata and the fixed notes. */
  datatype Patch = Patch(totalPages: nat, pagesWithOverrides: nat, pagesUsingGlobal: int,
                         pagesWithVersionSelections: nat, selectedVersions: map<int, Option<nat>>,
                         globalDefaults: GlobalDefaults, pages: seq<ExportEntry>)

  /**
   * `exportTextSpecs` over a cascade (page number and page data, in object
   * order), the global settings and the selected versions.
   */
  method ExportTextSpecs(cascade: seq<(int, CascadePage)>, globals: map<string, Value>,
                         selectedVersions: map<int, Option<nat>>) returns (patch: Patch)
    ensures multiset(patch.pages) == multiset(Entries(cascade))
    ensures Sorting.SortedBy(patch.pages, EntryKey)
    ensures patch.totalPages == |cascade|
    ensures patch.pagesWithOverrides == Sorting.Count(Entries(cascade), HasOverride)
    ensures patch.pagesUsingGlobal == |cascade| - patch.pagesWithOverrides >= 0
    ensures patch.pagesWithVersionSelections == |selectedVersions|
    ensures patch.selectedVersions == selectedVersions
    ensures patch.globalDefaults == GlobalDefaultsOf(globals)
  {
    var pages: seq<ExportEntry> := [];
    var i := 0;
    while i < |cascade|
      invariant 0 <= i <= |cascade|
      invariant pages == Entries(cascade)[..i]
    {
      pages := pages + [EntryOf(cascade[i])];
      i := i + 1;
    }
    assert pages == Entries(cascade);
    var sorted := Sorting.SortBy(pages, EntryKey);
    var overrides := Sorting.Count(sorted, HasOverride);
    Sorting.CountPermutation(sorted, pages, HasOverride);
    patch := Patch(|sorted|, overrides, |sorted| - overrides, |selectedVersions|, selectedVersions,
                   GlobalDefaultsOf(globals), sorted);
  }
}
