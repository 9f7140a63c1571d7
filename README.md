# Book-page text overlays, modelled in Dafny

This project models the text-overlay tooling of a picture-book repository. It has two halves:

- The web preview (`docs/js/`):
  - computes safe zones on page images;
  - decides how a page's text is rendered (wrap, font size, position, colour);
  - lets an editor drag, resize and restyle the text;
  - records every edit as a delta against the original story data;
  - lets the reader browse and approve alternative page images;
  - exports the result as a story patch.
- The text tester (`docs/tools/text-tester/js/`):
  - loads the published pages into a gallery of spreads;
  - keeps a list of freely placed text overlays;
  - draws them on a canvas for comparison;
  - exports them grouped by page, with optional measured sizes.

A Python script (`docs/convert_page_versions.py`) turns the page-version PNGs into the preview JPGs.

The renderer wraps text against the safe zone's width, `safeZones.right - safeZones.left`, always. A `widthPercent` only sets the overlay's CSS width and does not change the wrapping.

Each core source file is one Dafny module. Four shared modules sit under them:

- `Wrappers` (`Option`);
- `JsMath` (`Math.round`, `floor`, `ceil`, `min`/`max`, `toFixed(2)`, `||` defaults, and a percentage division that gives `NaN` or an infinity for a zero divisor);
- `Strings` (`split`/`join`, decimal digits, `padStart`, substring search, trim);
- `Sorting` (an insertion sort by key, with its permutation and ordering proofs, and counting).

The modules follow the source's form:

- Pure code is modelled as functions.
- Module state the source updates in place is modelled as a class with `modifies` clauses:
  - the change registry;
  - the version viewer's maps;
  - the page editor's gesture state;
  - the tester's overlay list and font set;
  - the gallery's page list.
- Loops become methods with loop invariants. Each is proved equal to a specification function, and the properties are proved about that function:
  - both word wraps;
  - the luminance sum;
  - the overlay grouping;
  - the spread pairing;
  - the image probe;
  - the conversion counters.

The rest of the page is outside the model:

- Canvas text measurement is a function parameter `measure: string -> real`.
- Pixels are rows of RGB triples.
- HTTP probes, file modification times and image saves are boolean inputs.

Observations the proofs make explicit:

- `PageEditor.GlobalChangeRecordsNoColour`: the global-settings object handed to the change registry has `colorMode` and `manualColor` but no `color` key. The registry only looks at `font`, `fontSize` and `color`, so a global colour change is never recorded as a delta.
- `PageEditor.DefaultSizesNotSliderPair`: the default settings pair preview size 70 with print size 240. The slider's conversion `round(70 · 4096 / 1200)` gives 239, so the default is not a pair the slider itself produces.
- `Compare.CanvasWrapEmpty` and `TextRenderer.WrapEmptyText`: the comparison canvas wraps the empty text to no lines. The page renderer wraps it to one empty line.
- `Compare.CanvasWrapAgrees`: otherwise, when no word is empty, the two wraps give the same lines.

## Model

| member | source | states |
|---|---|---|
| SafeZones.CalculateSafeZones | docs/js/safe-zones.js:18-44 | top = outer margin and bottom = height − outer for every page type; single and spread-left start at left = outer margin; the zone's width is the image width less two outer margins (single, so right = width − outer) or an outer and a gutter margin (spreads); spread-left puts the gutter on the right (right = width − gutter), every other non-single type puts it on the left (left = gutter) |
| SafeZones.DefaultMargins | docs/js/safe-zones.js:6-20 | at 300 dpi the outer margin is floor(0.75·300) = 225 px and the gutter floor(1.0·300) = 300 px |
| SafeZones.SinglePageExample | docs/js/safe-zones.js:18-28 | a 4096×5461 single page gets the zone (225, 3871, 225, 5236) |
| SafeZones.SpreadNarrowerThanSingle | docs/js/safe-zones.js:18-43 | top and bottom do not depend on the page type; a spread zone is narrower than the single zone by exactly gutter − outer |
| SafeZones.SpreadHalvesMirror | docs/js/safe-zones.js:29-43 | the spread-right zone is the mirror image of the spread-left zone |
| SafeZones.NonEmptyIff | docs/js/safe-zones.js:18-44 | nothing is validated: the zone is non-empty horizontally iff the margins it spends are less than the width, and vertically iff two outer margins are less than the height |
| SafeZones.MapPageType | docs/js/safe-zones.js:51-59 | spread-start ↔ spread-left, spread-companion ↔ spread-right, anything else (null included) → single; the result is always one of the three |
| SafeZones.SafeZonesToCss | docs/js/safe-zones.js:68-81 | over a non-zero container each percentage converts back to its edge (left% of the width is `left`, the width less right% of it is `right`, likewise top and bottom); over a zero-size container every margin is `NaN` (zero numerator) or an infinity, as JavaScript's division gives |
| JsMath.DivPercent | docs/js/safe-zones.js:70-73 | `(a / b) * 100`: a finite value that times b gives 100·a for a non-zero b; for a zero b `NaN` iff a is zero, otherwise the infinity of a's sign |
| SafeZones.CssMarginsSum | docs/js/safe-zones.js:68-81 | over a non-zero container left% + right% + zone width in % = 100, and likewise top + bottom + zone height |
| TextRenderer.WrapText | docs/js/text-renderer.js:29-57 | the loop's lines equal the greedy-wrap function `WrapLines` over the pieces of `text.split(' ')` |
| TextRenderer.GroupsShape | docs/js/text-renderer.js:38-50 | every word group the wrap builds is non-empty and space-free, and a pending current line opens the first group |
| TextRenderer.GroupsFlatten | docs/js/text-renderer.js:38-54 | the groups read in order are exactly the current line followed by the remaining words |
| TextRenderer.GroupsFit | docs/js/text-renderer.js:42-49 | every group of two or more words measures at most maxWidth |
| TextRenderer.GroupsGreedy | docs/js/text-renderer.js:42-50 | a group is closed only when adding the next group's first word would measure more than maxWidth |
| TextRenderer.WrapJoinsToText | docs/js/text-renderer.js:34-56 | there is always at least one line, and joining the lines with single spaces gives back the text exactly |
| TextRenderer.WrapKeepsWords | docs/js/text-renderer.js:34-56 | the words of the lines, in order, are exactly the words of the text |
| TextRenderer.WrapEmptyText | docs/js/text-renderer.js:34-54 | the empty text wraps to `[""]` |
| TextRenderer.WrapLinesFit | docs/js/text-renderer.js:38-54 | every line holding a space measures at most maxWidth; only a one-word line may be wider |
| TextRenderer.WrapGreedy | docs/js/text-renderer.js:42-54 | each line ends because the next line's first word would not have fitted on it |
| TextRenderer.Luma | docs/js/text-renderer.js:89 | 0.299R + 0.587G + 0.114B lies in [0, 255] for valid channels |
| TextRenderer.ClampRegion | docs/js/text-renderer.js:70-73 | the region lies inside the image; each side is the bound rounded outwards (floor for left and top, ceil for right and bottom) to the nearest whole pixel, or the image edge where the bound lies outside the image |
| TextRenderer.RowSumBounds | docs/js/text-renderer.js:85-91 | a row's luma total lies between 0 and 255 per pixel |
| TextRenderer.AreaSumBounds | docs/js/text-renderer.js:85-91 | a region's luma total lies between 0 and 255 per pixel |
| TextRenderer.LuminanceInRange | docs/js/text-renderer.js:70-93 | the luminance of any bounds on a valid image lies in [0, 255] |
| TextRenderer.SumRow | docs/js/text-renderer.js:85-91 | the inner accumulation loop equals the row's luma total |
| TextRenderer.CalculateLuminance | docs/js/text-renderer.js:62-94 | the nested loop returns 255 for an empty clamped region, else the mean luma over it, and the result lies in [0, 255] |
| TextRenderer.PickTextColor | docs/js/text-renderer.js:99-102 | white iff the luminance is below 128, black iff it is at least 128 |
| TextRenderer.EmptyRegionIsBright | docs/js/text-renderer.js:70-101 | a band that misses the image reads as 255, so it gets black text |
| TextRenderer.OriginalWidth | docs/js/text-renderer.js:17 | the `data-original-width` attribute when present and non-zero, else 4096; never 0 |
| TextRenderer.ScaleFactor | docs/js/text-renderer.js:16-24 | scale × original width = natural width |
| TextRenderer.StoryFontSize | docs/js/text-renderer.js:147 | a missing or zero font size falls back to 240 |
| TextRenderer.DisplayFontSize | docs/js/text-renderer.js:148 | the display size is the nearest integer to story size × scale (halves rounded up) |
| TextRenderer.DefaultPreviewFontSize | docs/js/text-renderer.js:16-24 | a 1200-px preview of a 4096-px page has scale 0.29296875 and shows the default 240 at 70 px |
| TextRenderer.FontExtension | docs/js/text-renderer.js:231 | the extension found is one of .woff2/.woff/.ttf/.otf that the name ends with (ignoring case), and none is found iff the name ends with none of them |
| TextRenderer.StripFontExtension | docs/js/text-renderer.js:231 | the result is a prefix of the name; it is the name itself without an extension, and exactly the extension shorter with one |
| TextRenderer.SeparatorsToSpaces | docs/js/text-renderer.js:232 | same length, no `-` or `_` left, every other character kept |
| TextRenderer.TtfExtension | docs/js/text-renderer.js:231 | a name ending in `.ttf` whose preceding character is not a dot has the extension `.ttf` |
| TextRenderer.SeparatorJoinedBySpace | docs/js/text-renderer.js:232 | `<a>-<b>` becomes `<a> <b>` when the parts hold no separator |
| TextRenderer.GetFontFamily | docs/js/text-renderer.js:230-233 | the family is the extension-stripped, separator-free name wrapped in single quotes |
| TextRenderer.FontFamilyOfSeparatedName | docs/js/text-renderer.js:230-233 | a name `<a>-<b>.ttf` whose parts hold no separator gets the family `'<a> <b>'` (`Quicksand-Medium.ttf` gives `'Quicksand Medium'`) |
| TextRenderer.FontFamilyStripsOnce | docs/js/text-renderer.js:231 | `<name>.ttf.ttf` keeps `<name>.ttf`: only one trailing extension is stripped |
| TextRenderer.FontFamilyOf | docs/js/text-renderer.js:146 | a truthy font file gives its family, anything else `sans-serif` |
| TextRenderer.PositionOf | docs/js/text-renderer.js:167 | a truthy position is kept; a missing or empty one becomes `bottom` |
| TextRenderer.SampleBand | docs/js/text-renderer.js:201-206 | the colour-sampling band spans the zone's width and is 200 px tall: at the zone top for `top`, centred on the image for `center`, ending at the zone bottom otherwise |
| TextRenderer.PlacementOf | docs/js/text-renderer.js:171-189 | for any image size, a zero-size one included: a dragged position is used iff both percentages are defined; otherwise the safe-zone margins (`NaN` or infinite over a zero-size image), anchored by the position |
| TextRenderer.WidthOf | docs/js/text-renderer.js:192-195 | a CSS width is set iff `widthPercent` is truthy, and then equals it |
| TextRenderer.BackgroundOf | docs/js/text-renderer.js:212-221 | a background box exists iff the spec has one; white and padding 20 unless given |
| TextRenderer.RenderTextOverlay | docs/js/text-renderer.js:107-228 | for any loaded image, a zero-size (broken) one included, nothing is rendered without content; otherwise the family, the display size, the lines wrapped to the zone width right − left, the placement, the width, and an explicit colour only for an array `color`, else the colour picked from the sampled band |
| LiveChanges.StrictlyDiffersCases | docs/js/live-changes.js:141-167 | under `!==`, a scalar equal to the original is no change, an array always is, and any value differs from `undefined` |
| LiveChanges.GlobalDeltaFacts | docs/js/live-changes.js:136-147 | the global delta only ever holds font, fontSize and color, and settings equal to scalar originals record nothing |
| LiveChanges.TextOf | docs/js/live-changes.js:157 | the text found for page n belongs to an entry of page n; none is found iff no entry has that number |
| LiveChanges.TextOfFinds | docs/js/live-changes.js:157 | with distinct page numbers, an entry in the list is the one found |
| LiveChanges.TextOfPermutation | docs/js/live-changes.js:180 | reordering distinct-numbered entries changes no page's record |
| LiveChanges.IndexOfPage | docs/js/live-changes.js:157 | the index found holds page n; -1 iff no entry does |
| LiveChanges.RemovePage | docs/js/live-changes.js:176 | the filter keeps exactly the entries of other pages |
| LiveChanges.RemovePageKeepsDistinct | docs/js/live-changes.js:176 | filtering keeps page numbers distinct |
| LiveChanges.RemovePageKeepsSorted | docs/js/live-changes.js:176 | filtering keeps the list sorted |
| LiveChanges.RemovePageFacts | docs/js/live-changes.js:175-177 | after the filter page n has no entry and every other page's record is unchanged |
| LiveChanges.WithPageAt | docs/js/live-changes.js:157-169 | the new entry replaces the page's old one, or is appended when the page had none; every other entry stays |
| LiveChanges.WithPageFacts | docs/js/live-changes.js:157-169 | find-or-create sets page n's text, keeps one entry per page and leaves every other page's record unchanged |
| LiveChanges.SortedFacts | docs/js/live-changes.js:180 | sorting distinct, non-empty entries keeps them so and keeps every page's record |
| LiveChanges.WritesKeyCons | docs/js/live-changes.js:166-172 | a key is written by the changes iff the first pair writes it or a later one does |
| LiveChanges.WriteDifferingKeys | docs/js/live-changes.js:166-172 | the updated text has exactly the old keys plus those written by a differing pair; keys no pair writes keep their values |
| LiveChanges.WriteDifferingNonEmpty | docs/js/live-changes.js:165-172 | a call with a differing pair leaves a non-empty text |
| LiveChanges.AnyDiffersCons | docs/js/live-changes.js:165-172 | `hasChanges` is set iff the first pair differs or a later one does |
| LiveChanges.TextKeysAtLeastEntries | docs/js/live-changes.js:240-242 | each recorded page contributes at least one key to the count |
| LiveChanges.NoChangesIff | docs/js/live-changes.js:233-248 | the total is zero iff there is no global delta, no page entry and no version selection |
| LiveChanges.ChangeRegistry.constructor | docs/js/live-changes.js:7-12 | an empty record against the given original data |
| LiveChanges.ChangeRegistry.UpdateGlobalChanges | docs/js/live-changes.js:136-147 | the global delta is replaced by the supplied font/fontSize/color values that differ from the original |
| LiveChanges.ChangeRegistry.UpdatePageChanges | docs/js/live-changes.js:152-181 | page n's entry becomes its old text plus the differing pairs, and is dropped when the call has no differing pair; other pages keep their records; the list stays sorted with one entry per page |
| LiveChanges.ChangeRegistry.UpdateVersionChanges | docs/js/live-changes.js:186-195 | version 1 deletes the page's selection, any other version records it |
| LiveChanges.ChangeRegistry.RegisterChange | docs/js/live-changes.js:113-131 | each change type updates its own part only; an unknown type changes nothing |
| LiveChanges.ChangeRegistry.CalculateTotalChanges | docs/js/live-changes.js:233-248 | global keys + page text keys + version selections |
| LiveChanges.ChangeRegistry.RevertPageChanges | docs/js/live-changes.js:384-394 | only that page's entry and version selection go; all other records stay |
| LiveChanges.ChangeRegistry.RevertGlobalChanges | docs/js/live-changes.js:399-403 | only the global delta is emptied |
| LiveChanges.ChangeRegistry.RevertAllChanges | docs/js/live-changes.js:302-320 | once confirmed, everything is emptied; unconfirmed, nothing changes |
| VersionViewer.DetectAvailableVersions | docs/js/version-viewer.js:74-82 | always three versions with index i+1, label `v<i+1>` and file `page-<n>-v<i+1>.jpg` |
| VersionViewer.DigitRun | docs/js/version-viewer.js:85 | the greedy `\d+` run at a position: all digits and not followed by a digit |
| VersionViewer.FindVersionSkips | docs/js/version-viewer.js:85 | the leftmost match of `-v(\d+)\.` skips positions without a match |
| VersionViewer.IndexOfVersion | docs/js/version-viewer.js:88 | the first version whose index equals n, or -1 iff none does |
| VersionViewer.GetCurrentVersionIndex | docs/js/version-viewer.js:84-92 | the position of the version the file name's `-v<n>.` names; 0 without a match or such a version; always a valid position of a non-empty list |
| VersionViewer.VersionFilenameParses | docs/js/version-viewer.js:78-87 | a generated file name `page-<digits>-v<k>.jpg` parses back to k |
| VersionViewer.DigitRunOf | docs/js/version-viewer.js:85 | n digits followed by a non-digit form a run of length n |
| VersionViewer.DetectedVersionRoundTrip | docs/js/version-viewer.js:74-92 | opening detected version i's own file selects position i |
| VersionViewer.DigitsOf | docs/js/version-viewer.js:501 | `replace(/[^0-9]/g, '')` leaves only digits |
| VersionViewer.DigitsOfDigits | docs/js/version-viewer.js:501 | and leaves an all-digit string unchanged |
| VersionViewer.LabelRoundTrip | docs/js/version-viewer.js:80-501 | a label `v<k>` reads back as k |
| VersionViewer.WrapIndex | docs/js/version-viewer.js:250-258 | the target is in [0, length); an in-range step is kept, below 0 wraps to length − 1, past the end wraps to 0 |
| VersionViewer.WrapEnds | docs/js/version-viewer.js:254-258 | back from 0 reaches the last version, on from the last reaches 0 |
| VersionViewer.WrapInverse | docs/js/version-viewer.js:250-258 | forward then back (and back then forward) returns to the same version |
| VersionViewer.VersionDataForExport | docs/js/version-viewer.js:493-507 | exactly the selected pages with data and an in-range selection are exported, each as the number in its selected version's label |
| VersionViewer.ExportLabelledVersion | docs/js/version-viewer.js:493-507 | a selected version labelled `v<k>`, from detection or from the metadata, exports as k |
| VersionViewer.ExportDetectedVersion | docs/js/version-viewer.js:493-507 | for detected versions, the exported number of a selected position is that version's index |
| VersionViewer.AbsorbPage | docs/js/version-viewer.js:515-528 | taking in one more metadata page keeps the loop's invariant |
| VersionViewer.ApplyMetadata | docs/js/version-viewer.js:515-528 | the loop over the metadata leaves data, viewing and selected maps as the invariant `Absorbed` describes for all pages |
| VersionViewer.Viewer.constructor | docs/js/version-viewer.js:8-10 | no version data, no viewing positions, the saved selections |
| VersionViewer.Viewer.SwitchToVersion | docs/js/version-viewer.js:266-280 | an unknown page, missing card or out-of-range index changes nothing; otherwise the viewing position becomes the index |
| VersionViewer.Viewer.NavigateVersion | docs/js/version-viewer.js:246-261 | the viewing position moves to `WrapIndex` of the old one, or nothing changes for an unknown page |
| VersionViewer.Viewer.ApproveCurrentVersion | docs/js/version-viewer.js:307-337 | without a viewing position or data nothing changes; otherwise the selection becomes the viewing position and a version change with that version's index is registered |
| VersionViewer.FromMetadata | docs/js/version-viewer.js:516-521 | a missing or empty base path becomes `images/pages/` and a missing or empty page number the padded page key, as `||` does; the versions and current index are taken over |
| VersionViewer.Viewer.InitializeWithVersionMetadata | docs/js/version-viewer.js:512-531 | version data is rebuilt from the metadata alone, viewing positions are set from it (0 by default), and saved selections are kept while missing ones are filled in |
| VersionViewer.Viewer.ExportedVersions | docs/js/version-viewer.js:493-507 | exactly the selected pages with version data and an in-range selection are exported, each as the number in its selected version's label |
| CascadeExport.EntryTextFields | docs/js/export.js:17-53 | content or `''`; font, size and colour iff the page does not use the global settings and sets them truthy; position iff set and not `bottom`; width iff truthy; left and top whenever defined, 0 included |
| CascadeExport.Entries | docs/js/export.js:17-56 | one entry per cascade page, in cascade order |
| CascadeExport.OverrideIff | docs/js/export.js:26-39 | a page using the global settings never counts as an override; another one does iff it sets a truthy font, size or colour |
| CascadeExport.GlobalDefaultsOf | docs/js/export.js:122-127 | font falls back to `Quicksand-Medium.ttf`, size to 240; colour is `manualColor` in manual mode, else null |
| CascadeExport.EditorDefaultsExport | docs/js/export.js:122-127 | the editor's initial settings export as the stock font, size 240 and no colour |
| CascadeExport.ExportTextSpecs | docs/js/export.js:13-130 | pages are a permutation of the entries, sorted by page number; totals, overrides, pages using global = total − overrides ≥ 0, version count and defaults as stated |
| PageEditor.PrintFontSize | docs/js/text-editor.js:530 | the print size is the nearest integer to display · 4096 / 1200 |
| PageEditor.PrintFontSizeMonotone | docs/js/text-editor.js:530 | a larger preview size never gives a smaller print size |
| PageEditor.PrintFontSizeSlider | docs/js/text-editor.js:530 | 20 → 68, 70 → 239, 120 → 410 |
| PageEditor.DefaultSizesNotSliderPair | docs/js/text-editor.js:11-22 | the default pair (70, 240) is not one the slider's conversion produces |
| PageEditor.SettingsValues | docs/js/text-editor.js:11-17 | the settings object has exactly the keys font, fontSize, displayFontSize, colorMode, manualColor |
| PageEditor.GlobalChangeRecordsNoColour | docs/js/text-editor.js:521-559 | a registered global settings change can record font and fontSize but never color |
| PageEditor.DraggedTo | docs/js/text-editor.js:261-269 | the dragged coordinate lies in [0, container − size] when the overlay fits, is the unclamped position when that is inside, and 0 when it does not fit |
| PageEditor.Percent | docs/js/text-editor.js:289-290 | percent × container = offset × 100, and an offset inside the container gives a percentage in [0, 100] |
| PageEditor.DraggedPercentInside | docs/js/text-editor.js:261-290 | a dragged overlay that fits is stored at a left percentage in [0, 100 − width%] |
| PageEditor.PercentsAdd | docs/js/text-editor.js:289-290 | percentages of one extent add up |
| PageEditor.CornerResizeMovesGrabbedEdges | docs/js/text-editor.js:351-372 | `se` changes only the size; `sw`/`nw` keep left + width; `ne`/`nw` keep top + height; an unknown handle changes nothing |
| PageEditor.Resized | docs/js/text-editor.js:374-381 | width ≥ 100 and height ≥ 50; left and top are the corner's, not clamped |
| PageEditor.UpdateAllOverlays | docs/js/text-editor.js:718-725 | exactly the overlays whose spec has `useGlobal !== false` are refreshed, in order |
| PageEditor.Editor.constructor | docs/js/text-editor.js:11-26 | the default settings, no selection and no gesture |
| PageEditor.Editor.SelectTextOverlay | docs/js/text-editor.js:161-175 | the given overlay becomes the selected one |
| PageEditor.Editor.DeselectTextOverlay | docs/js/text-editor.js:180-188 | no overlay is selected |
| PageEditor.Editor.StartDrag | docs/js/text-editor.js:220-242 | a press on a resize handle starts nothing; otherwise the drag records the pointer and the box it starts from, not yet moved |
| PageEditor.Editor.OnDrag | docs/js/text-editor.js:244-270 | nothing happens inside the 5 px dead zone before the first move; afterwards `hasMoved` stays set and the box moves to the clamped position, keeping its size |
| PageEditor.Editor.EndDrag | docs/js/text-editor.js:272-311 | the drag ends; a change with left and top percentages is registered iff the overlay moved |
| PageEditor.Editor.StartResize | docs/js/text-editor.js:316-338 | the resize records the handle, the pointer and the starting box |
| PageEditor.Editor.OnResize | docs/js/text-editor.js:340-382 | the box becomes `Resized` of the starting box and the pointer's offset |
| PageEditor.Editor.EndResize | docs/js/text-editor.js:384-422 | the resize ends and registers width, left and top as percentages of the container |
| PageEditor.Editor.UpdateGlobalFont | docs/js/text-editor.js:514-522 | the empty choice means the default font; the whole settings object is registered |
| PageEditor.Editor.UpdateGlobalFontSize | docs/js/text-editor.js:527-537 | the preview size and its print size are stored and registered |
| PageEditor.Editor.UpdateGlobalColorMode | docs/js/text-editor.js:542-550 | the colour mode is stored and registered |
| PageEditor.Editor.UpdateGlobalColor | docs/js/text-editor.js:555-560 | the manual colour is stored and registered |
| PageEditor.Editor.RevertGlobal | docs/js/text-editor.js:565-586 | once confirmed, exactly the default settings are restored and registered; otherwise nothing changes |
| PageEditor.Editor.UpdatePageFontSize | docs/js/text-editor.js:615-642 | with a selection, the page registers the print size (same rule as the global one) and the preview size; without one, nothing |
| OverlayEditor.DefaultFontTrimmed | docs/tools/text-tester/js/text-editor.js:183 | the default font name is already trimmed |
| OverlayEditor.OverlayIdInjective | docs/tools/text-tester/js/text-editor.js:175-176 | different counter values give different ids `overlay-<n>` |
| OverlayEditor.SettingsDefaults | docs/tools/text-tester/js/text-editor.js:233-247 | with no settings every field takes its default |
| OverlayEditor.ZeroSettingsDefaulted | docs/tools/text-tester/js/text-editor.js:233-247 | zero counts as missing: left 0 becomes 10, top 0 becomes 70, page 0 becomes none |
| OverlayEditor.SettingsKept | docs/tools/text-tester/js/text-editor.js:233-247 | truthy settings are kept, `fontFamily` wins over `font`, and the call's page number over the settings' |
| OverlayEditor.IndexOfId | docs/tools/text-tester/js/text-editor.js:502 | the first overlay with the id, or -1 iff none has it |
| OverlayEditor.RemoveId | docs/tools/text-tester/js/text-editor.js:635 | no overlay with the id is left |
| OverlayEditor.RemoveIdExactlyOne | docs/tools/text-tester/js/text-editor.js:635 | with distinct ids, filtering a present id removes exactly that overlay and keeps the order of the rest |
| OverlayEditor.RemoveIdAbsent | docs/tools/text-tester/js/text-editor.js:635 | filtering an absent id changes nothing |
| OverlayEditor.DragBox | docs/tools/text-tester/js/text-editor.js:403-422 | a drag keeps the size and clamps left into [0, 100 − width] and top into [0, 100 − height], moving freely when inside |
| OverlayEditor.ResizeMovesOnlyGrabbedEdges | docs/tools/text-tester/js/text-editor.js:444-457 | before clamping, `w`/`n` move the left/top edge by δ and keep the opposite edge; `e`/`s` change only the size |
| OverlayEditor.ClampBox | docs/tools/text-tester/js/text-editor.js:459-463 | width and height in [5, 100], left + width ≤ 100 and top + height ≤ 100, and a box already inside is unchanged |
| OverlayEditor.IndexOfSameIds | docs/tools/text-tester/js/text-editor.js:502 | lookup by id depends only on the ids |
| OverlayEditor.IdsDistinct | docs/tools/text-tester/js/text-editor.js:175-176 | ids made from strictly increasing counter values are pairwise distinct |
| OverlayEditor.FreshIdUnused | docs/tools/text-tester/js/text-editor.js:175-176 | an id made from a value above the counter is not in use |
| OverlayEditor.IdsAppend | docs/tools/text-tester/js/text-editor.js:175-206 | appending under the next counter value keeps the id invariant |
| OverlayEditor.IdsRemoveAt | docs/tools/text-tester/js/text-editor.js:635 | removing an overlay keeps the id invariant |
| OverlayEditor.UpdateKeepsInvariants | docs/tools/text-tester/js/text-editor.js:563-584 | updating overlays without touching ids keeps the id and selection invariants |
| OverlayEditor.Editor.constructor | docs/tools/text-tester/js/text-editor.js:8-19 | no overlays, no selection, counter 0, no gesture, no fonts |
| OverlayEditor.Editor.LoadAndApplyFont | docs/tools/text-tester/js/text-editor.js:76-96 | a name that is blank under JavaScript's `trim` (ECMA-262 whitespace and line terminators) is ignored; otherwise the trimmed name joins the font set, and a stylesheet link is appended only the first time |
| OverlayEditor.Editor.SelectOverlay | docs/tools/text-tester/js/text-editor.js:494-514 | a known id becomes selected; an unknown id leaves the selection as it was |
| OverlayEditor.Editor.DeselectAllOverlays | docs/tools/text-tester/js/text-editor.js:48-71 | no overlay is selected |
| OverlayEditor.Editor.Push | docs/tools/text-tester/js/text-editor.js:175-209 | the counter goes up by one; the overlay is appended under a fresh id and selected |
| OverlayEditor.Editor.AddTextOverlay | docs/tools/text-tester/js/text-editor.js:165-215 | without an image nothing changes; otherwise a default overlay with the next id is appended and selected, the default font joins the font set, and its link is appended only if it was not loaded before |
| OverlayEditor.Editor.AddTextOverlayWithSettings | docs/tools/text-tester/js/text-editor.js:220-270 | as `AddTextOverlay`, with the settings merged over the defaults; the overlay's trimmed font name joins the font set, linked only the first time, and a blank one changes nothing |
| OverlayEditor.Editor.DeleteSelectedOverlay | docs/tools/text-tester/js/text-editor.js:625-650 | without a selection nothing changes; otherwise exactly the selected overlay is removed, the order of the rest is kept, and the first remaining overlay (or none) is selected |
| OverlayEditor.Editor.ClearAllOverlays | docs/tools/text-tester/js/text-editor.js:655-668 | no overlays and no selection |
| OverlayEditor.Editor.StartDrag | docs/tools/text-tester/js/text-editor.js:340-362 | the overlay is selected (if known) and a drag starts from the pointer |
| OverlayEditor.Editor.StartResize | docs/tools/text-tester/js/text-editor.js:365-383 | the overlay is selected (if known) and a resize with the handle starts from the pointer |
| OverlayEditor.Editor.MoveTo | docs/tools/text-tester/js/text-editor.js:388-476 | overlay i takes the new box, every other overlay and the ids stay, and the pointer becomes the start point |
| OverlayEditor.Editor.MouseMove | docs/tools/text-tester/js/text-editor.js:388-476 | a drag moves the current overlay to `DragBox` and a resize to the clamped resized box, by the pointer's offset in percent; the pointer becomes the new start; other overlays are untouched |
| OverlayEditor.Editor.MouseUp | docs/tools/text-tester/js/text-editor.js:481-489 | any drag or resize ends |
| PageLoader.NumbersAppend | docs/tools/text-tester/js/page-loader.js:69 | appending a page adds its number |
| PageLoader.IndexOfNumber | docs/tools/text-tester/js/page-loader.js:64-67 | the first page with the number, or none iff no page has it |
| PageLoader.FindStory | docs/tools/text-tester/js/page-loader.js:53 | the story page found has the number; none iff no story page has it |
| PageLoader.Candidate | docs/tools/text-tester/js/page-loader.js:117-124 | candidate n has number n |
| PageLoader.DefaultPathPadding | docs/tools/text-tester/js/page-loader.js:118-121 | pages 1–9 get `page-0N.jpg`, pages 10–24 `page-NN.jpg` |
| PageLoader.DetectPagesFromImages | docs/tools/text-tester/js/page-loader.js:114-140 | exactly the candidates 1..24 whose image exists are kept, unchanged, in increasing order: the list `Detected` |
| PageLoader.Candidates | docs/tools/text-tester/js/page-loader.js:116-124 | the candidate list holds candidate `k + 1` at position `k`, for `count` candidates |
| PageLoader.ProbeCandidates | docs/tools/text-tester/js/page-loader.js:126-137 | probing candidates numbered 1, 2, … in order keeps those whose image exists, in order |
| PageLoader.DetectedCandidates | docs/tools/text-tester/js/page-loader.js:114-137 | every probed page is the unchanged candidate of its number, between 1 and the number of candidates |
| PageLoader.DetectedNumbers | docs/tools/text-tester/js/page-loader.js:126-137 | the probed page numbers are exactly those whose image exists |
| PageLoader.DetectedAscending | docs/tools/text-tester/js/page-loader.js:114-137 | the probed pages are in strictly increasing order of number |
| PageLoader.EnrichPage | docs/tools/text-tester/js/page-loader.js:52-59 | a page the story lists takes its type, companion and spread start; number, path and name stay |
| PageLoader.CompanionStep | docs/tools/text-tester/js/page-loader.js:62-85 | for a spread-companion whose start is present, the page numbered like it ends with the start's path, added if missing; every old number is kept at its position and only that number may be added; other story pages change nothing |
| PageLoader.CompanionStepFrame | docs/tools/text-tester/js/page-loader.js:62-85 | every other page is unchanged; an existing companion changes only its path, to the start's; a missing one is appended as `Page n` with the start's path, the story's type and spread start, and no companion |
| PageLoader.CompanionStepKeeps | docs/tools/text-tester/js/page-loader.js:62-85 | a step for another page number leaves the page numbered `n` where and as it was |
| PageLoader.CompanionsKeep | docs/tools/text-tester/js/page-loader.js:62-85 | later story pages with other numbers leave a page as the earlier steps made it, so a companion's path, once set, stays |
| PageLoader.IndexOfSameNumbers | docs/tools/text-tester/js/page-loader.js:64-79 | lookup by number depends only on the numbers |
| PageLoader.CompanionsNumbers | docs/tools/text-tester/js/page-loader.js:62-85 | the second pass keeps every page number and adds only spread-companion numbers |
| PageLoader.Loader.constructor | docs/tools/text-tester/js/page-loader.js:6 | an empty page list |
| PageLoader.Loader.Enriched | docs/tools/text-tester/js/page-loader.js:52-59 | the first pass enriches every page in place |
| PageLoader.Loader.EnrichWithStory | docs/tools/text-tester/js/page-loader.js:48-89 | the list becomes a permutation of the two-pass enrichment, sorted by number, keeping every old number |
| PageLoader.Loader.DetectPages | docs/tools/text-tester/js/page-loader.js:114-140 | the stored pages are exactly the probed candidates that exist, in strictly increasing order |
| PageLoader.Loader.RenderAllPages | docs/tools/text-tester/js/page-loader.js:145-181 | the while loop renders exactly the spreads of `Pairing` |
| PageLoader.Loader.LoadAllPublishedPages | docs/tools/text-tester/js/page-loader.js:20-109 | the published list or the probed fallback as it is without a story; with one, a sorted permutation of that list after both enrichment passes, keeping its page numbers; then paired |
| PageLoader.PairingShape | docs/tools/text-tester/js/page-loader.js:149-180 | a spread-companion never leads a spread; a spread-start with a companion is paired with that page; any other page pairs with the next one only if that is neither spread-start nor spread-companion |
| PageLoader.ConsumedAll | docs/tools/text-tester/js/page-loader.js:149-180 | the loop consumes every index exactly once |
| PageLoader.SpreadTitle | docs/tools/text-tester/js/page-loader.js:186-208 | `Double-Page Spread: Pages a-b` for a spread-start with a right page, `Pages a-b` for other pairs, `Page a` alone |
| PageLoader.PagePath | docs/tools/text-tester/js/page-loader.js:243 | the spread image, else the page's own path, else its padded default path |
| PageLoader.FallbackMatchesDetection | docs/tools/text-tester/js/page-loader.js:117-243 | a page without a path falls back to the path the image probe tries |
| OverlayExport.PillowFormatFields | docs/tools/text-tester/js/export.js:124-143 | position `custom`; font falls back to `Quicksand`, line height to 1.2, letter spacing to 0; each percentage is its value rounded to two decimals (within 0.005) |
| OverlayExport.HundredthsKept | docs/tools/text-tester/js/export.js:138-141 | a percentage with two decimals survives the rounding unchanged |
| OverlayExport.KeyOf | docs/tools/text-tester/js/export.js:45 | a truthy page number is the key, anything else `unknown` |
| OverlayExport.Group | docs/tools/text-tester/js/export.js:44-50 | a group holds only overlays with its key, in order |
| OverlayExport.GroupAppend | docs/tools/text-tester/js/export.js:44-50 | appending an overlay extends only its own group |
| OverlayExport.KeysAppend | docs/tools/text-tester/js/export.js:44-50 | appending an overlay adds its key |
| OverlayExport.GroupNonEmpty | docs/tools/text-tester/js/export.js:46-49 | every key present has a non-empty group |
| OverlayExport.GroupsInAdd | docs/tools/text-tester/js/export.js:44-50 | the groups of a list of distinct keys count each overlay of those keys once |
| OverlayExport.GroupsInAll | docs/tools/text-tester/js/export.js:44-50 | over all keys, the groups hold each overlay once |
| OverlayExport.ConcatGroupsIn | docs/tools/text-tester/js/export.js:56-61 | concatenating the groups gives the overlays of those keys |
| OverlayExport.GroupsInEmpty | docs/tools/text-tester/js/export.js:44-50 | no keys hold no overlays |
| OverlayExport.GroupsPartition | docs/tools/text-tester/js/export.js:42-61 | every overlay lands in exactly one group: the groups together are a permutation of the overlays |
| OverlayExport.FindStoryPage | docs/tools/text-tester/js/export.js:67 | the story page found has that number; none iff none has it |
| OverlayExport.TextDataOf | docs/tools/text-tester/js/export.js:61-64 | one object iff the group has one overlay, else the array of all, each converted, in group order |
| OverlayExport.PageFor | docs/tools/text-tester/js/export.js:66-79 | the page has the group's key and the group's text data |
| OverlayExport.MergeKeepsStoryFields | docs/tools/text-tester/js/export.js:69-72 | an existing story page keeps every field and only `text` is replaced; without one the output is `{pageNumber, text}` |
| OverlayExport.GroupStep | docs/tools/text-tester/js/export.js:44-50 | adding one overlay keeps the grouping loop's invariant |
| OverlayExport.GroupByPage | docs/tools/text-tester/js/export.js:42-50 | the loop's dictionary maps each key to its group; the numeric keys are listed once each |
| OverlayExport.BuildPages | docs/tools/text-tester/js/export.js:54-80 | one page per key, in key order, each `PageFor` its group |
| OverlayExport.SortedKeys | docs/tools/text-tester/js/export.js:56-59 | the keys of the dictionary, numeric ones ascending, `unknown` last |
| OverlayExport.PageKeysAscending | docs/tools/text-tester/js/export.js:56-59 | ascending distinct page numbers give strictly ascending group keys |
| OverlayExport.PageKeysCover | docs/tools/text-tester/js/export.js:56-59 | the sorted page numbers give exactly the dictionary's page keys |
| OverlayExport.UnknownLast | docs/tools/text-tester/js/export.js:56-59 | `unknown` placed after the page keys keeps the order and adds exactly its key |
| OverlayExport.OutKeysAre | docs/tools/text-tester/js/export.js:60-80 | the pages built one per key carry exactly the sorted keys |
| OverlayExport.ExportAllPages | docs/tools/text-tester/js/export.js:33-80 | nothing iff there are no overlays; otherwise one page per key present, in ascending page order, each with its group's text |
| Compare.WrapTextCanvas | docs/tools/text-tester/js/compare.js:132-154 | the loop's lines equal the canvas-wrap function `CanvasWrap` |
| Compare.CanvasWrapEmpty | docs/tools/text-tester/js/compare.js:132-153 | the empty text wraps to no lines |
| Compare.JoinNonEmpty | docs/tools/text-tester/js/compare.js:138 | joining non-empty words gives a non-empty line |
| Compare.CanvasLinesAgree | docs/tools/text-tester/js/compare.js:137-151 | without empty words, the canvas wrap from a joined line gives the page renderer's lines |
| Compare.CanvasWrapAgrees | docs/tools/text-tester/js/compare.js:132-154 | for a non-empty text without empty words both wraps agree, so joining the lines with spaces gives back the text |
| Compare.CanvasLinesFit | docs/tools/text-tester/js/compare.js:137-151 | lines are never empty, and one holding a space measures at most maxWidth |
| Compare.CanvasWrapFits | docs/tools/text-tester/js/compare.js:132-154 | the same for the whole wrap: an over-wide first word still starts a line of its own |
| Compare.TextX | docs/tools/text-tester/js/compare.js:113-118 | the x anchor is left, left + width/2 or left + width for left, center and right |
| Compare.AnchorsOrdered | docs/tools/text-tester/js/compare.js:113-118 | for a non-negative width, left ≤ center ≤ right anchor |
| Compare.DrawTextOverlay | docs/tools/text-tester/js/compare.js:99-127 | one `fillText` per wrapped line, at the aligned x and the line's baseline, with percentages scaled to the canvas |
| Compare.BaselineStep | docs/tools/text-tester/js/compare.js:120-126 | each line's baseline is 1.2·fontSize below the previous one |
| Compare.BaselinesDescend | docs/tools/text-tester/js/compare.js:120-126 | the first baseline is top + fontSize and each next one 1.2·fontSize lower |
| MeasureText.CalculatePillowSize | docs/tools/text-tester/js/measure-text.js:92-117 | null without measurements; scale × display width = print width (4096 by default); targets = measured × scale; the font size is the nearest integer to firstLineHeight × scale × 1.2 |
| MeasureText.PillowSizeKeepsAspect | docs/tools/text-tester/js/measure-text.js:96-108 | the target width and height keep the measured aspect ratio |
| MeasureText.PillowSizeAtPrintWidth | docs/tools/text-tester/js/measure-text.js:92-108 | a preview shown at 4096 px needs no scaling |
| MeasureText.EstimatedFontSizeMonotone | docs/tools/text-tester/js/measure-text.js:104 | a taller first line never gives a smaller font size |
| MeasureText.ExportWithMeasurements | docs/tools/text-tester/js/measure-text.js:125-149 | null iff the overlay cannot be measured; otherwise the element's content, alignment and four percentages, position `custom`, the measured size and measurements, the pillow sizes, and the font or `Nunito-Regular.ttf` |
| ConvertVersions.WithoutUnderscores | docs/convert_page_versions.py:39 | the result is all digits; a plain digit string is unchanged |
| ConvertVersions.WithoutUnderscoresAppend | docs/convert_page_versions.py:39 | dropping underscores distributes over concatenation |
| ConvertVersions.UnderscoreDropped | docs/convert_page_versions.py:39 | an underscore between two digit groups is dropped and the digits are kept in order |
| ConvertVersions.ParseGrouped | docs/convert_page_versions.py:39 | `int` of two digit groups joined by an underscore is the value of the digits run together (`int("1_000") == 1000`) |
| ConvertVersions.ParseUnsigned | docs/convert_page_versions.py:39 | a value iff the text is digits with single underscores between them, as `int` accepts |
| ConvertVersions.UnsignedDigits | docs/convert_page_versions.py:39 | a digit run reads as its decimal value |
| ConvertVersions.ParseDigits | docs/convert_page_versions.py:39-55 | `int` of a digit run is its decimal value |
| ConvertVersions.ParseNegated | docs/convert_page_versions.py:39 | `int('-' + digits)` is the negated decimal value of the digits |
| ConvertVersions.NegativeRoundTrip | docs/convert_page_versions.py:39 | `int(str(n)) == n` for every negative integer |
| ConvertVersions.ParseIntRoundTrip | docs/convert_page_versions.py:39-55 | `int(str(n)) == n` for every integer |
| ConvertVersions.PageNumberOfFolder | docs/convert_page_versions.py:36-39 | a folder `<digits>-<rest>` is page `<digits>`, leading zeros dropped |
| ConvertVersions.NamedFolderSkipped | docs/convert_page_versions.py:37-41 | a folder whose name starts with anything but a digit, sign or Python whitespace has no page number and is skipped |
| ConvertVersions.VersionPart | docs/convert_page_versions.py:50-53 | none iff the name holds no `_v` |
| ConvertVersions.FirstVersionMarker | docs/convert_page_versions.py:53 | in `page_<digits>_v…` the first `_v` follows the digits |
| ConvertVersions.VersionTail | docs/convert_page_versions.py:53-55 | `<N>.png` holds no `_v` and its part before the dot reads as N |
| ConvertVersions.VersionOfSourceName | docs/convert_page_versions.py:48-57 | a source file `page_<digits>_v<N>.png` gives version N |
| ConvertVersions.OutputNamePadding | docs/convert_page_versions.py:60 | pages below 10 get a leading zero, others are written as they are |
| ConvertVersions.PaddedDigits | docs/convert_page_versions.py:60 | the padded page number is all digits |
| ConvertVersions.ViewerReadsConvertedVersion | docs/convert_page_versions.py:60 | the web viewer's `-v(\d+)\.` pattern reads the version back from every output name |
| ConvertVersions.ResizedSize | docs/convert_page_versions.py:86-91 | a size not wider than max_width is kept; a wider one becomes max_width wide and int(height · max_width / width) tall, never taller |
| ConvertVersions.ScaledHeight | docs/convert_page_versions.py:88-89 | the truncated height keeps the aspect ratio to within one pixel |
| ConvertVersions.CountStep | docs/convert_page_versions.py:46-96 | one more file adds one to a counter iff it is counted |
| ConvertVersions.ConvertPageVersions | docs/convert_page_versions.py:12-106 | the folder loop's counters equal the converted and skipped files of the numbered folders |
| ConvertVersions.ConvertFolder | docs/convert_page_versions.py:36-100 | a folder without a page number adds nothing; otherwise the file loop counts exactly its converted and its skipped files |
| ConvertVersions.TotalCountStep | docs/convert_page_versions.py:34-41 | one more folder adds its own count to the total |
| ConvertVersions.FolderCountsBounded | docs/convert_page_versions.py:63-96 | no file is both converted and skipped |
| ConvertVersions.TotalCountsBounded | docs/convert_page_versions.py:26-106 | conversions and skips together never exceed the files of the numbered folders |

## Left out

- Browser and file-system I/O is not modelled, and neither is the rest of the DOM:
  - DOM construction, CSS injection, event wiring, popups, panels, toasts and animations;
  - `fetch` of story.json/pages.json and the HEAD probes (the probe outcome is a function parameter);
  - the clipboard, Blob downloads, `localStorage` (saved selections are a constructor input) and `location.reload`;
  - Google Fonts `<link>` insertion (only the font set and the list of linked names are kept);
  - `docs/js/main.js`, `docs/tools/text-tester/js/main.js` and `docs/tools/text-tester/js/image-loader.js` are not part of this model.
- Canvas and raster access is abstracted:
  - `measureText` is a deterministic `measure` parameter;
  - the image data are rows of RGB triples;
  - `drawImage`/`getImageData` and the spread-image splitting are not modelled.
- `measureOverlay` (Range and `getBoundingClientRect`) and every `getComputedStyle` read are left out. Their results are inputs to `ExportWithMeasurements`.
- Timers and async ordering are not modelled: `setTimeout`, image `onload` deferral, and the `await import` in `switchToVersion` (its re-render is outside the state part modelled).
- In `convert_page_versions.py`, PIL decoding, colour-mode conversion, LANCZOS resampling and the mtime comparison are inputs. They appear as the flags of a `VersionFile`:
  - the glob listing and the sorted folder order are the input sequence;
  - an exception while saving (a resize to zero height included) is folded into the `saves` flag.
- IEEE-754 arithmetic is modelled with exact reals and integers. This means:
  - `toFixed` string formatting and `parseFloat` of CSS strings are not modelled, and `NaN` and the infinities only where the safe-zone percentages divide by the image size;
  - `Math.round` is floor(x + 0.5);
  - `toFixed(2)` is modelled as half-up rounding of the exact value.
- `ConvertVersions.ResizedSize`: uses exact integer division `height * max_width / width` where Python computes `int(height * (max_width / width))` in floating point. The two can differ by one pixel when the float product falls just below an integer.
- `ConvertVersions.ParseInt`: digits are ASCII `0`–`9` only. Python's `int()` also reads other Unicode decimal digits, which are not modelled; its whitespace (`str.isspace`) is modelled in full.
- `ConvertVersions.ParseUnsigned`: digits are ASCII `0`–`9` only, for the same reason.
- JavaScript object keys are modelled as integers. Page numbers in the cascade, the change registry and the version maps are assumed to be canonical numeric strings.
- `OverlayExport.SortedKeys`: places the `unknown` group last. In the source, `parseInt('unknown')` is NaN, so the comparator's answer for it is engine-defined.
- `OverlayExport.ExportAllPages`: assumes page numbers are not negative when the string keys are ordered. Negative page numbers are outside the model.
- `OverlayExport.ExportAllPages`: the merge `{...existingPage, text}` is modelled on a field map, without JSON key order.
- `CascadeExport.ExportTextSpecs`: omits the DOM-derived scale metadata, the fixed notes and the export date.
- `CascadeExport.ExportTextSpecs`: takes the cascade as an input. `exportSettingsWithCascade` (docs/js/text-editor.js:780-786) is a placeholder that always returns no pages.
- `MeasureText.ExportWithMeasurements`: `_measurements` is the measurements and the sizes as two records, not one spread-merged object.
- `MeasureText.CalculatePillowSize`: requires a positive display width. The source divides anyway and yields Infinity or NaN.
- `MeasureText.ExportWithMeasurements`: requires a positive display width, as `CalculatePillowSize` does, which it calls.
- `ConvertVersions.ResizedSize`: requires `max_width > 0`. The script's only default is 1200.
- `PageEditor.Percent`, `PageEditor.Editor.StartDrag` and `PageEditor.Editor.StartResize`: assume a laid-out container with positive width and height.
- `OverlayEditor.Editor.MouseMove`: assumes a wrapper with positive width and height. Over a zero-size wrapper the source's percentages would be `NaN` or infinite.
- `PageEditor.Editor.OnDrag`: compares dx² + dy² with 25 instead of taking the square root, which is equivalent for reals.
- Pixel offsets are exact reals. The browser's rounding of `offsetLeft` to whole pixels is not modelled.
- `Compare.DrawTextOverlay`: adds the line height into `currentY` exactly. Floating-point accumulation is not modelled.
- `TextRenderer.RenderTextOverlay`: the scale-factor logging and `toFixed(4)` metadata are not modelled, and neither is the deferred render when the image is not loaded yet.
- `LiveChanges.ChangeRegistry.RegisterChange`: the `changes` of a page update are a sequence of pairs in `Object.entries` order, and the registry's listeners and display refresh are not modelled.
- `LiveChanges.ChangeRegistry.UpdatePageChanges`: a page entry is pushed and then filtered away in the same call when nothing differs. The model states only the final list.
- `VersionViewer.Viewer.ApproveCurrentVersion`: an out-of-range viewing position makes the source throw when it reads `versions[viewingIndex].index`. The model then registers no change.
- `VersionViewer.VersionDataForExport`: an out-of-range selected position throws in the source. The model omits such pages.
- `detectVersions` (docs/js/version-viewer.js:40-72) reads page numbers out of DOM image sources and is not modelled. Its pieces `detectAvailableVersions` and `getCurrentVersionIndex` are.
- `PageLoader.SpreadTitle`: the `'?'` and `pageNumber` fallbacks of the title labels are modelled only for a missing or zero number.
- Loose `==` between page numbers is integer equality.
- The page editor's per-page font, colour and alignment handlers and `resetToGlobal` are not modelled; each only registers a one-key page change. `updatePageFontSize` is modelled as their representative.
- `TextRenderer.RenderTextOverlay`: a zero natural width gives a scale factor of 0 and a display font size of 0. Its safe-zone percentages are `NaN` or infinite (`JsMath.DivPercent`), and only their string form is not modelled.
