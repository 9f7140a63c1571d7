/**
 * The version viewer: each page may have several image versions; the user
 * browses them (the viewing index, with wrap-around) and approves one (the
 * selected index). Approval is reported to the live-changes registry, and
 * the approved version numbers are what gets exported.
 */
module VersionViewer {
  import opened Wrappers
  import opened Strings
  import opened JsMath
  import LiveChanges

  /** One image version of a page. */
  datatype VersionInfo = VersionInfo(index: int, filename: string, fullPath: string, versionLabel: string)

  /** What the viewer knows about a page with versions. */
  datatype PageVersions = PageVersions(basePath: string, pageNum: string, versions: seq<VersionInfo>, currentIndex: int)

  /** A page's entry in the build's version metadata; `None` is a missing field. */
  datatype PageMetadata = PageMetadata(basePath: Option<string>, pageNum: Option<string>,
                                       versions: seq<VersionInfo>, currentIndex: Option<int>)

  // ----- version files -----

  function VersionFilename(pageNum: string, i: nat): string
  {
    "page-" + pageNum + "-v" + NatToString(i) + ".jpg"
  }

  /** `detectAvailableVersions`: a fixed three versions `v1`..`v3` with their file names. */
  function DetectAvailableVersions(basePath: string, pageNum: string): (r: seq<VersionInfo>)
    ensures |r| == 3
    ensures forall i :: 0 <= i < 3 ==>
              r[i].index == i + 1 && r[i].filename == VersionFilename(pageNum, i + 1) && r[i].fullPath == basePath + r[i].filename &&
              r[i].versionLabel == "v" + NatToString(i + 1)
  {
    seq(3, i requires 0 <= i < 3 =>
      VersionInfo(i + 1, VersionFilename(pageNum, i + 1), basePath + VersionFilename(pageNum, i + 1), "v" + NatToString(i + 1)))
  }

  /** The length of the run of decimal digits starting at `i`. */
  function DigitRun(s: string, i: nat): (n: nat)
    requires i <= |s|
    ensures i + n <= |s| && AllDigits(s[i..i + n])
    ensures i + n == |s| || !IsDigit(s[i + n])
    decreases |s| - i
  {
    if i < |s| && IsDigit(s[i]) then
      var n := DigitRun(s, i + 1);
      assert s[i..i + 1 + n] == [s[i]] + s[i + 1..i + 1 + n];
      1 + n
    else 0
  }

  /** The pattern `-v(\d+)\.` matches at `i`: the greedy digit run is non-empty and followed by a dot. */
  predicate VersionMatchAt(s: string, i: nat)
  {
    i + 2 <= |s| && s[i] == '-' && s[i + 1] == 'v' &&
    var n := DigitRun(s, i + 2);
    n >= 1 && i + 2 + n < |s| && s[i + 2 + n] == '.'
  }

  /** The number captured by the leftmost match at or after `i`. */
  function FindVersionNumber(s: string, i: nat): (r: Option<nat>)
    decreases |s| - i
  {
    if i >= |s| then None
    else if VersionMatchAt(s, i) then Some(DecimalValue(s[i + 2..i + 2 + DigitRun(s, i + 2)]))
    else FindVersionNumber(s, i + 1)
  }

  /** Positions without a match are skipped. */
  lemma {:induction false} FindVersionSkips(s: string, i: nat, m: nat)
    requires i <= m <= |s|
    requires forall j :: i <= j < m ==> !VersionMatchAt(s, j)
    ensures FindVersionNumber(s, i) == FindVersionNumber(s, m)
    decreases m - i
  {
    if i < m {
      FindVersionSkips(s, i + 1, m);
    }
  }

  /** `versions.findIndex(v => v.index === n)`. */
  function IndexOfVersion(versions: seq<VersionInfo>, n: int): (r: int)
    ensures -1 <= r < |versions|
    ensures r >= 0 ==> versions[r].index == n && forall k :: 0 <= k < r ==> versions[k].index != n
    ensures r == -1 ==> forall k :: 0 <= k < |versions| ==> versions[k].index != n
  {
    if |versions| == 0 then -1
    else if versions[0].index == n then 0
    else
      var r := IndexOfVersion(versions[1..], n);
      if r == -1 then -1 else r + 1
  }

  /** `getCurrentVersionIndex`: the position of the version the file name's `-v<n>.` names, else 0. */
  function GetCurrentVersionIndex(versions: seq<VersionInfo>, filename: string): (r: int)
    ensures 0 <= r && (|versions| > 0 ==> r < |versions|)
    ensures var m := FindVersionNumber(filename, 0);
            m.Some? && (exists k :: 0 <= k < |versions| && versions[k].index == m.value) ==>
              r < |versions| && versions[r].index == m.value && forall k :: 0 <= k < r ==> versions[k].index != m.value
    ensures var m := FindVersionNumber(filename, 0);
            m.None? || (forall k :: 0 <= k < |versions| ==> versions[k].index != m.value) ==> r == 0
  {
    match FindVersionNumber(filename, 0)
    case None => 0
    case Some(n) =>
      var index := IndexOfVersion(versions, n);
      if index >= 0 then index else 0
  }

  /** A generated file name names its own version: the pattern first matches after the page digits. */
  lemma VersionFilenameParses(pageNum: string, k: nat)
    requires AllDigits(pageNum)
    ensures FindVersionNumber(VersionFilename(pageNum, k), 0) == Some(k)
  {
    var s := VersionFilename(pageNum, k);
    var digits := NatToString(k);
    var at := 5 + |pageNum|;
    assert s[at] == '-' && s[at + 1] == 'v';
    assert s[at + 2..at + 2 + |digits|] == digits;
    assert s[at + 2 + |digits|] == '.';
    assert DigitRun(s, at + 2) == |digits| by {
      DigitRunOf(s, at + 2, |digits|);
    }
    forall j | 0 <= j < at ensures !VersionMatchAt(s, j) {
      if j == 4 && |pageNum| > 0 {
        assert s[5] == pageNum[0];
      } else if j > 4 {
        assert s[j] == pageNum[j - 5];
      }
    }
    FindVersionSkips(s, 0, at);
  }

  /** A run of `n` digits followed by a non-digit has length `n`. */
  lemma {:induction false} DigitRunOf(s: string, i: nat, n: nat)
    requires i + n < |s| && AllDigits(s[i..i + n]) && !IsDigit(s[i + n])
    ensures DigitRun(s, i) == n
    decreases n
  {
    if n > 0 {
      assert s[i] == s[i..i + n][0];
      assert s[i + 1..i + n] == s[i..i + n][1..];
      DigitRunOf(s, i + 1, n - 1);
    }
  }

  /** Opening a detected version's own file selects that version. */
  lemma DetectedVersionRoundTrip(basePath: string, pageNum: string, i: nat)
    requires AllDigits(pageNum) && i < 3
    ensures var versions := DetectAvailableVersions(basePath, pageNum);
            GetCurrentVersionIndex(versions, versions[i].filename) == i
  {
    VersionFilenameParses(pageNum, i + 1);
  }

  // ----- labels -----

  /** `label.replace(/[^0-9]/g, '')`. */
  function DigitsOf(s: string): (r: string)
    ensures AllDigits(r)
  {
    if |s| == 0 then ""
    else (if IsDigit(s[0]) then [s[0]] else "") + DigitsOf(s[1..])
  }

  lemma {:induction false} DigitsOfDigits(s: string)
    requires AllDigits(s)
    ensures DigitsOf(s) == s
  {
    if |s| > 0 {
      DigitsOfDigits(s[1..]);
      assert s == [s[0]] + s[1..];
    }
  }

  /** `parseInt` of a label's digits; `None` stands for `NaN` (a label without digits). */
  function LabelNumber(versionLabel: string): Option<nat>
  {
    var d := DigitsOf(versionLabel);
    if d == "" then None else Some(DecimalValue(d))
  }

  /** Labels `v<k>` read back as `k`. */
  lemma LabelRoundTrip(k: nat)
    ensures LabelNumber("v" + NatToString(k)) == Some(k)
  {
    var s := "v" + NatToString(k);
    assert s[1..] == NatToString(k) && !IsDigit(s[0]);
    assert DigitsOf(s) == DigitsOf(s[1..]);
    DigitsOfDigits(NatToString(k));
  }

  // ----- navigation -----

  /** `navigateVersion`'s target: one step, wrapping past either end. */
  function WrapIndex(current: int, direction: int, length: nat): (r: int)
    ensures length > 0 ==> 0 <= r < length
    ensures 0 <= current + direction < length ==> r == current + direction
    ensures current + direction < 0 ==> r == length - 1
    ensures current + direction >= length ==> r == 0
  {
    var newIndex := current + direction;
    if newIndex < 0 then length - 1
    else if newIndex >= length then 0
    else newIndex
  }

  /** Going back from the first version reaches the last; going on from the last reaches the first. */
  lemma WrapEnds(length: nat)
    requires length > 0
    ensures WrapIndex(0, -1, length) == length - 1
    ensures WrapIndex(length - 1, 1, length) == 0
  {
  }

  /** Forward then back, or back then forward, returns to the same version. */
  lemma WrapInverse(current: int, length: nat)
    requires 0 <= current < length
    ensures WrapIndex(WrapIndex(current, 1, length), -1, length) == current
    ensures WrapIndex(WrapIndex(current, -1, length), 1, length) == current
  {
  }

  function CurrentIndexOf(m: PageMetadata): int
  {
    m.currentIndex.GetOr(0)
  }

  /**
   * What `initializeWithVersionMetadata` stores for a page: a missing or empty
   * base path or page number falls back to its default, as `||` does.
   */
  function FromMetadata(page: int, m: PageMetadata): (r: PageVersions)
    ensures m.basePath.Some? && m.basePath.value != "" ==> r.basePath == m.basePath.value
    ensures m.basePath.None? || m.basePath.value == "" ==> r.basePath == "images/pages/"
    ensures m.pageNum.Some? && m.pageNum.value != "" ==> r.pageNum == m.pageNum.value
    ensures m.pageNum.None? || m.pageNum.value == "" ==> r.pageNum == PadStart(IntToString(page), 2, '0')
    ensures r.basePath != "" && r.pageNum != ""
    ensures r.versions == m.versions && r.currentIndex == CurrentIndexOf(m)
  {
    PageVersions(OrString(m.basePath, "images/pages/"), OrString(m.pageNum, PadStart(IntToString(page), 2, '0')),
                 m.versions, CurrentIndexOf(m))
  }

  /**
   * `getVersionDataForExport`: for each page with a selection and version
   * data, the number in the selected version's label. A selected index
   * outside the page's versions (on which the source throws) is omitted.
   */
  function VersionDataForExport(selected: map<int, int>, data: map<int, PageVersions>): (r: map<int, Option<nat>>)
    ensures forall p :: p in r <==> p in selected && p in data && 0 <= selected[p] < |data[p].versions|
    ensures forall p :: p in r ==> r[p] == LabelNumber(data[p].versions[selected[p]].versionLabel)
  {
    map p | p in selected && p in data && 0 <= selected[p] < |data[p].versions| ::
      LabelNumber(data[p].versions[selected[p]].versionLabel)
  }

  /** For detected versions the exported number of a selected position is that version's number. */
  lemma ExportDetectedVersion(selected: map<int, int>, data: map<int, PageVersions>, p: int, basePath: string, pageNum: string)
    requires p in selected && p in data && data[p].versions == DetectAvailableVersions(basePath, pageNum)
    requires 0 <= selected[p] < 3
    ensures p in VersionDataForExport(selected, data)
    ensures VersionDataForExport(selected, data)[p] == Some(data[p].versions[selected[p]].index)
  {
    LabelRoundTrip(selected[p] + 1);
  }

  /** A selected version labelled `v<k>`, whether detected or listed in the metadata, exports as `k`. */
  lemma ExportLabelledVersion(selected: map<int, int>, data: map<int, PageVersions>, p: int, k: nat)
    requires p in selected && p in data && 0 <= selected[p] < |data[p].versions|
    requires data[p].versions[selected[p]].versionLabel == "v" + NatToString(k)
    ensures p in VersionDataForExport(selected, data) && VersionDataForExport(selected, data)[p] == Some(k)
  {
    LabelRoundTrip(k);
  }

  /** The three maps once the pages in `done` have been taken in from the metadata. */
  ghost predicate Absorbed(metadata: map<int, PageMetadata>, entries: map<int, PageVersions>, done: set<int>,
                           current0: map<int, int>, selected0: map<int, int>,
                           data: map<int, PageVersions>, current: map<int, int>, selected: map<int, int>)
  {
    && done <= metadata.Keys
    && done <= entries.Keys
    && DataAbsorbed(entries, done, data)
    && CurrentAbsorbed(metadata, done, current0, current)
    && SelectedAbsorbed(metadata, done, selected0, selected)
  }

  /** The version data holds the entry of each page in `done` and nothing else. */
  ghost predicate DataAbsorbed(entries: map<int, PageVersions>, done: set<int>, data: map<int, PageVersions>)
    requires done <= entries.Keys
  {
    data.Keys == done && forall p :: p in data ==> data[p] == entries[p]
  }

  /** Each page in `done` views its current version; the other pages keep their position. */
  ghost predicate CurrentAbsorbed(metadata: map<int, PageMetadata>, done: set<int>,
                                  current0: map<int, int>, current: map<int, int>)
    requires done <= metadata.Keys
  {
    current.Keys == current0.Keys + done &&
    forall p :: p in current ==> current[p] == if p in done then CurrentIndexOf(metadata[p]) else current0[p]
  }

  /** Earlier selections stay; each page in `done` without one selects its current version. */
  ghost predicate SelectedAbsorbed(metadata: map<int, PageMetadata>, done: set<int>,
                                   selected0: map<int, int>, selected: map<int, int>)
    requires done <= metadata.Keys
  {
    && selected.Keys == selected0.Keys + done
    && (forall p :: p in selected0 ==> selected[p] == selected0[p])
    && (forall p :: p in done && p !in selected0 ==> selected[p] == CurrentIndexOf(metadata[p]))
  }

  /** Taking in one more page keeps `Absorbed`. */
  lemma AbsorbPage(metadata: map<int, PageMetadata>, entries: map<int, PageVersions>, done: set<int>,
                   current0: map<int, int>, selected0: map<int, int>,
                   data: map<int, PageVersions>, current: map<int, int>, selected: map<int, int>, page: int,
                   data': map<int, PageVersions>, current': map<int, int>, selected': map<int, int>)
    requires Absorbed(metadata, entries, done, current0, selected0, data, current, selected)
    requires page in metadata && page in entries && page !in done
    requires data' == data[page := entries[page]]
    requires current' == current[page := CurrentIndexOf(metadata[page])]
    requires selected' == if page in selected then selected else selected[page := CurrentIndexOf(metadata[page])]
    ensures Absorbed(metadata, entries, done + {page}, current0, selected0, data', current', selected')
  {
    AbsorbCurrent(metadata, done, current0, current, page);
    AbsorbSelected(metadata, done, selected0, selected, page);
  }

  lemma AbsorbCurrent(metadata: map<int, PageMetadata>, done: set<int>, current0: map<int, int>, current: map<int, int>,
                      page: int)
    requires done <= metadata.Keys && page in metadata
    requires CurrentAbsorbed(metadata, done, current0, current)
    ensures CurrentAbsorbed(metadata, done + {page}, current0, current[page := CurrentIndexOf(metadata[page])])
  {
  }

  lemma AbsorbSelected(metadata: map<int, PageMetadata>, done: set<int>, selected0: map<int, int>, selected: map<int, int>,
                       page: int)
    requires done <= metadata.Keys && page in metadata && page !in done
    requires SelectedAbsorbed(metadata, done, selected0, selected)
    ensures SelectedAbsorbed(metadata, done + {page}, selected0,
                             if page in selected then selected else selected[page := CurrentIndexOf(metadata[page])])
  {
  }

  /** A non-empty set of pages has a page in it. */
  lemma SomePage(pages: set<int>)
    requires pages != {}
    ensures exists p :: p in pages
  {
    if forall p :: p !in pages {
      assert false;
    }
  }

  /**
   * The loop of `initializeWithVersionMetadata` over the three maps: each
   * page of the metadata gets its entry and its current index, and a
   * selection when it has none yet.
   */
  method ApplyMetadata(metadata: map<int, PageMetadata>, entries: map<int, PageVersions>,
                       current0: map<int, int>, selected0: map<int, int>)
    returns (data: map<int, PageVersions>, current: map<int, int>, selected: map<int, int>)
    requires metadata.Keys <= entries.Keys
    ensures Absorbed(metadata, entries, metadata.Keys, current0, selected0, data, current, selected)
  {
    data := map[];
    current := current0;
    selected := selected0;
    var done: set<int> := {};
    var todo := metadata.Keys;
    while todo != {}
      invariant done <= metadata.Keys && todo == metadata.Keys - done
      invariant Absorbed(metadata, entries, done, current0, selected0, data, current, selected)
      decreases todo
    {
      SomePage(todo);
      var page :| page in todo;
      var index := CurrentIndexOf(metadata[page]);
      var data' := data[page := entries[page]];
      var current' := current[page := index];
      var selected' := selected;
      if page !in selected {
        selected' := selected[page := index];
      }
      AbsorbPage(metadata, entries, done, current0, selected0, data, current, selected, page, data', current', selected');
      data, current, selected := data', current', selected';
      done := done + {page};
      todo := todo - {page};
    }
    assert done == metadata.Keys;
  }

  /** The viewer's per-page maps. */
  class Viewer {
    var versionData: map<int, PageVersions>
    /** The currently viewed position per page. */
    var currentVersions: map<int, int>
    /** The approved position per page. */
    var selectedVersions: map<int, int>

    /** Every page with version data has a viewing position. */
    ghost predicate Valid()
      reads this
    {
      versionData.Keys <= currentVersions.Keys
    }

    /** A viewer with the selections saved earlier (`loadVersionSelections`) and no version data yet. */
    constructor(saved: map<int, int>)
      ensures Valid()
      ensures versionData == map[] && currentVersions == map[] && selectedVersions == saved
    {
      versionData := map[];
      currentVersions := map[];
      selectedVersions := saved;
    }

    /** `switchToVersion`: an unknown page, a missing card or an index out of range changes nothing. */
    method SwitchToVersion(page: int, versionIndex: int, hasCard: bool)
      requires Valid()
      modifies this`currentVersions
      ensures Valid()
      ensures currentVersions ==
              if page in versionData && 0 <= versionIndex < |versionData[page].versions| && hasCard
              then old(currentVersions)[page := versionIndex]
              else old(currentVersions)
    {
      if page !in versionData || versionIndex < 0 || versionIndex >= |versionData[page].versions| {
        return;
      }
      if !hasCard {
        return;
      }
      currentVersions := currentVersions[page := versionIndex];
    }

    /** `navigateVersion`: switch to the neighbouring version, wrapping around. */
    method NavigateVersion(page: int, direction: int, hasCard: bool)
      requires Valid()
      modifies this`currentVersions
      ensures Valid()
      ensures page !in versionData || !hasCard || |versionData[page].versions| == 0 ==> currentVersions == old(currentVersions)
      ensures page in versionData && hasCard && |versionData[page].versions| > 0 ==>
                currentVersions == old(currentVersions)[page :=
                  WrapIndex(old(currentVersions)[page], direction, |versionData[page].versions|)]
      ensures page in versionData && hasCard && |versionData[page].versions| > 0 ==>
                0 <= currentVersions[page] < |versionData[page].versions|
    {
      if page !in versionData {
        return;
      }
      var newIndex := WrapIndex(currentVersions[page], direction, |versionData[page].versions|);
      SwitchToVersion(page, newIndex, hasCard);
    }

    /**
     * `approveCurrentVersion`: the viewed position becomes the approved one,
     * and the version change for the registry is returned; without a viewed
     * position or version data nothing happens. A viewed position outside the
     * versions (on which the source throws after recording it) reports no change.
     */
    method ApproveCurrentVersion(page: int) returns (change: Option<LiveChanges.Change>)
      modifies this`selectedVersions
      ensures page !in currentVersions || page !in versionData ==>
                selectedVersions == old(selectedVersions) && change == None
      ensures page in currentVersions && page in versionData ==>
                selectedVersions == old(selectedVersions)[page := currentVersions[page]]
      ensures page in currentVersions && page in versionData && 0 <= currentVersions[page] < |versionData[page].versions| ==>
                change == Some(LiveChanges.VersionChange(page, versionData[page].versions[currentVersions[page]].index))
    {
      change := None;
      if page !in currentVersions {
        return;
      }
      var viewingIndex := currentVersions[page];
      if page !in versionData {
        return;
      }
      var data := versionData[page];
      selectedVersions := selectedVersions[page := viewingIndex];
      if 0 <= viewingIndex < |data.versions| {
        change := Some(LiveChanges.VersionChange(page, data.versions[viewingIndex].index));
      }
    }

    /**
     * `initializeWithVersionMetadata`: version data rebuilt from the metadata
     * alone, every listed page viewed at its current index (0 by default), and
     * a selection made only for pages without a saved one.
     */
    method InitializeWithVersionMetadata(metadata: map<int, PageMetadata>)
      requires Valid()
      modifies this`versionData, this`currentVersions, this`selectedVersions
      ensures Valid()
      ensures versionData.Keys == metadata.Keys
      ensures forall p :: p in metadata ==> versionData[p] == FromMetadata(p, metadata[p])
      ensures currentVersions.Keys == old(currentVersions).Keys + metadata.Keys
      ensures forall p :: p in currentVersions ==>
                currentVersions[p] == if p in metadata then CurrentIndexOf(metadata[p]) else old(currentVersions)[p]
      ensures selectedVersions.Keys == old(selectedVersions).Keys + metadata.Keys
      ensures forall p :: p in old(selectedVersions) ==> selectedVersions[p] == old(selectedVersions)[p]
      ensures forall p :: p in metadata && p !in old(selectedVersions) ==> selectedVersions[p] == CurrentIndexOf(metadata[p])
    {
      var entries := map p | p in metadata :: FromMetadata(p, metadata[p]);
      versionData, currentVersions, selectedVersions := ApplyMetadata(metadata, entries, currentVersions, selectedVersions);
    }

    /** `getVersionDataForExport` over the viewer's state. */
    function ExportedVersions(): (r: map<int, Option<nat>>)
      reads this
      ensures forall p :: p in r <==>
                p in selectedVersions && p in versionData && 0 <= selectedVersions[p] < |versionData[p].versions|
      ensures forall p :: p in r ==> r[p] == LabelNumber(versionData[p].versions[selectedVersions[p]].versionLabel)
    {
      VersionDataForExport(selectedVersions, versionData)
    }
  }
}
