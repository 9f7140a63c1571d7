/**
 * The live-changes registry: a record of what the user changed against the
 * original book data — global defaults, per-page text settings kept as a
 * list sorted by page number, and approved version numbers — with the
 * revert rules and the change counter.
 */
module LiveChanges {
  import opened Wrappers
  import Sorting

  /** A JSON value as change records hold it. */
  datatype Value = Str(s: string) | Num(n: real) | Bool(b: bool) | Null | Arr(items: seq<Value>)

  /** `m[k]`, with `None` for `undefined`. */
  function Lookup(m: map<string, Value>, k: string): Option<Value>
  {
    if k in m then Some(m[k]) else None
  }

  /** `a !== b`, with `None` for `undefined`; an array is an object, never identical to another one. */
  predicate StrictlyDiffers(a: Option<Value>, b: Option<Value>)
  {
    (a.Some? && a.value.Arr?) || (b.Some? && b.value.Arr?) || a != b
  }

  /** A scalar equal to the original is never a change; an array always is. */
  lemma StrictlyDiffersCases(v: Value)
    ensures !v.Arr? ==> !StrictlyDiffers(Some(v), Some(v))
    ensures v.Arr? ==> StrictlyDiffers(Some(v), Some(v))
    ensures StrictlyDiffers(Some(v), None)
  {
  }

  // ----- global defaults -----

  const GLOBAL_KEYS: seq<string> := ["font", "fontSize", "color"]

  /** The global delta over `keys`: each key `data` supplies with a value that differs from the original. */
  function GlobalDelta(data: map<string, Value>, original: map<string, Value>, keys: seq<string>): map<string, Value>
  {
    map k | k in data && k in keys && StrictlyDiffers(Some(data[k]), Lookup(original, k)) :: data[k]
  }

  /** Only font, size and colour are ever recorded, and settings equal to the original scalars record nothing. */
  lemma GlobalDeltaFacts(data: map<string, Value>, original: map<string, Value>)
    ensures GlobalDelta(data, original, GLOBAL_KEYS).Keys <= {"font", "fontSize", "color"}
    ensures (forall k :: k in original ==> !original[k].Arr?) ==> GlobalDelta(original, original, GLOBAL_KEYS) == map[]
  {
  }

  // ----- page entries -----

  /** A page's delta: the text settings that differ from the original page. */
  datatype PageEntry = PageEntry(pageNumber: int, text: map<string, Value>)

  function PageKey(e: PageEntry): int
  {
    e.pageNumber
  }

  /** Every entry records at least one change. */
  predicate NonEmptyTexts(pages: seq<PageEntry>)
  {
    forall i :: 0 <= i < |pages| ==> |pages[i].text| > 0
  }

  /** The recorded text of page `n`, if it has an entry. */
  function TextOf(pages: seq<PageEntry>, n: int): (r: Option<map<string, Value>>)
    ensures r.Some? ==> PageEntry(n, r.value) in pages
    ensures r.None? ==> forall i :: 0 <= i < |pages| ==> pages[i].pageNumber != n
  {
    if |pages| == 0 then None
    else if pages[0].pageNumber == n then Some(pages[0].text)
    else TextOf(pages[1..], n)
  }

  /** With distinct page numbers, an entry in the list is the one `TextOf` finds. */
  lemma TextOfFinds(pages: seq<PageEntry>, n: int, t: map<string, Value>)
    requires Sorting.DistinctKeys(pages, PageKey) && PageEntry(n, t) in pages
    ensures TextOf(pages, n) == Some(t)
  {
    var i :| 0 <= i < |pages| && pages[i] == PageEntry(n, t);
    var j :| 0 <= j < |pages| && pages[j] == PageEntry(n, TextOf(pages, n).value);
    assert PageKey(pages[i]) == PageKey(pages[j]);
  }

  /** Reordering entries with distinct page numbers does not change what each page records. */
  lemma TextOfPermutation(r: seq<PageEntry>, s: seq<PageEntry>, n: int)
    requires multiset(r) == multiset(s) && Sorting.DistinctKeys(s, PageKey) && Sorting.DistinctKeys(r, PageKey)
    ensures TextOf(r, n) == TextOf(s, n)
  {
    if TextOf(s, n).Some? {
      assert PageEntry(n, TextOf(s, n).value) in multiset(r);
      TextOfFinds(r, n, TextOf(s, n).value);
    }
    if TextOf(r, n).Some? {
      assert PageEntry(n, TextOf(r, n).value) in multiset(s);
      TextOfFinds(s, n, TextOf(r, n).value);
    }
  }

  /** `pages.findIndex(p => p.pageNumber === n)`. */
  function IndexOfPage(pages: seq<PageEntry>, n: int): (r: int)
    ensures -1 <= r < |pages|
    ensures r >= 0 ==> pages[r].pageNumber == n
    ensures r == -1 ==> forall i :: 0 <= i < |pages| ==> pages[i].pageNumber != n
  {
    if |pages| == 0 then -1
    else if pages[0].pageNumber == n then 0
    else
      var r := IndexOfPage(pages[1..], n);
      if r == -1 then -1 else r + 1
  }

  /** `pages.filter(p => p.pageNumber !== n)`. */
  function RemovePage(pages: seq<PageEntry>, n: int): (r: seq<PageEntry>)
    ensures forall x :: x in r <==> x in pages && x.pageNumber != n
  {
    if |pages| == 0 then []
    else (if pages[0].pageNumber == n then [] else [pages[0]]) + RemovePage(pages[1..], n)
  }

  /** Filtering out a page keeps the remaining page numbers distinct. */
  lemma {:induction false} RemovePageKeepsDistinct(pages: seq<PageEntry>, n: int)
    requires Sorting.DistinctKeys(pages, PageKey)
    ensures Sorting.DistinctKeys(RemovePage(pages, n), PageKey)
  {
    if |pages| > 0 {
      var rest := RemovePage(pages[1..], n);
      RemovePageKeepsDistinct(pages[1..], n);
      if pages[0].pageNumber != n {
        var r := [pages[0]] + rest;
        assert RemovePage(pages, n) == r;
        forall k | 1 <= k < |r| ensures PageKey(r[0]) != PageKey(r[k]) {
          assert r[k] == rest[k - 1] && rest[k - 1] in pages[1..];
        }
      }
    }
  }

  /** Filtering out a page keeps the remaining pages in order. */
  lemma {:induction false} RemovePageKeepsSorted(pages: seq<PageEntry>, n: int)
    requires Sorting.SortedBy(pages, PageKey)
    ensures Sorting.SortedBy(RemovePage(pages, n), PageKey)
  {
    if |pages| > 0 {
      var rest := RemovePage(pages[1..], n);
      RemovePageKeepsSorted(pages[1..], n);
      if pages[0].pageNumber != n {
        var r := [pages[0]] + rest;
        assert RemovePage(pages, n) == r;
        forall k | 1 <= k < |r| ensures PageKey(r[0]) <= PageKey(r[k]) {
          assert r[k] == rest[k - 1] && rest[k - 1] in pages[1..];
        }
      }
    }
  }

  /** Filtering out page `n`, whose own text may be empty, leaves every other page's record as it was. */
  lemma RemovePageFacts(pages: seq<PageEntry>, n: int)
    requires Sorting.DistinctKeys(pages, PageKey)
    requires forall i :: 0 <= i < |pages| && pages[i].pageNumber != n ==> |pages[i].text| > 0
    ensures var r := RemovePage(pages, n);
            Sorting.DistinctKeys(r, PageKey) && NonEmptyTexts(r) &&
            (Sorting.SortedBy(pages, PageKey) ==> Sorting.SortedBy(r, PageKey)) &&
            TextOf(r, n) == None &&
            forall m :: m != n ==> TextOf(r, m) == TextOf(pages, m)
  {
    var r := RemovePage(pages, n);
    RemovePageKeepsDistinct(pages, n);
    if Sorting.SortedBy(pages, PageKey) {
      RemovePageKeepsSorted(pages, n);
    }
    assert forall k :: 0 <= k < |r| ==> r[k] in pages;
    forall m | m != n ensures TextOf(r, m) == TextOf(pages, m) {
      if TextOf(pages, m).Some? {
        TextOfFinds(r, m, TextOf(pages, m).value);
      }
    }
  }

  /** Find-or-create the entry of page `n` and set its text. */
  function WithPage(pages: seq<PageEntry>, n: int, text: map<string, Value>): seq<PageEntry>
  {
    var i := IndexOfPage(pages, n);
    if i < 0 then pages + [PageEntry(n, text)] else pages[i := PageEntry(n, text)]
  }

  lemma WithPageFacts(pages: seq<PageEntry>, n: int, text: map<string, Value>)
    requires Sorting.DistinctKeys(pages, PageKey)
    ensures var w := WithPage(pages, n, text);
            Sorting.DistinctKeys(w, PageKey) && TextOf(w, n) == Some(text) &&
            (forall m :: m != n ==> TextOf(w, m) == TextOf(pages, m)) &&
            (NonEmptyTexts(pages) && |text| > 0 ==> NonEmptyTexts(w))
  {
    var w := WithPage(pages, n, text);
    var p := WithPageAt(pages, n, text);
    WithPageDistinct(pages, n, text, p);
    TextOfFinds(w, n, text);
    forall m | m != n ensures TextOf(w, m) == TextOf(pages, m) {
      if TextOf(pages, m).Some? {
        var k :| 0 <= k < |pages| && pages[k] == PageEntry(m, TextOf(pages, m).value);
        assert k != p && w[k] == pages[k];
        TextOfFinds(w, m, TextOf(pages, m).value);
      }
    }
  }

  /** `WithPage` puts the new entry at position `p` (the old entry's, or the end) and keeps every other entry. */
  lemma WithPageAt(pages: seq<PageEntry>, n: int, text: map<string, Value>) returns (p: nat)
    ensures var w := WithPage(pages, n, text);
            p < |w| && |pages| <= |w| <= |pages| + 1 && w[p] == PageEntry(n, text) &&
            (p < |pages| ==> pages[p].pageNumber == n && |w| == |pages|) &&
            (p == |pages| ==> forall k :: 0 <= k < |pages| ==> pages[k].pageNumber != n) &&
            forall k :: 0 <= k < |w| && k != p ==> w[k] == pages[k]
  {
    var i := IndexOfPage(pages, n);
    if i >= 0 {
      p := i;
    } else {
      p := |pages|;
    }
  }

  /** Only the entry at `p` carries number `n`, so the numbers stay distinct. */
  lemma WithPageDistinct(pages: seq<PageEntry>, n: int, text: map<string, Value>, p: nat)
    requires Sorting.DistinctKeys(pages, PageKey)
    requires var w := WithPage(pages, n, text);
             p < |w| && |pages| <= |w| <= |pages| + 1 && w[p] == PageEntry(n, text) &&
             (p < |pages| ==> pages[p].pageNumber == n && |w| == |pages|) &&
             (p == |pages| ==> forall k :: 0 <= k < |pages| ==> pages[k].pageNumber != n) &&
             forall k :: 0 <= k < |w| && k != p ==> w[k] == pages[k]
    ensures Sorting.DistinctKeys(WithPage(pages, n, text), PageKey)
  {
    var w := WithPage(pages, n, text);
    forall a, b | 0 <= a < b < |w| ensures PageKey(w[a]) != PageKey(w[b]) {
      if a == p {
        assert w[b] == pages[b] && PageKey(pages[b]) != n by {
          if p < |pages| {
            assert PageKey(pages[p]) != PageKey(pages[b]);
          }
        }
      } else if b == p {
        assert w[a] == pages[a] && PageKey(pages[a]) != n by {
          if p < |pages| {
            assert PageKey(pages[a]) != PageKey(pages[p]);
          }
        }
      } else {
        assert PageKey(pages[a]) != PageKey(pages[b]);
      }
    }
  }

  /** Sorting entries with distinct numbers keeps every page's record. */
  lemma SortedFacts(sorted: seq<PageEntry>, work: seq<PageEntry>)
    requires multiset(sorted) == multiset(work) && Sorting.DistinctKeys(work, PageKey) && NonEmptyTexts(work)
    ensures Sorting.DistinctKeys(sorted, PageKey) && NonEmptyTexts(sorted)
    ensures forall n :: TextOf(sorted, n) == TextOf(work, n)
  {
    Sorting.PermutationKeepsDistinctKeys(sorted, work, PageKey);
    forall n ensures TextOf(sorted, n) == TextOf(work, n) {
      TextOfPermutation(sorted, work, n);
    }
    forall k | 0 <= k < |sorted| ensures |sorted[k].text| > 0 {
      assert sorted[k] in multiset(work);
    }
  }

  // ----- page updates -----

  /** A `(key, value)` pair of `changes` whose value differs from the original's. */
  predicate Differs(e: (string, Value), original: map<string, Value>)
  {
    StrictlyDiffers(Some(e.1), Lookup(original, e.0))
  }

  predicate AnyDiffers(entries: seq<(string, Value)>, original: map<string, Value>)
  {
    exists i :: 0 <= i < |entries| && Differs(entries[i], original)
  }

  /** Some differing pair writes key `k`. */
  predicate WritesKey(entries: seq<(string, Value)>, original: map<string, Value>, k: string)
  {
    exists i :: 0 <= i < |entries| && entries[i].0 == k && Differs(entries[i], original)
  }

  /** `text` after writing, in order, every pair of `entries` that differs from the original. */
  function WriteDiffering(text: map<string, Value>, entries: seq<(string, Value)>, original: map<string, Value>)
    : map<string, Value>
    decreases |entries|
  {
    if |entries| == 0 then text
    else
      var e := entries[0];
      WriteDiffering(if Differs(e, original) then text[e.0 := e.1] else text, entries[1..], original)
  }

  lemma WritesKeyCons(entries: seq<(string, Value)>, original: map<string, Value>, k: string)
    requires |entries| > 0
    ensures WritesKey(entries, original, k) <==>
            (entries[0].0 == k && Differs(entries[0], original)) || WritesKey(entries[1..], original, k)
  {
    if WritesKey(entries, original, k) {
      var i :| 0 <= i < |entries| && entries[i].0 == k && Differs(entries[i], original);
      if i > 0 {
        assert entries[1..][i - 1] == entries[i];
      }
    }
    if WritesKey(entries[1..], original, k) {
      var i :| 0 <= i < |entries[1..]| && entries[1..][i].0 == k && Differs(entries[1..][i], original);
      assert entries[i + 1] == entries[1..][i];
    }
  }

  /** Exactly the written keys are added; every key no pair writes keeps its value. */
  lemma {:induction false} WriteDifferingKeys(text: map<string, Value>, entries: seq<(string, Value)>,
                                               original: map<string, Value>, k: string)
    ensures k in WriteDiffering(text, entries, original) <==> k in text || WritesKey(entries, original, k)
    ensures k in text && !WritesKey(entries, original, k) ==> WriteDiffering(text, entries, original)[k] == text[k]
    decreases |entries|
  {
    if |entries| > 0 {
      var e := entries[0];
      WritesKeyCons(entries, original, k);
      WriteDifferingKeys(if Differs(e, original) then text[e.0 := e.1] else text, entries[1..], original, k);
    }
  }

  /** A call with a differing pair leaves a non-empty text. */
  lemma WriteDifferingNonEmpty(text: map<string, Value>, entries: seq<(string, Value)>, original: map<string, Value>)
    requires AnyDiffers(entries, original)
    ensures |WriteDiffering(text, entries, original)| > 0
  {
    var i :| 0 <= i < |entries| && Differs(entries[i], original);
    assert WritesKey(entries, original, entries[i].0);
    WriteDifferingKeys(text, entries, original, entries[i].0);
  }

  lemma AnyDiffersCons(entries: seq<(string, Value)>, original: map<string, Value>)
    requires |entries| > 0
    ensures AnyDiffers(entries, original) <==> Differs(entries[0], original) || AnyDiffers(entries[1..], original)
  {
    if AnyDiffers(entries, original) {
      var i :| 0 <= i < |entries| && Differs(entries[i], original);
      if i > 0 {
        assert entries[1..][i - 1] == entries[i];
      }
    }
    if AnyDiffers(entries[1..], original) {
      var i :| 0 <= i < |entries[1..]| && Differs(entries[1..][i], original);
      assert entries[i + 1] == entries[1..][i];
    }
  }

  // ----- the change counter -----

  /** The number of text keys over all page entries. */
  function TextKeyCount(pages: seq<PageEntry>): nat
  {
    if |pages| == 0 then 0 else TextKeyCount(pages[..|pages| - 1]) + |pages[|pages| - 1].text|
  }

  /** `calculateTotalChanges` as a value: global keys, page text keys and version selections. */
  function TotalChanges(globals: map<string, Value>, pages: seq<PageEntry>, versions: map<int, int>): nat
  {
    |globals| + TextKeyCount(pages) + |versions|
  }

  /** Each entry records at least one key, so there are at least as many text keys as entries. */
  lemma {:induction false} TextKeysAtLeastEntries(pages: seq<PageEntry>)
    requires NonEmptyTexts(pages)
    ensures TextKeyCount(pages) >= |pages|
  {
    if |pages| > 0 {
      TextKeysAtLeastEntries(pages[..|pages| - 1]);
    }
  }

  /** The counter is zero exactly when nothing is recorded (the "revert all" button is then disabled). */
  lemma NoChangesIff(globals: map<string, Value>, pages: seq<PageEntry>, versions: map<int, int>)
    requires NonEmptyTexts(pages)
    ensures TotalChanges(globals, pages, versions) == 0 <==> globals == map[] && pages == [] && versions == map[]
  {
    TextKeysAtLeastEntries(pages);
    if |globals| == 0 {
      assert globals == map[];
    }
    if |versions| == 0 {
      assert versions == map[];
    }
  }

  /** One change of the page editor or the version viewer; `Unknown` is any other change type. */
  datatype Change =
    | GlobalChange(settings: map<string, Value>)
    | PageChange(pageNumber: int, changes: seq<(string, Value)>)
    | VersionChange(pageNumber: int, version: int)
    | UnknownChange(changeType: string)

  class ChangeRegistry {
    var globalDefaults: map<string, Value>
    /** Page entries, ascending by page number, at most one per page. */
    var pages: seq<PageEntry>
    /** Approved version number per page, for versions other than 1. */
    var selectedVersions: map<int, int>
    /** The original global defaults and page text specs the deltas are taken against. */
    const originalGlobals: map<string, Value>
    const originalPages: map<int, map<string, Value>>

    ghost predicate Valid()
      reads this
    {
      Sorting.SortedBy(pages, PageKey) && Sorting.DistinctKeys(pages, PageKey) && NonEmptyTexts(pages)
    }

    /** A fresh registry: no deltas, against the given original data. */
    constructor(originalGlobals: map<string, Value>, originalPages: map<int, map<string, Value>>)
      ensures Valid()
      ensures this.originalGlobals == originalGlobals && this.originalPages == originalPages
      ensures globalDefaults == map[] && pages == [] && selectedVersions == map[]
    {
      this.originalGlobals := originalGlobals;
      this.originalPages := originalPages;
      globalDefaults := map[];
      pages := [];
      selectedVersions := map[];
    }

    function OriginalPage(n: int): map<string, Value>
    {
      if n in originalPages then originalPages[n] else map[]
    }

    /** `updateGlobalChanges`: the global delta is replaced by the supplied settings that differ from the original. */
    method UpdateGlobalChanges(data: map<string, Value>)
      modifies this`globalDefaults
      ensures globalDefaults == GlobalDelta(data, originalGlobals, GLOBAL_KEYS)
    {
      var changes := map[];
      for i := 0 to |GLOBAL_KEYS|
        invariant changes == GlobalDelta(data, originalGlobals, GLOBAL_KEYS[..i])
      {
        var key := GLOBAL_KEYS[i];
        assert GLOBAL_KEYS[..i + 1] == GLOBAL_KEYS[..i] + [key];
        if key in data && StrictlyDiffers(Some(data[key]), Lookup(originalGlobals, key)) {
          changes := changes[key := data[key]];
        }
      }
      assert GLOBAL_KEYS[..|GLOBAL_KEYS|] == GLOBAL_KEYS;
      globalDefaults := changes;
    }

    /**
     * `updatePageChanges`: the page's entry (created empty if absent) gets
     * every pair that differs from the original page, keeping earlier keys;
     * a call in which nothing differs drops the entry altogether; the list
     * is then sorted by page number. No other page changes.
     */
    method UpdatePageChanges(pageNumber: int, changes: seq<(string, Value)>)
      requires Valid()
      modifies this`pages
      ensures Valid()
      ensures TextOf(pages, pageNumber) ==
              if AnyDiffers(changes, OriginalPage(pageNumber))
              then Some(WriteDiffering(old(TextOf(pages, pageNumber)).GetOr(map[]), changes, OriginalPage(pageNumber)))
              else None
      ensures forall n :: n != pageNumber ==> TextOf(pages, n) == old(TextOf(pages, n))
    {
      var original := OriginalPage(pageNumber);
      var current := pages;
      var start := TextOf(current, pageNumber).GetOr(map[]);
      var text := start;
      var hasChanges := false;
      for j := 0 to |changes|
        invariant WriteDiffering(text, changes[j..], original) == WriteDiffering(start, changes, original)
        invariant (hasChanges || AnyDiffers(changes[j..], original)) == AnyDiffers(changes, original)
        invariant hasChanges ==> |text| > 0
      {
        var (key, value) := changes[j];
        assert changes[j..][0] == (key, value) && changes[j..][1..] == changes[j + 1..];
        AnyDiffersCons(changes[j..], original);
        if StrictlyDiffers(Some(value), Lookup(original, key)) {
          text := text[key := value];
          hasChanges := true;
        }
      }
      assert !hasChanges ==> !AnyDiffers(changes, original);
      if hasChanges {
        WriteDifferingNonEmpty(start, changes, original);
      }
      WithPageFacts(current, pageNumber, text);
      var work := WithPage(current, pageNumber, text);
      if !hasChanges || |text| == 0 {
        RemovePageFacts(work, pageNumber);
        work := RemovePage(work, pageNumber);
      }
      var sorted := Sorting.SortBy(work, PageKey);
      SortedFacts(sorted, work);
      pages := sorted;
    }

    /** `updateVersionChanges`: version 1, the default, clears the page's selection; any other version records it. */
    method UpdateVersionChanges(pageNumber: int, version: int)
      modifies this`selectedVersions
      ensures selectedVersions == if version != 1 then old(selectedVersions)[pageNumber := version]
                                  else old(selectedVersions) - {pageNumber}
    {
      if version != 1 {
        selectedVersions := selectedVersions[pageNumber := version];
      } else {
        selectedVersions := selectedVersions - {pageNumber};
      }
    }

    /** `registerChange`: dispatches on the change type; an unknown type changes nothing. */
    method RegisterChange(c: Change)
      requires Valid()
      modifies this`globalDefaults, this`pages, this`selectedVersions
      ensures Valid()
      ensures !c.GlobalChange? ==> globalDefaults == old(globalDefaults)
      ensures !c.PageChange? ==> pages == old(pages)
      ensures !c.VersionChange? ==> selectedVersions == old(selectedVersions)
      ensures c.GlobalChange? ==> globalDefaults == GlobalDelta(c.settings, originalGlobals, GLOBAL_KEYS)
      ensures c.PageChange? ==>
                TextOf(pages, c.pageNumber) ==
                  (if AnyDiffers(c.changes, OriginalPage(c.pageNumber))
                   then Some(WriteDiffering(old(TextOf(pages, c.pageNumber)).GetOr(map[]), c.changes, OriginalPage(c.pageNumber)))
                   else None) &&
                forall n :: n != c.pageNumber ==> TextOf(pages, n) == old(TextOf(pages, n))
      ensures c.VersionChange? ==>
                selectedVersions == if c.version != 1 then old(selectedVersions)[c.pageNumber := c.version]
                                    else old(selectedVersions) - {c.pageNumber}
    {
      match c {
        case GlobalChange(settings) => UpdateGlobalChanges(settings);
        case PageChange(pageNumber, changes) => UpdatePageChanges(pageNumber, changes);
        case VersionChange(pageNumber, version) => UpdateVersionChanges(pageNumber, version);
        case UnknownChange(_) =>
      }
    }

    /** `calculateTotalChanges`. */
    method CalculateTotalChanges() returns (count: nat)
      ensures count == TotalChanges(globalDefaults, pages, selectedVersions)
    {
      count := |globalDefaults|;
      for i := 0 to |pages|
        invariant count == |globalDefaults| + TextKeyCount(pages[..i])
      {
        assert pages[..i + 1][..i] == pages[..i];
        count := count + |pages[i].text|;
      }
      assert pages[..|pages|] == pages;
      count := count + |selectedVersions|;
    }

    /** `revertPageChanges`: drops only that page's entry and its version selection. */
    method RevertPageChanges(pageNumber: int)
      requires Valid()
      modifies this`pages, this`selectedVersions
      ensures Valid()
      ensures TextOf(pages, pageNumber) == None
      ensures forall n :: n != pageNumber ==> TextOf(pages, n) == old(TextOf(pages, n))
      ensures selectedVersions == old(selectedVersions) - {pageNumber}
    {
      RemovePageFacts(pages, pageNumber);
      pages := RemovePage(pages, pageNumber);
      selectedVersions := selectedVersions - {pageNumber};
    }

    /** `revertGlobalChanges`: empties only the global delta. */
    method RevertGlobalChanges()
      modifies this`globalDefaults
      ensures globalDefaults == map[]
    {
      globalDefaults := map[];
    }

    /** `revertAllChanges`, once confirmed: back to an empty record. */
    method RevertAllChanges(confirmed: bool)
      requires Valid()
      modifies this`globalDefaults, this`pages, this`selectedVersions
      ensures Valid()
      ensures !confirmed ==> globalDefaults == old(globalDefaults) && pages == old(pages) && selectedVersions == old(selectedVersions)
      ensures confirmed ==> globalDefaults == map[] && pages == [] && selectedVersions == map[]
    {
      if !confirmed {
        return;
      }
      globalDefaults := map[];
      pages := [];
      selectedVersions := map[];
    }
  }
}
