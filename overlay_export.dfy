/**
 * The text tester's "export all pages": the overlays of every page are
 * grouped by page number (an overlay without one goes to the `'unknown'`
 * group), the groups are emitted in ascending page order, each as one text
 * object or, for several overlays, an array of them, and merged into the
 * story page of that number when the story has one.
 */
module OverlayExport {
  import opened Wrappers
  import opened JsMath
  import LiveChanges
  import Sorting
  import OverlayEditor

  type OverlayData = OverlayEditor.OverlayData

  /** One exported text, in the format the print renderer reads. */
  datatype PillowText = PillowText(
    content: string,
    position: string,
    font: string,
    fontSize: real,
    lineHeight: real,
    letterSpacing: real,
    color: string,
    align: string,
    leftPercent: real,
    topPercent: real,
    widthPercent: real,
    heightPercent: real)

  /** `convertToPillowFormat`. */
  function ConvertToPillowFormat(o: OverlayData): PillowText
  {
    PillowText(o.content, "custom", OrString(Some(o.fontFamily), "Quicksand"), o.fontSize,
               OrNumber(Some(o.lineHeight), 1.2), OrNumber(Some(o.letterSpacing), 0.0), o.color, o.align,
               Round2(o.leftPercent), Round2(o.topPercent), Round2(o.widthPercent), Round2(o.heightPercent))
  }

  /**
   * The exported text is always custom-positioned, takes the stock font and
   * line height where the overlay has none, keeps the letter spacing (a zero
   * spacing falls back to zero), and moves each percentage by at most half
   * a hundredth.
   */
  lemma PillowFormatFields(o: OverlayData)
    ensures var t := ConvertToPillowFormat(o);
            && t.position == "custom"
            && t.content == o.content && t.fontSize == o.fontSize && t.color == o.color && t.align == o.align
            && (o.fontFamily == "" ==> t.font == "Quicksand") && (o.fontFamily != "" ==> t.font == o.fontFamily)
            && (o.lineHeight == 0.0 ==> t.lineHeight == 1.2) && (o.lineHeight != 0.0 ==> t.lineHeight == o.lineHeight)
            && t.letterSpacing == o.letterSpacing
            && o.leftPercent - 0.005 <= t.leftPercent <= o.leftPercent + 0.005
            && o.topPercent - 0.005 <= t.topPercent <= o.topPercent + 0.005
            && o.widthPercent - 0.005 <= t.widthPercent <= o.widthPercent + 0.005
            && o.heightPercent - 0.005 <= t.heightPercent <= o.heightPercent + 0.005
  {
  }

  /** A percentage that already has at most two decimals is exported unchanged. */
  lemma HundredthsKept(k: int)
    ensures Round2(k as real / 100.0) == k as real / 100.0
  {
    var x := k as real / 100.0;
    if k >= 0 {
      assert x * 100.0 + 0.5 == k as real + 0.5;
      assert (x * 100.0 + 0.5).Floor == k;
    } else {
      assert (-x) * 100.0 + 0.5 == (-k) as real + 0.5;
      assert ((-x) * 100.0 + 0.5).Floor == -k;
    }
  }

  // ----- grouping -----

  /** A key of `pageGroups`: a page number, or `'unknown'`. */
  datatype GroupKey = PageKey(n: int) | Unknown

  /** `overlay.pageNumber || 'unknown'`. */
  function KeyOf(o: OverlayData): (k: GroupKey)
    ensures k.PageKey? <==> o.pageNumber.Some? && o.pageNumber.value != 0
    ensures k.PageKey? ==> k.n == o.pageNumber.value
  {
    if o.pageNumber.Some? && o.pageNumber.value != 0 then PageKey(o.pageNumber.value) else Unknown
  }

  /** The overlays of group `k`, in the order they were added. */
  function Group(s: seq<OverlayData>, k: GroupKey): (g: seq<OverlayData>)
    ensures |g| <= |s|
    ensures forall i :: 0 <= i < |g| ==> KeyOf(g[i]) == k
  {
    if |s| == 0 then []
    else Group(s[..|s| - 1], k) + (if KeyOf(s[|s| - 1]) == k then [s[|s| - 1]] else [])
  }

  lemma GroupAppend(s: seq<OverlayData>, o: OverlayData, k: GroupKey)
    ensures Group(s + [o], k) == Group(s, k) + (if KeyOf(o) == k then [o] else [])
  {
    assert (s + [o])[..|s|] == s;
  }

  /** The keys that have at least one overlay. */
  function Keys(s: seq<OverlayData>): set<GroupKey>
  {
    set i | 0 <= i < |s| :: KeyOf(s[i])
  }

  lemma KeysAppend(s: seq<OverlayData>, o: OverlayData)
    ensures Keys(s + [o]) == Keys(s) + {KeyOf(o)}
  {
    var r := s + [o];
    assert forall i :: 0 <= i < |s| ==> r[i] == s[i];
    assert r[|s|] == o;
  }

  /** A group is non-empty exactly when its key occurs. */
  lemma {:induction false} GroupNonEmpty(s: seq<OverlayData>, k: GroupKey)
    ensures |Group(s, k)| > 0 <==> k in Keys(s)
  {
    if |s| > 0 {
      var init := s[..|s| - 1];
      GroupNonEmpty(init, k);
      assert s == init + [s[|s| - 1]];
      KeysAppend(init, s[|s| - 1]);
    }
  }

  /** The overlays whose key is in `ks`, in order. */
  function GroupsIn(s: seq<OverlayData>, ks: set<GroupKey>): seq<OverlayData>
  {
    if |s| == 0 then []
    else GroupsIn(s[..|s| - 1], ks) + (if KeyOf(s[|s| - 1]) in ks then [s[|s| - 1]] else [])
  }

  lemma {:induction false} GroupsInAdd(s: seq<OverlayData>, ks: set<GroupKey>, k: GroupKey)
    requires k !in ks
    ensures multiset(GroupsIn(s, ks + {k})) == multiset(GroupsIn(s, ks)) + multiset(Group(s, k))
  {
    if |s| > 0 {
      var init, o := s[..|s| - 1], s[|s| - 1];
      GroupsInAdd(init, ks, k);
      if KeyOf(o) == k {
        assert GroupsIn(s, ks + {k}) == GroupsIn(init, ks + {k}) + [o];
        assert GroupsIn(s, ks) == GroupsIn(init, ks);
        assert Group(s, k) == Group(init, k) + [o];
      } else if KeyOf(o) in ks {
        assert GroupsIn(s, ks + {k}) == GroupsIn(init, ks + {k}) + [o];
        assert GroupsIn(s, ks) == GroupsIn(init, ks) + [o];
        assert Group(s, k) == Group(init, k);
      } else {
        assert GroupsIn(s, ks + {k}) == GroupsIn(init, ks + {k});
        assert GroupsIn(s, ks) == GroupsIn(init, ks);
        assert Group(s, k) == Group(init, k);
      }
    }
  }

  lemma {:induction false} GroupsInAll(s: seq<OverlayData>, ks: set<GroupKey>)
    requires Keys(s) <= ks
    ensures GroupsIn(s, ks) == s
  {
    if |s| > 0 {
      var init := s[..|s| - 1];
      KeysAppend(init, s[|s| - 1]);
      assert s == init + [s[|s| - 1]];
      GroupsInAll(init, ks);
    }
  }

  function KeySet(keys: seq<GroupKey>): set<GroupKey>
  {
    set k | k in keys
  }

  /** The groups of `keys`, one after the other. */
  function Concat(s: seq<OverlayData>, keys: seq<GroupKey>): seq<OverlayData>
  {
    if |keys| == 0 then [] else Concat(s, keys[..|keys| - 1]) + Group(s, keys[|keys| - 1])
  }

  lemma {:induction false} ConcatGroupsIn(s: seq<OverlayData>, keys: seq<GroupKey>)
    requires forall i, j :: 0 <= i < j < |keys| ==> keys[i] != keys[j]
    ensures multiset(Concat(s, keys)) == multiset(GroupsIn(s, KeySet(keys)))
  {
    if |keys| == 0 {
      assert KeySet(keys) == {};
      GroupsInEmpty(s);
    } else {
      var init := keys[..|keys| - 1];
      var last := keys[|keys| - 1];
      ConcatGroupsIn(s, init);
      var ks := KeySet(init);
      assert keys == init + [last];
      assert KeySet(keys) == ks + {last};
      assert last !in ks;
      GroupsInAdd(s, ks, last);
    }
  }

  lemma {:induction false} GroupsInEmpty(s: seq<OverlayData>)
    ensures GroupsIn(s, {}) == []
  {
    if |s| > 0 {
      GroupsInEmpty(s[..|s| - 1]);
    }
  }

  /**
   * Every overlay lands in exactly one group: taking the groups of all the
   * keys that occur, each once, gives back the overlays.
   */
  lemma GroupsPartition(s: seq<OverlayData>, keys: seq<GroupKey>)
    requires forall i, j :: 0 <= i < j < |keys| ==> keys[i] != keys[j]
    requires KeySet(keys) == Keys(s)
    ensures multiset(Concat(s, keys)) == multiset(s)
  {
    ConcatGroupsIn(s, keys);
    GroupsInAll(s, Keys(s));
  }

  // ----- page objects -----

  /** A page of the story file: its number and its other properties (`text` among them). */
  datatype StoryJsonPage = StoryJsonPage(pageNumber: int, fields: map<string, LiveChanges.Value>)

  /** `getStoryJsonPage(n)`: the first story page with that number. */
  function FindStoryPage(story: seq<StoryJsonPage>, n: int): (r: Option<StoryJsonPage>)
    ensures r.Some? ==> r.value in story && r.value.pageNumber == n
    ensures r.None? ==> forall i :: 0 <= i < |story| ==> story[i].pageNumber != n
  {
    if |story| == 0 then None
    else if story[0].pageNumber == n then Some(story[0])
    else FindStoryPage(story[1..], n)
  }

  /** A page's `text`: one object, or an array of them. */
  datatype TextData = One(t: PillowText) | Many(ts: seq<PillowText>)

  function Texts(d: TextData): seq<PillowText>
  {
    match d
    case One(t) => [t]
    case Many(ts) => ts
  }

  /** The `text` of a group: one object for a single overlay, an array otherwise. */
  function TextDataOf(g: seq<OverlayData>): (d: TextData)
    ensures d.One? <==> |g| == 1
    ensures |Texts(d)| == |g|
    ensures forall i :: 0 <= i < |g| ==> Texts(d)[i] == ConvertToPillowFormat(g[i])
  {
    if |g| == 1 then One(ConvertToPillowFormat(g[0]))
    else Many(seq(|g|, i requires 0 <= i < |g| => ConvertToPillowFormat(g[i])))
  }

  /**
   * An exported page: its number, the story page's other properties (none
   * for a page the story lacks) and the exported text, which takes the place
   * of any `text` property among them. `None` is the `NaN` that
   * `parseInt('unknown')` gives.
   */
  datatype OutPage = OutPage(pageNumber: Option<int>, fields: map<string, LiveChanges.Value>, text: TextData)

  function OutKey(p: OutPage): GroupKey
  {
    if p.pageNumber.Some? then PageKey(p.pageNumber.value) else Unknown
  }

  /** The exported page of group `k`. */
  function PageFor(k: GroupKey, g: seq<OverlayData>, story: seq<StoryJsonPage>): (p: OutPage)
    ensures OutKey(p) == k
    ensures p.text == TextDataOf(g)
  {
    match k
    case Unknown => OutPage(None, map[], TextDataOf(g))
    case PageKey(n) =>
      match FindStoryPage(story, n)
      case Some(existing) => OutPage(Some(n), existing.fields, TextDataOf(g))
      case None => OutPage(Some(n), map[], TextDataOf(g))
  }

  /**
   * A page the story has keeps every property but `text`; any other page
   * is just a number and a text.
   */
  lemma MergeKeepsStoryFields(n: int, g: seq<OverlayData>, story: seq<StoryJsonPage>)
    ensures var p := PageFor(PageKey(n), g, story);
            && p.pageNumber == Some(n)
            && (FindStoryPage(story, n).Some? ==> p.fields == FindStoryPage(story, n).value.fields)
            && (FindStoryPage(story, n).None? ==> p.fields == map[])
  {
  }

  /** Page groups come in ascending page order; the `'unknown'` group comes last. */
  predicate KeyBefore(a: GroupKey, b: GroupKey)
  {
    a.PageKey? && (b.Unknown? || a.n < b.n)
  }

  /** `groups` holds exactly the groups of `s`. */
  ghost predicate GroupsOf(groups: map<GroupKey, seq<OverlayData>>, s: seq<OverlayData>)
  {
    groups.Keys == Keys(s) && forall k :: k in groups ==> groups[k] == Group(s, k)
  }

  /** The page of `s` appended to its group, the group created when it first occurs. */
  function AddToGroup(groups: map<GroupKey, seq<OverlayData>>, o: OverlayData): map<GroupKey, seq<OverlayData>>
  {
    groups[KeyOf(o) := (if KeyOf(o) in groups then groups[KeyOf(o)] else []) + [o]]
  }

  lemma GroupStep(groups: map<GroupKey, seq<OverlayData>>, s: seq<OverlayData>, o: OverlayData)
    requires GroupsOf(groups, s)
    ensures GroupsOf(AddToGroup(groups, o), s + [o])
  {
    KeysAppend(s, o);
    GroupNonEmpty(s, KeyOf(o));
    forall k | k in AddToGroup(groups, o) ensures AddToGroup(groups, o)[k] == Group(s + [o], k) {
      GroupAppend(s, o, k);
      if k != KeyOf(o) {
        GroupNonEmpty(s + [o], k);
      }
    }
  }

  /**
   * The grouping loop of `exportAllPages`: each overlay is appended to its
   * group, a group being created when its key first occurs; `numbers` lists
   * the page keys as they are created.
   */
  method GroupByPage(overlays: seq<OverlayData>) returns (groups: map<GroupKey, seq<OverlayData>>, numbers: seq<int>)
    ensures GroupsOf(groups, overlays)
    ensures forall n :: n in numbers <==> PageKey(n) in groups
    ensures forall a, b :: 0 <= a < b < |numbers| ==> numbers[a] != numbers[b]
  {
    groups := map[];
    numbers := [];
    var i := 0;
    while i < |overlays|
      invariant 0 <= i <= |overlays|
      invariant GroupsOf(groups, overlays[..i])
      invariant forall n :: n in numbers <==> PageKey(n) in groups
      invariant forall a, b :: 0 <= a < b < |numbers| ==> numbers[a] != numbers[b]
    {
      var o := overlays[i];
      assert overlays[..i + 1] == overlays[..i] + [o];
      GroupStep(groups, overlays[..i], o);
      var k := KeyOf(o);
      if k !in groups && k.PageKey? {
        numbers := numbers + [k.n];
      }
      groups := AddToGroup(groups, o);
      i := i + 1;
    }
    assert overlays[..i] == overlays;
  }

  /** The page-building loop of `exportAllPages`, over the sorted keys. */
  method BuildPages(keys: seq<GroupKey>, groups: map<GroupKey, seq<OverlayData>>, story: seq<StoryJsonPage>)
    returns (pages: seq<OutPage>)
    requires forall t :: 0 <= t < |keys| ==> keys[t] in groups
    ensures |pages| == |keys|
    ensures forall t :: 0 <= t < |keys| ==> pages[t] == PageFor(keys[t], groups[keys[t]], story)
  {
    pages := [];
    for j := 0 to |keys|
      invariant |pages| == j
      invariant forall t :: 0 <= t < j ==> pages[t] == PageFor(keys[t], groups[keys[t]], story)
    {
      var page := PageFor(keys[j], groups[keys[j]], story);
      pages := pages + [page];
    }
  }

  /**
   * `Object.keys(pageGroups).sort(...)`: the page keys in ascending order,
   * then `'unknown'` when that group exists.
   */
  method SortedKeys(groups: map<GroupKey, seq<OverlayData>>, numbers: seq<int>) returns (keys: seq<GroupKey>)
    requires forall n :: n in numbers <==> PageKey(n) in groups
    requires forall a, b :: 0 <= a < b < |numbers| ==> numbers[a] != numbers[b]
    ensures KeySet(keys) == groups.Keys
    ensures forall i, j :: 0 <= i < j < |keys| ==> KeyBefore(keys[i], keys[j])
  {
    var sorted := Sorting.SortBy(numbers, PageOrder);
    Sorting.PermutationKeepsDistinctKeys(sorted, numbers, PageOrder);
    var pageKeys := PageKeys(sorted);
    PageKeysAscending(sorted);
    PageKeysCover(sorted, numbers, groups);
    if Unknown in groups {
      keys := pageKeys + [Unknown];
      UnknownLast(pageKeys);
    } else {
      keys := pageKeys;
    }
  }

  /** The group key of every page number, in order. */
  function PageKeys(ns: seq<int>): (r: seq<GroupKey>)
    ensures |r| == |ns| && forall j :: 0 <= j < |ns| ==> r[j] == PageKey(ns[j])
  {
    seq(|ns|, j requires 0 <= j < |ns| => PageKey(ns[j]))
  }

  /** Page numbers sorted ascending and distinct give keys in strictly ascending order. */
  lemma PageKeysAscending(ns: seq<int>)
    requires Sorting.SortedBy(ns, PageOrder) && Sorting.DistinctKeys(ns, PageOrder)
    ensures forall i, j :: 0 <= i < j < |ns| ==> KeyBefore(PageKeys(ns)[i], PageKeys(ns)[j])
  {
    forall i, j | 0 <= i < j < |ns| ensures KeyBefore(PageKeys(ns)[i], PageKeys(ns)[j]) {
      assert PageOrder(ns[i]) <= PageOrder(ns[j]) && PageOrder(ns[i]) != PageOrder(ns[j]);
    }
  }

  /** A permutation of the page numbers of `groups` gives exactly its page keys. */
  lemma PageKeysCover(ns: seq<int>, numbers: seq<int>, groups: map<GroupKey, seq<OverlayData>>)
    requires multiset(ns) == multiset(numbers)
    requires forall n :: n in numbers <==> PageKey(n) in groups
    ensures KeySet(PageKeys(ns)) == groups.Keys - {Unknown}
  {
    var pageKeys := PageKeys(ns);
    forall k | k in groups && k != Unknown ensures k in pageKeys {
      assert k.n in multiset(numbers);
      assert k.n in ns;
      var t :| 0 <= t < |ns| && ns[t] == k.n;
      assert pageKeys[t] == k;
    }
    forall k | k in pageKeys ensures k in groups && k != Unknown {
      var t :| 0 <= t < |pageKeys| && pageKeys[t] == k;
      assert ns[t] in multiset(numbers);
    }
  }

  /** `'unknown'` placed after ascending page keys keeps the order and adds its key. */
  lemma UnknownLast(pageKeys: seq<GroupKey>)
    requires forall k :: k in pageKeys ==> k.PageKey?
    requires forall i, j :: 0 <= i < j < |pageKeys| ==> KeyBefore(pageKeys[i], pageKeys[j])
    ensures KeySet(pageKeys + [Unknown]) == KeySet(pageKeys) + {Unknown}
    ensures forall i, j :: 0 <= i < j < |pageKeys + [Unknown]| ==>
              KeyBefore((pageKeys + [Unknown])[i], (pageKeys + [Unknown])[j])
  {
    var keys := pageKeys + [Unknown];
    assert forall i :: 0 <= i < |pageKeys| ==> keys[i] == pageKeys[i] && keys[i].PageKey?;
  }

  /** The sort key of a page number. */
  function PageOrder(n: int): int
  {
    n
  }

  /**
   * `exportAllPages`: nothing when there are no overlays; otherwise one page
   * per group, groups in order, each the page `PageFor` builds.
   */
  method ExportAllPages(overlays: seq<OverlayData>, story: seq<StoryJsonPage>) returns (r: Option<seq<OutPage>>)
    ensures r.None? <==> |overlays| == 0
    ensures r.Some? ==> (set i | 0 <= i < |r.value| :: OutKey(r.value[i])) == Keys(overlays)
    ensures r.Some? ==> forall i, j :: 0 <= i < j < |r.value| ==> KeyBefore(OutKey(r.value[i]), OutKey(r.value[j]))
    ensures r.Some? ==> forall i :: 0 <= i < |r.value| ==>
                          r.value[i] == PageFor(OutKey(r.value[i]), Group(overlays, OutKey(r.value[i])), story)
  {
    if |overlays| == 0 {
      return None;
    }
    var groups, numbers := GroupByPage(overlays);
    var keys := SortedKeys(groups, numbers);
    var pages := BuildPages(keys, groups, story);
    assert forall t :: 0 <= t < |keys| ==> OutKey(pages[t]) == keys[t];
    OutKeysAre(pages, keys);
    r := Some(pages);
  }

  /** Pages built one per key carry exactly those keys. */
  lemma OutKeysAre(pages: seq<OutPage>, keys: seq<GroupKey>)
    requires |pages| == |keys| && forall t :: 0 <= t < |keys| ==> OutKey(pages[t]) == keys[t]
    ensures (set t | 0 <= t < |pages| :: OutKey(pages[t])) == KeySet(keys)
  {
    forall k | k in keys ensures exists t :: 0 <= t < |pages| && OutKey(pages[t]) == k {
      var t :| 0 <= t < |keys| && keys[t] == k;
      assert OutKey(pages[t]) == k;
    }
  }
}
