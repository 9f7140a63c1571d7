/**
 * The text tester's page gallery: the page list comes from the published
 * pages (or from probing the default image names), is enriched with the
 * story's spread metadata — spread-companion pages are added or given their
 * spread's image — and is then laid out as spreads of one or two pages.
 */
module PageLoader {
  import opened Wrappers
  import opened Strings
  import Sorting

  const SPREAD_START := "spread-start"
  const SPREAD_COMPANION := "spread-companion"

  /** A gallery page; `None` is a property the page object does not have. */
  datatype Page = Page(number: int, path: Option<string>, name: string, pageType: Option<string>,
                       companionPage: Option<int>, spreadStart: Option<int>)

  /** A page of the story file, as far as the gallery reads it. */
  datatype StoryPage = StoryPage(pageNumber: int, pageType: Option<string>, companionPage: Option<int>,
                                 spreadStart: Option<int>)

  /** One rendered spread: a left page and possibly a right page. */
  datatype Spread = Spread(left: Page, right: Option<Page>)

  function NumberKey(p: Page): int
  {
    p.number
  }

  /** The page numbers present. */
  function Numbers(pages: seq<Page>): set<int>
  {
    set i | 0 <= i < |pages| :: pages[i].number
  }

  /** Appending a page adds its number. */
  lemma NumbersAppend(pages: seq<Page>, p: Page)
    ensures Numbers(pages + [p]) == Numbers(pages) + {p.number}
  {
    var r := pages + [p];
    assert forall k :: 0 <= k < |pages| ==> r[k] == pages[k];
    assert r[|pages|] == p;
  }

  /** `pages.findIndex(p => p.number == n)`. */
  function IndexOfNumber(pages: seq<Page>, n: int): (r: Option<nat>)
    ensures r.Some? ==> r.value < |pages| && pages[r.value].number == n &&
                        forall k :: 0 <= k < r.value ==> pages[k].number != n
    ensures r.None? ==> n !in Numbers(pages)
  {
    if |pages| == 0 then None
    else if pages[0].number == n then Some(0)
    else
      match IndexOfNumber(pages[1..], n)
      case None => assert Numbers(pages) == {pages[0].number} + Numbers(pages[1..]); None
      case Some(k) => Some(k + 1)
  }

  /** `story.find(p => p.pageNumber == n)`. */
  function FindStory(story: seq<StoryPage>, n: int): (r: Option<StoryPage>)
    ensures r.Some? ==> r.value in story && r.value.pageNumber == n
    ensures r.None? ==> forall k :: 0 <= k < |story| ==> story[k].pageNumber != n
  {
    if |story| == 0 then None
    else if story[0].pageNumber == n then Some(story[0])
    else FindStory(story[1..], n)
  }

  // ----- fallback detection -----

  /** The default image path of page `n`: `../../images/pages/page-NN.jpg`, NN zero-padded to two digits. */
  function DefaultPath(n: int): string
  {
    "../../images/pages/page-" + PadStart(IntToString(n), 2, '0') + ".jpg"
  }

  /** The candidate page `n` of the fallback detection. */
  function Candidate(n: int): (p: Page)
    ensures p.number == n
  {
    Page(n, Some(DefaultPath(n)), "Page " + IntToString(n), None, None, None)
  }

  /** Pages 1 to 9 get a leading zero; pages 10 to 24 are written as they are. */
  lemma DefaultPathPadding(n: int)
    requires 1 <= n <= 24
    ensures n < 10 ==> DefaultPath(n) == "../../images/pages/page-0" + NatToString(n) + ".jpg"
    ensures n >= 10 ==> DefaultPath(n) == "../../images/pages/page-" + NatToString(n) + ".jpg"
  {
    var d := IntToString(n);
    if n < 10 {
      assert |d| == 1;
      assert PadStart(d, 2, '0') == "0" + d;
    } else {
      assert NatToString(n) == NatToString(n / 10) + [DigitChar(n % 10)];
      assert |d| == 2;
      assert PadStart(d, 2, '0') == d;
    }
  }

  /**
   * `detectPagesFromImages`: the candidates 1 to 24, in order, keeping those
   * whose image the probe finds (`imageExists(n)` stands for the HEAD request's
   * outcome).
   */
  method DetectPagesFromImages(imageExists: int -> bool) returns (found: seq<Page>)
    ensures forall k :: 0 <= k < |found| ==> 1 <= found[k].number <= 24 && found[k] == Candidate(found[k].number)
    ensures forall n :: 1 <= n <= 24 ==> (n in Numbers(found) <==> imageExists(n))
    ensures forall a, b :: 0 <= a < b < |found| ==> found[a].number < found[b].number
    ensures found == Detected(imageExists, 24)
  {
    var possible := Candidates(24);
    found := ProbeCandidates(possible, imageExists);
    DetectedFacts(imageExists, found);
  }

  /** The first loop of `detectPagesFromImages`: the candidates `1..count`, in order. */
  method Candidates(count: nat) returns (possible: seq<Page>)
    ensures |possible| == count
    ensures forall k :: 0 <= k < |possible| ==> possible[k] == Candidate(k + 1)
  {
    possible := [];
    for i := 1 to count + 1
      invariant |possible| == i - 1
      invariant forall k :: 0 <= k < |possible| ==> possible[k] == Candidate(k + 1)
    {
      var c := Candidate(i);
      possible := possible + [c];
    }
  }

  /** The probing loop of `detectPagesFromImages`: the candidates whose image exists, in order. */
  method ProbeCandidates(possible: seq<Page>, imageExists: int -> bool) returns (found: seq<Page>)
    requires forall k :: 0 <= k < |possible| ==> possible[k] == Candidate(k + 1)
    ensures found == Detected(imageExists, |possible|)
  {
    found := [];
    for k := 0 to |possible|
      invariant found == Detected(imageExists, k)
    {
      if imageExists(possible[k].number) {
        found := found + [possible[k]];
      }
    }
  }

  /** What the probe over the 24 candidates finds, stated on the list itself. */
  lemma DetectedFacts(imageExists: int -> bool, found: seq<Page>)
    requires found == Detected(imageExists, 24)
    ensures forall k :: 0 <= k < |found| ==> 1 <= found[k].number <= 24 && found[k] == Candidate(found[k].number)
    ensures forall n :: 1 <= n <= 24 ==> (n in Numbers(found) <==> imageExists(n))
    ensures forall a, b :: 0 <= a < b < |found| ==> found[a].number < found[b].number
  {
    DetectedCandidates(imageExists, 24);
    DetectedNumbers(imageExists, 24);
    DetectedAscending(imageExists, 24);
  }

  /** The candidates `1..k` whose image the probe finds, in increasing order. */
  function Detected(imageExists: int -> bool, k: nat): seq<Page>
  {
    if k == 0 then [] else Detected(imageExists, k - 1) + (if imageExists(k) then [Candidate(k)] else [])
  }

  /** The numbers from 1 to `k` whose image the probe finds. */
  ghost function Probed(k: int, imageExists: int -> bool): set<int>
  {
    set n | 1 <= n <= k && imageExists(n)
  }

  /** Probing the candidates `1..k` keeps unchanged candidates numbered 1 to `k`. */
  lemma {:induction false} DetectedCandidates(imageExists: int -> bool, k: nat)
    ensures forall j :: 0 <= j < |Detected(imageExists, k)| ==>
              1 <= Detected(imageExists, k)[j].number <= k &&
              Detected(imageExists, k)[j] == Candidate(Detected(imageExists, k)[j].number)
  {
    if k > 0 {
      DetectedCandidates(imageExists, k - 1);
      var prev := Detected(imageExists, k - 1);
      var d := Detected(imageExists, k);
      assert d == if imageExists(k) then prev + [Candidate(k)] else prev;
      forall j | 0 <= j < |d| ensures 1 <= d[j].number <= k && d[j] == Candidate(d[j].number) {
        if j < |prev| {
          assert d[j] == prev[j];
        }
      }
    }
  }

  /** The numbers the probe finds among `1..k`, step by step. */
  lemma ProbedNext(imageExists: int -> bool, k: nat)
    requires k > 0
    ensures Probed(k, imageExists) == Probed(k - 1, imageExists) + (if imageExists(k) then {k} else {})
  {
    forall n ensures n in Probed(k, imageExists) <==> n in Probed(k - 1, imageExists) || (n == k && imageExists(k)) {
      if n == k {
        assert imageExists(k) ==> k in Probed(k, imageExists);
      }
    }
  }

  /** Probing the candidates `1..k` keeps exactly the numbers whose image exists. */
  lemma {:induction false} DetectedNumbers(imageExists: int -> bool, k: nat)
    ensures Numbers(Detected(imageExists, k)) == Probed(k, imageExists)
  {
    if k == 0 {
      assert Probed(0, imageExists) == {};
    } else {
      DetectedNumbers(imageExists, k - 1);
      ProbedNext(imageExists, k);
      var prev := Detected(imageExists, k - 1);
      if imageExists(k) {
        NumbersAppend(prev, Candidate(k));
      } else {
        assert Detected(imageExists, k) == prev;
      }
    }
  }

  /** The probed pages are in strictly increasing order of number. */
  lemma {:induction false} DetectedAscending(imageExists: int -> bool, k: nat)
    ensures forall a, b :: 0 <= a < b < |Detected(imageExists, k)| ==>
              Detected(imageExists, k)[a].number < Detected(imageExists, k)[b].number
  {
    if k > 0 {
      DetectedAscending(imageExists, k - 1);
      DetectedCandidates(imageExists, k - 1);
      var prev := Detected(imageExists, k - 1);
      var d := Detected(imageExists, k);
      assert d == if imageExists(k) then prev + [Candidate(k)] else prev;
      forall a, b | 0 <= a < b < |d| ensures d[a].number < d[b].number {
        assert d[a] == prev[a];
        if b < |prev| {
          assert d[b] == prev[b];
        }
      }
    }
  }

  // ----- enrichment with the story -----

  /** The first pass of enrichment: a page the story lists takes its type, companion and spread start. */
  function EnrichPage(page: Page, story: seq<StoryPage>): (r: Page)
    ensures r.number == page.number && r.path == page.path && r.name == page.name
    ensures FindStory(story, page.number).None? ==> r == page
    ensures FindStory(story, page.number).Some? ==>
              var s := FindStory(story, page.number).value;
              r.pageType == s.pageType && r.companionPage == s.companionPage && r.spreadStart == s.spreadStart
  {
    match FindStory(story, page.number)
    case None => page
    case Some(s) => page.(pageType := s.pageType, companionPage := s.companionPage, spreadStart := s.spreadStart)
  }

  /**
   * The spread-start page whose image a spread-companion story page gets:
   * for a page already present, the one its own `spreadStart` names; for a
   * missing one, the one the story's `spreadStart` names.
   */
  function CompanionSource(pages: seq<Page>, s: StoryPage): Option<nat>
  {
    match IndexOfNumber(pages, s.pageNumber)
    case Some(e) => if pages[e].spreadStart.Some? then IndexOfNumber(pages, pages[e].spreadStart.value) else None
    case None => if s.spreadStart.Some? then IndexOfNumber(pages, s.spreadStart.value) else None
  }

  /** The second pass of enrichment for one story page. */
  function CompanionStep(pages: seq<Page>, s: StoryPage): (r: seq<Page>)
    ensures |r| == |pages| || |r| == |pages| + 1
    ensures Numbers(r) == Numbers(pages) + (if |r| == |pages| then {} else {s.pageNumber})
    ensures forall k :: 0 <= k < |pages| ==> r[k].number == pages[k].number
    ensures s.pageType != Some(SPREAD_COMPANION) ==> r == pages
    ensures s.pageType == Some(SPREAD_COMPANION) && CompanionSource(pages, s).Some? ==>
              var k := IndexOfNumber(r, s.pageNumber);
              k.Some? && r[k.value].path == pages[CompanionSource(pages, s).value].path
    ensures CompanionSource(pages, s).None? ==> r == pages
  {
    if s.pageType != Some(SPREAD_COMPANION) then pages
    else
      match CompanionSource(pages, s)
      case None => pages
      case Some(j) =>
        match IndexOfNumber(pages, s.pageNumber)
        case Some(e) =>
          var r := pages[e := pages[e].(path := pages[j].path)];
          assert forall k :: 0 <= k < |r| ==> r[k].number == pages[k].number;
          assert Numbers(r) == Numbers(pages);
          assert IndexOfNumber(r, s.pageNumber) == Some(e) by { IndexOfSameNumbers(pages, r, s.pageNumber); }
          r
        case None =>
          var added := Page(s.pageNumber, pages[j].path, "Page " + IntToString(s.pageNumber), s.pageType, None, s.spreadStart);
          var r := pages + [added];
          NumbersAppend(pages, added);
          assert IndexOfNumber(r, s.pageNumber) == Some(|pages|) by {
            assert forall k :: 0 <= k < |pages| ==> r[k].number == pages[k].number != s.pageNumber;
          }
          r
  }

  /**
   * What else a companion step keeps: every other page is unchanged, an
   * existing companion changes only its path, and a missing one is added as
   * `Page n` with the story's type and spread start and no companion.
   */
  lemma CompanionStepFrame(pages: seq<Page>, s: StoryPage)
    ensures var r := CompanionStep(pages, s);
            forall k :: 0 <= k < |pages| && Some(k) != IndexOfNumber(pages, s.pageNumber) ==> r[k] == pages[k]
    ensures s.pageType == Some(SPREAD_COMPANION) && CompanionSource(pages, s).Some? &&
            IndexOfNumber(pages, s.pageNumber).Some? ==>
              var r, e := CompanionStep(pages, s), IndexOfNumber(pages, s.pageNumber).value;
              |r| == |pages| && r[e] == pages[e].(path := pages[CompanionSource(pages, s).value].path)
    ensures s.pageType == Some(SPREAD_COMPANION) && CompanionSource(pages, s).Some? &&
            IndexOfNumber(pages, s.pageNumber).None? ==>
              var r := CompanionStep(pages, s);
              |r| == |pages| + 1 &&
              r[|pages|] == Page(s.pageNumber, pages[CompanionSource(pages, s).value].path,
                                 "Page " + IntToString(s.pageNumber), s.pageType, None, s.spreadStart)
  {
  }

  /** Lists with the same page numbers position by position find a number at the same index. */
  lemma {:induction false} IndexOfSameNumbers(a: seq<Page>, b: seq<Page>, n: int)
    requires |a| == |b| && forall k :: 0 <= k < |a| ==> a[k].number == b[k].number
    ensures IndexOfNumber(a, n) == IndexOfNumber(b, n)
  {
    if |a| > 0 && a[0].number != n {
      IndexOfSameNumbers(a[1..], b[1..], n);
    }
  }

  /** Appending a page with another number leaves the lookup of `n` as it was. */
  lemma {:induction false} IndexOfAppend(pages: seq<Page>, p: Page, n: int)
    requires p.number != n
    ensures IndexOfNumber(pages + [p], n) == IndexOfNumber(pages, n)
  {
    if |pages| > 0 && pages[0].number != n {
      assert (pages + [p])[1..] == pages[1..] + [p];
      IndexOfAppend(pages[1..], p, n);
    }
  }

  /**
   * A companion step for another page number leaves the page numbered `n`
   * where it was and as it was.
   */
  lemma CompanionStepKeeps(pages: seq<Page>, s: StoryPage, n: int)
    requires s.pageNumber != n
    ensures IndexOfNumber(CompanionStep(pages, s), n) == IndexOfNumber(pages, n)
    ensures IndexOfNumber(pages, n).Some? ==>
              CompanionStep(pages, s)[IndexOfNumber(pages, n).value] == pages[IndexOfNumber(pages, n).value]
  {
    var r := CompanionStep(pages, s);
    CompanionStepFrame(pages, s);
    if |r| == |pages| {
      IndexOfSameNumbers(r, pages, n);
    } else {
      assert r == pages + [r[|pages|]];
      IndexOfAppend(pages, r[|pages|], n);
    }
  }

  /** The second pass over the first `k` story pages. */
  function Companions(pages: seq<Page>, story: seq<StoryPage>, k: nat): seq<Page>
    requires k <= |story|
  {
    if k == 0 then pages else CompanionStep(Companions(pages, story, k - 1), story[k - 1])
  }

  /**
   * Story pages `i..k` that are not numbered `n` leave the page numbered `n`
   * as the first `i` steps made it: a companion's path, once set, stays.
   */
  lemma {:induction false} CompanionsKeep(pages: seq<Page>, story: seq<StoryPage>, i: nat, k: nat, n: int)
    requires i <= k <= |story|
    requires forall j :: i <= j < k ==> story[j].pageNumber != n
    ensures IndexOfNumber(Companions(pages, story, k), n) == IndexOfNumber(Companions(pages, story, i), n)
    ensures IndexOfNumber(Companions(pages, story, i), n).Some? ==>
              var e := IndexOfNumber(Companions(pages, story, i), n).value;
              Companions(pages, story, k)[e] == Companions(pages, story, i)[e]
    decreases k
  {
    if k > i {
      CompanionsKeep(pages, story, i, k - 1, n);
      CompanionStepKeeps(Companions(pages, story, k - 1), story[k - 1], n);
    }
  }

  /** Story page `i`, one of the first `k`, is a spread-companion numbered `n`. */
  predicate CompanionAmong(story: seq<StoryPage>, k: nat, n: int)
    requires k <= |story|
  {
    exists i :: 0 <= i < k && story[i].pageNumber == n && story[i].pageType == Some(SPREAD_COMPANION)
  }

  /**
   * The second pass never loses a page number, and the only numbers it adds
   * are those of spread-companion story pages.
   */
  lemma {:induction false} CompanionsNumbers(pages: seq<Page>, story: seq<StoryPage>, k: nat)
    requires k <= |story|
    ensures Numbers(pages) <= Numbers(Companions(pages, story, k))
    ensures forall n :: n in Numbers(Companions(pages, story, k)) ==> n in Numbers(pages) || CompanionAmong(story, k, n)
  {
    if k > 0 {
      CompanionsNumbers(pages, story, k - 1);
      var before := Companions(pages, story, k - 1);
      var s := story[k - 1];
      forall n | n in Numbers(Companions(pages, story, k))
        ensures n in Numbers(pages) || CompanionAmong(story, k, n)
      {
        if n in Numbers(before) {
          if n !in Numbers(pages) {
            var i :| 0 <= i < k - 1 && story[i].pageNumber == n && story[i].pageType == Some(SPREAD_COMPANION);
            assert CompanionAmong(story, k, n);
          }
        } else {
          assert n == s.pageNumber && s.pageType == Some(SPREAD_COMPANION);
          assert CompanionAmong(story, k, n);
        }
      }
    }
  }

  /** The gallery's page list. */
  class Loader {
    var pages: seq<Page>

    constructor()
      ensures pages == []
    {
      pages := [];
    }

    /** The first pass of enrichment over the page list. */
    static function Enriched(pages: seq<Page>, story: seq<StoryPage>): (r: seq<Page>)
      ensures |r| == |pages| && forall k :: 0 <= k < |pages| ==> r[k] == EnrichPage(pages[k], story)
    {
      seq(|pages|, k requires 0 <= k < |pages| => EnrichPage(pages[k], story))
    }

    /**
     * The enrichment of `loadAllPublishedPages`: every page takes the
     * story's metadata, every spread-companion story page is added or given
     * its spread's path, and the list is sorted by page number.
     */
    method EnrichWithStory(story: seq<StoryPage>)
      modifies this`pages
      ensures Sorting.SortedBy(pages, NumberKey)
      ensures multiset(pages) == multiset(Companions(Enriched(old(pages), story), story, |story|))
      ensures Numbers(old(pages)) <= Numbers(pages)
    {
      var current := pages;
      for k := 0 to |current|
        invariant |current| == |old(pages)|
        invariant forall j :: 0 <= j < k ==> current[j] == EnrichPage(old(pages)[j], story)
        invariant forall j :: k <= j < |current| ==> current[j] == old(pages)[j]
      {
        current := current[k := EnrichPage(current[k], story)];
      }
      assert current == Enriched(old(pages), story);
      assert Numbers(current) == Numbers(old(pages));
      var enriched := current;
      for k := 0 to |story|
        invariant current == Companions(enriched, story, k)
      {
        current := CompanionStep(current, story[k]);
      }
      CompanionsNumbers(enriched, story, |story|);
      pages := Sorting.SortBy(current, NumberKey);
      assert Numbers(pages) == Numbers(current) by {
        forall n | n in Numbers(current) ensures n in Numbers(pages) {
          var i :| 0 <= i < |current| && current[i].number == n;
          assert current[i] in multiset(pages);
        }
        forall n | n in Numbers(pages) ensures n in Numbers(current) {
          var i :| 0 <= i < |pages| && pages[i].number == n;
          assert pages[i] in multiset(current);
        }
      }
    }

    /** `detectPagesFromImages` stores the pages found. */
    method DetectPages(imageExists: int -> bool)
      modifies this`pages
      ensures forall n :: 1 <= n <= 24 ==> (n in Numbers(pages) <==> imageExists(n))
      ensures forall k :: 0 <= k < |pages| ==> 1 <= pages[k].number <= 24 && pages[k] == Candidate(pages[k].number)
      ensures forall a, b :: 0 <= a < b < |pages| ==> pages[a].number < pages[b].number
      ensures pages == Detected(imageExists, 24)
    {
      pages := DetectPagesFromImages(imageExists);
    }

    /** `renderAllPages`: the spreads, left to right. */
    method RenderAllPages() returns (spreads: seq<Spread>)
      ensures spreads == Pairing(pages, 0)
    {
      var ps := pages;
      spreads := [];
      var i := 0;
      while i < |ps|
        invariant 0 <= i <= |ps|
        invariant spreads + Pairing(ps, i) == Pairing(ps, 0)
        decreases |ps| - i
      {
        var current := ps[i];
        if current.pageType == Some(SPREAD_COMPANION) {
          i := i + 1;
          continue;
        }
        var spread, next;
        if current.pageType == Some(SPREAD_START) && Truthy(current.companionPage) {
          var k := IndexOfNumber(ps, current.companionPage.value);
          spread, next := Spread(current, if k.Some? then Some(ps[k.value]) else None), i + 1;
        } else if i + 1 < |ps| && !IsSpreadPage(ps[i + 1]) {
          spread, next := Spread(current, Some(ps[i + 1])), i + 2;
        } else {
          spread, next := Spread(current, None), i + 1;
        }
        assert Pairing(ps, i) == [spread] + Pairing(ps, next);
        AppendAssoc(spreads, [spread], Pairing(ps, next));
        spreads, i := spreads + [spread], next;
      }
    }

    /** `loadAllPublishedPages` without its I/O: the published list or the probed fallback, enriched when there is a story. */
    method LoadAllPublishedPages(published: Option<seq<Page>>, story: Option<seq<StoryPage>>, imageExists: int -> bool)
      returns (spreads: seq<Spread>)
      modifies this`pages
      ensures published.Some? && story.None? ==> pages == published.value
      ensures published.None? && story.None? ==>
                forall n :: 1 <= n <= 24 ==> (n in Numbers(pages) <==> imageExists(n))
      ensures story.Some? ==> Sorting.SortedBy(pages, NumberKey)
      ensures var listed := if published.Some? then published.value else Detected(imageExists, 24);
              (story.None? ==> pages == listed) &&
              (story.Some? ==>
                 multiset(pages) == multiset(Companions(Enriched(listed, story.value), story.value, |story.value|)) &&
                 Numbers(listed) <= Numbers(pages))
      ensures spreads == Pairing(pages, 0)
    {
      if published.Some? {
        pages := published.value;
      } else {
        DetectPages(imageExists);
      }
      if story.Some? {
        EnrichWithStory(story.value);
      }
      if |pages| == 0 {
        return [];
      }
      spreads := RenderAllPages();
    }
  }

  // ----- pairing -----

  /** A truthy companion page number (0 is falsy). */
  predicate Truthy(n: Option<int>)
  {
    n.Some? && n.value != 0
  }

  /** A page that is a spread start or a spread companion. */
  predicate IsSpreadPage(p: Page)
  {
    p.pageType == Some(SPREAD_START) || p.pageType == Some(SPREAD_COMPANION)
  }

  /** The spreads the pairing loop renders from index `i` on. */
  function Pairing(pages: seq<Page>, i: nat): seq<Spread>
    decreases |pages| - i
  {
    if i >= |pages| then []
    else if pages[i].pageType == Some(SPREAD_COMPANION) then Pairing(pages, i + 1)
    else if pages[i].pageType == Some(SPREAD_START) && Truthy(pages[i].companionPage) then
      var k := IndexOfNumber(pages, pages[i].companionPage.value);
      [Spread(pages[i], if k.Some? then Some(pages[k.value]) else None)] + Pairing(pages, i + 1)
    else if i + 1 < |pages| && !IsSpreadPage(pages[i + 1]) then
      [Spread(pages[i], Some(pages[i + 1]))] + Pairing(pages, i + 2)
    else [Spread(pages[i], None)] + Pairing(pages, i + 1)
  }

  /**
   * What the pairing renders: no spread starts with a spread-companion; a
   * spread start with a companion number is paired with the page of that
   * number (alone if there is none); any other left page is paired with the
   * page right after it in the list, which is neither a spread start nor a
   * spread companion.
   */
  lemma {:induction false} PairingShape(pages: seq<Page>, i: nat)
    ensures forall s :: s in Pairing(pages, i) ==> s.left in pages[i..] && s.left.pageType != Some(SPREAD_COMPANION)
    ensures forall s :: s in Pairing(pages, i) && s.left.pageType == Some(SPREAD_START) && Truthy(s.left.companionPage) ==>
              var k := IndexOfNumber(pages, s.left.companionPage.value);
              s.right == if k.Some? then Some(pages[k.value]) else None
    ensures forall s :: (s in Pairing(pages, i) && !(s.left.pageType == Some(SPREAD_START) && Truthy(s.left.companionPage)) &&
                         s.right.Some?) ==>
              !IsSpreadPage(s.right.value) &&
              exists k :: i <= k && k + 1 < |pages| && pages[k] == s.left && pages[k + 1] == s.right.value
    decreases |pages| - i
  {
    if i < |pages| {
      var next := if pages[i].pageType == Some(SPREAD_COMPANION) then i + 1
                  else if pages[i].pageType == Some(SPREAD_START) && Truthy(pages[i].companionPage) then i + 1
                  else if i + 1 < |pages| && !IsSpreadPage(pages[i + 1]) then i + 2
                  else i + 1;
      PairingShape(pages, next);
      assert forall p :: p in pages[next..] ==> p in pages[i..] by {
        forall p | p in pages[next..] ensures p in pages[i..] {
          var j :| 0 <= j < |pages[next..]| && pages[next..][j] == p;
          assert pages[i..][j + next - i] == p;
        }
      }
      assert pages[i] in pages[i..] by { assert pages[i..][0] == pages[i]; }
    }
  }

  /** The number of pages the pairing consumes from index `i` on: one per skipped companion or single, two per pair. */
  function Consumed(pages: seq<Page>, i: nat): nat
    decreases |pages| - i
  {
    if i >= |pages| then 0
    else if pages[i].pageType == Some(SPREAD_COMPANION) then 1 + Consumed(pages, i + 1)
    else if pages[i].pageType == Some(SPREAD_START) && Truthy(pages[i].companionPage) then 1 + Consumed(pages, i + 1)
    else if i + 1 < |pages| && !IsSpreadPage(pages[i + 1]) then 2 + Consumed(pages, i + 2)
    else 1 + Consumed(pages, i + 1)
  }

  /** The loop consumes every index exactly once: it never jumps past the end nor visits an index twice. */
  lemma {:induction false} ConsumedAll(pages: seq<Page>, i: nat)
    requires i <= |pages|
    ensures Consumed(pages, i) == |pages| - i
    decreases |pages| - i
  {
    if i < |pages| {
      if pages[i].pageType != Some(SPREAD_COMPANION) && !(pages[i].pageType == Some(SPREAD_START) && Truthy(pages[i].companionPage))
         && i + 1 < |pages| && !IsSpreadPage(pages[i + 1]) {
        ConsumedAll(pages, i + 2);
      } else {
        ConsumedAll(pages, i + 1);
      }
    }
  }

  // ----- titles and paths -----

  /** `page.number || '?'`. */
  function PageLabel(p: Page): string
  {
    if p.number != 0 then IntToString(p.number) else "?"
  }

  /** The spread header of `renderSpreadPair`. */
  function SpreadTitle(left: Page, right: Option<Page>): (t: string)
    ensures left.pageType == Some(SPREAD_START) && right.Some? ==>
              t == "Double-Page Spread: Pages " + PageLabel(left) + "-" + RightLabel(right.value)
    ensures !(left.pageType == Some(SPREAD_START)) && right.Some? && right.value.number != 0 ==>
              t == "Pages " + PageLabel(left) + "-" + IntToString(right.value.number)
    ensures right.None? ==> t == "Page " + PageLabel(left)
  {
    if left.pageType == Some(SPREAD_START) && right.Some? then
      "Double-Page Spread: Pages " + PageLabel(left) + "-" + RightLabel(right.value)
    else if right.Some? && right.value.number != 0 then
      "Pages " + PageLabel(left) + "-" + IntToString(right.value.number)
    else "Page " + PageLabel(left)
  }

  /** `rightPage.number || rightPage.pageNumber` in a template: `undefined` for page 0. */
  function RightLabel(p: Page): string
  {
    if p.number != 0 then IntToString(p.number) else "undefined"
  }

  /** The image path of `renderPageInSpread`: the spread's image, else the page's own, else its default path. */
  function PagePath(p: Page, spreadImage: Option<string>): (path: string)
    ensures spreadImage.Some? && spreadImage.value != "" ==> path == spreadImage.value
    ensures (spreadImage.None? || spreadImage.value == "") && p.path.Some? && p.path.value != "" ==> path == p.path.value
    ensures (spreadImage.None? || spreadImage.value == "") && (p.path.None? || p.path.value == "") ==>
              path == "../../images/pages/page-" + PadStart(PageLabel(p), 2, '0') + ".jpg"
  {
    if spreadImage.Some? && spreadImage.value != "" then spreadImage.value
    else if p.path.Some? && p.path.value != "" then p.path.value
    else "../../images/pages/page-" + PadStart(PageLabel(p), 2, '0') + ".jpg"
  }

  /** A page whose number is positive falls back to the same path the image detection probes. */
  lemma FallbackMatchesDetection(p: Page)
    requires p.number > 0 && p.path.None?
    ensures PagePath(p, None) == DefaultPath(p.number)
  {
  }
}
