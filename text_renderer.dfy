/**
 * The decisions the page renderer takes before it touches the DOM: greedy
 * word wrap against a text-measuring oracle, average luma of an image band,
 * black-or-white text colour, the font scale factor and display size, the
 * CSS font family of a font file, and the placement of the overlay.
 */
module TextRenderer {
  import opened Wrappers
  import opened Strings
  import opened JsMath
  import SafeZones

  const LUMINANCE_THRESHOLD: real := 128.0
  const DEFAULT_ORIGINAL_WIDTH: int := 4096
  const DEFAULT_STORY_FONT_SIZE: real := 240.0

  // ----- greedy word wrap -----

  /**
   * The words of each line of the greedy wrap. `cur` holds the words of the
   * line being built and `ws` the words still to place: a word joins the
   * current line when the joined line measures at most `maxWidth`, and
   * otherwise starts a new line, the current one being emitted if it has
   * any words.
   */
  function Groups(ws: seq<string>, cur: seq<string>, measure: string -> real, maxWidth: real): seq<seq<string>>
    decreases |ws|
  {
    if |ws| == 0 then (if |cur| > 0 then [cur] else [])
    else if measure(Join(cur + [ws[0]], ' ')) <= maxWidth then Groups(ws[1..], cur + [ws[0]], measure, maxWidth)
    else (if |cur| > 0 then [cur] else []) + Groups(ws[1..], [ws[0]], measure, maxWidth)
  }

  /** Concatenation of a list of word lists. */
  function Flatten(g: seq<seq<string>>): seq<string>
  {
    if |g| == 0 then [] else g[0] + Flatten(g[1..])
  }

  /** Each list of words joined with single spaces. */
  function JoinLines(g: seq<seq<string>>): (r: seq<string>)
    ensures |r| == |g|
    ensures forall k :: 0 <= k < |g| ==> r[k] == Join(g[k], ' ')
  {
    if |g| == 0 then [] else [Join(g[0], ' ')] + JoinLines(g[1..])
  }

  lemma JoinLinesAppend(a: seq<seq<string>>, b: seq<seq<string>>)
    ensures JoinLines(a + b) == JoinLines(a) + JoinLines(b)
  {
  }

  /** The lines `wrapText` produces for `text`: the words are the pieces of `text.split(' ')`. */
  function WrapLines(text: string, measure: string -> real, maxWidth: real): seq<string>
  {
    JoinLines(Groups(Split(text, ' '), [], measure, maxWidth))
  }

  /** `wrapText`: the greedy wrap, built line by line. */
  method WrapText(text: string, measure: string -> real, maxWidth: real) returns (lines: seq<string>)
    ensures lines == WrapLines(text, measure, maxWidth)
  {
    var words := Split(text, ' ');
    lines := [];
    var currentLine: seq<string> := [];
    for i := 0 to |words|
      invariant lines + JoinLines(Groups(words[i..], currentLine, measure, maxWidth)) == WrapLines(text, measure, maxWidth)
    {
      var word := words[i];
      assert words[i..][0] == word && words[i..][1..] == words[i + 1..];
      var testLine := Join(currentLine + [word], ' ');
      if measure(testLine) <= maxWidth {
        assert Groups(words[i..], currentLine, measure, maxWidth)
            == Groups(words[i + 1..], currentLine + [word], measure, maxWidth);
        currentLine := currentLine + [word];
      } else {
        var rest := Groups(words[i + 1..], [word], measure, maxWidth);
        if |currentLine| > 0 {
          assert Groups(words[i..], currentLine, measure, maxWidth) == [currentLine] + rest;
          JoinLinesAppend([currentLine], rest);
          AppendAssoc(lines, [Join(currentLine, ' ')], JoinLines(rest));
          lines := lines + [Join(currentLine, ' ')];
        } else {
          assert Groups(words[i..], currentLine, measure, maxWidth) == [] + rest;
          assert [] + rest == rest;
        }
        currentLine := [word];
      }
    }
    if |currentLine| > 0 {
      lines := lines + [Join(currentLine, ' ')];
    }
  }

  /** No word contains a space (true of the pieces of `split(' ')`). */
  predicate NoSpaceWords(ws: seq<string>)
  {
    forall j :: 0 <= j < |ws| ==> ' ' !in ws[j]
  }

  /** Every group is non-empty and space-free, and a non-empty current line opens the first group. */
  lemma {:induction false} GroupsShape(ws: seq<string>, cur: seq<string>, measure: string -> real, maxWidth: real)
    ensures var g := Groups(ws, cur, measure, maxWidth);
            (forall k :: 0 <= k < |g| ==> |g[k]| > 0) &&
            (|cur| + |ws| > 0 ==> |g| > 0) &&
            (|cur| > 0 ==> |g| > 0 && |g[0]| > 0 && g[0][0] == cur[0]) &&
            (NoSpaceWords(cur) && NoSpaceWords(ws) ==> forall k :: 0 <= k < |g| ==> NoSpaceWords(g[k]))
    decreases |ws|
  {
    if |ws| == 0 {
    } else {
      var w := ws[0];
      assert NoSpaceWords(ws) ==> NoSpaceWords(ws[1..]) && ' ' !in w;
      if measure(Join(cur + [w], ' ')) <= maxWidth {
        GroupsShape(ws[1..], cur + [w], measure, maxWidth);
        assert NoSpaceWords(cur) && ' ' !in w ==> NoSpaceWords(cur + [w]);
      } else {
        GroupsShape(ws[1..], [w], measure, maxWidth);
        assert ' ' !in w ==> NoSpaceWords([w]);
      }
    }
  }

  /** The groups, read in order, are exactly the words: none lost, none repeated, none reordered. */
  lemma {:induction false} GroupsFlatten(ws: seq<string>, cur: seq<string>, measure: string -> real, maxWidth: real)
    ensures Flatten(Groups(ws, cur, measure, maxWidth)) == cur + ws
    decreases |ws|
  {
    if |ws| == 0 {
      if |cur| > 0 {
        assert Flatten([cur]) == cur + Flatten([]);
      }
    } else {
      var w := ws[0];
      assert ws == [w] + ws[1..];
      if measure(Join(cur + [w], ' ')) <= maxWidth {
        GroupsFlatten(ws[1..], cur + [w], measure, maxWidth);
        assert cur + [w] + ws[1..] == cur + ws;
      } else {
        var rest := Groups(ws[1..], [w], measure, maxWidth);
        GroupsFlatten(ws[1..], [w], measure, maxWidth);
        if |cur| > 0 {
          assert ([cur] + rest)[1..] == rest;
          assert Flatten([cur] + rest) == cur + Flatten(rest);
          assert cur + ([w] + ws[1..]) == cur + ws;
        } else {
          assert Groups(ws, cur, measure, maxWidth) == [] + rest == rest;
          assert cur + ws == ws;
        }
      }
    }
  }

  /** A line of two or more words measures at most the budget. */
  predicate GroupFits(grp: seq<string>, measure: string -> real, maxWidth: real)
  {
    |grp| >= 2 ==> measure(Join(grp, ' ')) <= maxWidth
  }

  predicate AllGroupsFit(g: seq<seq<string>>, measure: string -> real, maxWidth: real)
  {
    forall k :: 0 <= k < |g| ==> GroupFits(g[k], measure, maxWidth)
  }

  /** A group of two or more words fits the budget. */
  lemma {:induction false} GroupsFit(ws: seq<string>, cur: seq<string>, measure: string -> real, maxWidth: real)
    requires GroupFits(cur, measure, maxWidth)
    ensures AllGroupsFit(Groups(ws, cur, measure, maxWidth), measure, maxWidth)
    decreases |ws|
  {
    if |ws| == 0 {
    } else {
      var w := ws[0];
      var g := Groups(ws, cur, measure, maxWidth);
      if measure(Join(cur + [w], ' ')) <= maxWidth {
        var rest := Groups(ws[1..], cur + [w], measure, maxWidth);
        assert g == rest;
        GroupsFit(ws[1..], cur + [w], measure, maxWidth);
      } else {
        var rest := Groups(ws[1..], [w], measure, maxWidth);
        GroupsFit(ws[1..], [w], measure, maxWidth);
        if |cur| > 0 {
          assert g == [cur] + rest;
          forall k | 0 <= k < |g| ensures GroupFits(g[k], measure, maxWidth) {
            if k > 0 {
              assert g[k] == rest[k - 1];
            }
          }
        } else {
          assert g == [] + rest == rest;
        }
      }
    }
  }

  /** Group `k` was closed because the first word of group `k + 1` did not fit after it. */
  predicate BrokenGreedily(g: seq<seq<string>>, k: int, measure: string -> real, maxWidth: real)
  {
    0 <= k < |g| - 1 && |g[k + 1]| > 0 && measure(Join(g[k] + [g[k + 1][0]], ' ')) > maxWidth
  }

  /** A line ends only where the next line's first word would have made it too wide. */
  lemma {:induction false} GroupsGreedy(ws: seq<string>, cur: seq<string>, measure: string -> real, maxWidth: real)
    ensures var g := Groups(ws, cur, measure, maxWidth);
            forall k :: 0 <= k < |g| - 1 ==> BrokenGreedily(g, k, measure, maxWidth)
    decreases |ws|
  {
    if |ws| == 0 {
    } else {
      var w := ws[0];
      var g := Groups(ws, cur, measure, maxWidth);
      if measure(Join(cur + [w], ' ')) <= maxWidth {
        assert g == Groups(ws[1..], cur + [w], measure, maxWidth);
        GroupsGreedy(ws[1..], cur + [w], measure, maxWidth);
      } else {
        var rest := Groups(ws[1..], [w], measure, maxWidth);
        GroupsGreedy(ws[1..], [w], measure, maxWidth);
        GroupsShape(ws[1..], [w], measure, maxWidth);
        if |cur| > 0 {
          assert g == [cur] + rest;
          forall k | 0 <= k < |g| - 1
            ensures BrokenGreedily(g, k, measure, maxWidth)
          {
            if k > 0 {
              assert BrokenGreedily(rest, k - 1, measure, maxWidth);
              assert g[k] == rest[k - 1] && g[k + 1] == rest[k];
            }
          }
        } else {
          assert g == rest;
        }
      }
    }
  }

  /** Lines joined with spaces equal their words joined with spaces. */
  lemma {:induction false} JoinOfJoins(g: seq<seq<string>>)
    requires |g| > 0 && forall k :: 0 <= k < |g| ==> |g[k]| > 0
    ensures Join(JoinLines(g), ' ') == Join(Flatten(g), ' ')
    decreases |g|
  {
    if |g| == 1 {
      assert JoinLines(g) == [Join(g[0], ' ')];
      assert g[1..] == [];
      assert Flatten(g) == g[0] + Flatten([]) == g[0];
    } else {
      JoinOfJoins(g[1..]);
      assert JoinLines(g) == [Join(g[0], ' ')] + JoinLines(g[1..]);
      JoinCons(Join(g[0], ' '), JoinLines(g[1..]), ' ');
      assert Flatten(g[1..]) == g[1] + Flatten(g[2..]) by { assert g[1..][1..] == g[2..]; }
      JoinAppend(g[0], Flatten(g[1..]), ' ');
    }
  }

  /** Joining the wrapped lines with single spaces gives back the text, and there is always a line. */
  lemma WrapJoinsToText(text: string, measure: string -> real, maxWidth: real)
    ensures |WrapLines(text, measure, maxWidth)| >= 1
    ensures Join(WrapLines(text, measure, maxWidth), ' ') == text
  {
    var words := Split(text, ' ');
    var g := Groups(words, [], measure, maxWidth);
    GroupsShape(words, [], measure, maxWidth);
    GroupsFlatten(words, [], measure, maxWidth);
    assert [] + words == words;
    JoinOfJoins(g);
  }

  /**
   * Line `k` consists of exactly the `k`-th group of words, and the groups
   * in order are the words of the text: each word is kept once, in order.
   */
  lemma WrapKeepsWords(text: string, measure: string -> real, maxWidth: real)
    ensures var lines := WrapLines(text, measure, maxWidth);
            var g := Groups(Split(text, ' '), [], measure, maxWidth);
            |lines| == |g| && Flatten(g) == Split(text, ' ') &&
            forall k :: 0 <= k < |lines| ==> Split(lines[k], ' ') == g[k]
  {
    var words := Split(text, ' ');
    var g := Groups(words, [], measure, maxWidth);
    GroupsShape(words, [], measure, maxWidth);
    GroupsFlatten(words, [], measure, maxWidth);
    forall k | 0 <= k < |g| ensures Split(Join(g[k], ' '), ' ') == g[k] {
      SplitJoin(g[k], ' ');
    }
  }

  /** `"".split(' ')` is `[""]`, so the empty text wraps to one empty line. */
  lemma WrapEmptyText(measure: string -> real, maxWidth: real)
    ensures WrapLines("", measure, maxWidth) == [""]
  {
    assert [""][1..] == [] && [] + [""] == [""];
    assert Join([""], ' ') == "";
    assert Groups([], [""], measure, maxWidth) == [[""]];
  }

  /** Every line with a space in it (two or more words) fits; only a one-word line can be too wide. */
  lemma WrapLinesFit(text: string, measure: string -> real, maxWidth: real)
    ensures var lines := WrapLines(text, measure, maxWidth);
            forall k :: 0 <= k < |lines| && ' ' in lines[k] ==> measure(lines[k]) <= maxWidth
  {
    var words := Split(text, ' ');
    var g := Groups(words, [], measure, maxWidth);
    GroupsShape(words, [], measure, maxWidth);
    GroupsFit(words, [], measure, maxWidth);
    assert NoSpaceWords(words) && NoSpaceWords([]);
    forall k | 0 <= k < |g|
      ensures ' ' in Join(g[k], ' ') ==> measure(Join(g[k], ' ')) <= maxWidth
    {
      assert AllGroupsFit(g, measure, maxWidth);
      assert GroupFits(g[k], measure, maxWidth);
      if |g[k]| == 1 {
        assert Join(g[k], ' ') == g[k][0];
      }
    }
  }

  /** Line `k` ends because the first word of line `k + 1` would not have fitted after it. */
  predicate LineBrokenGreedily(lines: seq<string>, k: int, measure: string -> real, maxWidth: real)
  {
    0 <= k < |lines| - 1 && measure(lines[k] + " " + Split(lines[k + 1], ' ')[0]) > maxWidth
  }

  /** The wrap is greedy: the first word of each following line would not have fitted on the line before. */
  lemma WrapGreedy(text: string, measure: string -> real, maxWidth: real)
    ensures var lines := WrapLines(text, measure, maxWidth);
            forall k :: 0 <= k < |lines| - 1 ==> LineBrokenGreedily(lines, k, measure, maxWidth)
  {
    var words := Split(text, ' ');
    var g := Groups(words, [], measure, maxWidth);
    var lines := WrapLines(text, measure, maxWidth);
    GroupsShape(words, [], measure, maxWidth);
    GroupsGreedy(words, [], measure, maxWidth);
    forall k | 0 <= k < |lines| - 1
      ensures LineBrokenGreedily(lines, k, measure, maxWidth)
    {
      assert BrokenGreedily(g, k, measure, maxWidth);
      SplitJoin(g[k + 1], ' ');
      JoinAppend(g[k], [g[k + 1][0]], ' ');
    }
  }

  // ----- background luminance -----

  datatype Rgb = Rgb(r: int, g: int, b: int)

  predicate ValidPixel(p: Rgb)
  {
    0 <= p.r <= 255 && 0 <= p.g <= 255 && 0 <= p.b <= 255
  }

  /** A decoded image: `pixels[y][x]` for `y < height`, `x < width`. */
  datatype Image = Image(width: nat, height: nat, pixels: seq<seq<Rgb>>)

  predicate ValidRow(row: seq<Rgb>)
  {
    forall x :: 0 <= x < |row| ==> ValidPixel(row[x])
  }

  predicate ValidImage(img: Image)
  {
    |img.pixels| == img.height &&
    forall y :: 0 <= y < img.height ==> |img.pixels[y]| == img.width && ValidRow(img.pixels[y])
  }

  /** A rectangle in image pixels; the sides may be fractional. */
  datatype Bounds = Bounds(left: real, top: real, right: real, bottom: real)

  /** Whole-pixel rectangle `[left, right) x [top, bottom)`. */
  datatype Region = Region(left: int, top: int, right: int, bottom: int)

  /** Perceived brightness of one pixel (ITU-R BT.601 weights). */
  function Luma(p: Rgb): (l: real)
    requires ValidPixel(p)
    ensures 0.0 <= l <= 255.0
  {
    0.299 * p.r as real + 0.587 * p.g as real + 0.114 * p.b as real
  }

  /** The bounds rounded outwards (floor/ceil) and cut to the image. */
  function ClampRegion(img: Image, b: Bounds): (r: Region)
    ensures 0 <= r.left && 0 <= r.top && r.right <= img.width && r.bottom <= img.height
    ensures b.left < 0.0 ==> r.left == 0
    ensures b.left >= 0.0 ==> r.left as real <= b.left < r.left as real + 1.0
    ensures b.top < 0.0 ==> r.top == 0
    ensures b.top >= 0.0 ==> r.top as real <= b.top < r.top as real + 1.0
    ensures b.right > img.width as real ==> r.right == img.width
    ensures b.right <= img.width as real ==> r.right as real - 1.0 < b.right <= r.right as real
    ensures b.bottom > img.height as real ==> r.bottom == img.height
    ensures b.bottom <= img.height as real ==> r.bottom as real - 1.0 < b.bottom <= r.bottom as real
  {
    var l := Floor(b.left);
    var t := Floor(b.top);
    var rt := Ceil(b.right);
    var bt := Ceil(b.bottom);
    Region(if l < 0 then 0 else l, if t < 0 then 0 else t,
           if rt > img.width then img.width else rt, if bt > img.height then img.height else bt)
  }

  predicate IsEmpty(r: Region)
  {
    r.right <= r.left || r.bottom <= r.top
  }

  /** Sum of the lumas of `row[left..right]`. */
  function RowSum(row: seq<Rgb>, left: int, right: int): real
    requires 0 <= left && right <= |row| && ValidRow(row)
    decreases right - left
  {
    if right <= left then 0.0 else RowSum(row, left, right - 1) + Luma(row[right - 1])
  }

  /** Sum of the lumas of the rows `top..bottom` between columns `left` and `right`. */
  function AreaSum(img: Image, left: int, top: int, right: int, bottom: int): real
    requires ValidImage(img)
    requires 0 <= left && right <= img.width && 0 <= top && bottom <= img.height
    decreases bottom - top
  {
    if bottom <= top then 0.0
    else AreaSum(img, left, top, right, bottom - 1) + RowSum(img.pixels[bottom - 1], left, right)
  }

  /** `calculateLuminance`: 255 for an empty clamped region, otherwise the mean luma over it. */
  function RegionLuminance(img: Image, b: Bounds): real
    requires ValidImage(img)
  {
    var r := ClampRegion(img, b);
    if IsEmpty(r) then 255.0
    else AreaSum(img, r.left, r.top, r.right, r.bottom) / PixelCount(r)
  }

  /** Number of pixels in a region. */
  function PixelCount(r: Region): real
  {
    (r.right - r.left) as real * (r.bottom - r.top) as real
  }

  lemma {:induction false} RowSumBounds(row: seq<Rgb>, left: int, right: int)
    requires 0 <= left <= right <= |row| && ValidRow(row)
    ensures 0.0 <= RowSum(row, left, right) <= 255.0 * (right - left) as real
    decreases right - left
  {
    if right > left {
      RowSumBounds(row, left, right - 1);
    }
  }

  lemma {:induction false} AreaSumBounds(img: Image, left: int, top: int, right: int, bottom: int)
    requires ValidImage(img)
    requires 0 <= left <= right <= img.width && 0 <= top <= bottom <= img.height
    ensures 0.0 <= AreaSum(img, left, top, right, bottom) <= 255.0 * (right - left) as real * (bottom - top) as real
    decreases bottom - top
  {
    if bottom > top {
      AreaSumBounds(img, left, top, right, bottom - 1);
      RowSumBounds(img.pixels[bottom - 1], left, right);
      var w := 255.0 * (right - left) as real;
      assert w * (bottom - top) as real == w * (bottom - 1 - top) as real + w;
    }
  }

  /** The luminance of any region lies in `[0, 255]`. */
  lemma LuminanceInRange(img: Image, b: Bounds)
    requires ValidImage(img)
    ensures 0.0 <= RegionLuminance(img, b) <= 255.0
  {
    var r := ClampRegion(img, b);
    if !IsEmpty(r) {
      var sum := AreaSum(img, r.left, r.top, r.right, r.bottom);
      AreaSumBounds(img, r.left, r.top, r.right, r.bottom);
      var w, h := (r.right - r.left) as real, (r.bottom - r.top) as real;
      assert PixelCount(r) == w * h > 0.0;
      MeanBounds(sum, PixelCount(r));
    }
  }

  lemma MeanBounds(sum: real, n: real)
    requires n > 0.0 && 0.0 <= sum <= 255.0 * n
    ensures 0.0 <= sum / n <= 255.0
  {
    assert sum / n * n == sum;
  }

  /** The inner loop of `calculateLuminance`: the luma total of one row of the region. */
  method SumRow(row: seq<Rgb>, left: int, right: int) returns (total: real)
    requires 0 <= left <= right <= |row| && ValidRow(row)
    ensures total == RowSum(row, left, right)
  {
    total := 0.0;
    var x := left;
    while x < right
      invariant left <= x <= right
      invariant total == RowSum(row, left, x)
    {
      total := total + Luma(row[x]);
      x := x + 1;
    }
  }

  /** `calculateLuminance`: sums the luma of the clamped region and divides by its pixel count. */
  method CalculateLuminance(img: Image, b: Bounds) returns (luma: real)
    requires ValidImage(img)
    ensures luma == RegionLuminance(img, b)
    ensures 0.0 <= luma <= 255.0
  {
    LuminanceInRange(img, b);
    var r := ClampRegion(img, b);
    if r.right <= r.left || r.bottom <= r.top {
      return 255.0;
    }
    var totalLuma := 0.0;
    var y := r.top;
    while y < r.bottom
      invariant r.top <= y <= r.bottom
      invariant totalLuma == AreaSum(img, r.left, r.top, r.right, y)
    {
      var rowLuma := SumRow(img.pixels[y], r.left, r.right);
      totalLuma := totalLuma + rowLuma;
      y := y + 1;
    }
    luma := totalLuma / PixelCount(r);
  }

  // ----- text colour -----

  /** A CSS text colour: the two automatic choices, or an explicit `[r, g, b]` array. */
  datatype TextColor = Black | White | Explicit(rgb: seq<int>)

  /** `pickTextColor`: white text on a dark band, black text otherwise. */
  method PickTextColor(img: Image, textBounds: Bounds) returns (c: TextColor)
    requires ValidImage(img)
    ensures c == White <==> RegionLuminance(img, textBounds) < LUMINANCE_THRESHOLD
    ensures c == Black <==> RegionLuminance(img, textBounds) >= LUMINANCE_THRESHOLD
  {
    var luma := CalculateLuminance(img, textBounds);
    c := if luma < LUMINANCE_THRESHOLD then White else Black;
  }

  /** A band that misses the image entirely reads as 255, so it gets black text. */
  lemma EmptyRegionIsBright(img: Image, b: Bounds)
    requires ValidImage(img) && IsEmpty(ClampRegion(img, b))
    ensures RegionLuminance(img, b) == 255.0 && RegionLuminance(img, b) >= LUMINANCE_THRESHOLD
  {
  }

  // ----- font scaling -----

  /**
   * `parseInt(data-original-width) || 4096`: `attr` is the parsed attribute,
   * `None` when it is missing or not a number.
   */
  function OriginalWidth(attr: Option<int>): (w: int)
    ensures w != 0
    ensures attr.Some? && attr.value != 0 ==> w == attr.value
    ensures attr.None? || attr.value == 0 ==> w == DEFAULT_ORIGINAL_WIDTH
  {
    if attr.Some? && attr.value != 0 then attr.value else DEFAULT_ORIGINAL_WIDTH
  }

  /** `calculateScaleFactor`: the displayed image width over the print width. */
  function ScaleFactor(naturalWidth: int, attr: Option<int>): (s: real)
    ensures s * OriginalWidth(attr) as real == naturalWidth as real
  {
    naturalWidth as real / OriginalWidth(attr) as real
  }

  /** `textSpec.fontSize || 240`: a missing or zero size falls back to 240. */
  function StoryFontSize(fontSize: Option<real>): (f: real)
    ensures fontSize.Some? && fontSize.value != 0.0 ==> f == fontSize.value
    ensures fontSize.None? || fontSize.value == 0.0 ==> f == DEFAULT_STORY_FONT_SIZE
  {
    if fontSize.Some? && fontSize.value != 0.0 then fontSize.value else DEFAULT_STORY_FONT_SIZE
  }

  /** The on-screen font size: the story size scaled, rounded to the nearest pixel. */
  function DisplayFontSize(fontSize: Option<real>, scale: real): (d: int)
    ensures d as real - 0.5 <= StoryFontSize(fontSize) * scale < d as real + 0.5
  {
    Round(StoryFontSize(fontSize) * scale)
  }

  /** A 1200-pixel preview of a 4096-pixel page shows the default 240 size at 70 pixels. */
  lemma DefaultPreviewFontSize()
    ensures ScaleFactor(1200, None) == 0.29296875
    ensures DisplayFontSize(None, ScaleFactor(1200, None)) == 70
  {
  }

  // ----- font family -----

  /** ASCII lower-casing, the only case-insensitivity the extension match needs. */
  function Lower(c: char): char
  {
    if 'A' <= c <= 'Z' then (c as int - 'A' as int + 'a' as int) as char else c
  }

  /** `s` ends with `ext` (given in lower case), ignoring ASCII case. */
  predicate EndsWithCi(s: string, ext: string)
  {
    |ext| <= |s| && forall k :: 0 <= k < |ext| ==> Lower(s[|s| - |ext| + k]) == ext[k]
  }

  const FONT_EXTENSIONS: seq<string> := [".ttf", ".otf", ".woff", ".woff2"]

  /** The font extension `s` ends with, ignoring case; `.woff2` is tried before `.woff`. */
  function FontExtension(s: string): (e: Option<string>)
    ensures e.Some? ==> e.value in FONT_EXTENSIONS && EndsWithCi(s, e.value)
    ensures e.None? ==> forall x :: x in FONT_EXTENSIONS ==> !EndsWithCi(s, x)
  {
    if EndsWithCi(s, ".woff2") then Some(".woff2")
    else if EndsWithCi(s, ".woff") then Some(".woff")
    else if EndsWithCi(s, ".ttf") then Some(".ttf")
    else if EndsWithCi(s, ".otf") then Some(".otf")
    else None
  }

  /** The `/\.(ttf|otf|woff2?)$/i` replacement: one trailing font extension removed. */
  function StripFontExtension(s: string): (r: string)
    ensures |r| <= |s| && r == s[..|r|]
    ensures FontExtension(s).None? ==> r == s
    ensures FontExtension(s).Some? ==> |r| + |FontExtension(s).value| == |s|
  {
    match FontExtension(s)
    case Some(e) => s[..|s| - |e|]
    case None => s
  }

  /** `-` and `_` become a space; every other character is kept. */
  function SeparatorToSpace(c: char): char
  {
    if c == '-' || c == '_' then ' ' else c
  }

  /** Every `-` and `_` turned into a space. */
  function SeparatorsToSpaces(s: string): (r: string)
    ensures |r| == |s|
    ensures forall k :: 0 <= k < |s| ==> r[k] != '-' && r[k] != '_'
    ensures forall k :: 0 <= k < |s| && s[k] != '-' && s[k] != '_' ==> r[k] == s[k]
  {
    seq(|s|, k requires 0 <= k < |s| => SeparatorToSpace(s[k]))
  }

  /** `getFontFamily`: the font file's base name as a quoted CSS family. */
  function GetFontFamily(fontFile: string): (f: string)
    ensures |f| >= 2 && f[0] == '\'' && f[|f| - 1] == '\''
    ensures f[1..|f| - 1] == SeparatorsToSpaces(StripFontExtension(fontFile))
  {
    "'" + SeparatorsToSpaces(StripFontExtension(fontFile)) + "'"
  }

  /** A name ending in `.ttf` (after anything but a dot) has the extension `.ttf`. */
  lemma TtfExtension(s: string)
    requires |s| >= 5 && Lower(s[|s| - 5]) != '.'
    requires s[|s| - 4] == '.' && s[|s| - 3] == 't' && s[|s| - 2] == 't' && s[|s| - 1] == 'f'
    ensures FontExtension(s) == Some(".ttf")
  {
    assert !EndsWithCi(s, ".woff2") by {
      if |s| >= 6 { assert Lower(s[|s| - 6 + 5]) != ".woff2"[5]; }
    }
    assert !EndsWithCi(s, ".woff") by { assert Lower(s[|s| - 5 + 0]) != ".woff"[0]; }
    assert EndsWithCi(s, ".ttf") by {
      forall k | 0 <= k < 4 ensures Lower(s[|s| - 4 + k]) == ".ttf"[k] {
        if k == 0 {} else if k == 1 {} else if k == 2 {} else {}
      }
    }
  }

  /** `<a>-<b>.ttf` names the family `'<a> <b>'` when neither part holds a separator (`Quicksand-Medium.ttf` → `'Quicksand Medium'`). */
  lemma FontFamilyOfSeparatedName(a: string, b: string)
    requires forall k :: 0 <= k < |a| ==> a[k] != '-' && a[k] != '_'
    requires forall k :: 0 <= k < |b| ==> b[k] != '-' && b[k] != '_'
    requires |b| > 0 && Lower(b[|b| - 1]) != '.'
    ensures GetFontFamily(a + "-" + b + ".ttf") == "'" + (a + " " + b) + "'"
  {
    var base := a + "-" + b;
    var s := base + ".ttf";
    assert s[|s| - 5] == b[|b| - 1];
    TtfExtension(s);
    assert StripFontExtension(s) == base by { assert s[..|base|] == base; }
    SeparatorJoinedBySpace(a, b);
  }

  /** Turning separators into spaces in `<a>-<b>` gives `<a> <b>` when neither part holds a separator. */
  lemma SeparatorJoinedBySpace(a: string, b: string)
    requires forall k :: 0 <= k < |a| ==> a[k] != '-' && a[k] != '_'
    requires forall k :: 0 <= k < |b| ==> b[k] != '-' && b[k] != '_'
    ensures SeparatorsToSpaces(a + "-" + b) == a + " " + b
  {
    var base := a + "-" + b;
    forall k | 0 <= k < |base| ensures SeparatorsToSpaces(base)[k] == (a + " " + b)[k] {
      if k < |a| {
        assert base[k] == a[k];
      } else if k > |a| {
        assert base[k] == b[k - |a| - 1];
      }
    }
  }

  /** Only the last extension goes: `<name>.ttf.ttf` keeps `<name>.ttf` in its family. */
  lemma FontFamilyStripsOnce(name: string)
    ensures GetFontFamily(name + ".ttf" + ".ttf") == "'" + SeparatorsToSpaces(name + ".ttf") + "'"
  {
    var base := name + ".ttf";
    var s := base + ".ttf";
    assert s[|s| - 5] == 'f';
    TtfExtension(s);
    assert StripFontExtension(s) == base by { assert s[..|base|] == base; }
  }

  // ----- overlay decisions of `renderTextOverlay` -----

  /** The `color` of a text spec: an array of channel values, absent, or any other value. */
  datatype ColorSpec = NoColor | ColorArray(components: seq<int>) | OtherColor

  datatype BackgroundSpec = BackgroundSpec(color: Option<seq<int>>, padding: Option<real>)

  /** The fields of a page's text spec the renderer reads; `None` stands for `undefined`. */
  datatype TextSpec = TextSpec(
    content: Option<string>,
    font: Option<string>,
    fontSize: Option<real>,
    position: Option<string>,
    leftPercent: Option<real>,
    topPercent: Option<real>,
    widthPercent: Option<real>,
    color: ColorSpec,
    background: Option<BackgroundSpec>)

  /** Vertical anchoring inside the safe zone: a top or bottom margin in percent, centred, or none. */
  datatype Vertical = TopMargin(pct: JsNumber) | BottomMargin(pct: JsNumber) | Centered | Unanchored

  /**
   * Where the overlay goes: a dragged position, or the safe zone's side
   * margins plus a vertical anchor (`NaN` or an infinity over a zero-size image).
   */
  datatype Placement = Custom(leftPercent: real, topPercent: real) | InSafeZone(left: JsNumber, right: JsNumber, vertical: Vertical)

  datatype Background = Background(rgb: seq<int>, padding: real)

  /** Everything `renderTextOverlay` decides for one page. */
  datatype Overlay = Overlay(
    fontFamily: string,
    storyFontSize: real,
    displayFontSize: int,
    lines: seq<string>,
    position: string,
    placement: Placement,
    width: Option<real>,
    color: TextColor,
    background: Option<Background>)

  /** The CSS family: from the font file when one is named, `sans-serif` otherwise. */
  function FontFamilyOf(font: Option<string>): (f: string)
    ensures font.None? || font.value == "" ==> f == "sans-serif"
    ensures font.Some? && font.value != "" ==> f == GetFontFamily(font.value)
  {
    if font.Some? && font.value != "" then GetFontFamily(font.value) else "sans-serif"
  }

  /** `textSpec.position || 'bottom'`. */
  function PositionOf(position: Option<string>): (p: string)
    ensures p != ""
    ensures position.Some? && position.value != "" ==> p == position.value
    ensures position.None? || position.value == "" ==> p == "bottom"
  {
    if position.Some? && position.value != "" then position.value else "bottom"
  }

  /**
   * The band sampled for automatic colour: 200 pixels below the safe zone's
   * top for `top`, 100 pixels either side of the middle for `center`, and
   * 200 pixels above the safe zone's bottom for every other position.
   */
  function SampleBand(zone: SafeZones.Zone, position: string, imageHeight: int): (b: Bounds)
    ensures b.left == zone.left as real && b.right == zone.right as real
    ensures b.bottom - b.top == 200.0
    ensures position == "top" ==> b.top == zone.top as real
    ensures position == "center" ==> b.top + b.bottom == imageHeight as real
    ensures position != "top" && position != "center" ==> b.bottom == zone.bottom as real
  {
    var h := imageHeight as real;
    var top := if position == "top" then zone.top as real
               else if position == "center" then h / 2.0 - 100.0
               else zone.bottom as real - 200.0;
    var bottom := if position == "top" then zone.top as real + 200.0
                  else if position == "center" then h / 2.0 + 100.0
                  else zone.bottom as real;
    Bounds(zone.left as real, top, zone.right as real, bottom)
  }

  /** A dragged position wins when both percentages are defined; otherwise the safe-zone margins apply. */
  function PlacementOf(spec: TextSpec, position: string, zone: SafeZones.Zone, imageWidth: int, imageHeight: int): (p: Placement)
    ensures p.Custom? <==> spec.leftPercent.Some? && spec.topPercent.Some?
    ensures p.Custom? ==> p.leftPercent == spec.leftPercent.value && p.topPercent == spec.topPercent.value
    ensures p.InSafeZone? ==>
              var css := SafeZones.SafeZonesToCss(zone, imageWidth as real, imageHeight as real);
              p.left == css.left && p.right == css.right &&
              (p.vertical.TopMargin? <==> position == "top") &&
              (p.vertical.BottomMargin? <==> position == "bottom") &&
              (p.vertical.Centered? <==> position == "center") &&
              (p.vertical.TopMargin? ==> p.vertical.pct == css.top) &&
              (p.vertical.BottomMargin? ==> p.vertical.pct == css.bottom)
  {
    if spec.leftPercent.Some? && spec.topPercent.Some? then
      Custom(spec.leftPercent.value, spec.topPercent.value)
    else
      var css := SafeZones.SafeZonesToCss(zone, imageWidth as real, imageHeight as real);
      var vertical := if position == "top" then TopMargin(css.top)
                      else if position == "bottom" then BottomMargin(css.bottom)
                      else if position == "center" then Centered
                      else Unanchored;
      InSafeZone(css.left, css.right, vertical)
  }

  /** A CSS width is set only for a truthy `widthPercent`. */
  function WidthOf(widthPercent: Option<real>): (w: Option<real>)
    ensures w.Some? <==> widthPercent.Some? && widthPercent.value != 0.0
    ensures w.Some? ==> w.value == widthPercent.value
  {
    if widthPercent.Some? && widthPercent.value != 0.0 then widthPercent else None
  }

  /** A background box, white and padded by 20 unless the spec says otherwise. */
  function BackgroundOf(bg: Option<BackgroundSpec>): (r: Option<Background>)
    ensures r.Some? <==> bg.Some?
    ensures r.Some? ==> r.value.rgb == bg.value.color.GetOr([255, 255, 255])
    ensures r.Some? ==> (bg.value.padding.Some? && bg.value.padding.value != 0.0 ==> r.value.padding == bg.value.padding.value)
    ensures r.Some? ==> (bg.value.padding.None? || bg.value.padding.value == 0.0 ==> r.value.padding == 20.0)
  {
    match bg
    case None => None
    case Some(b) =>
      var padding := if b.padding.Some? && b.padding.value != 0.0 then b.padding.value else 20.0;
      Some(Background(b.color.GetOr([255, 255, 255]), padding))
  }

  /** The canvas measurement with `ctx.font` set to the given size and family. */
  function MeasureWith(measure: (string, int, string) -> real, family: string, size: int): string -> real
  {
    text => measure(family, size, text)
  }

  /**
   * `renderTextOverlay` for a loaded image: nothing for a spec without
   * content; otherwise the overlay wraps the content against the safe zone's
   * width, whatever `widthPercent` says, and takes an explicit colour only
   * from a colour array.
   */
  method RenderTextOverlay(spec: TextSpec, pageType: Option<string>, img: Image, originalWidthAttr: Option<int>,
                           measure: (string, int, string) -> real)
    returns (overlay: Option<Overlay>)
    requires ValidImage(img)
    ensures overlay.None? <==> spec.content.None? || spec.content.value == ""
    ensures overlay.Some? ==>
              var o := overlay.value;
              var zone := SafeZones.CalculateSafeZones(img.width, img.height, SafeZones.MapPageType(pageType));
              o.fontFamily == FontFamilyOf(spec.font) &&
              o.storyFontSize == StoryFontSize(spec.fontSize) &&
              o.displayFontSize == DisplayFontSize(spec.fontSize, ScaleFactor(img.width, originalWidthAttr)) &&
              o.lines == WrapLines(spec.content.value, MeasureWith(measure, o.fontFamily, o.displayFontSize),
                                   (zone.right - zone.left) as real) &&
              o.position == PositionOf(spec.position) &&
              o.placement == PlacementOf(spec, o.position, zone, img.width, img.height) &&
              o.width == WidthOf(spec.widthPercent) &&
              o.background == BackgroundOf(spec.background)
    ensures overlay.Some? && spec.color.ColorArray? ==> overlay.value.color == Explicit(spec.color.components)
    ensures overlay.Some? && !spec.color.ColorArray? ==>
              var zone := SafeZones.CalculateSafeZones(img.width, img.height, SafeZones.MapPageType(pageType));
              var luma := RegionLuminance(img, SampleBand(zone, overlay.value.position, img.height));
              overlay.value.color == (if luma < LUMINANCE_THRESHOLD then White else Black)
  {
    if spec.content.None? || spec.content.value == "" {
      return None;
    }
    var scaleFactor := ScaleFactor(img.width, originalWidthAttr);
    var zone := SafeZones.CalculateSafeZones(img.width, img.height, SafeZones.MapPageType(pageType));
    var maxTextWidth := zone.right - zone.left;
    var fontFamily := FontFamilyOf(spec.font);
    var storyFontSize := StoryFontSize(spec.fontSize);
    var displayFontSize := DisplayFontSize(spec.fontSize, scaleFactor);
    var lines := WrapText(spec.content.value, MeasureWith(measure, fontFamily, displayFontSize), maxTextWidth as real);
    var position := PositionOf(spec.position);
    var textColor;
    if spec.color.ColorArray? {
      textColor := Explicit(spec.color.components);
    } else {
      textColor := PickTextColor(img, SampleBand(zone, position, img.height));
    }
    overlay := Some(Overlay(fontFamily, storyFontSize, displayFontSize, lines, position,
                            PlacementOf(spec, position, zone, img.width, img.height),
                            WidthOf(spec.widthPercent), textColor, BackgroundOf(spec.background)));
  }
}
