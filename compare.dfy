/**
 * The comparison view's canvas drawing: a second greedy word wrap that keeps
 * the current line as a string (and so drops empty lines), and the geometry
 * of the `fillText` calls that draw an overlay's lines.
 */
module Compare {
  import opened Strings
  import opened OverlayEditor
  import TextRenderer

  /**
   * The canvas wrap over the remaining words `ws`, with `cur` the line being
   * built: a word is appended after a space, unless the result measures
   * wider than `maxWidth` and the line is non-empty, in which case the line
   * is flushed and the word starts the next one. An empty line is never flushed.
   */
  function CanvasLines(ws: seq<string>, cur: string, measure: string -> real, maxWidth: real): seq<string>
    decreases |ws|
  {
    if |ws| == 0 then (if cur != "" then [cur] else [])
    else
      var test := cur + (if cur != "" then " " else "") + ws[0];
      if measure(test) > maxWidth && cur != "" then [cur] + CanvasLines(ws[1..], ws[0], measure, maxWidth)
      else CanvasLines(ws[1..], test, measure, maxWidth)
  }

  function CanvasWrap(text: string, measure: string -> real, maxWidth: real): seq<string>
  {
    CanvasLines(Split(text, ' '), "", measure, maxWidth)
  }

  /** `wrapText` of the comparison view. */
  method WrapTextCanvas(text: string, measure: string -> real, maxWidth: real) returns (lines: seq<string>)
    ensures lines == CanvasWrap(text, measure, maxWidth)
  {
    var words := Split(text, ' ');
    lines := [];
    var currentLine := "";
    for i := 0 to |words|
      invariant lines + CanvasLines(words[i..], currentLine, measure, maxWidth) == CanvasWrap(text, measure, maxWidth)
    {
      var word := words[i];
      assert words[i..][0] == word && words[i..][1..] == words[i + 1..];
      var testLine := currentLine + (if currentLine != "" then " " else "") + word;
      if measure(testLine) > maxWidth && currentLine != "" {
        lines := lines + [currentLine];
        currentLine := word;
      } else {
        currentLine := testLine;
      }
    }
    if currentLine != "" {
      lines := lines + [currentLine];
    }
  }

  /** The empty text wraps to no lines at all (the page renderer's wrap gives one empty line). */
  lemma CanvasWrapEmpty(measure: string -> real, maxWidth: real)
    ensures CanvasWrap("", measure, maxWidth) == []
    ensures TextRenderer.WrapLines("", measure, maxWidth) == [""]
  {
    assert Split("", ' ') == [""];
    assert CanvasLines([""][1..], "", measure, maxWidth) == [];
    TextRenderer.WrapEmptyText(measure, maxWidth);
  }

  predicate NoEmptyWord(ws: seq<string>)
  {
    forall j :: 0 <= j < |ws| ==> ws[j] != ""
  }

  /** A non-empty list of non-empty words joins to a non-empty string. */
  lemma JoinNonEmpty(g: seq<string>)
    requires |g| > 0 && NoEmptyWord(g)
    ensures Join(g, ' ') != ""
  {
    if |g| > 1 {
      assert Join(g, ' ') == g[0] + [' '] + Join(g[1..], ' ');
    }
  }

  /**
   * With no empty word, the canvas wrap run from the joined line `Join(g)`
   * gives exactly the page renderer's lines run from the group `g`.
   */
  lemma {:induction false} CanvasLinesAgree(ws: seq<string>, g: seq<string>, measure: string -> real, maxWidth: real)
    requires NoEmptyWord(ws) && NoEmptyWord(g)
    ensures CanvasLines(ws, Join(g, ' '), measure, maxWidth) ==
            TextRenderer.JoinLines(TextRenderer.Groups(ws, g, measure, maxWidth))
    decreases |ws|
  {
    var cur := Join(g, ' ');
    if |g| > 0 {
      JoinNonEmpty(g);
    }
    if |ws| == 0 {
      assert TextRenderer.JoinLines([g]) == [cur];
    } else {
      var w := ws[0];
      var test := cur + (if cur != "" then " " else "") + w;
      assert Join(g + [w], ' ') == test by {
        if |g| > 0 {
          JoinAppend(g, [w], ' ');
        } else {
          assert g + [w] == [w];
        }
      }
      assert NoEmptyWord(g + [w]) && NoEmptyWord(ws[1..]) && NoEmptyWord([w]);
      if measure(test) <= maxWidth {
        CanvasLinesAgree(ws[1..], g + [w], measure, maxWidth);
      } else {
        CanvasLinesAgree(ws[1..], [w], measure, maxWidth);
        assert Join([w], ' ') == w;
        if |g| > 0 {
          TextRenderer.JoinLinesAppend([g], TextRenderer.Groups(ws[1..], [w], measure, maxWidth));
        } else {
          assert [] + TextRenderer.Groups(ws[1..], [w], measure, maxWidth) == TextRenderer.Groups(ws[1..], [w], measure, maxWidth);
        }
      }
    }
  }

  /**
   * When no word is empty (no leading, trailing or repeated space, and a
   * non-empty text) both wraps give the same lines; so the canvas lines
   * join back to the text, keep every word, and break greedily too.
   */
  lemma CanvasWrapAgrees(text: string, measure: string -> real, maxWidth: real)
    requires NoEmptyWord(Split(text, ' '))
    ensures CanvasWrap(text, measure, maxWidth) == TextRenderer.WrapLines(text, measure, maxWidth)
    ensures Join(CanvasWrap(text, measure, maxWidth), ' ') == text
  {
    assert Join([], ' ') == "";
    CanvasLinesAgree(Split(text, ' '), [], measure, maxWidth);
    TextRenderer.WrapJoinsToText(text, measure, maxWidth);
  }

  /** Every line is non-empty, and one that holds a space measures at most `maxWidth`. */
  predicate LinesFit(lines: seq<string>, measure: string -> real, maxWidth: real)
  {
    forall k :: 0 <= k < |lines| ==> lines[k] != "" && (' ' in lines[k] ==> measure(lines[k]) <= maxWidth)
  }

  /** Canvas lines are never empty, and one that holds a space was measured and fits. */
  lemma {:induction false} CanvasLinesFit(ws: seq<string>, cur: string, measure: string -> real, maxWidth: real)
    requires forall j :: 0 <= j < |ws| ==> ' ' !in ws[j]
    requires ' ' in cur ==> measure(cur) <= maxWidth
    ensures LinesFit(CanvasLines(ws, cur, measure, maxWidth), measure, maxWidth)
    decreases |ws|
  {
    if |ws| > 0 {
      var test := cur + (if cur != "" then " " else "") + ws[0];
      if measure(test) > maxWidth && cur != "" {
        CanvasLinesFit(ws[1..], ws[0], measure, maxWidth);
        var rest := CanvasLines(ws[1..], ws[0], measure, maxWidth);
        var lines := [cur] + rest;
        assert forall k :: 1 <= k < |lines| ==> lines[k] == rest[k - 1];
      } else {
        if cur == "" {
          assert test == ws[0];
        }
        CanvasLinesFit(ws[1..], test, measure, maxWidth);
      }
    }
  }

  lemma CanvasWrapFits(text: string, measure: string -> real, maxWidth: real)
    ensures LinesFit(CanvasWrap(text, measure, maxWidth), measure, maxWidth)
  {
    CanvasLinesFit(Split(text, ' '), "", measure, maxWidth);
  }

  // ----- drawing -----

  /** One `fillText(line, x, y)` call. */
  datatype FillText = FillText(line: string, x: real, y: real)

  /** The x anchor for the canvas alignment: the left edge, the middle, or the right edge of the box. */
  function TextX(align: string, left: real, width: real): (x: real)
    ensures align == "center" ==> x == left + width / 2.0
    ensures align == "right" ==> x == left + width
    ensures align != "center" && align != "right" ==> x == left
  {
    if align == "center" then left + width / 2.0
    else if align == "right" then left + width
    else left
  }

  /** With a non-negative width the anchors are ordered left, centre, right. */
  lemma AnchorsOrdered(left: real, width: real)
    requires width >= 0.0
    ensures TextX("left", left, width) <= TextX("center", left, width) <= TextX("right", left, width)
  {
  }

  /** The baseline of line `k`: one font size below the box top, then 1.2 font sizes per line. */
  function Baseline(top: real, fontSize: real, k: nat): real
  {
    top + fontSize + k as real * (fontSize * 1.2)
  }

  /** The next baseline is one line height (1.2 font sizes) below the previous one. */
  lemma BaselineStep(top: real, fontSize: real, k: nat)
    ensures Baseline(top, fontSize, k + 1) == Baseline(top, fontSize, k) + fontSize * 1.2
  {
    assert (k + 1) as real * (fontSize * 1.2) == k as real * (fontSize * 1.2) + fontSize * 1.2;
  }

  /** The wrap width in pixels. */
  function BoxWidth(o: OverlayData, canvasWidth: real): real
  {
    o.widthPercent / 100.0 * canvasWidth
  }

  /** `drawTextOverlay`: the lines of the canvas wrap, each at the aligned x and its baseline. */
  method DrawTextOverlay(o: OverlayData, canvasWidth: real, canvasHeight: real, measure: string -> real)
    returns (calls: seq<FillText>)
    ensures var lines := CanvasWrap(o.content, measure, BoxWidth(o, canvasWidth));
            |calls| == |lines| &&
            forall k :: 0 <= k < |calls| ==>
              calls[k] == FillText(lines[k], TextX(o.align, o.leftPercent / 100.0 * canvasWidth, BoxWidth(o, canvasWidth)),
                                   Baseline(o.topPercent / 100.0 * canvasHeight, o.fontSize, k))
  {
    var left := o.leftPercent / 100.0 * canvasWidth;
    var top := o.topPercent / 100.0 * canvasHeight;
    var width := o.widthPercent / 100.0 * canvasWidth;
    var lines := WrapTextCanvas(o.content, measure, width);
    var textX := left;
    if o.align == "center" {
      textX := left + width / 2.0;
    } else if o.align == "right" {
      textX := left + width;
    }
    assert textX == TextX(o.align, left, width);
    var currentY := top + o.fontSize;
    var lineHeight := o.fontSize * 1.2;
    calls := [];
    for i := 0 to |lines|
      invariant |calls| == i
      invariant currentY == Baseline(top, o.fontSize, i)
      invariant forall k :: 0 <= k < i ==> calls[k] == FillText(lines[k], textX, Baseline(top, o.fontSize, k))
    {
      calls := calls + [FillText(lines[i], textX, currentY)];
      BaselineStep(top, o.fontSize, i);
      currentY := currentY + lineHeight;
    }
    assert width == BoxWidth(o, canvasWidth);
    assert lines == CanvasWrap(o.content, measure, BoxWidth(o, canvasWidth));
  }

  /** With a positive font size, successive baselines are 1.2 font sizes apart and strictly descend the page. */
  lemma BaselinesDescend(top: real, fontSize: real, k: nat)
    requires fontSize > 0.0
    ensures Baseline(top, fontSize, k + 1) == Baseline(top, fontSize, k) + 1.2 * fontSize
    ensures Baseline(top, fontSize, k) < Baseline(top, fontSize, k + 1)
    ensures Baseline(top, fontSize, 0) == top + fontSize
  {
  }
}
