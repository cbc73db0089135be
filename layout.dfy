/** The layout half of `generateImage`: from the text and the settings, the
    display lines, the content width, the canvas size and the text anchors. */
module Layout {
  import opened JsString
  import opened Wrap
  import opened PopupSettings

  datatype Option<T> = None | Some(value: T)

  /** What `generateImage` computes before it paints: the display lines, the
      width of the text block, and the canvas width and height. */
  datatype LayoutResult = LayoutResult(
    lines: seq<string>, contentWidth: real, width: real, height: real)

  function Min(a: real, b: real): real { if a <= b then a else b }
  function Max(a: real, b: real): real { if a >= b then a else b }

  /** The border thickness that counts towards the canvas: none unless shown. */
  function BorderPx(s: Settings): int
  {
    if s.showBorder then s.borderWidth else 0
  }

  /** The width budget for wrapping: the maximum width less padding and the
      shown border on both sides. It is not clamped and can be negative. */
  function EffectiveWidth(s: Settings): (w: int)
    ensures CanvasWidth(w as real, s) == s.maxWidth as real
  {
    s.maxWidth - s.padding * 2 - (if s.showBorder then s.borderWidth * 2 else 0)
  }

  /** `fontSize * lineHeight`, the vertical advance per display line. */
  function LineHeightPx(s: Settings): real
  {
    s.fontSize as real * (s.lineHeightTenths as real / 10.0)
  }

  /** The display lines one input line contributes in wrap mode. */
  function Contribution(line: string, s: Settings, measure: string -> Width): seq<string>
  {
    if Trim(line) == [] then [""] else WrapLines(line, measure, EffectiveWidth(s) as real)
  }

  /** The display lines of a sequence of input lines in wrap mode, in order. */
  function WrappedLines(inputs: seq<string>, s: Settings, measure: string -> Width): seq<string>
  {
    if inputs == [] then []
    else WrappedLines(inputs[..|inputs| - 1], s, measure) + Contribution(inputs[|inputs| - 1], s, measure)
  }

  /** The display lines of `text`. */
  function DisplayLines(text: string, s: Settings, measure: string -> Width): seq<string>
  {
    if s.wrapText then WrappedLines(Split(text, '\n'), s, measure) else Split(text, '\n')
  }

  /** The running maximum of the measured widths, starting from 0. */
  function MaxMeasure(lines: seq<string>, measure: string -> Width): (m: real)
    ensures m >= 0.0
    ensures forall k :: 0 <= k < |lines| ==> measure(lines[k]) <= m
    ensures lines == [] ==> m == 0.0
    ensures lines != [] ==> exists k :: 0 <= k < |lines| && m == measure(lines[k])
  {
    if lines == [] then 0.0
    else
      var m0 := MaxMeasure(lines[..|lines| - 1], measure);
      var m := Max(m0, measure(lines[|lines| - 1]));
      assert forall k :: 0 <= k < |lines| - 1 ==> lines[k] == lines[..|lines| - 1][k];
      m
  }

  /** The canvas width: the content width plus padding and shown border on
      both sides. */
  function CanvasWidth(contentWidth: real, s: Settings): real
  {
    contentWidth + (s.padding * 2 + BorderPx(s) * 2) as real
  }

  /** The canvas height: one line advance per display line plus padding and
      shown border at top and bottom. */
  function CanvasHeight(lineCount: nat, s: Settings): real
  {
    lineCount as real * LineHeightPx(s) + (s.padding * 2 + BorderPx(s) * 2) as real
  }

  /** The layout `generateImage` computes, or `None` when it returns early
      because the text is blank. */
  function LayoutOf(text: string, s: Settings, measure: string -> Width): (r: Option<LayoutResult>)
    ensures r.None? <==> Trim(text) == []
  {
    if Trim(text) == [] then None
    else
      var lines := DisplayLines(text, s, measure);
      var widest := MaxMeasure(lines, measure);
      var content := if s.wrapText then Min(widest, EffectiveWidth(s) as real) else widest;
      Some(LayoutResult(lines, content, CanvasWidth(content, s), CanvasHeight(|lines|, s)))
  }

  /** The right edge the lines are right-aligned to. */
  function StartX(r: LayoutResult, s: Settings): real
  {
    r.width - s.padding as real - BorderPx(s) as real
  }

  /** The top of the first line. */
  function StartY(s: Settings): real
  {
    (s.padding + BorderPx(s)) as real
  }

  /** The top of display line `i`. */
  function LineY(s: Settings, i: nat): real
  {
    StartY(s) + i as real * LineHeightPx(s)
  }

  /** The `forEach` over the input lines in wrap mode: a blank line pushes
      one `""`, any other line pushes what `wrapTextLines` returns for it. */
  method CollectWrappedLines(inputLines: seq<string>, s: Settings, measure: string -> Width)
    returns (allLines: seq<string>)
    ensures allLines == WrappedLines(inputLines, s, measure)
  {
    allLines := [];
    var effectiveMaxWidth := EffectiveWidth(s) as real;
    for j := 0 to |inputLines|
      invariant allLines == WrappedLines(inputLines[..j], s, measure)
    {
      assert inputLines[..j + 1][..j] == inputLines[..j];
      var line := inputLines[j];
      if Trim(line) == "" {
        allLines := allLines + [""];
      } else {
        var wrappedLines := WrapTextLines(line, measure, effectiveMaxWidth);
        allLines := allLines + wrappedLines;
      }
    }
    assert inputLines[..|inputLines|] == inputLines;
  }

  /** The `forEach` that keeps the running maximum of the measured widths. */
  method MeasureWidest(allLines: seq<string>, measure: string -> Width) returns (maxWidth: real)
    ensures maxWidth == MaxMeasure(allLines, measure)
  {
    maxWidth := 0.0;
    for k := 0 to |allLines|
      invariant maxWidth == MaxMeasure(allLines[..k], measure)
    {
      assert allLines[..k + 1][..k] == allLines[..k];
      maxWidth := Max(maxWidth, measure(allLines[k]));
    }
    assert allLines[..|allLines|] == allLines;
  }

  /** The layout steps of `generateImage`, as it runs them. */
  method ComputeLayout(text: string, s: Settings, measure: string -> Width)
    returns (r: Option<LayoutResult>)
    ensures r == LayoutOf(text, s, measure)
  {
    if Trim(text) == [] {
      return None;
    }
    var allLines: seq<string>;
    if s.wrapText {
      allLines := CollectWrappedLines(Split(text, '\n'), s, measure);
    } else {
      allLines := Split(text, '\n');
    }
    var maxWidth := MeasureWidest(allLines, measure);
    if s.wrapText {
      maxWidth := Min(maxWidth, EffectiveWidth(s) as real);
    }
    r := Some(LayoutResult(allLines, maxWidth, CanvasWidth(maxWidth, s), CanvasHeight(|allLines|, s)));
  }

  /** `generateImage` produces a layout exactly when the text is not blank. */
  lemma LayoutIffNotBlank(text: string, s: Settings, measure: string -> Width)
    ensures LayoutOf(text, s, measure).Some? <==> !IsBlank(text)
  {
    TrimEmptyIffBlank(text);
  }

  /** Without wrapping the display lines are the input's newline-separated
      lines verbatim, blank ones included: they join back to the text and
      there is one more of them than there are newlines. */
  lemma NoWrapLinesAreInputLines(text: string, s: Settings, measure: string -> Width)
    requires !s.wrapText && !IsBlank(text)
    ensures LayoutOf(text, s, measure).Some?
    ensures var lines := LayoutOf(text, s, measure).value.lines;
      && lines == Split(text, '\n')
      && Join(lines, '\n') == text
      && |lines| == Count(text, '\n') + 1
  {
    TrimEmptyIffBlank(text);
    JoinSplit(text, '\n');
    SplitLength(text, '\n');
  }

  /** A line that is not blank holds a non-empty word. */
  lemma {:induction false} NonBlankHasWord(line: string, sep: char)
    requires IsWhitespace(sep) && !IsBlank(line)
    ensures exists k :: 0 <= k < |Split(line, sep)| && Split(line, sep)[k] != []
  {
    if IsWhitespace(line[0]) {
      assert !IsBlank(line[1..]) by {
        var i :| 0 <= i < |line| && !IsWhitespace(line[i]);
        assert line[1..][i - 1] == line[i];
      }
      NonBlankHasWord(line[1..], sep);
      var rest := Split(line[1..], sep);
      var k :| 0 <= k < |rest| && rest[k] != [];
      if line[0] == sep {
        assert Split(line, sep)[k + 1] == rest[k];
      } else {
        assert Split(line, sep)[0] != [];
      }
    } else {
      assert Split(line, sep)[0] != [];
    }
  }

  /** Once a non-empty word has been packed, the loop has something to return. */
  lemma {:induction false} RunNonEmpty(words: seq<string>, k: nat, measure: string -> Width, maxWidth: real)
    requires k < |words| && words[k] != []
    ensures Finish(Run(words, measure, maxWidth)) != []
  {
    var prefix := words[..|words| - 1];
    var w := words[|words| - 1];
    var p := Run(prefix, measure, maxWidth);
    if k < |words| - 1 {
      assert prefix[k] == words[k];
      RunNonEmpty(prefix, k, measure, maxWidth);
      if p.current != [] {
        assert Tentative(p.current, w) != [];
      }
    } else {
      assert Tentative(p.current, w) != [];
    }
  }

  /** Every input line yields at least one display line in wrap mode: a blank
      one yields its placeholder, any other at least one wrapped line. */
  lemma {:induction false} WrappedLinesAtLeastInputs(inputs: seq<string>, s: Settings, measure: string -> Width)
    ensures |WrappedLines(inputs, s, measure)| >= |inputs|
  {
    if inputs != [] {
      WrappedLinesAtLeastInputs(inputs[..|inputs| - 1], s, measure);
      var line := inputs[|inputs| - 1];
      TrimEmptyIffBlank(line);
      if Trim(line) != [] {
        NonBlankHasWord(line, ' ');
        var words := Split(line, ' ');
        var k :| 0 <= k < |words| && words[k] != [];
        RunNonEmpty(words, k, measure, EffectiveWidth(s) as real);
      }
    }
  }

  /** A display line in wrap mode contains no space (so it is the blank-line
      placeholder `""` or a single word) or is no wider than the effective width. */
  predicate FitsOrSingleWord(line: string, s: Settings, measure: string -> Width)
  {
    ' ' !in line || measure(line) <= EffectiveWidth(s) as real
  }

  lemma ContributionShape(line: string, s: Settings, measure: string -> Width)
    ensures var extra := Contribution(line, s, measure);
      forall k :: 0 <= k < |extra| ==> FitsOrSingleWord(extra[k], s, measure)
  {
    if Trim(line) != [] {
      var eff := EffectiveWidth(s) as real;
      var words := Split(line, ' ');
      var extra := WrapLines(line, measure, eff);
      WrapLinesShape(line, measure, eff);
      forall k | 0 <= k < |extra| ensures FitsOrSingleWord(extra[k], s, measure) {
        if extra[k] in words {
          var j :| 0 <= j < |words| && words[j] == extra[k];
          assert ' ' !in words[j];
        }
      }
    }
  }

  /** Each display line in wrap mode contains no space or is no wider than
      the effective width. */
  lemma {:induction false} WrappedLinesShape(inputs: seq<string>, s: Settings, measure: string -> Width)
    ensures forall k :: 0 <= k < |WrappedLines(inputs, s, measure)| ==>
      FitsOrSingleWord(WrappedLines(inputs, s, measure)[k], s, measure)
  {
    if inputs != [] {
      WrappedLinesShape(inputs[..|inputs| - 1], s, measure);
      var line := inputs[|inputs| - 1];
      ContributionShape(line, s, measure);
      var prev := WrappedLines(inputs[..|inputs| - 1], s, measure);
      var extra := Contribution(line, s, measure);
      AllFitConcat(prev, extra, s, measure);
    }
  }

  lemma AllFitConcat(a: seq<string>, b: seq<string>, s: Settings, measure: string -> Width)
    requires forall k :: 0 <= k < |a| ==> FitsOrSingleWord(a[k], s, measure)
    requires forall k :: 0 <= k < |b| ==> FitsOrSingleWord(b[k], s, measure)
    ensures forall k :: 0 <= k < |a + b| ==> FitsOrSingleWord((a + b)[k], s, measure)
  {
  }

  /** In wrap mode blank lines are kept as placeholders, so there are at
      least as many display lines as input lines, and every display line is
      free of spaces or fits the effective width. */
  lemma WrapDisplayLines(text: string, s: Settings, measure: string -> Width)
    requires s.wrapText && !IsBlank(text)
    ensures LayoutOf(text, s, measure).Some?
    ensures var lines := LayoutOf(text, s, measure).value.lines;
      && |lines| >= Count(text, '\n') + 1
      && forall k :: 0 <= k < |lines| ==> FitsOrSingleWord(lines[k], s, measure)
  {
    TrimEmptyIffBlank(text);
    SplitLength(text, '\n');
    WrappedLinesAtLeastInputs(Split(text, '\n'), s, measure);
    WrappedLinesShape(Split(text, '\n'), s, measure);
  }

  /** Without wrapping the content width is the widest display line. */
  lemma ContentWidthNoWrap(text: string, s: Settings, measure: string -> Width)
    requires !s.wrapText && !IsBlank(text)
    ensures LayoutOf(text, s, measure).Some?
    ensures var r := LayoutOf(text, s, measure).value;
      && (forall k :: 0 <= k < |r.lines| ==> measure(r.lines[k]) <= r.contentWidth)
      && exists k :: 0 <= k < |r.lines| && r.contentWidth == measure(r.lines[k])
  {
    TrimEmptyIffBlank(text);
  }

  /** With wrapping the content width is the widest display line, capped at
      the effective width; the canvas is then never wider than the maximum
      width setting. */
  lemma ContentWidthWrap(text: string, s: Settings, measure: string -> Width)
    requires s.wrapText && !IsBlank(text)
    ensures LayoutOf(text, s, measure).Some?
    ensures var r := LayoutOf(text, s, measure).value;
      && r.contentWidth <= EffectiveWidth(s) as real
      && (forall k :: 0 <= k < |r.lines| ==> measure(r.lines[k]) <= EffectiveWidth(s) as real ==>
            measure(r.lines[k]) <= r.contentWidth)
      && r.width <= s.maxWidth as real
      && (forall k :: 0 <= k < |r.lines| ==> Min(measure(r.lines[k]), EffectiveWidth(s) as real) <= r.contentWidth)
      && exists k :: 0 <= k < |r.lines| && r.contentWidth == Min(measure(r.lines[k]), EffectiveWidth(s) as real)
  {
    TrimEmptyIffBlank(text);
    WrapDisplayLines(text, s, measure);
  }

  /** The anchors of a canvas of `lineCount` lines around a text block of
      width `contentWidth`: padding plus shown border on every side. */
  lemma FrameInsets(lineCount: nat, contentWidth: real, s: Settings)
    ensures var inset := (s.padding + BorderPx(s)) as real;
      var width := CanvasWidth(contentWidth, s);
      && width - (width - s.padding as real - BorderPx(s) as real) == inset
      && (width - s.padding as real - BorderPx(s) as real) - contentWidth == inset
      && StartY(s) == inset
      && LineY(s, lineCount) == CanvasHeight(lineCount, s) - inset
  {
    var stack := lineCount as real * LineHeightPx(s);
    assert LineY(s, lineCount) == StartY(s) + stack;
    assert CanvasHeight(lineCount, s) == stack + (s.padding * 2 + BorderPx(s) * 2) as real;
  }

  /** The text block sits inside the canvas with padding plus shown border on
      every side: lines are right-aligned that far from the right edge, and
      the first line starts and the last line ends that far from the top and
      the bottom. */
  lemma TextFrame(text: string, s: Settings, measure: string -> Width)
    requires !IsBlank(text)
    ensures LayoutOf(text, s, measure).Some?
    ensures var r := LayoutOf(text, s, measure).value;
      var inset := (s.padding + BorderPx(s)) as real;
      && r.width - StartX(r, s) == inset
      && StartX(r, s) - r.contentWidth == inset
      && StartY(s) == inset
      && LineY(s, |r.lines|) == r.height - inset
  {
    TrimEmptyIffBlank(text);
    var r := LayoutOf(text, s, measure).value;
    assert r.width == CanvasWidth(r.contentWidth, s);
    assert r.height == CanvasHeight(|r.lines|, s);
    FrameInsets(|r.lines|, r.contentWidth, s);
  }

  /** Line `i` of `lineCount` lies between the top and bottom insets. */
  lemma LineInsideInsets(lineCount: nat, i: nat, s: Settings)
    requires s.fontSize >= 0 && s.lineHeightTenths >= 0 && i < lineCount
    ensures var inset := (s.padding + BorderPx(s)) as real;
      inset <= LineY(s, i) && LineY(s, i) + LineHeightPx(s) <= CanvasHeight(lineCount, s) - inset
  {
    var h := LineHeightPx(s);
    assert h >= 0.0 by {
      assert s.lineHeightTenths as real / 10.0 >= 0.0;
    }
    assert i as real * h >= 0.0;
    assert (i + 1) as real * h <= lineCount as real * h by {
      assert ((lineCount - (i + 1)) as real) * h >= 0.0;
    }
    FrameInsets(lineCount, 0.0, s);
  }

  /** With wrapping on and padding plus border wider than the maximum width,
      the effective width is negative and is used as it is: the content width
      is that negative number, the canvas is exactly the maximum width wide,
      and the right-alignment anchor falls left of the left inset. */
  lemma NegativeEffectiveWidth(text: string, s: Settings, measure: string -> Width)
    requires s.wrapText && EffectiveWidth(s) < 0 && !IsBlank(text)
    ensures LayoutOf(text, s, measure).Some?
    ensures var r := LayoutOf(text, s, measure).value;
      && r.contentWidth == EffectiveWidth(s) as real
      && r.width == s.maxWidth as real
      && StartX(r, s) < (s.padding + BorderPx(s)) as real
  {
    TrimEmptyIffBlank(text);
  }

  /** The canvas size in terms of the settings: one advance of
      `fontSize * lineHeight` per display line plus padding and shown border
      at top and bottom, and the content width plus the same on both sides. */
  predicate SizedBySettings(r: LayoutResult, s: Settings)
  {
    && r.height == |r.lines| as real * (s.fontSize as real * (s.lineHeightTenths as real / 10.0))
                   + (2 * s.padding + 2 * BorderPx(s)) as real
    && r.width == r.contentWidth + (2 * s.padding + 2 * BorderPx(s)) as real
  }

  /** The size `generateImage` gives the canvas, in terms of the settings. */
  lemma LayoutSize(text: string, s: Settings, measure: string -> Width)
    requires !IsBlank(text)
    ensures LayoutOf(text, s, measure).Some?
    ensures SizedBySettings(LayoutOf(text, s, measure).value, s)
  {
    TrimEmptyIffBlank(text);
    var r := LayoutOf(text, s, measure).value;
    assert r.height == CanvasHeight(|r.lines|, s) && r.width == CanvasWidth(r.contentWidth, s);
    SizeFormulas(r, s);
  }

  lemma SizeFormulas(r: LayoutResult, s: Settings)
    requires r.height == CanvasHeight(|r.lines|, s) && r.width == CanvasWidth(r.contentWidth, s)
    ensures SizedBySettings(r, s)
  {
  }
}
