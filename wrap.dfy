/** `wrapTextLines`: greedy word wrapping of one input line against a width
    budget, using a text-measurement function supplied by the caller. */
module Wrap {
  import opened JsString

  /** A width reported by `measureText`: never negative. */
  type Width = w: real | 0.0 <= w

  /** The state of the packing loop: the lines committed so far and the
      line being accumulated. */
  datatype Pack = Pack(lines: seq<string>, current: string)

  /** The tentative line: the accumulator, a space if it is non-empty, the word. */
  function Tentative(current: string, word: string): string
  {
    current + (if current != [] then " " else "") + word
  }

  /** One iteration of the loop: commit the accumulator when the tentative
      line is too wide and the accumulator is non-empty, else keep the
      tentative line. */
  function Step(p: Pack, word: string, measure: string -> Width, maxWidth: real): Pack
  {
    var test := Tentative(p.current, word);
    if measure(test) > maxWidth && p.current != [] then Pack(p.lines + [p.current], word)
    else Pack(p.lines, test)
  }

  /** The loop state after processing `words` from an empty pack. */
  function Run(words: seq<string>, measure: string -> Width, maxWidth: real): Pack
  {
    if words == [] then Pack([], [])
    else Step(Run(words[..|words| - 1], measure, maxWidth), words[|words| - 1], measure, maxWidth)
  }

  /** The lines returned once the loop is done: a non-empty accumulator is committed. */
  function Finish(p: Pack): seq<string>
  {
    if p.current != [] then p.lines + [p.current] else p.lines
  }

  /** What `wrapTextLines(ctx, text, maxWidth)` returns. */
  function WrapLines(text: string, measure: string -> Width, maxWidth: real): seq<string>
  {
    Finish(Run(Split(text, ' '), measure, maxWidth))
  }

  /** No piece of `text.split(' ')` is empty: `text` has no leading, trailing
      or doubled space, and is not empty. */
  predicate NoEmptyWord(text: string)
  {
    forall w :: w in Split(text, ' ') ==> w != []
  }

  /** The non-empty words of `words`, in order. */
  function NonEmpty(words: seq<string>): seq<string>
  {
    if words == [] then []
    else NonEmpty(words[..|words| - 1]) + (if words[|words| - 1] != [] then [words[|words| - 1]] else [])
  }

  /** The loop as `wrapTextLines` runs it. */
  method WrapTextLines(text: string, measure: string -> Width, maxWidth: real)
    returns (lines: seq<string>)
    ensures lines == WrapLines(text, measure, maxWidth)
    ensures forall k :: 0 <= k < |lines| ==> lines[k] != []
    ensures forall k :: 0 <= k < |lines| ==>
      lines[k] in Split(text, ' ') || measure(lines[k]) <= maxWidth
    ensures |lines| <= |Split(text, ' ')|
    ensures NoEmptyWord(text) ==> Join(lines, ' ') == text
  {
    var words := Split(text, ' ');
    lines := [];
    var currentLine := "";
    for i := 0 to |words|
      invariant Pack(lines, currentLine) == Run(words[..i], measure, maxWidth)
    {
      assert words[..i + 1][..i] == words[..i];
      var testLine := currentLine + (if currentLine != "" then " " else "") + words[i];
      if measure(testLine) > maxWidth && currentLine != "" {
        lines := lines + [currentLine];
        currentLine := words[i];
      } else {
        currentLine := testLine;
      }
    }
    if currentLine != "" {
      lines := lines + [currentLine];
    }
    assert words[..|words|] == words;
    WrapLinesShape(text, measure, maxWidth);
    if NoEmptyWord(text) {
      WrapLinesRoundTrip(text, measure, maxWidth);
    }
  }

  /** What the loop keeps true of its state after `words`: every committed
      line and the accumulator are a single word or fit the budget, the
      committed lines are non-empty, and there are no more lines (counting a
      non-empty accumulator) than words. */
  ghost predicate ShapeInv(p: Pack, words: seq<string>, measure: string -> Width, maxWidth: real)
  {
    && (forall k :: 0 <= k < |p.lines| ==> p.lines[k] != [])
    && (forall k :: 0 <= k < |p.lines| ==> p.lines[k] in words || measure(p.lines[k]) <= maxWidth)
    && (p.current == [] || p.current in words || measure(p.current) <= maxWidth)
    && |p.lines| + (if p.current != [] then 1 else 0) <= |words|
  }

  lemma {:induction false} RunShape(words: seq<string>, measure: string -> Width, maxWidth: real)
    ensures ShapeInv(Run(words, measure, maxWidth), words, measure, maxWidth)
  {
    if words != [] {
      var prefix := words[..|words| - 1];
      var w := words[|words| - 1];
      RunShape(prefix, measure, maxWidth);
      var p := Run(prefix, measure, maxWidth);
      assert words == prefix + [w];
      forall x | x in prefix ensures x in words { }
      if p.current == [] {
        assert Tentative(p.current, w) == w;
      }
    }
  }

  /** Every returned line is non-empty and is either one word of the input
      or no wider than the budget; there are no more lines than words. */
  lemma WrapLinesShape(text: string, measure: string -> Width, maxWidth: real)
    ensures var lines := WrapLines(text, measure, maxWidth);
      && (forall k :: 0 <= k < |lines| ==> lines[k] != [])
      && (forall k :: 0 <= k < |lines| ==> lines[k] in Split(text, ' ') || measure(lines[k]) <= maxWidth)
      && |lines| <= |Split(text, ' ')|
  {
    RunShape(Split(text, ' '), measure, maxWidth);
  }

  /** With no empty word, the committed lines and the accumulator, joined
      with single spaces, are the words processed so far joined the same way. */
  lemma {:induction false} RunJoin(words: seq<string>, measure: string -> Width, maxWidth: real)
    requires |words| >= 1
    requires forall k :: 0 <= k < |words| ==> words[k] != []
    ensures var p := Run(words, measure, maxWidth);
      p.current != [] && Join(p.lines + [p.current], ' ') == Join(words, ' ')
  {
    var prefix := words[..|words| - 1];
    var w := words[|words| - 1];
    assert words == prefix + [w];
    var p := Run(prefix, measure, maxWidth);
    if prefix == [] {
      assert p == Pack([], []);
    } else {
      RunJoin(prefix, measure, maxWidth);
      JoinSnoc(prefix, w, ' ');
      var test := Tentative(p.current, w);
      if measure(test) > maxWidth {
        JoinSnoc(p.lines + [p.current], w, ' ');
      } else {
        JoinSnoc(p.lines, p.current, ' ');
        JoinSnoc(p.lines, test, ' ');
        assert test == p.current + " " + w;
      }
    }
  }

  /** Round trip: when no word is empty, the wrapped lines joined with single
      spaces are the input line. */
  lemma WrapLinesRoundTrip(text: string, measure: string -> Width, maxWidth: real)
    requires NoEmptyWord(text)
    ensures Join(WrapLines(text, measure, maxWidth), ' ') == text
  {
    var words := Split(text, ' ');
    assert forall k :: 0 <= k < |words| ==> words[k] in words;
    RunJoin(words, measure, maxWidth);
    JoinSplit(text, ' ');
  }

  /** The greedy packing never commits a line early: with no empty word,
      every line but the last, followed by a space and the first word of the
      next line, is wider than the budget. */
  lemma {:induction false} RunGreedy(words: seq<string>, measure: string -> Width, maxWidth: real)
    requires forall k :: 0 <= k < |words| ==> words[k] != [] && ' ' !in words[k]
    ensures var p := Run(words, measure, maxWidth);
      var all := Finish(p);
      && (p.current == [] ==> p.lines == [])
      && forall k :: 0 <= k < |all| - 1 ==>
           measure(all[k] + " " + Split(all[k + 1], ' ')[0]) > maxWidth
  {
    if words != [] {
      var prefix := words[..|words| - 1];
      var w := words[|words| - 1];
      RunGreedy(prefix, measure, maxWidth);
      var p := Run(prefix, measure, maxWidth);
      var q := Run(words, measure, maxWidth);
      SplitNoSeparator(w, ' ');
      if p.current != [] {
        var test := Tentative(p.current, w);
        if !(measure(test) > maxWidth) {
          SplitHeadAppend(p.current, w, ' ');
          assert test == p.current + " " + w;
          var fp, fq := Finish(p), Finish(q);
          assert fq == p.lines + [test];
          assert fp == p.lines + [p.current];
          forall k | 0 <= k < |fq| - 1
            ensures measure(fq[k] + " " + Split(fq[k + 1], ' ')[0]) > maxWidth
          {
            assert fq[k] == fp[k];
            if k < |p.lines| - 1 {
              assert fq[k + 1] == fp[k + 1];
            } else {
              assert fq[k + 1] == test && fp[k + 1] == p.current;
            }
          }
        } else {
          assert test == p.current + " " + w;
          assert Finish(p) == p.lines + [p.current];
          assert Finish(q) == p.lines + [p.current] + [w];
        }
      }
    }
  }

  /** Greedy maximality of `wrapTextLines`, for a line without empty words. */
  lemma WrapLinesGreedy(text: string, measure: string -> Width, maxWidth: real)
    requires NoEmptyWord(text)
    ensures var lines := WrapLines(text, measure, maxWidth);
      forall k :: 0 <= k < |lines| - 1 ==>
        measure(lines[k] + " " + Split(lines[k + 1], ' ')[0]) > maxWidth
  {
    var words := Split(text, ' ');
    assert forall k :: 0 <= k < |words| ==> words[k] in words;
    RunGreedy(words, measure, maxWidth);
  }

  lemma {:induction false} RunNegative(words: seq<string>, measure: string -> Width, maxWidth: real)
    requires maxWidth < 0.0
    ensures Finish(Run(words, measure, maxWidth)) == NonEmpty(words)
  {
    if words != [] {
      var prefix := words[..|words| - 1];
      var w := words[|words| - 1];
      RunNegative(prefix, measure, maxWidth);
      var p := Run(prefix, measure, maxWidth);
      if p.current == [] {
        assert Tentative(p.current, w) == w;
      } else {
        assert Finish(p) == p.lines + [p.current];
      }
    }
  }

  /** With a negative budget every non-empty word becomes a line of its own. */
  lemma NegativeBudgetOneWordPerLine(text: string, measure: string -> Width, maxWidth: real)
    requires maxWidth < 0.0
    ensures WrapLines(text, measure, maxWidth) == NonEmpty(Split(text, ' '))
  {
    RunNegative(Split(text, ' '), measure, maxWidth);
  }
}
