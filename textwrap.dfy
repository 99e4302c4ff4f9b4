/**
 * Greedy wrapping of canvas text. The canvas's `measureText(...).width` is
 * the function `measure`, about which nothing is assumed: it need not grow
 * with the string.
 */
module TextWrap {
  /** The lines joined back together. */
  function Concat(lines: seq<string>): string
    decreases |lines|
  {
    if lines == [] then [] else lines[0] + Concat(lines[1..])
  }

  lemma {:induction false} ConcatAppend(lines: seq<string>, line: string)
    ensures Concat(lines + [line]) == Concat(lines) + line
    decreases |lines|
  {
    if lines == [] {
      assert [] + [line] == [line];
      assert Concat([line]) == line + Concat([]);
    } else {
      assert (lines + [line])[1..] == lines[1..] + [line];
      ConcatAppend(lines[1..], line);
    }
  }

  /** Every prefix of `line` of two or more characters measures at most `maxWidth`. */
  ghost predicate Fits(measure: string -> real, line: string, maxWidth: real) {
    forall j :: 2 <= j <= |line| ==> measure(line[..j]) <= maxWidth
  }

  /** Line `a` had to end: the first character of the line `b` after it would not fit. */
  ghost predicate BreaksBefore(measure: string -> real, a: string, b: string, maxWidth: real) {
    |b| > 0 && measure(a + [b[0]]) > maxWidth
  }

  /** Each line but the last ends because its next character would not fit. */
  ghost predicate Breaks(measure: string -> real, lines: seq<string>, maxWidth: real) {
    forall i :: 0 < i < |lines| ==> BreaksBefore(measure, lines[i - 1], lines[i], maxWidth)
  }

  /** `lines` is a greedy wrapping of `text` at `maxWidth`. */
  ghost predicate Wrapped(measure: string -> real, text: string, maxWidth: real, lines: seq<string>) {
    && Concat(lines) == text
    && (forall i :: 0 <= i < |lines| ==> |lines[i]| > 0)
    && (forall i :: 0 <= i < |lines| ==> Fits(measure, lines[i], maxWidth))
    && Breaks(measure, lines, maxWidth)
  }

  /**
   * `getTextWrapInfo`: splits `text` into lines no wider than
   * `canvasWidth - x - 4`, except lines of a single character, which are
   * kept however wide they are; `lastLineWidth` is the width of the last
   * line, or of the empty string when there is none.
   */
  method GetTextWrapInfo(measure: string -> real, text: string, x: real, canvasWidth: real)
    returns (lines: seq<string>, lastLineWidth: real)
    ensures Wrapped(measure, text, canvasWidth - x - 4.0, lines)
    ensures lines == [] <==> text == []
    ensures forall i :: 0 <= i < |lines| && |lines[i]| >= 2 ==> measure(lines[i]) <= canvasWidth - x - 4.0
    ensures lastLineWidth == measure(if lines == [] then "" else lines[|lines| - 1])
  {
    var maxWidth := canvasWidth - x - 4.0;
    lines := [];
    var currentLine := "";
    var i := 0;
    while i < |text|
      invariant 0 <= i <= |text|
      invariant currentLine == [] ==> i == 0 && lines == []
      invariant currentLine != [] ==> Wrapped(measure, text[..i], maxWidth, lines + [currentLine])
    {
      var testLine := currentLine + [text[i]];
      assert text[..i + 1] == text[..i] + [text[i]];
      if measure(testLine) > maxWidth && |currentLine| > 0 {
        BreakStep(measure, text[..i], maxWidth, lines, currentLine, text[i]);
        lines := lines + [currentLine];
        currentLine := [text[i]];
      } else {
        ExtendStep(measure, text[..i], maxWidth, lines, currentLine, text[i]);
        currentLine := testLine;
      }
      i := i + 1;
    }
    assert text[..i] == text;
    if |currentLine| > 0 {
      lines := lines + [currentLine];
    }
    forall k | 0 <= k < |lines| && |lines[k]| >= 2 ensures measure(lines[k]) <= maxWidth {
      assert Fits(measure, lines[k], maxWidth);
      assert lines[k][..|lines[k]|] == lines[k];
    }
    if |lines| > 0 {
      lastLineWidth := measure(lines[|lines| - 1]);
    } else {
      lastLineWidth := measure("");
    }
  }

  /** Appending a character that fits, or the first character of the text, to the current line. */
  lemma ExtendStep(measure: string -> real, prefix: string, maxWidth: real, lines: seq<string>, current: string, c: char)
    requires current == [] ==> prefix == [] && lines == []
    requires current != [] ==> Wrapped(measure, prefix, maxWidth, lines + [current])
    requires current == [] || measure(current + [c]) <= maxWidth
    ensures Wrapped(measure, prefix + [c], maxWidth, lines + [current + [c]])
  {
    var t := current + [c];
    ConcatAppend(lines, current);
    ConcatAppend(lines, t);
    assert Concat(lines) + current == prefix by {
      if current == [] {
        assert Concat([]) == [];
      }
    }
    assert Fits(measure, t, maxWidth) by {
      forall j | 2 <= j <= |t| ensures measure(t[..j]) <= maxWidth {
        if j < |t| {
          assert t[..j] == current[..j];
          assert Fits(measure, (lines + [current])[|lines|], maxWidth);
        } else {
          assert t[..j] == t;
        }
      }
    }
    var ls, ls' := lines + [current], lines + [t];
    forall k | 0 <= k < |ls'| ensures |ls'[k]| > 0 && Fits(measure, ls'[k], maxWidth) {
      if k < |lines| {
        assert ls'[k] == ls[k];
      }
    }
    assert Breaks(measure, ls', maxWidth) by {
      forall k | 0 < k < |ls'| ensures BreaksBefore(measure, ls'[k - 1], ls'[k], maxWidth) {
        assert BreaksBefore(measure, ls[k - 1], ls[k], maxWidth);
        assert ls'[k - 1] == ls[k - 1];
        assert ls'[k][0] == ls[k][0];
      }
    }
  }

  /** Starting a new line with a character that does not fit on the current one. */
  lemma BreakStep(measure: string -> real, prefix: string, maxWidth: real, lines: seq<string>, current: string, c: char)
    requires current != [] && Wrapped(measure, prefix, maxWidth, lines + [current])
    requires measure(current + [c]) > maxWidth
    ensures Wrapped(measure, prefix + [c], maxWidth, lines + [current] + [[c]])
  {
    var ls := lines + [current];
    var ls' := ls + [[c]];
    ConcatAppend(ls, [c]);
    assert Fits(measure, [c], maxWidth);
    forall k | 0 <= k < |ls'| ensures |ls'[k]| > 0 && Fits(measure, ls'[k], maxWidth) {
      if k < |ls| {
        assert ls'[k] == ls[k];
      }
    }
    assert Breaks(measure, ls', maxWidth) by {
      forall k | 0 < k < |ls'| ensures BreaksBefore(measure, ls'[k - 1], ls'[k], maxWidth) {
        if k < |ls| {
          assert BreaksBefore(measure, ls[k - 1], ls[k], maxWidth);
        } else {
          assert ls'[k - 1] == current;
        }
      }
    }
  }

  /**
   * The greedy wrapping is the only one: two wrappings of one text at one
   * width are the same lines.
   */
  lemma {:induction false} WrapUnique(measure: string -> real, text: string, maxWidth: real, a: seq<string>, b: seq<string>)
    requires Wrapped(measure, text, maxWidth, a) && Wrapped(measure, text, maxWidth, b)
    ensures a == b
    decreases |text|
  {
    if a == [] || b == [] {
      return;
    }
    assert text == a[0] + Concat(a[1..]) && text == b[0] + Concat(b[1..]);
    FirstLineAgrees(measure, text, maxWidth, a, b);
    FirstLineAgrees(measure, text, maxWidth, b, a);
    assert a[0] == text[..|a[0]|] == b[0];
    var rest := text[|a[0]|..];
    assert Concat(a[1..]) == rest && Concat(b[1..]) == rest;
    TailWrapped(measure, text, maxWidth, a);
    TailWrapped(measure, text, maxWidth, b);
    WrapUnique(measure, rest, maxWidth, a[1..], b[1..]);
    assert a == [a[0]] + a[1..];
    assert b == [b[0]] + b[1..];
  }

  /** A wrapping's first line is no shorter than another wrapping's first line. */
  lemma FirstLineAgrees(measure: string -> real, text: string, maxWidth: real, a: seq<string>, b: seq<string>)
    requires Wrapped(measure, text, maxWidth, a) && Wrapped(measure, text, maxWidth, b)
    requires a != [] && b != []
    ensures |b[0]| <= |a[0]|
  {
    assert text == a[0] + Concat(a[1..]) && text == b[0] + Concat(b[1..]);
    assert 0 < |a[0]|;
    if |a| == 1 {
      assert Concat(a[1..]) == [];
      assert text == a[0];
    } else {
      // `a` breaks after its first line, so no line that fits goes past it.
      assert Concat(a[1..]) == a[1] + Concat(a[2..]) by {
        assert a[1..][0] == a[1] && a[1..][1..] == a[2..];
      }
      assert BreaksBefore(measure, a[0], a[1], maxWidth);
      assert text[..|a[0]| + 1] == a[0] + [a[1][0]];
      assert measure(text[..|a[0]| + 1]) > maxWidth;
    }
    // Every prefix of the text up to the end of `b`'s first line fits.
    forall j | 2 <= j <= |b[0]| ensures measure(text[..j]) <= maxWidth {
      assert text[..j] == b[0][..j];
    }
  }

  /** The lines after the first wrap the rest of the text. */
  lemma TailWrapped(measure: string -> real, text: string, maxWidth: real, a: seq<string>)
    requires Wrapped(measure, text, maxWidth, a) && a != []
    ensures Wrapped(measure, text[|a[0]|..], maxWidth, a[1..])
  {
    assert text == a[0] + Concat(a[1..]);
    assert text[|a[0]|..] == Concat(a[1..]);
    var t := a[1..];
    assert Breaks(measure, t, maxWidth) by {
      forall i | 0 < i < |t| ensures BreaksBefore(measure, t[i - 1], t[i], maxWidth) {
        assert t[i - 1] == a[i] && t[i] == a[i + 1];
      }
    }
  }
}
