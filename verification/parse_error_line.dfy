/**
 The diagnostic in `loadStoryLanguageData` (src/services/storyLoader.ts) that
 maps the character position of a JSON syntax error to a 1-based line of the
 document. Extracting the position from the engine's message is not
 modelled: the position is an input.
 */
module ParseErrorLine {
  import opened Common

  /** The reported line: its 1-based number and its first 100 characters. */
  datatype ErrorLine = ErrorLine(lineNumber: nat, excerpt: string)

  /** Offset at which line `i` starts when `lines` are joined with newlines. */
  function LineStart(lines: seq<string>, i: nat): nat
    requires i <= |lines|
  {
    if i == 0 then 0 else |lines[0]| + 1 + LineStart(lines[1..], i - 1)
  }

  /** Offset just past the last character of line `i`. */
  function LineEnd(lines: seq<string>, i: nat): nat
    requires i < |lines|
  {
    LineStart(lines, i) + |lines[i]|
  }

  /** Line `n` (1-based) is the first whose end reaches `position`. */
  predicate IsErrorLine(lines: seq<string>, position: nat, n: nat) {
    && 1 <= n <= |lines|
    && LineEnd(lines, n - 1) >= position
    && forall j :: 0 <= j < n - 1 ==> LineEnd(lines, j) < position
  }

  /** No line's end reaches `position`. */
  predicate NoErrorLine(lines: seq<string>, position: nat) {
    forall j :: 0 <= j < |lines| ==> LineEnd(lines, j) < position
  }

  lemma {:induction false} LineStartStep(lines: seq<string>, i: nat)
    requires i < |lines|
    ensures LineStart(lines, i + 1) == LineStart(lines, i) + |lines[i]| + 1
    decreases i
  {
    if i > 0 {
      LineStartStep(lines[1..], i - 1);
    }
  }

  /**
   The locating loop: walk the lines accumulating their lengths plus one per
   newline and report the first line whose end is at or past `position`.
   */
  method LocateErrorLine(text: string, position: nat) returns (r: Option<ErrorLine>)
    ensures var lines := Split(text, '\n');
      && (r.None? <==> NoErrorLine(lines, position))
      && (r.Some? ==> IsErrorLine(lines, position, r.value.lineNumber)
                      && r.value.excerpt == Prefix(lines[r.value.lineNumber - 1], 100))
  {
    var lines := Split(text, '\n');
    var charCount := 0;
    var i := 0;
    while i < |lines|
      invariant 0 <= i <= |lines|
      invariant charCount == LineStart(lines, i)
      invariant forall j :: 0 <= j < i ==> LineEnd(lines, j) < position
    {
      if charCount + |lines[i]| >= position {
        assert !NoErrorLine(lines, position) by { assert LineEnd(lines, i) >= position; }
        return Some(ErrorLine(i + 1, Prefix(lines[i], 100)));
      }
      LineStartStep(lines, i);
      charCount := charCount + |lines[i]| + 1;
      i := i + 1;
    }
    return None;
  }

  /** The reported line starts at or before the error position. */
  lemma ErrorLineStartsBeforePosition(lines: seq<string>, position: nat, n: nat)
    requires IsErrorLine(lines, position, n)
    ensures LineStart(lines, n - 1) <= position
  {
    if n > 1 {
      LineStartStep(lines, n - 2);
      assert LineEnd(lines, n - 2) < position;
    }
  }

  /** Line ends strictly increase. */
  lemma {:induction false} LineEndIncreasing(lines: seq<string>, j: nat, k: nat)
    requires j <= k < |lines|
    ensures LineEnd(lines, j) <= LineEnd(lines, k)
    decreases k - j
  {
    if j < k {
      LineStartStep(lines, j);
      LineEndIncreasing(lines, j + 1, k);
    }
  }

  /** Joined with newlines, the lines are exactly as long as the last line's end. */
  lemma {:induction false} JoinedLength(lines: seq<string>)
    requires |lines| >= 1
    ensures |Join(lines, '\n')| == LineEnd(lines, |lines| - 1)
  {
    if |lines| > 1 {
      JoinedLength(lines[1..]);
      assert lines[1..][|lines| - 2] == lines[|lines| - 1];
    }
  }

  /** Nothing is reported exactly when the position lies past the end of the text. */
  lemma NoLineIffPastEnd(text: string, position: nat)
    ensures NoErrorLine(Split(text, '\n'), position) <==> position > |text|
  {
    var lines := Split(text, '\n');
    var last := |lines| - 1;
    JoinSplit(text, '\n');
    JoinedLength(lines);
    if position > |text| {
      forall j | 0 <= j < |lines|
        ensures LineEnd(lines, j) < position
      {
        LineEndIncreasing(lines, j, last);
      }
    }
  }
}
