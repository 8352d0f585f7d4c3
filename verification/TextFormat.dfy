/** Fitting text into a panel: `wrapText` and `formatContent` of
    pkg/widgets/util.go. */
module TextFormat {
  import opened Wrappers
  import opened Strings

  const NEWLINE: char := '\n'
  const BLANK: char := ' '
  const SUFFIX: string := " ..."

  // ----- wrapText

  /** The last blank of `text` among its first `columns` bytes. */
  function LastBlank(text: string, columns: int): (i: Option<nat>)
    ensures i.Some? ==> i.value < |text| && i.value < columns && text[i.value] == BLANK
    ensures i.Some? ==> forall j :: i.value < j < |text| && j < columns ==> text[j] != BLANK
    ensures i.None? ==> forall j :: 0 <= j < |text| && j < columns ==> text[j] != BLANK
    decreases |text|
  {
    if text == "" then None
    else if text[|text| - 1] == BLANK && |text| - 1 < columns then Some(|text| - 1)
    else LastBlank(text[..|text| - 1], columns)
  }

  /** The lines a text is broken into. */
  function WrapLines(text: string, columns: int): (lines: seq<string>)
    ensures lines != []
    decreases |text|
  {
    if |text| < columns then [text]
    else match LastBlank(text, columns)
      case None => [text]
      case Some(i) => [text[..i]] + WrapLines(text[i + 1..], columns)
  }

  method WrapText(text: string, columns: int, separator: char) returns (r: string)
    ensures r == Join(WrapLines(text, columns), separator)
    decreases |text|
  {
    if |text| < columns {
      return text;
    }
    var i := |text|;
    while i > 0
      invariant 0 <= i <= |text|
      invariant forall j :: i <= j < |text| && j < columns ==> text[j] != BLANK
    {
      i := i - 1;
      if text[i] == BLANK && i < columns {
        var rest := WrapText(text[i + 1..], columns, separator);
        return text[..i] + [separator] + rest;
      }
    }
    return text;
  }

  /** Only blanks are given up: joined by blanks the lines are the text. */
  lemma {:induction false} WrapLosesNothing(text: string, columns: int)
    ensures Join(WrapLines(text, columns), BLANK) == text
    decreases |text|
  {
    if |text| >= columns && LastBlank(text, columns).Some? {
      var i := LastBlank(text, columns).value;
      WrapLosesNothing(text[i + 1..], columns);
      assert text == text[..i] + [BLANK] + text[i + 1..];
    }
  }

  /** Joins of the same parts by two separators differ in the separators only. */
  lemma {:induction false} JoinsDiffer(parts: seq<string>, one: char, other: char)
    ensures |Join(parts, one)| == |Join(parts, other)|
    ensures forall i :: 0 <= i < |Join(parts, one)| ==>
      Join(parts, one)[i] == Join(parts, other)[i] || (Join(parts, one)[i] == one && Join(parts, other)[i] == other)
  {
    if |parts| > 1 {
      JoinsDiffer(parts[1..], one, other);
    }
  }

  /** The wrapped text has the length of the text, and differs from it only
      where a blank became a newline. */
  lemma WrapTurnsBlanksIntoNewlines(text: string, columns: int)
    ensures var wrapped := Join(WrapLines(text, columns), NEWLINE);
      && |wrapped| == |text|
      && forall i :: 0 <= i < |text| ==> wrapped[i] == text[i] || (text[i] == BLANK && wrapped[i] == NEWLINE)
  {
    WrapLosesNothing(text, columns);
    JoinsDiffer(WrapLines(text, columns), BLANK, NEWLINE);
  }

  /** A line that needs no break, or has no place for one. */
  predicate Settled(line: string, columns: int) {
    |line| < columns || forall i :: 0 <= i < |line| && i < columns ==> line[i] != BLANK
  }

  /** Every line but the last is short enough, and between its end and the limit
      the rest of the text has no further blank; the last line fits or cannot be
      broken. */
  ghost predicate Greedy(lines: seq<string>, columns: int) {
    if |lines| == 0 then false
    else if |lines| == 1 then Settled(lines[0], columns)
    else
      var text := Join(lines, BLANK);
      && |lines[0]| < columns <= |text|
      && (forall j :: |lines[0]| < j < columns ==> text[j] != BLANK)
      && Greedy(lines[1..], columns)
  }

  lemma {:induction false} WrapIsGreedy(text: string, columns: int)
    ensures Greedy(WrapLines(text, columns), columns)
    decreases |text|
  {
    WrapLosesNothing(text, columns);
    if |text| >= columns && LastBlank(text, columns).Some? {
      var i := LastBlank(text, columns).value;
      WrapIsGreedy(text[i + 1..], columns);
      assert WrapLines(text, columns)[1..] == WrapLines(text[i + 1..], columns);
    }
  }

  lemma {:induction false} WrappedLinesAreSettled(text: string, columns: int)
    requires NEWLINE !in text
    ensures forall line <- WrapLines(text, columns) :: Settled(line, columns) && NEWLINE !in line
    decreases |text|
  {
    if |text| >= columns && LastBlank(text, columns).Some? {
      var i := LastBlank(text, columns).value;
      WrappedLinesAreSettled(text[i + 1..], columns);
    }
  }

  // ----- formatContent

  /** Every line wrapped, in order. */
  function WrapAll(lines: seq<string>, columns: int): seq<string> {
    if lines == [] then [] else WrapLines(lines[0], columns) + WrapAll(lines[1..], columns)
  }

  function Wrapped(content: string, columns: int): string {
    Join(WrapAll(Split(content, NEWLINE), columns), NEWLINE)
  }

  /** The cut last line: `maxColumns` bounds it unless it is not positive. */
  function CutLine(line: string, maxColumns: int): string
    requires maxColumns <= 0 || maxColumns >= 4
  {
    (if maxColumns > 0 && |line| + |SUFFIX| > maxColumns then line[..maxColumns - |SUFFIX|] else line) + SUFFIX
  }

  /** None stands for the run-time panic of a slice index below zero. */
  function Truncated(content: string, maxColumns: int, maxRows: int): Option<string> {
    var lines := Split(content, NEWLINE);
    if |lines| <= maxRows then Some(content)
    else if maxRows < 1 || 0 < maxColumns < 4 then None
    else Some(Join(lines[..maxRows - 1] + [CutLine(lines[maxRows - 1], maxColumns)], NEWLINE))
  }

  lemma {:induction false} JoinConcat(a: seq<string>, b: seq<string>, sep: char)
    requires a != [] && b != []
    ensures Join(a + b, sep) == Join(a, sep) + [sep] + Join(b, sep)
  {
    if |a| == 1 {
      assert (a + b)[1..] == b;
    } else {
      JoinConcat(a[1..], b, sep);
      assert (a + b)[1..] == a[1..] + b;
    }
  }

  lemma {:induction false} WrapAllSnoc(lines: seq<string>, line: string, columns: int)
    ensures WrapAll(lines + [line], columns) == WrapAll(lines, columns) + WrapLines(line, columns)
    ensures lines != [] ==> WrapAll(lines, columns) != []
  {
    if lines == [] {
      assert ([] + [line])[1..] == [];
    } else {
      WrapAllSnoc(lines[1..], line, columns);
      assert (lines + [line])[1..] == lines[1..] + [line];
      Reassociate(WrapLines(lines[0], columns), WrapAll(lines[1..], columns), WrapLines(line, columns));
    }
  }

  lemma Reassociate(a: seq<string>, b: seq<string>, c: seq<string>)
    ensures a + (b + c) == (a + b) + c
  {
  }

  /** `formatContent`; None when it panics. */
  function Formatted(content: string, maxColumns: int, maxRows: int, wrap: bool, truncate: bool): Option<string> {
    var wrapped := if wrap then Wrapped(content, maxColumns) else content;
    if truncate then Truncated(wrapped, maxColumns, maxRows) else Some(wrapped)
  }

  method FormatContent(content: string, maxColumns: int, maxRows: int, wrap: bool, truncate: bool)
    returns (r: Option<string>)
    ensures r == Formatted(content, maxColumns, maxRows, wrap, truncate)
  {
    var text := content;
    if wrap {
      text := WrapEachLine(content, maxColumns);
    }
    if truncate {
      var lines := Split(text, NEWLINE);
      JoinSplit(text, NEWLINE);
      if |lines| > maxRows {
        var cutLinesAt := maxRows - 1;
        if cutLinesAt < 0 {
          return None;
        }
        var lastLine := lines[cutLinesAt];
        lines := lines[..cutLinesAt];
        if maxColumns > 0 && |lastLine| + |SUFFIX| > maxColumns {
          var cutLastLineAt := maxColumns - |SUFFIX|;
          if cutLastLineAt < 0 {
            return None;
          }
          lastLine := lastLine[..cutLastLineAt];
        }
        lines := lines + [lastLine + SUFFIX];
      }
      text := Join(lines, NEWLINE);
    }
    return Some(text);
  }

  /** The wrapping loop of `formatContent`. */
  method WrapEachLine(content: string, maxColumns: int) returns (text: string)
    ensures text == Wrapped(content, maxColumns)
  {
    var lines := Split(content, NEWLINE);
    text := "";
    for i := 0 to |lines|
      invariant text == Join(WrapAll(lines[..i], maxColumns), NEWLINE)
    {
      WrapAllSnoc(lines[..i], lines[i], maxColumns);
      assert lines[..i + 1] == lines[..i] + [lines[i]];
      if i > 0 {
        JoinConcat(WrapAll(lines[..i], maxColumns), WrapLines(lines[i], maxColumns), NEWLINE);
        text := text + [NEWLINE];
      } else {
        assert WrapAll(lines[..i + 1], maxColumns) == WrapLines(lines[i], maxColumns);
      }
      if |lines[i]| < maxColumns {
        text := text + lines[i];
      } else {
        var wrapped := WrapText(lines[i], maxColumns, NEWLINE);
        text := text + wrapped;
      }
    }
    assert lines[..|lines|] == lines;
  }

  /** The lines to be shown before any are cut. */
  function LinesOf(content: string, maxColumns: int, wrap: bool): seq<string> {
    var lines := Split(content, NEWLINE);
    if wrap then WrapAll(lines, maxColumns) else lines
  }

  /** Formatting panics exactly when it has to cut lines and either no row is allowed
      or the width leaves no room for the suffix. */
  lemma PanicsExactlyWhen(content: string, maxColumns: int, maxRows: int, wrap: bool, truncate: bool)
    ensures Formatted(content, maxColumns, maxRows, wrap, truncate).None? <==>
      truncate && |LinesOf(content, maxColumns, wrap)| > maxRows && (maxRows < 1 || 0 < maxColumns < 4)
  {
    if wrap {
      WrappedLines(content, maxColumns);
    }
  }

  lemma WrappedLines(content: string, columns: int)
    ensures Split(Wrapped(content, columns), NEWLINE) == WrapAll(Split(content, NEWLINE), columns)
  {
    var lines := Split(content, NEWLINE);
    JoinSplit(content, NEWLINE);
    WrapAllIsSettled(lines, columns);
    WrapAllSnoc(lines[..|lines| - 1], lines[|lines| - 1], columns);
    assert lines[..|lines| - 1] + [lines[|lines| - 1]] == lines;
    SplitJoin(WrapAll(lines, columns), NEWLINE);
  }

  // ----- The panels of the installer

  /** How the installer places a panel in a terminal: over six of eight columns, which
      the locators, the panels themselves and the default do, or up to the sixth
      column, which two validators have before they are placed. */
  datatype Placing = SixEighths | ToTheSixth | Unplaced {
    function Left(maxX: nat): nat {
      if this == Unplaced then 0 else maxX / 8
    }

    function Right(maxX: nat): nat {
      if this == SixEighths then maxX / 8 * 7 else maxX / 8 * 6
    }
  }

  /** `Panel.SetContent`: text is formatted for a panel that has an inside. */
  method SetContent(content: string, x0: int, y0: int, x1: int, y1: int, wrap: bool) returns (r: Option<string>)
    ensures r == PanelContent(content, x0, y0, x1, y1, wrap)
    ensures HasInside(x0, y0, x1, y1) && r.Some? ==>
      Shows(LinesOf(content, x1 - x0 - 1, wrap), r.value, x1 - x0 - 1, y1 - y0 - 1)
  {
    if HasInside(x0, y0, x1, y1) && PanelContent(content, x0, y0, x1, y1, wrap).Some? {
      PanelShows(content, x0, y0, x1, y1, wrap);
    }
    var panelWidth := x1 - x0 - 1;
    var panelHeight := y1 - y0 - 1;
    if panelWidth > 0 && panelHeight > 0 {
      r := FormatContent(content, panelWidth, panelHeight, wrap, true);
    } else {
      r := Some(content);
    }
  }

  function PanelContent(content: string, x0: int, y0: int, x1: int, y1: int, wrap: bool): Option<string> {
    if HasInside(x0, y0, x1, y1) then Formatted(content, x1 - x0 - 1, y1 - y0 - 1, wrap, true) else Some(content)
  }

  predicate HasInside(x0: int, y0: int, x1: int, y1: int) {
    x1 - x0 - 1 > 0 && y1 - y0 - 1 > 0
  }

  /** The shown text has the lines of the content if they fit, and else the first of
      them down to the last row, which ends in the suffix within the width. */
  predicate Shows(lines: seq<string>, shown: string, columns: int, rows: int)
    requires rows > 0
  {
    var rest := Split(shown, NEWLINE);
    if |lines| <= rows then rest == lines
    else
      && |rest| == rows && rest[..rows - 1] == lines[..rows - 1]
      && |SUFFIX| <= |rest[rows - 1]| <= columns
      && rest[rows - 1][|rest[rows - 1]| - |SUFFIX|..] == SUFFIX
  }

  lemma TruncatedShows(text: string, columns: int, rows: int)
    requires columns > 0 && rows > 0 && Truncated(text, columns, rows).Some?
    ensures Shows(Split(text, NEWLINE), Truncated(text, columns, rows).value, columns, rows)
  {
    TruncationFits(text, columns, rows);
  }

  /** A panel with an inside shows that much of its content. */
  lemma PanelShows(content: string, x0: int, y0: int, x1: int, y1: int, wrap: bool)
    requires HasInside(x0, y0, x1, y1) && PanelContent(content, x0, y0, x1, y1, wrap).Some?
    ensures var columns, rows := x1 - x0 - 1, y1 - y0 - 1;
      Shows(LinesOf(content, columns, wrap), PanelContent(content, x0, y0, x1, y1, wrap).value, columns, rows)
  {
    var columns := x1 - x0 - 1;
    if wrap {
      WrappedLines(content, columns);
    }
    TruncatedShows(if wrap then Wrapped(content, columns) else content, columns, y1 - y0 - 1);
  }

  /** No panel of the installer panics, whatever the size of the terminal and the
      text: its width is never 1 to 3. */
  lemma NoPanelPanics(placing: Placing, maxX: nat, y0: int, y1: int, content: string, wrap: bool)
    ensures PanelContent(content, placing.Left(maxX), y0, placing.Right(maxX), y1, wrap).Some?
  {
    var width := placing.Right(maxX) - placing.Left(maxX) - 1;
    assert !(0 < width < 4);
    if width > 0 && y1 - y0 - 1 > 0 {
      PanicsExactlyWhen(content, width, y1 - y0 - 1, wrap, true);
    }
  }

  /** The footer is as wide as the terminal, has one row and only ever an empty text. */
  lemma FooterNeverPanics(maxX: nat, maxY: int, wrap: bool)
    ensures PanelContent("", 0, maxY - 2, maxX, maxY, wrap).Some?
  {
    assert Split("", NEWLINE) == [""] && WrapAll([""], maxX - 1) == [""];
    PanicsExactlyWhen("", maxX - 1, 1, wrap, true);
  }

  /** Truncation leaves what fits alone. Otherwise it keeps exactly `maxRows`
      lines: all but the last unchanged, the last a prefix of the line it cuts
      followed by the suffix and no wider than the panel. */
  lemma TruncationFits(content: string, maxColumns: int, maxRows: int)
    requires Truncated(content, maxColumns, maxRows).Some?
    ensures var before := Split(content, NEWLINE);
            var after := Split(Truncated(content, maxColumns, maxRows).value, NEWLINE);
      if |before| <= maxRows then after == before && Truncated(content, maxColumns, maxRows).value == content
      else
        && |after| == maxRows && after[..maxRows - 1] == before[..maxRows - 1]
        && (maxColumns > 0 ==> |after[maxRows - 1]| <= maxColumns)
        && |after[maxRows - 1]| >= |SUFFIX|
        && var kept := |after[maxRows - 1]| - |SUFFIX|;
           && kept <= |before[maxRows - 1]| && after[maxRows - 1] == before[maxRows - 1][..kept] + SUFFIX
           && (kept < |before[maxRows - 1]| ==> |after[maxRows - 1]| == maxColumns)
  {
    var before := Split(content, NEWLINE);
    if |before| > maxRows {
      JoinSplit(content, NEWLINE);
      var cut := CutLine(before[maxRows - 1], maxColumns);
      assert NEWLINE !in before[maxRows - 1];
      SplitJoin(before[..maxRows - 1] + [cut], NEWLINE);
    }
  }

  lemma {:induction false} WrapAllIsSettled(lines: seq<string>, columns: int)
    requires forall line <- lines :: NEWLINE !in line
    ensures forall line <- WrapAll(lines, columns) :: Settled(line, columns) && NEWLINE !in line
  {
    if lines != [] {
      WrappedLinesAreSettled(lines[0], columns);
      WrapAllIsSettled(lines[1..], columns);
    }
  }

  lemma SettledStays(line: string, columns: int)
    requires Settled(line, columns)
    ensures WrapLines(line, columns) == [line]
  {
    assert |line| >= columns ==> LastBlank(line, columns).None?;
  }

  lemma {:induction false} WrapAllKeepsSettled(lines: seq<string>, columns: int)
    requires forall line <- lines :: Settled(line, columns)
    ensures WrapAll(lines, columns) == lines
  {
    if lines != [] {
      WrapAllKeepsSettled(lines[1..], columns);
      SettledStays(lines[0], columns);
    }
  }

  /** Wrapping wrapped content changes nothing, at any width. */
  lemma WrappingIsIdempotent(content: string, columns: int)
    ensures Wrapped(Wrapped(content, columns), columns) == Wrapped(content, columns)
  {
    var lines := Split(content, NEWLINE);
    JoinSplit(content, NEWLINE);
    WrapAllIsSettled(lines, columns);
    WrapAllKeepsSettled(WrapAll(lines, columns), columns);
    assert WrapAll(lines, columns) != [];
    SplitJoin(WrapAll(lines, columns), NEWLINE);
  }
}
