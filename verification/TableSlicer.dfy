/** Fixed-width tables under a ruler of dashes (fastpath/parse.go): slicing, and the
    printing it undoes. Text is ASCII, so bytes and characters are the same. */
module TableSlicer {
  import opened Prelude
  import opened Whitespace
  import ShellText

  // ------------------------------------------------------------------
  // Rulers
  // ------------------------------------------------------------------

  predicate IsGap(c: char) {
    c == ' ' || c == '\t'
  }

  function GapRun(s: string): (n: nat)
    ensures n <= |s|
  {
    if s != "" && IsGap(s[0]) then 1 + GapRun(s[1..]) else 0
  }

  /** ^[ \t]*-{2,}[- \t]*$ */
  predicate IsRuler(s: string) {
    var n := GapRun(s);
    n + 2 <= |s| && s[n] == '-' && s[n + 1] == '-'
    && forall i :: n + 2 <= i < |s| ==> s[i] == '-' || IsGap(s[i])
  }

  /** The expression, piece by piece: gaps up to i, dashes from i to j, at least two, and
      dashes and gaps to the end. */
  ghost predicate MatchesAt(s: string, i: nat, j: nat) {
    && i + 2 <= j <= |s|
    && (forall k :: 0 <= k < i ==> s[k] == ' ' || s[k] == '\t')
    && (forall k :: i <= k < j ==> s[k] == '-')
    && forall k :: j <= k < |s| ==> s[k] == '-' || s[k] == ' ' || s[k] == '\t'
  }

  ghost predicate MatchesRuler(s: string) {
    exists i: nat, j: nat :: MatchesAt(s, i, j)
  }

  lemma {:induction false} GapRunMeaning(s: string)
    ensures forall k :: 0 <= k < GapRun(s) ==> s[k] == ' ' || s[k] == '\t'
    ensures GapRun(s) < |s| ==> s[GapRun(s)] != ' ' && s[GapRun(s)] != '\t'
  {
    if s != "" && IsGap(s[0]) {
      GapRunMeaning(s[1..]);
      assert forall k :: 1 <= k < GapRun(s) ==> s[k] == s[1..][k - 1];
    }
  }

  /** A ruler is a match of the expression. */
  lemma {:induction false} RulerMeaning(s: string)
    ensures IsRuler(s) <==> MatchesRuler(s)
  {
    GapRunMeaning(s);
    var n := GapRun(s);
    if IsRuler(s) {
      assert MatchesAt(s, n, n + 2);
    }
    if MatchesRuler(s) {
      var i: nat, j: nat :| MatchesAt(s, i, j);
      assert s[i] == '-' && s[i + 1] == '-';
      assert n == i;
    }
  }

  /** A run of dashes starts at i. */
  predicate StartsAt(ruler: string, i: nat) {
    i < |ruler| && ruler[i] == '-' && (i == 0 || ruler[i - 1] != '-')
  }

  /** Where the runs of dashes start, up to some point. */
  function RunStarts(ruler: string, upto: nat): (r: seq<nat>)
    ensures forall i :: 0 <= i < |r| ==> r[i] < upto
    ensures forall i, j :: 0 <= i < j < |r| ==> r[i] < r[j]
  {
    if upto == 0 then []
    else RunStarts(ruler, upto - 1) + if StartsAt(ruler, upto - 1) then [upto - 1] else []
  }

  /** A column, from its run of dashes to the next one, or to the end of the row. */
  datatype Span = Span(start: nat, end: Option<nat>)

  function SpanAt(starts: seq<nat>, i: nat): Span
    requires i < |starts|
  {
    Span(starts[i], if i + 1 < |starts| then Some(starts[i + 1]) else None)
  }

  function Spans(starts: seq<nat>): (r: seq<Span>)
    ensures |r| == |starts|
    ensures forall i :: 0 <= i < |r| ==> r[i] == SpanAt(starts, i)
  {
    seq(|starts|, i requires 0 <= i < |starts| => SpanAt(starts, i))
  }

  /** rulerSpans. */
  method RulerSpans(ruler: string) returns (spans: seq<Span>)
    ensures spans == Spans(RunStarts(ruler, |ruler|))
  {
    var starts: seq<nat> := [];
    var i := 0;
    while i < |ruler|
      invariant i <= |ruler| && starts == RunStarts(ruler, i)
      invariant i < |ruler| && ruler[i] == '-' ==> StartsAt(ruler, i)
    {
      if ruler[i] == '-' {
        var start := i;
        i := i + 1;
        while i < |ruler| && ruler[i] == '-'
          invariant start < i <= |ruler| && ruler[i - 1] == '-'
          invariant RunStarts(ruler, i) == RunStarts(ruler, start) + [start]
        {
          i := i + 1;
        }
        starts := starts + [start];
      } else {
        i := i + 1;
      }
    }
    spans := Spans(starts);
  }

  // ------------------------------------------------------------------
  // Slicing
  // ------------------------------------------------------------------

  function Min(a: nat, b: nat): nat {
    if a < b then a else b
  }

  /** The raw cell, both bounds clamped to the row. */
  function RawCell(row: string, span: Span): string {
    var start := Min(span.start, |row|);
    var end := if span.end.None? then |row| else Min(span.end.value, |row|);
    if start > end then "" else row[start..end]
  }

  /** sliceCell. */
  function SliceCell(row: string, span: Span): string {
    TrimSpace(RawCell(row, span))
  }

  /** sliceRow. */
  function SliceRow(spans: seq<Span>, row: string): (cells: seq<string>)
    ensures |cells| == |spans|
    ensures forall i :: 0 <= i < |cells| ==> cells[i] == SliceCell(row, spans[i])
  {
    seq(|spans|, i requires 0 <= i < |spans| => SliceCell(row, spans[i]))
  }

  predicate Increasing(starts: seq<nat>) {
    forall i, j :: 0 <= i < j < |starts| ==> starts[i] < starts[j]
  }

  /** The raw cells from a column on, end to end. */
  function RawFrom(starts: seq<nat>, row: string, i: nat): string
    requires i <= |starts|
    decreases |starts| - i
  {
    if i == |starts| then "" else RawCell(row, SpanAt(starts, i)) + RawFrom(starts, row, i + 1)
  }

  /** The columns tile the row: from the first one on, every character of any row, long
      or short, is in exactly one of them. */
  lemma {:induction false} SpansTile(starts: seq<nat>, row: string, i: nat)
    requires Increasing(starts) && i < |starts|
    ensures RawFrom(starts, row, i) == row[Min(starts[i], |row|)..]
    decreases |starts| - i
  {
    var a := Min(starts[i], |row|);
    if i + 1 < |starts| {
      SpansTile(starts, row, i + 1);
      var b := Min(starts[i + 1], |row|);
      assert row[a..b] + row[b..] == row[a..];
    } else {
      assert RawFrom(starts, row, i + 1) == "";
      assert row[a..] + "" == row[a..];
    }
  }

  // ------------------------------------------------------------------
  // Printing
  // ------------------------------------------------------------------

  function Spaces(n: nat): (s: string)
    ensures |s| == n && Blank(s)
  {
    seq(n, _ => ' ')
  }

  /** Cells that fit: each is trimmed, and all but the last are no wider than their
      column. */
  predicate Fits(starts: seq<nat>, cells: seq<string>) {
    && |cells| == |starts|
    && (forall i :: 0 <= i < |cells| ==> TrimSpace(cells[i]) == cells[i])
    && forall i :: 0 <= i < |cells| - 1 ==> starts[i] + |cells[i]| <= starts[i + 1]
  }

  /** The row from a column on, each cell at the left of its column. */
  function PrintFrom(starts: seq<nat>, cells: seq<string>, i: nat): string
    requires Fits(starts, cells) && i < |cells|
    decreases |cells| - i
  {
    if i == |cells| - 1 then cells[i]
    else cells[i] + Spaces(starts[i + 1] - starts[i] - |cells[i]|) + PrintFrom(starts, cells, i + 1)
  }

  function PrintRow(starts: seq<nat>, cells: seq<string>): string
    requires Fits(starts, cells) && cells != []
  {
    Spaces(starts[0]) + PrintFrom(starts, cells, 0)
  }

  lemma {:induction false} TrimRightPadded(s: string, pad: string)
    requires Blank(pad)
    ensures TrimRight(s + pad) == TrimRight(s)
    decreases |pad|
  {
    if pad == "" {
      assert s + pad == s;
    } else {
      assert (s + pad)[..|s + pad| - 1] == s + pad[..|pad| - 1];
      TrimRightPadded(s, pad[..|pad| - 1]);
    }
  }

  /** White space after a text is trimmed with it. */
  lemma {:induction false} TrimPadded(s: string, pad: string)
    requires Blank(pad)
    ensures TrimSpace(s + pad) == TrimSpace(s)
  {
    TrimRightPadded(s, pad);
  }

  /** Column i of a printed row is where it should be. */
  lemma {:induction false} PrintedAt(starts: seq<nat>, cells: seq<string>, i: nat)
    requires Increasing(starts) && Fits(starts, cells) && i < |cells|
    ensures var row := PrintRow(starts, cells);
            starts[i] <= |row| && row[starts[i]..] == PrintFrom(starts, cells, i)
  {
    var row := PrintRow(starts, cells);
    if i > 0 {
      PrintedAt(starts, cells, i - 1);
      var cell := cells[i - 1] + Spaces(starts[i] - starts[i - 1] - |cells[i - 1]|);
      assert row[starts[i - 1]..] == cell + PrintFrom(starts, cells, i);
      assert row[starts[i]..] == row[starts[i - 1]..][|cell|..];
    }
  }

  /** What is in a column of a printed row: the cell and its padding. */
  lemma {:induction false} PrintedCell(starts: seq<nat>, cells: seq<string>, i: nat)
    requires Increasing(starts) && Fits(starts, cells) && i < |cells|
    ensures SliceCell(PrintRow(starts, cells), SpanAt(starts, i)) == cells[i]
  {
    var row := PrintRow(starts, cells);
    PrintedAt(starts, cells, i);
    if i + 1 < |cells| {
      PrintedAt(starts, cells, i + 1);
      var pad := Spaces(starts[i + 1] - starts[i] - |cells[i]|);
      assert RawCell(row, SpanAt(starts, i)) == row[starts[i]..][..starts[i + 1] - starts[i]];
      assert RawCell(row, SpanAt(starts, i)) == cells[i] + pad;
      TrimPadded(cells[i], pad);
    } else {
      assert RawCell(row, SpanAt(starts, i)) == row[starts[i]..];
    }
  }

  /** White space at the end of a row is all that a raw cell gains from it. */
  lemma {:induction false} RawGrows(row: string, pad: string, span: Span) returns (extra: string)
    requires Blank(pad)
    ensures Blank(extra) && RawCell(row + pad, span) == RawCell(row, span) + extra
  {
    var whole, n := row + pad, |row|;
    var start := Min(span.start, |whole|);
    var end := if span.end.None? then |whole| else Min(span.end.value, |whole|);
    extra := "";
    if start <= end <= n {
      SliceWithin(row, pad, start, end);
    } else if start <= n < end {
      extra := pad[..end - n];
      SliceAcross(row, pad, start, end);
    } else if start <= end {
      extra := pad[start - n..end - n];
      SliceBeyond(row, pad, start, end);
    }
  }

  /** A row that lost white space at its end still shows the same cell. */
  lemma {:induction false} CutCell(row: string, pad: string, span: Span)
    requires Blank(pad)
    ensures SliceCell(row, span) == SliceCell(row + pad, span)
  {
    var extra := RawGrows(row, pad, span);
    TrimPadded(RawCell(row, span), extra);
  }

  /** Printing and slicing are inverse, also when trailing blanks, such as trailing
      empty cells, are cut off the row. */
  lemma {:induction false} PrintSlice(starts: seq<nat>, cells: seq<string>, row: string, pad: string)
    requires Increasing(starts) && Fits(starts, cells) && cells != []
    requires Blank(pad) && row + pad == PrintRow(starts, cells)
    ensures SliceRow(Spans(starts), row) == cells
  {
    forall i | 0 <= i < |cells| ensures SliceCell(row, SpanAt(starts, i)) == cells[i] {
      PrintedCell(starts, cells, i);
      CutCell(row, pad, SpanAt(starts, i));
    }
  }

  // ------------------------------------------------------------------
  // The rows of a table
  // ------------------------------------------------------------------

  /** splitLines: a single trailing line feed does not start another line. */
  function SplitLines(text: string): seq<string> {
    if text == "" then []
    else if text[|text| - 1] == '\n' then ShellText.Lines(text[..|text| - 1])
    else ShellText.Lines(text)
  }

  /** The first line, from an index on, that contains a text. */
  function FirstContaining(lines: seq<string>, what: string, from: nat): (i: nat)
    requires from <= |lines|
    ensures from <= i <= |lines|
    decreases |lines| - from
  {
    if from == |lines| || Contains(lines[from], what) then from else FirstContaining(lines, what, from + 1)
  }

  /** The first ruler, from an index on. */
  function FirstRuler(lines: seq<string>, from: nat): (i: nat)
    requires from <= |lines|
    ensures from <= i <= |lines|
    ensures i < |lines| ==> IsRuler(lines[i])
    ensures forall j :: from <= j < i ==> !IsRuler(lines[j])
    decreases |lines| - from
  {
    if from == |lines| || IsRuler(lines[from]) then from else FirstRuler(lines, from + 1)
  }

  function TableAt(lines: seq<string>, after: string): (i: nat)
    ensures i <= |lines|
  {
    FirstRuler(lines, if after == "" then 0 else FirstContaining(lines, after, 0))
  }

  /** findAfterAndRuler. */
  method FindAfterAndRuler(lines: seq<string>, after: string) returns (idx: nat, ok: bool)
    ensures idx == TableAt(lines, after) && (ok <==> idx < |lines|)
  {
    idx := 0;
    if after != "" {
      while idx < |lines| && !Contains(lines[idx], after)
        invariant idx <= |lines| && FirstContaining(lines, after, 0) == FirstContaining(lines, after, idx)
      {
        idx := idx + 1;
      }
    }
    ghost var from := idx;
    while idx < |lines| && !IsRuler(lines[idx])
      invariant idx <= |lines| && FirstRuler(lines, from) == FirstRuler(lines, idx)
    {
      idx := idx + 1;
    }
    ok := idx < |lines|;
  }

  /** A table body ends at a blank line or at the next ruler. */
  predicate EndsBody(line: string) {
    TrimSpace(line) == "" || IsRuler(line)
  }

  function Body(spans: seq<Span>, lines: seq<string>): seq<seq<string>> {
    if lines == [] || EndsBody(lines[0]) then [] else [SliceRow(spans, lines[0])] + Body(spans, lines[1..])
  }

  function TableRows(lines: seq<string>, after: string): seq<seq<string>> {
    var at := TableAt(lines, after);
    if at == |lines| then [] else Body(Spans(RunStarts(lines[at], |lines[at]|)), lines[at + 1..])
  }

  /** iterTableRows. */
  method IterTableRows(text: string, after: string) returns (rows: seq<seq<string>>)
    ensures rows == TableRows(SplitLines(text), after)
  {
    var lines := SplitLines(text);
    var at, ok := FindAfterAndRuler(lines, after);
    if !ok {
      return [];
    }
    var spans := RulerSpans(lines[at]);
    rows := CutRows(spans, lines, at + 1);
  }

  /** Its loop: the rows from a line on, up to one that ends the body. */
  method CutRows(spans: seq<Span>, lines: seq<string>, start: nat) returns (rows: seq<seq<string>>)
    requires start <= |lines|
    ensures rows == Body(spans, lines[start..])
  {
    rows := [];
    var i := start;
    ghost var body := Body(spans, lines[start..]);
    assert rows + body == body;
    while i < |lines| && !EndsBody(lines[i])
      invariant start <= i <= |lines|
      invariant rows + Body(spans, lines[i..]) == body
    {
      BodyStep(spans, lines, i, rows);
      rows := rows + [SliceRow(spans, lines[i])];
      i := i + 1;
    }
    BodyStops(spans, lines, i, rows);
  }

  /** One more row of a body. */
  lemma {:induction false} BodyStep(spans: seq<Span>, lines: seq<string>, i: nat, rows: seq<seq<string>>)
    requires i < |lines| && !EndsBody(lines[i])
    ensures rows + Body(spans, lines[i..]) == rows + [SliceRow(spans, lines[i])] + Body(spans, lines[i + 1..])
  {
    SliceStep(lines, i);
    assert lines[i..][1..] == lines[i + 1..];
    ConcatAssoc(rows, [SliceRow(spans, lines[i])], Body(spans, lines[i + 1..]));
  }

  lemma {:induction false} BodyStops(spans: seq<Span>, lines: seq<string>, i: nat, rows: seq<seq<string>>)
    requires i <= |lines| && (i == |lines| || EndsBody(lines[i]))
    ensures rows + Body(spans, lines[i..]) == rows
  {
  }

  // What ends a table, said of the text.

  /** A character that strings.TrimSpace trims. */
  ghost predicate White(c: char) {
    c as int in {0x09, 0x0A, 0x0B, 0x0C, 0x0D, 0x20}
  }

  /** A line with nothing in it to see. */
  ghost predicate Empty(line: string) {
    forall i :: 0 <= i < |line| ==> White(line[i])
  }

  /** A line that ends a table, or that begins another. */
  ghost predicate Closes(line: string) {
    Empty(line) || MatchesRuler(line)
  }

  /** A body ends where the text says so, and nowhere else. */
  lemma {:induction false} EndsBodyMeaning(line: string)
    ensures EndsBody(line) <==> Closes(line)
  {
    RulerMeaning(line);
    TrimSpaceBlank(line);
    assert forall i :: 0 <= i < |line| ==> (IsSpace(line[i]) <==> White(line[i]));
  }

  /** A character that is in no ruler and is not white is enough to keep a line. */
  lemma {:induction false} OrdinaryLine(line: string, i: nat)
    requires i < |line| && line[i] != '-' && !White(line[i])
    ensures !Closes(line)
  {
  }

  /** A line shows some cells: it is their printed row, less trailing white space. */
  ghost predicate Shows(starts: seq<nat>, cells: seq<string>, line: string) {
    cells != [] && Fits(starts, cells)
    && exists pad :: Blank(pad) && line + pad == PrintRow(starts, cells)
  }

  /** Lines that show the rows of a table, none of which ends it early. */
  ghost predicate ShowsAll(starts: seq<nat>, table: seq<seq<string>>, lines: seq<string>) {
    |lines| == |table|
    && forall i :: 0 <= i < |table| ==> Shows(starts, table[i], lines[i]) && !Closes(lines[i])
  }

  lemma {:induction false} ShownSlice(starts: seq<nat>, cells: seq<string>, line: string)
    requires Increasing(starts) && Shows(starts, cells, line)
    ensures SliceRow(Spans(starts), line) == cells
  {
    var pad :| Blank(pad) && line + pad == PrintRow(starts, cells);
    PrintSlice(starts, cells, line, pad);
  }

  lemma {:induction false} BodyCons(spans: seq<Span>, line: string, more: seq<string>)
    requires !EndsBody(line)
    ensures Body(spans, [line] + more) == [SliceRow(spans, line)] + Body(spans, more)
  {
    assert ([line] + more)[1..] == more;
  }

  /** Lines that are cut to the rows of a table, none of which ends it early. */
  ghost predicate CutTo(spans: seq<Span>, table: seq<seq<string>>, lines: seq<string>) {
    |lines| == |table|
    && forall i :: 0 <= i < |table| ==> SliceRow(spans, lines[i]) == table[i] && !EndsBody(lines[i])
  }

  lemma {:induction false} BodyOfCut(spans: seq<Span>, table: seq<seq<string>>, lines: seq<string>, rest: seq<string>)
    requires CutTo(spans, table, lines) && (rest == [] || EndsBody(rest[0]))
    ensures Body(spans, lines + rest) == table
    decreases |lines|
  {
    if lines == [] {
      assert lines + rest == rest;
    } else {
      BodyOfCut(spans, table[1..], lines[1..], rest);
      BodyCons(spans, lines[0], lines[1..] + rest);
      assert lines + rest == [lines[0]] + (lines[1..] + rest);
      assert table == [table[0]] + table[1..];
    }
  }

  lemma {:induction false} BodyReadsBack(starts: seq<nat>, table: seq<seq<string>>, lines: seq<string>, rest: seq<string>)
    requires Increasing(starts) && ShowsAll(starts, table, lines)
    requires rest == [] || Closes(rest[0])
    ensures Body(Spans(starts), lines + rest) == table
  {
    forall i | 0 <= i < |table| ensures SliceRow(Spans(starts), lines[i]) == table[i] && !EndsBody(lines[i]) {
      ShownSlice(starts, table[i], lines[i]);
      EndsBodyMeaning(lines[i]);
    }
    if rest != [] {
      EndsBodyMeaning(rest[0]);
    }
    BodyOfCut(Spans(starts), table, lines, rest);
  }

  /** Lines that a table may follow: from the one with the text `after`, if that is
      asked for, they are not rulers. */
  ghost predicate Leads(head: seq<string>, after: string) {
    var from := if after == "" then 0 else FirstContaining(head, after, 0);
    && (after == "" || from < |head|)
    && forall i :: from <= i < |head| ==> !MatchesRuler(head[i])
  }

  lemma {:induction false} FoundInFront(head: seq<string>, more: seq<string>, what: string, from: nat)
    requires from <= |head| && FirstContaining(head, what, from) < |head|
    ensures FirstContaining(head + more, what, from) == FirstContaining(head, what, from)
    decreases |head| - from
  {
    if !Contains(head[from], what) {
      FoundInFront(head, more, what, from + 1);
    }
  }

  /** The table is found right after the lines that lead up to it. */
  lemma {:induction false} TableFound(head: seq<string>, after: string, ruler: string, more: seq<string>)
    requires MatchesRuler(ruler) && Leads(head, after)
    ensures TableAt(head + [ruler] + more, after) == |head|
  {
    var all := head + [ruler] + more;
    RulerMeaning(ruler);
    forall i | 0 <= i < |head| ensures IsRuler(head[i]) <==> MatchesRuler(head[i]) {
      RulerMeaning(head[i]);
    }
    if after != "" {
      FoundInFront(head, [ruler] + more, after, 0);
      ConcatAssoc(head, [ruler], more);
    }
    assert forall i :: 0 <= i < |head| ==> all[i] == head[i];
    assert all[|head|] == ruler;
  }

  /** A printed table is read back: after lines that lead up to it, a ruler, and rows
      that show the cells, up to the end, a blank line or another ruler. */
  lemma {:induction false} TableReadsBack(head: seq<string>, after: string, ruler: string, table: seq<seq<string>>,
                                          lines: seq<string>, rest: seq<string>)
    requires MatchesRuler(ruler) && Leads(head, after)
    requires ShowsAll(RunStarts(ruler, |ruler|), table, lines)
    requires rest == [] || Closes(rest[0])
    ensures TableRows(head + [ruler] + (lines + rest), after) == table
  {
    var all := head + [ruler] + (lines + rest);
    TableFound(head, after, ruler, lines + rest);
    assert all[|head|] == ruler && all[|head| + 1..] == lines + rest;
    BodyReadsBack(RunStarts(ruler, |ruler|), table, lines, rest);
  }

  lemma {:induction false} LinesOfUnlines(lines: seq<string>)
    requires lines != [] && forall i :: 0 <= i < |lines| ==> forall j :: 0 <= j < |lines[i]| ==> lines[i][j] != '\n'
    ensures ShellText.Lines(ShellText.Unlines(lines)) == lines
  {
    if |lines| == 1 {
      ShellText.LinesSingle(lines[0]);
    } else {
      ShellText.LinesCons(lines[0], ShellText.Unlines(lines[1..]));
      LinesOfUnlines(lines[1..]);
      assert lines == [lines[0]] + lines[1..];
    }
  }

  /** The text of some lines, with a line feed after the last, splits into them. */
  lemma {:induction false} SplitText(lines: seq<string>)
    requires lines != [] && forall i :: 0 <= i < |lines| ==> forall j :: 0 <= j < |lines[i]| ==> lines[i][j] != '\n'
    ensures SplitLines(ShellText.Unlines(lines) + "\n") == lines
  {
    var text := ShellText.Unlines(lines);
    assert (text + "\n")[..|text|] == text;
    LinesOfUnlines(lines);
  }

  // ------------------------------------------------------------------
  // Printing a ruler
  // ------------------------------------------------------------------

  /** A column of a ruler: dashes, then the gap to the next. */
  datatype Column = Column(dashes: nat, gap: nat)

  function Dashes(n: nat): (s: string)
    ensures |s| == n && forall i :: 0 <= i < n ==> s[i] == '-'
  {
    seq(n, _ => '-')
  }

  function PrintRuler(columns: seq<Column>): string {
    if columns == [] then ""
    else PrintRuler(columns[..|columns| - 1])
         + (Dashes(columns[|columns| - 1].dashes) + Spaces(columns[|columns| - 1].gap))
  }

  /** Where the columns start. */
  function Offsets(columns: seq<Column>): (r: seq<nat>)
    ensures |r| == |columns|
  {
    if columns == [] then []
    else Offsets(columns[..|columns| - 1]) + [|PrintRuler(columns[..|columns| - 1])|]
  }

  /** Runs of dashes with gaps between them; what follows the last may be nothing. */
  predicate Separated(columns: seq<Column>) {
    && (forall i :: 0 <= i < |columns| ==> columns[i].dashes > 0)
    && forall i :: 0 <= i < |columns| - 1 ==> columns[i].gap > 0
  }

  lemma {:induction false} StartsExtend(a: string, b: string, upto: nat)
    requires upto <= |a|
    ensures RunStarts(a + b, upto) == RunStarts(a, upto)
  {
    if upto > 0 {
      StartsExtend(a, b, upto - 1);
      assert StartsAt(a + b, upto - 1) == StartsAt(a, upto - 1);
    }
  }

  lemma {:induction false} OneRun(before: string, dashes: nat, gap: nat, upto: nat)
    requires dashes > 0 && (before == "" || before[|before| - 1] != '-')
    requires 0 < upto <= dashes + gap
    ensures RunStarts(before + (Dashes(dashes) + Spaces(gap)), |before| + upto) == RunStarts(before, |before|) + [|before|]
  {
    var ruler := before + (Dashes(dashes) + Spaces(gap));
    if upto == 1 {
      StartsExtend(before, Dashes(dashes) + Spaces(gap), |before|);
    } else {
      OneRun(before, dashes, gap, upto - 1);
    }
  }

  lemma {:induction false} PrintedRulerEnds(columns: seq<Column>)
    requires columns != [] && columns[|columns| - 1].gap > 0
    ensures PrintRuler(columns) != "" && PrintRuler(columns)[|PrintRuler(columns)| - 1] == ' '
  {
    var column := columns[|columns| - 1];
    assert (Dashes(column.dashes) + Spaces(column.gap))[column.dashes + column.gap - 1] == ' ';
  }

  lemma {:induction false} RulerGrows(before: string, dashes: nat, gap: nat, ruler: string)
    requires dashes > 0 && (before == "" || before[|before| - 1] != '-')
    requires ruler == before + (Dashes(dashes) + Spaces(gap))
    ensures RunStarts(ruler, |ruler|) == RunStarts(before, |before|) + [|before|]
  {
    OneRun(before, dashes, gap, dashes + gap);
  }

  /** A printed ruler's spans are its columns. */
  lemma {:induction false} RulerStarts(columns: seq<Column>)
    requires Separated(columns)
    ensures RunStarts(PrintRuler(columns), |PrintRuler(columns)|) == Offsets(columns)
  {
    if columns != [] {
      var n := |columns| - 1;
      if n > 0 {
        PrintedRulerEnds(columns[..n]);
      }
      RulerStarts(columns[..n]);
      RulerGrows(PrintRuler(columns[..n]), columns[n].dashes, columns[n].gap, PrintRuler(columns));
    }
  }

  lemma {:induction false} PrintedRulerIsRuler(columns: seq<Column>)
    requires columns != [] && Separated(columns) && columns[0].dashes >= 2
    ensures MatchesRuler(PrintRuler(columns))
    ensures PrintRuler(columns)[0] == '-' && PrintRuler(columns)[1] == '-'
  {
    var n := |columns| - 1;
    if n > 0 {
      PrintedRulerIsRuler(columns[..n]);
    } else {
      assert PrintRuler(columns[..n]) == "";
    }
    RulerLetters(columns);
    assert MatchesAt(PrintRuler(columns), 0, 2);
  }

  lemma {:induction false} RulerLetters(columns: seq<Column>)
    ensures forall i :: 0 <= i < |PrintRuler(columns)| ==> PrintRuler(columns)[i] == '-' || PrintRuler(columns)[i] == ' '
  {
    if columns != [] {
      RulerLetters(columns[..|columns| - 1]);
    }
  }

  /** Table printing and slicing are inverse, from columns and cells to text and back. */
  lemma {:induction false} PrintedTableReadsBack(head: seq<string>, after: string, columns: seq<Column>, table: seq<seq<string>>,
                                                 lines: seq<string>, rest: seq<string>)
    requires columns != [] && Separated(columns) && columns[0].dashes >= 2
    requires Leads(head, after)
    requires ShowsAll(Offsets(columns), table, lines)
    requires rest == [] || Closes(rest[0])
    requires forall i, j :: 0 <= i < |head| && 0 <= j < |head[i]| ==> head[i][j] != '\n'
    requires forall i, j :: 0 <= i < |lines| && 0 <= j < |lines[i]| ==> lines[i][j] != '\n'
    requires forall i, j :: 0 <= i < |rest| && 0 <= j < |rest[i]| ==> rest[i][j] != '\n'
    ensures TableRows(SplitLines(ShellText.Unlines(head + [PrintRuler(columns)] + (lines + rest)) + "\n"), after) == table
  {
    var ruler := PrintRuler(columns);
    PrintedRulerIsRuler(columns);
    RulerStarts(columns);
    RulerLetters(columns);
    SplitText(head + [ruler] + (lines + rest));
    TableReadsBack(head, after, ruler, table, lines, rest);
  }
}
