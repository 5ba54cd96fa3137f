/** The Markdown rendering at the end of `_extract_table_text_from_elements`: cell
    texts are made single-line with `|` escaped, then emitted row by row as
    `| a | b |` lines, with a `---` separator under the first row. */
module TableMarkdown {
  import opened Seqs
  import opened Chars

  // ---------------------------------------------------------------------------
  // Cell text escaping.

  /** `replace("\n", " ")`. */
  function NewlinesToSpaces(s: string): (r: string)
    ensures |r| == |s|
    ensures forall i :: 0 <= i < |s| ==> r[i] == if s[i] == '\n' then ' ' else s[i]
  {
    if s == [] then [] else [if s[0] == '\n' then ' ' else s[0]] + NewlinesToSpaces(s[1..])
  }

  /** `replace("|", "\\|")`. */
  function EscapeBars(s: string): (r: string)
    ensures r == [] || r[0] != '|'
    ensures s == [] ==> r == []
  {
    if s == [] then [] else (if s[0] == '|' then "\\|" else [s[0]]) + EscapeBars(s[1..])
  }

  /** The reading of an escaped text: `\|` stands for `|`. */
  function Unescape(s: string): string {
    if |s| >= 2 && s[0] == '\\' && s[1] == '|' then "|" + Unescape(s[2..])
    else if s == [] then []
    else [s[0]] + Unescape(s[1..])
  }

  /** Escaping loses nothing: the escaped text reads back as the original. */
  lemma {:induction false} UnescapeEscapeBars(s: string)
    ensures Unescape(EscapeBars(s)) == s
  {
    if s != [] {
      UnescapeEscapeBars(s[1..]);
      var rest := EscapeBars(s[1..]);
      if s[0] == '|' {
        assert EscapeBars(s) == "\\|" + rest;
        assert EscapeBars(s)[2..] == rest;
      } else {
        assert EscapeBars(s) == [s[0]] + rest;
        assert EscapeBars(s)[1..] == rest;
      }
    }
  }

  /** Every `|` of an escaped text is preceded by a backslash. */
  predicate BarsEscaped(s: string) {
    forall i :: 0 <= i < |s| && s[i] == '|' ==> i > 0 && s[i - 1] == '\\'
  }

  lemma {:induction false} EscapeBarsEscaped(s: string)
    ensures BarsEscaped(EscapeBars(s))
    ensures '\n' !in s ==> '\n' !in EscapeBars(s)
  {
    if s != [] {
      EscapeBarsEscaped(s[1..]);
      var rest := EscapeBars(s[1..]);
      var h := if s[0] == '|' then "\\|" else [s[0]];
      assert EscapeBars(s) == h + rest;
      forall i | 0 <= i < |h + rest| && (h + rest)[i] == '|'
        ensures i > 0 && (h + rest)[i - 1] == '\\'
      {
        if i >= |h| {
          assert (h + rest)[i] == rest[i - |h|];
        }
      }
    }
  }

  /** Both replacements in one pass: a newline becomes a space and `|` becomes `\|`. */
  function EscapeLine(s: string): string {
    if s == [] then []
    else (if s[0] == '|' then "\\|" else if s[0] == '\n' then " " else [s[0]]) + EscapeLine(s[1..])
  }

  /** The one-pass form is the chain `replace("\n", " ").replace("|", "\\|")`. */
  lemma {:induction false} EscapeLineIsChain(s: string)
    ensures EscapeLine(s) == EscapeBars(NewlinesToSpaces(s))
  {
    if s != [] {
      EscapeLineIsChain(s[1..]);
      var n := NewlinesToSpaces(s);
      assert n == [n[0]] + NewlinesToSpaces(s[1..]);
      assert n[1..] == NewlinesToSpaces(s[1..]);
    }
  }

  /** The text a cell shows: `replace("\n", " ").replace("|", "\\|").strip()`. */
  function CellDisplay(s: string): string {
    Strip(EscapeLine(s))
  }

  /** A displayed cell is one line, its bars are escaped, and it has no outer
      whitespace. */
  lemma {:induction false} CellDisplayForm(s: string)
    ensures '\n' !in CellDisplay(s)
    ensures BarsEscaped(CellDisplay(s))
    ensures CellDisplay(s) == [] || (!IsSpace(CellDisplay(s)[0]) && !IsSpace(CellDisplay(s)[|CellDisplay(s)| - 1]))
  {
    var n := NewlinesToSpaces(s);
    assert '\n' !in n;
    EscapeBarsEscaped(n);
    EscapeLineIsChain(s);
    StripKeepsEscapes(EscapeLine(s));
  }

  /** Stripping whitespace keeps a text single-line and its bars escaped. */
  lemma {:induction false} StripKeepsEscapes(e: string)
    requires '\n' !in e && BarsEscaped(e)
    ensures '\n' !in Strip(e) && BarsEscaped(Strip(e))
  {
    var k, b := StripBounds(e);
    var r := Strip(e);
    forall i | 0 <= i < |r| ensures r[i] == e[k + i] {
    }
    forall i | 0 <= i < |r| && r[i] == '|' ensures i > 0 && r[i - 1] == '\\' {
      assert e[k + i] == '|';
      assert k + i > 0 && e[k + i - 1] == '\\';
      assert !IsSpace(e[k + i - 1]);
    }
  }

  // ---------------------------------------------------------------------------
  // Row assembly.

  /** A Markdown line: a row of cell texts, or the separator of `width` columns. */
  datatype MdLine = RowLine(cells: seq<string>) | Separator(width: int)

  /** `["---"] * width`; a width of 0 or less gives no entry. */
  function Dashes(width: int): (r: seq<string>)
    ensures |r| == if width <= 0 then 0 else width
    ensures forall i :: 0 <= i < |r| ==> r[i] == "---"
    decreases width
  {
    if width <= 0 then [] else Dashes(width - 1) + ["---"]
  }

  /** `"| " + " | ".join(cells) + " |"`. */
  function Show(l: MdLine): string {
    match l
    case RowLine(cs) => "| " + Join(cs, " | ") + " |"
    case Separator(w) => "| " + Join(Dashes(w), " | ") + " |"
  }

  function ShowAll(ls: seq<MdLine>): (r: seq<string>)
    ensures |r| == |ls|
    ensures forall i :: 0 <= i < |ls| ==> r[i] == Show(ls[i])
  {
    if ls == [] then [] else [Show(ls[0])] + ShowAll(ls[1..])
  }

  /** A cell in id order: its row and its displayed text. */
  datatype Entry = Entry(row: int, text: string)

  /** The loop state: lines so far, the open row's cells, the open row number. */
  datatype RenderState = RenderState(lines: seq<MdLine>, rowCells: seq<string>, currentRow: int)

  /** One cell: a row number above the open row closes the open row (adding it,
      and the separator when it was row 0 and the table has more than one row)
      and opens a new one; any other cell joins the open row. */
  function Step(st: RenderState, e: Entry, maxRow: int, maxCol: int): RenderState {
    if e.row > st.currentRow then
      var closed :=
        if st.rowCells == [] then []
        else [RowLine(st.rowCells)] + (if st.currentRow == 0 && maxRow > 0 then [Separator(maxCol + 1)] else []);
      RenderState(st.lines + closed, [e.text], e.row)
    else RenderState(st.lines, st.rowCells + [e.text], st.currentRow)
  }

  function Scan(entries: seq<Entry>, maxRow: int, maxCol: int): RenderState {
    if entries == [] then RenderState([], [], 0)
    else Step(Scan(entries[..|entries| - 1], maxRow, maxCol), entries[|entries| - 1], maxRow, maxCol)
  }

  /** The table's lines: the scan's lines and the last open row. */
  function Render(entries: seq<Entry>, maxRow: int, maxCol: int): seq<MdLine> {
    var st := Scan(entries, maxRow, maxCol);
    st.lines + (if st.rowCells != [] then [RowLine(st.rowCells)] else [])
  }

  /** The rendering loop. */
  method RenderMarkdown(entries: seq<Entry>, maxRow: int, maxCol: int) returns (text: string)
    ensures text == Join(ShowAll(Render(entries, maxRow, maxCol)), "\n")
  {
    var markdownLines: seq<MdLine> := [];
    var rowCells: seq<string> := [];
    var currentRow := 0;
    for i := 0 to |entries|
      invariant Scan(entries[..i], maxRow, maxCol) == RenderState(markdownLines, rowCells, currentRow)
    {
      var e := entries[i];
      assert entries[..i + 1][..i] == entries[..i];
      if e.row > currentRow {
        if rowCells != [] {
          markdownLines := markdownLines + [RowLine(rowCells)];
          if currentRow == 0 && maxRow > 0 {
            markdownLines := markdownLines + [Separator(maxCol + 1)];
          }
        }
        rowCells := [];
        currentRow := e.row;
      }
      rowCells := rowCells + [e.text];
    }
    assert entries[..|entries|] == entries;
    if rowCells != [] {
      markdownLines := markdownLines + [RowLine(rowCells)];
    }
    text := Join(ShowAll(markdownLines), "\n");
  }

  // ---------------------------------------------------------------------------
  // Properties of the rendering.

  /** The cell texts of the row lines, line after line. */
  function RowCells(ls: seq<MdLine>): seq<string> {
    if ls == [] then [] else (if ls[0].RowLine? then ls[0].cells else []) + RowCells(ls[1..])
  }

  lemma {:induction false} RowCellsAppend(a: seq<MdLine>, b: seq<MdLine>)
    ensures RowCells(a + b) == RowCells(a) + RowCells(b)
  {
    if a == [] {
      assert a + b == b;
    } else {
      assert (a + b)[0] == a[0];
      assert (a + b)[1..] == a[1..] + b;
      RowCellsAppend(a[1..], b);
    }
  }

  function EntryText(e: Entry): string { e.text }

  /** The displayed texts of the cells, in id order. */
  function EntryTexts(es: seq<Entry>): seq<string> {
    MapSeq(es, EntryText)
  }

  /** The largest row number seen, and 0 when none is positive. */
  function MaxRowSeen(es: seq<Entry>): (r: int)
    ensures r >= 0
    ensures r > 0 <==> exists j :: 0 <= j < |es| && es[j].row > 0
  {
    if es == [] then 0
    else
      var m := MaxRowSeen(es[..|es| - 1]);
      assert forall j :: 0 <= j < |es| - 1 ==> es[..|es| - 1][j] == es[j];
      if es[|es| - 1].row > m then es[|es| - 1].row else m
  }

  /** The separator, if any, is the second line, under a row line, and has
      `max_col + 1` columns. */
  predicate SeparatorPlacement(ls: seq<MdLine>, maxCol: int) {
    forall i :: 0 <= i < |ls| && ls[i].Separator? ==> i == 1 && ls[0].RowLine? && ls[i].width == maxCol + 1
  }

  predicate HasSeparator(ls: seq<MdLine>) {
    |ls| >= 2 && ls[1].Separator?
  }

  /** What the scan keeps true after every cell. */
  lemma {:induction false} ScanShape(entries: seq<Entry>, maxRow: int, maxCol: int)
    ensures var st := Scan(entries, maxRow, maxCol);
      st.currentRow == MaxRowSeen(entries)
      && (st.currentRow == 0 ==> st.lines == [])
      && (entries != [] ==> st.rowCells != [])
      && SeparatorPlacement(st.lines, maxCol)
      && (HasSeparator(st.lines) <==> maxRow > 0 && entries != [] && entries[0].row <= 0 && st.currentRow > 0)
  {
    if entries != [] {
      var init := entries[..|entries| - 1];
      ScanShape(init, maxRow, maxCol);
      if init != [] {
        assert init[0] == entries[0];
      }
    }
  }

  /** Row by row, the scan has emitted every cell text so far, in order. */
  lemma {:induction false} ScanCells(entries: seq<Entry>, maxRow: int, maxCol: int)
    ensures var st := Scan(entries, maxRow, maxCol);
      RowCells(st.lines) + st.rowCells == EntryTexts(entries)
  {
    if entries != [] {
      var init := entries[..|entries| - 1];
      var e := entries[|entries| - 1];
      ScanCells(init, maxRow, maxCol);
      var st := Scan(init, maxRow, maxCol);
      if e.row > st.currentRow && st.rowCells != [] {
        var closed := [RowLine(st.rowCells)] + (if st.currentRow == 0 && maxRow > 0 then [Separator(maxCol + 1)] else []);
        RowCellsAppend(st.lines, closed);
        assert RowCells(closed) == st.rowCells by {
          var tail := if st.currentRow == 0 && maxRow > 0 then [Separator(maxCol + 1)] else [];
          assert closed[1..] == tail;
          assert tail != [] ==> tail[1..] == [];
          assert RowCells(tail) == [];
        }
      }
    }
  }

  /** Every cell text appears in exactly one row line, in cell-id order. */
  lemma RenderKeepsCells(entries: seq<Entry>, maxRow: int, maxCol: int)
    ensures RowCells(Render(entries, maxRow, maxCol)) == EntryTexts(entries)
  {
    var st := Scan(entries, maxRow, maxCol);
    ScanCells(entries, maxRow, maxCol);
    var last := if st.rowCells != [] then [RowLine(st.rowCells)] else [];
    RowCellsAppend(st.lines, last);
    assert RowCells(last) == st.rowCells;
  }

  /** The separator row appears exactly when the table has a row above 0 and the
      first cell opened row 0 (so row 0 was emitted first); it is then the second
      line and has `max_col + 1` columns. */
  lemma RenderSeparator(entries: seq<Entry>, maxRow: int, maxCol: int)
    ensures SeparatorPlacement(Render(entries, maxRow, maxCol), maxCol)
    ensures HasSeparator(Render(entries, maxRow, maxCol)) <==>
      maxRow > 0 && entries != [] && entries[0].row <= 0 && exists j :: 0 <= j < |entries| && entries[j].row > 0
  {
    ScanShape(entries, maxRow, maxCol);
  }

  // ---------------------------------------------------------------------------
  // Which cells share a line.

  /** The cells of each row line, line after line. */
  function RowLines(ls: seq<MdLine>): (r: seq<seq<string>>)
    ensures |r| <= |ls|
  {
    if ls == [] then [] else (if ls[0].RowLine? then [ls[0].cells] else []) + RowLines(ls[1..])
  }

  lemma {:induction false} RowLinesAppend(a: seq<MdLine>, b: seq<MdLine>)
    ensures RowLines(a + b) == RowLines(a) + RowLines(b)
  {
    if a == [] {
      assert a + b == b;
    } else {
      assert (a + b)[0] == a[0];
      assert (a + b)[1..] == a[1..] + b;
      RowLinesAppend(a[1..], b);
    }
  }

  /** Closing the open row adds one row line holding its cells (the separator that
      may follow is not a row line). */
  lemma ClosedRowLines(lines: seq<MdLine>, cells: seq<string>, sep: seq<MdLine>)
    requires forall k :: 0 <= k < |sep| ==> sep[k].Separator?
    requires |sep| <= 1
    ensures RowLines(lines + ([RowLine(cells)] + sep)) == RowLines(lines) + [cells]
  {
    RowLinesAppend(lines, [RowLine(cells)] + sep);
    assert ([RowLine(cells)] + sep)[1..] == sep;
    if sep != [] {
      assert sep[1..] == [];
    }
  }

  /** How the loop treats cell `i`: it closes the open row, which becomes a row line
      of its own, exactly when `i > 0` and the cell's row is above every row seen
      before it; in every other case, including a row below the open one, the
      cell joins the open row. */
  lemma OpenRowClosed(entries: seq<Entry>, maxRow: int, maxCol: int, i: nat)
    requires i < |entries|
    ensures
      var before := Scan(entries[..i], maxRow, maxCol);
      var after := Scan(entries[..i + 1], maxRow, maxCol);
      if i > 0 && entries[i].row > MaxRowSeen(entries[..i]) then
        RowLines(after.lines) == RowLines(before.lines) + [before.rowCells]
        && after.rowCells == [entries[i].text]
      else
        RowLines(after.lines) == RowLines(before.lines)
        && after.rowCells == before.rowCells + [entries[i].text]
  {
    var before := Scan(entries[..i], maxRow, maxCol);
    assert entries[..i + 1][..i] == entries[..i];
    ScanShape(entries[..i], maxRow, maxCol);
    var e := entries[i];
    if e.row > before.currentRow && before.rowCells != [] {
      var sep := if before.currentRow == 0 && maxRow > 0 then [Separator(maxCol + 1)] else [];
      ClosedRowLines(before.lines, before.rowCells, sep);
    }
  }

  /** Rows never decrease along the cells and none is negative: the case of a grid
      numbered row by row from row 0. */
  predicate RowMajor(entries: seq<Entry>) {
    (forall i :: 0 <= i < |entries| ==> entries[i].row >= 0)
    && (forall i, j :: 0 <= i < j < |entries| ==> entries[i].row <= entries[j].row)
  }

  /** The distinct rows of row-major cells, ascending. */
  function RowsOf(entries: seq<Entry>): (r: seq<int>)
    requires RowMajor(entries)
    ensures forall a, b :: 0 <= a < b < |r| ==> r[a] < r[b]
    ensures forall x :: x in r <==> exists j :: 0 <= j < |entries| && entries[j].row == x
    ensures entries != [] ==> r != [] && r[|r| - 1] == entries[|entries| - 1].row
  {
    if entries == [] then []
    else
      var n := |entries|;
      var init := entries[..n - 1];
      assert forall j :: 0 <= j < n - 1 ==> init[j] == entries[j];
      var p := RowsOf(init);
      if p != [] && p[|p| - 1] == entries[n - 1].row then p else p + [entries[n - 1].row]
  }

  /** The texts of the cells in row `row`, in id order. */
  function TextsInRow(entries: seq<Entry>, row: int): seq<string> {
    if entries == [] then []
    else
      var n := |entries|;
      TextsInRow(entries[..n - 1], row) + (if entries[n - 1].row == row then [entries[n - 1].text] else [])
  }

  /** One group of texts per distinct row, ascending. */
  function RowGroups(entries: seq<Entry>): (r: seq<seq<string>>)
    requires RowMajor(entries)
    ensures |r| == |RowsOf(entries)|
  {
    var rows := RowsOf(entries);
    seq(|rows|, k requires 0 <= k < |rows| => TextsInRow(entries, rows[k]))
  }

  lemma {:induction false} TextsInRowAbove(entries: seq<Entry>, row: int)
    requires forall j :: 0 <= j < |entries| ==> entries[j].row < row
    ensures TextsInRow(entries, row) == []
  {
    if entries != [] {
      TextsInRowAbove(entries[..|entries| - 1], row);
    }
  }

  lemma RowMajorInit(entries: seq<Entry>)
    requires RowMajor(entries) && entries != []
    ensures RowMajor(entries[..|entries| - 1])
  {
    var init := entries[..|entries| - 1];
    assert forall j :: 0 <= j < |init| ==> init[j] == entries[j];
  }

  /** The last row group is never empty. */
  lemma {:induction false} LastGroupNonEmpty(entries: seq<Entry>)
    requires RowMajor(entries) && entries != []
    ensures var g := RowGroups(entries); g != [] && g[|g| - 1] != []
  {
    var n := |entries|;
    var rows := RowsOf(entries);
    assert RowGroups(entries)[|rows| - 1] == TextsInRow(entries, entries[n - 1].row);
  }

  /** A cell in a row above every earlier one opens a group of its own. */
  lemma GroupsNewRow(entries: seq<Entry>)
    requires RowMajor(entries) && |entries| >= 2
    requires entries[|entries| - 1].row > entries[|entries| - 2].row
    ensures RowMajor(entries[..|entries| - 1])
    ensures RowGroups(entries) == RowGroups(entries[..|entries| - 1]) + [[entries[|entries| - 1].text]]
  {
    var n := |entries|;
    var e := entries[n - 1];
    var init := entries[..n - 1];
    RowMajorInit(entries);
    var p := RowsOf(init);
    var g := RowGroups(init);
    var rows := RowsOf(entries);
    assert rows == p + [e.row];
    TextsInRowAbove(init, e.row);
    assert TextsInRow(entries, e.row) == TextsInRow(init, e.row) + [e.text];
    var r := RowGroups(entries);
    forall k | 0 <= k < |r| ensures r[k] == (g + [[e.text]])[k] {
      if k < |p| {
        assert rows[k] == p[k] && p[k] != e.row;
      }
    }
  }

  /** A cell in the same row as the previous one joins the last group. */
  lemma GroupsSameRow(entries: seq<Entry>)
    requires RowMajor(entries) && |entries| >= 2
    requires entries[|entries| - 1].row == entries[|entries| - 2].row
    ensures RowMajor(entries[..|entries| - 1])
    ensures var g := RowGroups(entries[..|entries| - 1]);
      g != [] && RowGroups(entries) == g[..|g| - 1] + [g[|g| - 1] + [entries[|entries| - 1].text]]
  {
    var n := |entries|;
    var e := entries[n - 1];
    var init := entries[..n - 1];
    RowMajorInit(entries);
    var p := RowsOf(init);
    var g := RowGroups(init);
    var rows := RowsOf(entries);
    assert rows == p;
    var r := RowGroups(entries);
    forall k | 0 <= k < |r| ensures r[k] == (g[..|g| - 1] + [g[|g| - 1] + [e.text]])[k] {
      if k < |p| - 1 {
        assert p[k] < p[|p| - 1] == e.row;
      }
    }
  }

  /** One step of the scan, seen through its row lines and open row. */
  lemma StepGroups(st: RenderState, e: Entry, maxRow: int, maxCol: int, g: seq<seq<string>>)
    requires RowLines(st.lines) + [st.rowCells] == g && st.rowCells != []
    requires e.row >= st.currentRow
    ensures var next := Step(st, e, maxRow, maxCol);
      RowLines(next.lines) + [next.rowCells]
        == if e.row > st.currentRow then g + [[e.text]] else g[..|g| - 1] + [g[|g| - 1] + [e.text]]
  {
    if e.row > st.currentRow {
      var sep := if st.currentRow == 0 && maxRow > 0 then [Separator(maxCol + 1)] else [];
      ClosedRowLines(st.lines, st.rowCells, sep);
    } else {
      assert g[..|g| - 1] == RowLines(st.lines);
    }
  }

  /** What the scan keeps true on row-major cells: the row lines so far and the
      open row are the row groups. */
  lemma {:induction false} ScanRuns(entries: seq<Entry>, maxRow: int, maxCol: int)
    requires RowMajor(entries) && entries != []
    ensures var st := Scan(entries, maxRow, maxCol);
      RowLines(st.lines) + [st.rowCells] == RowGroups(entries)
      && st.currentRow == entries[|entries| - 1].row
  {
    var n := |entries|;
    var e := entries[n - 1];
    var init := entries[..n - 1];
    if n == 1 {
      assert init == [];
      assert RowsOf(entries) == [e.row];
      assert TextsInRow(entries, e.row) == [e.text];
    } else {
      RowMajorInit(entries);
      ScanRuns(init, maxRow, maxCol);
      LastGroupNonEmpty(init);
      var st := Scan(init, maxRow, maxCol);
      var g := RowGroups(init);
      assert init[n - 2] == entries[n - 2];
      assert st.rowCells == g[|g| - 1];
      StepGroups(st, e, maxRow, maxCol, g);
      if e.row > entries[n - 2].row {
        GroupsNewRow(entries);
      } else {
        GroupsSameRow(entries);
      }
    }
  }

  /** On row-major cells (as a generated grid numbers them) the table has one row
      line per distinct row, ascending, and line `k` holds exactly the texts of the
      cells of the `k`-th row, in id order. */
  lemma RenderRowsAreRows(entries: seq<Entry>, maxRow: int, maxCol: int)
    requires RowMajor(entries)
    ensures RowLines(Render(entries, maxRow, maxCol)) == RowGroups(entries)
    ensures |RowLines(Render(entries, maxRow, maxCol))| == |RowsOf(entries)|
    ensures forall k :: 0 <= k < |RowsOf(entries)| ==>
      RowLines(Render(entries, maxRow, maxCol))[k] == TextsInRow(entries, RowsOf(entries)[k])
  {
    if entries != [] {
      ScanRuns(entries, maxRow, maxCol);
      var st := Scan(entries, maxRow, maxCol);
      ScanShape(entries, maxRow, maxCol);
      RowLinesAppend(st.lines, [RowLine(st.rowCells)]);
      assert RowLines([RowLine(st.rowCells)]) == [st.rowCells];
    }
  }

  /** A cell whose row is below the open row is not given a line of its own: row 1
      read after row 2 joins row 2's line. */
  lemma LowerRowJoinsOpenRow(a: string, b: string, c: string)
    ensures RowLines(Render([Entry(0, a), Entry(2, b), Entry(1, c)], 2, 0)) == [[a], [b, c]]
  {
    var es := [Entry(0, a), Entry(2, b), Entry(1, c)];
    assert es[..2][..1] == [Entry(0, a)] && es[..2] == [Entry(0, a), Entry(2, b)];
    assert es[..1] == [Entry(0, a)] && [Entry(0, a)][..0] == [];
    var s1 := Scan([Entry(0, a)], 2, 0);
    var s0: RenderState := Scan([], 2, 0);
    assert s1 == Step(s0, Entry(0, a), 2, 0);
    assert s1 == RenderState([], [a], 0);
    var s2 := Scan(es[..2], 2, 0);
    assert s2 == Step(s1, Entry(2, b), 2, 0);
    assert s2 == RenderState([RowLine([a]), Separator(1)], [b], 2);
    var st := Scan(es, 2, 0);
    assert st == Step(s2, Entry(1, c), 2, 0);
    assert st == RenderState([RowLine([a]), Separator(1)], [b, c], 2);
    RowLinesAppend(st.lines, [RowLine([b, c])]);
    RowLinesAppend([RowLine([a])], [Separator(1)]);
  }
}
