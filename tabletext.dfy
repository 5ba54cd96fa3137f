/** `_extract_table_text_from_elements` end to end: without cells the table is laid
    out as plain text; otherwise each cell's tokens are grouped into lines and the
    cells are rendered as a Markdown table in `cell_id` order. */
module TableText {
  import opened Seqs
  import opened Chars
  import opened Geometry
  import opened Templates
  import Lines
  import opened TableCells
  import opened TableMarkdown

  /** `row` and `col` of a cell id, from the last cell (in id order) with that id. */
  datatype CellInfo = CellInfo(row: int, col: int)

  /** The initial `cell_text_map`: later cells with the same id overwrite earlier ones. */
  function InfoMap(ordered: seq<Cell>): (m: map<int, CellInfo>)
    ensures m.Keys == IdSet(ordered)
  {
    if ordered == [] then map[]
    else
      var init := ordered[..|ordered| - 1];
      var c := ordered[|ordered| - 1];
      assert ordered == init + [c];
      InfoMap(init)[c.cellId := CellInfo(c.row, c.col)]
  }

  /** The loop that initialises `cell_text_map`. */
  method InitCells(ordered: seq<Cell>) returns (info: map<int, CellInfo>)
    ensures info == InfoMap(ordered)
  {
    info := map[];
    for i := 0 to |ordered|
      invariant info == InfoMap(ordered[..i])
    {
      assert ordered[..i + 1][..i] == ordered[..i];
      info := info[ordered[i].cellId := CellInfo(ordered[i].row, ordered[i].col)];
    }
    assert ordered[..|ordered|] == ordered;
  }

  function MaxRow(cells: seq<Cell>): (r: int)
    requires cells != []
    ensures forall i :: 0 <= i < |cells| ==> cells[i].row <= r
    ensures exists i :: 0 <= i < |cells| && cells[i].row == r
  {
    if |cells| == 1 then cells[0].row
    else
      var m := MaxRow(cells[1..]);
      assert forall i :: 1 <= i < |cells| ==> cells[i] == cells[1..][i - 1];
      if cells[0].row > m then cells[0].row else m
  }

  function MaxCol(cells: seq<Cell>): (r: int)
    requires cells != []
    ensures forall i :: 0 <= i < |cells| ==> cells[i].col <= r
    ensures exists i :: 0 <= i < |cells| && cells[i].col == r
  {
    if |cells| == 1 then cells[0].col
    else
      var m := MaxCol(cells[1..]);
      assert forall i :: 1 <= i < |cells| ==> cells[i] == cells[1..][i - 1];
      if cells[0].col > m then cells[0].col else m
  }

  function CellIds(cells: seq<Cell>): (r: seq<int>)
    ensures |r| == |cells|
    ensures forall i :: 0 <= i < |cells| ==> r[i] == cells[i].cellId
  {
    if cells == [] then [] else [cells[0].cellId] + CellIds(cells[1..])
  }

  predicate NonDecreasing(s: seq<int>) {
    forall i, j :: 0 <= i < j < |s| ==> s[i] <= s[j]
  }

  predicate StrictlyIncreasing(s: seq<int>) {
    forall i, j :: 0 <= i < j < |s| ==> s[i] < s[j]
  }

  /** The distinct values of a non-decreasing list, in order. */
  function Dedup(s: seq<int>): (r: seq<int>)
    requires NonDecreasing(s)
    ensures StrictlyIncreasing(r)
    ensures forall x :: x in r <==> x in s
    ensures s != [] ==> r != [] && r[0] == s[0]
  {
    if |s| <= 1 then s
    else if s[0] == s[1] then Dedup(s[1..])
    else
      var r := [s[0]] + Dedup(s[1..]);
      assert forall x :: x in s[1..] ==> s[0] < x;
      r
  }

  /** `sorted(cell_text_map.keys(), key=int)`. */
  function SortedIds(ordered: seq<Cell>): (r: seq<int>)
    requires SortedBy(ordered, ById())
    ensures StrictlyIncreasing(r)
    ensures forall id :: id in r <==> id in IdSet(ordered)
  {
    var ids := CellIds(ordered);
    assert NonDecreasing(ids) by {
      forall i, j | 0 <= i < j < |ids| ensures ids[i] <= ids[j] {
        assert KeyLe(ById()(ordered[i]), ById()(ordered[j]));
      }
    }
    forall id | id in IdSet(ordered) ensures id in ids {
      var c :| c in ordered && c.cellId == id;
      var i :| 0 <= i < |ordered| && ordered[i] == c;
      assert ids[i] == id;
    }
    Dedup(ids)
  }

  /** A cell's text: its tokens grouped into lines, one text line per line. */
  function CellText(elements: seq<Token>): string {
    Join(Lines.Texts(Lines.LinesOf(elements)), "\n")
  }

  /** The texts of the cells `ids`, in their order: each cell's tokens grouped into lines. */
  function CellTexts(elements: seq<Token>, ordered: seq<Cell>, ids: seq<int>): (r: seq<string>)
    ensures |r| == |ids|
  {
    if ids == [] then []
    else CellTexts(elements, ordered, ids[..|ids| - 1]) + [CellText(CellElements(elements, ordered, ids[|ids| - 1]))]
  }

  /** The rendering entries: each cell's row and displayed text. */
  function Displayed(info: map<int, CellInfo>, ids: seq<int>, texts: seq<string>): (r: seq<Entry>)
    requires |texts| == |ids| && forall i :: 0 <= i < |ids| ==> ids[i] in info
    ensures |r| == |ids|
  {
    seq(|ids|, k requires 0 <= k < |ids| => Entry(info[ids[k]].row, CellDisplay(texts[k])))
  }

  /** The rendering entries for the ids `ids`, in their order. */
  function EntriesFor(elements: seq<Token>, ordered: seq<Cell>, info: map<int, CellInfo>, ids: seq<int>): (r: seq<Entry>)
    requires forall i :: 0 <= i < |ids| ==> ids[i] in info
  {
    Displayed(info, ids, CellTexts(elements, ordered, ids))
  }

  /** The text `_extract_table_text_from_elements` returns for a box's tokens. */
  function TableText(elements: seq<Token>, cells: seq<Cell>): string {
    if cells == [] then Join(Lines.Spaced(Lines.LinesOf(elements), Lines.LayoutGap), "\n")
    else
      var ordered := Ordered(cells);
      var info := InfoMap(ordered);
      var entries := EntriesFor(elements, ordered, info, SortedIds(ordered));
      Join(ShowAll(Render(entries, MaxRow(cells), MaxCol(cells))), "\n")
  }

  /** A cell's text from its token list (`"\n".join(line['text'] ...)`). */
  method CellTextOf(elements: seq<Token>) returns (text: string)
    ensures text == CellText(elements)
  {
    text := "";
    if elements != [] {
      var lines := Lines.GroupWordsIntoLines(elements);
      text := Join(Lines.Texts(lines), "\n");
    }
  }

  /** The loop over `cell_text_map` that turns each cell's element list into its
      text, visiting the ids in ascending order. */
  method CellTextsOf(elements: seq<Token>, ordered: seq<Cell>, placed: map<int, seq<Token>>, ids: seq<int>)
    returns (texts: seq<string>)
    requires forall i :: 0 <= i < |ids| ==> ids[i] in placed
    requires forall i :: 0 <= i < |ids| ==> placed[ids[i]] == CellElements(elements, ordered, ids[i])
    ensures texts == CellTexts(elements, ordered, ids)
  {
    texts := [];
    for i := 0 to |ids|
      invariant texts == CellTexts(elements, ordered, ids[..i])
    {
      var cellText := CellTextOf(placed[ids[i]]);
      assert ids[..i + 1][..i] == ids[..i];
      texts := texts + [cellText];
    }
    assert ids[..|ids|] == ids;
  }

  /** `_extract_table_text_from_elements`. */
  method ExtractTableText(elements: seq<Token>, cells: seq<Cell>) returns (text: string)
    ensures text == TableText(elements, cells)
  {
    if cells == [] {
      text := Lines.ExtractWithLayoutDetection(elements);
      return;
    }
    var ordered := Ordered(cells);
    var maxRow := MaxRow(cells);
    var maxCol := MaxCol(cells);
    var info := InitCells(ordered);
    var placed := AssignToCells(elements, ordered);
    var ids := SortedIds(ordered);
    var texts := CellTextsOf(elements, ordered, placed, ids);
    var entries := Displayed(info, ids, texts);
    text := RenderMarkdown(entries, maxRow, maxCol);
  }
}
