/** Block composition in `_extract_with_template`: box content processed by the
    box's kind and post-processed, unboxed tokens grouped into blocks by vertical
    gaps, all blocks of a page stably sorted into reading order, and the report
    that `extract_bol_text` returns. */
module Composer {
  import opened Seqs
  import opened Chars
  import opened Geometry
  import opened Templates
  import opened Zones
  import Lines
  import TableText
  import PostProcess
  import opened TextNormalizer
  import opened Matching

  /** Gap between blocks of unboxed text. */
  const BlockGap: real := 20.0

  /** One entry of `content_blocks`: a box's block carries its label, an unboxed
      block carries none. */
  datatype Block = Block(content: string, yPos: real, xPos: real, boxLabel: Option<string>)

  // ---------------------------------------------------------------------------
  // Unboxed tokens.

  function ByYX(): Token -> (real, real) { (t: Token) => (t.y0, t.x0) }

  /** `b` starts a new block after `a`: its top lies more than 20 below `a`'s bottom. */
  predicate Gap(a: Token, b: Token) {
    b.y0 - a.y1 > BlockGap
  }

  /** The blocks the scan over the sorted tokens forms: a token opens a new block
      when it lies more than the gap below the token before it (the last one
      added to the current block), and joins the current block otherwise. */
  function Runs(s: seq<Token>): (r: seq<seq<Token>>)
    ensures s != [] <==> r != []
  {
    if s == [] then []
    else if |s| == 1 then [[s[0]]]
    else
      var n := |s|;
      var prev := Runs(s[..n - 1]);
      if Gap(s[n - 2], s[n - 1]) then prev + [[s[n - 1]]]
      else prev[..|prev| - 1] + [prev[|prev| - 1] + [s[n - 1]]]
  }

  /** The least of `f` over a non-empty list (Python's `min` over a generator). */
  function MinOf(run: seq<Token>, f: Token -> real): (m: real)
    requires run != []
    ensures forall i :: 0 <= i < |run| ==> m <= f(run[i])
    ensures exists i :: 0 <= i < |run| && f(run[i]) == m
  {
    if |run| == 1 then f(run[0])
    else
      var rest := MinOf(run[..|run| - 1], f);
      var last := f(run[|run| - 1]);
      assert forall i :: 0 <= i < |run| - 1 ==> run[..|run| - 1][i] == run[i];
      if last < rest then last else rest
  }

  function Y0(): Token -> real { (t: Token) => t.y0 }

  function X0(): Token -> real { (t: Token) => t.x0 }

  /** `_process_unboxed_block`: the general layout. */
  function LayoutText(ws: seq<Token>): string {
    Join(Lines.Spaced(Lines.LinesOf(ws), Lines.LayoutGap), "\n")
  }

  /** The block a run of unboxed tokens gives, anchored at its least `y0` and `x0`. */
  function UnboxedBlock(run: seq<Token>): Block {
    if run == [] then Block(LayoutText(run), 0.0, 0.0, None)
    else Block(LayoutText(run), MinOf(run, Y0()), MinOf(run, X0()), None)
  }

  /** A block is kept when its content is not whitespace only. */
  function Shown(): Block -> bool { (b: Block) => Strip(b.content) != [] }

  /** `_group_unboxed_into_blocks`. */
  function UnboxedBlocks(elements: seq<Token>): seq<Block> {
    Filter(MapSeq(Runs(SortBy(elements, ByYX())), UnboxedBlock), Shown())
  }

  /** The last block ends with the last token. */
  lemma {:induction false} RunsLast(s: seq<Token>)
    requires s != []
    ensures var r := Runs(s); r[|r| - 1] != [] && r[|r| - 1][|r[|r| - 1]| - 1] == s[|s| - 1]
  {
  }

  /** Grouping splits the sorted tokens without dropping, adding or reordering any. */
  lemma {:induction false} RunsFlatten(s: seq<Token>)
    ensures Flatten(Runs(s)) == s
  {
    if |s| > 1 {
      var n := |s|;
      var prev := Runs(s[..n - 1]);
      RunsFlatten(s[..n - 1]);
      InitLast(s);
      if Gap(s[n - 2], s[n - 1]) {
        FlattenAppend(prev, [[s[n - 1]]]);
        FlattenOne([s[n - 1]]);
      } else {
        var m := |prev|;
        InitLast(prev);
        FlattenAppend(prev[..m - 1], [prev[m - 1]]);
        FlattenAppend(prev[..m - 1], [prev[m - 1] + [s[n - 1]]]);
        FlattenOne(prev[m - 1]);
        FlattenOne(prev[m - 1] + [s[n - 1]]);
      }
    } else if |s| == 1 {
      FlattenOne(s);
    }
  }

  lemma FlattenOne<T>(x: seq<T>)
    ensures Flatten([x]) == x
  {
    assert [x][1..] == [];
  }

  /** Every block is non-empty; inside a block no token lies more than the gap
      below the one before it, and every block after the first starts more than
      the gap below the end of the block before it. */
  predicate RunsShape(r: seq<seq<Token>>) {
    (forall k :: 0 <= k < |r| ==> r[k] != []) &&
    (forall k, j :: 0 <= k < |r| && 0 <= j < |r[k]| - 1 ==> !Gap(r[k][j], r[k][j + 1])) &&
    (forall k :: 0 <= k < |r| - 1 && r[k] != [] && r[k + 1] != [] ==> Gap(r[k][|r[k]| - 1], r[k + 1][0]))
  }

  lemma {:induction false} RunsHaveShape(s: seq<Token>)
    ensures RunsShape(Runs(s))
  {
    if |s| > 1 {
      var n := |s|;
      var prev := Runs(s[..n - 1]);
      RunsHaveShape(s[..n - 1]);
      RunsLast(s[..n - 1]);
      assert s[..n - 1][n - 2] == s[n - 2];
      if Gap(s[n - 2], s[n - 1]) {
        ShapeOpen(prev, s[n - 1]);
      } else {
        ShapeJoin(prev, s[n - 1]);
      }
    }
  }

  lemma ShapeOpen(prev: seq<seq<Token>>, e: Token)
    requires prev != [] && RunsShape(prev)
    requires prev[|prev| - 1] != [] && Gap(prev[|prev| - 1][|prev[|prev| - 1]| - 1], e)
    ensures RunsShape(prev + [[e]])
  {
    var r := prev + [[e]];
    forall k | 0 <= k < |r| - 1 && r[k] != [] && r[k + 1] != []
      ensures Gap(r[k][|r[k]| - 1], r[k + 1][0])
    {
      assert r[k] == prev[k];
      if k + 1 < |prev| {
        assert r[k + 1] == prev[k + 1];
      }
    }
    forall k, j | 0 <= k < |r| && 0 <= j < |r[k]| - 1 ensures !Gap(r[k][j], r[k][j + 1]) {
      assert r[k] == prev[k];
    }
  }

  lemma ShapeJoin(prev: seq<seq<Token>>, e: Token)
    requires prev != [] && RunsShape(prev)
    requires prev[|prev| - 1] != [] && !Gap(prev[|prev| - 1][|prev[|prev| - 1]| - 1], e)
    ensures RunsShape(prev[..|prev| - 1] + [prev[|prev| - 1] + [e]])
  {
    var m := |prev|;
    var last := prev[m - 1] + [e];
    var r := prev[..m - 1] + [last];
    forall k, j | 0 <= k < |r| && 0 <= j < |r[k]| - 1 ensures !Gap(r[k][j], r[k][j + 1]) {
      if k < m - 1 {
        assert r[k] == prev[k];
      } else {
        assert r[k] == last;
        if j + 1 < |prev[m - 1]| {
          assert last[j] == prev[m - 1][j] && last[j + 1] == prev[m - 1][j + 1];
        }
      }
    }
    forall k | 0 <= k < |r| - 1 && r[k] != [] && r[k + 1] != []
      ensures Gap(r[k][|r[k]| - 1], r[k + 1][0])
    {
      assert r[k] == prev[k];
      if k + 1 < m - 1 {
        assert r[k + 1] == prev[k + 1];
      } else {
        assert r[k + 1] == last && last[0] == prev[m - 1][0];
      }
    }
  }

  /** The kept blocks after one more run. */
  lemma ShownSnoc(r: seq<seq<Token>>)
    requires r != []
    ensures var n := |r|; var b := UnboxedBlock(r[n - 1]);
      Filter(MapSeq(r, UnboxedBlock), Shown())
        == Filter(MapSeq(r[..n - 1], UnboxedBlock), Shown()) + (if Strip(b.content) != [] then [b] else [])
  {
    var n := |r|;
    assert MapSeq(r, UnboxedBlock) == MapSeq(r[..n - 1], UnboxedBlock) + [UnboxedBlock(r[n - 1])];
    FilterEqStep(MapSeq(r[..n - 1], UnboxedBlock), UnboxedBlock(r[n - 1]), Shown(), true);
  }

  lemma RunsFirst(s: seq<Token>)
    requires s != []
    ensures Runs(s[..1]) == [[s[0]]]
  {
  }

  lemma RunsOpen(s: seq<Token>, i: nat)
    requires 0 < i < |s| && Gap(s[i - 1], s[i])
    ensures Runs(s[..i + 1]) == Runs(s[..i]) + [[s[i]]]
  {
    assert s[..i + 1][..i] == s[..i];
  }

  lemma RunsJoin(s: seq<Token>, i: nat)
    requires 0 < i < |s| && !Gap(s[i - 1], s[i])
    ensures var r := Runs(s[..i]); Runs(s[..i + 1]) == r[..|r| - 1] + [r[|r| - 1] + [s[i]]]
  {
    assert s[..i + 1][..i] == s[..i];
  }

  /** The loop of `_group_unboxed_into_blocks` over the sorted tokens. */
  method GroupUnboxedIntoBlocks(elements: seq<Token>) returns (blocks: seq<Block>)
    ensures blocks == UnboxedBlocks(elements)
  {
    if elements == [] {
      return [];
    }
    var sorted := SortBy(elements, ByYX());
    blocks := [];
    var current: seq<Token> := [];
    ghost var runs: seq<seq<Token>> := [];
    for i := 0 to |sorted|
      invariant runs == Runs(sorted[..i])
      invariant i == 0 ==> current == [] && blocks == []
      invariant i > 0 ==> runs != [] && current == runs[|runs| - 1]
      invariant i > 0 ==> current != [] && current[|current| - 1] == sorted[i - 1]
      invariant i > 0 ==> blocks == Filter(MapSeq(runs[..|runs| - 1], UnboxedBlock), Shown())
    {
      var e := sorted[i];
      if current != [] && e.y0 - current[|current| - 1].y1 > BlockGap {
        var content := Lines.ExtractWithLayoutDetection(current);
        ShownSnoc(runs);
        if Strip(content) != [] {
          blocks := blocks + [Block(content, MinOf(current, Y0()), MinOf(current, X0()), None)];
        }
        RunsOpen(sorted, i);
        runs := runs + [[e]];
        current := [e];
      } else {
        if i == 0 {
          RunsFirst(sorted);
          runs := [[e]];
        } else {
          RunsJoin(sorted, i);
          runs := runs[..|runs| - 1] + [current + [e]];
        }
        current := current + [e];
      }
    }
    assert sorted[..|sorted|] == sorted;
    var content := Lines.ExtractWithLayoutDetection(current);
    ShownSnoc(runs);
    if Strip(content) != [] {
      blocks := blocks + [Block(content, MinOf(current, Y0()), MinOf(current, X0()), None)];
    }
  }

  /** Grouping sorts the tokens by `(y0, x0)` and cuts the sorted list into
      blocks, exactly at the gaps wider than 20. */
  lemma UnboxedGrouping(elements: seq<Token>)
    ensures var sorted := SortBy(elements, ByYX());
      SortedBy(sorted, ByYX()) && multiset(sorted) == multiset(elements) &&
      Flatten(Runs(sorted)) == sorted && RunsShape(Runs(sorted))
  {
    RunsFlatten(SortBy(elements, ByYX()));
    RunsHaveShape(SortBy(elements, ByYX()));
  }

  /** `b` is the block of one of the (non-empty) runs `r`. */
  predicate FromRun(r: seq<seq<Token>>, b: Block) {
    exists k :: 0 <= k < |r| && r[k] != [] && b == UnboxedBlock(r[k])
  }

  /** Every block kept is the block of one run, is unboxed and is not whitespace only. */
  lemma UnboxedBlockKept(elements: seq<Token>, b: Block)
    requires b in UnboxedBlocks(elements)
    ensures Strip(b.content) != [] && b.boxLabel == None
    ensures FromRun(Runs(SortBy(elements, ByYX())), b)
  {
    var r := Runs(SortBy(elements, ByYX()));
    FilterEqMembers(MapSeq(r, UnboxedBlock), Shown(), true, b);
    InMapSeq(r, UnboxedBlock, b);
    var k :| 0 <= k < |r| && b == UnboxedBlock(r[k]);
    RunsHaveShape(SortBy(elements, ByYX()));
    assert r[k] != [];
  }

  // ---------------------------------------------------------------------------
  // Box content.

  /** `_process_box_elements`: the text of a box's tokens, by the box's kind. */
  function BoxText(elements: seq<Token>, box: Box): string {
    if elements == [] then ""
    else match box.kind
      case Table => TableText.TableText(elements, box.tableCells)
      case Paragraph => Join(Lines.Spaced(Lines.LinesOf(elements), Lines.ParagraphGap), "\n")
      case General => LayoutText(elements)
  }

  method ProcessBoxElements(elements: seq<Token>, box: Box) returns (text: string)
    ensures text == BoxText(elements, box)
  {
    if elements == [] {
      return "";
    }
    match box.kind
    case Table => text := TableText.ExtractTableText(elements, box.tableCells);
    case Paragraph => text := Lines.ExtractParagraphFromWords(elements);
    case General => text := Lines.ExtractWithLayoutDetection(elements);
  }

  /** A table box without cells reads like a general box, and a box without
      tokens reads as the empty text whatever its kind. */
  lemma BoxTextFallbacks(elements: seq<Token>, box: Box)
    ensures box.kind == Table && box.tableCells == [] ==>
      BoxText(elements, box) == BoxText(elements, box.(kind := General))
    ensures elements == [] ==> BoxText(elements, box) == []
  {
  }

  /** The top of the box (`coordinates[1]`), 0 when absent or too short. */
  function YPos(box: Box): real {
    if box.coordinates.Some? && |box.coordinates.value| >= 2 then box.coordinates.value[1] else 0.0
  }

  /** The left of the box (`coordinates[0]`), 0 when absent or empty. */
  function XPos(box: Box): real {
    if box.coordinates.Some? && |box.coordinates.value| >= 1 then box.coordinates.value[0] else 0.0
  }

  /** A box's label has tokens in the assignment. */
  predicate Filled(box: Box, a: map<string, seq<Token>>) {
    LabelOf(box) in a && a[LabelOf(box)] != []
  }

  /** The block a filled box contributes: its post-processed text at its top-left corner. */
  function BoxBlock(box: Box, a: map<string, seq<Token>>): Block
    requires Filled(box, a)
  {
    var l := LabelOf(box);
    Block(PostProcess.PostProcessText(BoxText(a[l], box)), YPos(box), XPos(box), Some(l))
  }

  /** The box blocks of a page, built box by box in processing order. */
  function BoxBlocks(boxes: seq<Box>, a: map<string, seq<Token>>): seq<Block> {
    if boxes == [] then []
    else
      var last := boxes[|boxes| - 1];
      BoxBlocks(boxes[..|boxes| - 1], a) + (if Filled(last, a) then [BoxBlock(last, a)] else [])
  }

  /** The filled boxes, in order. */
  function FilledBoxes(boxes: seq<Box>, a: map<string, seq<Token>>): (r: seq<Box>)
    ensures forall i :: 0 <= i < |r| ==> Filled(r[i], a)
  {
    if boxes == [] then []
    else
      var last := boxes[|boxes| - 1];
      FilledBoxes(boxes[..|boxes| - 1], a) + (if Filled(last, a) then [last] else [])
  }

  /** Exactly one block per box whose label received tokens, in box order:
      block `i` is the block of the `i`-th such box. */
  lemma {:induction false} BoxBlocksPerFilledBox(boxes: seq<Box>, a: map<string, seq<Token>>)
    ensures |BoxBlocks(boxes, a)| == |FilledBoxes(boxes, a)|
    ensures forall i :: 0 <= i < |BoxBlocks(boxes, a)| ==>
      BoxBlocks(boxes, a)[i] == BoxBlock(FilledBoxes(boxes, a)[i], a)
  {
    if boxes != [] {
      BoxBlocksPerFilledBox(boxes[..|boxes| - 1], a);
    }
  }

  // ---------------------------------------------------------------------------
  // The blocks of one page.

  function ByPos(): Block -> (real, real) { (b: Block) => (b.yPos, b.xPos) }

  /** The unboxed blocks of a page, when the template includes them. */
  function UnboxedPart(a: map<string, seq<Token>>, withUnboxed: bool): seq<Block> {
    if withUnboxed && UnboxedKey in a then UnboxedBlocks(a[UnboxedKey]) else []
  }

  /** `content_blocks` of one page after the sort: box blocks then unboxed
      blocks, stably sorted by `(y_pos, x_pos)`. */
  function PageBlocks(tokens: seq<Token>, boxes: seq<Box>, withUnboxed: bool): (r: seq<Block>)
    ensures SortedBy(r, ByPos())
  {
    var a := Assignments(tokens, boxes);
    SortBy(BoxBlocks(boxes, a) + UnboxedPart(a, withUnboxed), ByPos())
  }

  /** The loop over the sorted boxes that adds one block per filled box. */
  method CollectBoxBlocks(boxes: seq<Box>, a: map<string, seq<Token>>) returns (blocks: seq<Block>)
    ensures blocks == BoxBlocks(boxes, a)
  {
    blocks := [];
    for i := 0 to |boxes|
      invariant blocks == BoxBlocks(boxes[..i], a)
    {
      BoxBlocksStep(boxes, a, i);
      var box := boxes[i];
      var l := LabelOf(box);
      if l in a && a[l] != [] {
        var text := ProcessBoxElements(a[l], box);
        text := PostProcess.PostProcessText(text);
        blocks := blocks + [Block(text, YPos(box), XPos(box), Some(l))];
      }
    }
    assert boxes[..|boxes|] == boxes;
  }

  lemma BoxBlocksStep(boxes: seq<Box>, a: map<string, seq<Token>>, i: nat)
    requires i < |boxes|
    ensures BoxBlocks(boxes[..i + 1], a)
      == BoxBlocks(boxes[..i], a) + (if Filled(boxes[i], a) then [BoxBlock(boxes[i], a)] else [])
  {
    assert boxes[..i + 1][..i] == boxes[..i];
  }

  /** Steps 2 to 4 of a page: assignment, box blocks, unboxed blocks, sort. */
  method ComposePage(tokens: seq<Token>, boxes: seq<Box>, withUnboxed: bool) returns (blocks: seq<Block>)
    ensures blocks == PageBlocks(tokens, boxes, withUnboxed)
  {
    var a := AssignTextToBoxes(tokens, boxes);
    blocks := CollectBoxBlocks(boxes, a);
    if withUnboxed && UnboxedKey in a {
      var elements := a[UnboxedKey];
      if elements != [] {
        var unboxed := GroupUnboxedIntoBlocks(elements);
        blocks := blocks + unboxed;
      } else {
        assert UnboxedBlocks(elements) == [];
        assert blocks + [] == blocks;
      }
    } else {
      assert blocks + [] == blocks;
    }
    blocks := SortBy(blocks, ByPos());
  }

  /** Sorting only reorders: the page holds exactly the box blocks and the
      included unboxed blocks, and on equal `(y_pos, x_pos)` every box block
      stays ahead of every unboxed block, each group in its own order. */
  lemma PageBlocksStable(tokens: seq<Token>, boxes: seq<Box>, withUnboxed: bool, k: (real, real))
    ensures var a := Assignments(tokens, boxes);
      multiset(PageBlocks(tokens, boxes, withUnboxed)) == multiset(BoxBlocks(boxes, a) + UnboxedPart(a, withUnboxed)) &&
      FilterEq(PageBlocks(tokens, boxes, withUnboxed), ByPos(), k)
        == FilterEq(BoxBlocks(boxes, a), ByPos(), k) + FilterEq(UnboxedPart(a, withUnboxed), ByPos(), k)
  {
    var a := Assignments(tokens, boxes);
    SortByStable(BoxBlocks(boxes, a) + UnboxedPart(a, withUnboxed), ByPos(), k);
    FilterEqAppend(BoxBlocks(boxes, a), UnboxedPart(a, withUnboxed), ByPos(), k);
  }

  /** Unboxed blocks carry no label and box blocks do. */
  lemma {:induction false} BoxBlocksLabelled(boxes: seq<Box>, a: map<string, seq<Token>>, b: Block)
    requires b in BoxBlocks(boxes, a)
    ensures b.boxLabel.Some?
  {
    var n := |boxes|;
    if b !in BoxBlocks(boxes[..n - 1], a) {
    } else {
      BoxBlocksLabelled(boxes[..n - 1], a, b);
    }
  }

  /** A template that excludes unboxed content yields only box blocks, and one
      that includes it yields every non-blank block of the unboxed tokens. */
  lemma UnboxedOnlyWhenIncluded(tokens: seq<Token>, boxes: seq<Box>, withUnboxed: bool, b: Block)
    requires b in PageBlocks(tokens, boxes, withUnboxed)
    ensures b.boxLabel.None? ==> withUnboxed && Strip(b.content) != []
    ensures !withUnboxed ==> b.boxLabel.Some?
  {
    var a := Assignments(tokens, boxes);
    PageBlocksStable(tokens, boxes, withUnboxed, (0.0, 0.0));
    assert b in multiset(BoxBlocks(boxes, a) + UnboxedPart(a, withUnboxed));
    if b in BoxBlocks(boxes, a) {
      BoxBlocksLabelled(boxes, a, b);
    } else {
      assert b in UnboxedPart(a, withUnboxed);
      UnboxedBlockKept(a[UnboxedKey], b);
    }
  }

  // ---------------------------------------------------------------------------
  // The report.

  /** `f"\n---\n**Page {page_num}**\n---\n"`. */
  function PageSeparator(p: nat): string {
    "\n---\n**Page " + NatToString(p) + "**\n---\n"
  }

  /** The parts one page adds: its separator, then each block's content followed
      by an empty part. */
  function PageSection(p: nat, blocks: seq<Block>): (r: seq<string>)
    ensures |r| == 1 + 2 * |blocks|
    ensures r[0] == PageSeparator(p)
    ensures forall i :: 0 <= i < |blocks| ==> r[2 * i + 1] == blocks[i].content && r[2 * i + 2] == ""
  {
    if blocks == [] then [PageSeparator(p)]
    else
      var n := |blocks|;
      var prev := PageSection(p, blocks[..n - 1]);
      assert forall i :: 0 <= i < n - 1 ==> blocks[..n - 1][i] == blocks[i];
      prev + [blocks[n - 1].content, ""]
  }

  /** `template_data.get('template_name', 'Unknown')`. */
  function NameOf(t: Template): string {
    if t.name.Some? then t.name.value else "Unknown"
  }

  /** The four header parts. */
  function Header(t: Template, docPages: nat): seq<string> {
    ["## BOL Extraction Results",
     "**Template Used:** " + NameOf(t),
     "**Document Pages:** " + NatToString(docPages),
     "**Template Pages:** " + NatToString(UnifiedPages(t).total) + "\n"]
  }

  /** The blocks of document page `p` (1-based): its tokens laid over the boxes
      of template page min(p, total). */
  function BlocksOfPage(t: Template, doc: seq<seq<Token>>, p: nat): seq<Block>
    requires 1 <= p <= |doc|
  {
    PageBlocks(doc[p - 1], PageBoxes(UnifiedPages(t), p), t.includeUnboxed)
  }

  /** The sections of the first `n` document pages. */
  function Sections(t: Template, doc: seq<seq<Token>>, n: nat): seq<string>
    requires n <= |doc|
  {
    if n == 0 then [] else Sections(t, doc, n - 1) + PageSection(n, BlocksOfPage(t, doc, n))
  }

  /** The text `_extract_with_template` returns for a document given as one token
      list per page: the header, then one section per page. */
  function Report(t: Template, doc: seq<seq<Token>>): string {
    Join(Header(t, |doc|) + Sections(t, doc, |doc|), "\n")
  }

  lemma SectionGrow(before: seq<string>, p: nat, blocks: seq<Block>, j: nat)
    requires j < |blocks|
    ensures before + PageSection(p, blocks[..j]) + [blocks[j].content] + [""]
      == before + PageSection(p, blocks[..j + 1])
  {
    assert blocks[..j + 1][..j] == blocks[..j];
  }

  lemma SectionsStep(header: seq<string>, t: Template, doc: seq<seq<Token>>, p: nat, blocks: seq<Block>)
    requires 1 <= p <= |doc| && blocks == BlocksOfPage(t, doc, p)
    ensures header + Sections(t, doc, p) == header + Sections(t, doc, p - 1) + PageSection(p, blocks)
  {
    AppendAssoc(header, Sections(t, doc, p - 1), PageSection(p, blocks));
  }

  /** Step 5 of a page: its separator, then each block's content and a blank part. */
  method AppendPage(parts: seq<string>, p: nat, blocks: seq<Block>) returns (out: seq<string>)
    ensures out == parts + PageSection(p, blocks)
  {
    out := parts + [PageSeparator(p)];
    for j := 0 to |blocks|
      invariant out == parts + PageSection(p, blocks[..j])
    {
      SectionGrow(parts, p, blocks, j);
      out := out + [blocks[j].content];
      out := out + [""];
    }
    assert blocks[..|blocks|] == blocks;
  }

  /** `_extract_with_template`: the page loop appending to `output_parts`. */
  method ExtractWithTemplate(t: Template, doc: seq<seq<Token>>) returns (text: string)
    ensures text == Report(t, doc)
  {
    var u := UnifiedPages(t);
    var parts := Header(t, |doc|);
    ghost var header := parts;
    for p := 1 to |doc| + 1
      invariant parts == header + Sections(t, doc, p - 1)
    {
      var blocks := ComposePage(doc[p - 1], PageBoxes(u, p), t.includeUnboxed);
      SectionsStep(header, t, doc, p, blocks);
      parts := AppendPage(parts, p, blocks);
    }
    text := Join(parts, "\n");
  }

  /** The report opens with its title line, a newline and the line naming the template. */
  lemma ReportOpens(t: Template, doc: seq<seq<Token>>)
    ensures var h := Header(t, |doc|); var o := h[0] + "\n" + h[1];
      |o| <= |Report(t, doc)| && Report(t, doc)[..|o|] == o
  {
    JoinOpens(Header(t, |doc|), Sections(t, doc, |doc|), "\n");
  }

  // ---------------------------------------------------------------------------
  // extract_bol_text.

  const ErrorPrefix: string := "ERROR:"

  /** The refusal message; `show` renders the confidence with two decimals. */
  function Refusal(best: Option<Match>, show: real -> string): string {
    ErrorPrefix + " No suitable template found (best match: "
      + (if best.Some? then best.value.templateName else "None")
      + " with confidence " + show(if best.Some? then best.value.confidence else 0.0) + ")"
  }

  predicate IsError(s: string) {
    |ErrorPrefix| <= |s| && s[..|ErrorPrefix|] == ErrorPrefix
  }

  /** What `extract_bol_text` does with the best match: the report of its
      template when it clears the threshold, the refusal otherwise. */
  function Outcome(best: Option<Match>, threshold: real, doc: seq<seq<Token>>, show: real -> string): string {
    match Accepted(best, threshold)
    case None => Refusal(best, show)
    case Some(m) => Report(m.template, doc)
  }

  /** The text `extract_bol_text` returns for a document whose page texts are
      `pageTexts` and whose pages hold the tokens `doc`. */
  function BolText(pageTexts: seq<string>, templates: seq<(string, Template)>, ratio: (string, string) -> real,
                   threshold: real, doc: seq<seq<Token>>, show: real -> string): string
    requires IsRatio(ratio)
  {
    Outcome(Chosen(templates, Scores(CombinedText(pageTexts), templates, ratio), |templates|), threshold, doc, show)
  }

  method ExtractBolText(pageTexts: seq<string>, templates: seq<(string, Template)>, ratio: (string, string) -> real,
                        threshold: real, doc: seq<seq<Token>>, show: real -> string) returns (text: string)
    requires IsRatio(ratio)
    ensures text == BolText(pageTexts, templates, ratio, threshold, doc, show)
  {
    var best := FindBestTemplate(pageTexts, templates, ratio);
    if best.None? || best.value.confidence < threshold {
      return Refusal(best, show);
    }
    text := ExtractWithTemplate(best.value.template, doc);
  }

  /** The result is an `ERROR:` text exactly when there is no match or the match
      falls below the threshold. */
  lemma RefusedIffError(best: Option<Match>, threshold: real, doc: seq<seq<Token>>, show: real -> string)
    ensures IsError(Outcome(best, threshold, doc, show)) <==> best.None? || best.value.confidence < threshold
  {
    match Accepted(best, threshold)
    case None => RefusalIsError(best, show);
    case Some(m) => ReportIsNoError(m.template, doc);
  }

  lemma RefusalIsError(best: Option<Match>, show: real -> string)
    ensures IsError(Refusal(best, show))
  {
    var r := Refusal(best, show);
    assert r[..|ErrorPrefix|] == ErrorPrefix;
  }

  lemma ReportIsNoError(t: Template, doc: seq<seq<Token>>)
    ensures !IsError(Report(t, doc))
  {
    ReportOpens(t, doc);
    assert Header(t, |doc|)[0][0] == '#' != ErrorPrefix[0];
    assert Report(t, doc)[0] == '#';
  }
}

