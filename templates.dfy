/** The template artifact as the extractor reads it, and the page/box bookkeeping
    of `_extract_with_template`: legacy templates become page "1", document page p
    reads template page min(p, total), boxes run in `extraction_order`. */
module Templates {
  import opened Seqs
  import opened Chars
  import opened Geometry

  /** `box_type`; any value other than "table" and "paragraph" is handled as general. */
  datatype BoxKind = General | Paragraph | Table

  /** One cell of a table box's grid (`table_cells` entry). */
  datatype Cell = Cell(cellId: int, row: int, col: int, rect: Rect)

  /** A zone ("box").  An absent key is `None`; an absent list is the empty list,
      which is what the source's `.get(key, [])` reads in its place. */
  datatype Box = Box(
    boxLabel: Option<string>,
    coordinates: Option<seq<real>>,
    extractionOrder: Option<int>,
    kind: BoxKind,
    tableCells: seq<Cell>)

  /** `box.get('label', 'Unknown')`. */
  function LabelOf(b: Box): string {
    if b.boxLabel.Some? then b.boxLabel.value else "Unknown"
  }

  /** One entry of the `pages` dictionary. */
  datatype TemplatePage = TemplatePage(rawText: string, boxes: seq<Box>)

  /** A template record.  `pages` is `None` when the key is absent or is not a
      dictionary; `legacyBoxes` is the top-level `boxes` list of the single-page form;
      `includeUnboxed` is `true` when the key is absent. */
  datatype Template = Template(
    name: Option<string>,
    rawText: string,
    templateType: Option<string>,
    includeUnboxed: bool,
    totalPages: Option<int>,
    pages: Option<map<string, TemplatePage>>,
    legacyBoxes: seq<Box>)

  /** The canonical page-keyed form of a template and its page count. */
  datatype Unified = Unified(pages: map<string, TemplatePage>, total: nat)

  function UnifiedPages(t: Template): (u: Unified)
    ensures t.pages.None? ==>
      u.pages.Keys == {"1"} && u.total == 1 && u.pages["1"] == TemplatePage(t.rawText, t.legacyBoxes)
    ensures t.pages.Some? ==> u.pages == t.pages.value && u.total == |t.pages.value|
  {
    match t.pages
    case Some(m) => Unified(m, |m|)
    case None => Unified(map["1" := TemplatePage(t.rawText, t.legacyBoxes)], 1)
  }

  /** `str(min(page_num, total_template_pages))`. */
  function TemplatePageKey(pageNum: nat, total: nat): string {
    NatToString(if pageNum < total then pageNum else total)
  }

  /** `extraction_order`, 999 when absent, as a sort key. */
  function OrderKey(b: Box): (real, real) {
    ((if b.extractionOrder.Some? then b.extractionOrder.value else 999) as real, 0.0)
  }

  function ByOrder(): Box -> (real, real) { b => OrderKey(b) }

  /** The boxes of the template page that document page `pageNum` reads, in
      template order; `[]` when that page is missing. */
  function TemplateBoxes(u: Unified, pageNum: nat): seq<Box> {
    var key := TemplatePageKey(pageNum, u.total);
    if key in u.pages then u.pages[key].boxes else []
  }

  /** The boxes document page `pageNum` is extracted with, in processing order:
      the page's own boxes, no more and no fewer, sorted by extraction order. */
  function PageBoxes(u: Unified, pageNum: nat): (boxes: seq<Box>)
    ensures SortedBy(boxes, ByOrder())
    ensures multiset(boxes) == multiset(TemplateBoxes(u, pageNum))
  {
    SortBy(TemplateBoxes(u, pageNum), ByOrder())
  }

  /** Every document page reads the template page min(p, total): the pages up to
      the template's length read their own page, every later page reads the last. */
  lemma PageMapping(u: Unified, pageNum: nat)
    ensures pageNum <= u.total ==> TemplatePageKey(pageNum, u.total) == NatToString(pageNum)
    ensures pageNum >= u.total ==> PageBoxes(u, pageNum) == PageBoxes(u, u.total)
  {
  }

  /** Boxes are processed in ascending `extraction_order` (999 when absent). */
  lemma BoxesInExtractionOrder(u: Unified, pageNum: nat, i: nat, j: nat)
    requires i < j < |PageBoxes(u, pageNum)|
    ensures
      var bs := PageBoxes(u, pageNum);
      (if bs[i].extractionOrder.Some? then bs[i].extractionOrder.value else 999)
        <= (if bs[j].extractionOrder.Some? then bs[j].extractionOrder.value else 999)
  {
  }

  /** The sort is stable: the boxes of any one extraction order keep their
      template order. */
  lemma EqualOrderKeepsTemplateOrder(u: Unified, pageNum: nat, order: int)
    ensures FilterEq(PageBoxes(u, pageNum), ByOrder(), (order as real, 0.0))
      == FilterEq(TemplateBoxes(u, pageNum), ByOrder(), (order as real, 0.0))
  {
    SortByStable(TemplateBoxes(u, pageNum), ByOrder(), (order as real, 0.0));
  }
}
