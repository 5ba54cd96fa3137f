/** The parts of the template creator that produce what the extractor reads: the
    de-duplication of detected horizontal lines, the table-cell grid of a table
    box, the screen/document coordinate conversions, the box count and the
    page-keyed map a template is saved with. */
module Creator {
  import opened Seqs
  import opened Chars
  import opened Geometry
  import opened Templates
  import Lines

  // ---------------------------------------------------------------------------
  // dedup_lines: a horizontal line `[x0, y0, x1, y1]` is a `Rect`.

  /** Lines whose `y0` differ by at most this are duplicates. */
  const DedupTolerance: real := 5.0

  function ByTop(): Rect -> (real, real) { (l: Rect) => (l.y0, 0.0) }

  /** The lines the loop keeps from `sorted`: a line is kept when nothing is kept
      yet or its `y0` differs from the last kept line's by more than 5. */
  function Dedup(sorted: seq<Rect>): (r: seq<Rect>)
    ensures |r| <= |sorted|
    ensures sorted != [] ==> r != []
  {
    if sorted == [] then []
    else
      var d := Dedup(sorted[..|sorted| - 1]);
      var l := sorted[|sorted| - 1];
      if d == [] || Lines.Abs(l.y0 - d[|d| - 1].y0) > DedupTolerance then d + [l] else d
  }

  /** `dedup_lines`. */
  method DedupLines(lines: seq<Rect>) returns (deduped: seq<Rect>)
    ensures deduped == Dedup(SortBy(lines, ByTop()))
  {
    var sorted := SortBy(lines, ByTop());
    deduped := [];
    for i := 0 to |sorted|
      invariant deduped == Dedup(sorted[..i])
    {
      DedupStep(sorted, i);
      var l := sorted[i];
      if deduped == [] || Lines.Abs(l.y0 - deduped[|deduped| - 1].y0) > DedupTolerance {
        deduped := deduped + [l];
      }
    }
    assert sorted[..|sorted|] == sorted;
  }

  lemma DedupStep(s: seq<Rect>, i: nat)
    requires i < |s|
    ensures var d := Dedup(s[..i]);
      Dedup(s[..i + 1]) == if d == [] || Lines.Abs(s[i].y0 - d[|d| - 1].y0) > DedupTolerance then d + [s[i]] else d
  {
    assert s[..i + 1][..i] == s[..i];
  }

  /** The first line is always kept. */
  lemma {:induction false} DedupKeepsFirst(s: seq<Rect>)
    requires s != []
    ensures Dedup(s)[0] == s[0]
  {
    if |s| > 1 {
      DedupKeepsFirst(s[..|s| - 1]);
    }
  }

  /** `b` lies more than 5 away from `a`. */
  predicate FarApart(a: Rect, b: Rect) {
    Lines.Abs(b.y0 - a.y0) > DedupTolerance
  }

  predicate SpacedOut(r: seq<Rect>) {
    forall k :: 0 <= k < |r| - 1 ==> FarApart(r[k], r[k + 1])
  }

  /** Consecutive kept lines lie more than 5 apart. */
  lemma {:induction false} DedupSpaced(s: seq<Rect>)
    ensures SpacedOut(Dedup(s))
  {
    if s != [] {
      var d := Dedup(s[..|s| - 1]);
      var r := Dedup(s);
      DedupSpaced(s[..|s| - 1]);
      if r != d {
        var l := s[|s| - 1];
        assert r == d + [l];
        assert d == [] || FarApart(d[|d| - 1], l);
        forall k | 0 <= k < |r| - 1 ensures FarApart(r[k], r[k + 1]) {
          assert r[k] == d[k];
          if k + 1 < |d| {
            assert r[k + 1] == d[k + 1];
          } else {
            assert r[k + 1] == l && r[k] == d[|d| - 1];
          }
        }
      }
    }
  }

  /** `idx` picks `a` out of `b` in order. */
  predicate Embeds(a: seq<Rect>, b: seq<Rect>, idx: seq<int>) {
    |idx| == |a| &&
    (forall k :: 0 <= k < |idx| ==> 0 <= idx[k] < |b| && a[k] == b[idx[k]]) &&
    (forall k, m :: 0 <= k < m < |idx| ==> idx[k] < idx[m])
  }

  ghost predicate IsSubsequence(a: seq<Rect>, b: seq<Rect>) {
    exists idx :: Embeds(a, b, idx)
  }

  lemma EmbedsSkip(a: seq<Rect>, b: seq<Rect>, idx: seq<int>, x: Rect)
    requires Embeds(a, b, idx)
    ensures Embeds(a, b + [x], idx)
  {
  }

  lemma EmbedsTake(a: seq<Rect>, b: seq<Rect>, idx: seq<int>, x: Rect)
    requires Embeds(a, b, idx)
    ensures Embeds(a + [x], b + [x], idx + [|b|])
  {
  }

  /** The kept lines are a subsequence of the sorted input. */
  lemma {:induction false} DedupSubsequence(s: seq<Rect>)
    ensures IsSubsequence(Dedup(s), s)
  {
    if s == [] {
      assert Embeds([], s, []);
    } else {
      var n := |s|;
      DedupSubsequence(s[..n - 1]);
      var d := Dedup(s[..n - 1]);
      var idx :| Embeds(d, s[..n - 1], idx);
      InitLast(s);
      if Dedup(s) == d {
        EmbedsSkip(d, s[..n - 1], idx, s[n - 1]);
        assert Embeds(Dedup(s), s, idx);
      } else {
        EmbedsTake(d, s[..n - 1], idx, s[n - 1]);
        assert Embeds(Dedup(s), s, idx + [n - 1]);
      }
    }
  }

  /** On the lines sorted by `y0`, each kept line lies more than 5 below the
      kept line before it. */
  lemma DedupAscending(lines: seq<Rect>)
    ensures var r := Dedup(SortBy(lines, ByTop()));
      forall k :: 0 <= k < |r| - 1 ==> r[k + 1].y0 > r[k].y0 + DedupTolerance
  {
    var s := SortBy(lines, ByTop());
    var r := Dedup(s);
    DedupSubsequence(s);
    DedupSpaced(s);
    var idx :| Embeds(r, s, idx);
    forall k | 0 <= k < |r| - 1 ensures r[k + 1].y0 > r[k].y0 + DedupTolerance {
      assert FarApart(r[k], r[k + 1]);
      assert idx[k] < idx[k + 1];
      assert KeyLe(ByTop()(s[idx[k]]), ByTop()(s[idx[k + 1]]));
    }
  }

  /** `l` lies within 5 of some line of `r`. */
  predicate Covered(l: Rect, r: seq<Rect>) {
    exists k :: 0 <= k < |r| && Lines.Abs(l.y0 - r[k].y0) <= DedupTolerance
  }

  /** No line is lost: every input line lies within 5 of a kept line. */
  lemma {:induction false} DedupCovers(s: seq<Rect>, i: nat)
    requires i < |s|
    ensures Covered(s[i], Dedup(s))
  {
    var n := |s|;
    var d := Dedup(s[..n - 1]);
    var r := Dedup(s);
    if i == n - 1 {
      if r == d {
        assert Lines.Abs(s[i].y0 - d[|d| - 1].y0) <= DedupTolerance;
        assert r[|d| - 1] == d[|d| - 1];
      } else {
        assert r[|r| - 1] == s[i];
      }
    } else {
      DedupCovers(s[..n - 1], i);
      var k :| 0 <= k < |d| && Lines.Abs(s[..n - 1][i].y0 - d[k].y0) <= DedupTolerance;
      assert r[k] == d[k];
    }
  }

  // ---------------------------------------------------------------------------
  // screen_to_pdf_coords / _pdf_to_screen_coords: the display shows the page at
  // twice its size times `scale`.

  function Min(a: real, b: real): real { if a <= b then a else b }

  function Max(a: real, b: real): real { if a <= b then b else a }

  predicate Normalised(r: Rect) {
    r.x0 <= r.x1 && r.y0 <= r.y1
  }

  /** `screen_to_pdf_coords`: the dragged rectangle, corners put in order, in
      document units. */
  function ScreenToPdf(x1: real, y1: real, x2: real, y2: real, scale: real): (r: Rect)
    requires scale != 0.0
    ensures scale > 0.0 ==> Normalised(r)
  {
    Rect(Min(x1, x2) / scale / 2.0, Min(y1, y2) / scale / 2.0,
         Max(x1, x2) / scale / 2.0, Max(y1, y2) / scale / 2.0)
  }

  /** `_pdf_to_screen_coords`. */
  function PdfToScreen(c: Rect, scale: real): (r: Rect)
    ensures scale > 0.0 && Normalised(c) ==> Normalised(r)
  {
    Rect(c.x0 * scale * 2.0, c.y0 * scale * 2.0, c.x1 * scale * 2.0, c.y1 * scale * 2.0)
  }

  lemma ScaleBack(v: real, scale: real)
    requires scale > 0.0
    ensures v / scale / 2.0 * scale * 2.0 == v
    ensures v * scale * 2.0 / scale / 2.0 == v
  {
  }

  /** Converting a drawn rectangle and back gives the rectangle with its corners
      in order; on a rectangle already in order it is the identity. */
  lemma ScreenRoundTrip(x1: real, y1: real, x2: real, y2: real, scale: real)
    requires scale > 0.0
    ensures PdfToScreen(ScreenToPdf(x1, y1, x2, y2, scale), scale) == Rect(Min(x1, x2), Min(y1, y2), Max(x1, x2), Max(y1, y2))
    ensures x1 <= x2 && y1 <= y2 ==> PdfToScreen(ScreenToPdf(x1, y1, x2, y2, scale), scale) == Rect(x1, y1, x2, y2)
  {
    ScaleBack(Min(x1, x2), scale);
    ScaleBack(Min(y1, y2), scale);
    ScaleBack(Max(x1, x2), scale);
    ScaleBack(Max(y1, y2), scale);
  }

  /** A stored rectangle in order survives the trip to the screen and back. */
  lemma PdfRoundTrip(c: Rect, scale: real)
    requires scale > 0.0 && Normalised(c)
    ensures var s := PdfToScreen(c, scale); ScreenToPdf(s.x0, s.y0, s.x1, s.y1, scale) == c
  {
    ScaleBack(c.x0, scale);
    ScaleBack(c.y0, scale);
    ScaleBack(c.x1, scale);
    ScaleBack(c.y1, scale);
    assert c.x0 * scale * 2.0 <= c.x1 * scale * 2.0;
    assert c.y0 * scale * 2.0 <= c.y1 * scale * 2.0;
  }

  // ---------------------------------------------------------------------------
  // _generate_table_cells.

  /** A vertical line belongs to a row band when it reaches within 5 of both of
      the band's edges. */
  const BandTolerance: real := 5.0

  function HMid(l: Rect): real { (l.y0 + l.y1) / 2.0 }

  function VMid(l: Rect): real { (l.x0 + l.x1) / 2.0 }

  /** `sorted(h_line_positions)`: the distinct midpoints of the horizontal lines,
      ascending (the set is kept as its ascending list). */
  function HPositions(hl: seq<Rect>): (r: seq<real>)
    ensures Increasing(r)
  {
    if hl == [] then [] else AddSorted(HMid(hl[|hl| - 1]), HPositions(hl[..|hl| - 1]))
  }

  predicate HasMid(hl: seq<Rect>, y: real) {
    exists k :: 0 <= k < |hl| && HMid(hl[k]) == y
  }

  /** The row boundaries are exactly the horizontal lines' midpoints. */
  lemma {:induction false} HPositionsMembers(hl: seq<Rect>, y: real)
    ensures y in HPositions(hl) <==> HasMid(hl, y)
  {
    if hl != [] {
      var n := |hl|;
      HPositionsMembers(hl[..n - 1], y);
      if HasMid(hl[..n - 1], y) {
        var k :| 0 <= k < n - 1 && HMid(hl[..n - 1][k]) == y;
        assert HMid(hl[k]) == y;
      }
      if HasMid(hl, y) && HMid(hl[n - 1]) != y {
        var k :| 0 <= k < n && HMid(hl[k]) == y;
        assert hl[..n - 1][k] == hl[k];
      }
    }
  }

  predicate Spans(v: Rect, top: real, bottom: real) {
    Min(v.y0, v.y1) <= top + BandTolerance && Max(v.y0, v.y1) >= bottom - BandTolerance
  }

  /** `vertical_segments`: the ascending x-positions recorded per band `(top, bottom)`. */
  type Bands = map<(real, real), seq<real>>

  /** `vertical_segments.get(band, set())`. */
  function Get(m: Bands, band: (real, real)): seq<real> {
    if band in m then m[band] else []
  }

  predicate SortedValues(m: Bands) {
    forall band :: band in m ==> Increasing(m[band])
  }

  /** The inner loop for one vertical line over the first `n` bands. */
  function AddLine(m: Bands, h: seq<real>, v: Rect, n: nat): (r: Bands)
    requires n < |h| && SortedValues(m)
    ensures SortedValues(r)
  {
    if n == 0 then m
    else
      var m1 := AddLine(m, h, v, n - 1);
      var band := (h[n - 1], h[n]);
      if Spans(v, h[n - 1], h[n]) then m1[band := AddSorted(VMid(v), Get(m1, band))] else m1
  }

  /** `vertical_segments` after the loop over the vertical lines. */
  function Segments(vl: seq<Rect>, h: seq<real>): (r: Bands)
    requires |h| >= 2
    ensures SortedValues(r)
  {
    if vl == [] then map[] else AddLine(Segments(vl[..|vl| - 1], h), h, vl[|vl| - 1], |h| - 1)
  }

  /** One vertical line changes only the bands it spans, each by adding its midpoint. */
  lemma {:induction false} AddLineBand(m: Bands, h: seq<real>, v: Rect, n: nat, i: nat)
    requires Increasing(h) && n < |h| && i < |h| - 1 && SortedValues(m)
    ensures var band := (h[i], h[i + 1]);
      Get(AddLine(m, h, v, n), band)
        == if i < n && Spans(v, h[i], h[i + 1]) then AddSorted(VMid(v), Get(m, band)) else Get(m, band)
  {
    if n > 0 {
      AddLineBand(m, h, v, n - 1, i);
      if i != n - 1 {
        assert h[i] != h[n - 1];
      }
    }
  }

  predicate InBand(vl: seq<Rect>, top: real, bottom: real, x: real) {
    exists k :: 0 <= k < |vl| && VMid(vl[k]) == x && Spans(vl[k], top, bottom)
  }

  lemma InBandSnoc(vl: seq<Rect>, top: real, bottom: real, x: real)
    requires vl != []
    ensures InBand(vl, top, bottom, x)
      <==> InBand(vl[..|vl| - 1], top, bottom, x) || (VMid(vl[|vl| - 1]) == x && Spans(vl[|vl| - 1], top, bottom))
  {
    var n := |vl|;
    if InBand(vl[..n - 1], top, bottom, x) {
      var k :| 0 <= k < n - 1 && VMid(vl[..n - 1][k]) == x && Spans(vl[..n - 1][k], top, bottom);
      assert vl[..n - 1][k] == vl[k];
    }
    if InBand(vl, top, bottom, x) && !(VMid(vl[n - 1]) == x && Spans(vl[n - 1], top, bottom)) {
      var k :| 0 <= k < n && VMid(vl[k]) == x && Spans(vl[k], top, bottom);
      assert vl[..n - 1][k] == vl[k];
    }
  }

  /** The band rule: a position is recorded for a row band exactly when some
      vertical line with that midpoint spans the band. */
  lemma {:induction false} SegmentsBand(vl: seq<Rect>, h: seq<real>, i: nat, x: real)
    requires Increasing(h) && |h| >= 2 && i < |h| - 1
    ensures x in Get(Segments(vl, h), (h[i], h[i + 1])) <==> InBand(vl, h[i], h[i + 1], x)
  {
    if vl != [] {
      var n := |vl|;
      var prev := Segments(vl[..n - 1], h);
      SegmentsBand(vl[..n - 1], h, i, x);
      AddLineBand(prev, h, vl[n - 1], |h| - 1, i);
      InBandSnoc(vl, h[i], h[i + 1], x);
    }
  }

  /** The cells of row `i` between `top` and `bottom`, numbered from `start`. */
  function RowCells(i: nat, top: real, bottom: real, v: seq<real>, box: Rect, start: nat): (r: seq<Cell>)
    ensures |r| == if |v| < 2 then 1 else |v| - 1
  {
    if |v| < 2 then [Cell(start, i, 0, Rect(box.x0, top, box.x1, bottom))]
    else seq(|v| - 1, j requires 0 <= j < |v| - 1 => Cell(start + j, i, j, Rect(v[j], top, v[j + 1], bottom)))
  }

  /** The cells of the first `n` row bands, row-major, with running ids. */
  function Grid(h: seq<real>, segs: Bands, box: Rect, n: nat): seq<Cell>
    requires n < |h|
  {
    if n == 0 then []
    else
      var prev := Grid(h, segs, box, n - 1);
      prev + RowCells(n - 1, h[n - 1], h[n], Get(segs, (h[n - 1], h[n])), box, |prev|)
  }

  /** `_generate_table_cells` for the box `box` and the detected lines. */
  function TableCells(hl: seq<Rect>, vl: seq<Rect>, box: Rect): seq<Cell> {
    var h := HPositions(hl);
    if |h| < 2 then [] else Grid(h, Segments(vl, h), box, |h| - 1)
  }

  /** The last column of row `i`. */
  function LastCol(h: seq<real>, segs: Bands, i: nat): int
    requires i < |h| - 1
  {
    var v := Get(segs, (h[i], h[i + 1]));
    if |v| < 2 then 0 else |v| - 2
  }

  /** Cell `c` is the `k`-th cell: it spans its row band, and either the whole
      box width (fewer than two verticals) or the gap between two consecutive
      verticals of its band. */
  predicate CellFits(c: Cell, k: nat, h: seq<real>, segs: Bands, box: Rect) {
    c.cellId == k && 0 <= c.row < |h| - 1 &&
    c.rect.y0 == h[c.row] && c.rect.y1 == h[c.row + 1] &&
    var v := Get(segs, (h[c.row], h[c.row + 1]));
    (|v| < 2 ==> c.col == 0 && c.rect.x0 == box.x0 && c.rect.x1 == box.x1) &&
    (|v| >= 2 ==> 0 <= c.col < |v| - 1 && c.rect.x0 == v[c.col] && c.rect.x1 == v[c.col + 1])
  }

  /** `b` comes right after `a` in row-major order. */
  predicate Next(a: Cell, b: Cell, h: seq<real>, segs: Bands)
    requires 0 <= a.row < |h| - 1
  {
    (b.row == a.row && b.col == a.col + 1) ||
    (b.row == a.row + 1 && b.col == 0 && a.col == LastCol(h, segs, a.row))
  }

  predicate CellsFit(g: seq<Cell>, start: nat, h: seq<real>, segs: Bands, box: Rect, n: nat) {
    forall k :: 0 <= k < |g| ==> CellFits(g[k], start + k, h, segs, box) && g[k].row < n
  }

  predicate InOrder(g: seq<Cell>, h: seq<real>, segs: Bands) {
    forall k :: 0 <= k < |g| - 1 ==> 0 <= g[k].row < |h| - 1 && Next(g[k], g[k + 1], h, segs)
  }

  predicate GridShape(g: seq<Cell>, h: seq<real>, segs: Bands, box: Rect, n: nat)
    requires n < |h|
  {
    CellsFit(g, 0, h, segs, box, n) && InOrder(g, h, segs) && (n == 0 <==> g == []) &&
    (n > 0 ==>
      g[0].row == 0 && g[0].col == 0 && g[|g| - 1].row == n - 1 && g[|g| - 1].col == LastCol(h, segs, n - 1))
  }

  /** Row `i` alone: its cells fit, run left to right and end on the row's last column. */
  lemma RowShape(r: seq<Cell>, i: nat, h: seq<real>, segs: Bands, box: Rect, start: nat)
    requires i < |h| - 1 && r == RowCells(i, h[i], h[i + 1], Get(segs, (h[i], h[i + 1])), box, start)
    ensures r != [] && r[0].row == i && r[0].col == 0 && r[|r| - 1].row == i
    ensures r[|r| - 1].col == LastCol(h, segs, i)
    ensures CellsFit(r, start, h, segs, box, i + 1) && InOrder(r, h, segs)
  {
  }

  lemma CellsFitAppend(g: seq<Cell>, r: seq<Cell>, h: seq<real>, segs: Bands, box: Rect, n: nat)
    requires n > 0 && CellsFit(g, 0, h, segs, box, n - 1) && CellsFit(r, |g|, h, segs, box, n)
    ensures CellsFit(g + r, 0, h, segs, box, n)
  {
    forall k | 0 <= k < |g + r| ensures CellFits((g + r)[k], k, h, segs, box) && (g + r)[k].row < n {
      if k < |g| {
        assert (g + r)[k] == g[k];
      } else {
        assert (g + r)[k] == r[k - |g|];
      }
    }
  }

  lemma InOrderAppend(g: seq<Cell>, r: seq<Cell>, h: seq<real>, segs: Bands)
    requires InOrder(g, h, segs) && InOrder(r, h, segs) && g != [] && r != []
    requires 0 <= g[|g| - 1].row < |h| - 1 && Next(g[|g| - 1], r[0], h, segs)
    ensures InOrder(g + r, h, segs)
  {
    forall k | 0 <= k < |g + r| - 1
      ensures 0 <= (g + r)[k].row < |h| - 1 && Next((g + r)[k], (g + r)[k + 1], h, segs)
    {
      if k + 1 < |g| {
        assert (g + r)[k] == g[k] && (g + r)[k + 1] == g[k + 1];
      } else if k + 1 == |g| {
        assert (g + r)[k] == g[k] && (g + r)[k + 1] == r[0];
      } else {
        assert (g + r)[k] == r[k - |g|] && (g + r)[k + 1] == r[k - |g| + 1];
      }
    }
  }

  lemma {:induction false} GridIsRowMajor(h: seq<real>, segs: Bands, box: Rect, n: nat)
    requires n < |h|
    ensures GridShape(Grid(h, segs, box, n), h, segs, box, n)
  {
    if n > 0 {
      var prev := Grid(h, segs, box, n - 1);
      var row := RowCells(n - 1, h[n - 1], h[n], Get(segs, (h[n - 1], h[n])), box, |prev|);
      GridIsRowMajor(h, segs, box, n - 1);
      RowShape(row, n - 1, h, segs, box, |prev|);
      CellsFitAppend(prev, row, h, segs, box, n);
      if prev != [] {
        InOrderAppend(prev, row, h, segs);
      }
      assert Grid(h, segs, box, n) == prev + row;
    }
  }

  /** The grid of a table box: no cell without two distinct row boundaries;
      otherwise the cells run row-major through every band with ids 0, 1, 2, ...,
      each spanning its band, and columns strictly increase from left to right. */
  lemma TableCellsGrid(hl: seq<Rect>, vl: seq<Rect>, box: Rect)
    ensures var h := HPositions(hl); var cells := TableCells(hl, vl, box);
      (cells == [] <==> |h| < 2) &&
      (|h| >= 2 ==> GridShape(cells, h, Segments(vl, h), box, |h| - 1))
  {
    var h := HPositions(hl);
    if |h| >= 2 {
      GridIsRowMajor(h, Segments(vl, h), box, |h| - 1);
    }
  }

  /** Every cell has positive height, and a cell between verticals positive width. */
  lemma CellsNonDegenerate(hl: seq<Rect>, vl: seq<Rect>, box: Rect, k: nat)
    requires k < |TableCells(hl, vl, box)|
    ensures var h := HPositions(hl); var c := TableCells(hl, vl, box)[k];
      c.rect.y0 < c.rect.y1 &&
      (|Get(Segments(vl, h), (c.rect.y0, c.rect.y1))| >= 2 ==> c.rect.x0 < c.rect.x1)
  {
    var h := HPositions(hl);
    TableCellsGrid(hl, vl, box);
    var segs := Segments(vl, h);
    var c := TableCells(hl, vl, box)[k];
    assert CellFits(c, 0 + k, h, segs, box);
    var v := Get(segs, (h[c.row], h[c.row + 1]));
    if |v| >= 2 {
      assert Increasing(v);
    }
  }

  // ---------------------------------------------------------------------------
  // get_total_box_count and the pages map of save_template.  `pages_data` is a
  // dictionary from page number to page; it is kept as its list of entries.

  type PagesData = seq<(int, TemplatePage)>

  /** The sum of the box-list lengths over all pages. */
  function TotalBoxes(pd: PagesData): nat {
    if pd == [] then 0 else TotalBoxes(pd[..|pd| - 1]) + |pd[|pd| - 1].1.boxes|
  }

  predicate NoBoxes(pd: PagesData) {
    forall k :: 0 <= k < |pd| ==> pd[k].1.boxes == []
  }

  /** The count is zero exactly when no page has a box (the "no_boxes" template). */
  lemma {:induction false} TotalBoxesZero(pd: PagesData)
    ensures TotalBoxes(pd) == 0 <==> NoBoxes(pd)
  {
    if pd != [] {
      var n := |pd|;
      TotalBoxesZero(pd[..n - 1]);
      if NoBoxes(pd) {
        var q := pd[..n - 1];
        forall k | 0 <= k < |q| ensures q[k].1.boxes == [] {
          assert q[k] == pd[k];
        }
      }
      if TotalBoxes(pd) == 0 {
        forall k | 0 <= k < n ensures pd[k].1.boxes == [] {
          if k < n - 1 {
            assert pd[..n - 1][k] == pd[k];
          }
        }
      }
    }
  }

  lemma {:induction false} TotalBoxesAppend(a: PagesData, b: PagesData)
    ensures TotalBoxes(a + b) == TotalBoxes(a) + TotalBoxes(b)
  {
    if b != [] {
      var n := |b|;
      TotalBoxesAppend(a, b[..n - 1]);
      assert (a + b)[..|a + b| - 1] == a + b[..n - 1];
    } else {
      assert a + b == a;
    }
  }

  /** The count does not depend on the order the dictionary is iterated in. */
  lemma {:induction false} TotalBoxesPermutation(a: PagesData, b: PagesData)
    requires multiset(a) == multiset(b)
    ensures TotalBoxes(a) == TotalBoxes(b)
  {
    if a != [] {
      var n := |a|;
      var x := a[n - 1];
      assert a == a[..n - 1] + [x];
      assert x in multiset(b);
      var j :| 0 <= j < |b| && b[j] == x;
      var rest := b[..j] + b[j + 1..];
      assert b == b[..j] + [x] + b[j + 1..];
      RemoveMatching(a, b, j);
      TotalBoxesPermutation(a[..n - 1], rest);
      TotalBoxesAppend(b[..j] + [x], b[j + 1..]);
      TotalBoxesAppend(b[..j], [x]);
      TotalBoxesAppend(b[..j], b[j + 1..]);
      TotalBoxesAppend(a[..n - 1], [x]);
    }
  }

  /** `pages_data.get(page_num)`: the first entry for the page, if any. */
  function Lookup(pd: PagesData, pageNum: int): (r: Option<TemplatePage>)
    ensures r.Some? <==> exists k :: 0 <= k < |pd| && pd[k].0 == pageNum
  {
    if pd == [] then None
    else if pd[0].0 == pageNum then Some(pd[0].1)
    else
      var r := Lookup(pd[1..], pageNum);
      assert forall k :: 1 <= k < |pd| ==> pd[k] == pd[1..][k - 1];
      r
  }

  /** The page saved for `pageNum`; a page missing from `pages_data` is saved
      with empty text and no boxes. */
  function PageOf(pd: PagesData, pageNum: int): TemplatePage {
    match Lookup(pd, pageNum)
    case Some(page) => page
    case None => TemplatePage("", [])
  }

  /** `template_data["pages"]` after the loop over pages 1..n. */
  function SavedPages(pd: PagesData, n: nat): map<string, TemplatePage> {
    if n == 0 then map[] else SavedPages(pd, n - 1)[NatToString(n) := PageOf(pd, n)]
  }

  predicate IsPageKey(key: string, n: nat) {
    exists p :: 1 <= p <= n && key == NatToString(p)
  }

  lemma {:induction false} SavedPagesAt(pd: PagesData, n: nat, p: nat)
    requires 1 <= p <= n
    ensures NatToString(p) in SavedPages(pd, n) && SavedPages(pd, n)[NatToString(p)] == PageOf(pd, p)
  {
    if p < n {
      SavedPagesAt(pd, n - 1, p);
      if NatToString(p) == NatToString(n) {
        NatToStringInjective(p, n);
      }
    }
  }

  lemma {:induction false} SavedPagesOnly(pd: PagesData, n: nat, key: string)
    requires key in SavedPages(pd, n)
    ensures IsPageKey(key, n)
  {
    if key == NatToString(n) {
      assert 1 <= n <= n && key == NatToString(n);
    } else {
      SavedPagesOnly(pd, n - 1, key);
      var p :| 1 <= p <= n - 1 && key == NatToString(p);
      assert 1 <= p <= n && key == NatToString(p);
    }
  }

  lemma {:induction false} SavedPagesSize(pd: PagesData, n: nat)
    ensures |SavedPages(pd, n)| == n
  {
    if n > 0 {
      SavedPagesSize(pd, n - 1);
      if NatToString(n) in SavedPages(pd, n - 1) {
        SavedPagesOnly(pd, n - 1, NatToString(n));
        var p :| 1 <= p <= n - 1 && NatToString(n) == NatToString(p);
        NatToStringInjective(n, p);
      }
    }
  }

  /** The saved map has exactly the keys "1".."n", page `p` under `str(p)`. */
  lemma SavedPagesKeys(pd: PagesData, n: nat)
    ensures var m := SavedPages(pd, n);
      |m| == n &&
      (forall key :: key in m ==> IsPageKey(key, n)) &&
      (forall p :: 1 <= p <= n ==> NatToString(p) in m && m[NatToString(p)] == PageOf(pd, p))
  {
    SavedPagesSize(pd, n);
    forall key | key in SavedPages(pd, n) ensures IsPageKey(key, n) {
      SavedPagesOnly(pd, n, key);
    }
    forall p | 1 <= p <= n ensures NatToString(p) in SavedPages(pd, n) && SavedPages(pd, n)[NatToString(p)] == PageOf(pd, p) {
      SavedPagesAt(pd, n, p);
    }
  }

  /** The template record `save_template` writes (before serialisation). */
  function SavedTemplate(name: string, rawText: string, withUnboxed: bool, pd: PagesData, total: nat): Template {
    Template(Some(name), rawText, Some(if TotalBoxes(pd) == 0 then "no_boxes" else "boxed"),
      withUnboxed, Some(total), Some(SavedPages(pd, total)), [])
  }

  /** What the extractor reads back from a saved template: the page count is
      `total_pages`, and document page `p` is extracted with the boxes drawn on
      page min(p, total), in extraction order. */
  lemma SavedTemplateRead(name: string, rawText: string, withUnboxed: bool, pd: PagesData, total: nat, p: nat)
    requires 1 <= p
    ensures var u := UnifiedPages(SavedTemplate(name, rawText, withUnboxed, pd, total));
      u.total == total &&
      (p <= total ==> PageBoxes(u, p) == SortBy(PageOf(pd, p).boxes, ByOrder())) &&
      (p > total > 0 ==> PageBoxes(u, p) == SortBy(PageOf(pd, total).boxes, ByOrder()))
  {
    SavedPagesKeys(pd, total);
  }

  // ---------------------------------------------------------------------------
  // The creator's state and its methods.

  /** The parts of the creator's state the modelled methods read: the detected
      line segments, the per-page data, the page count, the document text and the
      include-unboxed option. */
  class TemplateCreator {
    var horizontalLines: seq<Rect>
    var verticalLines: seq<Rect>
    var pagesData: PagesData
    var totalPages: nat
    var rawText: string
    var includeUnboxed: bool

    constructor(hl: seq<Rect>, vl: seq<Rect>, pd: PagesData, total: nat, text: string, withUnboxed: bool)
      ensures horizontalLines == hl && verticalLines == vl && pagesData == pd
      ensures totalPages == total && rawText == text && includeUnboxed == withUnboxed
    {
      horizontalLines := hl;
      verticalLines := vl;
      pagesData := pd;
      totalPages := total;
      rawText := text;
      includeUnboxed := withUnboxed;
    }

    /** The loop over the horizontal lines: their midpoints, ascending and distinct. */
    method CollectRowBoundaries() returns (h: seq<real>)
      ensures h == HPositions(horizontalLines)
    {
      h := [];
      for i := 0 to |horizontalLines|
        invariant h == HPositions(horizontalLines[..i])
      {
        h := AddSorted(HMid(horizontalLines[i]), h);
        assert horizontalLines[..i + 1][..i] == horizontalLines[..i];
      }
      assert horizontalLines[..|horizontalLines|] == horizontalLines;
    }

    /** The loop over the vertical lines filling `vertical_segments`. */
    method CollectSegments(h: seq<real>) returns (segs: Bands)
      requires |h| >= 2
      ensures segs == Segments(verticalLines, h)
    {
      segs := map[];
      for i := 0 to |verticalLines|
        invariant segs == Segments(verticalLines[..i], h)
      {
        segs := AddToBands(segs, h, verticalLines[i]);
        assert verticalLines[..i + 1][..i] == verticalLines[..i];
      }
      assert verticalLines[..|verticalLines|] == verticalLines;
    }

    /** `_generate_table_cells(box)`. */
    method GenerateTableCells(box: Rect) returns (cells: seq<Cell>)
      ensures cells == TableCells(horizontalLines, verticalLines, box)
    {
      var h := CollectRowBoundaries();
      if |h| < 2 {
        return [];
      }
      var segs := CollectSegments(h);
      cells := EmitCells(h, segs, box);
    }

    /** `get_total_box_count`. */
    method GetTotalBoxCount() returns (total: nat)
      ensures total == TotalBoxes(pagesData)
    {
      total := 0;
      for i := 0 to |pagesData|
        invariant total == TotalBoxes(pagesData[..i])
      {
        total := total + |pagesData[i].1.boxes|;
        assert pagesData[..i + 1][..i] == pagesData[..i];
      }
      assert pagesData[..|pagesData|] == pagesData;
    }

    /** The record `save_template` builds: nothing without document text or a
        template name. */
    method SaveTemplate(name: string) returns (t: Option<Template>)
      ensures rawText == [] || name == [] ==> t == None
      ensures rawText != [] && name != [] ==>
        t == Some(SavedTemplate(name, rawText, includeUnboxed, pagesData, totalPages))
    {
      if rawText == [] || name == [] {
        return None;
      }
      var totalBoxes := GetTotalBoxCount();
      var pages: map<string, TemplatePage> := map[];
      for p := 1 to totalPages + 1
        invariant pages == SavedPages(pagesData, p - 1)
      {
        pages := pages[NatToString(p) := PageOf(pagesData, p)];
      }
      t := Some(Template(Some(name), rawText, Some(if totalBoxes == 0 then "no_boxes" else "boxed"),
        includeUnboxed, Some(totalPages), Some(pages), []));
    }
  }

  /** The inner loop for one vertical line: every band it spans gets its midpoint. */
  method AddToBands(m: Bands, h: seq<real>, v: Rect) returns (r: Bands)
    requires |h| >= 2 && SortedValues(m)
    ensures r == AddLine(m, h, v, |h| - 1)
  {
    r := m;
    var x := VMid(v);
    for i := 0 to |h| - 1
      invariant r == AddLine(m, h, v, i)
    {
      if Spans(v, h[i], h[i + 1]) {
        var band := (h[i], h[i + 1]);
        r := r[band := AddSorted(x, Get(r, band))];
      }
    }
  }

  /** The row-major loop over the bands, with the running `cell_id`. */
  method EmitCells(h: seq<real>, segs: Bands, box: Rect) returns (cells: seq<Cell>)
    requires |h| >= 1
    ensures cells == Grid(h, segs, box, |h| - 1)
  {
    cells := [];
    for i := 0 to |h| - 1
      invariant cells == Grid(h, segs, box, i)
    {
      cells := EmitRow(cells, i, h[i], h[i + 1], Get(segs, (h[i], h[i + 1])), box);
    }
  }

  /** One row band: a single full-width cell, or one cell per pair of
      consecutive verticals; ids continue from the cells emitted so far. */
  method EmitRow(cells: seq<Cell>, i: nat, top: real, bottom: real, v: seq<real>, box: Rect)
    returns (out: seq<Cell>)
    ensures out == cells + RowCells(i, top, bottom, v, box, |cells|)
  {
    var cellId := |cells|;
    if |v| < 2 {
      out := cells + [Cell(cellId, i, 0, Rect(box.x0, top, box.x1, bottom))];
      return;
    }
    out := cells;
    for j := 0 to |v| - 1
      invariant cellId == |cells| + j && |out| == cellId
      invariant out == cells + seq(j, k requires 0 <= k < j => Cell(|cells| + k, i, k, Rect(v[k], top, v[k + 1], bottom)))
    {
      out := out + [Cell(cellId, i, j, Rect(v[j], top, v[j + 1], bottom))];
      cellId := cellId + 1;
    }
  }
}

