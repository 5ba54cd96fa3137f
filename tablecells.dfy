/** Assignment of a table box's tokens to its cells (first half of
    `_extract_table_text_from_elements`): each token goes to the first cell, by
    `cell_id`, whose rectangle widened by 2 contains its centre; a token no cell
    contains goes to the cell whose centre is nearest, the first on ties. */
module TableCells {
  import opened Seqs
  import opened Geometry
  import opened Templates

  const CellTolerance: real := 2.0

  function ById(): Cell -> (real, real) { (c: Cell) => (c.cellId as real, 0.0) }

  /** The cells in `cell_id` order; cells with equal ids keep their template order. */
  function Ordered(cells: seq<Cell>): (r: seq<Cell>)
    ensures SortedBy(r, ById()) && multiset(r) == multiset(cells)
  {
    SortBy(cells, ById())
  }

  predicate Inside(c: Cell, t: Token) {
    ContainsPoint(c.rect, t.CenterX(), t.CenterY(), CellTolerance)
  }

  /** The first cell at or after `from` whose widened rectangle contains the centre. */
  function FirstInside(cells: seq<Cell>, t: Token, from: nat): (r: Option<nat>)
    requires from <= |cells|
    ensures r.Some? ==> from <= r.value < |cells| && Inside(cells[r.value], t)
    ensures r.Some? ==> forall j :: from <= j < r.value ==> !Inside(cells[j], t)
    ensures r.None? ==> forall j :: from <= j < |cells| ==> !Inside(cells[j], t)
    decreases |cells| - from
  {
    if from == |cells| then None
    else if Inside(cells[from], t) then Some(from)
    else FirstInside(cells, t, from + 1)
  }

  /** Squared distance from the token's centre to the cell's centre; comparing it
      orders cells exactly as the Euclidean distance does. */
  function SqDist(c: Cell, t: Token): real {
    var dx := t.CenterX() - (c.rect.x0 + c.rect.x1) / 2.0;
    var dy := t.CenterY() - (c.rect.y0 + c.rect.y1) / 2.0;
    dx * dx + dy * dy
  }

  /** Index of the first cell among `cells[..n]` at minimal distance. */
  function Nearest(cells: seq<Cell>, t: Token, n: nat): (k: nat)
    requires 0 < n <= |cells|
    ensures k < n
    ensures forall j :: 0 <= j < n ==> SqDist(cells[k], t) <= SqDist(cells[j], t)
    ensures forall j :: 0 <= j < k ==> SqDist(cells[k], t) < SqDist(cells[j], t)
  {
    if n == 1 then 0
    else
      var k := Nearest(cells, t, n - 1);
      if SqDist(cells[n - 1], t) < SqDist(cells[k], t) then n - 1 else k
  }

  /** The id of the cell the first pass gives the token to, if any. */
  function InsideId(cells: seq<Cell>, t: Token): Option<int> {
    match FirstInside(cells, t, 0)
    case Some(k) => Some(cells[k].cellId)
    case None => None
  }

  /** The id of the cell the fallback gives the token to. */
  function NearestId(cells: seq<Cell>, t: Token): int {
    if cells == [] then 0 else cells[Nearest(cells, t, |cells|)].cellId
  }

  function FirstPass(cells: seq<Cell>): Token -> Option<int> { t => InsideId(cells, t) }

  function Fallback(cells: seq<Cell>): Token -> int { t => NearestId(cells, t) }

  /** The cell a token ends up in. */
  function CellOf(cells: seq<Cell>): Token -> int {
    t => match InsideId(cells, t) case Some(id) => id case None => NearestId(cells, t)
  }

  /** The tokens of cell `id`, in the order the two passes append them: first-pass
      tokens in input order, then fallback tokens in input order. */
  function CellElements(elements: seq<Token>, cells: seq<Cell>, id: int): seq<Token> {
    FilterEq(elements, FirstPass(cells), Some(id))
      + FilterEq(FilterEq(elements, FirstPass(cells), None), Fallback(cells), id)
  }

  function IdSet(cells: seq<Cell>): set<int> {
    set c | c in cells :: c.cellId
  }

  // ---------------------------------------------------------------------------
  // The two assignment passes.

  /** The first-pass scan over the ordered cells. */
  method FindInside(cells: seq<Cell>, t: Token) returns (k: Option<nat>)
    ensures k == FirstInside(cells, t, 0)
  {
    var j := 0;
    while j < |cells|
      invariant 0 <= j <= |cells|
      invariant FirstInside(cells, t, 0) == FirstInside(cells, t, j)
    {
      var r := cells[j].rect;
      if r.x0 - CellTolerance <= t.CenterX() <= r.x1 + CellTolerance
        && r.y0 - CellTolerance <= t.CenterY() <= r.y1 + CellTolerance {
        return Some(j);
      }
      j := j + 1;
    }
    return None;
  }

  /** The fallback scan: a running minimum with a strict `<`, starting from none. */
  method FindNearest(cells: seq<Cell>, t: Token) returns (k: nat)
    requires cells != []
    ensures k == Nearest(cells, t, |cells|)
  {
    var closest: Option<nat> := None;
    var minDistance := 0.0;
    for j := 0 to |cells|
      invariant j == 0 <==> closest.None?
      invariant j > 0 ==> closest == Some(Nearest(cells, t, j)) && minDistance == SqDist(cells[closest.value], t)
    {
      var d := SqDist(cells[j], t);
      if closest.None? || d < minDistance {
        minDistance := d;
        closest := Some(j);
      }
    }
    k := closest.value;
  }

  /** One empty element list per cell id. */
  method EmptyCells(cells: seq<Cell>) returns (placed: map<int, seq<Token>>)
    ensures placed.Keys == IdSet(cells)
    ensures forall id :: id in placed ==> placed[id] == []
  {
    placed := map[];
    for i := 0 to |cells|
      invariant placed.Keys == IdSet(cells[..i])
      invariant forall id :: id in placed ==> placed[id] == []
    {
      assert cells[..i + 1] == cells[..i] + [cells[i]];
      placed := placed[cells[i].cellId := []];
    }
    assert cells[..|cells|] == cells;
  }

  predicate FirstPassMatches(placed: map<int, seq<Token>>, done: seq<Token>, cells: seq<Cell>) {
    forall id :: id in placed ==> placed[id] == FilterEq(done, FirstPass(cells), Some(id))
  }

  /** The first pass: tokens inside a (widened) cell are placed, the rest are
      returned in input order. */
  method FirstPassAssign(elements: seq<Token>, cells: seq<Cell>)
    returns (placed: map<int, seq<Token>>, unassigned: seq<Token>)
    ensures placed.Keys == IdSet(cells)
    ensures FirstPassMatches(placed, elements, cells)
    ensures unassigned == FilterEq(elements, FirstPass(cells), None)
  {
    placed := EmptyCells(cells);
    unassigned := [];
    for i := 0 to |elements|
      invariant placed.Keys == IdSet(cells)
      invariant FirstPassMatches(placed, elements[..i], cells)
      invariant unassigned == FilterEq(elements[..i], FirstPass(cells), None)
    {
      var t := elements[i];
      var k := FindInside(cells, t);
      assert elements[..i + 1] == elements[..i] + [t];
      FilterEqStep(elements[..i], t, FirstPass(cells), None);
      if k.Some? {
        var id := cells[k.value].cellId;
        assert cells[k.value] in cells;
        PlaceFirst(elements[..i], t, cells, placed, id);
        placed := placed[id := placed[id] + [t]];
      } else {
        SkipFirst(elements[..i], t, cells, placed);
        unassigned := unassigned + [t];
      }
    }
    assert elements[..|elements|] == elements;
  }

  lemma PlaceFirst(done: seq<Token>, t: Token, cells: seq<Cell>, placed: map<int, seq<Token>>, id: int)
    requires FirstPassMatches(placed, done, cells) && id in placed && FirstPass(cells)(t) == Some(id)
    ensures FirstPassMatches(placed[id := placed[id] + [t]], done + [t], cells)
  {
    forall id' | id' in placed
      ensures FilterEq(done + [t], FirstPass(cells), Some(id')) == placed[id'] + (if id' == id then [t] else [])
    {
      FilterEqStep(done, t, FirstPass(cells), Some(id'));
    }
  }

  lemma SkipFirst(done: seq<Token>, t: Token, cells: seq<Cell>, placed: map<int, seq<Token>>)
    requires FirstPassMatches(placed, done, cells) && FirstPass(cells)(t) == None
    ensures FirstPassMatches(placed, done + [t], cells)
  {
    forall id' | id' in placed
      ensures FilterEq(done + [t], FirstPass(cells), Some(id')) == placed[id']
    {
      FilterEqStep(done, t, FirstPass(cells), Some(id'));
    }
  }

  predicate FallbackMatches(placed: map<int, seq<Token>>, elements: seq<Token>, done: seq<Token>, cells: seq<Cell>) {
    forall id :: id in placed ==>
      placed[id] == FilterEq(elements, FirstPass(cells), Some(id)) + FilterEq(done, Fallback(cells), id)
  }

  /** Both passes: the element list of every cell id. */
  method AssignToCells(elements: seq<Token>, cells: seq<Cell>) returns (placed: map<int, seq<Token>>)
    requires cells != []
    ensures placed.Keys == IdSet(cells)
    ensures forall id :: id in placed ==> placed[id] == CellElements(elements, cells, id)
  {
    var first, unassigned := FirstPassAssign(elements, cells);
    FallbackStart(elements, cells, first);
    placed := FallbackAssign(elements, cells, first, unassigned);
    assert FallbackMatches(placed, elements, unassigned, cells);
  }

  lemma FallbackStart(elements: seq<Token>, cells: seq<Cell>, placed: map<int, seq<Token>>)
    requires FirstPassMatches(placed, elements, cells)
    ensures FallbackMatches(placed, elements, [], cells)
  {
    forall id | id in placed
      ensures placed[id] == FilterEq(elements, FirstPass(cells), Some(id)) + FilterEq([], Fallback(cells), id)
    {
      assert FilterEq([], Fallback(cells), id) == [];
    }
  }

  /** The fallback pass over the tokens the first pass left. */
  method FallbackAssign(elements: seq<Token>, cells: seq<Cell>, first: map<int, seq<Token>>, unassigned: seq<Token>)
    returns (placed: map<int, seq<Token>>)
    requires cells != [] && first.Keys == IdSet(cells)
    requires FallbackMatches(first, elements, [], cells)
    ensures placed.Keys == IdSet(cells)
    ensures FallbackMatches(placed, elements, unassigned, cells)
  {
    placed := first;
    for i := 0 to |unassigned|
      invariant placed.Keys == IdSet(cells)
      invariant FallbackMatches(placed, elements, unassigned[..i], cells)
    {
      var t := unassigned[i];
      var k := FindNearest(cells, t);
      var id := cells[k].cellId;
      assert cells[k] in cells;
      assert Fallback(cells)(t) == id;
      assert unassigned[..i + 1] == unassigned[..i] + [t];
      PlaceFallback(elements, unassigned[..i], t, cells, placed, id);
      placed := placed[id := placed[id] + [t]];
    }
    assert unassigned[..|unassigned|] == unassigned;
  }

  lemma PlaceFallback(elements: seq<Token>, done: seq<Token>, t: Token, cells: seq<Cell>, placed: map<int, seq<Token>>, id: int)
    requires FallbackMatches(placed, elements, done, cells) && id in placed && Fallback(cells)(t) == id
    ensures FallbackMatches(placed[id := placed[id] + [t]], elements, done + [t], cells)
  {
    var p' := placed[id := placed[id] + [t]];
    forall id' | id' in p'
      ensures p'[id'] == FilterEq(elements, FirstPass(cells), Some(id')) + FilterEq(done + [t], Fallback(cells), id')
    {
      var a := FilterEq(elements, FirstPass(cells), Some(id'));
      var b := FilterEq(done, Fallback(cells), id');
      FilterEqStep(done, t, Fallback(cells), id');
      assert p'[id'] == a + b + (if id' == id then [t] else []);
    }
  }

  // ---------------------------------------------------------------------------
  // Properties

  /** The token's cell: the first cell in id order whose rectangle widened by 2
      contains its centre; failing that, the first cell at minimal centre distance. */
  lemma CellChoice(cells: seq<Cell>, t: Token)
    requires cells != []
    ensures CellOf(cells)(t) in IdSet(cells)
    ensures (exists j :: 0 <= j < |cells| && Inside(cells[j], t)) ==>
      exists k :: 0 <= k < |cells| && Inside(cells[k], t) && CellOf(cells)(t) == cells[k].cellId
        && forall j :: 0 <= j < k ==> !Inside(cells[j], t)
    ensures (forall j :: 0 <= j < |cells| ==> !Inside(cells[j], t)) ==>
      exists k :: 0 <= k < |cells| && CellOf(cells)(t) == cells[k].cellId
        && (forall j :: 0 <= j < |cells| ==> SqDist(cells[k], t) <= SqDist(cells[j], t))
        && (forall j :: 0 <= j < k ==> SqDist(cells[k], t) < SqDist(cells[j], t))
  {
    match FirstInside(cells, t, 0)
    case Some(k) =>
      assert cells[k] in cells;
    case None =>
      var k := Nearest(cells, t, |cells|);
      assert cells[k] in cells;
  }

  /** A cell receives, in some order, exactly the tokens whose cell it is. */
  lemma CellElementsAreCellOf(elements: seq<Token>, cells: seq<Cell>, id: int)
    ensures multiset(CellElements(elements, cells, id)) == multiset(FilterEq(elements, CellOf(cells), id))
  {
    TwoPassFilter(elements, FirstPass(cells), Fallback(cells), CellOf(cells), id);
  }

  function CellSizes(elements: seq<Token>, cells: seq<Cell>, ids: seq<int>): nat {
    if ids == [] then 0 else |CellElements(elements, cells, ids[0])| + CellSizes(elements, cells, ids[1..])
  }

  /** With at least one cell, every token is assigned to exactly one cell: the
      cells' element lists together hold as many tokens as were given. */
  lemma EveryTokenInOneCell(elements: seq<Token>, cells: seq<Cell>, ids: seq<int>)
    requires cells != []
    requires Distinct(ids) && forall id :: id in ids <==> id in IdSet(cells)
    ensures CellSizes(elements, cells, ids) == |elements|
  {
    SameCellSizes(elements, cells, ids);
    forall t | t in elements ensures CellOf(cells)(t) in ids {
      CellChoice(cells, t);
    }
    PartitionCount(elements, CellOf(cells), ids);
  }

  lemma {:induction false} SameCellSizes(elements: seq<Token>, cells: seq<Cell>, ids: seq<int>)
    ensures CellSizes(elements, cells, ids) == BucketSizes(elements, CellOf(cells), ids)
  {
    if ids != [] {
      SameCellSizes(elements, cells, ids[1..]);
      CellElementsAreCellOf(elements, cells, ids[0]);
      assert |multiset(CellElements(elements, cells, ids[0]))| == |multiset(FilterEq(elements, CellOf(cells), ids[0]))|;
    }
  }
}
