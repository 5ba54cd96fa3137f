/** Line reconstruction (`_group_words_into_lines`) and the two plain-text layouts
    built on it (`_extract_paragraph_from_words`, `_extract_with_layout_detection`). */
module Lines {
  import opened Seqs
  import opened Chars
  import opened Geometry

  /** A word joins a line whose centre is at most this far from its own centre. */
  const LineTolerance: real := 8.0
  /** Centre gaps above these start a paragraph (blank line). */
  const ParagraphGap: real := 20.0
  const LayoutGap: real := 25.0

  /** A line being built: its running centre and its words in arrival order. */
  datatype LineAcc = LineAcc(centerY: real, words: seq<Token>)

  /** A finished line: centre, words left to right, and its text. */
  datatype TextLine = TextLine(centerY: real, words: seq<Token>, text: string)

  function Abs(x: real): real { if x < 0.0 then -x else x }

  predicate Near(a: real, b: real) { Abs(a - b) <= LineTolerance }

  /** Sum of the words' vertical centres, in order. */
  function SumCenters(ws: seq<Token>): real {
    if ws == [] then 0.0 else SumCenters(ws[..|ws| - 1]) + ws[|ws| - 1].CenterY()
  }

  /** The average of the words' vertical centres. */
  function MeanCenter(ws: seq<Token>): real
    requires ws != []
  {
    SumCenters(ws) / |ws| as real
  }

  /** The first line at or after `from` whose centre is within the tolerance of `c`. */
  function FirstNear(lines: seq<LineAcc>, c: real, from: nat): (r: Option<nat>)
    requires from <= |lines|
    ensures r.Some? ==> from <= r.value < |lines| && Near(c, lines[r.value].centerY)
    ensures r.Some? ==> forall j :: from <= j < r.value ==> !Near(c, lines[j].centerY)
    ensures r.None? ==> forall j :: from <= j < |lines| ==> !Near(c, lines[j].centerY)
    decreases |lines| - from
  {
    if from == |lines| then None
    else if Near(c, lines[from].centerY) then Some(from)
    else FirstNear(lines, c, from + 1)
  }

  /** One step of the grouping loop: the word joins the first line near its centre,
      whose centre becomes the mean of its words' centres, or opens a new line. */
  function AddWord(lines: seq<LineAcc>, w: Token): seq<LineAcc> {
    match FirstNear(lines, w.CenterY(), 0)
    case Some(k) =>
      var ws := lines[k].words + [w];
      lines[k := LineAcc(MeanCenter(ws), ws)]
    case None => lines + [LineAcc(w.CenterY(), [w])]
  }

  /** The lines after the grouping loop has seen `words`, in creation order. */
  function Grouped(words: seq<Token>): seq<LineAcc> {
    if words == [] then [] else AddWord(Grouped(words[..|words| - 1]), words[|words| - 1])
  }

  /** Every line holds at least one word and its centre is the mean of its words'
      centres. */
  predicate WellFormed(lines: seq<LineAcc>) {
    forall i :: 0 <= i < |lines| ==> lines[i].words != [] && lines[i].centerY == MeanCenter(lines[i].words)
  }

  lemma {:induction false} GroupedWellFormed(words: seq<Token>)
    ensures WellFormed(Grouped(words))
  {
    if words != [] {
      var w := words[|words| - 1];
      GroupedWellFormed(words[..|words| - 1]);
      var ls := Grouped(words[..|words| - 1]);
      if FirstNear(ls, w.CenterY(), 0).None? {
        assert SumCenters([w]) == w.CenterY() by {
          assert [w][..0] == [];
        }
      }
    }
  }

  /** All words of a list of lines, line after line. */
  function AllWords(lines: seq<LineAcc>): seq<Token> {
    if lines == [] then [] else lines[0].words + AllWords(lines[1..])
  }

  lemma {:induction false} AllWordsAppend(a: seq<LineAcc>, b: seq<LineAcc>)
    ensures AllWords(a + b) == AllWords(a) + AllWords(b)
  {
    if a == [] {
      assert a + b == b;
    } else {
      assert (a + b)[1..] == a[1..] + b;
      AllWordsAppend(a[1..], b);
    }
  }

  lemma {:induction false} AllWordsUpdate(lines: seq<LineAcc>, k: nat, l: LineAcc, w: Token)
    requires k < |lines| && l.words == lines[k].words + [w]
    ensures multiset(AllWords(lines[k := l])) == multiset(AllWords(lines)) + multiset{w}
  {
    if k == 0 {
      assert lines[k := l][1..] == lines[1..];
    } else {
      AllWordsUpdate(lines[1..], k - 1, l, w);
      assert lines[k := l][1..] == lines[1..][k - 1 := l];
    }
  }

  /** Grouping places every word in exactly one line. */
  lemma {:induction false} GroupedPartition(words: seq<Token>)
    ensures multiset(AllWords(Grouped(words))) == multiset(words)
  {
    if words != [] {
      var w := words[|words| - 1];
      var init := words[..|words| - 1];
      GroupedPartition(init);
      assert words == init + [w];
      var ls := Grouped(init);
      match FirstNear(ls, w.CenterY(), 0)
      case Some(k) =>
        AllWordsUpdate(ls, k, LineAcc(MeanCenter(ls[k].words + [w]), ls[k].words + [w]), w);
      case None =>
        AllWordsAppend(ls, [LineAcc(w.CenterY(), [w])]);
        assert AllWords([LineAcc(w.CenterY(), [w])]) == [w];
    }
  }

  /** Inserting a line into a sorted list adds exactly its words. */
  lemma {:induction false} InsertWords(x: LineAcc, s: seq<LineAcc>, key: LineAcc -> (real, real))
    requires SortedBy(s, key)
    ensures multiset(AllWords(Insert(x, s, key))) == multiset(x.words) + multiset(AllWords(s))
  {
    if s == [] || KeyLe(key(x), key(s[0])) {
      assert ([x] + s)[1..] == s;
    } else {
      InsertWords(x, s[1..], key);
      var t := Insert(x, s[1..], key);
      assert ([s[0]] + t)[1..] == t;
    }
  }

  /** Sorting lines reorders their words and loses none. */
  lemma {:induction false} SortedWords(s: seq<LineAcc>, key: LineAcc -> (real, real))
    ensures multiset(AllWords(SortBy(s, key))) == multiset(AllWords(s))
  {
    if s != [] {
      SortedWords(s[1..], key);
      InsertWords(s[0], SortBy(s[1..], key), key);
    }
  }

  // ---------------------------------------------------------------------------
  // Finishing: lines top to bottom, words left to right, text, blank lines dropped.

  function ByCenter(): LineAcc -> (real, real) { (l: LineAcc) => (l.centerY, 0.0) }

  function ByX0(): Token -> (real, real) { (w: Token) => (w.x0, 0.0) }

  function WordTexts(ws: seq<Token>): (r: seq<string>)
    ensures |r| == |ws|
    ensures forall i :: 0 <= i < |ws| ==> r[i] == ws[i].text
  {
    if ws == [] then [] else [ws[0].text] + WordTexts(ws[1..])
  }

  /** A line's words sorted by `x0` and its text: the word texts joined by one
      space, stripped. */
  function Finish(l: LineAcc): (r: TextLine)
    ensures r.centerY == l.centerY
    ensures SortedBy(r.words, ByX0()) && multiset(r.words) == multiset(l.words)
    ensures r.text == [] || (!IsSpace(r.text[0]) && !IsSpace(r.text[|r.text| - 1]))
  {
    var ws := SortBy(l.words, ByX0());
    TextLine(l.centerY, ws, Strip(Join(WordTexts(ws), " ")))
  }

  predicate HasText(l: TextLine) { l.text != [] }

  /** `_group_words_into_lines`: the grouped lines sorted by centre (stably),
      finished, and those with empty text dropped. */
  function LinesOf(words: seq<Token>): seq<TextLine> {
    Filter(MapSeq(SortBy(Grouped(words), ByCenter()), Finish), HasText)
  }

  predicate Ascending(ls: seq<TextLine>) {
    forall i, j :: 0 <= i < j < |ls| ==> ls[i].centerY <= ls[j].centerY
  }

  /** The words of finished lines, line after line. */
  function LineWords(ls: seq<TextLine>): seq<Token> {
    if ls == [] then [] else ls[0].words + LineWords(ls[1..])
  }

  lemma {:induction false} AscendingFilter(ls: seq<TextLine>)
    requires Ascending(ls)
    ensures Ascending(Filter(ls, HasText))
  {
    if ls != [] {
      AscendingFilter(ls[1..]);
      var rest := Filter(ls[1..], HasText);
      forall j | 0 <= j < |rest| ensures ls[0].centerY <= rest[j].centerY {
        FilterEqMembers(ls[1..], HasText, true, rest[j]);
      }
    }
  }

  /** Lines come out top to bottom, each with non-empty text, words left to right. */
  lemma LinesOrdered(words: seq<Token>)
    ensures Ascending(LinesOf(words))
    ensures forall i :: 0 <= i < |LinesOf(words)| ==>
      LinesOf(words)[i].text != [] && SortedBy(LinesOf(words)[i].words, ByX0())
  {
    var sorted := SortBy(Grouped(words), ByCenter());
    var fin := MapSeq(sorted, Finish);
    FinishedAscending(sorted);
    AscendingFilter(fin);
    forall k | 0 <= k < |fin| ensures SortedBy(fin[k].words, ByX0()) {
      MapSeqAt(sorted, Finish, k);
    }
    forall i | 0 <= i < |LinesOf(words)|
      ensures LinesOf(words)[i].text != [] && SortedBy(LinesOf(words)[i].words, ByX0())
    {
      KeptLine(fin, LinesOf(words)[i]);
    }
  }

  lemma FinishedAscending(sorted: seq<LineAcc>)
    requires SortedBy(sorted, ByCenter())
    ensures Ascending(MapSeq(sorted, Finish))
  {
    var fin := MapSeq(sorted, Finish);
    forall i, j | 0 <= i < j < |fin| ensures fin[i].centerY <= fin[j].centerY {
      MapSeqAt(sorted, Finish, i);
      MapSeqAt(sorted, Finish, j);
      assert KeyLe(ByCenter()(sorted[i]), ByCenter()(sorted[j]));
    }
  }

  lemma KeptLine(fin: seq<TextLine>, l: TextLine)
    requires forall k :: 0 <= k < |fin| ==> SortedBy(fin[k].words, ByX0())
    requires l in Filter(fin, HasText)
    ensures l.text != [] && SortedBy(l.words, ByX0())
  {
    FilterEqMembers(fin, HasText, true, l);
  }

  lemma {:induction false} FinishedWords(ls: seq<LineAcc>)
    ensures multiset(LineWords(MapSeq(ls, Finish))) == multiset(AllWords(ls))
  {
    if ls != [] {
      var n := |ls|;
      FinishedWords(ls[..n - 1]);
      AllWordsSnoc(ls);
      LineWordsSnoc(MapSeq(ls[..n - 1], Finish), Finish(ls[n - 1]));
    }
  }

  lemma AllWordsSnoc(ls: seq<LineAcc>)
    requires ls != []
    ensures AllWords(ls) == AllWords(ls[..|ls| - 1]) + ls[|ls| - 1].words
  {
    var x := ls[|ls| - 1];
    assert ls == ls[..|ls| - 1] + [x];
    AllWordsAppend(ls[..|ls| - 1], [x]);
    assert [x][1..] == [];
  }

  lemma LineWordsSnoc(f: seq<TextLine>, last: TextLine)
    ensures LineWords(f + [last]) == LineWords(f) + last.words
  {
    LineWordsAppend(f, [last]);
    assert [last][1..] == [];
  }

  lemma {:induction false} SplitWords(ls: seq<TextLine>)
    ensures multiset(LineWords(Filter(ls, HasText))) + multiset(LineWords(FilterEq(ls, HasText, false)))
      == multiset(LineWords(ls))
  {
    if ls != [] {
      SplitWords(ls[1..]);
      var h := if HasText(ls[0]) then [ls[0]] else [];
      var g := if HasText(ls[0]) then [] else [ls[0]];
      LineWordsAppend(h, Filter(ls[1..], HasText));
      LineWordsAppend(g, FilterEq(ls[1..], HasText, false));
      assert LineWords([ls[0]]) == ls[0].words;
    }
  }

  lemma {:induction false} LineWordsAppend(a: seq<TextLine>, b: seq<TextLine>)
    ensures LineWords(a + b) == LineWords(a) + LineWords(b)
  {
    if a == [] {
      assert a + b == b;
    } else {
      assert (a + b)[1..] == a[1..] + b;
      LineWordsAppend(a[1..], b);
    }
  }

  /** Every word lands in exactly one line: the kept lines and the dropped lines
      (those whose text is empty) together hold each input word once. */
  lemma EveryWordInOneLine(words: seq<Token>)
    ensures var fin := MapSeq(SortBy(Grouped(words), ByCenter()), Finish);
      LinesOf(words) == Filter(fin, HasText) &&
      multiset(LineWords(LinesOf(words))) + multiset(LineWords(FilterEq(fin, HasText, false))) == multiset(words)
  {
    var sorted := SortBy(Grouped(words), ByCenter());
    GroupedPartition(words);
    SortedWords(Grouped(words), ByCenter());
    FinishedWords(sorted);
    SplitWords(MapSeq(sorted, Finish));
  }

  /** Each kept line's centre is the mean of its words' centres. */
  lemma CentersAreMeans(words: seq<Token>, i: nat)
    requires i < |LinesOf(words)|
    ensures LinesOf(words)[i].words != []
    ensures LinesOf(words)[i].centerY == SumCenters(LinesOf(words)[i].words) / |LinesOf(words)[i].words| as real
  {
    var g := Grouped(words);
    var sorted := SortBy(g, ByCenter());
    var fin := MapSeq(sorted, Finish);
    var l := LinesOf(words)[i];
    GroupedWellFormed(words);
    FilterEqMembers(fin, HasText, true, l);
    var k :| 0 <= k < |fin| && fin[k] == l;
    MapSeqAt(sorted, Finish, k);
    assert sorted[k] in multiset(g);
    FinishMean(sorted[k]);
  }

  lemma FinishMean(x: LineAcc)
    requires x.words != [] && x.centerY == MeanCenter(x.words)
    ensures Finish(x).words != []
    ensures Finish(x).centerY == SumCenters(Finish(x).words) / |Finish(x).words| as real
  {
    var ws := Finish(x).words;
    assert |ws| == |multiset(ws)| == |multiset(x.words)| == |x.words|;
    SumCentersPermutation(x.words, ws);
  }

  /** The sum of centres does not depend on the order of the words. */
  lemma {:induction false} SumCentersPermutation(a: seq<Token>, b: seq<Token>)
    requires multiset(a) == multiset(b)
    ensures SumCenters(a) == SumCenters(b)
    decreases |a|
  {
    if a != [] {
      var x := a[|a| - 1];
      assert x in multiset(b);
      var i :| 0 <= i < |b| && b[i] == x;
      var rest := b[..i] + b[i + 1..];
      assert b == b[..i] + [x] + b[i + 1..];
      assert a == a[..|a| - 1] + [x];
      assert multiset(b) == multiset(b[..i]) + multiset([x]) + multiset(b[i + 1..]);
      assert multiset(rest) == multiset(b[..i]) + multiset(b[i + 1..]);
      assert multiset(a) == multiset(a[..|a| - 1]) + multiset([x]);
      assert multiset(a[..|a| - 1]) == multiset(a) - multiset([x]);
      assert multiset(rest) == multiset(b) - multiset([x]);
      SumCentersPermutation(a[..|a| - 1], rest);
      SumCentersMoveLast(b[..i], x, b[i + 1..]);
    }
  }

  lemma {:induction false} SumCentersMoveLast(p: seq<Token>, x: Token, q: seq<Token>)
    ensures SumCenters(p + [x] + q) == SumCenters(p + q) + x.CenterY()
  {
    SumCentersAppend(p + [x], q);
    SumCentersAppend(p, q);
    assert (p + [x])[..|p|] == p;
  }

  lemma {:induction false} SumCentersAppend(p: seq<Token>, q: seq<Token>)
    ensures SumCenters(p + q) == SumCenters(p) + SumCenters(q)
    decreases |q|
  {
    if q == [] {
      assert p + q == p;
    } else {
      var q' := q[..|q| - 1];
      SumCentersAppend(p, q');
      assert (p + q)[..|p + q| - 1] == p + q';
    }
  }

  // ---------------------------------------------------------------------------
  // The grouping routine.

  /** `sum(all_centers) / len(all_centers)` over a line's words. */
  method AverageCenter(ws: seq<Token>) returns (c: real)
    requires ws != []
    ensures c == MeanCenter(ws)
  {
    var total := 0.0;
    for i := 0 to |ws|
      invariant total == SumCenters(ws[..i])
    {
      assert ws[..i + 1][..i] == ws[..i];
      total := total + ws[i].CenterY();
    }
    assert ws[..|ws|] == ws;
    c := total / |ws| as real;
  }

  /** The search for a line near the word's centre; stops at the first one. */
  method FindLine(acc: seq<LineAcc>, c: real) returns (k: Option<nat>)
    ensures k == FirstNear(acc, c, 0)
  {
    var j := 0;
    while j < |acc|
      invariant 0 <= j <= |acc|
      invariant FirstNear(acc, c, 0) == FirstNear(acc, c, j)
    {
      if Abs(c - acc[j].centerY) <= LineTolerance {
        return Some(j);
      }
      j := j + 1;
    }
    return None;
  }

  /** The grouping loop of `_group_words_into_lines`. */
  method GroupLines(words: seq<Token>) returns (acc: seq<LineAcc>)
    ensures acc == Grouped(words)
  {
    acc := [];
    for i := 0 to |words|
      invariant acc == Grouped(words[..i])
    {
      var w := words[i];
      var k := FindLine(acc, w.CenterY());
      assert words[..i + 1][..i] == words[..i];
      if k.Some? {
        var ws := acc[k.value].words + [w];
        var m := AverageCenter(ws);
        acc := acc[k.value := LineAcc(m, ws)];
      } else {
        acc := acc + [LineAcc(w.CenterY(), [w])];
      }
    }
    assert words[..|words|] == words;
  }

  /** Sorts each line's words by `x0` and sets its text. */
  method FinishLines(sorted: seq<LineAcc>) returns (finished: seq<TextLine>)
    ensures finished == MapSeq(sorted, Finish)
  {
    finished := [];
    for i := 0 to |sorted|
      invariant finished == MapSeq(sorted[..i], Finish)
    {
      var ws := SortBy(sorted[i].words, ByX0());
      var line := TextLine(sorted[i].centerY, ws, Strip(Join(WordTexts(ws), " ")));
      assert line == Finish(sorted[i]);
      assert sorted[..i + 1][..i] == sorted[..i];
      finished := finished + [line];
    }
    assert sorted[..|sorted|] == sorted;
  }

  /** `_group_words_into_lines`: group, sort lines by centre, finish each line,
      keep the lines with text. */
  method GroupWordsIntoLines(words: seq<Token>) returns (lines: seq<TextLine>)
    ensures lines == LinesOf(words)
  {
    var acc := GroupLines(words);
    var sorted := SortBy(acc, ByCenter());
    var finished := FinishLines(sorted);
    lines := Filter(finished, HasText);
  }

  // ---------------------------------------------------------------------------
  // Plain-text layouts.

  /** The layout's output lines: each line's text, preceded by an empty line when
      its centre lies more than `gap` below the previous line's centre. */
  function Spaced(lines: seq<TextLine>, gap: real): seq<string> {
    if lines == [] then []
    else
      var n := |lines|;
      Spaced(lines[..n - 1], gap)
        + (if n > 1 && lines[n - 1].centerY - lines[n - 2].centerY > gap then [""] else [])
        + [lines[n - 1].text]
  }

  /** The loop shared by the paragraph and general layouts. */
  method LayoutLines(lines: seq<TextLine>, gap: real) returns (text: string)
    ensures text == Join(Spaced(lines, gap), "\n")
  {
    var textLines: seq<string> := [];
    for i := 0 to |lines|
      invariant textLines == Spaced(lines[..i], gap)
    {
      assert lines[..i + 1][..i] == lines[..i];
      if i > 0 {
        var verticalGap := lines[i].centerY - lines[i - 1].centerY;
        if verticalGap > gap {
          textLines := textLines + [""];
        }
      }
      textLines := textLines + [lines[i].text];
    }
    assert lines[..|lines|] == lines;
    text := Join(textLines, "\n");
  }

  /** `_extract_paragraph_from_words`: blank line above a centre gap over 20. */
  method ExtractParagraphFromWords(words: seq<Token>) returns (text: string)
    ensures text == Join(Spaced(LinesOf(words), ParagraphGap), "\n")
  {
    if words == [] {
      return "";
    }
    var lines := GroupWordsIntoLines(words);
    text := LayoutLines(lines, ParagraphGap);
  }

  /** `_extract_with_layout_detection`: blank line above a centre gap over 25. */
  method ExtractWithLayoutDetection(words: seq<Token>) returns (text: string)
    ensures text == Join(Spaced(LinesOf(words), LayoutGap), "\n")
  {
    if words == [] {
      return "";
    }
    var lines := GroupWordsIntoLines(words);
    text := LayoutLines(lines, LayoutGap);
  }

  function Texts(lines: seq<TextLine>): (r: seq<string>)
    ensures |r| == |lines|
    ensures forall i :: 0 <= i < |lines| ==> r[i] == lines[i].text
  {
    if lines == [] then [] else Texts(lines[..|lines| - 1]) + [lines[|lines| - 1].text]
  }

  predicate IsNonEmpty(s: string) { s != [] }

  predicate IsBreak(lines: seq<TextLine>, gap: real, i: nat)
    requires 1 <= i < |lines|
  {
    lines[i].centerY - lines[i - 1].centerY > gap
  }

  /** The line boundaries where the centre gap exceeds `gap`. */
  function Breaks(lines: seq<TextLine>, gap: real): set<nat> {
    set i: nat | 1 <= i < |lines| && IsBreak(lines, gap, i)
  }

  /** Removing the layout's empty lines gives back the lines' texts, in order. */
  lemma {:induction false} SpacedTexts(lines: seq<TextLine>, gap: real)
    requires forall i :: 0 <= i < |lines| ==> lines[i].text != []
    ensures Filter(Spaced(lines, gap), IsNonEmpty) == Texts(lines)
  {
    if lines != [] {
      var n := |lines|;
      var init := lines[..n - 1];
      SpacedTexts(init, gap);
      var blank := if n > 1 && lines[n - 1].centerY - lines[n - 2].centerY > gap then [""] else [];
      assert Spaced(lines, gap) == Spaced(init, gap) + blank + [lines[n - 1].text];
      FilterEqAppend(Spaced(init, gap) + blank, [lines[n - 1].text], IsNonEmpty, true);
      FilterEqAppend(Spaced(init, gap), blank, IsNonEmpty, true);
      assert Texts(lines) == Texts(init) + [lines[n - 1].text];
    }
  }

  /** The layout adds as many empty lines as there are boundaries where the centre
      gap exceeds the threshold (`SpacedPlaces` says where they go). */
  lemma {:induction false} SpacedBreaks(lines: seq<TextLine>, gap: real)
    requires forall i :: 0 <= i < |lines| ==> lines[i].text != []
    ensures |FilterEq(Spaced(lines, gap), IsNonEmpty, false)| == |Breaks(lines, gap)|
  {
    if lines != [] {
      var n := |lines|;
      var init := lines[..n - 1];
      SpacedBreaks(init, gap);
      var blank := if n > 1 && lines[n - 1].centerY - lines[n - 2].centerY > gap then [""] else [];
      assert Spaced(lines, gap) == Spaced(init, gap) + blank + [lines[n - 1].text];
      FilterEqAppend(Spaced(init, gap) + blank, [lines[n - 1].text], IsNonEmpty, false);
      FilterEqAppend(Spaced(init, gap), blank, IsNonEmpty, false);
      BreaksStep(lines, gap);
    }
  }

  lemma BreaksStep(lines: seq<TextLine>, gap: real)
    requires |lines| >= 1
    ensures var n := |lines|;
      |Breaks(lines, gap)| == |Breaks(lines[..n - 1], gap)| + (if n > 1 && IsBreak(lines, gap, n - 1) then 1 else 0)
  {
    var n := |lines|;
    var init := lines[..n - 1];
    forall i: nat | 1 <= i < n - 1 ensures IsBreak(lines, gap, i) == IsBreak(init, gap, i) {
    }
    if n > 1 && IsBreak(lines, gap, n - 1) {
      assert Breaks(lines, gap) == Breaks(init, gap) + {n - 1};
      assert n - 1 !in Breaks(init, gap);
    } else {
      assert Breaks(lines, gap) == Breaks(init, gap);
    }
  }

  /** The number of boundaries up to line `i` where the centre gap exceeds `gap`. */
  function BlanksUpTo(lines: seq<TextLine>, gap: real, i: nat): nat
    requires i < |lines|
  {
    if i == 0 then 0 else BlanksUpTo(lines, gap, i - 1) + (if IsBreak(lines, gap, i) then 1 else 0)
  }

  /** Where line `i` lands in the layout: after the `i` lines before it and the
      empty lines inserted so far. */
  function Pos(lines: seq<TextLine>, gap: real, i: nat): nat
    requires i < |lines|
  {
    i + BlanksUpTo(lines, gap, i)
  }

  lemma {:induction false} BlanksPrefix(lines: seq<TextLine>, gap: real, m: nat, i: nat)
    requires i < m <= |lines|
    ensures BlanksUpTo(lines[..m], gap, i) == BlanksUpTo(lines, gap, i)
  {
    if i > 0 {
      BlanksPrefix(lines, gap, m, i - 1);
    }
  }

  /** All the breaks of the layout are counted by the last line. */
  lemma {:induction false} BlanksAreBreaks(lines: seq<TextLine>, gap: real)
    requires lines != []
    ensures BlanksUpTo(lines, gap, |lines| - 1) == |Breaks(lines, gap)|
  {
    var n := |lines|;
    BreaksStep(lines, gap);
    if n > 1 {
      var init := lines[..n - 1];
      BlanksAreBreaks(init, gap);
      BlanksPrefix(lines, gap, n - 1, n - 2);
    } else {
      assert Breaks(lines[..0], gap) == {};
    }
  }

  /** The layout of all lines but the last, then the last line, with an empty line
      between them when the centre gap exceeds `gap`. */
  lemma SpacedStep(lines: seq<TextLine>, gap: real)
    requires |lines| >= 1
    ensures var n := |lines|;
      Spaced(lines, gap) == Spaced(lines[..n - 1], gap)
        + (if n > 1 && IsBreak(lines, gap, n - 1) then [""] else []) + [lines[n - 1].text]
  {
  }

  lemma {:induction false} SpacedLength(lines: seq<TextLine>, gap: real)
    requires lines != []
    ensures |Spaced(lines, gap)| == Pos(lines, gap, |lines| - 1) + 1
  {
    var n := |lines|;
    SpacedStep(lines, gap);
    if n > 1 {
      SpacedLength(lines[..n - 1], gap);
      BlanksPrefix(lines, gap, n - 1, n - 2);
    }
  }

  /** Line `i` sits at `Pos(i)`. */
  lemma {:induction false} SpacedAt(lines: seq<TextLine>, gap: real, i: nat)
    requires i < |lines|
    ensures Pos(lines, gap, i) < |Spaced(lines, gap)| && Spaced(lines, gap)[Pos(lines, gap, i)] == lines[i].text
  {
    var n := |lines|;
    SpacedStep(lines, gap);
    SpacedLength(lines, gap);
    if i < n - 1 {
      SpacedAt(lines[..n - 1], gap, i);
      BlanksPrefix(lines, gap, n - 1, i);
      SpacedLength(lines[..n - 1], gap);
    }
  }

  /** The entry just above line `i >= 1` is an empty line at a break, and line
      `i - 1` otherwise. */
  lemma {:induction false} SpacedAbove(lines: seq<TextLine>, gap: real, i: nat)
    requires 1 <= i < |lines|
    ensures Pos(lines, gap, i) < |Spaced(lines, gap)|
    ensures Spaced(lines, gap)[Pos(lines, gap, i) - 1] == if IsBreak(lines, gap, i) then "" else lines[i - 1].text
  {
    var n := |lines|;
    SpacedStep(lines, gap);
    SpacedLength(lines, gap);
    SpacedAt(lines, gap, i - 1);
    if i < n - 1 {
      SpacedAbove(lines[..n - 1], gap, i);
      BlanksPrefix(lines, gap, n - 1, i);
      SpacedLength(lines[..n - 1], gap);
      assert IsBreak(lines[..n - 1], gap, i) == IsBreak(lines, gap, i);
    } else {
      SpacedLength(lines[..n - 1], gap);
      BlanksPrefix(lines, gap, n - 1, n - 2);
    }
  }

  /** The layout line by line: line `i` sits at `Pos(i)`, an empty line sits just
      above it when the centre gap above it exceeds `gap`, and nothing else is
      there.  With non-empty line texts, the entry above line `i >= 1` is empty
      exactly at those boundaries. */
  lemma SpacedPlaces(lines: seq<TextLine>, gap: real)
    ensures lines == [] ==> Spaced(lines, gap) == []
    ensures lines != [] ==> |Spaced(lines, gap)| == Pos(lines, gap, |lines| - 1) + 1
    ensures |Spaced(lines, gap)| == |lines| + |Breaks(lines, gap)|
    ensures forall i :: 0 <= i < |lines| ==>
      Pos(lines, gap, i) < |Spaced(lines, gap)| && Spaced(lines, gap)[Pos(lines, gap, i)] == lines[i].text
    ensures forall i :: 1 <= i < |lines| && IsBreak(lines, gap, i) ==> Spaced(lines, gap)[Pos(lines, gap, i) - 1] == ""
    ensures (forall i :: 0 <= i < |lines| ==> lines[i].text != []) ==>
      forall i :: 1 <= i < |lines| ==> (Spaced(lines, gap)[Pos(lines, gap, i) - 1] == "" <==> IsBreak(lines, gap, i))
  {
    if lines != [] {
      SpacedLength(lines, gap);
      BlanksAreBreaks(lines, gap);
      forall i | 0 <= i < |lines|
        ensures Pos(lines, gap, i) < |Spaced(lines, gap)| && Spaced(lines, gap)[Pos(lines, gap, i)] == lines[i].text
      {
        SpacedAt(lines, gap, i);
      }
      forall i | 1 <= i < |lines|
        ensures Spaced(lines, gap)[Pos(lines, gap, i) - 1] == if IsBreak(lines, gap, i) then "" else lines[i - 1].text
      {
        SpacedAbove(lines, gap, i);
      }
    } else {
      assert Breaks(lines, gap) == {};
    }
  }

  /** Two words whose centres are 10 apart (more than the tolerance of 8) are two
      lines, printed one under the other without a blank line. */
  lemma TwoLinesTenApart()
    ensures Join(Spaced(LinesOf([Acme(), Corp()]), LayoutGap), "\n") == "ACME\nCORP"
  {
    SampleLines();
    SampleSpaced();
    SampleJoin();
  }

  lemma SampleJoin()
    ensures Join(["ACME", "CORP"], "\n") == "ACME\nCORP"
  {
    assert ["ACME", "CORP"][1..] == ["CORP"];
    assert "ACME" + "\n" + "CORP" == "ACME\nCORP";
  }

  lemma SampleSpaced()
    ensures Spaced([TextLine(80.0, [Acme()], "ACME"), TextLine(90.0, [Corp()], "CORP")], LayoutGap) == ["ACME", "CORP"]
  {
    var t1 := TextLine(80.0, [Acme()], "ACME");
    var t2 := TextLine(90.0, [Corp()], "CORP");
    assert [t1, t2][..1] == [t1];
    assert Spaced([t1], LayoutGap) == ["ACME"];
  }

  function Acme(): Token { Token("ACME", 10.0, 75.0, 40.0, 85.0) }

  function Corp(): Token { Token("CORP", 50.0, 85.0, 80.0, 95.0) }

  lemma SampleLines()
    ensures LinesOf([Acme(), Corp()]) == [TextLine(80.0, [Acme()], "ACME"), TextLine(90.0, [Corp()], "CORP")]
  {
    SampleGrouped();
    SampleSorted();
    SampleFinishAll();
    SampleFilter();
  }

  lemma SampleSorted()
    ensures SortBy([LineAcc(80.0, [Acme()]), LineAcc(90.0, [Corp()])], ByCenter())
      == [LineAcc(80.0, [Acme()]), LineAcc(90.0, [Corp()])]
  {
    var l1 := LineAcc(80.0, [Acme()]);
    var l2 := LineAcc(90.0, [Corp()]);
    assert [l1, l2][1..] == [l2];
    assert SortBy([l2], ByCenter()) == [l2];
  }

  lemma SampleFinishAll()
    ensures MapSeq([LineAcc(80.0, [Acme()]), LineAcc(90.0, [Corp()])], Finish)
      == [TextLine(80.0, [Acme()], "ACME"), TextLine(90.0, [Corp()], "CORP")]
  {
    assert [LineAcc(80.0, [Acme()]), LineAcc(90.0, [Corp()])][..1] == [LineAcc(80.0, [Acme()])];
    SampleFinish();
  }

  lemma SampleFilter()
    ensures Filter([TextLine(80.0, [Acme()], "ACME"), TextLine(90.0, [Corp()], "CORP")], HasText)
      == [TextLine(80.0, [Acme()], "ACME"), TextLine(90.0, [Corp()], "CORP")]
  {
    var t1 := TextLine(80.0, [Acme()], "ACME");
    var t2 := TextLine(90.0, [Corp()], "CORP");
    assert [t1, t2][1..] == [t2];
    assert FilterEq([t2], HasText, true) == [t2];
  }

  lemma SampleGrouped()
    ensures Grouped([Acme(), Corp()]) == [LineAcc(80.0, [Acme()]), LineAcc(90.0, [Corp()])]
  {
    var l1 := LineAcc(80.0, [Acme()]);
    assert Grouped([Acme()]) == [l1] by {
      assert [Acme()][..0] == [];
    }
    assert [Acme(), Corp()][..1] == [Acme()];
    assert FirstNear([l1], 90.0, 0) == None;
  }

  lemma SampleFinish()
    ensures Finish(LineAcc(80.0, [Acme()])) == TextLine(80.0, [Acme()], "ACME")
    ensures Finish(LineAcc(90.0, [Corp()])) == TextLine(90.0, [Corp()], "CORP")
  {
    assert SortBy([Acme()], ByX0()) == [Acme()];
    assert SortBy([Corp()], ByX0()) == [Corp()];
    assert Strip("ACME") == "ACME" by {
      assert SkipSpaces("ACME", 0) == 0;
      assert SkipSpacesBack("ACME", 0, 4) == 4;
    }
    assert Strip("CORP") == "CORP" by {
      assert SkipSpaces("CORP", 0) == 0;
      assert SkipSpacesBack("CORP", 0, 4) == 4;
    }
  }
}
