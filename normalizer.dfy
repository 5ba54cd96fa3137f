/** `TextNormalizer`: the canonical form page texts and template fingerprints are
    compared in, and the similarity score built on it. */
module TextNormalizer {
  import opened Seqs
  import opened Chars

  /** The characters the cleanup keeps: `\w`, `\s` and `- . , ( ) /`. */
  predicate IsKept(c: char) {
    IsWordChar(c) || IsSpace(c) || c in "-.,()/"
  }

  /** `re.sub(r'\s+', ' ', s)`: every maximal whitespace run becomes one space
      (written here where the run ends). */
  function CollapseSpace(s: string): (r: string)
    ensures s == [] <==> r == []
    ensures s != [] && !IsSpace(s[0]) ==> r[0] == s[0]
    ensures forall i :: 0 <= i < |r| && IsSpace(r[i]) ==> r[i] == ' '
  {
    if s == [] then []
    else if IsSpace(s[0]) && |s| > 1 && IsSpace(s[1]) then CollapseSpace(s[1..])
    else [if IsSpace(s[0]) then ' ' else s[0]] + CollapseSpace(s[1..])
  }

  /** `normalize_text`: upper-case, collapse whitespace, drop every character
      outside the kept class, strip. */
  function NormalizeText(text: string): (r: string)
    ensures text == [] ==> r == []
    ensures r == [] || (!IsSpace(r[0]) && !IsSpace(r[|r| - 1]))
  {
    if text == [] then []
    else Strip(Filter(CollapseSpace(Upper(text)), IsKept))
  }

  /** The normal form has no lower-case letter, no whitespace but the plain space
      (no tab, no newline), and only kept characters. */
  lemma NormalizedAlphabet(text: string, i: nat)
    requires i < |NormalizeText(text)|
    ensures var c := NormalizeText(text)[i];
      IsKept(c) && !IsLower(c) && (IsSpace(c) ==> c == ' ')
  {
    var u := Upper(text);
    var w := CollapseSpace(u);
    var k := Filter(w, IsKept);
    var c := NormalizeText(text)[i];
    StripFrom(k, i);
    FilterEqMembers(w, IsKept, true, c);
    var j :| 0 <= j < |w| && w[j] == c;
    if c != ' ' {
      CollapsedFrom(u, c);
      var m :| 0 <= m < |u| && u[m] == c;
    }
  }

  lemma StripFrom(s: string, i: nat)
    requires i < |Strip(s)|
    ensures Strip(s)[i] in s
  {
    var a, b := StripBounds(s);
    assert Strip(s)[i] == s[a + i];
  }

  /** Collapsing whitespace only introduces spaces: every other character of the
      result comes from the input. */
  lemma {:induction false} CollapsedFrom(s: string, c: char)
    requires c in CollapseSpace(s) && c != ' '
    ensures c in s
  {
    if c != s[0] {
      CollapsedFrom(s[1..], c);
    }
  }

  /** The non-whitespace characters of the normal form are exactly the upper-cased
      input's non-whitespace characters that the cleanup keeps, in their order. */
  lemma NormalizeKeepsVisible(text: string)
    ensures Visible(NormalizeText(text)) == Filter(Visible(Upper(text)), IsKept)
  {
    if text != [] {
      var w := CollapseSpace(Upper(text));
      VisibleStrip(Filter(w, IsKept));
      VisibleFilterKept(w);
      VisibleCollapse(Upper(text));
    }
  }

  lemma {:induction false} VisibleCollapse(s: string)
    ensures Visible(CollapseSpace(s)) == Visible(s)
  {
    if s != [] {
      VisibleCollapse(s[1..]);
      assert s == [s[0]] + s[1..];
      VisibleAppend([s[0]], s[1..]);
      if !(IsSpace(s[0]) && |s| > 1 && IsSpace(s[1])) {
        var h := if IsSpace(s[0]) then ' ' else s[0];
        VisibleAppend([h], CollapseSpace(s[1..]));
      }
    }
  }

  /** Dropping characters by class commutes with dropping whitespace. */
  lemma {:induction false} VisibleFilterKept(s: string)
    ensures Visible(Filter(s, IsKept)) == Filter(Visible(s), IsKept)
  {
    if s != [] {
      VisibleFilterKept(s[1..]);
      var h := if IsKept(s[0]) then [s[0]] else [];
      assert Filter(s, IsKept) == h + Filter(s[1..], IsKept);
      VisibleAppend(h, Filter(s[1..], IsKept));
      var v := if IsSpace(s[0]) then [] else [s[0]];
      assert Visible(s) == v + Visible(s[1..]);
      FilterEqAppend(v, Visible(s[1..]), IsKept, true);
    }
  }

  /** The normal form is not a fixed point: a deleted character between two spaces
      leaves two spaces behind, which a second pass collapses. */
  lemma NotIdempotent()
    ensures NormalizeText("a # b") == "A  B"
    ensures NormalizeText("A  B") == "A B"
  {
    FirstPass();
    SecondPass();
  }

  lemma FirstPass()
    ensures NormalizeText("a # b") == "A  B"
  {
    UpperSample();
    CollapseSample();
    FilterSample();
    StripSample("A  B");
  }

  lemma SecondPass()
    ensures NormalizeText("A  B") == "A B"
  {
    UpperSample();
    CollapseSample();
    FilterSample();
    StripSample("A B");
  }

  lemma UpperSample()
    ensures Upper("a # b") == "A # B"
    ensures Upper("A  B") == "A  B"
  {
    var u := Upper("a # b");
    assert u[0] == 'A' && u[1] == ' ' && u[2] == '#' && u[3] == ' ' && u[4] == 'B';
    var v := Upper("A  B");
    assert v[0] == 'A' && v[1] == ' ' && v[2] == ' ' && v[3] == 'B';
  }

  lemma CollapseSample()
    ensures CollapseSpace("A # B") == "A # B"
    ensures CollapseSpace("A  B") == "A B"
  {
    CollapseTail();
    assert "A # B"[1..] == " # B";
    assert "A  B"[1..] == "  B";
  }

  lemma CollapseTail()
    ensures CollapseSpace(" # B") == " # B"
    ensures CollapseSpace("  B") == " B"
  {
    assert CollapseSpace("B") == "B";
    assert CollapseSpace(" B") == " B";
    assert CollapseSpace("# B") == "# B";
  }

  lemma FilterSample()
    ensures Filter("A # B", IsKept) == "A  B"
    ensures Filter("A B", IsKept) == "A B"
  {
    assert !IsKept('#');
    assert FilterEq("B", IsKept, true) == "B";
    assert FilterEq(" B", IsKept, true) == " B";
    assert FilterEq("# B", IsKept, true) == " B";
    assert FilterEq(" # B", IsKept, true) == "  B";
    assert "A # B"[1..] == " # B";
    assert "A B"[1..] == " B";
  }

  lemma StripSample(s: string)
    requires s == "A  B" || s == "A B"
    ensures Strip(s) == s
  {
    assert SkipSpaces(s, 0) == 0;
    assert SkipSpacesBack(s, 0, |s|) == |s|;
  }

  /** The sequence matcher's ratio always lies in [0, 1]. */
  ghost predicate IsRatio(ratio: (string, string) -> real) {
    forall a: string, b: string :: 0.0 <= ratio(a, b) <= 1.0
  }

  /** `calculate_fuzzy_similarity`: the matcher's ratio of the two normal forms, or
      0.0 when either text is empty.  The ratio is a parameter with range [0, 1]. */
  function Similarity(phrase: string, pdfText: string, ratio: (string, string) -> real): (r: real)
    requires IsRatio(ratio)
    ensures 0.0 <= r <= 1.0
    ensures phrase == [] || pdfText == [] ==> r == 0.0
    ensures phrase != [] && pdfText != [] ==> r == ratio(NormalizeText(phrase), NormalizeText(pdfText))
  {
    if phrase == [] || pdfText == [] then 0.0
    else ratio(NormalizeText(phrase), NormalizeText(pdfText))
  }
}
