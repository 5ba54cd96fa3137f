/** `_post_process_text` and its helpers: the regular-expression rewrites applied
    to the text of every box, each written as a scan over the characters that
    makes the same choices as Python's `re.sub` (leftmost match, greedy
    repetition with backtracking, no overlapping matches). */
module PostProcess {
  import opened Seqs
  import opened Chars

  // ---------------------------------------------------------------------------
  // `_fix_spaced_words`: the pattern
  //   \b([A-Za-z])\s+([A-Za-z])\s+([A-Za-z]+(?:\s+[A-Za-z])*)\b
  // and a replacement that deletes every whitespace character of the match.

  /** The first index at or after `from` that is not an ASCII letter, or `|s|`. */
  function SkipLetters(s: string, from: nat): (k: nat)
    requires from <= |s|
    ensures from <= k <= |s|
    ensures forall i :: from <= i < k ==> IsAsciiLetter(s[i])
    ensures k < |s| ==> !IsAsciiLetter(s[k])
    decreases |s| - from
  {
    if from < |s| && IsAsciiLetter(s[from]) then SkipLetters(s, from + 1) else from
  }

  /** `\b` in front of the word character `s[i]`. */
  predicate BoundaryBefore(s: string, i: nat)
    requires i < |s|
  {
    i == 0 || !IsWordChar(s[i - 1])
  }

  /** The end of the repetition `(?:\s+[A-Za-z])*` followed by `\b`, starting at
      `e`, where `\b` already holds.  The repetition is greedy; when the last
      letter it took is followed by a word character, `\b` fails there and the
      match backs off to the previous end. */
  function ChainEnd(s: string, e: nat): (r: nat)
    requires e <= |s|
    ensures e <= r <= |s|
    decreases |s| - e
  {
    var a := SkipSpaces(s, e);
    if a > e && a < |s| && IsAsciiLetter(s[a]) then
      if a + 1 == |s| || !IsWordChar(s[a + 1]) then ChainEnd(s, a + 1) else e
    else e
  }

  /** The end of the match starting at `i`, if the pattern matches there. */
  function SpacedAt(s: string, i: nat): (r: Option<nat>)
    requires i < |s|
    ensures r.Some? ==> i < r.value <= |s|
  {
    if !IsAsciiLetter(s[i]) || !BoundaryBefore(s, i) then None
    else
      var a := SkipSpaces(s, i + 1);
      if a == i + 1 || a == |s| || !IsAsciiLetter(s[a]) then None
      else
        var b := SkipSpaces(s, a + 1);
        if b == a + 1 || b == |s| || !IsAsciiLetter(s[b]) then None
        else
          var c := SkipLetters(s, b);
          if c < |s| && IsWordChar(s[c]) then None else Some(ChainEnd(s, c))
  }

  /** `re.sub` from position `i` on: each match is replaced by its letters. */
  function FixSpacedFrom(s: string, i: nat): (r: string)
    requires i <= |s|
    ensures |r| <= |s| - i
    decreases |s| - i
  {
    if i == |s| then []
    else
      match SpacedAt(s, i)
      case Some(e) => Visible(s[i..e]) + FixSpacedFrom(s, e)
      case None => [s[i]] + FixSpacedFrom(s, i + 1)
  }

  /** `_fix_spaced_words`: never longer than its input (the characters it keeps
      are `FixSpacedKeepsVisible`). */
  function FixSpacedWords(text: string): (r: string)
    ensures |r| <= |text|
  {
    FixSpacedFrom(text, 0)
  }

  lemma {:induction false} VisibleTwice(s: string)
    ensures Visible(Visible(s)) == Visible(s)
  {
    if s != [] {
      VisibleTwice(s[1..]);
      VisibleAppend(if IsSpace(s[0]) then [] else [s[0]], Visible(s[1..]));
      if !IsSpace(s[0]) {
        assert [s[0]][1..] == [];
      }
    }
  }

  lemma {:induction false} VisibleFixSpacedFrom(s: string, i: nat)
    requires i <= |s|
    ensures Visible(FixSpacedFrom(s, i)) == Visible(s[i..])
    decreases |s| - i
  {
    if i < |s| {
      var m := SpacedAt(s, i);
      if m.Some? {
        VisibleFixSpacedFrom(s, m.value);
        SpacedMatchStep(s, i, m.value);
      } else {
        VisibleFixSpacedFrom(s, i + 1);
        SpacedPlainStep(s, i);
      }
    }
  }

  lemma SpacedMatchStep(s: string, i: nat, e: nat)
    requires i < e <= |s| && SpacedAt(s, i) == Some(e)
    requires Visible(FixSpacedFrom(s, e)) == Visible(s[e..])
    ensures Visible(FixSpacedFrom(s, i)) == Visible(s[i..])
  {
    SplitSuffix(s, i, e);
    VisibleGlue(s[i..e], s[e..], FixSpacedFrom(s, e));
    assert FixSpacedFrom(s, i) == Visible(s[i..e]) + FixSpacedFrom(s, e);
  }

  lemma SpacedPlainStep(s: string, i: nat)
    requires i < |s| && SpacedAt(s, i) == None
    requires Visible(FixSpacedFrom(s, i + 1)) == Visible(s[i + 1..])
    ensures Visible(FixSpacedFrom(s, i)) == Visible(s[i..])
  {
    SplitSuffix(s, i, i + 1);
    assert s[i..i + 1] == [s[i]];
    VisibleGlue([s[i]], s[i + 1..], FixSpacedFrom(s, i + 1));
    VisibleTwice([s[i]]);
    assert FixSpacedFrom(s, i) == [s[i]] + FixSpacedFrom(s, i + 1);
  }

  /** Replacing a part by its visible characters, and the rest by a text with the
      same visible characters, keeps the visible characters of the whole. */
  lemma VisibleGlue(a: string, b: string, fb: string)
    requires Visible(fb) == Visible(b)
    ensures Visible(Visible(a) + fb) == Visible(a + b)
    ensures |Visible(a)| <= |a|
  {
    VisibleAppend(a, b);
    VisibleAppend(Visible(a), fb);
    VisibleTwice(a);
  }

  /** Joining spaced-out letters only deletes whitespace: the other characters
      are kept, in order, and nothing is added. */
  lemma FixSpacedKeepsVisible(text: string)
    ensures Visible(FixSpacedWords(text)) == Visible(text)
    ensures |FixSpacedWords(text)| <= |text|
  {
    VisibleFixSpacedFrom(text, 0);
    assert text[0..] == text;
  }

  /** "H E L L O" becomes "HELLO". */
  lemma SpacedHello()
    ensures FixSpacedWords("H E L L O") == "HELLO"
  {
    HelloJoined("H E L L O");
  }

  lemma HelloJoined(s: string)
    requires s == "H E L L O"
    ensures FixSpacedWords(s) == "HELLO"
  {
    assert SkipSpaces(s, 2) == 2 && SkipSpaces(s, 1) == 2;
    assert SkipSpaces(s, 4) == 4 && SkipSpaces(s, 3) == 4;
    assert SkipLetters(s, 5) == 5 && SkipLetters(s, 4) == 5;
    assert SkipSpaces(s, 9) == 9 && ChainEnd(s, 9) == 9;
    assert SkipSpaces(s, 8) == 8 && SkipSpaces(s, 7) == 8 && ChainEnd(s, 7) == 9;
    assert SkipSpaces(s, 6) == 6 && SkipSpaces(s, 5) == 6 && ChainEnd(s, 5) == 9;
    assert SpacedAt(s, 0) == Some(9);
    assert FixSpacedFrom(s, 9) == [];
    assert s[0..9] == s;
    assert FixSpacedWords(s) == Visible(s);
    HelloVisible(s);
  }

  /** One step of `Visible` on a suffix. */
  lemma VisibleFrom(s: string, k: nat)
    requires k < |s|
    ensures Visible(s[k..]) == (if IsSpace(s[k]) then [] else [s[k]]) + Visible(s[k + 1..])
  {
    assert s[k..][1..] == s[k + 1..];
  }

  lemma HelloVisible(s: string)
    requires s == "H E L L O"
    ensures Visible(s) == "HELLO"
  {
    SpacedLettersVisible('H', 'E', 'L', 'L', 'O');
  }

  /** Five letters with single spaces between them show as the five letters. */
  lemma SpacedLettersVisible(a: char, b: char, c: char, d: char, e: char)
    requires !IsSpace(a) && !IsSpace(b) && !IsSpace(c) && !IsSpace(d) && !IsSpace(e)
    ensures Visible([a, ' ', b, ' ', c, ' ', d, ' ', e]) == [a, b, c, d, e]
  {
    var s1: string := [a];
    assert Visible([]) == [];
    VisibleSnocChar([], a);
    assert [] + [a] == s1;
    var s2 := s1 + [' '];
    VisibleSnocChar(s1, ' ');
    var s3 := s2 + [b];
    VisibleSnocChar(s2, b);
    var s4 := s3 + [' '];
    VisibleSnocChar(s3, ' ');
    var s5 := s4 + [c];
    VisibleSnocChar(s4, c);
    var s6 := s5 + [' '];
    VisibleSnocChar(s5, ' ');
    var s7 := s6 + [d];
    VisibleSnocChar(s6, d);
    var s8 := s7 + [' '];
    VisibleSnocChar(s7, ' ');
    VisibleSnocChar(s8, e);
    assert s8 + [e] == [a, ' ', b, ' ', c, ' ', d, ' ', e];
  }

  lemma VisibleSnocChar(p: string, x: char)
    ensures Visible(p + [x]) == Visible(p) + (if IsSpace(x) then [] else [x])
  {
    VisibleAppend(p, [x]);
    assert [x][1..] == [];
  }

  /** Two spaced letters are not enough: "A B" is left alone. */
  lemma SpacedTooShort()
    ensures FixSpacedWords("A B") == "A B"
  {
    var s := "A B";
    assert SkipSpaces(s, 1) == 2;
    assert SkipSpaces(s, 3) == 3;
    assert SpacedAt(s, 0) == None;
    assert SpacedAt(s, 1) == None;
    assert SpacedAt(s, 2) == None;
  }

  // ---------------------------------------------------------------------------
  // Adjacent-pair conditions on the output.

  /** No character satisfying `p` is directly followed by one satisfying `q`. */
  predicate NoPair(r: string, p: char -> bool, q: char -> bool) {
    forall i :: 0 <= i < |r| - 1 ==> PairOk(r, p, q, i)
  }

  predicate PairOk(r: string, p: char -> bool, q: char -> bool, i: nat)
    requires i < |r| - 1
  {
    !(p(r[i]) && q(r[i + 1]))
  }

  function Blank(): char -> bool { c => c == ' ' }

  function Newline(): char -> bool { c => c == '\n' }

  lemma NoPairSlice(r: string, p: char -> bool, q: char -> bool, a: nat, b: nat)
    requires NoPair(r, p, q) && a <= b <= |r|
    ensures NoPair(r[a..b], p, q)
  {
    forall i | 0 <= i < |r[a..b]| - 1 ensures PairOk(r[a..b], p, q, i) {
      assert PairOk(r, p, q, a + i);
      assert r[a..b][i] == r[a + i] && r[a..b][i + 1] == r[a + i + 1];
    }
  }

  // ---------------------------------------------------------------------------
  // `_normalize_whitespace`: ` {2,}` -> ' ', then `\n{3,}` -> '\n\n', then
  // ` +\n` -> '\n', then `strip()`.

  /** ` {2,}` -> ' ': a space right after a space is dropped. */
  function CollapseBlanks(s: string): (r: string)
    ensures |r| <= |s| && (r == [] <==> s == [])
    ensures r != [] ==> r[|r| - 1] == s[|s| - 1]
  {
    if s == [] then []
    else
      var n := |s|;
      CollapseBlanks(s[..n - 1]) + (if n >= 2 && s[n - 1] == ' ' && s[n - 2] == ' ' then [] else [s[n - 1]])
  }

  /** `s[k]` is a newline with two newlines right before it. */
  predicate ThirdNewline(s: string, k: nat)
    requires 2 <= k < |s|
  {
    s[k] == '\n' && s[k - 1] == '\n' && s[k - 2] == '\n'
  }

  /** `\n{3,}` -> '\n\n': a newline after two newlines is dropped. */
  function CapNewlines(s: string): (r: string)
    ensures |r| <= |s| && (r == [] <==> s == [])
    ensures r != [] ==> r[|r| - 1] == s[|s| - 1]
  {
    if s == [] then []
    else
      var n := |s|;
      CapNewlines(s[..n - 1])
        + (if n >= 3 && ThirdNewline(s, n - 1) then [] else [s[n - 1]])
  }

  lemma NoPairSnoc(r: string, x: char, p: char -> bool, q: char -> bool)
    requires NoPair(r, p, q) && (r != [] && p(r[|r| - 1]) ==> !q(x))
    ensures NoPair(r + [x], p, q)
  {
    forall k | 0 <= k < |r + [x]| - 1 ensures PairOk(r + [x], p, q, k) {
      assert (r + [x])[k] == r[k];
      if k + 1 < |r| {
        assert PairOk(r, p, q, k);
        assert (r + [x])[k + 1] == r[k + 1];
      }
    }
  }

  lemma {:induction false} CollapseNoDouble(s: string)
    ensures NoPair(CollapseBlanks(s), Blank(), Blank())
  {
    if s != [] {
      var n := |s|;
      CollapseNoDouble(s[..n - 1]);
      var r0 := CollapseBlanks(s[..n - 1]);
      if !(n >= 2 && s[n - 1] == ' ' && s[n - 2] == ' ') {
        if n >= 2 {
          assert s[..n - 1][n - 2] == s[n - 2];
        }
        NoPairSnoc(r0, s[n - 1], Blank(), Blank());
      } else {
        assert CollapseBlanks(s) == r0;
      }
    }
  }

  lemma {:induction false} CapKeepsNoDouble(s: string)
    requires NoPair(s, Blank(), Blank())
    ensures NoPair(CapNewlines(s), Blank(), Blank())
  {
    if s != [] {
      var n := |s|;
      var init := s[..n - 1];
      NoPairSlice(s, Blank(), Blank(), 0, n - 1);
      assert s[0..n - 1] == init;
      CapKeepsNoDouble(init);
      if !(n >= 3 && ThirdNewline(s, n - 1)) {
        if n >= 2 {
          assert init[n - 2] == s[n - 2];
          assert PairOk(s, Blank(), Blank(), n - 2);
        }
        NoPairSnoc(CapNewlines(init), s[n - 1], Blank(), Blank());
      } else {
        assert CapNewlines(s) == CapNewlines(init);
      }
    }
  }

  lemma {:induction false} VisibleSnoc(s: string)
    requires s != []
    ensures Visible(s) == Visible(s[..|s| - 1]) + (if IsSpace(s[|s| - 1]) then [] else [s[|s| - 1]])
  {
    var n := |s|;
    assert s == s[..n - 1] + [s[n - 1]];
    VisibleAppend(s[..n - 1], [s[n - 1]]);
    assert [s[n - 1]][1..] == [];
  }

  /** Appending the last character of `s` to `r0`, or dropping it when it is
      whitespace, keeps `Visible` in step with `s`. */
  lemma VisibleSnocStep(s: string, r0: string, keep: bool)
    requires s != [] && Visible(r0) == Visible(s[..|s| - 1])
    requires !keep ==> IsSpace(s[|s| - 1])
    ensures Visible(r0 + (if keep then [s[|s| - 1]] else [])) == Visible(s)
  {
    VisibleSnoc(s);
    var last := if keep then [s[|s| - 1]] else [];
    VisibleAppend(r0, last);
    if keep {
      assert last[1..] == [];
    }
  }

  lemma {:induction false} VisibleCollapseBlanks(s: string)
    ensures Visible(CollapseBlanks(s)) == Visible(s)
  {
    if s != [] {
      var n := |s|;
      VisibleCollapseBlanks(s[..n - 1]);
      VisibleSnocStep(s, CollapseBlanks(s[..n - 1]), !(n >= 2 && s[n - 1] == ' ' && s[n - 2] == ' '));
    }
  }

  lemma {:induction false} VisibleCapNewlines(s: string)
    ensures Visible(CapNewlines(s)) == Visible(s)
  {
    if s != [] {
      var n := |s|;
      VisibleCapNewlines(s[..n - 1]);
      VisibleSnocStep(s, CapNewlines(s[..n - 1]),
        !(n >= 3 && ThirdNewline(s, n - 1)));
    }
  }

  // ---------------------------------------------------------------------------
  // Deleting a run of `blank` characters that ends at a `target` character:
  // ` +\n` -> '\n' and `\s+([,;:.])` -> '\1'.  The leftmost match starts at
  // the first character of a run, and the greedy `+` takes the whole run, so a
  // run goes exactly when the character after it is a target.

  /** The first index at or after `from` whose character does not satisfy `p`, or `|s|`. */
  function SkipWhile(s: string, from: nat, p: char -> bool): (k: nat)
    requires from <= |s|
    ensures from <= k <= |s|
    ensures forall i :: from <= i < k ==> p(s[i])
    ensures k < |s| ==> !p(s[k])
    decreases |s| - from
  {
    if from < |s| && p(s[from]) then SkipWhile(s, from + 1, p) else from
  }

  /** `s[i]` belongs to a run of blanks that a target character follows. */
  predicate DroppedAt(s: string, i: nat, blank: char -> bool, target: char -> bool)
    requires i < |s|
  {
    blank(s[i]) && var j := SkipWhile(s, i, blank); j < |s| && target(s[j])
  }

  function DropRuns(s: string, i: nat, blank: char -> bool, target: char -> bool): (r: string)
    requires i <= |s|
    ensures |r| <= |s| - i
    ensures i < |s| && !DroppedAt(s, i, blank, target) ==> r != [] && r[0] == s[i]
    decreases |s| - i
  {
    if i == |s| then []
    else (if DroppedAt(s, i, blank, target) then [] else [s[i]]) + DropRuns(s, i + 1, blank, target)
  }

  lemma NoPairCons(x: char, r: string, p: char -> bool, q: char -> bool)
    requires NoPair(r, p, q) && (r != [] && p(x) ==> !q(r[0]))
    ensures NoPair([x] + r, p, q)
  {
    forall k | 0 <= k < |[x] + r| - 1 ensures PairOk([x] + r, p, q, k) {
      assert ([x] + r)[k + 1] == r[k];
      if k > 0 {
        assert PairOk(r, p, q, k - 1);
        assert ([x] + r)[k] == r[k - 1];
      }
    }
  }

  /** After the deletion no blank is directly followed by a target. */
  lemma {:induction false} DropLeavesNoBlankBeforeTarget(s: string, i: nat, blank: char -> bool, target: char -> bool)
    requires i <= |s|
    requires forall c :: target(c) ==> !blank(c)
    ensures NoPair(DropRuns(s, i, blank, target), blank, target)
    decreases |s| - i
  {
    if i < |s| {
      var rest := DropRuns(s, i + 1, blank, target);
      DropLeavesNoBlankBeforeTarget(s, i + 1, blank, target);
      if DroppedAt(s, i, blank, target) {
        assert DropRuns(s, i, blank, target) == rest;
      } else {
        if blank(s[i]) && i + 1 < |s| {
          if blank(s[i + 1]) {
            assert SkipWhile(s, i, blank) == SkipWhile(s, i + 1, blank);
          } else {
            assert SkipWhile(s, i, blank) == i + 1;
          }
          assert rest[0] == s[i + 1];
        }
        NoPairCons(s[i], rest, blank, target);
      }
    }
  }

  /** A character that is not `q`, hence not blank, survives at the head. */
  lemma KeptHead(s: string, i: nat, blank: char -> bool, target: char -> bool, q: char -> bool)
    requires i < |s| && !q(s[i])
    requires forall c :: blank(c) ==> q(c)
    ensures var r := DropRuns(s, i, blank, target); r != [] && !q(r[0])
  {
    assert !DroppedAt(s, i, blank, target);
  }

  /** A kept character puts no `p`, `q` pair in front of what follows it. */
  lemma KeptNoPair(s: string, i: nat, blank: char -> bool, target: char -> bool,
                   p: char -> bool, q: char -> bool)
    requires i < |s| && !DroppedAt(s, i, blank, target)
    requires NoPair(DropRuns(s, i + 1, blank, target), p, q)
    requires i + 1 < |s| ==> PairOk(s, p, q, i)
    requires forall c :: blank(c) ==> q(c)
    ensures NoPair(DropRuns(s, i, blank, target), p, q)
  {
    var rest := DropRuns(s, i + 1, blank, target);
    if i + 1 < |s| && p(s[i]) {
      KeptHead(s, i + 1, blank, target, q);
    }
    NoPairCons(s[i], rest, p, q);
  }

  /** One step of the deletion: a dropped character adds nothing, a kept one adds no pair. */
  lemma DropStep(s: string, i: nat, blank: char -> bool, target: char -> bool,
                 p: char -> bool, q: char -> bool)
    requires i < |s| && NoPair(s, p, q)
    requires NoPair(DropRuns(s, i + 1, blank, target), p, q)
    requires forall c :: blank(c) ==> q(c)
    ensures NoPair(DropRuns(s, i, blank, target), p, q)
  {
    if DroppedAt(s, i, blank, target) {
      assert DropRuns(s, i, blank, target) == DropRuns(s, i + 1, blank, target);
    } else {
      KeptNoPair(s, i, blank, target, p, q);
    }
  }

  /** The deletion keeps a text free of a pair `p`, `q` when every blank satisfies `q`. */
  lemma {:induction false} DropKeepsNoPair(s: string, i: nat, blank: char -> bool, target: char -> bool,
                                           p: char -> bool, q: char -> bool)
    requires i <= |s| && NoPair(s, p, q)
    requires forall c :: blank(c) ==> q(c)
    ensures NoPair(DropRuns(s, i, blank, target), p, q)
    decreases |s| - i
  {
    if i < |s| {
      var rest := DropRuns(s, i + 1, blank, target);
      DropKeepsNoPair(s, i + 1, blank, target, p, q);
      DropStep(s, i, blank, target, p, q);
    }
  }

  /** Only blanks are deleted: when blanks are whitespace the visible text stays. */
  lemma {:induction false} VisibleDropRuns(s: string, i: nat, blank: char -> bool, target: char -> bool)
    requires i <= |s|
    requires forall c :: blank(c) ==> IsSpace(c)
    ensures Visible(DropRuns(s, i, blank, target)) == Visible(s[i..])
    decreases |s| - i
  {
    if i < |s| {
      VisibleDropRuns(s, i + 1, blank, target);
      var h := if DroppedAt(s, i, blank, target) then [] else [s[i]];
      VisibleAppend(h, DropRuns(s, i + 1, blank, target));
      assert s[i..] == [s[i]] + s[i + 1..];
      VisibleAppend([s[i]], s[i + 1..]);
      assert [s[i]][1..] == [];
    }
  }

  /** `_normalize_whitespace`: the result has no whitespace at either end (the
      rest of its promise is `NormalizedWhitespace`). */
  function NormalizeWhitespace(text: string): (r: string)
    ensures r == [] || (!IsSpace(r[0]) && !IsSpace(r[|r| - 1]))
  {
    Strip(BeforeStrip(text))
  }

  /** The cleaned text has no two adjacent spaces, no space before a newline and
      no whitespace at either end; only whitespace was removed. */
  lemma NormalizedWhitespace(text: string)
    ensures var r := NormalizeWhitespace(text);
      NoPair(r, Blank(), Blank()) && NoPair(r, Blank(), Newline()) &&
      (r == [] || (!IsSpace(r[0]) && !IsSpace(r[|r| - 1]))) &&
      Visible(r) == Visible(text)
  {
    var c3 := BeforeStrip(text);
    NormalizedBeforeStrip(text);
    var a, b := StripBounds(c3);
    NoPairSlice(c3, Blank(), Blank(), a, b);
    NoPairSlice(c3, Blank(), Newline(), a, b);
    VisibleStrip(c3);
  }

  /** The three substitutions of `_normalize_whitespace`, before `strip()`. */
  function BeforeStrip(text: string): string {
    DropRuns(CapNewlines(CollapseBlanks(text)), 0, Blank(), Newline())
  }

  lemma NormalizedBeforeStrip(text: string)
    ensures var r := BeforeStrip(text);
      NoPair(r, Blank(), Blank()) && NoPair(r, Blank(), Newline()) && Visible(r) == Visible(text)
  {
    var c1 := CollapseBlanks(text);
    var c2 := CapNewlines(c1);
    CollapseNoDouble(text);
    CapKeepsNoDouble(c1);
    DropKeepsNoPair(c2, 0, Blank(), Newline(), Blank(), Blank());
    DropLeavesNoBlankBeforeTarget(c2, 0, Blank(), Newline());
    VisibleCollapseBlanks(text);
    VisibleCapNewlines(c1);
    VisibleDropRuns(c2, 0, Blank(), Newline());
    assert c2[0..] == c2;
  }

  /** A text without two adjacent spaces is left alone by the first step. */
  lemma {:induction false} CollapseLeavesClean(s: string)
    requires NoPair(s, Blank(), Blank())
    ensures CollapseBlanks(s) == s
  {
    if s != [] {
      var n := |s|;
      var init := s[..n - 1];
      if n >= 2 {
        assert PairOk(s, Blank(), Blank(), n - 2);
      }
      assert CollapseBlanks(s) == CollapseBlanks(init) + [s[n - 1]];
      NoPairSlice(s, Blank(), Blank(), 0, n - 1);
      assert s[0..n - 1] == init;
      CollapseLeavesClean(init);
      InitLast(s);
    }
  }

  /** A text with no blank from `i` on is left alone by the deletion. */
  lemma {:induction false} DropLeavesClean(s: string, i: nat, blank: char -> bool, target: char -> bool)
    requires i <= |s| && forall k :: i <= k < |s| ==> !blank(s[k])
    ensures DropRuns(s, i, blank, target) == s[i..]
    decreases |s| - i
  {
    if i < |s| {
      DropLeavesClean(s, i + 1, blank, target);
      assert s[i..] == [s[i]] + s[i + 1..];
    }
  }

  /** Cleaning twice is not cleaning once: trailing spaces are removed after the
      newline runs were capped, so new runs of three newlines can appear. */
  lemma NormalizeWhitespaceNotIdempotent()
    ensures var once := NormalizeWhitespace("a\n \n \nb");
      once == "a\n\n\nb" && NormalizeWhitespace(once) != once
  {
    SpacedNewlinesOnce();
    RunOfThreeChanges(NormalizeWhitespace("a\n \n \nb"));
  }

  lemma RunOfThreeChanges(s: string)
    requires s == "a\n\n\nb"
    ensures NormalizeWhitespace(s) != s
  {
    assert NoPair(s, Blank(), Blank()) by {
      forall i | 0 <= i < |s| - 1 ensures PairOk(s, Blank(), Blank(), i) {
      }
    }
    assert ThirdNewline(s, 3);
    NormalizeShrinksRun(s, 3);
  }

  lemma SpacedNewlinesOnce()
    ensures NormalizeWhitespace("a\n \n \nb") == "a\n\n\nb"
  {
    var s := "a\n \n \nb";
    assert NoPair(s, Blank(), Blank()) by {
      forall i | 0 <= i < |s| - 1 ensures PairOk(s, Blank(), Blank(), i) {
      }
    }
    CollapseLeavesClean(s);
    assert NoNewlineRun3(s);
    CapLeavesClean(s);
    DropSpaced();
    StripPlain();
  }

  lemma StripPlain()
    ensures Strip("a\n\n\nb") == "a\n\n\nb"
  {
    var r := "a\n\n\nb";
    assert SkipSpaces(r, 0) == 0;
    assert SkipSpacesBack(r, 0, 5) == 5;
    assert r[0..5] == r;
  }

  /** No newline with two newlines right before it. */
  predicate NoNewlineRun3(s: string) {
    forall k :: 2 <= k < |s| ==> !ThirdNewline(s, k)
  }

  lemma ThirdNewlinePrefix(s: string, m: nat, k: nat)
    requires 2 <= k < m <= |s|
    ensures ThirdNewline(s[..m], k) == ThirdNewline(s, k)
  {
  }

  /** A text without three newlines in a row is left alone by the second step. */
  lemma {:induction false} CapLeavesClean(s: string)
    requires NoNewlineRun3(s)
    ensures CapNewlines(s) == s
  {
    if s != [] {
      var n := |s|;
      var init := s[..n - 1];
      assert NoNewlineRun3(init) by {
        forall k | 2 <= k < |init| ensures !ThirdNewline(init, k) {
          ThirdNewlinePrefix(s, n - 1, k);
        }
      }
      if n >= 3 {
        assert !ThirdNewline(s, n - 1);
      }
      assert CapNewlines(s) == CapNewlines(init) + [s[n - 1]];
      CapLeavesClean(init);
      Seqs.InitLast(s);
    }
  }

  /** The second step ends a line run with at most what the input had: if its
      output ends in two newlines, so does its input. */
  lemma CapTail(s: string)
    requires |CapNewlines(s)| >= 2
    requires var r := CapNewlines(s); r[|r| - 1] == '\n' && r[|r| - 2] == '\n'
    ensures |s| >= 2 && s[|s| - 1] == '\n' && s[|s| - 2] == '\n'
  {
    var n := |s|;
    var init := s[..n - 1];
    if !(n >= 3 && ThirdNewline(s, n - 1)) {
      assert CapNewlines(s) == CapNewlines(init) + [s[n - 1]];
    }
  }

  /** After the second step no three newlines are left in a row. */
  lemma {:induction false} CapNoRun3(s: string)
    ensures NoNewlineRun3(CapNewlines(s))
  {
    if s != [] {
      var n := |s|;
      var init := s[..n - 1];
      CapNoRun3(init);
      var r0 := CapNewlines(init);
      if !(n >= 3 && ThirdNewline(s, n - 1)) {
        var r := CapNewlines(s);
        assert r == r0 + [s[n - 1]];
        if |r0| >= 2 && r0[|r0| - 1] == '\n' && r0[|r0| - 2] == '\n' {
          CapTail(init);
          assert s[n - 2] == init[n - 2] && s[n - 3] == init[n - 3];
        }
        forall k | 2 <= k < |r| ensures !ThirdNewline(r, k) {
          if k < |r| - 1 {
            assert ThirdNewline(r, k) == ThirdNewline(r0, k);
          }
        }
      } else {
        assert CapNewlines(s) == r0;
      }
    }
  }

  lemma DropSpaced()
    ensures DropRuns("a\n \n \nb", 0, Blank(), Newline()) == "a\n\n\nb"
  {
    var s := "a\n \n \nb";
    assert DropRuns(s, 7, Blank(), Newline()) == [];
    assert DropRuns(s, 6, Blank(), Newline()) == "b";
    assert DropRuns(s, 5, Blank(), Newline()) == "\nb";
    assert SkipWhile(s, 5, Blank()) == 5;
    assert SkipWhile(s, 4, Blank()) == 5;
    assert DropRuns(s, 4, Blank(), Newline()) == "\nb";
    assert DropRuns(s, 3, Blank(), Newline()) == "\n\nb";
    assert SkipWhile(s, 3, Blank()) == 3;
    assert SkipWhile(s, 2, Blank()) == 3;
    assert DropRuns(s, 2, Blank(), Newline()) == "\n\nb";
    assert DropRuns(s, 1, Blank(), Newline()) == "\n\n\nb";
  }

  /** Three newlines in a row cost the second step at least one character. */
  lemma {:induction false} CapShrinksRun(s: string, k: nat)
    requires 2 <= k < |s| && ThirdNewline(s, k)
    ensures |CapNewlines(s)| < |s|
  {
    var n := |s|;
    var init := s[..n - 1];
    if k < n - 1 {
      ThirdNewlinePrefix(s, n - 1, k);
      CapShrinksRun(init, k);
    }
  }

  /** A text without double spaces but with three newlines in a row gets shorter. */
  lemma NormalizeShrinksRun(s: string, k: nat)
    requires NoPair(s, Blank(), Blank())
    requires 2 <= k < |s| && ThirdNewline(s, k)
    ensures |NormalizeWhitespace(s)| < |s|
  {
    CollapseLeavesClean(s);
    CapShrinksRun(s, k);
    var c3 := BeforeStrip(s);
    var a, b := StripBounds(c3);
  }

  // ---------------------------------------------------------------------------
  // `_fix_punctuation`: `([,;:])([A-Za-z])` -> '\1 \2', then `\s+([,;:.])` -> '\1'.

  predicate IsSeparator(c: char) { c == ',' || c == ';' || c == ':' }

  function Space(): char -> bool { c => IsSpace(c) }

  function Stop(): char -> bool { c => IsSeparator(c) || c == '.' }

  /** A space goes between `,`, `;` or `:` and a letter right after it.  The
      letter a match consumes can never start the next match. */
  function SpaceAfterFrom(s: string, i: nat): string
    requires i <= |s|
    decreases |s| - i
  {
    if i == |s| then []
    else
      var sp: string := if IsSeparator(s[i]) && i + 1 < |s| && IsAsciiLetter(s[i + 1]) then " " else "";
      [s[i]] + sp + SpaceAfterFrom(s, i + 1)
  }

  /** `_fix_punctuation`: no `,`, `;` or `:` is left directly before a letter
      (the first substitution) and no whitespace directly before `,`, `;`, `:` or
      `.` (the second). */
  function FixPunctuation(text: string): (r: string)
    ensures NoPair(r, Separator(), Letter())
    ensures NoPair(r, Space(), Stop())
  {
    var a := SpaceAfterFrom(text, 0);
    SpaceAfterNoPair(text, 0);
    DropNoNewPair(a, 0, Space(), Stop(), Separator(), Letter());
    DropLeavesNoBlankBeforeTarget(a, 0, Space(), Stop());
    DropRuns(a, 0, Space(), Stop())
  }

  lemma {:induction false} VisibleSpaceAfter(s: string, i: nat)
    requires i <= |s|
    ensures Visible(SpaceAfterFrom(s, i)) == Visible(s[i..])
    decreases |s| - i
  {
    if i < |s| {
      VisibleSpaceAfter(s, i + 1);
      var sp: string := if IsSeparator(s[i]) && i + 1 < |s| && IsAsciiLetter(s[i + 1]) then " " else "";
      VisibleAppend([s[i]] + sp, SpaceAfterFrom(s, i + 1));
      VisibleAppend([s[i]], sp);
      assert Visible(sp) == [] by {
        if sp != [] {
          assert sp[1..] == [];
        }
      }
      assert s[i..] == [s[i]] + s[i + 1..];
      VisibleAppend([s[i]], s[i + 1..]);
    }
  }

  function Separator(): char -> bool { c => IsSeparator(c) }

  function Letter(): char -> bool { c => IsAsciiLetter(c) }

  lemma SpaceAfterHead(s: string, i: nat)
    requires i < |s|
    ensures SpaceAfterFrom(s, i) != [] && SpaceAfterFrom(s, i)[0] == s[i]
  {
  }

  /** One step of the first substitution keeps the output free of a `,`, `;` or
      `:` right before a letter. */
  lemma PrefixNoPair(x: char, sp: string, rest: string)
    requires NoPair(rest, Separator(), Letter())
    requires sp == [] || sp == " "
    requires sp == [] && IsSeparator(x) && rest != [] ==> !IsAsciiLetter(rest[0])
    ensures NoPair([x] + sp + rest, Separator(), Letter())
  {
    Seqs.AppendAssoc([x], sp, rest);
    if sp != [] {
      assert sp + rest == [' '] + rest;
      NoPairCons(' ', rest, Separator(), Letter());
    } else {
      assert sp + rest == rest;
    }
    NoPairCons(x, sp + rest, Separator(), Letter());
  }

  /** After the first substitution no `,`, `;` or `:` is directly followed by a
      letter. */
  lemma {:induction false} SpaceAfterNoPair(s: string, i: nat)
    requires i <= |s|
    ensures NoPair(SpaceAfterFrom(s, i), Separator(), Letter())
    decreases |s| - i
  {
    if i < |s| {
      SpaceAfterNoPair(s, i + 1);
      var rest := SpaceAfterFrom(s, i + 1);
      var sp: string := if IsSeparator(s[i]) && i + 1 < |s| && IsAsciiLetter(s[i + 1]) then " " else "";
      assert SpaceAfterFrom(s, i) == [s[i]] + sp + rest;
      if i + 1 < |s| {
        SpaceAfterHead(s, i + 1);
      }
      PrefixNoPair(s[i], sp, rest);
    }
  }

  /** A dropped blank is followed, in the output, by the target that ends its run. */
  lemma {:induction false} DroppedHead(s: string, i: nat, blank: char -> bool, target: char -> bool)
    requires i < |s| && DroppedAt(s, i, blank, target)
    requires forall c :: target(c) ==> !blank(c)
    ensures SkipWhile(s, i, blank) < |s|
    ensures DropRuns(s, i, blank, target) != []
    ensures DropRuns(s, i, blank, target)[0] == s[SkipWhile(s, i, blank)]
    decreases |s| - i
  {
    var j := SkipWhile(s, i, blank);
    assert DropRuns(s, i, blank, target) == DropRuns(s, i + 1, blank, target);
    if i + 1 < |s| && blank(s[i + 1]) {
      assert SkipWhile(s, i + 1, blank) == j;
      DroppedHead(s, i + 1, blank, target);
    } else {
      assert j == i + 1;
      assert !DroppedAt(s, i + 1, blank, target);
    }
  }

  /** Deleting blank runs creates no new `p`-`q` pair when a target is neither a
      blank nor a `q`. */
  lemma {:induction false} DropNoNewPair(s: string, i: nat, blank: char -> bool, target: char -> bool,
                                         p: char -> bool, q: char -> bool)
    requires i <= |s| && NoPair(s, p, q)
    requires forall c :: target(c) ==> !blank(c) && !q(c)
    ensures NoPair(DropRuns(s, i, blank, target), p, q)
    decreases |s| - i
  {
    if i < |s| {
      DropNoNewPair(s, i + 1, blank, target, p, q);
      var rest := DropRuns(s, i + 1, blank, target);
      if !DroppedAt(s, i, blank, target) {
        if rest != [] && p(s[i]) {
          if DroppedAt(s, i + 1, blank, target) {
            DroppedHead(s, i + 1, blank, target);
          } else {
            assert PairOk(s, p, q, i);
          }
        }
        NoPairCons(s[i], rest, p, q);
      } else {
        assert DropRuns(s, i, blank, target) == rest;
      }
    }
  }

  /** No `,`, `;` or `:` is left directly before a letter, no whitespace is left
      directly before `,`, `;`, `:` or `.`, and only whitespace was inserted or
      deleted. */
  lemma FixedPunctuation(text: string)
    ensures NoPair(FixPunctuation(text), Separator(), Letter())
    ensures NoPair(FixPunctuation(text), Space(), Stop())
    ensures Visible(FixPunctuation(text)) == Visible(text)
  {
    var a := SpaceAfterFrom(text, 0);
    VisibleDropRuns(a, 0, Space(), Stop());
    VisibleSpaceAfter(text, 0);
    assert a[0..] == a && text[0..] == text;
  }

  // ---------------------------------------------------------------------------
  // `_fix_ocr_errors`: six substitutions applied one after the other.  Four
  // rewrite a single character chosen by look-arounds, which read the text as it
  // was before the pass; two replace a standalone two-letter word.

  /** `\b` after the word character `s[i - 1]`. */
  predicate BoundaryAfter(s: string, i: nat)
    requires 0 < i <= |s|
  {
    i == |s| || !IsWordChar(s[i])
  }

  /** `\b0(?=[A-Za-z])`. */
  predicate LeadingZeroAt(s: string, i: nat)
    requires i < |s|
  {
    s[i] == '0' && BoundaryBefore(s, i) && i + 1 < |s| && IsAsciiLetter(s[i + 1])
  }

  /** `(?<=[A-Za-z])0\b`. */
  predicate TrailingZeroAt(s: string, i: nat)
    requires i < |s|
  {
    s[i] == '0' && i > 0 && IsAsciiLetter(s[i - 1]) && BoundaryAfter(s, i + 1)
  }

  /** `\bl(?=[0-9])`. */
  predicate EllBeforeDigitAt(s: string, i: nat)
    requires i < |s|
  {
    s[i] == 'l' && BoundaryBefore(s, i) && i + 1 < |s| && IsDigit(s[i + 1])
  }

  /** `(?<=[a-z])I(?=[a-z])`. */
  predicate CapitalIAt(s: string, i: nat)
    requires i < |s|
  {
    s[i] == 'I' && i > 0 && IsLower(s[i - 1]) && i + 1 < |s| && IsLower(s[i + 1])
  }

  function FixLeadingZero(s: string): (r: string)
    ensures |r| == |s|
  {
    seq(|s|, i requires 0 <= i < |s| => if LeadingZeroAt(s, i) then 'O' else s[i])
  }

  function FixTrailingZero(s: string): (r: string)
    ensures |r| == |s|
  {
    seq(|s|, i requires 0 <= i < |s| => if TrailingZeroAt(s, i) then 'O' else s[i])
  }

  function FixEllBeforeDigit(s: string): (r: string)
    ensures |r| == |s|
  {
    seq(|s|, i requires 0 <= i < |s| => if EllBeforeDigitAt(s, i) then '1' else s[i])
  }

  function FixCapitalI(s: string): (r: string)
    ensures |r| == |s|
  {
    seq(|s|, i requires 0 <= i < |s| => if CapitalIAt(s, i) then 'l' else s[i])
  }

  /** The standalone word `w` (a run of word characters) occurs at `i`. */
  predicate WordAt(s: string, i: nat, w: string)
    requires i < |s| && w != []
  {
    i + |w| <= |s| && s[i..i + |w|] == w && BoundaryBefore(s, i) && BoundaryAfter(s, i + |w|)
  }

  /** `re.sub(r'\b' + w + r'\b', [c], s)` from position `i` on. */
  function ReplaceWordFrom(s: string, i: nat, w: string, c: char): (r: string)
    requires i <= |s| && w != []
    ensures |r| <= |s| - i
    decreases |s| - i
  {
    if i == |s| then []
    else if WordAt(s, i, w) then [c] + ReplaceWordFrom(s, i + |w|, w, c)
    else [s[i]] + ReplaceWordFrom(s, i + 1, w, c)
  }

  /** `_fix_ocr_errors`, passes in the order the table lists them; each pass
      replaces one or two characters by one, so the text never grows. */
  function FixOcrErrors(text: string): (r: string)
    ensures |r| <= |text|
  {
    var t1 := FixLeadingZero(text);
    var t2 := FixTrailingZero(t1);
    var t3 := FixEllBeforeDigit(t2);
    var t4 := ReplaceWordFrom(t3, 0, "rn", 'm');
    var t5 := ReplaceWordFrom(t4, 0, "vv", 'w');
    FixCapitalI(t5)
  }

  /** After `\b0(?=[A-Za-z])` -> 'O' no match is left, so the pass is idempotent. */
  lemma LeadingZeroGone(s: string)
    ensures var r := FixLeadingZero(s); forall j :: 0 <= j < |r| ==> !LeadingZeroAt(r, j)
  {
    var r := FixLeadingZero(s);
    forall j | 0 <= j < |r| ensures !LeadingZeroAt(r, j) {
      assert r[j] == (if LeadingZeroAt(s, j) then 'O' else s[j]);
      if j > 0 {
        assert r[j - 1] == (if LeadingZeroAt(s, j - 1) then 'O' else s[j - 1]);
      }
      if j + 1 < |r| {
        assert r[j + 1] == (if LeadingZeroAt(s, j + 1) then 'O' else s[j + 1]);
      }
    }
  }

  /** After `(?<=[A-Za-z])0\b` -> 'O' no match is left. */
  lemma TrailingZeroGone(s: string)
    ensures var r := FixTrailingZero(s); forall j :: 0 <= j < |r| ==> !TrailingZeroAt(r, j)
  {
    var r := FixTrailingZero(s);
    forall j | 0 <= j < |r| ensures !TrailingZeroAt(r, j) {
      assert r[j] == (if TrailingZeroAt(s, j) then 'O' else s[j]);
      if j > 0 {
        assert r[j - 1] == (if TrailingZeroAt(s, j - 1) then 'O' else s[j - 1]);
      }
      if j + 1 < |r| {
        assert r[j + 1] == (if TrailingZeroAt(s, j + 1) then 'O' else s[j + 1]);
      }
    }
  }

  /** After `\bl(?=[0-9])` -> '1' no match is left. */
  lemma EllBeforeDigitGone(s: string)
    ensures var r := FixEllBeforeDigit(s); forall j :: 0 <= j < |r| ==> !EllBeforeDigitAt(r, j)
  {
    var r := FixEllBeforeDigit(s);
    forall j | 0 <= j < |r| ensures !EllBeforeDigitAt(r, j) {
      assert r[j] == (if EllBeforeDigitAt(s, j) then '1' else s[j]);
      if j > 0 {
        assert r[j - 1] == (if EllBeforeDigitAt(s, j - 1) then '1' else s[j - 1]);
      }
      if j + 1 < |r| {
        assert r[j + 1] == (if EllBeforeDigitAt(s, j + 1) then '1' else s[j + 1]);
      }
    }
  }

  /** After `(?<=[a-z])I(?=[a-z])` -> 'l' no match is left. */
  lemma CapitalIGone(s: string)
    ensures var r := FixCapitalI(s); forall j :: 0 <= j < |r| ==> !CapitalIAt(r, j)
  {
    var r := FixCapitalI(s);
    forall j | 0 <= j < |r| ensures !CapitalIAt(r, j) {
      assert r[j] == (if CapitalIAt(s, j) then 'l' else s[j]);
      if j > 0 {
        assert r[j - 1] == (if CapitalIAt(s, j - 1) then 'l' else s[j - 1]);
      }
      if j + 1 < |r| {
        assert r[j + 1] == (if CapitalIAt(s, j + 1) then 'l' else s[j + 1]);
      }
    }
  }

  /** Each single-character pass changes only the character its pattern names,
      into its replacement, and leaves a text without a match unchanged. */
  lemma CharPassesChangeOnlyMatches(s: string)
    ensures forall i :: 0 <= i < |s| && FixLeadingZero(s)[i] != s[i] ==> s[i] == '0' && FixLeadingZero(s)[i] == 'O'
    ensures forall i :: 0 <= i < |s| && FixTrailingZero(s)[i] != s[i] ==> s[i] == '0' && FixTrailingZero(s)[i] == 'O'
    ensures forall i :: 0 <= i < |s| && FixEllBeforeDigit(s)[i] != s[i] ==> s[i] == 'l' && FixEllBeforeDigit(s)[i] == '1'
    ensures forall i :: 0 <= i < |s| && FixCapitalI(s)[i] != s[i] ==> s[i] == 'I' && FixCapitalI(s)[i] == 'l'
    ensures (forall i :: 0 <= i < |s| ==> !LeadingZeroAt(s, i)) ==> FixLeadingZero(s) == s
    ensures (forall i :: 0 <= i < |s| ==> !TrailingZeroAt(s, i)) ==> FixTrailingZero(s) == s
    ensures (forall i :: 0 <= i < |s| ==> !EllBeforeDigitAt(s, i)) ==> FixEllBeforeDigit(s) == s
    ensures (forall i :: 0 <= i < |s| ==> !CapitalIAt(s, i)) ==> FixCapitalI(s) == s
  {
  }

  /** Running a single-character pass twice is the same as running it once. */
  lemma CharPassesIdempotent(s: string)
    ensures FixLeadingZero(FixLeadingZero(s)) == FixLeadingZero(s)
    ensures FixTrailingZero(FixTrailingZero(s)) == FixTrailingZero(s)
    ensures FixEllBeforeDigit(FixEllBeforeDigit(s)) == FixEllBeforeDigit(s)
    ensures FixCapitalI(FixCapitalI(s)) == FixCapitalI(s)
  {
    LeadingZeroGone(s);
    CharPassesChangeOnlyMatches(FixLeadingZero(s));
    TrailingZeroGone(s);
    CharPassesChangeOnlyMatches(FixTrailingZero(s));
    EllBeforeDigitGone(s);
    CharPassesChangeOnlyMatches(FixEllBeforeDigit(s));
    CapitalIGone(s);
    CharPassesChangeOnlyMatches(FixCapitalI(s));
  }

  /** A word pass over a text in which the word never stands alone changes nothing. */
  lemma {:induction false} ReplaceWordAbsent(s: string, i: nat, w: string, c: char)
    requires i <= |s| && w != []
    requires forall k :: i <= k < |s| ==> !WordAt(s, k, w)
    ensures ReplaceWordFrom(s, i, w, c) == s[i..]
    decreases |s| - i
  {
    if i < |s| {
      ReplaceWordAbsent(s, i + 1, w, c);
      assert s[i..] == [s[i]] + s[i + 1..];
    }
  }

  lemma CharPassExamples()
    ensures FixLeadingZero("0K") == "OK" && FixLeadingZero("10K") == "10K"
    ensures FixTrailingZero("N0") == "NO" && FixTrailingZero("N0X") == "N0X"
    ensures FixEllBeforeDigit("l5") == "15"
    ensures FixCapitalI("aIb") == "alb"
  {
    assert LeadingZeroAt("0K", 0);
    assert !LeadingZeroAt("10K", 1);
    assert TrailingZeroAt("N0", 1);
    assert !TrailingZeroAt("N0X", 1);
    assert EllBeforeDigitAt("l5", 0);
    assert CapitalIAt("aIb", 1);
  }

  lemma ReplaceRn()
    ensures ReplaceWordFrom("rn", 0, "rn", 'm') == "m"
  {
    assert WordAt("rn", 0, "rn");
    assert ReplaceWordFrom("rn", 2, "rn", 'm') == [];
  }

  lemma RnInsideWordKept()
    ensures ReplaceWordFrom("turn", 0, "rn", 'm') == "turn"
  {
    var s := "turn";
    assert !WordAt(s, 2, "rn");
    ReplaceWordAbsent(s, 0, "rn", 'm');
    assert s[0..] == s;
  }

  // ---------------------------------------------------------------------------
  // `_post_process_text`.

  /** The four fixes in order; the empty text is returned as it is. */
  function PostProcessText(text: string): (r: string)
    ensures text == [] ==> r == []
  {
    if text == [] then text
    else FixOcrErrors(FixPunctuation(NormalizeWhitespace(FixSpacedWords(text))))
  }

  /** Everything before the OCR pass only inserts or deletes whitespace. */
  lemma PostProcessKeepsVisible(text: string)
    ensures Visible(FixPunctuation(NormalizeWhitespace(FixSpacedWords(text)))) == Visible(text)
  {
    var t1 := FixSpacedWords(text);
    FixSpacedKeepsVisible(text);
    NormalizedWhitespace(t1);
    FixedPunctuation(NormalizeWhitespace(t1));
  }

  lemma VisibleStartsAtFirst(s: string)
    requires s != [] && !IsSpace(s[0])
    ensures Visible(s) != []
  {
  }

  /** A text of whitespace only comes out empty. */
  lemma PostProcessBlank(text: string)
    requires AllSpace(text)
    ensures PostProcessText(text) == []
  {
    if text != [] {
      var t1 := FixSpacedWords(text);
      var t2 := NormalizeWhitespace(t1);
      VisibleOfSpaces(text);
      FixSpacedKeepsVisible(text);
      NormalizedWhitespace(t1);
      if t2 != [] {
        VisibleStartsAtFirst(t2);
      }
      assert t2 == [];
      assert SpaceAfterFrom(t2, 0) == [];
      assert FixPunctuation(t2) == [];
      assert ReplaceWordFrom([], 0, "rn", 'm') == [];
      assert ReplaceWordFrom([], 0, "vv", 'w') == [];
    }
  }
}
