# Template-based document text extraction, modelled in Dafny

This project models the deterministic core of a template-driven extractor for
bills of lading. The core has two halves:

- **The extractor** (`template_extractor.py`).
  - It picks the stored template whose fingerprint text best matches the
    document, and refuses when the best confidence is under the threshold.
  - It maps every document page to a template page.
  - It assigns each word token to the first box whose rectangle contains the
    token's centre.
  - It renders each box by its kind:
    - general boxes as lines with blank-line breaks;
    - paragraphs the same way, with a different break threshold;
    - tables as a Markdown grid built from the box's cells.
  - It post-processes each box text with a fixed chain of rewrites.
  - It groups the tokens outside every box into blocks separated by vertical
    gaps.
  - It orders all blocks of a page by position and assembles the report.
- **The template creator** (`template_creator.py`).
  - It de-duplicates detected horizontal lines.
  - It builds the row-major cell grid of a table box from line segments.
  - It converts between screen and document coordinates.
  - It counts boxes and assembles the page-keyed map a template is saved with.

Each imperative routine of the source is a `method` with its loop(s). Its
`ensures` ties the result to a specification function. The properties the
source promises are lemmas about those functions. The creator's state is the
class `Creator.TemplateCreator`.

Modules, one per file:

| module | file |
|---|---|
| `Seqs` | `seqs.dfy`: filters, `Join`, a stable insertion sort `SortBy`, ascending sets of reals |
| `Chars` | `chars.dfy`: character classes, `upper()`, `strip()`, `str()` of a natural number |
| `Geometry` | `geometry.dfy`: tokens and rectangles |
| `TextNormalizer` | `normalizer.dfy` |
| `Templates` | `templates.dfy` |
| `Matching` | `matching.dfy` |
| `Zones` | `zones.dfy` |
| `Lines` | `lines.dfy` |
| `TableCells` | `tablecells.dfy`: token-to-cell assignment |
| `TableMarkdown` | `markdown.dfy` |
| `TableText` | `tabletext.dfy` |
| `PostProcess` | `postprocess.dfy` |
| `Composer` | `composer.dfy`: blocks, the page report, `extract_bol_text` |
| `Creator` | `creator.dfy` |

Some behaviours of the code that a reader might not expect, all modelled as
the code has them:

- **Line grouping uses an 8-unit tolerance on centres.** A word whose centre is
  10 from a line's centre starts a new line, so words at centre y=80 and y=90
  render as two lines, `ACME\nCORP`. See `Lines.TwoLinesTenApart`.
- **`normalize_text` is not idempotent.** Characters are deleted after
  whitespace is collapsed, so `"a # b"` becomes `"A  B"`, and normalising that
  gives `"A B"`. See `TextNormalizer.NotIdempotent`.
- **`dedup_lines` compares with the last kept line,** not with every kept line.
  See `Creator.Dedup`.
- **`dedup_lines` uses 5 units.** The comment above it
  (template_creator.py:615) says lines within 2px are duplicates, but the code
  drops a line only when it is within 5 of the last kept line. The model
  follows the code.
- **Two boxes with the same label both emit a block.** Each block carries the
  whole shared bucket.
- **A box labelled `_UNBOXED_` loses its tokens** as soon as some token fits no
  box: the unboxed list replaces that box's list (template_extractor.py:320-321).
  See `Zones.UnboxedLabelOverwritten`. The bucket lemmas of `Zones` therefore
  assume that no box carries that label.
- **A table cell whose row is below the open row joins the open row's line.**
  The renderer closes a row only when a cell's row exceeds both 0 and every
  row seen so far, since the running row starts at 0: cells of negative rows
  join row 0's line. See `TableMarkdown.OpenRowClosed` and `TableMarkdown.LowerRowJoinsOpenRow`.
  Grids built by the creator are numbered row by row, so for them each line is
  one row (`TableMarkdown.RenderRowsAreRows`).

## Model

| member | source | states |
|---|---|---|
| Chars.Upper | template_extractor.py:40 | `upper()`: same length; each character is mapped by `UpperChar`, which leaves no lower-case ASCII letter and preserves the word/space classes |
| Chars.Strip | template_extractor.py:49 | `strip()`: the result neither starts nor ends with whitespace, and it is empty exactly when the input is all whitespace |
| Chars.StripBounds | template_extractor.py:49 | the stripped text is a slice `s[a..b]` with only whitespace outside it |
| Chars.NatToString | template_extractor.py:147 | `str(n)`: a non-empty run of digits, with two or more digits exactly when n >= 10 |
| Chars.NatToStringInjective | template_creator.py:935 | distinct page numbers give distinct keys |
| TextNormalizer.CollapseSpace | template_extractor.py:43 | `re.sub(r'\s+', ' ')`: empty exactly when the input is empty; every whitespace left is a plain space |
| TextNormalizer.NormalizeText | template_extractor.py:34-49 | empty input gives `""`; the result has no leading or trailing whitespace |
| TextNormalizer.NormalizedAlphabet | template_extractor.py:40-49 | every character of the normalised text is a word character, a space or one of `- . , ( ) /`; none is a lower-case letter, a tab or a newline |
| TextNormalizer.NormalizeKeepsVisible | template_extractor.py:34-49 | the non-whitespace characters of the result are those of the upper-cased input, filtered to the kept alphabet, in order |
| TextNormalizer.NotIdempotent | template_extractor.py:43-46 | `"a # b"` normalises to `"A  B"`, and normalising that again gives `"A B"` |
| TextNormalizer.Similarity | template_extractor.py:52-64 | the score is in [0,1], it is 0.0 when either text is empty, and otherwise it is the ratio of the two normalised texts |
| Matching.CombinedText | template_extractor.py:241 | the page texts joined with spaces and upper-cased: no lower-case letter is left |
| Matching.Confidence | template_extractor.py:255-265 | in [0,1]; 0 for a template with an empty fingerprint |
| Matching.Scores | template_extractor.py:246-247 | one confidence per template, in template order |
| Matching.BestIndex | template_extractor.py:243-253 | none exactly when every score is <= 0; otherwise the index of a positive score that is >= every score and > every earlier score (the first maximum) |
| Matching.Chosen | template_extractor.py:243-253 | no match exactly when all confidences are <= 0; a match has positive confidence no smaller than any template's |
| Matching.FindBestTemplate | template_extractor.py:224-253 | the argmax loop with strict `>` returns the chosen match |
| Matching.Accepted | template_extractor.py:215 | a match is accepted only when its confidence is >= the threshold; otherwise it is refused |
| Matching.RefusedIffAllBelow | template_extractor.py:209-253 | for a positive threshold, the best match is refused exactly when every template scores below the threshold |
| Matching.TieKeepsFirst | template_extractor.py:249 | of two templates with equal positive confidence, the first is chosen |
| Templates.UnifiedPages | template_extractor.py:114-127 | a template without a `pages` dictionary becomes the single page `"1"` (its raw text and boxes) with 1 template page; otherwise the pages map is used as is and counted |
| Templates.PageBoxes | template_extractor.py:147-149 | the boxes of template page `str(min(p, total))` (none when that page is missing), as a permutation sorted by extraction order |
| Templates.EqualOrderKeepsTemplateOrder | template_extractor.py:149 | the sort is stable: boxes of equal `extraction_order` keep their template order |
| Templates.PageMapping | template_extractor.py:147 | pages up to the template length read their own page; every later page reads the last one |
| Templates.BoxesInExtractionOrder | template_extractor.py:149 | boxes come in ascending `extraction_order`, with a missing order counted as 999 |
| Zones.FirstBoxFrom | template_extractor.py:300-314 | the first box at or after `from` that captures the token, and none of the boxes before it captures it |
| Zones.FindBox | template_extractor.py:300-314 | the inner loop over the boxes finds the first capturing box |
| Zones.EmptyBuckets | template_extractor.py:292-294 | one empty bucket for each box label |
| Zones.SortTokens | template_extractor.py:297-317 | every token is appended to the bucket of its first capturing box, or to the unboxed list, in input order |
| Zones.AssignTextToBoxes | template_extractor.py:285-323 | the assignment map equals the specification `Assignments` |
| Zones.AssignedToFirstContainingBox | template_extractor.py:300-317 | when no box is labelled `_UNBOXED_`, each token is in the bucket of its first capturing box, or in `_UNBOXED_` |
| Zones.MalformedBoxGetsNothing | template_extractor.py:301-303 | a box with missing coordinates, or coordinates not of length 4, never receives a token |
| Zones.UnboxedBucket | template_extractor.py:316-321 | when no box is labelled `_UNBOXED_`, that key exists exactly when some token fits no box, and it holds those tokens in order |
| Zones.UnboxedLabelOverwritten | template_extractor.py:319-321 | when a box is labelled `_UNBOXED_` and some token fits no box, the unboxed list replaces that box's list, and a token that box took is in no bucket |
| Zones.EveryTokenInOneBucket | template_extractor.py:297-321 | when no box is labelled `_UNBOXED_`, the bucket sizes add up to the number of tokens: each token lands in exactly one bucket |
| Zones.OverlapGoesToFirstDeclared | template_extractor.py:300-314 | a token inside two overlapping boxes goes to the box declared first |
| Lines.FirstNear | template_extractor.py:624-631 | the first line whose centre is within 8 of the word's centre, and no earlier line is within 8 |
| Lines.FindLine | template_extractor.py:624-631 | the search loop finds that first near line |
| Lines.AverageCenter | template_extractor.py:628-629 | the recomputed centre is the mean of the words' centres |
| Lines.GroupLines | template_extractor.py:618-637 | the grouping loop builds the accumulated lines `Grouped(words)` |
| Lines.GroupedPartition | template_extractor.py:618-637 | grouping neither loses nor duplicates a word |
| Lines.Finish | template_extractor.py:641-643 | a finished line keeps its centre; its words are a permutation of the line's words sorted by `x0`; its text is stripped |
| Lines.FinishLines | template_extractor.py:641-643 | the loop finishes every line |
| Lines.GroupWordsIntoLines | template_extractor.py:613-645 | the method returns `LinesOf(words)` |
| Lines.LinesOrdered | template_extractor.py:640-645 | lines come in ascending centre order; each has non-empty text and words sorted by `x0` |
| Lines.EveryWordInOneLine | template_extractor.py:613-645 | the kept lines plus the dropped empty-text lines hold exactly the input words |
| Lines.CentersAreMeans | template_extractor.py:628-629 | each line's centre is the mean of its words' centres |
| Lines.LayoutLines | template_extractor.py:597-611 | the line texts are joined by newlines, with a blank line wherever the centre gap exceeds the threshold |
| Lines.ExtractParagraphFromWords | template_extractor.py:450-471 | layout with a paragraph break above 20 |
| Lines.ExtractWithLayoutDetection | template_extractor.py:588-611 | layout with a paragraph break above 25 |
| Lines.SpacedTexts | template_extractor.py:598-609 | dropping the blank entries gives back the line texts in order |
| Lines.SpacedBreaks | template_extractor.py:602-607 | the number of blank entries equals the number of consecutive pairs whose gap exceeds the threshold |
| Lines.SpacedPlaces | template_extractor.py:598-609 | line i sits at i plus the number of breaks up to i; the entry just above line i is blank exactly when the gap above line i exceeds the threshold; the layout has no other entries |
| Lines.TwoLinesTenApart | template_extractor.py:616-645 | words with centres 80 and 90 are laid out as `ACME\nCORP` |
| TableCells.Ordered | template_extractor.py:353 | the cells sorted by `cell_id` (stably), as a permutation |
| TableCells.FirstInside | template_extractor.py:375-381 | the first cell, in id order, whose rectangle widened by 2 contains the centre; no earlier cell does |
| TableCells.FindInside | template_extractor.py:375-381 | the first-pass search loop returns that cell |
| TableCells.Nearest | template_extractor.py:387-401 | a cell at minimal squared centre distance, strictly nearer than every earlier cell |
| TableCells.FindNearest | template_extractor.py:387-401 | the `min_distance` loop returns that nearest cell |
| TableCells.EmptyCells | template_extractor.py:361-367 | one empty element list per cell id |
| TableCells.FirstPassAssign | template_extractor.py:370-384 | inside tokens are appended to their cells in order; the others are returned, in order, as unassigned |
| TableCells.FallbackAssign | template_extractor.py:387-405 | each unassigned token is appended to its nearest cell |
| TableCells.AssignToCells | template_extractor.py:370-405 | each cell gets exactly the tokens whose chosen cell it is |
| TableCells.CellChoice | template_extractor.py:370-405 | the chosen cell is one of the cells; when some cell contains the centre it is the first such cell, otherwise the first nearest cell |
| TableCells.EveryTokenInOneCell | template_extractor.py:370-405 | with at least one cell, the cell sizes add up to the number of tokens |
| TableText.InitCells | template_extractor.py:361-367 | the info map has exactly the ordered cells' ids |
| TableText.MaxRow | template_extractor.py:357 | the largest row of the cells, attained by some cell |
| TableText.MaxCol | template_extractor.py:358 | the largest column of the cells, attained by some cell |
| TableText.SortedIds | template_extractor.py:425 | the distinct cell ids, strictly ascending |
| TableText.CellTextOf | template_extractor.py:409-413 | a cell's text is its words' lines joined by newlines |
| TableText.ExtractTableText | template_extractor.py:344-448 | the method returns `TableText`: layout extraction when there are no cells, otherwise the rendered grid |
| TableMarkdown.NewlinesToSpaces | template_extractor.py:427 | same length; newlines become spaces and nothing else changes |
| TableMarkdown.UnescapeEscapeBars | template_extractor.py:427 | escaping `|` as `\|` loses nothing: unescaping gives the text back |
| TableMarkdown.EscapeBarsEscaped | template_extractor.py:427 | every `|` of the escaped text is preceded by `\`, and escaping adds no newline |
| TableMarkdown.EscapeLineIsChain | template_extractor.py:427 | the one-pass escape equals the replace chain |
| TableMarkdown.CellDisplayForm | template_extractor.py:427 | a displayed cell has no newline, only escaped bars and no surrounding whitespace |
| TableMarkdown.Dashes | template_extractor.py:436 | `["---"] * width` |
| TableMarkdown.RenderMarkdown | template_extractor.py:420-447 | the row loop returns the rendered lines joined by newlines |
| TableMarkdown.RenderKeepsCells | template_extractor.py:420-445 | the rows hold every cell's text, in id order |
| TableMarkdown.OpenRowClosed | template_extractor.py:430-441 | cell i closes the open row into a line of its own exactly when i > 0 and its row exceeds both 0 and every row seen before (the running row starts at 0); otherwise it joins the open row |
| TableMarkdown.LowerRowJoinsOpenRow | template_extractor.py:430-441 | a cell of row 1 read after row 2 goes on row 2's line |
| TableMarkdown.RenderRowsAreRows | template_extractor.py:425-445 | for cells whose rows are non-negative and non-decreasing, there is one row line per distinct row, ascending, and line k holds the texts of the k-th row's cells in id order |
| TableMarkdown.RenderSeparator | template_extractor.py:430-436 | a separator of `max_col+1` dashes is the second line, and it appears exactly when `max_row > 0`, the first cell's row is at most 0, and some cell's row is above 0 |
| TableMarkdown.MaxRowSeen | template_extractor.py:430-439 | the running row is positive exactly when some cell lies on a later row |
| PostProcess.FixSpacedWords | template_extractor.py:669-679 | `_fix_spaced_words`: never longer than its input; `FixSpacedKeepsVisible` states that only whitespace is deleted, and `SpacedHello`/`SpacedTooShort` how the pattern matches |
| PostProcess.FixSpacedKeepsVisible | template_extractor.py:669-679 | `_fix_spaced_words` only deletes whitespace: the non-whitespace characters are unchanged and in order |
| PostProcess.SpacedHello | template_extractor.py:673-679 | `"H E L L O"` becomes `"HELLO"` |
| PostProcess.SpacedTooShort | template_extractor.py:673 | `"A B"`, only two spaced letters, is left alone |
| PostProcess.CollapseBlanks | template_extractor.py:684 | runs of spaces shrink; the result is empty exactly when the input is, and keeps its last character |
| PostProcess.CollapseNoDouble | template_extractor.py:684 | no two adjacent spaces remain |
| PostProcess.CapNewlines | template_extractor.py:687 | never longer than the input, empty exactly when the input is, and the last character is kept |
| PostProcess.CapNoRun3 | template_extractor.py:686-687 | after the pass no three newlines remain in a row: runs of 3 or more are cut to 2 |
| PostProcess.CapShrinksRun | template_extractor.py:687 | a run of three newlines is shortened |
| PostProcess.DropLeavesNoBlankBeforeTarget | template_extractor.py:690 | after deleting runs of spaces before a target, no space precedes a target |
| PostProcess.NormalizeWhitespace | template_extractor.py:681-692 | `_normalize_whitespace`: the three substitutions then `strip()`; no whitespace at either end, the rest of the promise in `NormalizedWhitespace` |
| PostProcess.NormalizedWhitespace | template_extractor.py:681-692 | no two adjacent spaces, no space before a newline, no whitespace at either end, and only whitespace removed |
| PostProcess.NormalizeWhitespaceNotIdempotent | template_extractor.py:684-692 | `"a\n \n \nb"` gives `"a\n\n\nb"`, which a second pass changes |
| PostProcess.FixedPunctuation | template_extractor.py:694-702 | no `, ; :` directly before a letter, no whitespace right before `, ; : .`, and only whitespace inserted or removed |
| PostProcess.FixPunctuation | template_extractor.py:694-702 | `_fix_punctuation`: no `, ; :` is left directly before a letter (the first substitution cannot be undone by the second, which only deletes whitespace followed by a stop), and no whitespace is left before `, ; : .`; `FixedPunctuation` adds that only whitespace changes |
| PostProcess.FixOcrErrors | template_extractor.py:704-721 | `_fix_ocr_errors`: the six substitutions in dictionary order; the text never grows; each pass is stated by the `...Gone`, `CharPasses...` and `Rn...` lemmas |
| PostProcess.FixLeadingZero | template_extractor.py:708 | same length |
| PostProcess.LeadingZeroGone | template_extractor.py:708 | no word-initial `0` before a letter remains |
| PostProcess.TrailingZeroGone | template_extractor.py:709 | no word-final `0` after a letter remains |
| PostProcess.EllBeforeDigitGone | template_extractor.py:710 | no word-initial `l` before a digit remains |
| PostProcess.CapitalIGone | template_extractor.py:715 | no `I` between lower-case letters remains |
| PostProcess.CharPassesChangeOnlyMatches | template_extractor.py:708-715 | each one-character pass changes only the characters it targets, and into its replacement |
| PostProcess.CharPassesIdempotent | template_extractor.py:708-715 | each one-character pass is idempotent |
| PostProcess.CharPassExamples | template_extractor.py:708-715 | `0K`→`OK`, `10K` unchanged, `N0`→`NO`, `l5`→`15`, `aIb`→`alb` |
| PostProcess.ReplaceWordAbsent | template_extractor.py:713-714 | the `rn`/`vv` pass changes nothing where the word does not occur |
| PostProcess.ReplaceRn | template_extractor.py:713 | the stand-alone word `rn` becomes `m` |
| PostProcess.RnInsideWordKept | template_extractor.py:713 | `rn` inside `turn` is kept |
| PostProcess.PostProcessKeepsVisible | template_extractor.py:653-659 | the passes before the OCR fixes change only whitespace |
| PostProcess.PostProcessText | template_extractor.py:647-667 | `_post_process_text`: the empty text is returned unchanged, otherwise the four fixes in order; `PostProcessKeepsVisible` and `PostProcessBlank` state what the chain keeps |
| PostProcess.PostProcessBlank | template_extractor.py:647-667 | an all-whitespace text post-processes to `""` |
| Composer.Runs | template_extractor.py:544-561 | the sorted elements split into runs; there are runs exactly when there are elements |
| Composer.RunsFlatten | template_extractor.py:544-561 | concatenating the runs gives back the sorted elements |
| Composer.RunsHaveShape | template_extractor.py:545-561 | runs are non-empty; consecutive elements of a run are at most 20 apart; each run starts more than 20 below the previous run's last element |
| Composer.MinOf | template_extractor.py:554-555 | the minimum of a run: no greater than any element, and attained |
| Composer.GroupUnboxedIntoBlocks | template_extractor.py:531-573 | the accumulator loop returns `UnboxedBlocks(elements)` |
| Composer.UnboxedGrouping | template_extractor.py:537-561 | the elements are sorted by `(y0, x0)` as a permutation; the runs cover them exactly and have the run shape |
| Composer.UnboxedBlockKept | template_extractor.py:549-571 | every block has non-blank content and no label, and it comes from one run, anchored at the run's minimum `y0` and `x0` |
| Composer.ProcessBoxElements | template_extractor.py:325-342 | the box text is chosen by the box kind |
| Composer.BoxTextFallbacks | template_extractor.py:327-350 | no elements give `""`; a table box without cells is read like a general box |
| Composer.BoxBlocksPerFilledBox | template_extractor.py:161-179 | one block for each box, in box order, whose bucket exists and is non-empty |
| Composer.CollectBoxBlocks | template_extractor.py:161-179 | the box loop returns those blocks |
| Composer.PageBlocks | template_extractor.py:158-196 | the page's blocks are sorted by `(y_pos, x_pos)` |
| Composer.ComposePage | template_extractor.py:155-196 | the method returns `PageBlocks` |
| Composer.PageBlocksStable | template_extractor.py:196 | the sort is a permutation of box blocks followed by unboxed blocks; among blocks at equal positions, box blocks stay ahead in their order |
| Composer.BoxBlocksLabelled | template_extractor.py:173-179 | box blocks carry their label |
| Composer.UnboxedOnlyWhenIncluded | template_extractor.py:182-193 | an unlabelled block appears only when unboxed content is included, and its content is non-blank |
| Composer.PageSection | template_extractor.py:138-201 | the page separator, then each block's content followed by a blank line |
| Composer.AppendPage | template_extractor.py:138-201 | appending a page adds exactly its section |
| Composer.ExtractWithTemplate | template_extractor.py:101-204 | the page loop returns `Report(t, doc)`: the header and then one section per document page, joined by newlines |
| Composer.ReportOpens | template_extractor.py:130-204 | the report starts with the results heading and the template-name line |
| Composer.ExtractBolText | template_extractor.py:209-219 | the method returns `BolText`: the best match is accepted or refused by the threshold |
| Composer.RefusedIffError | template_extractor.py:215-219 | the output is an `ERROR:` string exactly when there is no match or its confidence is below the threshold |
| Composer.RefusalIsError | template_extractor.py:216 | a refusal starts with `ERROR:` |
| Composer.ReportIsNoError | template_extractor.py:130-135 | a report never starts with `ERROR:` |
| Creator.Dedup | template_creator.py:618-621 | no more lines than the input, and a non-empty input keeps at least one line |
| Creator.DedupLines | template_creator.py:616-622 | the loop returns `Dedup` of the lines sorted by `y0` |
| Creator.DedupKeepsFirst | template_creator.py:619-621 | the first sorted line is always kept |
| Creator.DedupSpaced | template_creator.py:620 | consecutive kept lines differ in `y0` by more than 5 |
| Creator.DedupAscending | template_creator.py:617-621 | kept lines are in ascending `y0`, each more than 5 above the next |
| Creator.DedupSubsequence | template_creator.py:617-621 | the kept lines are a subsequence of the sorted input |
| Creator.DedupCovers | template_creator.py:619-621 | every dropped line is within 5 of a kept line |
| Creator.ScreenToPdf | template_creator.py:830-838 | for a positive scale the result is normalised (x0 <= x1, y0 <= y1) |
| Creator.PdfToScreen | template_creator.py:840-849 | for a positive scale a normalised rectangle stays normalised |
| Creator.ScreenRoundTrip | template_creator.py:830-849 | converting to document coordinates and back gives the normalised screen rectangle, and the same rectangle when it was already ordered |
| Creator.PdfRoundTrip | template_creator.py:830-849 | for a positive scale, converting a normalised document rectangle to the screen and back is the identity |
| Creator.HPositions | template_creator.py:707-714 | the row boundaries are strictly ascending |
| Creator.HPositionsMembers | template_creator.py:710-714 | the row boundaries are exactly the horizontal lines' midpoints |
| Creator.AddLineBand | template_creator.py:725-730 | one vertical line changes only the bands it spans, each by adding its midpoint |
| Creator.SegmentsBand | template_creator.py:719-730 | a band records position x exactly when some vertical line with midpoint x reaches within 5 of both band edges |
| Creator.RowCells | template_creator.py:740-763 | one cell for a band with fewer than two verticals, otherwise one per gap between verticals |
| Creator.GridIsRowMajor | template_creator.py:732-765 | the emitted cells have the grid shape (see `Creator.TableCellsGrid`) |
| Creator.TableCellsGrid | template_creator.py:706-765 | no cells when there are fewer than two row boundaries; otherwise the cells run row-major with ids 0,1,2,..., rows span consecutive boundaries, a band with fewer than two verticals has one full-width cell, and column j spans verticals j..j+1; each row ends on its last column and the next starts at column 0 |
| Creator.CellsNonDegenerate | template_creator.py:735-763 | every cell has positive height, and a cell between verticals has positive width |
| Creator.TotalBoxesZero | template_creator.py:899-926 | the count is zero exactly when no page has a box (the `no_boxes` template type) |
| Creator.TotalBoxesPermutation | template_creator.py:880-881 | the count does not depend on the order the pages are visited |
| Creator.Lookup | template_creator.py:934 | a page is found exactly when `pages_data` has an entry for it |
| Creator.SavedPagesKeys | template_creator.py:933-938 | the saved map has exactly the keys `"1".."total_pages"`; page p is under `str(p)`; a page missing from `pages_data` is saved with empty text and no boxes |
| Creator.SavedTemplateRead | template_creator.py:923-938 | the extractor reads a saved template as `total_pages` pages, and document page p gets the boxes drawn on page min(p, total), in extraction order |
| Creator.TemplateCreator.GenerateTableCells | template_creator.py:706-765 | the method returns `TableCells` of the detected lines |
| Creator.TemplateCreator.CollectRowBoundaries | template_creator.py:707-714 | the loop returns the sorted midpoint set |
| Creator.TemplateCreator.CollectSegments | template_creator.py:719-730 | the loop fills `vertical_segments` as `Segments` |
| Creator.AddToBands | template_creator.py:725-730 | the inner loop adds one line's midpoint to every band it spans |
| Creator.EmitCells | template_creator.py:732-765 | the row loop emits the grid with running ids |
| Creator.EmitRow | template_creator.py:735-763 | one band's cells are appended, numbered from the current count |
| Creator.TemplateCreator.GetTotalBoxCount | template_creator.py:877-882 | the sum of the pages' box-list lengths |
| Creator.TemplateCreator.SaveTemplate | template_creator.py:884-938 | nothing without document text or a name; otherwise the template record with the page map |

## Left out

- **UI and dialogs.** All tkinter UI is left out: drawing, mouse handlers, page navigation and dialogs. This includes the no-boxes confirmation in `save_template` (template_creator.py:902-920). `Creator.TemplateCreator.SaveTemplate` assumes the user confirms, and takes the template name as a parameter.
- **Image processing.** OpenCV/PIL line detection is left out. The detected horizontal and vertical lines are fields of `Creator.TemplateCreator`.
- **PDF reading.** PyMuPDF is left out. The page texts and each page's word tokens are inputs, and so is the `:.2f` rendering of the confidence, as the `show` parameter.
- **Fuzzy matching.** The internals of `difflib.SequenceMatcher.ratio` are left out. It is a parameter whose values lie in [0,1].
- **Files and exceptions.**
  - Loading, saving and parsing JSON are left out; templates are values.
  - The `try/except` blocks that turn exceptions into `ERROR:` strings are left out. This includes a division by a zero scale factor: `Creator.ScreenToPdf` requires a non-zero scale.
- **Dead code.** `_normalize_case`, `_merge_content_by_reading_order`, `_process_unboxed_elements` and `_extract_paragraph_text` are not called by the live pipeline.
- **Boxes labelled `_UNBOXED_`.** `Zones.AssignedToFirstContainingBox`, `Zones.UnboxedBucket` and `Zones.EveryTokenInOneBucket` hold only when no box carries that label; with such a box the code overwrites its list (`Zones.UnboxedLabelOverwritten`).
- **The token's `box_assignment` field.** It is written by `_assign_text_to_boxes` but never read, so it is left out.
- **Character classes.**
  - Character classes and `upper()` are ASCII only.
  - `\w`, `\s` and `\b` do not cover Unicode letters.
  - No case mapping applies beyond `a`-`z`.
- **Floats.** Coordinates are exact reals, so float rounding is not modelled. The nearest-cell search compares squared distances instead of their square roots.
- **Dictionaries.**
  - Dictionaries iterated in insertion order are sequences of entries.
  - Python sets of floats are ascending lists of distinct reals.
  - `pages_data` is a list of entries. `Creator.TotalBoxesPermutation` shows that the visiting order does not matter.
- **The scale factor.** `scale_factor` is a parameter of the coordinate conversions, not a field.
- **Malformed JSON values.** Only values that are absent or of the wrong length are modelled, such as coordinates of the wrong length and a missing `extraction_order` or label. Wrongly typed JSON values are not.
