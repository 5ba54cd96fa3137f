/** Template selection: every template is scored against the whole document's text
    and the first template with the strictly greatest positive score wins
    (`find_best_template`, `_calculate_template_confidence`); `extract_bol_text`
    refuses a winner below the confidence threshold. */
module Matching {
  import opened Seqs
  import opened Chars
  import opened TextNormalizer
  import opened Templates

  /** `TemplateMatch`. */
  datatype Match = Match(templateName: string, confidence: real, template: Template)

  /** The document text every template is compared with: the page texts joined by
      one space, upper-cased. */
  function CombinedText(pageTexts: seq<string>): (r: string)
    ensures pageTexts == [] ==> r == []
    ensures forall i :: 0 <= i < |r| ==> !IsLower(r[i])
  {
    Upper(Join(pageTexts, " "))
  }

  /** `_calculate_template_confidence`: a template without a fingerprint
      (`template_raw_text`) scores 0. */
  function Confidence(sample: string, t: Template, ratio: (string, string) -> real): (r: real)
    requires IsRatio(ratio)
    ensures 0.0 <= r <= 1.0
    ensures t.rawText == [] ==> r == 0.0
  {
    if t.rawText == [] then 0.0 else Similarity(t.rawText, sample, ratio)
  }

  /** The templates' scores, in the order the template dictionary is iterated. */
  function Scores(sample: string, templates: seq<(string, Template)>, ratio: (string, string) -> real): (r: seq<real>)
    requires IsRatio(ratio)
    ensures |r| == |templates|
    ensures forall i :: 0 <= i < |r| ==> r[i] == Confidence(sample, templates[i].1, ratio)
  {
    if templates == [] then []
    else [Confidence(sample, templates[0].1, ratio)] + Scores(sample, templates[1..], ratio)
  }

  /** Index of the first strictly greatest positive score among `scores[..n]`:
      what a best-so-far scan starting from 0.0 with a strict `>` keeps. */
  function BestIndex(scores: seq<real>, n: nat): (r: Option<nat>)
    requires n <= |scores|
    ensures r.None? <==> forall j :: 0 <= j < n ==> scores[j] <= 0.0
    ensures r.Some? ==> r.value < n && scores[r.value] > 0.0
    ensures r.Some? ==> forall j :: 0 <= j < n ==> scores[j] <= scores[r.value]
    ensures r.Some? ==> forall j :: 0 <= j < r.value ==> scores[j] < scores[r.value]
  {
    if n == 0 then None
    else
      var b := BestIndex(scores, n - 1);
      var best := if b.Some? then scores[b.value] else 0.0;
      if scores[n - 1] > best then Some(n - 1) else b
  }

  /** The match a best-so-far scan over the first `n` templates holds. */
  function Chosen(templates: seq<(string, Template)>, scores: seq<real>, n: nat): (r: Option<Match>)
    requires n <= |scores| == |templates|
    ensures r.None? <==> forall j :: 0 <= j < n ==> scores[j] <= 0.0
    ensures r.Some? ==> r.value.confidence > 0.0 && forall j :: 0 <= j < n ==> scores[j] <= r.value.confidence
  {
    match BestIndex(scores, n)
    case None => None
    case Some(k) => Some(Match(templates[k].0, scores[k], templates[k].1))
  }

  /** `find_best_template`: the loop keeps the best match so far and replaces it
      only on a strictly greater confidence. */
  method FindBestTemplate(pageTexts: seq<string>, templates: seq<(string, Template)>, ratio: (string, string) -> real)
    returns (best: Option<Match>)
    requires IsRatio(ratio)
    ensures best == Chosen(templates, Scores(CombinedText(pageTexts), templates, ratio), |templates|)
  {
    var sample := CombinedText(pageTexts);
    ghost var scores := Scores(sample, templates, ratio);
    best := None;
    var bestConfidence := 0.0;
    for i := 0 to |templates|
      invariant best == Chosen(templates, scores, i)
      invariant bestConfidence == if best.Some? then best.value.confidence else 0.0
    {
      var confidence := Confidence(sample, templates[i].1, ratio);
      assert confidence == scores[i];
      if confidence > bestConfidence {
        bestConfidence := confidence;
        best := Some(Match(templates[i].0, confidence, templates[i].1));
      }
    }
  }

  /** The threshold gate of `extract_bol_text`: the match, if any, that extraction
      proceeds with. */
  function Accepted(best: Option<Match>, threshold: real): (r: Option<Match>)
    ensures r.Some? ==> best == r && r.value.confidence >= threshold
    ensures r.None? ==> best.None? || best.value.confidence < threshold
  {
    if best.None? || best.value.confidence < threshold then None else best
  }

  /** With a positive threshold, the document is refused exactly when every
      template scores below the threshold; otherwise the accepted template is the
      first with the greatest score. */
  lemma {:induction false} RefusedIffAllBelow(scores: seq<real>, threshold: real)
    requires threshold > 0.0
    ensures BestIndex(scores, |scores|).None? || scores[BestIndex(scores, |scores|).value] < threshold
      <==> forall j :: 0 <= j < |scores| ==> scores[j] < threshold
  {
    var b := BestIndex(scores, |scores|);
    if b.Some? && scores[b.value] < threshold {
      forall j | 0 <= j < |scores| ensures scores[j] < threshold {
        assert scores[j] <= scores[b.value];
      }
    }
  }

  /** Ties keep the template seen first. */
  lemma TieKeepsFirst(t1: Template, t2: Template, ratio: (string, string) -> real, sample: string)
    requires IsRatio(ratio)
    requires Confidence(sample, t1, ratio) == Confidence(sample, t2, ratio) > 0.0
    ensures var s := Scores(sample, [("first", t1), ("second", t2)], ratio);
      BestIndex(s, 2) == Some(0)
  {
  }
}
