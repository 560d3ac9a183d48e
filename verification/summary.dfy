/**
 The figures of the summary strip (src/components/Summary/Summary.tsx): the
 code-health score, the overall-quality label and the colour of the health
 bar, all derived from one analysis result.
 */
module Summary {
  import opened Types

  /** `getQualityScore`: 100 less 10 per issue, never below 0. */
  function QualityScore(a: AnalysisResult): (score: int)
    ensures 0 <= score <= 100
    ensures score == 100 <==> a.errors == [] && a.optimizations == []
    ensures TotalIssues(a) >= 10 ==> score == 0
    ensures TotalIssues(a) < 10 ==> score == 100 - 10 * TotalIssues(a)
  {
    var raw := 100 - TotalIssues(a) * 10;
    if 0 > raw then 0 else raw
  }

  /** Adding an issue to either list never raises the score, and lowers it by
      exactly 10 while it is still positive. */
  lemma {:induction false} ScoreMonotone(a: AnalysisResult, x: Issue)
    ensures QualityScore(a.(errors := a.errors + [x])) <= QualityScore(a)
    ensures QualityScore(a.(optimizations := a.optimizations + [x])) <= QualityScore(a)
    ensures QualityScore(a) > 0 ==> QualityScore(a.(errors := a.errors + [x])) == QualityScore(a) - 10
    ensures QualityScore(a) > 0 ==> QualityScore(a.(optimizations := a.optimizations + [x])) == QualityScore(a) - 10
  {
    assert TotalIssues(a.(errors := a.errors + [x])) == TotalIssues(a) + 1;
    assert TotalIssues(a.(optimizations := a.optimizations + [x])) == TotalIssues(a) + 1;
  }

  /** The overall-quality verdict. */
  datatype Quality = Excellent | Good | NeedsWork

  /** `getQualityLabel`: no issues at all, only optimizations, or some error. */
  function QualityLabel(a: AnalysisResult): (q: Quality)
    ensures q == Excellent <==> a.errors == [] && a.optimizations == []
    ensures q == Good <==> a.errors == [] && a.optimizations != []
    ensures q == NeedsWork <==> a.errors != []
  {
    if |a.errors| == 0 && |a.optimizations| == 0 then Excellent
    else if |a.errors| == 0 then Good
    else NeedsWork
  }

  /** The colour of the label text: green, yellow or red with the verdict. */
  function LabelColour(q: Quality): Colour
  {
    match q
    case Excellent => Green
    case Good => Yellow
    case NeedsWork => Red
  }

  /** The label's colour by what the analysis holds: green with no issue at
      all, yellow with optimizations only, red with any error. */
  lemma LabelColourByContent(a: AnalysisResult)
    ensures LabelColour(QualityLabel(a)) == Green <==> a.errors == [] && a.optimizations == []
    ensures LabelColour(QualityLabel(a)) == Yellow <==> a.errors == [] && a.optimizations != []
    ensures LabelColour(QualityLabel(a)) == Red <==> a.errors != []
  {
  }

  /** The label and the score agree: 'Excellent' exactly at a full score, and
      any other label costs at least 10 points. */
  lemma LabelAgreesWithScore(a: AnalysisResult)
    ensures QualityLabel(a) == Excellent <==> QualityScore(a) == 100
    ensures QualityLabel(a) != Excellent ==> QualityScore(a) <= 90
  {
  }

  /** The three colours the strip uses for the label and the health bar. */
  datatype Colour = Green | Yellow | Red

  /** The bar's class: green from 80 up, yellow from 60 up, red below. */
  function HealthBarColour(score: int): (c: Colour)
    ensures c == Green <==> score >= 80
    ensures c == Yellow <==> 60 <= score < 80
    ensures c == Red <==> score < 60
  {
    if score >= 80 then Green else if score >= 60 then Yellow else Red
  }

  /** In issue counts: green for at most two issues, yellow for three or four,
      red for five or more. */
  lemma BarColourByIssueCount(a: AnalysisResult)
    ensures HealthBarColour(QualityScore(a)) == Green <==> TotalIssues(a) <= 2
    ensures HealthBarColour(QualityScore(a)) == Yellow <==> 3 <= TotalIssues(a) <= 4
    ensures HealthBarColour(QualityScore(a)) == Red <==> TotalIssues(a) >= 5
  {
  }

  /** A green label always comes with a green bar, but the two colours are
      computed independently: a single error turns the label red while the
      bar is still green. */
  lemma LabelAndBarColours(a: AnalysisResult)
    ensures LabelColour(QualityLabel(a)) == Green ==> HealthBarColour(QualityScore(a)) == Green
    ensures |a.errors| == 1 && a.optimizations == [] ==>
      LabelColour(QualityLabel(a)) == Red && HealthBarColour(QualityScore(a)) == Green
  {
  }
}
