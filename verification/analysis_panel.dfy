/**
 The tab state of the result panel
 (src/components/AnalysisPanel/AnalysisPanel.tsx:102-120): which list is on
 show, how a newly arrived analysis moves it, and what the two tab buttons do.
 */
module AnalysisPanel {
  import opened Types

  /** 'errors' | 'optimizations' */
  datatype Tab = ErrorsTab | OptimizationsTab

  /** `useState('errors')` */
  const InitialTab := ErrorsTab

  /** The list a tab shows. */
  function Shown(t: Tab, a: AnalysisResult): seq<Issue>
  {
    match t
    case ErrorsTab => a.errors
    case OptimizationsTab => a.optimizations
  }

  /** The effect run when the analysis changes: errors win, then optimizations;
      an empty result or no result leaves the tab where it was. */
  function OnAnalysis(active: Tab, analysis: Option<AnalysisResult>): (next: Tab)
    ensures analysis.Some? && analysis.value.errors != [] ==> next == ErrorsTab
    ensures analysis.Some? && analysis.value.errors == [] && analysis.value.optimizations != [] ==> next == OptimizationsTab
    ensures analysis.None? || TotalIssues(analysis.value) == 0 ==> next == active
  {
    match analysis
    case None => active
    case Some(a) =>
      if |a.errors| > 0 then ErrorsTab
      else if |a.optimizations| > 0 then OptimizationsTab
      else active
  }

  /** What can happen to the panel. */
  datatype PanelEvent = AnalysisChanged(analysis: Option<AnalysisResult>) | ErrorsClicked | OptimizationsClicked

  /** One event: the effect, or one of the two click handlers, which set their
      tab whatever the analysis holds. */
  function Step(active: Tab, e: PanelEvent): Tab
  {
    match e
    case AnalysisChanged(analysis) => OnAnalysis(active, analysis)
    case ErrorsClicked => ErrorsTab
    case OptimizationsClicked => OptimizationsTab
  }

  /** The active tab after a history of events, starting from the initial tab. */
  function Run(events: seq<PanelEvent>): Tab
    decreases |events|
  {
    if |events| == 0 then InitialTab else Step(Run(events[..|events| - 1]), events[|events| - 1])
  }

  /** A click always lands on the clicked tab. */
  lemma ClickSelects(events: seq<PanelEvent>)
    ensures Run(events + [ErrorsClicked]) == ErrorsTab
    ensures Run(events + [OptimizationsClicked]) == OptimizationsTab
  {
    assert (events + [ErrorsClicked])[..|events|] == events;
    assert (events + [OptimizationsClicked])[..|events|] == events;
  }

  /** Right after an analysis with at least one issue arrives, the tab on show
      is not empty. */
  lemma ArrivalShowsIssues(events: seq<PanelEvent>, a: AnalysisResult)
    requires TotalIssues(a) > 0
    ensures Shown(Run(events + [AnalysisChanged(Some(a))]), a) != []
  {
    assert (events + [AnalysisChanged(Some(a))])[..|events|] == events;
  }

  /** Re-running the effect with the same analysis changes nothing. */
  lemma OnAnalysisIdempotent(active: Tab, analysis: Option<AnalysisResult>)
    ensures OnAnalysis(OnAnalysis(active, analysis), analysis) == OnAnalysis(active, analysis)
  {
  }

  /** Until something with errors arrives or the other tab is clicked, the
      errors tab stays on show: a history of clicks on 'errors' and of
      analyses without optimizations leaves the initial tab in place. */
  lemma {:induction false} ErrorsTabPersists(events: seq<PanelEvent>)
    requires forall k :: 0 <= k < |events| ==>
      events[k].ErrorsClicked? || (events[k].AnalysisChanged? && (events[k].analysis.None? || events[k].analysis.value.optimizations == []))
    ensures Run(events) == ErrorsTab
    decreases |events|
  {
    if |events| > 0 {
      ErrorsTabPersists(events[..|events| - 1]);
    }
  }
}
