/** The application shell: the view and breadcrumb cells, the analysing flag,
    and the two handlers that move a finished analysis into the history and
    onto the screen. */
module App {
  import opened Wrappers
  import opened Lists
  import opened Types
  import opened Store

  datatype View = Home | HistoryView | LibraryView | SettingsView | AnalysisResult

  /** Where the "back" link of the result screen leads, and its label. */
  datatype Breadcrumb = Breadcrumb(caption: string, view: View)

  /** The history keeps at most this many analyses. */
  const HistoryCap: nat := 100

  const InitialBreadcrumb := Breadcrumb("历史记录", HistoryView)

  /** `[result, ...prev].slice(0, 100)`: the newest analysis first, without a
      check for an identity already in the history. */
  function PrependCapped(history: seq<SemanticAnalysis>, result: SemanticAnalysis): (r: seq<SemanticAnalysis>)
    ensures |r| == if |history| < HistoryCap then |history| + 1 else HistoryCap
    ensures r[0] == result
    ensures r[1..] == history[..|r| - 1]
  {
    var r := Take([result] + history, HistoryCap);
    assert r[1..] == history[..|r| - 1];
    r
  }

  /** The history never grows past the cap. */
  lemma PrependKeepsCap(history: seq<SemanticAnalysis>, result: SemanticAnalysis)
    ensures |PrependCapped(history, result)| <= HistoryCap
  {
  }

  /** An analysis already in the history is recorded again: identities are not deduplicated. */
  lemma PrependDuplicates(result: SemanticAnalysis)
    ensures PrependCapped([result], result) == [result, result]
  {
    assert |PrependCapped([result], result)| == 2;
  }

  /** The elements of `s`, last first. */
  function Reverse<T>(s: seq<T>): (r: seq<T>)
    ensures |r| == |s|
    ensures forall k :: 0 <= k < |s| ==> r[k] == s[|s| - 1 - k]
  {
    if s == [] then [] else Reverse(s[1..]) + [s[0]]
  }

  /** Recording the results of `results`, oldest first. */
  function RecordAll(history: seq<SemanticAnalysis>, results: seq<SemanticAnalysis>): seq<SemanticAnalysis>
    decreases |results|
  {
    if results == [] then history
    else RecordAll(PrependCapped(history, results[0]), results[1..])
  }

  /** After any non-empty run of analyses (or none, from a capped history), the
      history is the newest `HistoryCap` of all results and earlier entries, newest first. */
  lemma {:induction false} RecordAllIsNewestFirst(history: seq<SemanticAnalysis>, results: seq<SemanticAnalysis>)
    requires results != [] || |history| <= HistoryCap
    ensures RecordAll(history, results) == Take(Reverse(results) + history, HistoryCap)
    decreases |results|
  {
    if results != [] {
      var r0, rest := results[0], results[1..];
      var next := PrependCapped(history, r0);
      assert next == Take([r0] + history, HistoryCap);
      RecordAllIsNewestFirst(next, rest);
      TakeOfTake(Reverse(rest), [r0] + history, HistoryCap);
      assert Reverse(results) == Reverse(rest) + [r0];
      assert Reverse(rest) + ([r0] + history) == Reverse(results) + history;
    }
  }

  /** Truncating a tail before appending it to a prefix changes nothing once the
      whole is truncated to the same length. */
  lemma TakeOfTake<T>(a: seq<T>, b: seq<T>, n: nat)
    ensures Take(a + Take(b, n), n) == Take(a + b, n)
  {
    var l, r := Take(a + Take(b, n), n), Take(a + b, n);
    assert |l| == |r|;
    forall k | 0 <= k < |l| ensures l[k] == r[k] {
      if k >= |a| {
        assert (a + Take(b, n))[k] == Take(b, n)[k - |a|];
      }
    }
  }

  /** The breadcrumb label for the view a record was opened from. */
  function BreadcrumbLabel(source: View): (caption: string)
    ensures source == Home <==> caption == "首页"
    ensures source == LibraryView <==> caption == "知识库"
    ensures source != Home && source != LibraryView <==> caption == "历史记录"
  {
    if source == Home then "首页"
    else if source == LibraryView then "知识库"
    else "历史记录"
  }

  /** The shell state around the shared workspace store. */
  class Shell {
    var currentView: View
    var isAnalyzing: bool
    var breadcrumb: Breadcrumb
    const store: WorkspaceStore

    constructor(store: WorkspaceStore)
      ensures this.store == store
      ensures currentView == Home && !isAnalyzing && breadcrumb == InitialBreadcrumb
    {
      this.store := store;
      currentView := Home;
      isAnalyzing := false;
      breadcrumb := InitialBreadcrumb;
    }

    /** `handleStartAnalysis` up to the awaited request. */
    method StartAnalysis()
      modifies this`isAnalyzing
      ensures isAnalyzing
    {
      isAnalyzing := true;
    }

    /** `handleStartAnalysis` after the request: `outcome` is the produced record,
        `None` when the request failed. */
    method CompleteAnalysis(outcome: Option<SemanticAnalysis>)
      modifies this`isAnalyzing, this`currentView, this`breadcrumb, store`history, store`currentAnalysis
      ensures !isAnalyzing
      ensures outcome.Some? ==>
                store.history == PrependCapped(old(store.history), outcome.value) &&
                store.currentAnalysis == outcome &&
                breadcrumb == Breadcrumb("首页", Home) && currentView == AnalysisResult
      ensures outcome.None? ==>
                store.history == old(store.history) && store.currentAnalysis == old(store.currentAnalysis) &&
                breadcrumb == old(breadcrumb) && currentView == old(currentView)
    {
      if outcome.Some? {
        store.history := PrependCapped(store.history, outcome.value);
        store.currentAnalysis := outcome;
        breadcrumb := Breadcrumb("首页", Home);
        currentView := AnalysisResult;
      }
      isAnalyzing := false;
    }

    /** `navigateToAnalysis`. */
    method NavigateToAnalysis(item: SemanticAnalysis, source: View)
      modifies this`breadcrumb, this`currentView, store`currentAnalysis
      ensures store.currentAnalysis == Some(item)
      ensures breadcrumb == Breadcrumb(BreadcrumbLabel(source), source)
      ensures currentView == AnalysisResult
    {
      store.currentAnalysis := Some(item);
      var caption := "历史记录";
      if source == Home {
        caption := "首页";
      } else if source == LibraryView {
        caption := "知识库";
      }
      breadcrumb := Breadcrumb(caption, source);
      currentView := AnalysisResult;
    }
  }
}
