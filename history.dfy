/** The history list screen: its search filter and the clear button. */
module History {
  import opened Lists
  import opened Strings
  import opened Types
  import opened Store

  /** An entry is shown when the lower-cased search occurs in the lower-cased
      term, English core meaning or part of speech. */
  predicate HistoryMatches(search: string, item: SemanticAnalysis) {
    var q := ToLower(search);
    Includes(ToLower(item.term), q) || Includes(ToLower(item.semanticCore.en), q) ||
    Includes(ToLower(item.partOfSpeech), q)
  }

  function Matcher(search: string): SemanticAnalysis -> bool {
    item => HistoryMatches(search, item)
  }

  /** `filteredItems`. */
  function FilteredHistory(history: seq<SemanticAnalysis>, search: string): (r: seq<SemanticAnalysis>)
    ensures forall x :: x in r <==> x in history && HistoryMatches(search, x)
    ensures search == "" ==> r == history
    ensures multiset(r) <= multiset(history)
    ensures forall x :: HistoryMatches(search, x) ==> multiset(r)[x] == multiset(history)[x]
  {
    var r := Filter(history, Matcher(search));
    assert forall x :: x !in r ==> multiset(r)[x] == 0;
    r
  }

  /** The shown entries are in history order. */
  lemma FilteredHistoryKeepsOrder(history: seq<SemanticAnalysis>, search: string)
    ensures Subsequence(FilteredHistory(history, search), history)
  {
    FilterIsSubsequence(history, Matcher(search));
  }

  /** Only the three text fields decide: type, tags and every other field are ignored. */
  lemma HistoryFilterReadsTextOnly(a: SemanticAnalysis, b: SemanticAnalysis, search: string)
    requires a.term == b.term && a.semanticCore.en == b.semanticCore.en && a.partOfSpeech == b.partOfSpeech
    ensures HistoryMatches(search, a) == HistoryMatches(search, b)
  {
  }

  /** A search that occurs in a term finds that entry, in every letter case of the search. */
  lemma {:induction false} SearchFindsTerm(item: SemanticAnalysis, search: string, i: nat)
    requires OccursAt(ToLower(item.term), ToLower(search), i)
    ensures HistoryMatches(search, item)
  {
    IncludesIff(ToLower(item.term), ToLower(search));
  }

  /** `onClear`: the history becomes empty and nothing else changes. */
  method OnClear(store: WorkspaceStore)
    modifies store`history
    ensures store.history == []
  {
    store.history := [];
  }
}
