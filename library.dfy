/** The knowledge-library screen: the tag cloud, the search/type/tag filter,
    the per-card tag editor and the tag-cloud selection. */
module Library {
  import opened Wrappers
  import opened Lists
  import opened Strings
  import opened Types
  import opened Store
  import opened ResultHeader

  /** Some library record carries tag `t`. */
  predicate TagInUse(library: seq<SemanticAnalysis>, t: string) {
    exists k :: 0 <= k < |library| && t in library[k].tags
  }

  /** Every tag of every record, record by record, in order. */
  function TagOccurrences(library: seq<SemanticAnalysis>): (r: seq<string>)
    ensures forall t :: t in r <==> TagInUse(library, t)
    decreases |library|
  {
    if library == [] then []
    else
      var init := library[..|library| - 1];
      var r := TagOccurrences(init) + library[|library| - 1].tags;
      assert forall t :: TagInUse(library, t) <==> TagInUse(init, t) || t in library[|library| - 1].tags by {
        forall t ensures TagInUse(library, t) ==> TagInUse(init, t) || t in library[|library| - 1].tags {
          if TagInUse(library, t) {
            var k :| 0 <= k < |library| && t in library[k].tags;
            if k < |init| { assert library[k] == init[k]; }
          }
        }
        forall t ensures TagInUse(init, t) ==> TagInUse(library, t) {
          if TagInUse(init, t) {
            var k :| 0 <= k < |init| && t in init[k].tags;
            assert library[k] == init[k];
          }
        }
      }
      r
  }

  /** `allTags`: the tags are gathered into a `Set` in order of first
      appearance, then sorted. */
  method AllTags(library: seq<SemanticAnalysis>) returns (tags: seq<string>)
    ensures forall t :: t in tags <==> TagInUse(library, t)
    ensures Distinct(tags)
    ensures Sorted(tags)
  {
    var seen: seq<string> := [];
    var i := 0;
    while i < |library|
      invariant 0 <= i <= |library|
      invariant seen == Dedupe(TagOccurrences(library[..i]))
    {
      var itemTags := library[i].tags;
      ghost var before := TagOccurrences(library[..i]);
      var j := 0;
      assert before + itemTags[..j] == before;
      while j < |itemTags|
        invariant 0 <= j <= |itemTags|
        invariant seen == Dedupe(before + itemTags[..j])
      {
        var t := itemTags[j];
        AddToSet(before + itemTags[..j], t);
        ExtendSlice(before, itemTags, j);
        if t !in seen {
          seen := seen + [t];
        }
        j := j + 1;
      }
      TagOccurrencesStep(library, i);
      assert itemTags[..j] == itemTags;
      i := i + 1;
    }
    assert library[..i] == library;
    tags := Sort(seen);
    SortedSetSpec(library, seen, tags);
  }

  /** `set.add(t)` on a set kept in insertion order. */
  lemma AddToSet(prefix: seq<string>, t: string)
    ensures (if t in Dedupe(prefix) then Dedupe(prefix) else Dedupe(prefix) + [t]) == Dedupe(prefix + [t])
  {
    DedupeAppend(prefix, t);
  }

  lemma ExtendSlice(a: seq<string>, b: seq<string>, j: nat)
    requires j < |b|
    ensures a + b[..j + 1] == (a + b[..j]) + [b[j]]
  {
    assert b[..j + 1] == b[..j] + [b[j]];
  }

  lemma TagOccurrencesStep(library: seq<SemanticAnalysis>, i: nat)
    requires i < |library|
    ensures TagOccurrences(library[..i + 1]) == TagOccurrences(library[..i]) + library[i].tags
  {
    assert library[..i + 1][..i] == library[..i];
  }

  lemma SortedSetSpec(library: seq<SemanticAnalysis>, seen: seq<string>, tags: seq<string>)
    requires seen == Dedupe(TagOccurrences(library)) && tags == Sort(seen)
    ensures forall t :: t in tags <==> TagInUse(library, t)
    ensures Distinct(tags)
  {
    DistinctPermutation(seen, tags);
    assert forall t :: t in tags <==> t in multiset(tags);
  }

  /** The search box: a case-insensitive match on the term or the English core meaning. */
  predicate MatchesSearch(search: string, item: SemanticAnalysis) {
    Includes(ToLower(item.term), ToLower(search)) ||
    Includes(ToLower(item.semanticCore.en), ToLower(search))
  }

  /** The type buttons: `'All'` or the record's type name. */
  predicate MatchesFilter(filter: string, item: SemanticAnalysis) {
    filter == "All" || TypeName(item.kind) == filter
  }

  /** The tag cloud: no tag selected (`null` or empty), or the record carries it. */
  predicate MatchesTag(selected: Option<string>, item: SemanticAnalysis) {
    selected.None? || selected.value == "" || selected.value in item.tags
  }

  predicate LibraryMatches(search: string, filter: string, selected: Option<string>, item: SemanticAnalysis) {
    MatchesSearch(search, item) && MatchesFilter(filter, item) && MatchesTag(selected, item)
  }

  function LibraryMatcher(search: string, filter: string, selected: Option<string>): SemanticAnalysis -> bool {
    item => LibraryMatches(search, filter, selected, item)
  }

  /** `filteredItems`. */
  function FilteredItems(library: seq<SemanticAnalysis>, search: string, filter: string,
                         selected: Option<string>): (r: seq<SemanticAnalysis>)
    ensures forall x :: x in r <==>
              x in library && MatchesSearch(search, x) && MatchesFilter(filter, x) && MatchesTag(selected, x)
    ensures search == "" && filter == "All" && selected == None ==> r == library
    ensures multiset(r) <= multiset(library)
    ensures forall x :: LibraryMatches(search, filter, selected, x) ==> multiset(r)[x] == multiset(library)[x]
  {
    var r := Filter(library, LibraryMatcher(search, filter, selected));
    assert forall x :: x !in r ==> multiset(r)[x] == 0;
    r
  }

  lemma FilteredItemsKeepOrder(library: seq<SemanticAnalysis>, search: string, filter: string,
                               selected: Option<string>)
    ensures Subsequence(FilteredItems(library, search, filter, selected), library)
  {
    FilterIsSubsequence(library, LibraryMatcher(search, filter, selected));
  }

  /** A type filter keeps exactly the records of that type. */
  lemma FilterByType(library: seq<SemanticAnalysis>, kind: AnalysisType)
    ensures forall x :: x in FilteredItems(library, "", TypeName(kind), None) <==> x in library && x.kind == kind
  {
    forall x: SemanticAnalysis ensures TypeName(x.kind) == TypeName(kind) <==> x.kind == kind {
      if x.kind != kind {
        TypeNamesDiffer(x.kind, kind);
      }
    }
  }

  lemma TypeNamesDiffer(a: AnalysisType, b: AnalysisType)
    requires a != b
    ensures TypeName(a) != TypeName(b)
  {
  }

  /** Clicking a tag in the cloud: the selected tag is deselected, any other is selected. */
  function ToggledTag(selected: Option<string>, tag: string): (r: Option<string>)
    ensures selected == Some(tag) ==> r == None
    ensures selected != Some(tag) ==> r == Some(tag)
  {
    if selected == Some(tag) then None else Some(tag)
  }

  /** Two clicks on the same tag come back to where a click on a selected tag leads. */
  lemma ToggleTwice(selected: Option<string>, tag: string)
    ensures ToggledTag(ToggledTag(selected, tag), tag) == (if selected == Some(tag) then Some(tag) else None)
  {
  }

  /** The screen's own state cells; the records live in the shared store. */
  class LibraryPanel {
    var filter: string
    var search: string
    var selectedTag: Option<string>
    var newTagInput: string
    const store: WorkspaceStore

    constructor(store: WorkspaceStore)
      ensures this.store == store
      ensures filter == "All" && search == "" && selectedTag == None && newTagInput == ""
    {
      this.store := store;
      filter := "All";
      search := "";
      selectedTag := None;
      newTagInput := "";
    }

    /** The search box. */
    method SetSearch(text: string)
      modifies this`search
      ensures search == text
    {
      search := text;
    }

    /** The tag input of a card. */
    method EditNewTag(text: string)
      modifies this`newTagInput
      ensures newTagInput == text
    {
      newTagInput := text;
    }

    /** A type button. */
    method SetFilter(t: string)
      modifies this`filter
      ensures filter == t
    {
      filter := t;
    }

    /** A tag of the cloud. */
    method ClickCloudTag(tag: string)
      modifies this`selectedTag
      ensures selectedTag == ToggledTag(old(selectedTag), tag)
    {
      if selectedTag == Some(tag) {
        selectedTag := None;
      } else {
        selectedTag := Some(tag);
      }
    }

    /** The "clear" button of the cloud. */
    method ClearTagSelection()
      modifies this`selectedTag
      ensures selectedTag == None
    {
      selectedTag := None;
    }

    /** `handleCardTagClick`: a tag on a card always selects it. */
    method ClickCardTag(tag: string)
      modifies this`selectedTag
      ensures selectedTag == Some(tag)
    {
      selectedTag := Some(tag);
    }

    /** `handleAddTag`: a blank input does nothing; otherwise the edited record goes
        through `updateAnalysis` and the input is cleared. */
    method AddTag(item: SemanticAnalysis)
      modifies this`newTagInput, store`library, store`history, store`currentAnalysis
      ensures var edited := WithTagAdded(item, old(newTagInput));
              if edited.Some? then
                newTagInput == "" &&
                store.library == ReplacedById(old(store.library), edited.value) &&
                store.history == ReplacedById(old(store.history), edited.value) &&
                store.currentAnalysis == RefreshedCurrent(old(store.currentAnalysis), edited.value)
              else
                newTagInput == old(newTagInput) && store.library == old(store.library) &&
                store.history == old(store.history) && store.currentAnalysis == old(store.currentAnalysis)
    {
      var edited := WithTagAdded(item, newTagInput);
      if edited.Some? {
        store.UpdateAnalysis(edited.value);
        newTagInput := "";
      }
    }

    /** `handleRemoveTag`. */
    method RemoveTag(item: SemanticAnalysis, tag: string)
      modifies store`library, store`history, store`currentAnalysis
      ensures store.library == ReplacedById(old(store.library), WithTagRemoved(item, tag))
      ensures store.history == ReplacedById(old(store.history), WithTagRemoved(item, tag))
      ensures store.currentAnalysis == RefreshedCurrent(old(store.currentAnalysis), WithTagRemoved(item, tag))
    {
      store.UpdateAnalysis(WithTagRemoved(item, tag));
    }
  }
}
