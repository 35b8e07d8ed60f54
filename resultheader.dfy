/** The header of the result screen: the tag editor and the root-form badge.
    Each edit builds the record handed to `onUpdate`; `None` means the handler
    returned before calling it. */
module ResultHeader {
  import opened Wrappers
  import opened Lists
  import opened Strings
  import opened Types

  /** `handleAddTag`: a blank input is ignored; otherwise the tags become the
      distinct old tags with the trimmed input appended when new. */
  function WithTagAdded(item: SemanticAnalysis, input: string): (r: Option<SemanticAnalysis>)
    ensures r.None? <==> AllWhitespace(input)
    ensures r.Some? ==> r.value.(tags := item.tags) == item
    ensures r.Some? ==> Distinct(r.value.tags)
    ensures r.Some? ==> forall t :: t in r.value.tags <==> t in item.tags || t == Trim(input)
  {
    match WithTrimmedAdded(item.tags, input)
    case None => None
    case Some(tags) => Some(item.(tags := tags))
  }

  /** A non-blank tag leaves the distinct old tags in first-occurrence order and
      appends the trimmed tag when it is new; on distinct tags, a tag already
      present leaves the record as it is. */
  lemma TagAddedAtEnd(item: SemanticAnalysis, input: string)
    requires !AllWhitespace(input)
    ensures WithTagAdded(item, input) ==
            Some(item.(tags := Dedupe(item.tags) + if Trim(input) in item.tags then [] else [Trim(input)]))
    ensures Distinct(item.tags) ==>
              WithTagAdded(item, input) ==
              Some(item.(tags := if Trim(input) in item.tags then item.tags else item.tags + [Trim(input)]))
  {
    AddedAtEnd(item.tags, input);
    if Distinct(item.tags) {
      AddedToDistinct(item.tags, input);
    }
  }

  /** Adding the same tag twice is adding it once. */
  lemma TagAddIdempotent(item: SemanticAnalysis, input: string)
    requires !AllWhitespace(input)
    ensures WithTagAdded(WithTagAdded(item, input).value, input) == WithTagAdded(item, input)
  {
    AddTwiceIsAddOnce(item.tags, input);
  }

  /** `handleRemoveTag`: every occurrence of the tag goes, the rest keep their order. */
  function WithTagRemoved(item: SemanticAnalysis, tag: string): (r: SemanticAnalysis)
    ensures r.(tags := item.tags) == item
    ensures forall t :: t in r.tags <==> t in item.tags && t != tag
    ensures forall t :: t != tag ==> multiset(r.tags)[t] == multiset(item.tags)[t]
    ensures tag !in item.tags ==> r == item
  {
    item.(tags := Without(item.tags, tag))
  }

  /** The tags left after a removal are in their old order. */
  lemma TagRemovalKeepsOrder(item: SemanticAnalysis, tag: string)
    ensures Subsequence(WithTagRemoved(item, tag).tags, item.tags)
  {
    WithoutIsSubsequence(item.tags, tag);
  }

  /** The root-form badge: shown when a non-empty root form differs from the term
      other than by letter case. */
  predicate ShowsRootForm(item: SemanticAnalysis): (shown: bool)
    ensures shown ==> item.rootForm.Some? && item.rootForm.value != "" && item.rootForm.value != item.term
    ensures shown ==> ToLower(item.rootForm.value) != ToLower(item.term)
    ensures (item.rootForm.Some? && item.rootForm.value != "" &&
             ToLower(item.rootForm.value) != ToLower(item.term)) ==> shown
  {
    item.rootForm.Some? && item.rootForm.value != "" &&
    ToLower(item.rootForm.value) != ToLower(item.term)
  }

  /** A root form that only repeats the term, in any letter case, shows no badge;
      in particular the term itself and its lower-cased form. */
  lemma RootBadgeHiddenForSameWord(item: SemanticAnalysis)
    requires item.rootForm.Some? && ToLower(item.rootForm.value) == ToLower(item.term)
    ensures !ShowsRootForm(item)
    ensures !ShowsRootForm(item.(rootForm := Some(item.term)))
    ensures !ShowsRootForm(item.(rootForm := Some(ToLower(item.term))))
  {
    ToLowerIdempotent(item.term);
  }
}
