/** The semantic-network panel: the synonym editor and the markdown-mark
    stripper its lists (and the usage-example panel) are displayed through. */
module LinguisticNetwork {
  import opened Wrappers
  import opened Lists
  import opened Strings
  import opened Types

  /** The characters `cleanString` deletes: `*`, `_`, `~` and the backtick. */
  predicate IsMarkdownMark(c: char) {
    c == '*' || c == '_' || c == '~' || c == '`'
  }

  function KeepsChar(c: char): bool {
    !IsMarkdownMark(c)
  }

  /** `str.replace(/[*_~`]/g, '')`. */
  function CleanString(s: string): (r: string)
    ensures forall k :: 0 <= k < |r| ==> !IsMarkdownMark(r[k])
    ensures forall c :: !IsMarkdownMark(c) ==> multiset(r)[c] == multiset(s)[c]
    ensures forall c :: c in r <==> c in s && !IsMarkdownMark(c)
    ensures (forall k :: 0 <= k < |s| ==> !IsMarkdownMark(s[k])) ==> r == s
  {
    Filter(s, KeepsChar)
  }

  /** The characters kept stay in their order. */
  lemma CleanKeepsOrder(s: string)
    ensures Subsequence(CleanString(s), s)
  {
    FilterIsSubsequence(s, KeepsChar);
  }

  /** Cleaning twice is cleaning once. */
  lemma CleanIdempotent(s: string)
    ensures CleanString(CleanString(s)) == CleanString(s)
  {
  }

  /** Cleaning works piece by piece: the cleaned concatenation is the
      concatenation of the cleaned pieces. */
  lemma CleanDistributes(a: string, b: string)
    ensures CleanString(a + b) == CleanString(a) + CleanString(b)
  {
    FilterDistributes(a, b, KeepsChar);
  }

  /** `handleAddSynonym`: a blank input is ignored; otherwise the synonyms become
      the distinct old synonyms with the trimmed input appended when new. */
  function WithSynonymAdded(item: SemanticAnalysis, input: string): (r: Option<SemanticAnalysis>)
    ensures r.None? <==> AllWhitespace(input)
    ensures r.Some? ==> r.value.(synonyms := item.synonyms) == item
    ensures r.Some? ==> Distinct(r.value.synonyms)
    ensures r.Some? ==> forall t :: t in r.value.synonyms <==> t in item.synonyms || t == Trim(input)
  {
    match WithTrimmedAdded(item.synonyms, input)
    case None => None
    case Some(synonyms) => Some(item.(synonyms := synonyms))
  }

  /** A non-blank synonym leaves the distinct old synonyms in first-occurrence
      order and appends the trimmed synonym when it is new; on distinct synonyms,
      an existing one changes nothing. */
  lemma SynonymAddedAtEnd(item: SemanticAnalysis, input: string)
    requires !AllWhitespace(input)
    ensures WithSynonymAdded(item, input) ==
            Some(item.(synonyms := Dedupe(item.synonyms) +
                                   if Trim(input) in item.synonyms then [] else [Trim(input)]))
    ensures Distinct(item.synonyms) ==>
              WithSynonymAdded(item, input) ==
              Some(item.(synonyms := if Trim(input) in item.synonyms then item.synonyms
                                     else item.synonyms + [Trim(input)]))
  {
    AddedAtEnd(item.synonyms, input);
    if Distinct(item.synonyms) {
      AddedToDistinct(item.synonyms, input);
    }
  }

  /** `handleRemoveSynonym`: every occurrence goes, the rest keep their order,
      and no other field changes. */
  function WithSynonymRemoved(item: SemanticAnalysis, synonym: string): (r: SemanticAnalysis)
    ensures r.(synonyms := item.synonyms) == item
    ensures forall t :: t in r.synonyms <==> t in item.synonyms && t != synonym
    ensures forall t :: t != synonym ==> multiset(r.synonyms)[t] == multiset(item.synonyms)[t]
  {
    item.(synonyms := Without(item.synonyms, synonym))
  }

  lemma SynonymRemovalKeepsOrder(item: SemanticAnalysis, synonym: string)
    ensures Subsequence(WithSynonymRemoved(item, synonym).synonyms, item.synonyms)
  {
    WithoutIsSubsequence(item.synonyms, synonym);
  }
}
