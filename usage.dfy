/** The usage-example panel: generated and custom examples appended to the
    record, removal by position, and the panel's own state cells. */
module UsageExamples {
  import opened Wrappers
  import opened Lists
  import opened Types

  /** `{ ...analysis, usageExamples: [...analysis.usageExamples, ...more] }`. */
  function WithExamplesAppended(item: SemanticAnalysis, more: seq<UsageExample>): (r: SemanticAnalysis)
    ensures r.(usageExamples := item.usageExamples) == item
    ensures |r.usageExamples| == |item.usageExamples| + |more|
    ensures item.usageExamples <= r.usageExamples
    ensures r.usageExamples[|item.usageExamples|..] == more
  {
    item.(usageExamples := item.usageExamples + more)
  }

  /** `handleRemoveExample`: drops the example at `index`; an index outside the
      list removes nothing. */
  function WithExampleRemoved(item: SemanticAnalysis, index: int): (r: SemanticAnalysis)
    ensures r.(usageExamples := item.usageExamples) == item
    ensures 0 <= index < |item.usageExamples| ==> |r.usageExamples| == |item.usageExamples| - 1
    ensures !(0 <= index < |item.usageExamples|) ==> r == item
  {
    item.(usageExamples := DropIndex(item.usageExamples, index))
  }

  /** The examples before the removed one keep their positions and those after
      it move down by one. */
  lemma RemovalShiftsTail(item: SemanticAnalysis, index: nat)
    requires index < |item.usageExamples|
    ensures var before, after := item.usageExamples, WithExampleRemoved(item, index).usageExamples;
            (forall k :: 0 <= k < index ==> after[k] == before[k]) &&
            (forall k :: index <= k < |after| ==> after[k] == before[k + 1])
  {
  }

  /** Removing an example added at the end undoes the addition. */
  lemma RemoveUndoesAppend(item: SemanticAnalysis, ex: UsageExample)
    ensures WithExampleRemoved(WithExamplesAppended(item, [ex]), |item.usageExamples|) == item
  {
    assert (item.usageExamples + [ex])[..|item.usageExamples|] == item.usageExamples;
  }

  /** The form's reset value. */
  const EmptyDraft := UsageExample("General", "", "")

  /** The panel's state cells. */
  class UsageExamplesPanel {
    var isGenerating: bool
    var isAddingExample: bool
    var draft: UsageExample

    constructor()
      ensures !isGenerating && !isAddingExample && draft == EmptyDraft
    {
      isGenerating := false;
      isAddingExample := false;
      draft := EmptyDraft;
    }

    /** `handleGenerateMore` up to the awaited generator. */
    method BeginGenerate()
      modifies this`isGenerating
      ensures isGenerating
    {
      isGenerating := true;
    }

    /** `handleGenerateMore` after the generator: `more` is what it produced,
        `None` when it failed. Returns the record handed to `onUpdate`. */
    method FinishGenerate(item: SemanticAnalysis, more: Option<seq<UsageExample>>)
      returns (updated: Option<SemanticAnalysis>)
      modifies this`isGenerating
      ensures !isGenerating
      ensures more.Some? ==> updated == Some(WithExamplesAppended(item, more.value))
      ensures more.None? ==> updated == None
    {
      if more.Some? {
        updated := Some(WithExamplesAppended(item, more.value));
      } else {
        updated := None;
      }
      isGenerating := false;
    }

    /** The "custom" button. */
    method ToggleAdding()
      modifies this`isAddingExample
      ensures isAddingExample == !old(isAddingExample)
    {
      isAddingExample := !isAddingExample;
    }

    /** The English input of the form. */
    method EditEnglish(text: string)
      modifies this`draft
      ensures draft == old(draft).(en := text)
    {
      draft := draft.(en := text);
    }

    /** The Chinese input of the form. */
    method EditChinese(text: string)
      modifies this`draft
      ensures draft == old(draft).(cn := text)
    {
      draft := draft.(cn := text);
    }

    /** The category select of the form. */
    method EditCategory(category: string)
      modifies this`draft
      ensures draft == old(draft).(category := category)
    {
      draft := draft.(category := category);
    }

    /** `handleAddCustomExample`: with both texts non-empty (untrimmed), the draft is
        appended as it is and the form resets and closes; otherwise nothing happens. */
    method AddCustomExample(item: SemanticAnalysis) returns (updated: Option<SemanticAnalysis>)
      modifies this`draft, this`isAddingExample
      ensures old(draft).en == "" || old(draft).cn == "" ==>
                updated == None && draft == old(draft) && isAddingExample == old(isAddingExample)
      ensures old(draft).en != "" && old(draft).cn != "" ==>
                updated == Some(WithExamplesAppended(item, [old(draft)])) &&
                draft == EmptyDraft && !isAddingExample
    {
      if draft.en == "" || draft.cn == "" {
        return None;
      }
      updated := Some(WithExamplesAppended(item, [draft]));
      draft := EmptyDraft;
      isAddingExample := false;
    }
  }
}
