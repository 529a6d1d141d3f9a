/**
 * The block editor (components/EditableView.tsx): a working copy of a lesson's
 * editable blocks, changed one field, one worked-example step or the whole list of
 * practice questions at a time, and handed back for regeneration.
 */
module BlockEditor {
  import opened Wrappers
  import opened Types

  /** The plain text fields the editor offers an input for. */
  datatype TextField = Title | Objective | IntroText | ReflectionQuestion

  function TextOf(b: EditableBlocks, k: TextField): string
  {
    match k
    case Title => b.title
    case Objective => b.objective
    case IntroText => b.introText
    case ReflectionQuestion => b.reflectionQuestion
  }

  /** The fields that are not plain text are the same in `a` and `b`. */
  predicate SameStructured(a: EditableBlocks, b: EditableBlocks)
  {
    && a.workedExampleSteps == b.workedExampleSteps
    && a.practiceQuestions == b.practiceQuestions
    && a.wordProblem == b.wordProblem
  }

  /** `{...prev, [key]: value}`: field `k` becomes `v`, every other field stays. */
  function WithText(b: EditableBlocks, k: TextField, v: string): (r: EditableBlocks)
    ensures TextOf(r, k) == v
    ensures forall j :: j != k ==> TextOf(r, j) == TextOf(b, j)
    ensures SameStructured(r, b)
  {
    match k
    case Title => b.(title := v)
    case Objective => b.(objective := v)
    case IntroText => b.(introText := v)
    case ReflectionQuestion => b.(reflectionQuestion := v)
  }

  /**
   * Helper for the lemmas below: blocks are determined by their text fields and their
   * structured fields (datatype extensionality, spelled out field by field).
   */
  lemma {:induction false} BlocksExtensional(a: EditableBlocks, b: EditableBlocks)
    requires forall k :: TextOf(a, k) == TextOf(b, k)
    requires SameStructured(a, b)
    ensures a == b
  {
    assert TextOf(a, Title) == TextOf(b, Title);
    assert TextOf(a, Objective) == TextOf(b, Objective);
    assert TextOf(a, IntroText) == TextOf(b, IntroText);
    assert TextOf(a, ReflectionQuestion) == TextOf(b, ReflectionQuestion);
  }

  /** Writing a field back with the value it has changes nothing. */
  lemma WithTextSameValue(b: EditableBlocks, k: TextField)
    ensures WithText(b, k, TextOf(b, k)) == b
  {
    BlocksExtensional(WithText(b, k, TextOf(b, k)), b);
  }

  /** Of two edits of the same field only the later one shows. */
  lemma WithTextLastWins(b: EditableBlocks, k: TextField, v: string, w: string)
    ensures WithText(WithText(b, k, v), k, w) == WithText(b, k, w)
  {
    BlocksExtensional(WithText(WithText(b, k, v), k, w), WithText(b, k, w));
  }

  /** Edits of two different fields do not interfere: their order does not matter. */
  lemma WithTextCommute(b: EditableBlocks, k: TextField, v: string, j: TextField, w: string)
    requires k != j
    ensures WithText(WithText(b, k, v), j, w) == WithText(WithText(b, j, w), k, v)
  {
    BlocksExtensional(WithText(WithText(b, k, v), j, w), WithText(WithText(b, j, w), k, v));
  }

  /** Step `i` of the worked example becomes `v`; the step count and all else stay. */
  function WithStep(b: EditableBlocks, i: nat, v: string): (r: EditableBlocks)
    requires i < |b.workedExampleSteps|
    ensures |r.workedExampleSteps| == |b.workedExampleSteps|
    ensures r.workedExampleSteps[i] == v
    ensures forall j :: 0 <= j < |b.workedExampleSteps| && j != i ==>
      r.workedExampleSteps[j] == b.workedExampleSteps[j]
    ensures forall k :: TextOf(r, k) == TextOf(b, k)
    ensures r.practiceQuestions == b.practiceQuestions && r.wordProblem == b.wordProblem
  {
    b.(workedExampleSteps := b.workedExampleSteps[i := v])
  }

  /**
   * The practice questions after an edit of their JSON text: replaced by what the text
   * parses to, or untouched when it does not parse (`None`).
   */
  function WithParsedQuestions(b: EditableBlocks, parsed: Option<seq<PracticeQuestion>>): (r: EditableBlocks)
    ensures parsed.None? ==> r == b
    ensures parsed.Some? ==> r.practiceQuestions == parsed.value
    ensures forall k :: TextOf(r, k) == TextOf(b, k)
    ensures r.workedExampleSteps == b.workedExampleSteps && r.wordProblem == b.wordProblem
  {
    match parsed
    case None => b
    case Some(qs) => b.(practiceQuestions := qs)
  }

  class EditableView {
    var editedBlocks: EditableBlocks

    /** Mounting: the working copy starts as the blocks passed in. */
    constructor(blocks: EditableBlocks)
      ensures editedBlocks == blocks
    {
      editedBlocks := blocks;
    }

    /** handleTextChange: one text input edited. */
    method HandleTextChange(k: TextField, v: string)
      modifies this
      ensures editedBlocks == WithText(old(editedBlocks), k, v)
    {
      editedBlocks := WithText(editedBlocks, k, v);
    }

    /**
     * handleArrayChange: the steps are copied, slot `i` of the copy overwritten, and the
     * copy installed. The editor only offers the steps that exist.
     */
    method HandleArrayChange(i: nat, v: string)
      requires i < |editedBlocks.workedExampleSteps|
      modifies this
      ensures editedBlocks == WithStep(old(editedBlocks), i, v)
    {
      var steps := editedBlocks.workedExampleSteps;
      var newSteps := new string[|steps|](j requires 0 <= j < |steps| => steps[j]);
      newSteps[i] := v;
      editedBlocks := editedBlocks.(workedExampleSteps := newSteps[..]);
    }

    /** The practice-questions text area changed; `parsed` is what its text parses to, if anything. */
    method HandlePracticeQuestionsChange(parsed: Option<seq<PracticeQuestion>>)
      modifies this
      ensures editedBlocks == WithParsedQuestions(old(editedBlocks), parsed)
    {
      if parsed.Some? {
        editedBlocks := editedBlocks.(practiceQuestions := parsed.value);
      }
    }

    /** The "Regenerate Lesson" button is disabled. */
    predicate RegenerateDisabled(isLoading: bool)
    {
      isLoading
    }

    /**
     * A click on "Regenerate Lesson": the blocks handed to `onRegenerate`, which are the
     * current working copy; a disabled button hands over nothing.
     */
    method RegenerateClick(isLoading: bool) returns (handoff: Option<EditableBlocks>)
      ensures handoff.Some? <==> !RegenerateDisabled(isLoading)
      ensures handoff.Some? ==> handoff.value == editedBlocks
    {
      if RegenerateDisabled(isLoading) {
        handoff := None;
      } else {
        handoff := Some(editedBlocks);
      }
    }
  }
}
