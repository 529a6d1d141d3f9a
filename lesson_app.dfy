/**
 * The lesson store of the main screen (App.tsx): the lesson being edited, the page
 * the author is looking at, the view mode, the busy flag and the last error, and the
 * handlers that generate, regenerate, modify, extend, shrink and patch the lesson.
 *
 * The content gateway is not part of this model: each handler receives what the
 * gateway call produced (a value, or what it threw) as a parameter, and the ghost
 * log `calls` records what the handler sent to it.
 */
module LessonApp {
  import opened Wrappers
  import opened Types

  datatype Track = Regional | English

  /**
   * The stored lesson. JavaScript arrays are shared references, so the record holds
   * two arrays: a shallow copy of the record shares them with the original.
   */
  datatype Lesson = Lesson(regional: array<string>, english: array<string>, blocks: EditableBlocks)

  /** A request a handler sent to the content gateway. */
  datatype GatewayCall =
    | Generate(params: LessonParams)
    | ModifyBlocks(blocks: EditableBlocks, prompt: string, params: LessonParams)
    | GeneratePage(params: LessonParams, prompt: string)

  /** How a press of the delete button ended. */
  datatype DeleteOutcome = NoLesson | LastPageKept | NotConfirmed | Deleted

  const GenerateFallbackMessage: string :=
    "Failed to generate lesson content. Please check your API key or try again."
  const RegenerateFailedMessage: string := "Failed to regenerate lesson. Please try again."
  const ModifyFailedMessage: string := "Failed to modify lesson. Please try again."
  const AddPageFailedMessage: string := "Failed to add page. Please try again."

  /** The error text of a failed first generation: the thrown Error's own message, if any. */
  function GenerateErrorMessage(t: Thrown): (m: string)
    ensures t.ErrorObject? ==> m == t.message
    ensures t.OtherValue? ==> m == GenerateFallbackMessage
  {
    match t
    case ErrorObject(message) => message
    case OtherValue => GenerateFallbackMessage
  }

  /** A gateway result that can be shown: both tracks equally long and not empty. */
  predicate WellFormed(g: GeneratedLesson)
  {
    |g.regionalHtmlPages| == |g.englishHtmlPages| >= 1
  }

  // ------------------------------------------------------------------ pagination

  /** Target of the "previous" chevron, `Math.max(0, i - 1)`. */
  function PrevTarget(i: int): (r: int)
    ensures 0 <= r && i - 1 <= r
    ensures 1 <= i ==> r == i - 1
    ensures 0 <= i ==> r <= i
  {
    if 0 > i - 1 then 0 else i - 1
  }

  /** Target of the "next" chevron, `Math.min(total - 1, i + 1)`. */
  function NextTarget(total: int, i: int): (r: int)
    ensures r <= total - 1 && r <= i + 1
    ensures i < total - 1 ==> r == i + 1
    ensures 0 <= i < total ==> i <= r
  {
    if total - 1 < i + 1 then total - 1 else i + 1
  }

  /**
   * The "previous" chevron is disabled on the first page: from any page, exactly
   * when pressing it would not move.
   */
  predicate PrevDisabled(i: int)
    ensures 0 <= i ==> (PrevDisabled(i) <==> PrevTarget(i) == i)
  {
    i == 0
  }

  /**
   * The "next" chevron is disabled on the last page: from any page of the lesson,
   * exactly when pressing it would not move.
   */
  predicate NextDisabled(total: int, i: int)
    ensures 0 <= i < total ==> (NextDisabled(total, i) <==> NextTarget(total, i) == i)
  {
    i == total - 1
  }

  /**
   * From a page of a non-empty lesson both chevrons land on a page of the lesson, and
   * an enabled chevron moves exactly one page.
   */
  lemma PaginationStaysInRange(total: int, i: int)
    requires 0 <= i < total
    ensures 0 <= PrevTarget(i) < total && 0 <= NextTarget(total, i) < total
    ensures !PrevDisabled(i) ==> PrevTarget(i) == i - 1
    ensures !NextDisabled(total, i) ==> NextTarget(total, i) == i + 1
    ensures PrevDisabled(i) ==> PrevTarget(i) == i
    ensures NextDisabled(total, i) ==> NextTarget(total, i) == i
  {
  }

  // ------------------------------------------------------------------ splice

  /**
   * The position `splice(start, 1)` works at: a negative start counts back from the
   * end (clamped at 0), a start past the end is clamped to the length.
   */
  function SpliceIndex(len: nat, start: int): (k: nat)
    ensures k <= len
    ensures 0 <= start <= len ==> k == start
  {
    if start < 0 then (if len + start < 0 then 0 else len + start)
    else if start > len then len
    else start
  }

  /**
   * The array `splice(start, 1)` leaves behind: the element at the splice position is
   * gone, the ones before it stay put and the ones after it move down by one; at the
   * end of the array nothing is removed.
   */
  function SpliceOne(s: seq<string>, start: int): (r: seq<string>)
    ensures var k := SpliceIndex(|s|, start);
      && (k < |s| ==> |r| == |s| - 1
                      && (forall j :: 0 <= j < k ==> r[j] == s[j])
                      && (forall j :: k <= j < |r| ==> r[j] == s[j + 1]))
      && (k == |s| ==> r == s)
    ensures multiset(r) <= multiset(s)
  {
    var k := SpliceIndex(|s|, start);
    if k < |s| then
      assert s == s[..k] + [s[k]] + s[k + 1..];
      s[..k] + s[k + 1..]
    else
      s
  }

  /** Splicing out the last element undoes appending it: the add-page/delete-page round trip. */
  lemma SpliceUndoesAppend(s: seq<string>, x: string)
    ensures SpliceOne(s + [x], |s|) == s
  {
    var r := SpliceOne(s + [x], |s|);
    assert |r| == |s|;
    forall j | 0 <= j < |s|
      ensures r[j] == s[j]
    {
      assert r[j] == (s + [x])[j];
    }
  }

  /** Splicing at the same position keeps two equally long tracks equally long. */
  lemma SpliceKeepsTracksParallel(s: seq<string>, t: seq<string>, start: int)
    requires |s| == |t|
    ensures |SpliceOne(s, start)| == |SpliceOne(t, start)|
    ensures |s| >= 1 ==> |SpliceOne(s, start)| >= |s| - 1
  {
  }

  /** A fresh array holding `pages`, as a spread copy `[...pages]` creates. */
  method NewTrack(pages: seq<string>) returns (a: array<string>)
    ensures fresh(a) && a[..] == pages
  {
    a := new string[|pages|](i requires 0 <= i < |pages| => pages[i]);
  }

  /** The arrays `JSON.parse` builds for a gateway result: fresh, one per track. */
  method NewLesson(g: GeneratedLesson) returns (l: Lesson)
    ensures fresh(l.regional) && fresh(l.english) && l.regional != l.english
    ensures l.regional[..] == g.regionalHtmlPages && l.english[..] == g.englishHtmlPages
    ensures l.blocks == g.editableBlocks
  {
    var r := NewTrack(g.regionalHtmlPages);
    var e := NewTrack(g.englishHtmlPages);
    l := Lesson(r, e, g.editableBlocks);
  }

  // ------------------------------------------------------------------ the store

  class App {
    var viewMode: ViewMode
    var loading: bool
    var lessonData: Option<Lesson>
    var currentParams: Option<LessonParams>
    var currentPageIndex: int
    var error: Option<string>
    /** Every request sent to the content gateway, oldest first. */
    ghost var calls: seq<GatewayCall>

    /** The arrays the stored lesson lives in. */
    ghost function Footprint(): set<object>
      reads this
    {
      if lessonData.Some? then {lessonData.value.regional, lessonData.value.english} else {}
    }

    /** The two tracks are different arrays: writing one page never touches the other track. */
    ghost predicate Valid()
      reads this
    {
      lessonData.Some? ==> lessonData.value.regional != lessonData.value.english
    }

    ghost function RegionalPages(): seq<string>
      requires lessonData.Some?
      reads this, Footprint()
    {
      lessonData.value.regional[..]
    }

    ghost function EnglishPages(): seq<string>
      requires lessonData.Some?
      reads this, Footprint()
    {
      lessonData.value.english[..]
    }

    /**
     * The two tracks have the same, non-zero number of pages and the current index is
     * one of them. The gateway's results are never checked for this, so it is not an
     * invariant of the app: the handlers below keep it when it held before.
     */
    ghost predicate Consistent()
      reads this, Footprint()
    {
      lessonData.Some? ==> |RegionalPages()| == |EnglishPages()| >= 1 && 0 <= currentPageIndex < |RegionalPages()|
    }

    /** The stored lesson is exactly `g`. */
    ghost predicate Holds(g: GeneratedLesson)
      reads this, Footprint()
    {
      && lessonData.Some?
      && RegionalPages() == g.regionalHtmlPages
      && EnglishPages() == g.englishHtmlPages
      && lessonData.value.blocks == g.editableBlocks
    }

    constructor()
      ensures Valid() && Consistent()
      ensures viewMode == Form && !loading && lessonData == None && currentParams == None
      ensures currentPageIndex == 0 && error == None && calls == []
    {
      viewMode := Form;
      loading := false;
      lessonData := None;
      currentParams := None;
      currentPageIndex := 0;
      error := None;
      calls := [];
    }

    /**
     * handleGenerate: the form's submit. The lesson is replaced wholesale on success;
     * on failure it is kept and the error set. The error is cleared first and the
     * busy flag is down again afterwards.
     */
    method HandleGenerate(params: LessonParams, outcome: Result<GeneratedLesson, Thrown>)
      requires Valid()
      modifies this
      ensures Valid()
      ensures outcome.Success? ==>
        lessonData.Some? && fresh(lessonData.value.regional) && fresh(lessonData.value.english)
      ensures calls == old(calls) + [Generate(params)]
      ensures currentParams == Some(params) && !loading
      ensures outcome.Success? ==>
        && Holds(outcome.value) && viewMode == Split && currentPageIndex == 0 && error == None
        && (Consistent() <==> WellFormed(outcome.value))
      ensures outcome.Failure? ==>
        && lessonData == old(lessonData) && viewMode == old(viewMode)
        && currentPageIndex == old(currentPageIndex)
        && error == Some(GenerateErrorMessage(outcome.error))
        && (old(Consistent()) ==> Consistent())
    {
      loading := true;
      error := None;
      currentParams := Some(params);
      calls := calls + [Generate(params)];
      match outcome {
        case Success(result) =>
          var lesson := NewLesson(result);
          lessonData := Some(lesson);
          viewMode := Split;
          currentPageIndex := 0;
        case Failure(thrown) =>
          error := Some(GenerateErrorMessage(thrown));
      }
      loading := false;
    }

    /**
     * handleRegenerateFromBlocks: re-render the lesson from (possibly hand-edited)
     * blocks, sent as `refinedBlocks` with the parameters of the last generation.
     * Nothing happens before a first generation. Unlike the first generation it does
     * not clear an earlier error.
     */
    method HandleRegenerateFromBlocks(refinedBlocks: EditableBlocks, outcome: Result<GeneratedLesson, Thrown>)
      requires Valid()
      modifies this
      ensures Valid()
      ensures old(currentParams).Some? && outcome.Success? ==>
        lessonData.Some? && fresh(lessonData.value.regional) && fresh(lessonData.value.english)
      ensures currentParams == old(currentParams)
      ensures old(currentParams).None? ==>
        && calls == old(calls) && lessonData == old(lessonData) && viewMode == old(viewMode)
        && currentPageIndex == old(currentPageIndex) && error == old(error) && loading == old(loading)
      ensures old(currentParams).Some? ==>
        && calls == old(calls) + [Generate(old(currentParams).value.(refinedBlocks := Some(refinedBlocks)))]
        && !loading
        && (outcome.Success? ==>
              && Holds(outcome.value) && viewMode == Split && currentPageIndex == 0 && error == old(error)
              && (Consistent() <==> WellFormed(outcome.value)))
        && (outcome.Failure? ==>
              && lessonData == old(lessonData) && viewMode == old(viewMode)
              && currentPageIndex == old(currentPageIndex) && error == Some(RegenerateFailedMessage)
              && (old(Consistent()) ==> Consistent()))
    {
      if currentParams.None? {
        return;
      }
      loading := true;
      var newParams := currentParams.value.(refinedBlocks := Some(refinedBlocks));
      calls := calls + [Generate(newParams)];
      match outcome {
        case Success(result) =>
          var lesson := NewLesson(result);
          lessonData := Some(lesson);
          viewMode := Split;
          currentPageIndex := 0;
        case Failure(_) =>
          error := Some(RegenerateFailedMessage);
      }
      loading := false;
    }

    /**
     * handleChatModify: ask the gateway to change the blocks following `prompt`, then
     * hand the blocks it returns, unchanged, to the regeneration above.
     */
    method HandleChatModify(prompt: string, modified: Result<EditableBlocks, Thrown>,
                            regenerated: Result<GeneratedLesson, Thrown>)
      requires Valid()
      modifies this
      ensures Valid()
      ensures old(currentParams).Some? && old(lessonData).Some? && modified.Success? && regenerated.Success? ==>
        lessonData.Some? && fresh(lessonData.value.regional) && fresh(lessonData.value.english)
      ensures currentParams == old(currentParams)
      ensures old(currentParams).None? || old(lessonData).None? ==>
        && calls == old(calls) && lessonData == old(lessonData) && viewMode == old(viewMode)
        && currentPageIndex == old(currentPageIndex) && error == old(error) && loading == old(loading)
      ensures old(currentParams).Some? && old(lessonData).Some? ==>
        var request := ModifyBlocks(old(lessonData).value.blocks, prompt, old(currentParams).value);
        && !loading
        && (modified.Failure? ==>
              && calls == old(calls) + [request]
              && lessonData == old(lessonData) && viewMode == old(viewMode)
              && currentPageIndex == old(currentPageIndex) && error == Some(ModifyFailedMessage)
              && (old(Consistent()) ==> Consistent()))
        && (modified.Success? ==>
              && calls == old(calls) + [request,
                   Generate(old(currentParams).value.(refinedBlocks := Some(modified.value)))]
              && (regenerated.Success? ==>
                    && Holds(regenerated.value) && viewMode == Split && currentPageIndex == 0
                    && error == old(error)
                    && (Consistent() <==> WellFormed(regenerated.value)))
              && (regenerated.Failure? ==>
                    && lessonData == old(lessonData) && viewMode == old(viewMode)
                    && currentPageIndex == old(currentPageIndex) && error == Some(RegenerateFailedMessage)
                    && (old(Consistent()) ==> Consistent())))
    {
      if currentParams.None? || lessonData.None? {
        return;
      }
      loading := true;
      calls := calls + [ModifyBlocks(lessonData.value.blocks, prompt, currentParams.value)];
      match modified {
        case Success(newBlocks) =>
          HandleRegenerateFromBlocks(newBlocks, regenerated);
        case Failure(_) =>
          error := Some(ModifyFailedMessage);
          loading := false;
      }
    }

    /**
     * handleChatAddPage: one page in each language is appended to copies of the two
     * tracks and the view jumps to it; on failure the lesson is kept.
     */
    method HandleChatAddPage(prompt: string, outcome: Result<NewPage, Thrown>)
      requires Valid()
      modifies this
      ensures Valid()
      ensures old(currentParams).Some? && old(lessonData).Some? && outcome.Success? ==>
        lessonData.Some? && fresh(lessonData.value.regional) && fresh(lessonData.value.english)
      ensures currentParams == old(currentParams) && viewMode == old(viewMode)
      ensures old(currentParams).None? || old(lessonData).None? ==>
        && calls == old(calls) && lessonData == old(lessonData)
        && currentPageIndex == old(currentPageIndex) && error == old(error) && loading == old(loading)
      ensures old(currentParams).Some? && old(lessonData).Some? ==>
        && calls == old(calls) + [GeneratePage(old(currentParams).value, prompt)]
        && !loading
        && (outcome.Success? ==>
              && lessonData.Some?
              && RegionalPages() == old(RegionalPages()) + [outcome.value.regional]
              && EnglishPages() == old(EnglishPages()) + [outcome.value.english]
              && lessonData.value.blocks == old(lessonData).value.blocks
              && currentPageIndex == |old(RegionalPages())| == |RegionalPages()| - 1
              && error == old(error))
        && (outcome.Failure? ==>
              && lessonData == old(lessonData) && currentPageIndex == old(currentPageIndex)
              && error == Some(AddPageFailedMessage))
      ensures old(Consistent()) ==> Consistent()
    {
      if currentParams.None? || lessonData.None? {
        return;
      }
      loading := true;
      calls := calls + [GeneratePage(currentParams.value, prompt)];
      match outcome {
        case Success(page) =>
          var prev := lessonData.value;
          var newRegional := NewTrack(prev.regional[..] + [page.regional]);
          var newEnglish := NewTrack(prev.english[..] + [page.english]);
          lessonData := Some(prev.(regional := newRegional, english := newEnglish));
          currentPageIndex := prev.regional.Length;
        case Failure(_) =>
          error := Some(AddPageFailedMessage);
      }
      loading := false;
    }

    /**
     * handleDeletePage: after the author confirms, the current page is spliced out of
     * copies of both tracks and the index is pulled back if it fell off the end. Only
     * the regional track's length guards the last page.
     */
    method HandleDeletePage(confirmed: bool) returns (result: DeleteOutcome)
      requires Valid()
      modifies this
      ensures Valid()
      ensures result == Deleted ==>
        lessonData.Some? && fresh(lessonData.value.regional) && fresh(lessonData.value.english)
      ensures viewMode == old(viewMode) && loading == old(loading) && error == old(error)
      ensures currentParams == old(currentParams) && calls == old(calls)
      ensures result == (if old(lessonData).None? then NoLesson
                         else if old(lessonData).value.regional.Length <= 1 then LastPageKept
                         else if !confirmed then NotConfirmed
                         else Deleted)
      ensures result != Deleted ==>
        lessonData == old(lessonData) && currentPageIndex == old(currentPageIndex)
      ensures result == Deleted ==>
        && lessonData.Some?
        && RegionalPages() == SpliceOne(old(RegionalPages()), old(currentPageIndex))
        && EnglishPages() == SpliceOne(old(EnglishPages()), old(currentPageIndex))
        && lessonData.value.blocks == old(lessonData).value.blocks
        && currentPageIndex == (if old(currentPageIndex) >= |RegionalPages()| then |RegionalPages()| - 1
                                else old(currentPageIndex))
      ensures old(Consistent()) ==> Consistent()
    {
      if lessonData.None? {
        return NoLesson;
      }
      if lessonData.value.regional.Length <= 1 {
        return LastPageKept;
      }
      if !confirmed {
        return NotConfirmed;
      }
      var lesson := lessonData.value;
      var newRegional := NewTrack(SpliceOne(lesson.regional[..], currentPageIndex));
      var newEnglish := NewTrack(SpliceOne(lesson.english[..], currentPageIndex));
      if lesson.regional.Length == lesson.english.Length {
        SpliceKeepsTracksParallel(lesson.regional[..], lesson.english[..], currentPageIndex);
      }
      lessonData := Some(lesson.(regional := newRegional, english := newEnglish));
      if currentPageIndex >= newRegional.Length {
        currentPageIndex := newRegional.Length - 1;
      }
      result := Deleted;
    }

    /**
     * updateHtmlPage: the record is copied shallowly, so the new record shares its
     * arrays with the old one and the page is written into the shared array in place.
     */
    method UpdateHtmlPage(track: Track, index: int, newHtml: string)
      requires Valid()
      requires lessonData.Some? ==>
        0 <= index < (if track == Regional then lessonData.value.regional.Length
                      else lessonData.value.english.Length)
      modifies this, Footprint()
      ensures Valid()
      ensures lessonData == old(lessonData)
      ensures lessonData.Some? ==>
        && RegionalPages() == (if track == Regional then old(RegionalPages())[index := newHtml] else old(RegionalPages()))
        && EnglishPages() == (if track == English then old(EnglishPages())[index := newHtml] else old(EnglishPages()))
      ensures viewMode == old(viewMode) && loading == old(loading) && error == old(error)
      ensures currentParams == old(currentParams) && currentPageIndex == old(currentPageIndex)
      ensures calls == old(calls)
      ensures old(Consistent()) ==> Consistent()
    {
      if lessonData.None? {
        return;
      }
      var newData := lessonData.value;
      if track == Regional {
        newData.regional[index] := newHtml;
      } else {
        newData.english[index] := newHtml;
      }
      lessonData := Some(newData);
    }

    /** The "previous" chevron of the pager. */
    method PrevPage()
      modifies this
      ensures currentPageIndex == PrevTarget(old(currentPageIndex))
      ensures lessonData == old(lessonData) && viewMode == old(viewMode) && loading == old(loading)
      ensures error == old(error) && currentParams == old(currentParams) && calls == old(calls)
      ensures old(Consistent()) ==> Consistent()
    {
      currentPageIndex := PrevTarget(currentPageIndex);
    }

    /** The "next" chevron of the pager, which is only shown with a lesson. */
    method NextPage()
      requires lessonData.Some?
      modifies this
      ensures currentPageIndex == NextTarget(old(lessonData).value.regional.Length, old(currentPageIndex))
      ensures lessonData == old(lessonData) && viewMode == old(viewMode) && loading == old(loading)
      ensures error == old(error) && currentParams == old(currentParams) && calls == old(calls)
      ensures old(Consistent()) ==> Consistent()
    {
      currentPageIndex := NextTarget(lessonData.value.regional.Length, currentPageIndex);
    }

    /**
     * One of the view-mode buttons of the sidebar: Parallel, Student, Review or Edit.
     * The form is reached only through "New Lesson".
     */
    method SelectView(mode: ViewMode)
      requires mode != Form
      modifies this
      ensures viewMode == mode
      ensures lessonData == old(lessonData) && currentPageIndex == old(currentPageIndex)
      ensures loading == old(loading) && error == old(error) && currentParams == old(currentParams)
      ensures calls == old(calls)
    {
      viewMode := mode;
    }

    /**
     * "New Lesson": back to the form and the lesson dropped. The parameters, the page
     * index and any error are left as they were.
     */
    method StartNewLesson()
      requires Valid()
      modifies this
      ensures Valid() && Consistent()
      ensures viewMode == Form && lessonData == None
      ensures currentPageIndex == old(currentPageIndex) && loading == old(loading) && error == old(error)
      ensures currentParams == old(currentParams) && calls == old(calls)
    {
      viewMode := Form;
      lessonData := None;
    }
  }
}
