/**
 * The pagination script embedded in the downloadable "playable lesson" (App.tsx): a
 * fixed list of regional pages, a current index, and the frame, page number and
 * button states that `loadPage` refreshes.
 */
module PlayableViewer {
  import LessonApp

  const NextLabel: string := "Next →"
  const FinishLabel: string := "Finish"
  /** What a missing array element becomes when assigned to a string property. */
  const Undefined: string := "undefined"

  /**
   * Where `nextPage` leaves the index. On every page of a non-empty lesson the move
   * keeps to the lesson and lands where the in-app pager's "next" would.
   */
  function NextIndex(count: int, i: int): (r: int)
    ensures 0 <= i < count ==> 0 <= r < count && r == LessonApp.NextTarget(count, i)
  {
    if i < count - 1 then i + 1 else i
  }

  /**
   * Where `prevPage` leaves the index. On every page of a non-empty lesson the move
   * keeps to the lesson and lands where the in-app pager's "previous" would.
   */
  function PrevIndex(i: int): (r: int)
    ensures 0 <= i ==> 0 <= r <= i && r == LessonApp.PrevTarget(i)
  {
    if i > 0 then i - 1 else i
  }

  /**
   * On every index either pager can hold (a page of the lesson, or 0 when there is
   * none) the two "next" moves part exactly when there are no pages: then the in-app
   * target is -1 while the viewer stays put.
   */
  lemma PagersDifferWithoutPages()
    ensures NextIndex(0, 0) == 0 && LessonApp.NextTarget(0, 0) == -1
    ensures forall count: nat, i | 0 <= i && (i < count || i == 0) ::
      NextIndex(count, i) != LessonApp.NextTarget(count, i) <==> count == 0
  {
  }

  class Viewer {
    const pages: seq<string>
    var currentIndex: int
    /**
     * The frame's `srcdoc`: the page at the index. Past the end of the list `pages[index]`
     * is `undefined`, which the assignment turns into that word as text.
     */
    var srcdoc: string
    var pageNumber: int
    var prevDisabled: bool
    var nextDisabled: bool
    var nextLabel: string

    /** The display shows page `i`, as `loadPage(i)` leaves it. */
    ghost predicate Shows(i: int)
      reads this
    {
      && srcdoc == (if 0 <= i < |pages| then pages[i] else Undefined)
      && pageNumber == i + 1
      && prevDisabled == (i == 0)
      && nextDisabled == (i == |pages| - 1)
      && nextLabel == (if i == |pages| - 1 then FinishLabel else NextLabel)
    }

    /** The index stays on a page (or at 0 when there are none) and the display shows it. */
    ghost predicate Valid()
      reads this
    {
      && 0 <= currentIndex
      && (currentIndex < |pages| || currentIndex == 0)
      && Shows(currentIndex)
    }

    /** The script's start: index 0 and `loadPage(0)`. */
    constructor(pages: seq<string>)
      ensures Valid() && this.pages == pages && currentIndex == 0
    {
      this.pages := pages;
      currentIndex := 0;
      new;
      LoadPage(0);
    }

    /** `loadPage(index)`: refresh the frame, the page number and both buttons. */
    method LoadPage(index: int)
      modifies this
      ensures Shows(index) && currentIndex == old(currentIndex)
    {
      srcdoc := if 0 <= index < |pages| then pages[index] else Undefined;
      pageNumber := index + 1;
      prevDisabled := index == 0;
      nextDisabled := index == |pages| - 1;
      nextLabel := if index == |pages| - 1 then FinishLabel else NextLabel;
    }

    /** `nextPage`: move on only when not on the last page. */
    method NextPage()
      requires Valid()
      modifies this
      ensures Valid()
      ensures currentIndex == NextIndex(|pages|, old(currentIndex))
      ensures currentIndex == old(currentIndex) ==> Shows(old(currentIndex))
    {
      if currentIndex < |pages| - 1 {
        currentIndex := currentIndex + 1;
        LoadPage(currentIndex);
      }
    }

    /** `prevPage`: move back only when not on the first page. */
    method PrevPage()
      requires Valid()
      modifies this
      ensures Valid()
      ensures currentIndex == PrevIndex(old(currentIndex))
    {
      if currentIndex > 0 {
        currentIndex := currentIndex - 1;
        LoadPage(currentIndex);
      }
    }
  }
}
