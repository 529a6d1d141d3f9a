/**
 * How the main screen (App.tsx) connects its panels to the lesson store: the chat
 * assistant's callbacks are the chat handlers, the block editor's regenerate is the
 * regeneration handler, and the regional preview's save patches the current page.
 * Each method is one user event followed through to the store.
 */
module MainScreen {
  import opened Wrappers
  import opened Types
  import opened JsText
  import LessonApp
  import Chat
  import BlockEditor
  import VisualEdit

  /**
   * A submit in the chat panel, with the store's busy flag as `isLoading`. A blank
   * prompt or a busy store sends nothing to the gateway; otherwise the gateway
   * receives the trimmed prompt, as a change to the current blocks or as a request
   * for one more page according to the mode.
   */
  method ChatSubmit(app: LessonApp.App, chat: Chat.ChatAssistant,
                    modified: Result<EditableBlocks, Thrown>,
                    regenerated: Result<GeneratedLesson, Thrown>,
                    added: Result<NewPage, Thrown>)
    returns (d: Option<Chat.Dispatch>)
    requires app.Valid()
    modifies app, chat
    ensures app.Valid()
    ensures d == Chat.Dispatched(old(chat.prompt), chat.mode, old(app.loading))
    ensures d.None? ==> app.calls == old(app.calls) && chat.prompt == old(chat.prompt)
    ensures IsBlank(old(chat.prompt)) ==> app.calls == old(app.calls)
    ensures d.Some? && old(app.currentParams).Some? && old(app.lessonData).Some? ==>
      && |app.calls| > |old(app.calls)|
      && app.calls[|old(app.calls)|] ==
           (if chat.mode == Chat.Modify
            then LessonApp.ModifyBlocks(old(app.lessonData).value.blocks, Trim(old(chat.prompt)),
                                        old(app.currentParams).value)
            else LessonApp.GeneratePage(old(app.currentParams).value, Trim(old(chat.prompt))))
  {
    d := chat.Submit(app.loading);
    if d.Some? {
      match d.value {
        case ModifyBlocks(instruction) =>
          app.HandleChatModify(instruction, modified, regenerated);
        case AddPage(instruction) =>
          app.HandleChatAddPage(instruction, added);
      }
    }
  }

  /**
   * "Regenerate Lesson" in the block editor: unless the store is busy, the working
   * copy of the blocks goes to the gateway as the refined blocks of the last
   * generation's parameters.
   */
  method EditorRegenerate(app: LessonApp.App, editor: BlockEditor.EditableView,
                          outcome: Result<GeneratedLesson, Thrown>)
    requires app.Valid()
    modifies app
    ensures app.Valid()
    ensures old(app.loading) || old(app.currentParams).None? ==> app.calls == old(app.calls)
    ensures !old(app.loading) && old(app.currentParams).Some? ==>
      app.calls == old(app.calls) +
        [LessonApp.Generate(old(app.currentParams).value.(refinedBlocks := Some(editor.editedBlocks)))]
    ensures !old(app.loading) && old(app.currentParams).Some? && outcome.Success? ==>
      app.Holds(outcome.value) && app.viewMode == Split && app.currentPageIndex == 0
  {
    var handoff := editor.RegenerateClick(app.loading);
    if handoff.Some? {
      app.HandleRegenerateFromBlocks(handoff.value, outcome);
    }
  }

  /**
   * The regional preview of the split view, showing the current page, is edited and
   * saved: the current regional page becomes the serialised, cleaned document, the
   * English track, the other pages and the rest of the store are untouched, and the
   * preview, re-rendered with the new page, shows it.
   */
  method PreviewSave(app: LessonApp.App, preview: VisualEdit.HtmlPreview) returns (update: Option<string>)
    requires app.Valid() && app.Consistent() && app.lessonData.Some?
    requires preview.Valid() && preview.Settled() && preview.isEditing && preview.hasUpdateCallback
    requires preview.htmlContent == app.RegionalPages()[app.currentPageIndex]
    modifies app, app.Footprint(), preview
    ensures app.Valid() && app.Consistent() && app.lessonData == old(app.lessonData)
    ensures update == Some(preview.outerHtml(VisualEdit.Surface(old(preview.surface.doc), false, 0,
                                                                old(preview.surface.addedViewStyles))))
    ensures app.currentPageIndex == old(app.currentPageIndex)
    ensures app.RegionalPages() == old(app.RegionalPages())[old(app.currentPageIndex) := update.value]
    ensures app.EnglishPages() == old(app.EnglishPages())
    ensures app.viewMode == old(app.viewMode) && app.error == old(app.error) && app.loading == old(app.loading)
    ensures app.currentParams == old(app.currentParams) && app.calls == old(app.calls)
    ensures preview.Valid() && !preview.isEditing
    ensures preview.surface == VisualEdit.LoadedAsWritten(update.value)
    ensures preview.htmlContent == app.RegionalPages()[app.currentPageIndex]
  {
    update := preview.HandleSave();
    app.UpdateHtmlPage(LessonApp.Regional, app.currentPageIndex, update.value);
    preview.Render(app.lessonData.value.regional[app.currentPageIndex]);
  }

  /**
   * As written, an edit session is not tied to its page: the pager stays enabled while
   * the regional preview of the split view is being edited, the re-render with the
   * next page keeps the session open, and the save callback uses the index current at
   * save time. So an edit opened on page `i`, carried over a "next" click and then
   * saved lands on page `i + 1`, and page `i` keeps its old content.
   */
  method EditAcrossPageTurnAsWritten(app: LessonApp.App, preview: VisualEdit.HtmlPreview, typed: string)
    returns (update: Option<string>)
    requires app.Valid() && app.Consistent() && app.lessonData.Some?
    requires app.currentPageIndex < |app.RegionalPages()| - 1
    requires preview.Valid() && preview.Settled() && preview.EditOffered() && preview.hasUpdateCallback
    requires preview.htmlContent == app.RegionalPages()[app.currentPageIndex]
    requires preview.viewStylesIn(typed) == preview.viewStylesIn(preview.surface.doc)
    modifies app, app.Footprint(), preview
    ensures app.Valid() && app.Consistent() && app.lessonData == old(app.lessonData)
    ensures update == Some(preview.outerHtml(VisualEdit.Surface(typed, false, 0, old(preview.surface.addedViewStyles))))
    ensures app.currentPageIndex == old(app.currentPageIndex) + 1
    ensures app.RegionalPages() == old(app.RegionalPages())[old(app.currentPageIndex) + 1 := update.value]
    ensures app.RegionalPages()[old(app.currentPageIndex)] == old(app.RegionalPages())[old(app.currentPageIndex)]
    ensures app.EnglishPages() == old(app.EnglishPages())
  {
    preview.HandleEdit();
    preview.Render(preview.htmlContent);
    preview.AuthorTypes(typed);
    app.NextPage();
    preview.Render(app.lessonData.value.regional[app.currentPageIndex]);
    update := preview.HandleSave();
    app.UpdateHtmlPage(LessonApp.Regional, app.currentPageIndex, update.value);
    preview.Render(app.lessonData.value.regional[app.currentPageIndex]);
  }

  /**
   * The same events with the save bound to the page the session was opened on: the
   * edit lands on page `i`, every other page keeps its content, and the view stays on
   * page `i + 1`, which the preview shows once the session is over.
   */
  method EditAcrossPageTurn(app: LessonApp.App, preview: VisualEdit.HtmlPreview, typed: string)
    returns (update: Option<string>)
    requires app.Valid() && app.Consistent() && app.lessonData.Some?
    requires app.currentPageIndex < |app.RegionalPages()| - 1
    requires preview.Valid() && preview.Settled() && preview.EditOffered() && preview.hasUpdateCallback
    requires preview.htmlContent == app.RegionalPages()[app.currentPageIndex]
    requires preview.viewStylesIn(typed) == preview.viewStylesIn(preview.surface.doc)
    modifies app, app.Footprint(), preview
    ensures app.Valid() && app.Consistent() && app.lessonData == old(app.lessonData)
    ensures update == Some(preview.outerHtml(VisualEdit.Surface(typed, false, 0, old(preview.surface.addedViewStyles))))
    ensures app.currentPageIndex == old(app.currentPageIndex) + 1
    ensures app.RegionalPages() == old(app.RegionalPages())[old(app.currentPageIndex) := update.value]
    ensures app.EnglishPages() == old(app.EnglishPages())
    ensures preview.Valid() && !preview.isEditing
    ensures preview.surface == VisualEdit.LoadedAsWritten(app.RegionalPages()[app.currentPageIndex])
  {
    var sessionPage := app.currentPageIndex;
    preview.HandleEdit();
    preview.Render(preview.htmlContent);
    preview.AuthorTypes(typed);
    app.NextPage();
    preview.Render(app.lessonData.value.regional[app.currentPageIndex]);
    update := preview.HandleSave();
    app.UpdateHtmlPage(LessonApp.Regional, sessionPage, update.value);
    preview.Render(app.lessonData.value.regional[app.currentPageIndex]);
  }

  /**
   * A page added through the chat and then deleted again (with the view still on it)
   * leaves both tracks as they were, and the view on what is now the last page.
   */
  method AddThenDeletePage(app: LessonApp.App, prompt: string, page: NewPage)
    returns (result: LessonApp.DeleteOutcome)
    requires app.Valid() && app.Consistent() && app.lessonData.Some? && app.currentParams.Some?
    modifies app
    ensures app.Valid() && app.Consistent() && app.lessonData.Some?
    ensures result == LessonApp.Deleted
    ensures app.RegionalPages() == old(app.RegionalPages())
    ensures app.EnglishPages() == old(app.EnglishPages())
    ensures app.lessonData.value.blocks == old(app.lessonData).value.blocks
    ensures app.currentPageIndex == |old(app.RegionalPages())| - 1
  {
    ghost var regional := app.RegionalPages();
    ghost var english := app.EnglishPages();
    app.HandleChatAddPage(prompt, Success(page));
    LessonApp.SpliceUndoesAppend(regional, page.regional);
    LessonApp.SpliceUndoesAppend(english, page.english);
    result := app.HandleDeletePage(true);
  }
}
