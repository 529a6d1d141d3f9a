# ShikshaGen lesson generator — a Dafny model of its lesson state

ShikshaGen lets a content author generate multi-page HTML lessons. Each lesson has two
parallel page tracks: regional pages for students and English pages for review. A
structured, hand-editable set of content blocks is the lesson's source of truth. The
author can work on a lesson in four ways:

- regenerate it from edited blocks;
- change it through a chat instruction;
- add or delete pages;
- edit a page visually, directly inside its preview frame.

The content itself comes from a generative-model gateway. That gateway is outside
this model.

This project models the application's own logic. Each part is proved against its
contracts:

- **Lesson store** (`lesson_app.dfy`, module `LessonApp`; source `App.tsx`). The class
  `App` holds:
  - the lesson, as two page arrays plus the blocks;
  - the current page index, the view mode, the busy flag and the last error.

  Its handlers are generate, regenerate-from-blocks, chat modify, chat add-page,
  delete-page, patch-a-page, the pager chevrons and "New Lesson".
  - The gateway's answer is a parameter of each handler.
  - A ghost log, `calls`, records what was sent to the gateway.
  - `Consistent()` says the two tracks have the same, non-zero length and the index is
    inside them. Every handler preserves it. Generate and regenerate establish it
    exactly when the gateway's result is well formed.
  - `SpliceOne` is the `splice(i, 1)` the delete handler uses, including JavaScript's
    clamping of the start index.
- **Playable viewer** (`playable_viewer.dfy`, module `PlayableViewer`). This is the
  pagination script embedded in the downloadable lesson. Its index moves agree with
  the in-app pager on every page of a non-empty lesson.
- **Visual edit session** (`html_preview.dfy`, module `VisualEdit`; source
  `components/HtmlPreview.tsx`). It is an Idle/Editing state machine over an abstract
  rendering surface:
  - the document;
  - whether the body accepts typing;
  - the editor style elements;
  - the normalisation style elements the frame added.

  The reload effect keeps its dependency values, so a new page never overwrites an
  edit in progress. Save removes the editing markers before the surface is
  serialised. Cancel reloads the stored page. Every load appends one normalisation
  style, as the code does; "## Findings" shows where that leads and proves the
  corrected load separately.
- **Chat assistant** (`chat_assistant.dfy`, module `Chat`; source
  `components/ChatAssistant.tsx`). This is the submit gate and the router. A blank
  prompt, or a submit while busy, dispatches nothing. Otherwise the trimmed prompt goes
  to the handler the mode selects, and the field is cleared.
- **Block editor** (`editable_view.dfy`, module `BlockEditor`; source
  `components/EditableView.tsx`). These are one-field, one-step and parsed-questions
  updates of a working copy, proved against pure record functions. Regenerate hands
  over the working copy.
- **Generation endpoint** (`generate_lesson.dfy`, module `GenerateLessonApi`; source
  `api/generate-lesson.ts`). It covers:
  - the CORS headers;
  - the ordered early replies: OPTIONS 200, non-POST 405, declared size over 4,718,592
    bytes 413, missing key 500, missing field 400;
  - the choice of prompt and PDF part;
  - the classification of every failure into a 500 reply.
- **Main screen wiring** (`main_screen.dfy`, module `MainScreen`; source `App.tsx` JSX).
  These are whole user events followed from a panel into the store:
  - a chat submit;
  - a block-editor regenerate;
  - a visual-edit save into the current regional page;
  - a visual edit carried across a page turn before it is saved (see "## Findings");
  - adding a page and deleting it again.

Shared pieces:

- `types.dfy` holds the records of `types.ts`.
- `js_text.dfy` writes out the JavaScript built-ins the code relies on:
  `String.prototype.trim`, `includes` and `parseInt` without a radix.
  - `trim` and `parseInt` use the ECMAScript white-space set.
  - `parseInt` handles its sign and `0x` prefix, reads the longest run of digits, and
    gives NaN (`None`) when there is no digit.
- `wrappers.dfy` holds `Option` and `Result`.

Three facts of the code that the model keeps as they are:

- The gateway's result replaces the lesson without any check that the two tracks are
  equally long and non-empty.
- The delete guard looks only at the regional track's length.
- The page patch does no bounds check. A caller of `UpdateHtmlPage` must pass an
  index inside the track (see "Left out").

## Model

| member | source | states |
|---|---|---|
| JsText.TrimStart | components/ChatAssistant.tsx:26-28 | the result is the suffix of the input after its longest white-space prefix; that prefix is all white space and the result does not start with white space |
| JsText.TrimEnd | components/ChatAssistant.tsx:26-28 | the result is the prefix before the longest white-space suffix; that suffix is all white space and the result does not end with white space |
| JsText.Trim | components/ChatAssistant.tsx:28 | `trim()` is the slice between the longest blank prefix and the longest blank suffix, and neither starts nor ends with white space |
| JsText.TrimEmptyIffBlank | components/ChatAssistant.tsx:26 | `prompt.trim()` is empty exactly when every character of the prompt is white space |
| JsText.TrimIdempotent | components/ChatAssistant.tsx:28 | trimming a trimmed prompt changes nothing |
| JsText.Includes | api/generate-lesson.ts:250-256 | `s.includes(w)` holds exactly when `w` occurs in `s` at some position |
| JsText.DecimalDigitsValue | api/generate-lesson.ts:142 | the digits of a decimal numeral read back to the number they were written from |
| JsText.ParseIntDigits | api/generate-lesson.ts:142 | `parseInt` of a string of decimal digits, leading zeros included, is the value of all its digits |
| JsText.ParseInt | api/generate-lesson.ts:142 | `parseInt` of a blank string is NaN, and a negative result needs a minus sign after the leading white space |
| JsText.ParseMagnitude | api/generate-lesson.ts:142 | the unsigned step yields a number only when the text starts with a digit; an empty text is NaN, and a text starting with a decimal digit (not a `0x` prefix) always yields a number |
| JsText.MagnitudeOfDigits | api/generate-lesson.ts:142 | a string of decimal digits has no `0x` prefix, so the unsigned step of `parseInt` reads all of it in base 10 |
| JsText.ParseIntDecimal | api/generate-lesson.ts:142 | `parseInt(String(n)) == n` for every natural number `n` |
| LessonApp.GenerateErrorMessage | App.tsx:28-30 | a thrown Error's own message is shown; anything else thrown shows the fixed fallback text |
| LessonApp.PrevTarget | App.tsx:223 | `Math.max(0, i - 1)`: never negative, one page back from any page but the first, never forward |
| LessonApp.NextTarget | App.tsx:235 | `Math.min(total - 1, i + 1)`: never past the last page, one page on from any page but the last, never backward |
| LessonApp.PrevDisabled | App.tsx:224 | the "previous" chevron is disabled, from any page, exactly when pressing it would not move |
| LessonApp.NextDisabled | App.tsx:236 | the "next" chevron is disabled, from any page of the lesson, exactly when pressing it would not move |
| LessonApp.PaginationStaysInRange | App.tsx:220-240 | from a page of a non-empty lesson both chevrons land on a page; an enabled chevron moves exactly one page and a disabled one targets the current page |
| LessonApp.SpliceIndex | App.tsx:105-106 | the position `splice(start, 1)` works at lies in `[0, len]` and is `start` itself whenever `start` is in range |
| LessonApp.SpliceOne | App.tsx:105-106 | at a position inside the array the element there is gone, earlier elements stay and later ones move down one; at the end nothing changes; no element is ever created |
| LessonApp.SpliceUndoesAppend | App.tsx:76-80 | splicing out the appended last page gives back the original track |
| LessonApp.SpliceKeepsTracksParallel | App.tsx:102-106 | splicing both equally long tracks at the same position leaves them equally long, one shorter at most |
| LessonApp.NewTrack | App.tsx:102-103 | a spread copy is a fresh array with the same pages |
| LessonApp.NewLesson | App.tsx:24-25 | a gateway result becomes two fresh, distinct arrays holding its two tracks, and its blocks |
| LessonApp.App.constructor | App.tsx:11-16 | the initial state: form view, idle, no lesson, no parameters, page 0, no error |
| LessonApp.App.HandleGenerate | App.tsx:19-35 | the error is cleared and the parameters stored; on success the lesson is exactly the result, view SPLIT and index 0, consistent exactly when the result is well formed; on failure the lesson is kept and the error set from what was thrown; not busy afterwards; a stored result lives in two freshly allocated arrays |
| LessonApp.App.HandleRegenerateFromBlocks | App.tsx:37-51 | nothing happens without earlier parameters; otherwise the gateway receives those parameters with the refined blocks; success replaces the lesson (view SPLIT, index 0, earlier error kept), failure keeps it and sets the regenerate error; a stored result lives in two freshly allocated arrays |
| LessonApp.App.HandleChatModify | App.tsx:54-64 | without parameters or lesson nothing happens; otherwise the current blocks, prompt and parameters go to the gateway and the blocks it returns go unchanged into regeneration, whose result is stored as by regenerate (consistent exactly when well formed); a failed modify keeps the lesson and sets the modify error; a regenerated lesson lives in two freshly allocated arrays |
| LessonApp.App.HandleChatAddPage | App.tsx:67-86 | on success both tracks gain the new page at their end, the blocks stay and the index is the old length (the new page); on failure the lesson is kept and the add-page error set; consistency is preserved; the extended tracks are freshly allocated copies |
| LessonApp.App.HandleDeletePage | App.tsx:94-118 | no lesson, a regional track of one page, or no confirmation change nothing; otherwise both tracks are spliced at the current index, blocks stay, and the index is pulled back to the new last page only if it fell off the end; the spliced tracks are freshly allocated copies |
| LessonApp.App.UpdateHtmlPage | App.tsx:120-129 | the same (shared) arrays stay in the store; exactly one slot of the chosen track is overwritten and the other track is untouched |
| LessonApp.App.PrevPage | App.tsx:223 | the index becomes `PrevTarget` of the old one; nothing else changes |
| LessonApp.App.NextPage | App.tsx:235 | the index becomes `NextTarget(total, old index)`; nothing else changes |
| LessonApp.App.SelectView | App.tsx:443-475 | a sidebar button (Parallel, Student, Review or Edit; never the form) changes the view mode and nothing else |
| LessonApp.App.StartNewLesson | App.tsx:395-398 | back to the form with no lesson; parameters, index and error are left as they were |
| PlayableViewer.NextIndex | App.tsx:209 | on every page of a non-empty lesson the viewer's next stays in the lesson and agrees with the in-app next chevron |
| PlayableViewer.PrevIndex | App.tsx:210 | from any page the viewer's previous stays in `[0, i]` and agrees with the in-app previous chevron |
| PlayableViewer.PagersDifferWithoutPages | App.tsx:209 | on every index either pager can hold, the two "next" moves differ exactly when there are no pages: there the in-app target is -1 and the viewer stays at 0 |
| PlayableViewer.Viewer.constructor | App.tsx:196-211 | the script starts at index 0 showing page 0 |
| PlayableViewer.Viewer.LoadPage | App.tsx:202-208 | frame, page number, both button states and the next label show the given page; an index with no page puts the text `undefined` in the frame |
| PlayableViewer.Viewer.NextPage | App.tsx:209 | the index moves as `NextIndex` and the display shows the new page |
| PlayableViewer.Viewer.PrevPage | App.tsx:210 | the index moves as `PrevIndex` and the display shows the new page |
| VisualEdit.Loaded | components/HtmlPreview.tsx:24-30 | the corrected load of the finding: a fresh, non-editable surface without editor style that shows exactly one normalisation style when the page carries none, and otherwise adds none |
| VisualEdit.LoadedAsWritten | components/HtmlPreview.tsx:16-33 | `loadContent`: the page in a fresh, non-editable surface without editor style, with one normalisation style added on top of the page on every load |
| VisualEdit.StylesAccumulateAsWritten | components/HtmlPreview.tsx:24-30 | with the load as written, `n` Edit/Save cycles store `n` more normalisation styles in the page |
| VisualEdit.StylesStable | components/HtmlPreview.tsx:24-30 | with the corrected load, a stored page carries one normalisation style after its first cycle and never more |
| VisualEdit.HtmlPreview.constructor | components/HtmlPreview.tsx:13-40 | mounting is Idle and the first effect run loads the content with `loadContent` as written |
| VisualEdit.HtmlPreview.Render | components/HtmlPreview.tsx:36-40 | the effect runs only when `[htmlContent, isEditing]` changed and reloads (as `loadContent` does) only when Idle, so an edit in progress is never overwritten |
| VisualEdit.HtmlPreview.EditOffered | components/HtmlPreview.tsx:103 | "Edit Visual" is shown exactly for an editable frame whose body does not accept typing |
| VisualEdit.HtmlPreview.SaveCancelOffered | components/HtmlPreview.tsx:112 | "Cancel" and "Save Changes" are shown exactly while the body accepts typing, never together with "Edit Visual" |
| VisualEdit.HtmlPreview.HandleEdit | components/HtmlPreview.tsx:42-70 | offered only with "Edit Visual" shown; the body becomes editable, the editor style is added only if absent, and the session is Editing |
| VisualEdit.HtmlPreview.AuthorTypes | components/HtmlPreview.tsx:47-50 | while editable, typing changes the document and nothing else |
| VisualEdit.HtmlPreview.HandleSave | components/HtmlPreview.tsx:72-90 | typing is switched off and the editor style removed before serialising; the serialised cleaned surface goes to `onHtmlUpdate` exactly when there is one; Idle afterwards |
| VisualEdit.HtmlPreview.HandleCancel | components/HtmlPreview.tsx:92-96 | Idle again with the stored page reloaded by `loadContent` as written |
| VisualEdit.CancelledSession | components/HtmlPreview.tsx:92-96 | Edit, typing, then Cancel leaves the frame showing the stored page as `loadContent` leaves it, whatever was typed |
| VisualEdit.SavedSession | components/HtmlPreview.tsx:72-90 | Edit, typing, then Save hands over the serialised typed document without editing markers; it carries the typed document's normalisation styles plus those the load added; the frame then shows the saved page as `loadContent` leaves it |
| Chat.Dispatched | components/ChatAssistant.tsx:24-36 | something is dispatched exactly when the prompt is not blank and nothing is loading; it is the trimmed prompt, non-empty and trimmed, sent to the modify handler exactly in modify mode |
| Chat.ChatAssistant.constructor | components/ChatAssistant.tsx:19-20 | empty prompt, modify mode |
| Chat.ChatAssistant.SendDisabled | components/ChatAssistant.tsx:138 | the send button is disabled exactly when the prompt is blank or a request is in flight, which is exactly when a submit dispatches nothing |
| Chat.ChatAssistant.SetPrompt | components/ChatAssistant.tsx:127 | typing replaces the prompt only |
| Chat.ChatAssistant.SetMode | components/ChatAssistant.tsx:58-69 | a mode button sets the mode only |
| Chat.ChatAssistant.Submit | components/ChatAssistant.tsx:24-36 | dispatches exactly when the send button is enabled, as `Dispatched` says; the prompt is cleared exactly when something is dispatched; the mode never changes |
| BlockEditor.WithText | components/EditableView.tsx:16-18 | the chosen text field gets the new value; every other text field and all structured fields are unchanged |
| BlockEditor.BlocksExtensional | types.ts:19-27 | two block records with the same text fields and the same structured fields are equal |
| BlockEditor.WithTextSameValue | components/EditableView.tsx:16-18 | writing a field's own value back changes nothing |
| BlockEditor.WithTextLastWins | components/EditableView.tsx:16-18 | of two edits of one field only the later shows |
| BlockEditor.WithTextCommute | components/EditableView.tsx:16-18 | edits of different fields commute |
| BlockEditor.WithStep | components/EditableView.tsx:20-24 | step `i` gets the new value; the step count, the other steps and every other field are unchanged |
| BlockEditor.WithParsedQuestions | components/EditableView.tsx:99-106 | a text that does not parse leaves the blocks unchanged; one that parses replaces the practice questions and nothing else |
| BlockEditor.EditableView.constructor | components/EditableView.tsx:14 | the working copy starts equal to the incoming blocks |
| BlockEditor.EditableView.HandleTextChange | components/EditableView.tsx:16-18 | the working copy becomes `WithText` of the old one |
| BlockEditor.EditableView.HandleArrayChange | components/EditableView.tsx:20-24 | the steps are copied into a fresh array, one slot overwritten, and the working copy becomes `WithStep` of the old one |
| BlockEditor.EditableView.HandlePracticeQuestionsChange | components/EditableView.tsx:99-106 | the working copy becomes `WithParsedQuestions` of the old one |
| BlockEditor.EditableView.RegenerateClick | components/EditableView.tsx:36-38 | blocks are handed over exactly when the button is enabled (not loading), and they are the current working copy |
| GenerateLessonApi.TooLargeDecimal | api/generate-lesson.ts:141-142 | for a header written as a decimal number the size check fires exactly above 4,718,592 bytes |
| GenerateLessonApi.Classify | api/generate-lesson.ts:242-265 | always 500; the key message exactly when the thrown message mentions `API_KEY`, else quota exactly for `quota`/`rate limit`, else permission exactly for `permission`, and the generic message when it mentions none; each specific message comes with its fixed details, the generic one with the message or "Unknown error"; the raw message only in development |
| GenerateLessonApi.Parts | api/generate-lesson.ts:168-222 | the text prompt comes first and is the regeneration prompt exactly when refined blocks are present; the initial prompt mentions the PDF exactly when there is one; the PDF is attached exactly when present and not regenerating |
| GenerateLessonApi.Admit | api/generate-lesson.ts:131-164 | OPTIONS gets 200 before any check; other non-POST 405; then declared size 413; then missing key 500; then an absent body the classified 500 of its TypeError; then missing field 400; each exactly when the earlier checks passed and each with its full reply; the model is called exactly when all pass, with `Parts` of the body |
| GenerateLessonApi.Complete | api/generate-lesson.ts:235-240 | 200 with the model's JSON exactly when it returned a non-empty text that parses; a thrown call, an empty text ("No content generated") and a text that does not parse (its syntax error) each give the classified 500 of what was thrown |
| GenerateLessonApi.Handle | api/generate-lesson.ts:118-266 | the reply is 200 exactly for OPTIONS or a successful model call, and its status is one of 200, 400, 405, 413, 500 |
| GenerateLessonApi.WithCors | api/generate-lesson.ts:123-129 | after the four `setHeader` calls the headers are the earlier ones overridden by exactly the four CORS headers and their values |
| GenerateLessonApi.ServerResponse.SetHeader | api/generate-lesson.ts:123-129 | one header is set, nothing else changes |
| GenerateLessonApi.Handler | api/generate-lesson.ts:118-129 | the four CORS headers are set on every reply, the reply is `Handle` of the request, and the model is called (with `Parts`) exactly when `Admit` lets the request through |
| MainScreen.ChatSubmit | App.tsx:507-512 | a blank prompt or a busy store sends nothing to the gateway; otherwise the gateway's next request carries the trimmed prompt, as modify or add-page by mode |
| MainScreen.EditorRegenerate | App.tsx:257-261 | unless busy or before a first generation, the gateway receives the last parameters with the working copy as refined blocks, and a success puts exactly the result in the store |
| MainScreen.PreviewSave | App.tsx:291-296 | a save in the regional preview overwrites exactly the regional page at the unchanged current index with the cleaned serialised document; the English track, the view, the error, the busy flag, the parameters and the request log are untouched, and the preview then shows the saved page as `loadContent` leaves it |
| MainScreen.EditAcrossPageTurnAsWritten | App.tsx:223-236 | as written, an edit opened on page `i`, carried over a "next" click and saved, lands on page `i + 1`, and page `i` keeps its old content |
| MainScreen.EditAcrossPageTurn | App.tsx:291-296 | with the save bound to the page the session was opened on, the same events put the edit on page `i`, change no other page, and leave the preview showing page `i + 1` |
| MainScreen.AddThenDeletePage | App.tsx:67-118 | adding a page and deleting it while viewing it restores both tracks and the blocks, with the index on the last page |

## Findings

| source | as written | input that shows it | evidently intended | confidence | as-written member | corrected member |
|---|---|---|---|---|---|---|
| App.tsx:291-296 | the regional preview's save writes to `currentPageIndex` as it is at save time, while the pager stays enabled during an edit and the preview's reload effect keeps an open edit across a page change | open "Edit Visual" on page `i`, press "next", then "Save Changes": page `i + 1` is overwritten with page `i`'s edited document and page `i` is unchanged | the edit is saved to the page it was made on | medium; not executed | MainScreen.EditAcrossPageTurnAsWritten | MainScreen.EditAcrossPageTurn |
| components/HtmlPreview.tsx:24-30 | `loadContent` appends the normalisation style on every load, and Save serialises the whole document including it | a stored page without that style, saved through `n` Edit/Save cycles without typing, ends up with `n` copies of it | add the style only if missing, as the comment says and as `handleEdit` does for its own style, so a stored page carries at most one | medium; not executed | VisualEdit.StylesAccumulateAsWritten | VisualEdit.StylesStable |

## Left out

- The content gateway (`services/geminiService.ts`) is not part of this model, and
  neither is the generative-model call in the endpoint. Each handler receives what the
  call returned or threw as a parameter, and the ghost log `calls` records the
  requests.
- These endpoints are not part of this model: `api/add-page.ts`,
  `api/modify-blocks.ts`, `api/rewrite-block.ts` and `api/check-config.ts`. They only
  forward requests and inspect the environment.
- The prompt texts are not modelled, in the endpoint or elsewhere. A prompt is
  represented only by its kind and, for the initial prompt, whether it mentions the
  PDF. The response schema and the system instruction are left out too.
- `handleBlockAssist` (`App.tsx:89-92`) is left out: `EditableView` never uses its
  `onAiAssist` prop.
- The input form (`components/InputForm.tsx`) is left out. So is `handleDownload`
  (blob download), and so is the rest of the exported lesson template apart from its
  pagination script. They are file and DOM plumbing.
- `alert` and `confirm` in `handleDeletePage` become the `DeleteOutcome` result and the
  `confirmed` parameter.
- Asynchrony: handlers run to completion, so interleavings of two requests in flight
  are not modelled. Between events the busy flag is always down in this model. The
  busy gates of the chat and block editor are stated in terms of their `isLoading`
  parameter.
- LessonApp.App.UpdateHtmlPage: requires the index to be inside the track. In
  JavaScript a write past the end would lengthen one track alone. The callers only pass
  the current page index.
- LessonApp.App.HandleDeletePage: the tracks are built as spliced copies
  (`SpliceOne`), not by splicing a copied array in place.
- BlockEditor.WithParsedQuestions: `JSON.parse` is a parameter. The source stores
  whatever value parses, even one that is not a list of questions. The model only
  admits a list.
- BlockEditor.EditableView.HandleArrayChange: requires the step index to exist, as the
  editor only renders inputs for existing steps. A write past the end is not modelled.
- VisualEdit: the surface abstracts the DOM:
  - `designMode` and the `contenteditable` attribute are one editable flag;
  - each style element is a count;
  - focus and the iframe's existence checks are left out;
  - `outerHTML` and the count of normalisation styles in a page's markup are supplied
    functions, related by `Serialises`.
- VisualEdit.HtmlPreview: the `isEditable` and `onHtmlUpdate` props are fixed when the
  frame is mounted; only `htmlContent` changes between renders. The code can change
  them on a mounted frame: in single view (`App.tsx:343-348`) switching between
  Student and Review keeps the same frame while both props flip, and an edit session
  in progress survives the switch. A Save in Review then hands the edit to no
  callback. That case is not modelled.
- Chat: the panel's rendering when closed (`isOpen`) and its close button are left
  out. The prompt and mode state do not depend on them.
- GenerateLessonApi: JSON bodies are reduced to the fields the handler reads, each
  either a string or absent. Falsy values other than the empty string are not
  distinguished.
- GenerateLessonApi: when the body is absent, the handler throws a TypeError on reading
  `grade`, and the model classifies that TypeError's text. That text is Node.js's; the
  model does not prove which category it falls into.
- GenerateLessonApi: `console.error` logging is left out, and so is the one in
  `handleGenerate` (`App.tsx:31`).
- JsText.ParseInt: only the forms without a radix are modelled. Infinity, numeric
  separators and the precision limits of floating-point numbers are left out. The
  integers are unbounded.
