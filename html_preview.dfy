/**
 * The preview frame with in-place visual editing (components/HtmlPreview.tsx): an
 * Idle/Editing state machine over a rendering surface. The surface is abstracted to
 * the document written into the frame, whether its body accepts typing, how many
 * "editor-styles" style elements its head holds, and how many normalisation style
 * elements the frame added on top of the document. Serialising a surface
 * (`outerHTML`) and counting the normalisation styles a page's markup already holds
 * belong to the browser and are supplied as functions.
 */
module VisualEdit {
  import opened Wrappers

  /** The rendering surface of the frame. */
  datatype Surface = Surface(doc: string, editable: bool, editorStyles: nat, addedViewStyles: nat)

  /**
   * What the browser's serialisation keeps: the normalisation styles of the page
   * written into the frame plus those the frame added.
   */
  ghost predicate Serialises(outerHtml: Surface -> string, viewStylesIn: string -> nat)
  {
    forall s: Surface :: viewStylesIn(outerHtml(s)) == viewStylesIn(s.doc) + s.addedViewStyles
  }

  /**
   * The corrected load: the content written into a fresh document that accepts no
   * typing and holds no editor style, with the normalisation style added only when the
   * content does not already carry one.
   */
  function Loaded(content: string, viewStylesIn: string -> nat): (s: Surface)
    ensures s.doc == content && !s.editable && s.editorStyles == 0
    ensures viewStylesIn(content) + s.addedViewStyles ==
      (if viewStylesIn(content) == 0 then 1 else viewStylesIn(content))
  {
    Surface(content, false, 0, if viewStylesIn(content) == 0 then 1 else 0)
  }

  /**
   * What `loadContent(content)` leaves, as written: the content in a fresh document
   * that accepts no typing and holds no editor style, with one normalisation style
   * appended on every load.
   */
  function LoadedAsWritten(content: string): (s: Surface)
    ensures s.doc == content && !s.editable && s.editorStyles == 0 && s.addedViewStyles == 1
  {
    Surface(content, false, 0, 1)
  }

  /** The page a save stores when nothing was typed: the loaded surface, cleaned and serialised. */
  function SavedUntouched(outerHtml: Surface -> string, loaded: Surface): string
  {
    outerHtml(loaded.(editable := false, editorStyles := 0))
  }

  /** The stored page after `n` Edit/Save cycles without typing, with the as-written load. */
  function CyclesAsWritten(outerHtml: Surface -> string, page: string, n: nat): string
    decreases n
  {
    if n == 0 then page else CyclesAsWritten(outerHtml, SavedUntouched(outerHtml, LoadedAsWritten(page)), n - 1)
  }

  /** The stored page after `n` Edit/Save cycles without typing, with the corrected load. */
  function Cycles(outerHtml: Surface -> string, viewStylesIn: string -> nat, page: string, n: nat): string
    decreases n
  {
    if n == 0 then page
    else Cycles(outerHtml, viewStylesIn, SavedUntouched(outerHtml, Loaded(page, viewStylesIn)), n - 1)
  }

  /**
   * As written, every Edit/Save cycle stores one more copy of the normalisation style:
   * after `n` cycles the page carries `n` more than it started with.
   */
  lemma {:induction false} StylesAccumulateAsWritten(outerHtml: Surface -> string,
                                                      viewStylesIn: string -> nat, page: string, n: nat)
    requires Serialises(outerHtml, viewStylesIn)
    ensures viewStylesIn(CyclesAsWritten(outerHtml, page, n)) == viewStylesIn(page) + n
    decreases n
  {
    if n > 0 {
      var next := SavedUntouched(outerHtml, LoadedAsWritten(page));
      assert viewStylesIn(next) == viewStylesIn(page) + 1;
      StylesAccumulateAsWritten(outerHtml, viewStylesIn, next, n - 1);
    }
  }

  /**
   * With the normalisation style added only when missing, a stored page carries one
   * copy after its first cycle and never more, however many cycles follow.
   */
  lemma {:induction false} StylesStable(outerHtml: Surface -> string,
                                        viewStylesIn: string -> nat, page: string, n: nat)
    requires Serialises(outerHtml, viewStylesIn)
    ensures viewStylesIn(Cycles(outerHtml, viewStylesIn, page, n)) ==
      (if n == 0 || viewStylesIn(page) > 0 then viewStylesIn(page) else 1)
    decreases n
  {
    if n > 0 {
      var next := SavedUntouched(outerHtml, Loaded(page, viewStylesIn));
      assert viewStylesIn(next) == (if viewStylesIn(page) == 0 then 1 else viewStylesIn(page));
      StylesStable(outerHtml, viewStylesIn, next, n - 1);
    }
  }

  class HtmlPreview {
    /** The `htmlContent` prop: the stored page this frame shows. */
    var htmlContent: string
    /** The `isEditable` prop. */
    const isEditable: bool
    /** Whether the parent passed an `onHtmlUpdate` callback. */
    const hasUpdateCallback: bool
    /** The browser's serialisation of a surface, `documentElement.outerHTML`. */
    const outerHtml: Surface -> string
    /** How many normalisation style elements a page's markup holds. */
    const viewStylesIn: string -> nat
    var isEditing: bool
    var surface: Surface
    /** The values of `[htmlContent, isEditing]` the reload effect last ran with. */
    var effectDeps: (string, bool)

    /**
     * Editing exactly when the body accepts typing, and the editor style is present,
     * once, exactly while editing.
     */
    ghost predicate Valid()
      reads this
    {
      && Serialises(outerHtml, viewStylesIn)
      && surface.editable == isEditing
      && surface.editorStyles == (if isEditing then 1 else 0)
    }

    /** The reload effect has run for the current `htmlContent` and `isEditing`, as after every render. */
    predicate Settled()
      reads this
    {
      effectDeps == (htmlContent, isEditing)
    }

    /** The "Edit Visual" button is shown: for an editable frame whose body does not accept typing. */
    predicate EditOffered()
      reads this
      ensures Valid() ==> (EditOffered() <==> isEditable && !surface.editable)
    {
      isEditable && !isEditing
    }

    /**
     * The "Cancel" and "Save Changes" buttons are shown: exactly while the body accepts
     * typing, and never together with "Edit Visual".
     */
    predicate SaveCancelOffered()
      reads this
      ensures Valid() ==> (SaveCancelOffered() <==> surface.editable)
      ensures SaveCancelOffered() ==> !EditOffered()
    {
      isEditing
    }

    /** Mounting: Idle, and the first run of the reload effect loads the content. */
    constructor(htmlContent: string, isEditable: bool, hasUpdateCallback: bool,
                outerHtml: Surface -> string, viewStylesIn: string -> nat)
      requires Serialises(outerHtml, viewStylesIn)
      ensures Valid() && Settled() && !isEditing
      ensures this.htmlContent == htmlContent && this.isEditable == isEditable
      ensures this.hasUpdateCallback == hasUpdateCallback
      ensures this.outerHtml == outerHtml && this.viewStylesIn == viewStylesIn
      ensures surface == LoadedAsWritten(htmlContent) && effectDeps == (htmlContent, false)
    {
      this.htmlContent := htmlContent;
      this.isEditable := isEditable;
      this.hasUpdateCallback := hasUpdateCallback;
      this.outerHtml := outerHtml;
      this.viewStylesIn := viewStylesIn;
      isEditing := false;
      surface := LoadedAsWritten(htmlContent);
      effectDeps := (htmlContent, false);
    }

    /**
     * A render with `content` as the `htmlContent` prop, followed by the reload effect:
     * it runs when `htmlContent` or `isEditing` differs from its last run, and reloads
     * the surface only when Idle. A new page therefore never overwrites a session in
     * progress. Every state change of the frame is followed by one such render.
     */
    method Render(content: string)
      requires Valid()
      modifies this
      ensures Valid() && Settled()
      ensures htmlContent == content && isEditing == old(isEditing)
      ensures effectDeps == (content, isEditing)
      ensures isEditing ==> surface == old(surface)
      ensures !isEditing ==>
        surface == (if (content, false) != old(effectDeps) then LoadedAsWritten(content) else old(surface))
    {
      htmlContent := content;
      if (htmlContent, isEditing) != effectDeps {
        effectDeps := (htmlContent, isEditing);
        if !isEditing {
          surface := LoadedAsWritten(htmlContent);
        }
      }
    }

    /**
     * handleEdit: the body accepts typing, the editor style is added unless one with its
     * id is already there, and the session is Editing.
     */
    method HandleEdit()
      requires Valid() && EditOffered()
      modifies this
      ensures Valid() && isEditing
      ensures surface.doc == old(surface.doc) && surface.editable
      ensures surface.addedViewStyles == old(surface.addedViewStyles)
      ensures surface.editorStyles == (if old(surface.editorStyles) == 0 then 1 else old(surface.editorStyles))
      ensures htmlContent == old(htmlContent) && effectDeps == old(effectDeps)
    {
      surface := surface.(editable := true);
      if surface.editorStyles == 0 {
        surface := surface.(editorStyles := 1);
      }
      isEditing := true;
    }

    /**
     * The author typing into the editable surface (the browser's doing, not the
     * component's): only the document changes, and typing in the body leaves the
     * styles of the head alone.
     */
    method AuthorTypes(newDoc: string)
      requires surface.editable
      requires viewStylesIn(newDoc) == viewStylesIn(surface.doc)
      modifies this
      ensures surface == old(surface).(doc := newDoc)
      ensures isEditing == old(isEditing) && htmlContent == old(htmlContent)
      ensures effectDeps == old(effectDeps)
    {
      surface := surface.(doc := newDoc);
    }

    /**
     * handleSave: typing is switched off and the editor style removed first, the
     * cleaned surface is serialised and handed to `onHtmlUpdate` when there is one,
     * and the session is Idle. The result is the argument of that callback.
     */
    method HandleSave() returns (update: Option<string>)
      requires Valid() && SaveCancelOffered()
      modifies this
      ensures Valid() && !isEditing
      ensures surface == Surface(old(surface.doc), false, 0, old(surface.addedViewStyles))
      ensures update == (if hasUpdateCallback then Some(outerHtml(surface)) else None)
      ensures htmlContent == old(htmlContent) && effectDeps == old(effectDeps)
    {
      surface := surface.(editable := false);
      if surface.editorStyles > 0 {
        surface := surface.(editorStyles := surface.editorStyles - 1);
      }
      var newHtml := outerHtml(surface);
      update := if hasUpdateCallback then Some(newHtml) else None;
      isEditing := false;
    }

    /** handleCancel: Idle again, and the stored content reloaded over whatever was typed. */
    method HandleCancel()
      requires Valid() && SaveCancelOffered()
      modifies this
      ensures Valid() && !isEditing
      ensures surface == LoadedAsWritten(htmlContent)
      ensures htmlContent == old(htmlContent) && effectDeps == old(effectDeps)
    {
      isEditing := false;
      surface := LoadedAsWritten(htmlContent);
    }
  }

  /**
   * A whole session that ends in Cancel: whatever was typed, the frame ends up showing
   * the stored page again, and the re-render that follows leaves it there.
   */
  method CancelledSession(p: HtmlPreview, typed: string)
    requires p.Valid() && p.Settled() && p.EditOffered()
    requires p.viewStylesIn(typed) == p.viewStylesIn(p.surface.doc)
    modifies p
    ensures p.Valid() && p.Settled() && !p.isEditing
    ensures p.surface == LoadedAsWritten(old(p.htmlContent))
  {
    p.HandleEdit();
    p.Render(p.htmlContent);
    p.AuthorTypes(typed);
    p.HandleCancel();
    p.Render(p.htmlContent);
  }

  /**
   * A whole session that ends in Save: what is handed to the parent is the serialised
   * typed document without the editing markers, and it keeps the normalisation style
   * the load added on top of the typed document's own; once the parent renders the
   * saved page, the frame shows it, with one more such style appended.
   */
  method SavedSession(p: HtmlPreview, typed: string) returns (update: Option<string>)
    requires p.Valid() && p.Settled() && p.EditOffered() && p.hasUpdateCallback
    requires p.viewStylesIn(typed) == p.viewStylesIn(p.surface.doc)
    modifies p
    ensures update == Some(p.outerHtml(Surface(typed, false, 0, old(p.surface.addedViewStyles))))
    ensures p.Valid() && p.Settled() && !p.isEditing
    ensures p.viewStylesIn(update.value) == p.viewStylesIn(old(p.surface.doc)) + old(p.surface.addedViewStyles)
    ensures p.surface == LoadedAsWritten(update.value)
  {
    p.HandleEdit();
    p.Render(p.htmlContent);
    p.AuthorTypes(typed);
    update := p.HandleSave();
    p.Render(update.value);
  }
}
