/**
 * The chat assistant panel (components/ChatAssistant.tsx): a free-text instruction
 * and a mode, submitted either as a change to the existing blocks or as a request
 * for one more page.
 */
module Chat {
  import opened Wrappers
  import opened JsText

  datatype Mode = Modify | Add

  /** The parent callback a submission invokes, with the instruction it passes. */
  datatype Dispatch = ModifyBlocks(instruction: string) | AddPage(instruction: string)

  /**
   * What submitting `prompt` in `mode` hands to the parent: nothing while a request is
   * in flight or when the prompt is blank; otherwise the trimmed prompt, to the
   * callback the mode selects. The instruction is never empty and never starts or
   * ends with white space.
   */
  function Dispatched(prompt: string, mode: Mode, isLoading: bool): (d: Option<Dispatch>)
    ensures d.Some? <==> !IsBlank(prompt) && !isLoading
    ensures d.Some? ==> d.value.instruction == Trim(prompt)
    ensures d.Some? ==> (d.value.ModifyBlocks? <==> mode == Modify)
    ensures d.Some? ==> d.value.instruction != [] && Trim(d.value.instruction) == d.value.instruction
  {
    TrimEmptyIffBlank(prompt);
    TrimIdempotent(prompt);
    if Trim(prompt) == [] || isLoading then None
    else if mode == Modify then Some(ModifyBlocks(Trim(prompt)))
    else Some(AddPage(Trim(prompt)))
  }

  class ChatAssistant {
    var prompt: string
    var mode: Mode

    /** A fresh panel: empty prompt, "Modify Content" selected. */
    constructor()
      ensures prompt == [] && mode == Modify
    {
      prompt := [];
      mode := Modify;
    }

    /**
     * The send button is disabled: exactly when the prompt is blank or a request is in
     * flight, which is exactly when a submission would dispatch nothing.
     */
    predicate SendDisabled(isLoading: bool)
      reads this
      ensures SendDisabled(isLoading) <==> IsBlank(prompt) || isLoading
      ensures SendDisabled(isLoading) <==> Dispatched(prompt, mode, isLoading).None?
    {
      TrimEmptyIffBlank(prompt);
      Trim(prompt) == [] || isLoading
    }

    /** Typing into the input. */
    method SetPrompt(value: string)
      modifies this
      ensures prompt == value && mode == old(mode)
    {
      prompt := value;
    }

    /** One of the two mode buttons. */
    method SetMode(m: Mode)
      modifies this
      ensures mode == m && prompt == old(prompt)
    {
      mode := m;
    }

    /**
     * handleSubmit: a blank prompt or a request in flight leaves everything as it is;
     * otherwise the prompt is cleared and its trimmed text dispatched by mode. A
     * submission dispatches exactly when the send button is enabled.
     */
    method Submit(isLoading: bool) returns (d: Option<Dispatch>)
      modifies this
      ensures d == Dispatched(old(prompt), mode, isLoading)
      ensures d.Some? <==> !old(SendDisabled(isLoading))
      ensures prompt == (if d.Some? then [] else old(prompt))
      ensures mode == old(mode)
    {
      if Trim(prompt) == [] || isLoading {
        return None;
      }
      var userPrompt := Trim(prompt);
      prompt := [];
      if mode == Modify {
        d := Some(ModifyBlocks(userPrompt));
      } else {
        d := Some(AddPage(userPrompt));
      }
    }
  }
}
