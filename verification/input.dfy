/** The message box (components/ChatInput.tsx): what submitting does with
    the typed text, which keys submit, and when the send button is disabled. */
module ChatInputBox {
  import opened Types
  import opened Text

  /** The outcome of `handleSubmit`: the text handed to `onSend`, if any,
      and what the box holds afterwards. */
  datatype Submit = Submit(sent: Option<string>, mensaje: string)

  /** `handleSubmit` with the box holding `mensaje`. */
  function HandleSubmit(mensaje: string, disabled: bool): (r: Submit)
  {
    var textoLimpio := Trim(mensaje);
    if textoLimpio != "" && !disabled then Submit(Some(textoLimpio), "") else Submit(None, mensaje)
  }

  /** A key press in the box: its key name and whether Shift is held. */
  datatype KeyPress = KeyPress(key: string, shiftKey: bool)

  /** The outcome of `handleKeyDown`: whether the default action (a new
      line) is prevented, and the submission it triggers, if it triggers one. */
  datatype KeyOutcome = KeyOutcome(preventDefault: bool, submit: Option<Submit>)

  function HandleKeyDown(e: KeyPress, mensaje: string, disabled: bool): (r: KeyOutcome)
  {
    if e.key == "Enter" && !e.shiftKey then KeyOutcome(true, Some(HandleSubmit(mensaje, disabled)))
    else KeyOutcome(false, None)
  }

  /** The button's `disabled` attribute. */
  predicate ButtonDisabled(mensaje: string, disabled: bool) {
    disabled || Trim(mensaje) == ""
  }

  /** Submitting sends the trimmed text exactly when it is non-empty and the
      box is enabled, and then clears the box; otherwise nothing is sent and
      the box keeps its text. */
  lemma SubmitSpec(mensaje: string, disabled: bool)
    ensures HandleSubmit(mensaje, disabled).sent.Some? <==> Trim(mensaje) != "" && !disabled
    ensures HandleSubmit(mensaje, disabled).sent.Some? ==>
              HandleSubmit(mensaje, disabled).sent.value == Trim(mensaje) && HandleSubmit(mensaje, disabled).mensaje == ""
    ensures HandleSubmit(mensaje, disabled).sent.None? ==> HandleSubmit(mensaje, disabled).mensaje == mensaje
  {
  }

  /** Whatever is sent is non-empty, neither starts nor ends with whitespace,
      sits inside the typed text between whitespace margins, and is left
      unchanged by a second trim. */
  lemma SentIsTrimmed(mensaje: string, disabled: bool)
    requires HandleSubmit(mensaje, disabled).sent.Some?
    ensures var t := HandleSubmit(mensaje, disabled).sent.value;
            && t != "" && IsTrimmed(t) && Trim(t) == t
            && exists lo :: 0 <= lo <= |mensaje| - |t| && mensaje[lo..lo + |t|] == t
                 && AllWhitespace(mensaje[..lo]) && AllWhitespace(mensaje[lo + |t|..])
  {
    TrimCharacterization(mensaje);
    TrimIdempotent(mensaje);
  }

  /** The button is disabled exactly when clicking it would send nothing. */
  lemma ButtonDisabledIffNoSend(mensaje: string, disabled: bool)
    ensures ButtonDisabled(mensaje, disabled) <==> HandleSubmit(mensaje, disabled).sent.None?
  {
  }

  /** Enter without Shift prevents the new line and submits; Shift+Enter and
      every other key do neither. */
  lemma KeySpec(e: KeyPress, mensaje: string, disabled: bool)
    ensures HandleKeyDown(e, mensaje, disabled).preventDefault <==> e.key == "Enter" && !e.shiftKey
    ensures HandleKeyDown(e, mensaje, disabled).submit.Some? <==> e.key == "Enter" && !e.shiftKey
    ensures HandleKeyDown(e, mensaje, disabled).submit.Some? ==>
              HandleKeyDown(e, mensaje, disabled).submit.value == HandleSubmit(mensaje, disabled)
  {
  }

  /** A text made only of whitespace is never sent, whatever the state. */
  lemma BlankNeverSent(mensaje: string, disabled: bool)
    requires AllWhitespace(mensaje)
    ensures HandleSubmit(mensaje, disabled).sent.None?
    ensures ButtonDisabled(mensaje, disabled)
  {
    TrimStartOfWhitespace(mensaje);
  }
}
