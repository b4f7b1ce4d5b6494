/** The prompt editor and the Generate button. */
module PromptControls {
  import opened Js

  /** The props the editor receives from the session. */
  datatype Props = Props(prompt: string, isLoading: bool, disabled: bool)

  /** Whether the Generate button is disabled: while a request is loading
      (the only single-flight guard), while the editor is disabled, or while
      the prompt is blank after trimming. */
  function GenerateDisabled(p: Props): (off: bool)
    ensures p.isLoading ==> off
    ensures p.disabled ==> off
    ensures AllTrimmable(p.prompt) ==> off
    ensures off ==> p.isLoading || p.disabled || AllTrimmable(p.prompt)
  {
    p.isLoading || p.disabled || Trim(p.prompt) == ""
  }

  /** The button is enabled exactly when none of the three conditions hold;
      a blank prompt is one made only of trimmable characters. */
  lemma GenerateEnabledIff(p: Props)
    ensures !GenerateDisabled(p) <==> !p.isLoading && !p.disabled && !AllTrimmable(p.prompt)
  {
  }
}
