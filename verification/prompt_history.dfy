/** The prompt-history panel: one chip per remembered prompt, in history
    order, each labelled with a shortened form of its prompt. */
module PromptHistory {

  /** Longest label shown on a chip. */
  const LabelLimit := 25
  /** Characters of a long prompt kept before the ellipsis. */
  const LabelKeep := 22
  const Ellipsis := "..."

  /** The chip caption: short prompts verbatim, long ones cut to their first 22
      characters plus "...", so no label exceeds 25 characters. */
  function Label(prompt: string): (shown: string)
    ensures |shown| <= LabelLimit
    ensures |prompt| <= LabelLimit ==> shown == prompt
    ensures |prompt| > LabelLimit ==> |shown| == LabelLimit
    ensures |prompt| > LabelLimit ==> shown[..LabelKeep] <= prompt && shown[LabelKeep..] == Ellipsis
  {
    if |prompt| > LabelLimit then prompt[..LabelKeep] + Ellipsis else prompt
  }

  /** A chip: what it shows, what clicking it selects, whether it is disabled. */
  datatype Chip = Chip(caption: string, selects: string, disabled: bool)

  /** The panel body: a placeholder for an empty history, chips otherwise. */
  datatype View = Placeholder | Chips(chips: seq<Chip>)

  /** Renders the panel: exactly one chip per entry, in order, each selecting
      its full prompt and all sharing the one `disabled` flag. */
  function Render(history: seq<string>, disabled: bool): (v: View)
    ensures v.Placeholder? <==> |history| == 0
    ensures v.Chips? ==> |v.chips| == |history|
    ensures v.Chips? ==> forall i :: 0 <= i < |history| ==>
              v.chips[i].selects == history[i] && v.chips[i].caption == Label(history[i])
              && v.chips[i].disabled == disabled
  {
    if |history| == 0 then Placeholder
    else Chips(seq(|history|, i requires 0 <= i < |history| => Chip(Label(history[i]), history[i], disabled)))
  }

  /** Every chip label fits the limit, and a chip whose label was shortened
      still selects the whole prompt. */
  lemma ChipsShowShortSelectLong(history: seq<string>, disabled: bool, i: int)
    requires 0 <= i < |history|
    ensures Render(history, disabled).Chips?
    ensures |Render(history, disabled).chips[i].caption| <= LabelLimit
    ensures Render(history, disabled).chips[i].selects == history[i]
    ensures |history[i]| > LabelLimit ==>
              Render(history, disabled).chips[i].caption != Render(history, disabled).chips[i].selects
  {
  }
}
