/** go-textractor's selection element: its status and how it renders as text. */
module TextractorSelection {
  import opened TextractorTypes

  /** IsSelected: the status is SELECTED. */
  predicate IsSelected(se: SelectionElement) {
    se.status == Selected
  }

  /** Text: the option's marker for a selected element, the other marker otherwise. */
  function Text(se: SelectionElement, opts: TextLinearizationOptions): (text: string)
    ensures text == opts.selectionElementSelected || text == opts.selectionElementNotSelected
  {
    if IsSelected(se) then opts.selectionElementSelected else opts.selectionElementNotSelected
  }

  /** String: the text under the default options, "[X]" exactly when selected and "[ ]" otherwise. */
  function String(se: SelectionElement): (text: string)
    ensures text == "[X]" <==> IsSelected(se)
    ensures text == "[ ]" <==> !IsSelected(se)
  {
    Text(se, DefaultOptions)
  }

  /** Two elements render alike under options whose markers differ exactly when their statuses agree. */
  lemma TextDistinguishesStatus(a: SelectionElement, b: SelectionElement, opts: TextLinearizationOptions)
    requires opts.selectionElementSelected != opts.selectionElementNotSelected
    ensures Text(a, opts) == Text(b, opts) <==> a.status == b.status
  {
  }
}
