/** What one submit or close of a dialog does: the payload handed to the
    parent's callback (none when the handler bails out), the form state left
    behind, and whether the dialog asked to be closed. */
module Modal {
  import opened Wrappers

  datatype Step<P, F> = Step(payload: Option<P>, form: F, closed: bool)

  /** A handler that returns early: no callback, state untouched, dialog left open. */
  function Reject<P, F>(form: F): (r: Step<P, F>)
    ensures r.payload.None? && r.form == form && !r.closed
  {
    Step(None, form, false)
  }
}
