/** The exchange's contact dialog: a message and an e-mail that must have content
    after trimming, a close action that clears both, and the two wordings the
    dialog switches between. */
module InteractionModal {
  import opened Wrappers
  import opened Text
  import opened Modal

  datatype Fields = Fields(message: string, email: string)

  const Cleared: Fields := Fields("", "")

  /** The guard shared by the handler and the button. */
  predicate Complete(f: Fields)
  {
    Trim(f.message) != "" && Trim(f.email) != ""
  }

  /** `handleSubmit`: passes the trimmed message and e-mail and clears both
      fields; the dialog itself stays open. */
  function HandleSubmit(f: Fields): (r: Step<(string, string), Fields>)
    ensures r.payload.Some? <==> !AllSpace(f.message) && !AllSpace(f.email)
    ensures r.payload.None? ==> r.form == f
    ensures r.payload.Some? ==> r.payload.value == (Trim(f.message), Trim(f.email)) && r.form == Cleared
    ensures !r.closed
  {
    if !Complete(f) then Reject(f)
    else Step(Some((Trim(f.message), Trim(f.email))), Cleared, false)
  }

  /** `handleClose`: clears both fields and asks to be closed, sending nothing. */
  function HandleClose(f: Fields): (r: Step<(string, string), Fields>)
    ensures r.payload.None? && r.form == Cleared && r.closed
  {
    Step(None, Cleared, true)
  }

  /** `disabled={!message.trim() || !email.trim()}`. */
  predicate SubmitDisabled(f: Fields)
  {
    Trim(f.message) == "" || Trim(f.email) == ""
  }

  /** The button is disabled exactly when the handler would refuse. */
  lemma ButtonMatchesHandler(f: Fields)
    ensures SubmitDisabled(f) <==> HandleSubmit(f).payload.None?
  {
  }

  /** The dialog's `type` prop and the item's own kind. */
  datatype Action = RequestAction | DonateAction
  datatype ItemKind = DonationKind | RequestKind

  datatype Item = Item(id: string, title: string, description: string, userName: string, kind: ItemKind)

  /** Which wording the dialog uses. */
  datatype Mode = Mode(isRequestingDonation: bool, isDonatingToRequest: bool)

  /** Rendering: nothing without an item; otherwise the two mode flags, which are
      never both set. */
  function Render(item: Option<Item>, action: Action): (m: Option<Mode>)
    ensures m.None? <==> item.None?
    ensures m.Some? ==>
      (m.value.isRequestingDonation <==> action == RequestAction && item.value.kind == DonationKind)
    ensures m.Some? ==>
      (m.value.isDonatingToRequest <==> action == DonateAction && item.value.kind == RequestKind)
    ensures m.Some? ==> !(m.value.isRequestingDonation && m.value.isDonatingToRequest)
  {
    match item
    case None => None
    case Some(it) =>
      Some(Mode(action == RequestAction && it.kind == DonationKind,
                action == DonateAction && it.kind == RequestKind))
  }
}
