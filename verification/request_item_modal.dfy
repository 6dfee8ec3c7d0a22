/** The "Request" dialog opened on a donated item: name and e-mail prefilled from
    the signed-in user, three required fields, and a reset that restores the
    prefill after a successful submit. */
module RequestItemModal {
  import opened Wrappers
  import opened Modal
  import Auth
  import Exchange

  datatype Form = Form(name: string, email: string, reason: string, contactInfo: string)

  /** The dialog's initial state: `user?.name || ''`, `user?.email || ''`, and empty texts. */
  function Prefill(user: Option<Auth.User>): (f: Form)
    ensures user.Some? ==> f.name == user.value.name && f.email == user.value.email
    ensures user.None? ==> f.name == "" && f.email == ""
    ensures f.reason == "" && f.contactInfo == ""
  {
    match user
    case Some(u) => Form(u.name, u.email, "", "")
    case None => Form("", "", "", "")
  }

  /** `handleSubmit`: requires name, e-mail and reason (contact info is optional);
      passes the item and the form as they are; then restores the prefill and
      closes. */
  function HandleSubmit(form: Form, user: Option<Auth.User>, item: Exchange.DonationItem)
    : (r: Step<(Exchange.DonationItem, Form), Form>)
    ensures r.payload.Some? <==> form.name != "" && form.email != "" && form.reason != ""
    ensures r.payload.None? ==> r.form == form && !r.closed
    ensures r.payload.Some? ==> r.payload.value == (item, form)
    ensures r.payload.Some? ==> r.form == Prefill(user) && r.closed
  {
    if form.name == "" || form.email == "" || form.reason == "" then Reject(form)
    else Step(Some((item, form)), Prefill(user), true)
  }

  /** An accepted request marks exactly that item as pending, which takes it off
      the filtered list. */
  lemma SubmitMarksPending(form: Form, user: Option<Auth.User>, item: Exchange.DonationItem,
                           ds: seq<Exchange.DonationItem>, f: Exchange.Filters)
    requires HandleSubmit(form, user, item).payload.Some?
    ensures var board := Exchange.HandleRequestItem(ds, HandleSubmit(form, user, item).payload.value.0,
                                              HandleSubmit(form, user, item).payload.value.1);
      forall d :: d in Exchange.FilteredDonations(board, f) ==> d.id != item.id
  {
    Exchange.RequestedDonationLeavesView(ds, f, item.id);
  }
}
