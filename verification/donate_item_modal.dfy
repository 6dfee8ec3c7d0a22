/** The "Donate" dialog opened on a need request: name and e-mail prefilled from
    the signed-in user, three required fields, and a reset that restores the
    prefill after a successful submit. */
module DonateItemModal {
  import opened Wrappers
  import opened Modal
  import Auth
  import Exchange

  datatype Form = Form(name: string, email: string, message: string, contactInfo: string)

  /** The dialog's initial state: `user?.name || ''`, `user?.email || ''`, and empty texts. */
  function Prefill(user: Option<Auth.User>): (f: Form)
    ensures user.Some? ==> f.name == user.value.name && f.email == user.value.email
    ensures user.None? ==> f.name == "" && f.email == ""
    ensures f.message == "" && f.contactInfo == ""
  {
    match user
    case Some(u) => Form(u.name, u.email, "", "")
    case None => Form("", "", "", "")
  }

  /** `handleSubmit`: requires name, e-mail and message (contact info is optional);
      passes the request and the form as they are; then restores the prefill and
      closes. */
  function HandleSubmit(form: Form, user: Option<Auth.User>, request: Exchange.NeedRequest)
    : (r: Step<(Exchange.NeedRequest, Form), Form>)
    ensures r.payload.Some? <==> form.name != "" && form.email != "" && form.message != ""
    ensures r.payload.None? ==> r.form == form && !r.closed
    ensures r.payload.Some? ==> r.payload.value == (request, form)
    ensures r.payload.Some? ==> r.form == Prefill(user) && r.closed
  {
    if form.name == "" || form.email == "" || form.message == "" then Reject(form)
    else Step(Some((request, form)), Prefill(user), true)
  }

  /** An accepted offer marks exactly that request as matched, which takes it off
      the filtered list. */
  lemma SubmitMatchesRequest(form: Form, user: Option<Auth.User>, request: Exchange.NeedRequest,
                             rs: seq<Exchange.NeedRequest>, f: Exchange.Filters)
    requires HandleSubmit(form, user, request).payload.Some?
    ensures var board := Exchange.HandleDonateToRequest(rs, HandleSubmit(form, user, request).payload.value.0,
                                                 HandleSubmit(form, user, request).payload.value.1);
      forall r :: r in Exchange.FilteredRequests(board, f) ==> r.id != request.id
  {
    Exchange.AnsweredRequestLeavesView(rs, f, request.id);
  }
}
