/** The board's "Add Donation Item" dialog: title, description and category must
    be non-empty as typed (white space counts as content), an empty location is
    dropped, and the form returns to its defaults after a successful submit. */
module AddDonationModal {
  import opened Wrappers
  import opened Modal
  import Exchange
  import Auth

  datatype Form = Form(
    title: string,
    description: string,
    category: string,
    location: string,
    urgency: Exchange.Urgency)

  /** The dialog's initial state: empty texts and `medium` urgency. */
  const Defaults: Form := Form("", "", "", "", Exchange.Medium)

  /** `handleSubmit`. */
  function HandleSubmit(form: Form): (r: Step<Exchange.DonationDraft, Form>)
    ensures r.payload.Some? <==> form.title != "" && form.description != "" && form.category != ""
    ensures r.payload.None? ==> r.form == form && !r.closed
    ensures r.payload.Some? ==> r.form == Defaults && r.closed
    ensures r.payload.Some? ==>
      && r.payload.value.title == form.title
      && r.payload.value.description == form.description
      && r.payload.value.category == form.category
      && r.payload.value.urgency == Some(form.urgency)
      && (r.payload.value.location.None? <==> form.location == "")
      && (form.location != "" ==> r.payload.value.location == Some(form.location))
  {
    if form.title == "" || form.description == "" || form.category == "" then
      Reject(form)
    else
      var location := if form.location != "" then Some(form.location) else None;
      Step(Some(Exchange.DonationDraft(form.title, form.description, form.category, location,
                                       Some(form.urgency))), Defaults, true)
  }

  /** A title and description of nothing but spaces pass the handler's guard. */
  lemma BlankTextAccepted()
    ensures HandleSubmit(Form(" ", " ", "Toys", "", Exchange.Medium)).payload.Some?
  {
  }

  /** A submitted donation reaches the board as a new available item with the
      typed fields and urgency, owned by the signed-in user. */
  lemma SubmitReachesBoard(form: Form, u: Auth.User, ds: seq<Exchange.DonationItem>,
                           id: string, createdAt: string)
    requires HandleSubmit(form).payload.Some?
    ensures var board := Exchange.AddDonation(Some(u), ds, HandleSubmit(form).payload.value, id, createdAt);
      && |board| == |ds| + 1
      && board[|ds|].status == Exchange.Available
      && board[|ds|].title == form.title
      && board[|ds|].urgency == Some(form.urgency)
      && board[|ds|].donorId == u.id
  {
  }
}
