/** The "Add Need Request" dialog: four required fields checked as typed (not
    trimmed), the child's age parsed only when given, and a reset to the defaults
    after a successful submit. */
module AddRequestModal {
  import opened Wrappers
  import opened Modal
  import Exchange
  import Auth

  datatype Form = Form(
    title: string,
    description: string,
    category: string,
    childAge: string,
    reason: string,
    urgency: Exchange.Urgency,
    isAnonymous: bool)

  /** The dialog's initial state: empty texts, `medium` urgency, not anonymous. */
  const Defaults: Form := Form("", "", "", "", "", Exchange.Medium, false)

  /** `handleSubmit`; `parseInt` stands for JavaScript's `parseInt`, applied only to
      a non-empty age field. */
  function HandleSubmit(form: Form, parseInt: string -> int): (r: Step<Exchange.RequestDraft, Form>)
    ensures r.payload.Some? <==>
      form.title != "" && form.description != "" && form.category != "" && form.reason != ""
    ensures r.payload.None? ==> r.form == form && !r.closed
    ensures r.payload.Some? ==> r.form == Defaults && r.closed
    ensures r.payload.Some? ==>
      && r.payload.value.title == form.title
      && r.payload.value.description == form.description
      && r.payload.value.category == form.category
      && r.payload.value.reason == form.reason
      && r.payload.value.urgency == form.urgency
      && r.payload.value.isAnonymous == form.isAnonymous
      && (r.payload.value.childAge.None? <==> form.childAge == "")
      && (form.childAge != "" ==> r.payload.value.childAge == Some(parseInt(form.childAge)))
  {
    if form.title == "" || form.description == "" || form.category == "" || form.reason == "" then
      Reject(form)
    else
      var age := if form.childAge != "" then Some(parseInt(form.childAge)) else None;
      var draft := Exchange.RequestDraft(form.title, form.description, form.category, age,
                                         form.reason, form.urgency, form.isAnonymous);
      Step(Some(draft), Defaults, true)
  }

  /** A submitted request reaches the board as a new open request carrying the
      typed title and reason, owned by the signed-in user. */
  lemma SubmitReachesBoard(form: Form, parseInt: string -> int, u: Auth.User,
                           rs: seq<Exchange.NeedRequest>, id: string, createdAt: string)
    requires HandleSubmit(form, parseInt).payload.Some?
    ensures var board := Exchange.AddRequest(Some(u), rs, HandleSubmit(form, parseInt).payload.value, id, createdAt);
      && |board| == |rs| + 1
      && board[|rs|].status == Exchange.Open
      && board[|rs|].title == form.title && board[|rs|].reason == form.reason
      && board[|rs|].requesterId == u.id
      && (board[|rs|].requesterName == "Anonymous" <==> form.isAnonymous)
  {
  }
}
