/** The exchange's own "share a donation" dialog: title and description must have
    content after trimming, the payload carries trimmed values, a blank location
    is dropped, and the submit button is disabled exactly when the handler would
    refuse. */
module ExchangeAddDonationModal {
  import opened Wrappers
  import opened Text
  import opened Modal

  datatype Form = Form(title: string, description: string, category: string, location: string)

  const Empty: Form := Form("", "", "", "")

  /** The `onSubmit` payload. */
  datatype Draft = Draft(title: string, description: string, category: string, location: Option<string>)

  /** The guard shared by the handler and the button. */
  predicate Complete(form: Form)
  {
    Trim(form.title) != "" && Trim(form.description) != "" && form.category != ""
  }

  /** `handleSubmit`: on success the payload is trimmed, the form is emptied and
      the dialog reports `open = false`. */
  function HandleSubmit(form: Form): (r: Step<Draft, Form>)
    ensures r.payload.Some? <==> !AllSpace(form.title) && !AllSpace(form.description) && form.category != ""
    ensures r.payload.None? ==> r.form == form && !r.closed
    ensures r.payload.Some? ==> r.form == Empty && r.closed
    ensures r.payload.Some? ==>
      && r.payload.value.title == Trim(form.title)
      && r.payload.value.description == Trim(form.description)
      && r.payload.value.category == form.category
      && (r.payload.value.location.None? <==> AllSpace(form.location))
      && (!AllSpace(form.location) ==> r.payload.value.location == Some(Trim(form.location)))
  {
    if !Complete(form) then Reject(form)
    else
      var location := if Trim(form.location) != "" then Some(Trim(form.location)) else None;
      Step(Some(Draft(Trim(form.title), Trim(form.description), form.category, location)), Empty, true)
  }

  /** `disabled={!title.trim() || !description.trim() || !category}`. */
  predicate SubmitDisabled(form: Form)
  {
    Trim(form.title) == "" || Trim(form.description) == "" || form.category == ""
  }

  /** The button is disabled exactly when the handler would refuse. */
  lemma ButtonMatchesHandler(form: Form)
    ensures SubmitDisabled(form) <==> HandleSubmit(form).payload.None?
  {
  }

  /** An accepted payload has non-empty title and description with no white space
      at either end, and a location, when present, likewise. */
  lemma PayloadIsTrimmed(form: Form)
    requires !AllSpace(form.title) && !AllSpace(form.description) && form.category != ""
    ensures var d := HandleSubmit(form).payload.value;
      && d.title != "" && Trim(d.title) == d.title
      && d.description != "" && Trim(d.description) == d.description
      && (d.location.Some? ==> d.location.value != "" && Trim(d.location.value) == d.location.value)
  {
    TrimIdempotent(form.title);
    TrimIdempotent(form.description);
    TrimIdempotent(form.location);
  }
}
