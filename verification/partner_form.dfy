/** The delivery-partner application form: single-field edits, the availability
    checkboxes, and a submit that checks required fields first, then the two
    agreements, and on success resets the form. */
module PartnerForm {
  import opened Seqs

  /** The form's text-valued fields (`keyof FormData` minus the list and the flags). */
  datatype TextField =
    | PartnerType | ContactName | OrganizationName | Email | Phone
    | Address | City | ZipCode | Experience | Transportation | Motivation
    | Reference1Name | Reference1Email | Reference1Phone
    | Reference2Name | Reference2Email | Reference2Phone

  /** The form's two agreement check-boxes. */
  datatype FlagField = AgreeTerms | AgreeBackground

  datatype FormData = FormData(
    partnerType: string,
    contactName: string,
    organizationName: string,
    email: string,
    phone: string,
    address: string,
    city: string,
    zipCode: string,
    experience: string,
    availability: seq<string>,
    transportation: string,
    motivation: string,
    reference1Name: string,
    reference1Email: string,
    reference1Phone: string,
    reference2Name: string,
    reference2Email: string,
    reference2Phone: string,
    agreeTerms: bool,
    agreeBackground: bool)

  /** The blank form the page starts with and returns to after a submission. */
  const Initial: FormData := FormData("", "", "", "", "", "", "", "", "", [], "", "",
                                      "", "", "", "", "", "", false, false)

  function Text(f: FormData, field: TextField): string
  {
    match field
    case PartnerType => f.partnerType
    case ContactName => f.contactName
    case OrganizationName => f.organizationName
    case Email => f.email
    case Phone => f.phone
    case Address => f.address
    case City => f.city
    case ZipCode => f.zipCode
    case Experience => f.experience
    case Transportation => f.transportation
    case Motivation => f.motivation
    case Reference1Name => f.reference1Name
    case Reference1Email => f.reference1Email
    case Reference1Phone => f.reference1Phone
    case Reference2Name => f.reference2Name
    case Reference2Email => f.reference2Email
    case Reference2Phone => f.reference2Phone
  }

  function Flag(f: FormData, field: FlagField): bool
  {
    match field
    case AgreeTerms => f.agreeTerms
    case AgreeBackground => f.agreeBackground
  }

  /** `handleInputChange(field, value)` for a text field: that field takes the
      value and every other field keeps its own. */
  function SetText(f: FormData, field: TextField, value: string): (r: FormData)
    ensures Text(r, field) == value
    ensures forall g :: g != field ==> Text(r, g) == Text(f, g)
    ensures forall g :: Flag(r, g) == Flag(f, g)
    ensures r.availability == f.availability
  {
    match field
    case PartnerType => f.(partnerType := value)
    case ContactName => f.(contactName := value)
    case OrganizationName => f.(organizationName := value)
    case Email => f.(email := value)
    case Phone => f.(phone := value)
    case Address => f.(address := value)
    case City => f.(city := value)
    case ZipCode => f.(zipCode := value)
    case Experience => f.(experience := value)
    case Transportation => f.(transportation := value)
    case Motivation => f.(motivation := value)
    case Reference1Name => f.(reference1Name := value)
    case Reference1Email => f.(reference1Email := value)
    case Reference1Phone => f.(reference1Phone := value)
    case Reference2Name => f.(reference2Name := value)
    case Reference2Email => f.(reference2Email := value)
    case Reference2Phone => f.(reference2Phone := value)
  }

  /** `handleInputChange(field, checked)` for an agreement check-box. */
  function SetFlag(f: FormData, field: FlagField, value: bool): (r: FormData)
    ensures Flag(r, field) == value
    ensures forall g :: g != field ==> Flag(r, g) == Flag(f, g)
    ensures forall g :: Text(r, g) == Text(f, g)
    ensures r.availability == f.availability
  {
    match field
    case AgreeTerms => f.(agreeTerms := value)
    case AgreeBackground => f.(agreeBackground := value)
  }

  /** `handleAvailabilityChange(option, checked)`: checking appends the option,
      unchecking removes every copy of it; the other options and fields stay. */
  function SetAvailability(f: FormData, option: string, checked: bool): (r: FormData)
    ensures checked ==> r.availability == f.availability + [option]
    ensures !checked ==> option !in r.availability && IsSubsequence(r.availability, f.availability)
    ensures forall x :: x != option ==> (x in r.availability <==> x in f.availability)
    ensures forall x :: x != option ==> multiset(r.availability)[x] == multiset(f.availability)[x]
    ensures r.(availability := f.availability) == f
  {
    if checked then f.(availability := f.availability + [option])
    else
      KeepIsSubsequence(f.availability, a => a != option);
      f.(availability := Keep(f.availability, a => a != option))
  }

  /** The four fields the submit insists on. */
  predicate Required(field: TextField)
  {
    field in {ContactName, Email, Phone, PartnerType}
  }

  /** How a submit ended: the "missing fields" notice, the "agreement required"
      notice, or an accepted application. */
  datatype Verdict = MissingFields | AgreementRequired | Accepted

  /** The form together with its `isSubmitting` flag. */
  datatype FormState = FormState(data: FormData, isSubmitting: bool)

  datatype SubmitResult = SubmitResult(verdict: Verdict, state: FormState)

  /** `handleSubmit`: a missing required field is reported before a missing
      agreement; a rejected submission leaves the state untouched; an accepted one
      ends with the blank form and `isSubmitting` back to false. */
  function HandleSubmit(st: FormState): (r: SubmitResult)
    ensures r.verdict == MissingFields <==> exists g :: Required(g) && Text(st.data, g) == ""
    ensures r.verdict == AgreementRequired <==>
      (forall g :: Required(g) ==> Text(st.data, g) != "") && !(st.data.agreeTerms && st.data.agreeBackground)
    ensures r.verdict != Accepted ==> r.state == st
    ensures r.verdict == Accepted ==> r.state == FormState(Initial, false)
  {
    var d := st.data;
    if d.contactName == "" || d.email == "" || d.phone == "" || d.partnerType == "" then
      assert Required(ContactName) && Required(Email) && Required(Phone) && Required(PartnerType);
      SubmitResult(MissingFields, st)
    else if !d.agreeTerms || !d.agreeBackground then
      SubmitResult(AgreementRequired, st)
    else
      SubmitResult(Accepted, FormState(Initial, false))
  }

  /** Fields outside the required four never decide the verdict. */
  lemma OptionalFieldsIgnored(st: FormState, field: TextField, value: string)
    requires !Required(field)
    ensures HandleSubmit(FormState(SetText(st.data, field, value), st.isSubmitting)).verdict
      == HandleSubmit(st).verdict
  {
    var st' := FormState(SetText(st.data, field, value), st.isSubmitting);
    forall g | Required(g) ensures Text(st'.data, g) == Text(st.data, g) { }
  }

  /** The availability list never decides the verdict either. */
  lemma AvailabilityIgnored(st: FormState, option: string, checked: bool)
    ensures HandleSubmit(FormState(SetAvailability(st.data, option, checked), st.isSubmitting)).verdict
      == HandleSubmit(st).verdict
  {
  }

  /** A form with every required field and both agreements is accepted, whatever
      the other fields hold. */
  lemma CompleteFormAccepted(st: FormState)
    requires st.data.contactName != "" && st.data.email != "" && st.data.phone != ""
    requires st.data.partnerType != ""
    requires st.data.agreeTerms && st.data.agreeBackground
    ensures HandleSubmit(st).verdict == Accepted
  {
  }
}
