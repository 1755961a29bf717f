/** The property-interest form (src/app/leads/page.tsx): four fields, their
    validation, clearing a field's error while the user types, and the
    submission to the automation webhook. The webhook call itself is an
    input (`Response`); the timestamp is a parameter. */
module LeadForm {
  import opened Wrappers
  import opened Text
  import opened Pattern
  import opened FieldPatterns

  datatype Field = Name | Email | Phone | PropertyAddress

  datatype FormData = FormData(name: string, email: string, phone: string, propertyAddress: string) {

    function Get(f: Field): string {
      match f
      case Name => name
      case Email => email
      case Phone => phone
      case PropertyAddress => propertyAddress
    }

    /** `{...prev, [f]: v}`: field `f` takes `v`, the other three are kept. */
    function Set(f: Field, v: string): (d: FormData)
      ensures d.Get(f) == v
      ensures forall g :: g != f ==> d.Get(g) == Get(g)
    {
      match f
      case Name => this.(name := v)
      case Email => this.(email := v)
      case Phone => this.(phone := v)
      case PropertyAddress => this.(propertyAddress := v)
    }
  }

  const EmptyForm := FormData("", "", "", "")

  /** The fields that failed validation, with their messages. The source
      clears an entry by setting it to `undefined`; since only the
      truthiness of `errors[f]` is ever read, that is a removed key here. */
  type FormErrors = map<Field, string>

  const NameRequired := "Name is required"
  const EmailRequired := "Email is required"
  const EmailInvalid := "Email is invalid"
  const PhoneRequired := "Phone number is required"
  const PhoneInvalid := "Please enter a valid phone number"
  const AddressRequired := "Property address is required"

  /** The error record `validateForm` stores and the boolean it returns. */
  datatype Validation = Validation(errors: FormErrors, ok: bool)

  /** `validateForm`: name and address must not be blank after trimming; the
      e-mail must be present and contain `\S+@\S+\.\S+`; the phone must be
      present and match the phone pattern on some span from a line start to
      a line end. */
  function ValidateForm(d: FormData): (v: Validation)
    ensures Name in v.errors <==> AllSpace(d.name)
    ensures Email in v.errors <==> d.email == [] || !Test(EmailAtoms, d.email)
    ensures Phone in v.errors <==> d.phone == [] || !TestLines(PhoneAtoms, d.phone)
    ensures PropertyAddress in v.errors <==> AllSpace(d.propertyAddress)
    ensures Name in v.errors ==> v.errors[Name] == NameRequired
    ensures Email in v.errors ==> v.errors[Email] == (if d.email == [] then EmailRequired else EmailInvalid)
    ensures Phone in v.errors ==> v.errors[Phone] == (if d.phone == [] then PhoneRequired else PhoneInvalid)
    ensures PropertyAddress in v.errors ==> v.errors[PropertyAddress] == AddressRequired
    ensures v.ok <==> v.errors == map[]
    ensures v.ok <==> && !AllSpace(d.name) && !AllSpace(d.propertyAddress)
                      && Test(EmailAtoms, d.email) && TestLines(PhoneAtoms, d.phone)
  {
    EmailLikeIffTest(d.email);
    PhoneValidIffTestLines(d.phone);
    // `!x.trim()` holds exactly when `x` is all white space (`Text.Trim`).
    var e0: FormErrors := map[];
    var e1 := if AllSpace(d.name) then e0[Name := NameRequired] else e0;
    var e2 :=
      if d.email == [] then e1[Email := EmailRequired]
      else if !EmailLike(d.email) then e1[Email := EmailInvalid]
      else e1;
    var e3 :=
      if d.phone == [] then e2[Phone := PhoneRequired]
      else if !PhoneValid(d.phone) then e2[Phone := PhoneInvalid]
      else e2;
    var e4 := if AllSpace(d.propertyAddress) then e3[PropertyAddress := AddressRequired] else e3;
    assert e4 == map[] <==> Name !in e4 && Email !in e4 && Phone !in e4 && PropertyAddress !in e4;
    Validation(e4, |e4| == 0)
  }

  /** In the source's own terms: name and address are reported exactly when
      their trimmed value is empty. */
  lemma ValidateFormTrims(d: FormData)
    ensures Name in ValidateForm(d).errors <==> Trim(d.name) == []
    ensures PropertyAddress in ValidateForm(d).errors <==> Trim(d.propertyAddress) == []
  {
  }

  /** Whether the form shows an error under field `f` (`errors[f]` is truthy). */
  predicate ErrorShown(errors: FormErrors, f: Field) {
    f in errors && errors[f] != ""
  }

  /** The banner shown above the form after a submission. */
  datatype SubmitStatus = SubmitStatus(success: bool, message: string)

  const SuccessMessage := "Thank you for your interest! We will contact you shortly."
  const FailureMessage := "There was an error submitting your form. Please try again."

  datatype FormState = FormState(
    data: FormData,
    errors: FormErrors,
    isSubmitting: bool,
    status: Option<SubmitStatus>)

  const InitialState := FormState(EmptyForm, map[], false, None)

  /** `handleChange`: the edited field takes the new value, and its error is
      cleared if one was shown; everything else is kept. */
  function HandleChange(st: FormState, f: Field, v: string): (r: FormState)
    ensures r.data.Get(f) == v
    ensures forall g :: g != f ==> r.data.Get(g) == st.data.Get(g)
    ensures !ErrorShown(r.errors, f)
    ensures r.errors - {f} == st.errors - {f}
    ensures !ErrorShown(st.errors, f) ==> r.errors == st.errors
    ensures r.isSubmitting == st.isSubmitting && r.status == st.status
  {
    var errors := if ErrorShown(st.errors, f) then st.errors - {f} else st.errors;
    st.(data := st.data.Set(f, v), errors := errors)
  }

  /** The JSON body posted to the webhook: the four fields and `submittedAt`. */
  datatype Payload = Payload(
    name: string, email: string, phone: string, propertyAddress: string, submittedAt: string)

  /** How the webhook request ended: a response (with `response.ok`), or a
      rejected `fetch`. */
  datatype Response = Responded(ok: bool) | NetworkFailure

  /** The first, synchronous half of `handleSubmit`. */
  datatype Submission = Blocked(state: FormState) | InFlight(state: FormState, request: Payload)

  /** `handleSubmit` up to the `await`: validation, then either nothing more,
      or the request is issued with the form's current fields while the
      button is disabled and the banner hidden. */
  function StartSubmit(st: FormState, submittedAt: string): (s: Submission)
    ensures s.Blocked? <==> !ValidateForm(st.data).ok
    ensures s.state.errors == ValidateForm(st.data).errors
    ensures s.state.data == st.data
    ensures s.Blocked? ==> s.state.isSubmitting == st.isSubmitting && s.state.status == st.status
    ensures s.InFlight? ==> s.state.isSubmitting && s.state.status == None
    ensures s.InFlight? ==> s.request == Payload(st.data.name, st.data.email, st.data.phone,
                                                 st.data.propertyAddress, submittedAt)
  {
    var v := ValidateForm(st.data);
    var validated := st.(errors := v.errors);
    if !v.ok then
      Blocked(validated)
    else
      var d := st.data;
      InFlight(validated.(isSubmitting := true, status := None),
               Payload(d.name, d.email, d.phone, d.propertyAddress, submittedAt))
  }

  /** `handleSubmit` after the `await`: an ok response resets the form and
      shows the thank-you banner; a non-ok response or a network failure
      keeps the fields and shows the retry banner. Either way the button is
      enabled again. */
  function FinishSubmit(st: FormState, response: Response): (r: FormState)
    ensures !r.isSubmitting
    ensures r.errors == st.errors
    ensures response == Responded(true) ==>
      r.data == EmptyForm && r.status == Some(SubmitStatus(true, SuccessMessage))
    ensures response != Responded(true) ==>
      r.data == st.data && r.status == Some(SubmitStatus(false, FailureMessage))
  {
    match response
    case Responded(true) =>
      st.(status := Some(SubmitStatus(true, SuccessMessage)), data := EmptyForm, isSubmitting := false)
    case _ =>
      st.(status := Some(SubmitStatus(false, FailureMessage)), isSubmitting := false)
  }

  /** The state after a whole submission, and the request it issued, if any. */
  datatype SubmitResult = SubmitResult(state: FormState, request: Option<Payload>)

  /** `handleSubmit` from start to finish, with no edits while the request is
      in flight. */
  function HandleSubmit(st: FormState, submittedAt: string, response: Response): (r: SubmitResult)
    ensures r.request.None? <==> !ValidateForm(st.data).ok
    ensures r.state.errors == ValidateForm(st.data).errors
    ensures r.request.None? ==> r.state.data == st.data && r.state.isSubmitting == st.isSubmitting
                                && r.state.status == st.status
    ensures r.request.Some? ==> !r.state.isSubmitting
    ensures r.request.Some? ==> r.request.value == Payload(st.data.name, st.data.email, st.data.phone,
                                                           st.data.propertyAddress, submittedAt)
    ensures r.request.Some? && response == Responded(true) ==>
      r.state.data == EmptyForm && r.state.status == Some(SubmitStatus(true, SuccessMessage))
    ensures r.request.Some? && response != Responded(true) ==>
      r.state.data == st.data && r.state.status == Some(SubmitStatus(false, FailureMessage))
  {
    match StartSubmit(st, submittedAt)
    case Blocked(s) => SubmitResult(s, None)
    case InFlight(s, request) => SubmitResult(FinishSubmit(s, response), Some(request))
  }

  /** A field that is empty or white space only always fails validation. */
  lemma BlankFieldFails(d: FormData, f: Field)
    requires AllSpace(d.Get(f))
    ensures f in ValidateForm(d).errors
  {
    match f
    case Email =>
      BlankEmailInvalid(d.email);
      EmailLikeIffTest(d.email);
    case Phone =>
      BlankPhoneInvalid(d.phone);
      PhoneValidIffTestLines(d.phone);
    case _ =>
  }

  /** Submitting with any field empty or blank issues no request and leaves
      the fields as they were. */
  lemma BlankFieldBlocksSubmit(st: FormState, f: Field, submittedAt: string, response: Response)
    requires AllSpace(st.data.Get(f))
    ensures HandleSubmit(st, submittedAt, response).request == None
    ensures HandleSubmit(st, submittedAt, response).state.data == st.data
  {
    BlankFieldFails(st.data, f);
  }

  /** A form whose e-mail and phone are empty and whose name and address are
      blank gets all four "required" messages. */
  lemma BlankFormErrors(d: FormData)
    requires AllSpace(d.name) && AllSpace(d.propertyAddress)
    requires d.email == [] && d.phone == []
    ensures ValidateForm(d).errors == map[
      Name := NameRequired, Email := EmailRequired,
      Phone := PhoneRequired, PropertyAddress := AddressRequired]
  {
    var errors := ValidateForm(d).errors;
    var expected := map[
      Name := NameRequired, Email := EmailRequired,
      Phone := PhoneRequired, PropertyAddress := AddressRequired];
    assert errors.Keys == expected.Keys by {
      forall f ensures f in errors { BlankFieldFails(d, f); }
    }
  }

  /** The blank form gets all four "required" messages. */
  lemma EmptyFormErrors()
    ensures ValidateForm(EmptyForm).errors == map[
      Name := NameRequired, Email := EmailRequired,
      Phone := PhoneRequired, PropertyAddress := AddressRequired]
  {
    BlankFormErrors(EmptyForm);
  }

  /** After a successful submission the form is blank, so submitting again
      right away is blocked with every field reported as required. */
  lemma SubmitAfterSuccessBlocked(st: FormState, t1: string, t2: string, response: Response)
    requires ValidateForm(st.data).ok
    ensures var next := HandleSubmit(st, t1, Responded(true)).state;
      && HandleSubmit(next, t2, response).request == None
      && HandleSubmit(next, t2, response).state.errors == map[
           Name := NameRequired, Email := EmailRequired,
           Phone := PhoneRequired, PropertyAddress := AddressRequired]
  {
    var next := HandleSubmit(st, t1, Responded(true)).state;
    BlankFormErrors(next.data);
  }

  /** After a failed submission the fields are kept, so submitting again sends
      the same four fields. */
  lemma RetryAfterFailureResends(st: FormState, t1: string, t2: string, first: Response, second: Response)
    requires first != Responded(true)
    requires ValidateForm(st.data).ok
    ensures var next := HandleSubmit(st, t1, first).state;
      HandleSubmit(next, t2, second).request ==
        Some(Payload(st.data.name, st.data.email, st.data.phone, st.data.propertyAddress, t2))
  {
  }

  /** Every message validation produces is a non-empty string. */
  lemma ValidationMessagesShown(d: FormData)
    ensures forall f :: f in ValidateForm(d).errors ==> ErrorShown(ValidateForm(d).errors, f)
  {
    var errors := ValidateForm(d).errors;
    forall f | f in errors
      ensures ErrorShown(errors, f)
    {
      match f
      case Name => assert errors[f] == NameRequired;
      case Email => assert errors[f] == EmailRequired || errors[f] == EmailInvalid;
      case Phone => assert errors[f] == PhoneRequired || errors[f] == PhoneInvalid;
      case PropertyAddress => assert errors[f] == AddressRequired;
    }
  }

  /** Editing a field after a failed validation removes exactly that field's
      error and keeps the others. */
  lemma EditClearsValidationError(st: FormState, f: Field, v: string)
    requires forall g :: g in st.errors ==> ErrorShown(st.errors, g)
    ensures HandleChange(st, f, v).errors == st.errors - {f}
  {
  }

  /** The end-to-end example's phone number passes. */
  lemma ExamplePhone()
    ensures TestLines(PhoneAtoms, "555-123-4567")
  {
    var p := "555-123-4567";
    assert SkipChar(p, 0, 12, '+') == 0;
    assert SkipChar(p, 0, 12, '(') == 0;
    assert SkipChar(p, 3, 12, ')') == 3;
    assert SkipSeparator(p, 3, 12) == 4;
    assert SkipSeparator(p, 7, 12) == 8;
    assert PhoneSpan(p, 0, 12);
    PhoneSingleLine(p);
    PhoneValidIffTestLines(p);
  }

  /** The end-to-end example's e-mail address passes. */
  lemma ExampleEmail()
    ensures Test(EmailAtoms, "jane@x.com")
  {
    assert EmailAt("jane@x.com", 4, 6);
    EmailLikeIffTest("jane@x.com");
  }

  /** The end-to-end example: a well-formed lead is posted as entered, and an
      ok response resets the form and thanks the user. */
  lemma ExampleSubmission(submittedAt: string)
    ensures var st := InitialState.(data := FormData("Jane Doe", "jane@x.com", "555-123-4567", "1 Main St"));
      HandleSubmit(st, submittedAt, Responded(true)) ==
        SubmitResult(
          FormState(EmptyForm, map[], false, Some(SubmitStatus(true, SuccessMessage))),
          Some(Payload("Jane Doe", "jane@x.com", "555-123-4567", "1 Main St", submittedAt)))
  {
    var d := FormData("Jane Doe", "jane@x.com", "555-123-4567", "1 Main St");
    assert !AllSpace(d.name) by { assert !IsSpace(d.name[0]); }
    assert !AllSpace(d.propertyAddress) by { assert !IsSpace(d.propertyAddress[0]); }
    ExampleEmail();
    ExamplePhone();
    assert ValidateForm(d).ok;
  }
}
