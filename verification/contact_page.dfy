/** The contact page (`src/pages/Contact.jsx`): the enquiry form and its validation. */
module ContactPage {
  import opened JsStrings
  import opened Optional
  import opened Patterns
  import opened Forms
  import opened Checks

  datatype ContactField = Name | Email | Phone | Subject | Message | InquiryType

  /** The form; a fresh one asks a "general" enquiry. */
  datatype ContactForm = ContactForm(
    name: string,
    email: string,
    phone: string,
    subject: string,
    message: string,
    inquiryType: string)

  function Get(form: ContactForm, f: ContactField): string {
    match f
    case Name => form.name
    case Email => form.email
    case Phone => form.phone
    case Subject => form.subject
    case Message => form.message
    case InquiryType => form.inquiryType
  }

  /** `{ ...prev, [field]: value }`. */
  function With(form: ContactForm, f: ContactField, value: string): (r: ContactForm)
    ensures Get(r, f) == value
    ensures forall g | g != f :: Get(r, g) == Get(form, g)
  {
    match f
    case Name => form.(name := value)
    case Email => form.(email := value)
    case Phone => form.(phone := value)
    case Subject => form.(subject := value)
    case Message => form.(message := value)
    case InquiryType => form.(inquiryType := value)
  }

  /** `handleInputChange`: store the value and blank the field's message if one shows. */
  function HandleInputChange(s: FormState<ContactForm, ContactField>, f: ContactField, value: string)
    : (r: FormState<ContactForm, ContactField>)
    ensures Get(r.data, f) == value
    ensures forall g | g != f :: Get(r.data, g) == Get(s.data, g)
    ensures r.errors.Keys == s.errors.Keys
    ensures forall g :: Shows(r.errors, g) <==> Shows(s.errors, g) && g != f
  {
    ClearingHidesOnlyThatField(s.errors, f, f);
    FormState(With(s.data, f, value), ClearIfSet(s.errors, f))
  }

  const NameRequired := "Name is required"
  const EmailRequired := "Email is required"
  const EmailInvalid := "Please enter a valid email"
  const SubjectRequired := "Subject is required"
  const MessageRequired := "Message is required"
  const MessageTooShort := "Message must be at least 10 characters"

  /** The message must not be blank after trimming, and must have at least ten
      characters counted before trimming. */
  function MessageError(message: string): (r: Option<string>)
    ensures r == None <==> !AllSpace(message) && |message| >= 10
    ensures AllSpace(message) ==> r == Some(MessageRequired)
    ensures !AllSpace(message) && |message| < 10 ==> r == Some(MessageTooShort)
  {
    if Trim(message) == [] then Some(MessageRequired)
    else if |message| < 10 then Some(MessageTooShort)
    else None
  }

  /** The check applied to field `f`; the phone and the enquiry type are not checked. */
  function FieldError(form: ContactForm, f: ContactField): Option<string> {
    match f
    case Name => RequireNonBlank(form.name, NameRequired)
    case Email => RequireNonBlankEmail(form.email, EmailRequired, EmailInvalid)
    case Subject => RequireNonBlank(form.subject, SubjectRequired)
    case Message => MessageError(form.message)
    case Phone => None
    case InquiryType => None
  }

  /** The fields in the order the page checks them. */
  const Checked: seq<ContactField> := [Name, Email, Subject, Message]

  lemma CheckedCoversEveryCheck(form: ContactForm)
    ensures forall f | FieldError(form, f).Some? :: f in Checked
  {
    forall f | FieldError(form, f).Some?
      ensures f in Checked
    {
      match f
      case Name => assert Checked[0] == f;
      case Email => assert Checked[1] == f;
      case Subject => assert Checked[2] == f;
      case Message => assert Checked[3] == f;
    }
  }

  /** `validateForm`: a field appears in the error object exactly when its
      check fails, with that check's message, and the form is valid exactly
      when the error object is empty. */
  function ValidateForm(form: ContactForm): (v: Validation<ContactField>)
    ensures forall f :: f in v.errors <==> FieldError(form, f).Some?
    ensures forall f | f in v.errors :: v.errors[f] == FieldError(form, f).value
    ensures v.valid <==> forall f :: FieldError(form, f) == None
    ensures v.valid <==> v.errors == map[]
  {
    var e := CollectErrors(Checked, f => FieldError(form, f));
    CheckedCoversEveryCheck(form);
    assert |e| == 0 <==> e == map[] by {
      if |e| == 0 {
        assert e.Keys == {};
      }
    }
    Validation(e, |e| == 0)
  }

  /** What an accepted enquiry guarantees about each field. */
  lemma AcceptedEnquiry(form: ContactForm)
    requires ValidateForm(form).valid
    ensures !AllSpace(form.name) && !AllSpace(form.subject)
    ensures EmailRegexTest(form.email)
    ensures |form.message| >= 10 && !AllSpace(form.message)
  {
    PassingChecks(form);
  }

  /** The same, from the field checks alone. */
  lemma PassingChecks(form: ContactForm)
    requires forall f :: FieldError(form, f) == None
    ensures !AllSpace(form.name) && !AllSpace(form.subject)
    ensures EmailRegexTest(form.email)
    ensures |form.message| >= 10 && !AllSpace(form.message)
  {
    assert FieldError(form, Name) == None;
    assert FieldError(form, Subject) == None;
    assert FieldError(form, Email) == None;
    assert FieldError(form, Message) == None;
  }

  /** The length rule counts the surrounding white space, so a short message
      padded with spaces to ten characters passes. */
  lemma PaddedMessagePasses(form: ContactForm)
    requires form.message == "Hi" + "        "
    ensures Message !in ValidateForm(form).errors
  {
    assert !IsSpace(form.message[0]);
    assert FieldError(form, Message) == None;
  }

  /** The phone number and the enquiry type never hold up an enquiry. */
  lemma PhoneAndTypeIgnored(form: ContactForm, phone: string, inquiryType: string)
    ensures ValidateForm(form.(phone := phone, inquiryType := inquiryType)) == ValidateForm(form)
  {
    ChecksSkipPhoneAndType(form, phone, inquiryType);
    SameChecksSameValidation(form.(phone := phone, inquiryType := inquiryType), form);
  }

  lemma ChecksSkipPhoneAndType(form: ContactForm, phone: string, inquiryType: string)
    ensures forall f :: FieldError(form.(phone := phone, inquiryType := inquiryType), f) == FieldError(form, f)
  {
    var other := form.(phone := phone, inquiryType := inquiryType);
    forall f
      ensures FieldError(other, f) == FieldError(form, f)
    {
      match f
      case Email => assert other.email == form.email;
      case Message => assert other.message == form.message;
      case _ =>
    }
  }

  /** Two forms whose checks agree field by field validate alike. */
  lemma SameChecksSameValidation(a: ContactForm, b: ContactForm)
    requires forall f :: FieldError(a, f) == FieldError(b, f)
    ensures ValidateForm(a) == ValidateForm(b)
  {
    assert ValidateForm(a).errors == ValidateForm(b).errors;
  }
}
