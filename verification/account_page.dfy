/** The account page (`src/pages/Account.jsx`): who may see it, the profile
    form and its validation, and the badge shown for an order's status. */
module AccountPage {
  import opened JsStrings
  import opened Optional
  import opened Patterns
  import opened Forms
  import opened Checks
  import CheckoutPage

  /** The first effect: a visitor who is not signed in is sent to log in;
      a signed-in one stays (`None`). */
  function AccessRedirect(authenticated: bool): (r: Option<string>)
    ensures r == None <==> authenticated
    ensures r != None ==> r == Some("/login")
  {
    if authenticated then None else Some("/login")
  }

  // ---------------------------------------------------------------------
  // The profile form

  datatype ProfileField = Name | Email | Phone

  datatype ProfileForm = ProfileForm(name: string, email: string, phone: string)

  function Get(form: ProfileForm, f: ProfileField): string {
    match f
    case Name => form.name
    case Email => form.email
    case Phone => form.phone
  }

  /** `{ ...prev, [name]: value }`. */
  function With(form: ProfileForm, f: ProfileField, value: string): (r: ProfileForm)
    ensures Get(r, f) == value
    ensures forall g | g != f :: Get(r, g) == Get(form, g)
  {
    match f
    case Name => form.(name := value)
    case Email => form.(email := value)
    case Phone => form.(phone := value)
  }

  /** `handleChange`: store the value and blank the field's message if one shows. */
  function HandleChange(s: FormState<ProfileForm, ProfileField>, f: ProfileField, value: string)
    : (r: FormState<ProfileForm, ProfileField>)
    ensures Get(r.data, f) == value
    ensures forall g | g != f :: Get(r.data, g) == Get(s.data, g)
    ensures r.errors.Keys == s.errors.Keys
    ensures forall g :: Shows(r.errors, g) <==> Shows(s.errors, g) && g != f
  {
    ClearingHidesOnlyThatField(s.errors, f, f);
    FormState(With(s.data, f, value), ClearIfSet(s.errors, f))
  }

  const NameRequired := "Name is required"
  const EmailRequired := "Email is required"
  const EmailInvalid := "Please enter a valid email address"
  const PhoneInvalid := "Please enter a valid phone number"

  /** The phone is optional; one that is given must be an optional '+' then
      ten or more digits, white space, dashes or parentheses. */
  function PhoneError(phone: string): (r: Option<string>)
    ensures r == None <==> phone == "" || PhoneRegexTest(phone, true)
    ensures r != None ==> r == Some(PhoneInvalid)
  {
    if phone != "" && !PhoneRegexTest(phone, true) then Some(PhoneInvalid) else None
  }

  function FieldError(form: ProfileForm, f: ProfileField): Option<string> {
    match f
    case Name => RequireNonBlank(form.name, NameRequired)
    case Email => RequireEmail(form.email, EmailRequired, EmailInvalid)
    case Phone => PhoneError(form.phone)
  }

  /** The fields in the order the page checks them. */
  const Fields: seq<ProfileField> := [Name, Email, Phone]

  lemma EveryFieldChecked()
    ensures forall f :: f in Fields
  {
    forall f
      ensures f in Fields
    {
      match f
      case Name => assert Fields[0] == f;
      case Email => assert Fields[1] == f;
      case Phone => assert Fields[2] == f;
    }
  }

  /** `validateForm`: a field appears in the error object exactly when its
      check fails, with that check's message, and the profile may be saved
      exactly when the error object is empty. */
  function ValidateForm(form: ProfileForm): (v: Validation<ProfileField>)
    ensures forall f :: f in v.errors <==> FieldError(form, f).Some?
    ensures forall f | f in v.errors :: v.errors[f] == FieldError(form, f).value
    ensures v.valid <==> forall f :: FieldError(form, f) == None
    ensures v.valid <==> v.errors == map[]
  {
    var e := CollectErrors(Fields, f => FieldError(form, f));
    EveryFieldChecked();
    assert |e| == 0 <==> e == map[] by {
      if |e| == 0 {
        assert e.Keys == {};
      }
    }
    Validation(e, |e| == 0)
  }

  /** Leaving the phone empty never blocks saving; anything else about the
      form is judged the same with or without it. */
  lemma EmptyPhoneAllowed(form: ProfileForm)
    ensures Phone !in ValidateForm(form.(phone := "")).errors
    ensures ValidateForm(form.(phone := "")).valid <==> !AllSpace(form.name) && form.email != "" && EmailRegexTest(form.email)
  {
    var other := form.(phone := "");
    assert FieldError(other, Phone) == None;
    assert FieldError(other, Name) == RequireNonBlank(form.name, NameRequired);
    assert FieldError(other, Email) == RequireEmail(form.email, EmailRequired, EmailInvalid);
  }

  /** A saved profile has a name, a well-formed email and, if any phone, a
      well-formed one. */
  lemma SavedProfile(form: ProfileForm)
    requires ValidateForm(form).valid
    ensures !AllSpace(form.name)
    ensures form.email != "" && EmailRegexTest(form.email)
    ensures form.phone != "" ==> |form.phone| >= 10
  {
    assert RequireNonBlank(form.name, NameRequired) == None by {
      assert FieldError(form, Name) == None;
    }
    assert RequireEmail(form.email, EmailRequired, EmailInvalid) == None by {
      assert FieldError(form, Email) == None;
    }
    assert PhoneError(form.phone) == None by {
      assert FieldError(form, Phone) == None;
    }
  }

  // ---------------------------------------------------------------------
  // The status badge

  const DefaultColors := "bg-gray-100 text-gray-800"

  /** The colour classes for the statuses the page knows; any other status
      falls back to grey. */
  function StatusColors(status: string): (cls: string)
    ensures status == "pending" ==> cls == "bg-yellow-100 text-yellow-800"
    ensures status == "confirmed" ==> cls == "bg-green-100 text-green-800"
    ensures status == "preparing" ==> cls == "bg-blue-100 text-blue-800"
    ensures status == "ready" ==> cls == "bg-purple-100 text-purple-800"
    ensures status !in {"pending", "confirmed", "preparing", "ready"} ==> cls == DefaultColors
  {
    if status == "pending" then "bg-yellow-100 text-yellow-800"
    else if status == "confirmed" then "bg-green-100 text-green-800"
    else if status == "preparing" then "bg-blue-100 text-blue-800"
    else if status == "ready" then "bg-purple-100 text-purple-800"
    else if status == "delivered" then "bg-gray-100 text-gray-800"
    else DefaultColors
  }

  datatype Badge = Badge(caption: string, colors: string)

  /** `StatusBadge`: nothing for an empty status; otherwise the status with
      its first letter capitalised, in the colours of that status. */
  function StatusBadge(status: string): (b: Option<Badge>)
    ensures b == None <==> status == ""
    ensures b.Some? ==> |b.value.caption| == |status| && b.value.caption[1..] == status[1..]
    ensures b.Some? ==> b.value.caption[0] == UpperChar(status[0])
    ensures b.Some? ==> b.value.colors == StatusColors(status)
  {
    if status == "" then None
    else Some(Badge([UpperChar(status[0])] + status[1..], StatusColors(status)))
  }

  /** Lower-casing the first letter of a badge gives back a status that
      starts with a lower-case letter. */
  lemma BadgeLabelRoundTrip(status: string)
    requires status != "" && 'a' <= status[0] <= 'z'
    ensures var caption := StatusBadge(status).value.caption;
      [LowerChar(caption[0])] + caption[1..] == status
  {
    var caption := StatusBadge(status).value.caption;
    assert LowerChar(caption[0]) == status[0];
    assert [status[0]] + status[1..] == status;
  }

  /** Every order placed at checkout starts out with a yellow "Pending" badge. */
  lemma NewOrderShowsPending(receiptId: string, uid: Option<string>, c: CheckoutPage.CartStore.Cart,
                             p: CheckoutPage.PaymentData, orderDate: string)
    ensures StatusBadge(CheckoutPage.NewOrder(receiptId, uid, c, p, orderDate).status)
      == Some(Badge("Pending", "bg-yellow-100 text-yellow-800"))
  {
    var o := CheckoutPage.NewOrder(receiptId, uid, c, p, orderDate);
    assert o.status == "pending";
    assert UpperChar('p') == 'P';
    assert "pending"[1..] == "ending";
    assert [UpperChar('p')] + "ending" == "Pending";
  }

  /** A delivered order and one whose status the page does not know look the same. */
  lemma UnknownStatusLooksDelivered(status: string)
    requires status !in {"pending", "confirmed", "preparing", "ready"}
    ensures StatusColors(status) == StatusColors("delivered")
  {
  }
}
