/** The checkout page (`src/pages/Checkout.jsx`): who may stay on it, the
    payment form and its validation, and the amounts an order records. */
module CheckoutPage {
  import opened JsStrings
  import opened Optional
  import opened Patterns
  import opened Forms
  import opened Checks
  import opened CartStore
  import opened Pricing
  import CartPage

  // ---------------------------------------------------------------------
  // Access

  /** The first effect: a visitor who is not signed in is sent to log in and
      come back; a signed-in one with an empty cart is sent to the cart;
      otherwise the page stays (`None`). */
  function Redirect(authenticated: bool, c: Cart): (r: Option<string>)
    ensures r == None <==> authenticated && |c| > 0
    ensures !authenticated <==> r == Some(CartPage.LoginThenCheckout)
    ensures r == Some("/cart") <==> authenticated && |c| == 0
  {
    if !authenticated then Some(CartPage.LoginThenCheckout)
    else if |c| == 0 then Some("/cart")
    else None
  }

  /** The checkout button of the cart page leads where this page lets the
      visitor stay, or to the same login detour. */
  lemma CartButtonAgreesWithRedirect(authenticated: bool, c: Cart)
    requires |c| > 0
    ensures Redirect(authenticated, c) == None <==> CartPage.CheckoutTarget(authenticated) == "/checkout"
    ensures !authenticated ==> Redirect(authenticated, c) == Some(CartPage.CheckoutTarget(authenticated))
  {
  }

  // ---------------------------------------------------------------------
  // The payment form

  datatype PaymentField = ReferenceCode | CustomerName | CustomerEmail | CustomerPhone

  datatype PaymentData = PaymentData(
    referenceCode: string,
    customerName: string,
    customerEmail: string,
    customerPhone: string)

  function Get(p: PaymentData, f: PaymentField): string {
    match f
    case ReferenceCode => p.referenceCode
    case CustomerName => p.customerName
    case CustomerEmail => p.customerEmail
    case CustomerPhone => p.customerPhone
  }

  /** `{ ...prev, [field]: value }`: the field takes the value and the others keep theirs. */
  function With(p: PaymentData, f: PaymentField, value: string): (r: PaymentData)
    ensures Get(r, f) == value
    ensures forall g | g != f :: Get(r, g) == Get(p, g)
  {
    match f
    case ReferenceCode => p.(referenceCode := value)
    case CustomerName => p.(customerName := value)
    case CustomerEmail => p.(customerEmail := value)
    case CustomerPhone => p.(customerPhone := value)
  }

  /** `handleInputChange`: store the value and blank the field's message if one shows. */
  function HandleInputChange(s: FormState<PaymentData, PaymentField>, f: PaymentField, value: string)
    : (r: FormState<PaymentData, PaymentField>)
    ensures Get(r.data, f) == value
    ensures forall g | g != f :: Get(r.data, g) == Get(s.data, g)
    ensures r.errors.Keys == s.errors.Keys
    ensures forall g :: Shows(r.errors, g) <==> Shows(s.errors, g) && g != f
  {
    FormState(With(s.data, f, value), ClearIfSet(s.errors, f))
  }

  const ReferenceRequired := "Reference code is required"
  const ReferenceTooShort := "Reference code must be at least 6 characters"
  const NameRequired := "Customer name is required"
  const EmailRequired := "Email is required"
  const EmailInvalid := "Please enter a valid email"
  const PhoneRequired := "Phone number is required"
  const PhoneInvalid := "Please enter a valid phone number"

  /** The reference-code check: blank after trimming, or fewer than six
      characters counted before trimming. */
  function ReferenceCodeError(code: string): (r: Option<string>)
    ensures r == None <==> !AllSpace(code) && |code| >= 6
    ensures AllSpace(code) ==> r == Some(ReferenceRequired)
    ensures !AllSpace(code) && |code| < 6 ==> r == Some(ReferenceTooShort)
  {
    if Trim(code) == [] then Some(ReferenceRequired)
    else if |code| < 6 then Some(ReferenceTooShort)
    else None
  }

  /** The phone check: blank after trimming, or not an optional '+' followed
      by ten or more digits and white-space characters. */
  function PhoneError(phone: string): (r: Option<string>)
    ensures r == None <==> !AllSpace(phone) && PhoneRegexTest(phone, false)
    ensures AllSpace(phone) ==> r == Some(PhoneRequired)
    ensures !AllSpace(phone) && !PhoneRegexTest(phone, false) ==> r == Some(PhoneInvalid)
  {
    if Trim(phone) == [] then Some(PhoneRequired)
    else if !PhoneRegexTest(phone, false) then Some(PhoneInvalid)
    else None
  }

  /** `validateForm`: every field is checked, a failing field appears in the
      error object with its check's message and a passing one does not, and
      the form is valid exactly when the error object is empty. */
  function ValidateForm(p: PaymentData): (v: Validation<PaymentField>)
    ensures forall f :: f in v.errors <==> FieldError(p, f).Some?
    ensures forall f | f in v.errors :: v.errors[f] == FieldError(p, f).value
    ensures v.valid <==> forall f :: FieldError(p, f) == None
    ensures v.valid <==> v.errors == map[]
  {
    var e := CollectErrors(Fields, f => FieldError(p, f));
    EveryFieldChecked();
    assert |e| == 0 <==> e == map[] by {
      if |e| == 0 {
        assert e.Keys == {};
      }
    }
    Validation(e, |e| == 0)
  }

  /** The fields in the order the page checks them. */
  const Fields: seq<PaymentField> := [ReferenceCode, CustomerName, CustomerEmail, CustomerPhone]

  lemma EveryFieldChecked()
    ensures forall f :: f in Fields
  {
    forall f
      ensures f in Fields
    {
      match f
      case ReferenceCode => assert Fields[0] == f;
      case CustomerName => assert Fields[1] == f;
      case CustomerEmail => assert Fields[2] == f;
      case CustomerPhone => assert Fields[3] == f;
    }
  }

  /** The check that applies to field `f`. */
  function FieldError(p: PaymentData, f: PaymentField): Option<string> {
    match f
    case ReferenceCode => ReferenceCodeError(p.referenceCode)
    case CustomerName => RequireNonBlank(p.customerName, NameRequired)
    case CustomerEmail => RequireNonBlankEmail(p.customerEmail, EmailRequired, EmailInvalid)
    case CustomerPhone => PhoneError(p.customerPhone)
  }

  /** What a form that passes guarantees about each field. */
  lemma AcceptedPaymentData(p: PaymentData)
    requires ValidateForm(p).valid
    ensures |p.referenceCode| >= 6 && !AllSpace(p.referenceCode)
    ensures !AllSpace(p.customerName)
    ensures EmailRegexTest(p.customerEmail)
    ensures |p.customerPhone| >= 10 && PhoneRegexTest(p.customerPhone, true)
  {
    PassingChecks(p);
  }

  /** The same, from the field checks alone. */
  lemma PassingChecks(p: PaymentData)
    requires forall f :: FieldError(p, f) == None
    ensures |p.referenceCode| >= 6 && !AllSpace(p.referenceCode)
    ensures !AllSpace(p.customerName)
    ensures EmailRegexTest(p.customerEmail)
    ensures |p.customerPhone| >= 10 && PhoneRegexTest(p.customerPhone, true)
  {
    assert FieldError(p, ReferenceCode) == None;
    assert FieldError(p, CustomerName) == None;
    assert FieldError(p, CustomerEmail) == None;
    assert FieldError(p, CustomerPhone) == None;
    StrictPhoneIsPunctuatedPhone(p.customerPhone);
  }

  /** A phone number written with dashes or parentheses is turned away here,
      although the booking and account forms accept it. */
  lemma PunctuatedPhoneRejected(p: PaymentData, k: int)
    requires 0 <= k < |p.customerPhone| && p.customerPhone[k] in {'-', '(', ')'}
    ensures CustomerPhone in ValidateForm(p).errors && !ValidateForm(p).valid
  {
    StrictPhoneRejectsPunctuation(p.customerPhone, k);
    assert PhoneError(p.customerPhone).Some?;
    assert FieldError(p, CustomerPhone).Some?;
  }

  // ---------------------------------------------------------------------
  // The order record

  /** The order written when payment goes through. The receipt id and the
      order date come from the clock and a random number and are passed in. */
  datatype Order = Order(
    receiptId: string,
    userId: string,
    items: Cart,
    subtotal: real,
    tax: real,
    total: real,
    payment: PaymentData,
    orderDate: string,
    status: string)

  /** The order for cart `c`, paid with `p` by the user with id `uid`, if any:
      a missing or empty id is recorded as "guest", the amounts are those
      of `StoredAmounts`, and every new order starts out "pending". */
  function NewOrder(receiptId: string, uid: Option<string>, c: Cart, p: PaymentData, orderDate: string)
    : (o: Order)
    ensures o.items == c && o.payment == p && o.status == "pending"
    ensures o.userId == "guest" <==> uid == None || uid == Some("") || uid == Some("guest")
    ensures uid.Some? && uid.value != "" ==> o.userId == uid.value
    ensures Summary(o.subtotal, o.tax, o.total) == DisplayedSummary(c)
  {
    var amounts := StoredAmounts(c);
    StoredMatchesDisplayed(c);
    var userId := if uid.Some? && uid.value != "" then uid.value else "guest";
    Order(receiptId, userId, c, amounts.subtotal, amounts.tax, amounts.total, p, orderDate, "pending")
  }
}
