/** The private-event enquiry page (`src/pages/PrivateEvent.jsx`): the form,
    its validation as written, and the validation the budget field evidently
    intended. */
module PrivateEventPage {
  import opened JsStrings
  import opened Optional
  import opened Patterns
  import opened Forms
  import opened Checks

  datatype EventField =
    | Name | Email | UserId | Phone | EventDate | EventTime | GuestCount | EventType
    | Budget | Type | MenuPackage | DietaryRestrictions | SpecialRequests | ContactMethod

  datatype EventForm = EventForm(
    name: string,
    email: string,
    userId: string,
    phone: string,
    eventDate: string,
    eventTime: string,
    guestCount: string,
    eventType: string,
    budget: string,
    bookingType: string,
    menuPackage: string,
    dietaryRestrictions: string,
    specialRequests: string,
    contactMethod: string)

  function Get(form: EventForm, f: EventField): string {
    match f
    case Name => form.name
    case Email => form.email
    case UserId => form.userId
    case Phone => form.phone
    case EventDate => form.eventDate
    case EventTime => form.eventTime
    case GuestCount => form.guestCount
    case EventType => form.eventType
    case Budget => form.budget
    case Type => form.bookingType
    case MenuPackage => form.menuPackage
    case DietaryRestrictions => form.dietaryRestrictions
    case SpecialRequests => form.specialRequests
    case ContactMethod => form.contactMethod
  }

  /** `{ ...prev, [name]: value }`. */
  function With(form: EventForm, f: EventField, value: string): (r: EventForm)
    ensures Get(r, f) == value
    ensures forall g | g != f :: Get(r, g) == Get(form, g)
  {
    match f
    case Name => form.(name := value)
    case Email => form.(email := value)
    case UserId => form.(userId := value)
    case Phone => form.(phone := value)
    case EventDate => form.(eventDate := value)
    case EventTime => form.(eventTime := value)
    case GuestCount => form.(guestCount := value)
    case EventType => form.(eventType := value)
    case Budget => form.(budget := value)
    case Type => form.(bookingType := value)
    case MenuPackage => form.(menuPackage := value)
    case DietaryRestrictions => form.(dietaryRestrictions := value)
    case SpecialRequests => form.(specialRequests := value)
    case ContactMethod => form.(contactMethod := value)
  }

  /** `handleInputChange`: store the value and set the field's message to ""
      unconditionally, adding an entry if the field had none. */
  function HandleInputChange(s: FormState<EventForm, EventField>, f: EventField, value: string)
    : (r: FormState<EventForm, EventField>)
    ensures Get(r.data, f) == value
    ensures forall g | g != f :: Get(r.data, g) == Get(s.data, g)
    ensures r.errors.Keys == s.errors.Keys + {f}
    ensures forall g :: Shows(r.errors, g) <==> Shows(s.errors, g) && g != f
  {
    ClearingHidesOnlyThatField(s.errors, f, f);
    FormState(With(s.data, f, value), Clear(s.errors, f))
  }

  const NameRequired := "Name is required"
  const EmailRequired := "Email is required"
  const EmailInvalid := "Email is invalid"
  const PhoneRequired := "Phone is required"
  const DateRequired := "Event date is required"
  const TimeRequired := "Event time is required"
  const GuestsRequired := "Number of guests is required"
  const TooFewGuests := "Minimum number of guests is 10"
  const EventTypeRequired := "Event type is required"
  const PackageRequired := "Menu package is required"
  const BudgetRequired := "Budget is required"

  /** The guest-count check: the text is compared with 10 after `Number`
      conversion, and a comparison with NaN is false, so text that is not a
      number passes. */
  function GuestCountError(count: string): (r: Option<string>)
    ensures r == None <==> count != "" && (StringToNumber(count).NaN? || StringToNumber(count).value >= 10.0)
    ensures count == "" ==> r == Some(GuestsRequired)
    ensures count != "" && StringToNumber(count).Num? && StringToNumber(count).value < 10.0 ==> r == Some(TooFewGuests)
  {
    if count == "" then Some(GuestsRequired)
    else if StringToNumber(count).Num? && StringToNumber(count).value < 10.0 then Some(TooFewGuests)
    else None
  }

  /** The check the page applies to field `f`. The budget message depends on
      the menu package, not on the budget. */
  function FieldError(form: EventForm, f: EventField): Option<string> {
    match f
    case Name => RequireText(form.name, NameRequired)
    case Email => RequireEmail(form.email, EmailRequired, EmailInvalid)
    case Phone => RequireText(form.phone, PhoneRequired)
    case EventDate => RequireText(form.eventDate, DateRequired)
    case EventTime => RequireText(form.eventTime, TimeRequired)
    case GuestCount => GuestCountError(form.guestCount)
    case EventType => RequireText(form.eventType, EventTypeRequired)
    case MenuPackage => RequireText(form.menuPackage, PackageRequired)
    case Budget => RequireText(form.menuPackage, BudgetRequired)
    case _ => None
  }

  /** The budget check the form evidently intends: a budget must be given. */
  function CorrectedFieldError(form: EventForm, f: EventField): Option<string> {
    match f
    case Budget => RequireText(form.budget, BudgetRequired)
    case _ => FieldError(form, f)
  }

  /** The nine fields that have an entry in the error object. */
  const Checked: seq<EventField> :=
    [Name, Email, Budget, Phone, EventDate, EventTime, GuestCount, EventType, MenuPackage]

  lemma CheckedCoversEveryCheck(form: EventForm)
    ensures forall f | FieldError(form, f).Some? :: f in Checked && FieldError(form, f).value != ""
    ensures forall f | CorrectedFieldError(form, f).Some? ::
      f in Checked && CorrectedFieldError(form, f).value != ""
  {
    forall f | FieldError(form, f).Some? || CorrectedFieldError(form, f).Some?
      ensures f in Checked
    {
      match f
      case Name => assert Checked[0] == f;
      case Email => assert Checked[1] == f;
      case Budget => assert Checked[2] == f;
      case Phone => assert Checked[3] == f;
      case EventDate => assert Checked[4] == f;
      case EventTime => assert Checked[5] == f;
      case GuestCount => assert Checked[6] == f;
      case EventType => assert Checked[7] == f;
      case MenuPackage => assert Checked[8] == f;
    }
  }

  /** The error object `validateForm` builds for the checks `check`: all nine
      fields start with "" and each failing one gets its message; the form is
      valid exactly when no check fails, so exactly when every entry is "". */
  function Validate(check: EventField -> Option<string>): (v: Validation<EventField>)
    requires forall f | check(f).Some? :: f in Checked && check(f).value != ""
    ensures v.errors.Keys == set f | f in Checked
    ensures forall f | f in v.errors :: v.errors[f] == if check(f).Some? then check(f).value else ""
    ensures v.valid <==> forall f :: check(f) == None
    ensures v.valid <==> forall f | f in v.errors :: v.errors[f] == ""
  {
    var errors := map f | f in Checked :: if check(f).Some? then check(f).value else "";
    Validation(errors, forall i | 0 <= i < |Checked| :: check(Checked[i]) == None)
  }

  /** `validateForm` as the page writes it. */
  function ValidateForm(form: EventForm): (v: Validation<EventField>)
    ensures v.errors.Keys == set f | f in Checked
    ensures forall f | f in v.errors :: v.errors[f] == if FieldError(form, f).Some? then FieldError(form, f).value else ""
    ensures v.valid <==> forall f :: FieldError(form, f) == None
    ensures v.valid <==> forall f | f in v.errors :: v.errors[f] == ""
  {
    CheckedCoversEveryCheck(form);
    Validate(f => FieldError(form, f))
  }

  /** `validateForm` with the budget check the form evidently intends. */
  function ValidateFormCorrected(form: EventForm): (v: Validation<EventField>)
    ensures v.errors.Keys == set f | f in Checked
    ensures forall f | f in v.errors :: v.errors[f] == if CorrectedFieldError(form, f).Some? then CorrectedFieldError(form, f).value else ""
    ensures v.valid <==> forall f :: CorrectedFieldError(form, f) == None
    ensures v.valid <==> forall f | f in v.errors :: v.errors[f] == ""
    ensures Shows(v.errors, Budget) <==> form.budget == ""
  {
    CheckedCoversEveryCheck(form);
    assert Budget in Checked;
    Validate(f => CorrectedFieldError(form, f))
  }

  /** Validation only looks at what the checks return. */
  lemma SameChecksSameValidation(c1: EventField -> Option<string>, c2: EventField -> Option<string>)
    requires forall f | c1(f).Some? :: f in Checked && c1(f).value != ""
    requires forall f :: c1(f) == c2(f)
    ensures Validate(c1) == Validate(c2)
  {
    assert Validate(c1).errors == Validate(c2).errors;
  }

  /** As written, the budget the visitor types never affects the outcome. */
  lemma BudgetNeverInspected(form: EventForm, budget: string)
    ensures ValidateForm(form.(budget := budget)) == ValidateForm(form)
  {
    var other := form.(budget := budget);
    forall f
      ensures FieldError(other, f) == FieldError(form, f)
    {
      match f
      case Email => assert other.email == form.email;
      case GuestCount => assert other.guestCount == form.guestCount;
      case _ =>
    }
    CheckedCoversEveryCheck(other);
    SameChecksSameValidation(f => FieldError(other, f), f => FieldError(form, f));
  }

  /** A concrete form that the page accepts although its budget is empty,
      while the corrected validation rejects it for exactly that reason. */
  lemma EmptyBudgetAccepted()
    ensures var form := SampleForm();
      && ValidateForm(form).valid
      && !ValidateFormCorrected(form).valid
      && ValidateFormCorrected(form).errors[Budget] == BudgetRequired
  {
    var form := SampleForm();
    SampleFieldsPass();
    assert CorrectedFieldError(form, Budget) == Some(BudgetRequired);
  }

  /** A filled-in enquiry for a party of twenty that leaves the budget empty. */
  function SampleForm(): EventForm {
    EventForm("Ann", "ann@site.com", "guest", "555", "2030-01-01", "18:00",
              "20", "wedding", "", "event", "gold", "", "", "phone")
  }

  lemma SampleFieldsPass()
    ensures forall f :: FieldError(SampleForm(), f) == None
  {
    var form := SampleForm();
    forall f
      ensures FieldError(form, f) == None
    {
      match f
      case Email => SampleEmailPasses(form.email);
      case GuestCount => SampleGuestCountPasses(form.guestCount);
      case _ =>
    }
  }

  lemma SampleEmailPasses(email: string)
    requires email == "ann@site.com"
    ensures RequireEmail(email, EmailRequired, EmailInvalid) == None
  {
    assert EmailShapeAt(email, 3, 8);
    assert LooksLikeEmail(email);
  }

  lemma SampleGuestCountPasses(count: string)
    requires count == "20"
    ensures GuestCountError(count) == None
  {
    DigitStringToNumber(count);
    assert count[..1] == "2";
  }

  /** With a budget filled in, the corrected validation agrees with the page. */
  lemma CorrectedAgreesWhenBudgetGiven(form: EventForm)
    requires form.budget != "" && form.menuPackage != ""
    ensures ValidateFormCorrected(form) == ValidateForm(form)
  {
    forall f
      ensures CorrectedFieldError(form, f) == FieldError(form, f)
    {
      match f
      case Budget =>
      case _ =>
    }
    CheckedCoversEveryCheck(form);
    SameChecksSameValidation(f => CorrectedFieldError(form, f), f => FieldError(form, f));
  }

  /** Fewer than ten guests, written as digits, is turned away. */
  lemma SmallPartyRejected(form: EventForm)
    requires |form.guestCount| > 0 && AllDigits(form.guestCount) && DigitsValue(form.guestCount) < 10
    ensures ValidateForm(form).errors[GuestCount] == TooFewGuests
    ensures !ValidateForm(form).valid
  {
    SmallCountRejected(form.guestCount);
    GuestCountChecked(form);
  }

  lemma GuestCountChecked(form: EventForm)
    ensures FieldError(form, GuestCount) == GuestCountError(form.guestCount)
  {
  }

  lemma SmallCountRejected(count: string)
    requires |count| > 0 && AllDigits(count) && DigitsValue(count) < 10
    ensures GuestCountError(count) == Some(TooFewGuests)
  {
    DigitStringToNumber(count);
  }

  /** A count written with an exponent, as the number input allows, is read
      as the number it denotes and rejected when that is below ten. */
  lemma ExponentCountRejected(mantissa: string, exponent: string)
    requires |mantissa| > 0 && AllDigits(mantissa) && |exponent| > 0 && AllDigits(exponent)
    requires DigitsValue(mantissa) * Pow10(DigitsValue(exponent)) < 10
    ensures GuestCountError(mantissa + "e" + exponent) == Some(TooFewGuests)
  {
    ExponentToNumber(mantissa, exponent);
  }

  /** "5e0" is five guests, too few. */
  lemma FiveInExponentFormRejected()
    ensures GuestCountError("5e0") == Some(TooFewGuests)
  {
    assert "5e0" == "5" + "e" + "0";
    assert DigitsValue("5") == 5 && DigitsValue("0") == 0;
    ExponentCountRejected("5", "0");
  }

  /** A guest count that is not a number passes, since `NaN < 10` is false. */
  lemma NonNumericGuestCountPasses(form: EventForm)
    requires form.guestCount != "" && StringToNumber(form.guestCount).NaN?
    ensures ValidateForm(form).errors[GuestCount] == ""
  {
    GuestCountChecked(form);
  }
}
