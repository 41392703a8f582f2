/** The table-booking page (`src/pages/Booking.jsx`): the choices it offers,
    the form and its validation. */
module BookingPage {
  import opened JsStrings
  import opened Optional
  import opened Patterns
  import opened Forms
  import opened Checks

  // ---------------------------------------------------------------------
  // The choices offered

  /** The half-hour slots from 11:00 to 21:30. */
  const TimeSlots: seq<string> := [
    "11:00", "11:30", "12:00", "12:30", "13:00", "13:30", "14:00", "14:30",
    "15:00", "15:30", "16:00", "16:30", "17:00", "17:30", "18:00", "18:30",
    "19:00", "19:30", "20:00", "20:30", "21:00", "21:30"]

  /** The digit character for `d`. */
  function DigitChar(d: int): (c: char)
    requires 0 <= d <= 9
    ensures IsDigit(c) && DigitValue(c) == d
  {
    ('0' as int + d) as char
  }

  /** The `HH:MM` text of the `i`-th half hour after 11:00. */
  function SlotAt(i: int): (s: string)
    requires 0 <= i < 22
    ensures |s| == 5 && s[2] == ':'
  {
    var hour := 11 + i / 2;
    [DigitChar(hour / 10), DigitChar(hour % 10), ':', if i % 2 == 0 then '0' else '3', '0']
  }

  /** The table lists every half hour from 11:00 to 21:30 once, in order. */
  lemma TimeSlotsAreHalfHours()
    ensures |TimeSlots| == 22
    ensures forall i | 0 <= i < 22 :: TimeSlots[i] == SlotAt(i)
    ensures forall i, j | 0 <= i < j < 22 :: LexLess(TimeSlots[i], TimeSlots[j])
  {
    ElevenToOneSlots();
    OneToFourSlots();
    FourToSevenSlots();
    SevenToTenSlots();
    forall i, j | 0 <= i < j < 22
      ensures LexLess(TimeSlots[i], TimeSlots[j])
    {
      SlotsIncrease(i, j);
    }
  }

  lemma ElevenToOneSlots()
    ensures forall i | 0 <= i < 6 :: TimeSlots[i] == SlotAt(i)
  {
    assert TimeSlots[0] == SlotAt(0);
    assert TimeSlots[1] == SlotAt(1);
    assert TimeSlots[2] == SlotAt(2);
    assert TimeSlots[3] == SlotAt(3);
    assert TimeSlots[4] == SlotAt(4);
    assert TimeSlots[5] == SlotAt(5);
  }

  lemma OneToFourSlots()
    ensures forall i | 6 <= i < 12 :: TimeSlots[i] == SlotAt(i)
  {
    assert TimeSlots[6] == SlotAt(6);
    assert TimeSlots[7] == SlotAt(7);
    assert TimeSlots[8] == SlotAt(8);
    assert TimeSlots[9] == SlotAt(9);
    assert TimeSlots[10] == SlotAt(10);
    assert TimeSlots[11] == SlotAt(11);
  }

  lemma FourToSevenSlots()
    ensures forall i | 12 <= i < 18 :: TimeSlots[i] == SlotAt(i)
  {
    assert TimeSlots[12] == SlotAt(12);
    assert TimeSlots[13] == SlotAt(13);
    assert TimeSlots[14] == SlotAt(14);
    assert TimeSlots[15] == SlotAt(15);
    assert TimeSlots[16] == SlotAt(16);
    assert TimeSlots[17] == SlotAt(17);
  }

  lemma SevenToTenSlots()
    ensures forall i | 18 <= i < 22 :: TimeSlots[i] == SlotAt(i)
  {
    assert TimeSlots[18] == SlotAt(18);
    assert TimeSlots[19] == SlotAt(19);
    assert TimeSlots[20] == SlotAt(20);
    assert TimeSlots[21] == SlotAt(21);
  }

  /** A later half hour sorts after an earlier one. */
  lemma SlotsIncrease(i: int, j: int)
    requires 0 <= i < j < 22
    ensures LexLess(SlotAt(i), SlotAt(j))
  {
    var a, b := SlotAt(i), SlotAt(j);
    if a[0] == b[0] {
      if a[1] == b[1] {
        assert i / 2 == j / 2;
        assert a[3] < b[3];
        assert LexLess(a[3..], b[3..]);
        assert a[2..][1..] == a[3..] && b[2..][1..] == b[3..];
        assert LexLess(a[2..], b[2..]);
        assert a[1..][1..] == a[2..] && b[1..][1..] == b[2..];
      }
      assert LexLess(a[1..], b[1..]);
    }
  }

  /** The guest-count choices 1 to 12. */
  function GuestOptions(): (r: seq<int>)
    ensures |r| == 12
    ensures forall i | 0 <= i < |r| :: 1 <= r[i] <= 12
    ensures forall i, j | 0 <= i < j < |r| :: r[i] < r[j]
  {
    seq(12, i requires 0 <= i < 12 => i + 1)
  }

  // ---------------------------------------------------------------------
  // The form

  datatype BookingField = Date | Time | Guests | Name | Email | Phone | SpecialRequests | Type

  /** The form. `date` is an ISO `YYYY-MM-DD` string, and `guests` the text of the chosen option. */
  datatype BookingForm = BookingForm(
    date: string,
    time: string,
    guests: string,
    name: string,
    email: string,
    phone: string,
    specialRequests: string,
    bookingType: string)

  function Get(form: BookingForm, f: BookingField): string {
    match f
    case Date => form.date
    case Time => form.time
    case Guests => form.guests
    case Name => form.name
    case Email => form.email
    case Phone => form.phone
    case SpecialRequests => form.specialRequests
    case Type => form.bookingType
  }

  /** `{ ...prev, [name]: value }`. */
  function With(form: BookingForm, f: BookingField, value: string): (r: BookingForm)
    ensures Get(r, f) == value
    ensures forall g | g != f :: Get(r, g) == Get(form, g)
  {
    match f
    case Date => form.(date := value)
    case Time => form.(time := value)
    case Guests => form.(guests := value)
    case Name => form.(name := value)
    case Email => form.(email := value)
    case Phone => form.(phone := value)
    case SpecialRequests => form.(specialRequests := value)
    case Type => form.(bookingType := value)
  }

  /** `handleChange` and `handleSelectChange`, which do the same: store the
      value and blank the field's message if one shows. */
  function HandleChange(s: FormState<BookingForm, BookingField>, f: BookingField, value: string)
    : (r: FormState<BookingForm, BookingField>)
    ensures Get(r.data, f) == value
    ensures forall g | g != f :: Get(r.data, g) == Get(s.data, g)
    ensures r.errors.Keys == s.errors.Keys
    ensures forall g :: Shows(r.errors, g) <==> Shows(s.errors, g) && g != f
  {
    FormState(With(s.data, f, value), ClearIfSet(s.errors, f))
  }

  const DateRequired := "Please select a date"
  const DateInPast := "Please select a future date"
  const TimeRequired := "Please select a time"
  const GuestsRequired := "Please select number of guests"
  const NameRequired := "Name is required"
  const EmailRequired := "Email is required"
  const EmailInvalid := "Please enter a valid email address"
  const PhoneRequired := "Phone number is required"
  const PhoneInvalid := "Please enter a valid phone number"

  /** The date check against `today` (the current UTC date in the same
      format): a date is required and may not sort before today. */
  function DateError(date: string, today: string): (r: Option<string>)
    ensures r == None <==> date != "" && !LexLess(date, today)
    ensures date == "" ==> r == Some(DateRequired)
    ensures date != "" && LexLess(date, today) ==> r == Some(DateInPast)
  {
    if date == "" then Some(DateRequired)
    else if LexLess(date, today) then Some(DateInPast)
    else None
  }

  /** The phone must be non-empty and be an optional '+' then ten or more
      digits, white space, dashes or parentheses. */
  function PhoneError(phone: string): (r: Option<string>)
    ensures r == None <==> phone != "" && PhoneRegexTest(phone, true)
    ensures phone == "" ==> r == Some(PhoneRequired)
    ensures phone != "" && !PhoneRegexTest(phone, true) ==> r == Some(PhoneInvalid)
  {
    if phone == "" then Some(PhoneRequired)
    else if !PhoneRegexTest(phone, true) then Some(PhoneInvalid)
    else None
  }

  /** The check that applies to field `f`; special requests and the booking
      type are not checked. */
  function FieldError(form: BookingForm, today: string, f: BookingField): Option<string> {
    match f
    case Date => DateError(form.date, today)
    case Time => RequireText(form.time, TimeRequired)
    case Guests => RequireText(form.guests, GuestsRequired)
    case Name => RequireNonBlank(form.name, NameRequired)
    case Email => RequireEmail(form.email, EmailRequired, EmailInvalid)
    case Phone => PhoneError(form.phone)
    case SpecialRequests => None
    case Type => None
  }

  /** The fields in the order the page checks them. */
  const Checked: seq<BookingField> := [Date, Time, Guests, Name, Email, Phone]

  lemma CheckedCoversEveryCheck(form: BookingForm, today: string)
    ensures forall f | FieldError(form, today, f).Some? :: f in Checked
  {
    forall f | FieldError(form, today, f).Some?
      ensures f in Checked
    {
      match f
      case Date => assert Checked[0] == f;
      case Time => assert Checked[1] == f;
      case Guests => assert Checked[2] == f;
      case Name => assert Checked[3] == f;
      case Email => assert Checked[4] == f;
      case Phone => assert Checked[5] == f;
    }
  }

  /** `validateForm` on the day `today`: a field appears in the error object
      exactly when its check fails, with that check's message, and the form
      is valid exactly when the error object is empty. */
  function ValidateForm(form: BookingForm, today: string): (v: Validation<BookingField>)
    ensures forall f :: f in v.errors <==> FieldError(form, today, f).Some?
    ensures forall f | f in v.errors :: v.errors[f] == FieldError(form, today, f).value
    ensures v.valid <==> forall f :: FieldError(form, today, f) == None
    ensures v.valid <==> v.errors == map[]
  {
    var e := CollectErrors(Checked, f => FieldError(form, today, f));
    CheckedCoversEveryCheck(form, today);
    assert |e| == 0 <==> e == map[] by {
      if |e| == 0 {
        assert e.Keys == {};
      }
    }
    Validation(e, |e| == 0)
  }

  /** Booking for today itself is allowed, and so is any later date. */
  lemma TodayIsNotPast(form: BookingForm, today: string)
    requires form.date == today && today != ""
    ensures Date !in ValidateForm(form, today).errors
  {
    LexLessIrreflexive(today);
    assert FieldError(form, today, Date) == None;
  }

  lemma LaterDateIsNotPast(form: BookingForm, today: string)
    requires form.date != "" && LexLess(today, form.date)
    ensures Date !in ValidateForm(form, today).errors
  {
    LexLessTrichotomy(today, form.date);
    assert FieldError(form, today, Date) == None;
  }

  /** An email of spaces only is not empty, so it is reported as badly formed
      rather than as missing. */
  lemma BlankEmailIsInvalidNotMissing(form: BookingForm, today: string)
    requires form.email != "" && AllSpace(form.email)
    ensures ValidateForm(form, today).errors[Email] == EmailInvalid
  {
    BlankIsNotEmail(form.email);
    assert FieldError(form, today, Email) == Some(EmailInvalid);
  }
}
