/**
 * The card payment dialog of a booking: the input handlers that keep only
 * what a card field may hold, the validation of the whole form with its
 * error messages, the submit that marks the booking paid, and the date line
 * of the payment details.
 *
 * The current two-digit year and month are parameters; the payment
 * mutation's outcome is a parameter of the submit.
 */
module Payment {
  import opened Wrappers
  import opened Js
  import opened Clock

  // ---------------------------------------------------------------------
  // Card number

  /** `replace(/(\d{4})/g, "$1 ")` on a string of digits: a space after each full group of four. */
  function GroupFours(s: string): string
    requires AllDigits(s)
  {
    if |s| >= 4 then s[..4] + " " + GroupFours(s[4..]) else s
  }

  /**
   * The card number as the input shows it: grouped by four, trimmed. The
   * shown number goes back through the change handler unchanged: stripping
   * the non-digits of the display gives the stored number.
   */
  function CardDisplay(card: string): (r: string)
    requires AllDigits(card)
    ensures StripNonDigits(r) == card
  {
    var g := GroupFours(card);
    GroupFoursDigits(card);
    StripNonDigitsSkipSpaces(g);
    StripNonDigitsTrimEnd(SkipSpaces(g));
    Trim(g)
  }

  lemma {:induction false} StripNonDigitsAppend(a: string, b: string)
    ensures StripNonDigits(a + b) == StripNonDigits(a) + StripNonDigits(b)
  {
    if a != [] {
      var h := if IsDigit(a[0]) then [a[0]] else [];
      assert (a + b)[0] == a[0] && (a + b)[1..] == a[1..] + b;
      assert StripNonDigits(a + b) == h + StripNonDigits(a[1..] + b);
      StripNonDigitsAppend(a[1..], b);
      assert StripNonDigits(a) == h + StripNonDigits(a[1..]);
    } else {
      assert a + b == b;
    }
  }

  lemma {:induction false} StripNonDigitsSkipSpaces(s: string)
    ensures StripNonDigits(SkipSpaces(s)) == StripNonDigits(s)
  {
    if s != [] && IsSpace(s[0]) {
      StripNonDigitsSkipSpaces(s[1..]);
    }
  }

  lemma {:induction false} StripNonDigitsTrimEnd(s: string)
    ensures StripNonDigits(TrimEnd(s)) == StripNonDigits(s)
    decreases |s|
  {
    if s != [] && IsSpace(s[|s| - 1]) {
      var init := s[..|s| - 1];
      StripNonDigitsTrimEnd(init);
      assert s == init + [s[|s| - 1]];
      StripNonDigitsAppend(init, [s[|s| - 1]]);
    }
  }

  /** Grouping only adds spaces. */
  lemma {:induction false} GroupFoursDigits(s: string)
    requires AllDigits(s)
    ensures StripNonDigits(GroupFours(s)) == s
    decreases |s|
  {
    if |s| >= 4 {
      GroupFoursDigits(s[4..]);
      StripNonDigitsAppend(s[..4] + " ", GroupFours(s[4..]));
      StripNonDigitsAppend(s[..4], " ");
      assert StripNonDigits(s[..4]) == s[..4];
      assert s[..4] + s[4..] == s;
    }
  }

  // ---------------------------------------------------------------------
  // Expiry date

  /** What the expiry handler makes of the digits typed: "MM/Y..." once there are more than two. */
  function ExpiryText(input: string): (r: string)
    ensures StripNonDigits(r) == StripNonDigits(input)
    ensures |r| == |StripNonDigits(input)| + (if |StripNonDigits(input)| > 2 then 1 else 0)
    ensures ExpiryShape(r) <==> |StripNonDigits(input)| <= 4
  {
    var v := StripNonDigits(input);
    if |v| > 2 then
      var r := v[..2] + "/" + v[2..];
      StripNonDigitsAppend(v[..2] + "/", v[2..]);
      StripNonDigitsAppend(v[..2], "/");
      assert StripNonDigits(v[..2]) == v[..2] && StripNonDigits(v[2..]) == v[2..];
      assert v[..2] + v[2..] == v;
      assert r[..2] == v[..2] && r[3..] == v[2..];
      r
    else v
  }

  /** The values the expiry field can hold: up to two digits, or "MM/" and up to two more. */
  predicate ExpiryShape(e: string)
  {
    (|e| <= 2 && AllDigits(e)) ||
    (3 <= |e| <= 5 && AllDigits(e[..2]) && e[2] == '/' && AllDigits(e[3..]))
  }

  // ---------------------------------------------------------------------
  // Name

  predicate IsLetter(c: char) { 'a' <= c <= 'z' || 'A' <= c <= 'Z' }

  /** `/^[a-zA-Z\s]*$/`. */
  predicate NameAllowed(s: string)
  {
    forall i :: 0 <= i < |s| ==> IsLetter(s[i]) || IsSpace(s[i])
  }

  // ---------------------------------------------------------------------
  // Validation

  const CardMessage: string := "Please enter a valid 16-digit card number"
  const ExpiryMessage: string := "Please enter a valid expiry date (MM/YY)"
  const MonthMessage: string := "Please enter a valid month (01-12)"
  const ExpiredMessage: string := "Card has expired"
  const CvvMessage: string := "Please enter a valid 3-digit CVV"
  const NameMessage: string := "Please enter the name on card"

  /** The error shown under each field; None where the field is fine. */
  datatype FormErrors = FormErrors(cardNumber: Option<string>, expiryDate: Option<string>,
                                   cvv: Option<string>, name: Option<string>)

  const NoErrors: FormErrors := FormErrors(None, None, None, None)

  /** The part of `s` before its first "/" (all of `s` without one). */
  function BeforeSlash(s: string): (r: string)
    ensures r <= s && '/' !in r
    ensures |r| < |s| ==> s[|r|] == '/'
  {
    if s == [] || s[0] == '/' then [] else [s[0]] + BeforeSlash(s[1..])
  }

  /** `const [month, year] = s.split("/")`: the first two pieces, `year` missing without a "/". */
  function SplitExpiry(s: string): (parts: (string, Option<string>))
    ensures parts.0 == BeforeSlash(s)
    ensures parts.1.Some? <==> '/' in s
  {
    var month := BeforeSlash(s);
    if |month| == |s| then
      assert s == month;
      (month, None)
    else (month, Some(BeforeSlash(s[|month| + 1..])))
  }

  /** `parseInt` of a piece; a missing piece is NaN. */
  function ParsePiece(p: Option<string>): Number
  {
    if p.None? then NaN else ParseInt(p.value)
  }

  /** The expiry check of `validateForm`, with NaN comparing false as in JavaScript. */
  function ExpiryError(expiry: string, currentYear: int, currentMonth: int): Option<string>
  {
    if expiry == "" || |expiry| != 5 then Some(ExpiryMessage)
    else
      var (m, y) := SplitExpiry(expiry);
      MonthYearError(ParseInt(m), ParsePiece(y), currentYear, currentMonth)
  }

  /** The month and year checks of the expiry, on the parsed numbers. */
  function MonthYearError(month: Number, year: Number, currentYear: int, currentMonth: int): Option<string>
  {
    if Lt(month, Num(1)) || Lt(Num(12), month) then Some(MonthMessage)
    else if Lt(year, Num(currentYear)) || (NumEq(year, Num(currentYear)) && Lt(month, Num(currentMonth))) then Some(ExpiredMessage)
    else None
  }

  /** The four inputs of the dialog. */
  datatype CardFields = CardFields(cardNumber: string, expiryDate: string, cvv: string, name: string)

  /** What the change handlers let into the inputs. */
  predicate FieldsAllowed(f: CardFields)
  {
    AllDigits(f.cardNumber) && |f.cardNumber| <= 16 &&
    ExpiryShape(f.expiryDate) &&
    AllDigits(f.cvv) && |f.cvv| <= 3 &&
    NameAllowed(f.name)
  }

  /**
   * The errors `validateForm` records for the current inputs: the card
   * number is wrong exactly when it does not have 16 characters, the CVV
   * when it does not have 3, and the name when it is blank.
   */
  function FormErrorsOf(f: CardFields, currentYear: int, currentMonth: int): (r: FormErrors)
    ensures r.cardNumber.Some? <==> |f.cardNumber| != 16
    ensures r.cvv.Some? <==> |f.cvv| != 3
    ensures r.name.Some? <==> forall i :: 0 <= i < |f.name| ==> IsSpace(f.name[i])
    ensures r.expiryDate == ExpiryError(f.expiryDate, currentYear, currentMonth)
  {
    FormErrors(
      if f.cardNumber == "" || |f.cardNumber| != 16 then Some(CardMessage) else None,
      ExpiryError(f.expiryDate, currentYear, currentMonth),
      if f.cvv == "" || |f.cvv| != 3 then Some(CvvMessage) else None,
      if f.name == "" || Trim(f.name) == "" then Some(NameMessage) else None)
  }

  lemma ParseTwoDigits(s: string)
    requires |s| == 2 && AllDigits(s)
    ensures ParseInt(s) == Num(TwoDigitValue(s, 0))
  {
    assert !IsSpace(s[0]) && s[0] != '-' && s[0] != '+';
    assert SkipSpaces(s) == s;
    DigitPrefixOfDigits(s);
    assert s[..1] == [s[0]] && s[..1][..0] == [];
    assert DigitsValue(s[..1]) == DigitValue(s[0]);
    assert DigitsValue(s) == 10 * DigitsValue(s[..1]) + DigitValue(s[1]);
  }

  /** A full expiry field splits into its month and its year. */
  lemma SplitFullExpiry(expiry: string)
    requires ExpiryShape(expiry) && |expiry| == 5
    ensures ParseInt(SplitExpiry(expiry).0) == Num(TwoDigitValue(expiry, 0))
    ensures ParsePiece(SplitExpiry(expiry).1) == Num(TwoDigitValue(expiry, 3))
  {
    var m := expiry[..2];
    assert BeforeSlash(expiry[2..]) == [];
    assert BeforeSlash(expiry) == [expiry[0]] + BeforeSlash(expiry[1..]);
    assert BeforeSlash(expiry[1..]) == [expiry[1]] + BeforeSlash(expiry[2..]);
    assert BeforeSlash(expiry) == m;
    var y := expiry[3..];
    assert BeforeSlash(y) == [y[0]] + BeforeSlash(y[1..]);
    assert BeforeSlash(y[1..]) == [y[1]] + BeforeSlash(y[2..]);
    assert y[2..] == [] && BeforeSlash(y) == y;
    assert SplitExpiry(expiry).1 == Some(y);
    ParseTwoDigits(m);
    ParseTwoDigits(y);
    assert TwoDigitValue(m, 0) == TwoDigitValue(expiry, 0);
    assert TwoDigitValue(y, 0) == TwoDigitValue(expiry, 3);
  }

  /** A month 01-12 not before the current month of the current year is the only valid expiry. */
  lemma ExpiryValid(expiry: string, currentYear: int, currentMonth: int)
    requires ExpiryShape(expiry)
    ensures ExpiryError(expiry, currentYear, currentMonth) == None <==>
      |expiry| == 5 &&
      var mm, yy := TwoDigitValue(expiry, 0), TwoDigitValue(expiry, 3);
      1 <= mm <= 12 && (yy > currentYear || (yy == currentYear && mm >= currentMonth))
  {
    if |expiry| == 5 {
      SplitFullExpiry(expiry);
      var mm, yy := TwoDigitValue(expiry, 0), TwoDigitValue(expiry, 3);
      assert ExpiryError(expiry, currentYear, currentMonth) == MonthYearError(Num(mm), Num(yy), currentYear, currentMonth);
      MonthYearErrorOfNumbers(mm, yy, currentYear, currentMonth);
    }
  }

  /**
   * What validateForm accepts, for inputs the handlers produced: a 16-digit
   * card, a 3-digit CVV, a name that is not all white space, and a full
   * "MM/YY" expiry with a month 01-12 not before the current month.
   */
  predicate CardAccepted(f: CardFields, currentYear: int, currentMonth: int)
  {
    |f.cardNumber| == 16 && |f.cvv| == 3 && (exists i :: 0 <= i < |f.name| && !IsSpace(f.name[i])) &&
    |f.expiryDate| == 5 && IsDigit(f.expiryDate[0]) && IsDigit(f.expiryDate[1]) &&
    IsDigit(f.expiryDate[3]) && IsDigit(f.expiryDate[4]) &&
    var mm, yy := TwoDigitValue(f.expiryDate, 0), TwoDigitValue(f.expiryDate, 3);
    1 <= mm <= 12 && (yy > currentYear || (yy == currentYear && mm >= currentMonth))
  }

  /** For inputs the handlers produced, no error is recorded iff the card is accepted. */
  lemma NoErrorsIffAccepted(f: CardFields, currentYear: int, currentMonth: int)
    requires FieldsAllowed(f)
    ensures FormErrorsOf(f, currentYear, currentMonth) == NoErrors <==> CardAccepted(f, currentYear, currentMonth)
  {
    var e := f.expiryDate;
    FormValid(f, currentYear, currentMonth);
    ExpiryValid(e, currentYear, currentMonth);
    if |e| == 5 {
      FullExpiryDigits(e);
    }
  }

  lemma FullExpiryDigits(e: string)
    requires ExpiryShape(e) && |e| == 5
    ensures IsDigit(e[0]) && IsDigit(e[1]) && IsDigit(e[3]) && IsDigit(e[4])
  {
    assert e[..2][0] == e[0] && e[..2][1] == e[1];
    assert e[3..][0] == e[3] && e[3..][1] == e[4];
  }

  lemma MonthYearErrorOfNumbers(mm: int, yy: int, currentYear: int, currentMonth: int)
    ensures MonthYearError(Num(mm), Num(yy), currentYear, currentMonth) == None <==>
      1 <= mm <= 12 && (yy > currentYear || (yy == currentYear && mm >= currentMonth))
  {
  }

  /**
   * For inputs the handlers produced, the form is valid iff the card has
   * 16 digits, the CVV has 3 digits, the name is not all white space and the
   * expiry passes its check, which ExpiryValid spells out.
   */
  lemma FormValid(f: CardFields, currentYear: int, currentMonth: int)
    ensures FormErrorsOf(f, currentYear, currentMonth) == NoErrors <==>
      |f.cardNumber| == 16 && |f.cvv| == 3 && (exists i :: 0 <= i < |f.name| && !IsSpace(f.name[i])) &&
      ExpiryError(f.expiryDate, currentYear, currentMonth) == None
  {
    assert (f.name == "" || Trim(f.name) == "") <==> forall i :: 0 <= i < |f.name| ==> IsSpace(f.name[i]);
  }

  /** The payment details' date: "DD.MM.YYYY", "" for no date, "NaN.NaN.NaN" for an invalid one. */
  function FormatDate(dateString: string): (r: string)
    ensures dateString == "" ==> r == ""
    ensures dateString != "" && ParseIsoDate(dateString).None? ==> r == "NaN.NaN.NaN"
  {
    if dateString == "" then ""
    else
      match ParseIsoDate(dateString)
      case None => "NaN.NaN.NaN"
      case Some(d) => TwoDigits(d.day) + "." + TwoDigits(d.month) + "." + NatToString(d.year)
  }

  lemma NatToStringFourDigits(y: nat)
    requires 1000 <= y <= 9999
    ensures NatToString(y) == FourDigits(y)
  {
    assert NatToString(y / 1000) == [DigitChar(y / 1000)];
    assert y / 10 / 10 / 10 == y / 1000 && y / 10 / 10 == y / 100;
    assert (y / 10) % 10 == (y % 100) / 10;
    assert y / 100 / 10 == y / 1000 && y % 10 == y % 100 % 10;
    assert NatToString(y / 100) == [DigitChar(y / 1000), DigitChar(y / 100 % 10)];
    assert NatToString(y / 10) == NatToString(y / 100) + [DigitChar(y / 10 % 10)];
  }

  /** For a four-digit year the details' date is the ISO date's fields in reverse order, dotted. */
  lemma FormatDateOfIsoDate(d: CivilDate)
    requires ValidCivil(d) && d.year >= 1000
    ensures var s := FormatIsoDate(d);
      FormatDate(s) == s[8..10] + "." + s[5..7] + "." + s[..4]
  {
    var s := FormatIsoDate(d);
    ParseFormatIsoDate(d);
    NatToStringFourDigits(d.year);
    assert s[8..10] == TwoDigits(d.day) && s[5..7] == TwoDigits(d.month) && s[..4] == FourDigits(d.year);
  }

  // ---------------------------------------------------------------------
  // The dialog

  /** The status and method the dialog always pays with. */
  const PaidStatus: string := "completed"
  const PaidMethod: string := "PayPal"

  /** The variables of the payment mutation. */
  datatype PaymentRequest = PaymentRequest(bookingId: int, paymentStatus: string, paymentAmount: int, paymentMethod: string)

  class PaymentModal {
    const amount: int
    const bookingId: int
    var fields: CardFields
    var isProcessing: bool
    var paymentSuccess: bool
    var showSuccessMessage: bool
    var showPaymentDetails: bool
    var errors: FormErrors

    ghost predicate Valid()
      reads this`fields
    {
      FieldsAllowed(fields)
    }

    constructor(amount: int, bookingId: int)
      ensures Valid()
      ensures this.amount == amount && this.bookingId == bookingId
      ensures fields == CardFields("", "", "", "")
      ensures !isProcessing && !paymentSuccess && !showSuccessMessage && !showPaymentDetails && errors == NoErrors
    {
      this.amount := amount;
      this.bookingId := bookingId;
      fields := CardFields("", "", "", "");
      isProcessing, paymentSuccess, showSuccessMessage, showPaymentDetails := false, false, false, false;
      errors := NoErrors;
    }

    /** The submit button is disabled while paying and once paid. */
    predicate SubmitDisabled()
      reads this
    {
      isProcessing || paymentSuccess
    }

    /** An already completed booking opens on its payment details. */
    method OnBookingStatus(bookingStatus: string)
      requires Valid()
      modifies this
      ensures Valid()
      ensures paymentSuccess == (old(paymentSuccess) || bookingStatus == PaidStatus)
      ensures fields == old(fields) && isProcessing == old(isProcessing) && errors == old(errors)
      ensures showSuccessMessage == old(showSuccessMessage) && showPaymentDetails == old(showPaymentDetails)
    {
      if bookingStatus == PaidStatus {
        paymentSuccess := true;
      }
    }

    /** `handleCardNumberChange`: keep the digits, accept at most 16 of them. */
    method HandleCardNumberChange(input: string)
      requires Valid()
      modifies this`fields
      ensures Valid()
      ensures var v := StripNonDigits(input);
        fields == if |v| <= 16 then old(fields).(cardNumber := v) else old(fields)
    {
      var value := StripNonDigits(input);
      if |value| <= 16 {
        fields := fields.(cardNumber := value);
      }
    }

    /** `handleExpiryDateChange`: keep the digits, insert "/" after the month, accept up to "MM/YY". */
    method HandleExpiryDateChange(input: string)
      requires Valid()
      modifies this`fields
      ensures Valid()
      ensures var v := ExpiryText(input);
        fields == if |v| <= 5 then old(fields).(expiryDate := v) else old(fields)
      ensures |ExpiryText(input)| <= 5 <==> |StripNonDigits(input)| <= 4
    {
      var value := StripNonDigits(input);
      if |value| > 2 {
        value := value[..2] + "/" + value[2..];
      }
      assert value == ExpiryText(input);
      if |value| <= 5 {
        fields := fields.(expiryDate := value);
      }
    }

    /** `handleCVVChange`: keep the digits, accept at most 3 of them. */
    method HandleCvvChange(input: string)
      requires Valid()
      modifies this`fields
      ensures Valid()
      ensures var v := StripNonDigits(input);
        fields == if |v| <= 3 then old(fields).(cvv := v) else old(fields)
    {
      var value := StripNonDigits(input);
      if |value| <= 3 {
        fields := fields.(cvv := value);
      }
    }

    /** `handleNameChange`: accept the text only if it is letters and white space. */
    method HandleNameChange(input: string)
      requires Valid()
      modifies this`fields
      ensures Valid()
      ensures fields == if NameAllowed(input) then old(fields).(name := input) else old(fields)
    {
      if NameAllowed(input) {
        fields := fields.(name := input);
      }
    }

    /** `validateForm`: record the error of each input in turn; valid iff none was recorded. */
    method ValidateForm(currentYear: int, currentMonth: int) returns (ok: bool)
      requires Valid()
      modifies this`errors
      ensures errors == FormErrorsOf(fields, currentYear, currentMonth)
      ensures ok <==> errors == NoErrors
      ensures ok <==> CardAccepted(fields, currentYear, currentMonth)
    {
      var newErrors := NoErrors;
      var f := fields;
      if f.cardNumber == "" || |f.cardNumber| != 16 {
        newErrors := newErrors.(cardNumber := Some(CardMessage));
      }
      if f.expiryDate == "" || |f.expiryDate| != 5 {
        newErrors := newErrors.(expiryDate := Some(ExpiryMessage));
      } else {
        var (m, y) := SplitExpiry(f.expiryDate);
        var month, year := ParseInt(m), ParsePiece(y);
        if Lt(month, Num(1)) || Lt(Num(12), month) {
          newErrors := newErrors.(expiryDate := Some(MonthMessage));
        } else if Lt(year, Num(currentYear)) || (NumEq(year, Num(currentYear)) && Lt(month, Num(currentMonth))) {
          newErrors := newErrors.(expiryDate := Some(ExpiredMessage));
        }
      }
      if f.cvv == "" || |f.cvv| != 3 {
        newErrors := newErrors.(cvv := Some(CvvMessage));
      }
      if f.name == "" || Trim(f.name) == "" {
        newErrors := newErrors.(name := Some(NameMessage));
      }
      errors := newErrors;
      ok := newErrors == NoErrors;
      NoErrorsIffAccepted(fields, currentYear, currentMonth);
    }

    /**
     * `handleSubmit`: nothing is sent unless the form is valid; then the
     * booking is paid as "completed" by "PayPal", and `paid` (the outcome
     * of the mutation, which is not modelled) decides whether the dialog
     * turns to its success message.
     */
    method HandleSubmit(currentYear: int, currentMonth: int, paid: Result<bool, string>) returns (request: Option<PaymentRequest>)
      requires Valid()
      modifies this`errors, this`isProcessing, this`paymentSuccess, this`showSuccessMessage
      ensures errors == FormErrorsOf(fields, currentYear, currentMonth)
      ensures request.Some? <==> errors == NoErrors
      ensures request.Some? <==> CardAccepted(fields, currentYear, currentMonth)
      ensures request.Some? ==> request.value == PaymentRequest(bookingId, PaidStatus, amount, PaidMethod)
      ensures request.Some? ==> !isProcessing
      ensures request.Some? ==> paymentSuccess == (old(paymentSuccess) || paid.Success?)
      ensures request.Some? ==> showSuccessMessage == (old(showSuccessMessage) || paid.Success?)
      ensures request.None? ==> isProcessing == old(isProcessing)
      ensures request.None? ==> paymentSuccess == old(paymentSuccess) && showSuccessMessage == old(showSuccessMessage)
    {
      var ok := ValidateForm(currentYear, currentMonth);
      if !ok {
        return None;
      }
      request := Pay(paid);
    }

    /** The part of `handleSubmit` after a valid form: send the payment, and turn to the success message if it went through. */
    method Pay(paid: Result<bool, string>) returns (request: Option<PaymentRequest>)
      modifies this`isProcessing, this`paymentSuccess, this`showSuccessMessage
      ensures request == Some(PaymentRequest(bookingId, PaidStatus, amount, PaidMethod))
      ensures !isProcessing
      ensures paymentSuccess == (old(paymentSuccess) || paid.Success?)
      ensures showSuccessMessage == (old(showSuccessMessage) || paid.Success?)
    {
      isProcessing := true;
      request := Some(PaymentRequest(bookingId, PaidStatus, amount, PaidMethod));
      if paid.Success? {
        isProcessing := false;
        paymentSuccess := true;
        showSuccessMessage := true;
      } else {
        isProcessing := false;
      }
    }

    /** `handleViewDetails`. */
    method HandleViewDetails()
      modifies this`showSuccessMessage, this`showPaymentDetails
      ensures !showSuccessMessage && showPaymentDetails
    {
      showSuccessMessage := false;
      showPaymentDetails := true;
    }
  }
}
