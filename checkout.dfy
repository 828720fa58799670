/** The checkout page: the card-number formatter, the input limits that
    `handleChange` applies before storing a keystroke, the form validation and
    the number of days charged. Timestamps are milliseconds; the current year
    and month are parameters. */
module Checkout {
  import opened Text
  import Reservations

  /** `formatCardNumber`: the digits of `value` with a space after every group
      of four that another digit follows. */
  function FormatCardNumber(value: string): string
  {
    Grouped(Digits(value))
  }

  /** `digits.replace(/(\d{4})(?=\d)/g, '$1 ')` on a string of digits. */
  function Grouped(d: string): string
    decreases |d|
  {
    if |d| > 4 then d[..4] + " " + Grouped(d[4..]) else d
  }

  /** Grouping digits only inserts spaces: every fifth character is a space,
      the others are the digits in order, and there is no space at the end. */
  lemma {:induction false} GroupedShape(d: string)
    requires AllDigits(d)
    ensures Digits(Grouped(d)) == d
    ensures forall i :: 0 <= i < |Grouped(d)| ==> (Grouped(d)[i] == ' ' <==> i % 5 == 4)
    ensures d != [] ==> |Grouped(d)| == |d| + (|d| - 1) / 4
    ensures Grouped(d) != [] ==> Grouped(d)[|Grouped(d)| - 1] != ' '
    decreases |d|
  {
    if |d| > 4 {
      var head := d[..4];
      var g := Grouped(d[4..]);
      GroupedShape(d[4..]);
      DigitsOfDigits(head);
      DigitsOfConcat(head, " ");
      DigitsOfConcat(head + " ", g);
      assert Grouped(d) == head + " " + g;
      forall i | 0 <= i < |Grouped(d)|
        ensures Grouped(d)[i] == ' ' <==> i % 5 == 4
      {
        if i >= 5 {
          assert Grouped(d)[i] == g[i - 5];
        }
      }
    } else {
      DigitsOfDigits(d);
    }
  }

  /** Formatting an already formatted number changes nothing, and the
      digits typed are kept. */
  lemma FormatCardNumberIdempotent(value: string)
    ensures FormatCardNumber(FormatCardNumber(value)) == FormatCardNumber(value)
    ensures Digits(FormatCardNumber(value)) == Digits(value)
  {
    GroupedShape(Digits(value));
  }

  /** The inputs of the form. */
  datatype CheckoutField = FullName | Email | Phone | AltPhone | CardNumber | ExpiryMonth
                         | ExpiryYear | Cvv | CardHolderName | BillingAddress | BillingCity | BillingZip

  /** The keys of the errors object: one per input, plus the joint expiry key. */
  datatype ErrorKey = On(field: CheckoutField) | Expiry

  /** The value `handleChange` stores for a keystroke in `name`, or `None`
      when the input is ignored and the state is left as it was. */
  function ChangedValue(name: CheckoutField, value: string): Option<string>
  {
    match name
    case CardNumber =>
      var v := FormatCardNumber(value);
      if |Digits(v)| > 19 then None else Some(v)
    case Phone =>
      var v := Digits(value);
      if |v| > 15 then None else Some(v)
    case AltPhone =>
      var v := Digits(value);
      if |v| > 15 then None else Some(v)
    case Cvv =>
      var v := Digits(value);
      if |v| > 4 then None else Some(v)
    case ExpiryMonth =>
      var v := Digits(value);
      if ParseInt(v).Some? && ParseInt(v).value > 12 then None
      else if |v| > 2 then None
      else Some(v)
    case ExpiryYear =>
      var v := Digits(value);
      if |v| > 4 then None else Some(v)
    case _ => Some(value)
  }

  /** What a stored value of each input can look like. */
  predicate WithinLimit(name: CheckoutField, v: string)
  {
    match name
    case CardNumber => v == FormatCardNumber(v) && |Digits(v)| <= 19
    case Phone => AllDigits(v) && |v| <= 15
    case AltPhone => AllDigits(v) && |v| <= 15
    case Cvv => AllDigits(v) && |v| <= 4
    case ExpiryMonth => AllDigits(v) && |v| <= 2 && (v != [] ==> DigitsValue(v) <= 12)
    case ExpiryYear => AllDigits(v) && |v| <= 4
    case _ => true
  }

  /** Every value `handleChange` stores keeps to the limits of its input: at
      most 19 card digits, shown grouped; phones of at most 15 digits; a CVV
      of at most 4 digits; a month of at most 2 digits and at most 12; a year
      of at most 4 digits. */
  lemma ChangedValueWithinLimit(name: CheckoutField, value: string)
    ensures ChangedValue(name, value).Some? ==> WithinLimit(name, ChangedValue(name, value).value)
  {
    match name
    case CardNumber =>
      FormatCardNumberIdempotent(value);
    case ExpiryMonth =>
      var v := Digits(value);
      if v != [] {
        assert ParseInt(v) == Some(DigitsValue(v) as int);
      }
    case _ =>
  }

  /** Typing more than the limit is ignored: a 20th card digit, a 16th phone
      digit, a 5th CVV digit, a month above 12 or a 5th year digit. */
  lemma OverLimitIgnored(name: CheckoutField, value: string)
    requires name == CardNumber ==> |Digits(value)| > 19
    requires name == Phone || name == AltPhone ==> |Digits(value)| > 15
    requires name == Cvv ==> |Digits(value)| > 4
    requires name == ExpiryMonth ==> |Digits(value)| > 2
    requires name == ExpiryYear ==> |Digits(value)| > 4
    requires name in {CardNumber, Phone, AltPhone, Cvv, ExpiryMonth, ExpiryYear}
    ensures ChangedValue(name, value).None?
  {
    if name == CardNumber {
      FormatCardNumberIdempotent(value);
    }
  }

  /** A value of the form; inputs never typed into read as empty. */
  function Value(form: map<CheckoutField, string>, f: CheckoutField): string
  {
    if f in form then form[f] else ""
  }

  /** `/\S+@\S+\.\S+/.test(s)`: somewhere in `s`, an `@` and a later `.` with
      at least one non-space character before the `@`, between the two, and
      after the `.`. */
  predicate EmailLike(s: string)
  {
    exists i, j | 0 < i < |s| && i + 1 < j < |s| - 1 ::
      s[i] == '@' && s[j] == '.' && !IsJsSpace(s[i - 1]) && !IsJsSpace(s[j + 1]) &&
      NoSpaceWithin(s, i + 1, j)
  }

  predicate NoSpaceWithin(s: string, from: int, to: int)
    requires 0 <= from <= to <= |s|
  {
    forall k | from <= k < to :: !IsJsSpace(s[k])
  }

  /** `a < b` where `a` comes from `parseInt`; NaN compares false. */
  predicate Below(a: Option<int>, b: int)
  {
    a.Some? && a.value < b
  }

  /** The message `validateForm` stores under `key`, if any. */
  function ErrorMessage(form: map<CheckoutField, string>, currentYear: int, currentMonth: int, key: ErrorKey): Option<string>
  {
    match key
    case Expiry =>
      if Value(form, ExpiryMonth) == [] || Value(form, ExpiryYear) == [] then Some("Card expiry date is required")
      else
        var year := ParseInt(Value(form, ExpiryYear));
        var month := ParseInt(Value(form, ExpiryMonth));
        if Below(year, currentYear) || (year == Some(currentYear) && Below(month, currentMonth)) then
          Some("Card has expired")
        else None
    case On(f) => InputError(f, Value(form, f))
  }

  /** The message `validateForm` stores under an input's own key, if any. */
  function InputError(f: CheckoutField, v: string): Option<string>
  {
    match f
    case FullName =>
      if IsBlank(Js, v) then Some("Full name is required") else None
    case Email =>
      if v == [] || !EmailLike(v) then Some("Valid email is required") else None
    case Phone =>
      if v == [] || !(7 <= |Digits(v)| <= 15) then Some("Valid phone number is required") else None
    case CardNumber =>
      if v == [] || |Digits(v)| < 13 then Some("Valid card number is required (13-19 digits)") else None
    case Cvv =>
      if v == [] || !(3 <= |v| <= 4 && AllDigits(v)) then Some("Valid CVV is required (3-4 digits)") else None
    case CardHolderName =>
      if IsBlank(Js, v) then Some("Cardholder name is required") else None
    case BillingAddress =>
      if IsBlank(Js, v) then Some("Billing address is required") else None
    case BillingCity =>
      if IsBlank(Js, v) then Some("Billing city is required") else None
    case BillingZip =>
      if IsBlank(Js, v) then Some("Billing ZIP code is required") else None
    case _ => None
  }

  const ErrorKeys: set<ErrorKey> :=
    {On(FullName), On(Email), On(Phone), On(CardNumber), Expiry, On(Cvv),
     On(CardHolderName), On(BillingAddress), On(BillingCity), On(BillingZip)}

  /** The errors object holding the message of every key that has one. */
  function ErrorsFrom(message: ErrorKey -> Option<string>): map<ErrorKey, string>
  {
    map key | key in ErrorKeys && message(key).Some? :: message(key).value
  }

  /** The errors object is empty exactly when no key has a message. */
  lemma ErrorsFromEmpty(message: ErrorKey -> Option<string>)
    ensures ErrorsFrom(message) == map[] <==>
      message(On(FullName)).None? && message(On(Email)).None? && message(On(Phone)).None? &&
      message(On(CardNumber)).None? && message(Expiry).None? && message(On(Cvv)).None? &&
      message(On(CardHolderName)).None? && message(On(BillingAddress)).None? &&
      message(On(BillingCity)).None? && message(On(BillingZip)).None?
  {
    var errors := ErrorsFrom(message);
    if errors != map[] {
      var key :| key in errors;
    } else {
      forall key | key in ErrorKeys
        ensures message(key).None?
      {
        assert key !in errors;
      }
    }
  }

  /** `validateForm`: the errors object it builds. */
  function ValidateForm(form: map<CheckoutField, string>, currentYear: int, currentMonth: int): map<ErrorKey, string>
  {
    ErrorsFrom(key => ErrorMessage(form, currentYear, currentMonth, key))
  }

  /** A card whose expiry is this month or later. */
  predicate NotExpired(month: string, year: string, currentYear: int, currentMonth: int)
  {
    month != [] && year != [] &&
    !Below(ParseInt(year), currentYear) &&
    !(ParseInt(year) == Some(currentYear) && Below(ParseInt(month), currentMonth))
  }

  /** The rule each input must meet, stated positively. */
  predicate InputOk(f: CheckoutField, v: string)
  {
    match f
    case FullName => !IsBlank(Js, v)
    case Email => EmailLike(v)
    case Phone => 7 <= |Digits(v)| <= 15
    case CardNumber => |Digits(v)| >= 13
    case Cvv => 3 <= |v| <= 4 && AllDigits(v)
    case CardHolderName => !IsBlank(Js, v)
    case BillingAddress => !IsBlank(Js, v)
    case BillingCity => !IsBlank(Js, v)
    case BillingZip => !IsBlank(Js, v)
    case _ => true
  }

  /** An input gets no message exactly when it meets its rule; an empty
      value never does, except for inputs without a rule. */
  lemma InputErrorIff(f: CheckoutField, v: string)
    ensures InputError(f, v).None? <==> InputOk(f, v)
  {
  }

  /** The form passes, stated rule by rule. */
  predicate CheckoutValid(form: map<CheckoutField, string>, currentYear: int, currentMonth: int)
  {
    InputOk(FullName, Value(form, FullName)) && InputOk(Email, Value(form, Email)) &&
    InputOk(Phone, Value(form, Phone)) && InputOk(CardNumber, Value(form, CardNumber)) &&
    NotExpired(Value(form, ExpiryMonth), Value(form, ExpiryYear), currentYear, currentMonth) &&
    InputOk(Cvv, Value(form, Cvv)) && InputOk(CardHolderName, Value(form, CardHolderName)) &&
    InputOk(BillingAddress, Value(form, BillingAddress)) && InputOk(BillingCity, Value(form, BillingCity)) &&
    InputOk(BillingZip, Value(form, BillingZip))
  }

  /** The booking is submitted exactly when every rule holds: a name, an
      e-mail shaped address, 7 to 15 phone digits, at least 13 card digits,
      an expiry that is not in the past, a 3- or 4-digit CVV and the billing
      details. */
  lemma ValidateFormIff(form: map<CheckoutField, string>, currentYear: int, currentMonth: int)
    ensures ValidateForm(form, currentYear, currentMonth) == map[] <==> CheckoutValid(form, currentYear, currentMonth)
  {
    ErrorsFromEmpty(key => ErrorMessage(form, currentYear, currentMonth, key));
    InputErrorIff(FullName, Value(form, FullName));
    InputErrorIff(Email, Value(form, Email));
    InputErrorIff(Phone, Value(form, Phone));
    InputErrorIff(CardNumber, Value(form, CardNumber));
    InputErrorIff(Cvv, Value(form, Cvv));
    InputErrorIff(CardHolderName, Value(form, CardHolderName));
    InputErrorIff(BillingAddress, Value(form, BillingAddress));
    InputErrorIff(BillingCity, Value(form, BillingCity));
    InputErrorIff(BillingZip, Value(form, BillingZip));
  }

  /** For typed digits, the expiry check compares (year, month) with the
      current (year, month): the current month still passes. */
  lemma ExpiredIff(form: map<CheckoutField, string>, currentYear: int, currentMonth: int)
    requires Value(form, ExpiryMonth) != [] && AllDigits(Value(form, ExpiryMonth))
    requires Value(form, ExpiryYear) != [] && AllDigits(Value(form, ExpiryYear))
    ensures Expiry in ValidateForm(form, currentYear, currentMonth) <==>
              var month := DigitsValue(Value(form, ExpiryMonth));
              var year := DigitsValue(Value(form, ExpiryYear));
              year < currentYear || (year == currentYear && month < currentMonth)
    ensures Expiry in ValidateForm(form, currentYear, currentMonth) ==>
              ValidateForm(form, currentYear, currentMonth)[Expiry] == "Card has expired"
  {
  }

  /** A card number that passes validation and came through `handleChange`
      has between 13 and 19 digits, as the message promises. */
  lemma CardDigitsInRange(form: map<CheckoutField, string>, currentYear: int, currentMonth: int)
    requires WithinLimit(CardNumber, Value(form, CardNumber))
    requires On(CardNumber) !in ValidateForm(form, currentYear, currentMonth)
    ensures 13 <= |Digits(Value(form, CardNumber))| <= 19
  {
    assert ErrorMessage(form, currentYear, currentMonth, On(CardNumber)).None?;
  }

  /** One day in milliseconds. */
  const DayMs: int := 1000 * 60 * 60 * 24

  /** The days charged on the summary: whole days between the dates, plus one. */
  function CheckoutDays(rentalMs: int, returnMs: int): int
  {
    (returnMs - rentalMs) / DayMs + 1
  }

  /** For dates at midnight, the summary counts both end days, as the server
      does. */
  lemma CheckoutDaysMatchServer(rentalDay: int, returnDay: int)
    ensures CheckoutDays(rentalDay * DayMs, returnDay * DayMs) == Reservations.TotalDays(rentalDay, returnDay)
  {
    assert returnDay * DayMs - rentalDay * DayMs == (returnDay - rentalDay) * DayMs;
  }

  /** The initial form: every input empty. */
  const EmptyForm: map<CheckoutField, string> :=
    map[FullName := "", Email := "", Phone := "", AltPhone := "", CardNumber := "", ExpiryMonth := "",
        ExpiryYear := "", Cvv := "", CardHolderName := "", BillingAddress := "", BillingCity := "", BillingZip := ""]

  /** The form state of the checkout page. */
  class CheckoutForm {
    var form: map<CheckoutField, string>
    var errors: map<ErrorKey, string>

    /** Every stored value keeps to the limits of its input. */
    predicate Valid()
      reads this
    {
      forall f :: f in form ==> WithinLimit(f, form[f])
    }

    constructor()
      ensures Valid()
      ensures form == EmptyForm
      ensures errors == map[]
    {
      form := EmptyForm;
      errors := map[];
      new;
      assert FormatCardNumber("") == "";
    }

    /** `handleChange`: the guards in the source's order, each returning early
        and leaving the state untouched; otherwise the value is stored and its
        error is cleared. */
    method HandleChange(name: CheckoutField, value: string)
      requires Valid()
      modifies this
      ensures Valid()
      ensures ChangedValue(name, value).None? ==> form == old(form) && errors == old(errors)
      ensures ChangedValue(name, value).Some? ==>
                form == old(form)[name := ChangedValue(name, value).value] &&
                errors == old(errors)[On(name) := ""]
    {
      var v := value;
      if name == CardNumber {
        v := FormatCardNumber(v);
        if |Digits(v)| > 19 {
          return;
        }
      } else if name == Phone || name == AltPhone {
        v := Digits(v);
        if |v| > 15 {
          return;
        }
      } else if name == Cvv {
        v := Digits(v);
        if |v| > 4 {
          return;
        }
      } else if name == ExpiryMonth {
        v := Digits(v);
        var month := ParseInt(v);
        if month.Some? && month.value > 12 {
          return;
        }
        if |v| > 2 {
          return;
        }
      } else if name == ExpiryYear {
        v := Digits(v);
        if |v| > 4 {
          return;
        }
      }
      assert ChangedValue(name, value) == Some(v);
      ChangedValueWithinLimit(name, value);
      form := form[name := v];
      errors := errors[On(name) := ""];
    }

    /** `validateForm`: stores the errors object and reports whether it is
        empty. */
    method Validate(currentYear: int, currentMonth: int) returns (ok: bool)
      modifies this
      ensures errors == ValidateForm(form, currentYear, currentMonth) && form == old(form)
      ensures ok <==> CheckoutValid(form, currentYear, currentMonth)
    {
      errors := ValidateForm(form, currentYear, currentMonth);
      ValidateFormIff(form, currentYear, currentMonth);
      ok := |errors| == 0;
    }
  }
}
