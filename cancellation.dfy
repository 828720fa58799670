/** The cancellation page: its card-number and expiry formatters, the fee
    charged by how close the pickup is, the payment-form checks and the gate
    in front of the cancel request. Money is in cents and timestamps are
    milliseconds; the current time is a parameter. */
module Cancellation {
  import opened Text
  import Checkout

  /** `.replace(/(.{4})/g, "$1 ")`: a space after every full group of four. */
  function Spaced(d: string): string
    decreases |d|
  {
    if |d| >= 4 then d[..4] + " " + Spaced(d[4..]) else d
  }

  /** `formatCardNumber`: the digits, a space after each full group of four,
      then `trim()`. */
  function FormatCardNumber(value: string): string
  {
    Trim(Js, Spaced(Digits(value)))
  }

  /** Spacing digits gives the checkout grouping, plus one trailing space
      when the number of digits is a non-zero multiple of four. */
  lemma {:induction false} SpacedIsGroupedPlusSpace(d: string)
    ensures Spaced(d) == Checkout.Grouped(d) + (if |d| > 0 && |d| % 4 == 0 then " " else "")
    decreases |d|
  {
    if |d| > 4 {
      SpacedIsGroupedPlusSpace(d[4..]);
      assert (|d[4..]| > 0 && |d[4..]| % 4 == 0) == (|d| % 4 == 0);
    } else if |d| == 4 {
      assert d[4..] == [];
    }
  }

  /** Trimming a digit-led, digit-ended text with at most one trailing space
      leaves just that text. */
  lemma TrimDigitText(g: string, tail: string)
    requires g != [] && IsDigit(g[0]) && IsDigit(g[|g| - 1])
    requires tail == "" || tail == " "
    ensures Trim(Js, g + tail) == g
  {
    var s := g + tail;
    DigitNotSpace(g[0]);
    DigitNotSpace(g[|g| - 1]);
    assert s[0] == g[0];
    if tail == " " {
      assert s[..|s| - 1] == g;
    } else {
      assert s == g;
    }
  }

  /** The two pages format a card number the same way, even though the
      cancellation page adds spaces and trims while the checkout page only
      spaces between groups. */
  lemma FormatCardNumberAgrees(value: string)
    ensures FormatCardNumber(value) == Checkout.FormatCardNumber(value)
  {
    var d := Digits(value);
    SpacedIsGroupedPlusSpace(d);
    if d != [] {
      Checkout.GroupedShape(d);
      var g := Checkout.Grouped(d);
      assert g[0] != ' ' && g[|g| - 1] != ' ';
      assert Digits(g) == d;
      GroupedCharsAreDigitsOrSpaces(d);
      TrimDigitText(g, if |d| > 0 && |d| % 4 == 0 then " " else "");
    }
  }

  lemma {:induction false} GroupedCharsAreDigitsOrSpaces(d: string)
    requires AllDigits(d)
    ensures forall i :: 0 <= i < |Checkout.Grouped(d)| ==> IsDigit(Checkout.Grouped(d)[i]) || Checkout.Grouped(d)[i] == ' '
    decreases |d|
  {
    if |d| > 4 {
      GroupedCharsAreDigitsOrSpaces(d[4..]);
      var g := Checkout.Grouped(d[4..]);
      assert Checkout.Grouped(d) == d[..4] + " " + g;
      forall i | 0 <= i < |Checkout.Grouped(d)|
        ensures IsDigit(Checkout.Grouped(d)[i]) || Checkout.Grouped(d)[i] == ' '
      {
        if i >= 5 {
          assert Checkout.Grouped(d)[i] == g[i - 5];
        }
      }
    }
  }

  /** `formatExpiry`: the digits; up to two stay as typed, otherwise the
      first two, a slash, and the next at most two. */
  function FormatExpiry(value: string): (r: string)
  {
    var cleaned := Digits(value);
    if |cleaned| == 0 then ""
    else if |cleaned| <= 2 then cleaned
    else cleaned[..2] + "/" + cleaned[2..if |cleaned| < 4 then |cleaned| else 4]
  }

  /** Formatting the expiry keeps the first four digits typed. */
  lemma FormatExpiryDigits(value: string)
    ensures var d := Digits(value);
            Digits(FormatExpiry(value)) == d[..if |d| < 4 then |d| else 4]
  {
    var d := Digits(value);
    DigitsOfDigits(d);
    if |d| > 2 {
      var tail := d[2..if |d| < 4 then |d| else 4];
      DigitsAroundSlash(d[..2], tail);
      assert d[..2] + tail == d[..if |d| < 4 then |d| else 4];
    } else {
      assert d[..|d|] == d;
    }
  }

  /** Dropping the non-digits of two digit runs joined by a slash joins
      the runs. */
  lemma DigitsAroundSlash(a: string, b: string)
    requires AllDigits(a) && AllDigits(b)
    ensures Digits(a + "/" + b) == a + b
  {
    DigitsOfDigits(a);
    DigitsOfDigits(b);
    DigitsOfConcat(a, "/");
    DigitsOfConcat(a + "/", b);
    assert Digits("/") == [];
  }

  /** The expiry text is at most "MM/YY" long, keeps the first four digits
      typed, and formatting it again changes nothing. */
  lemma FormatExpiryShape(value: string)
    ensures |FormatExpiry(value)| <= 5
    ensures var d := Digits(value);
            Digits(FormatExpiry(value)) == d[..if |d| < 4 then |d| else 4]
    ensures FormatExpiry(FormatExpiry(value)) == FormatExpiry(value)
  {
    var d := Digits(value);
    var r := FormatExpiry(value);
    FormatExpiryDigits(value);
    var p := Digits(r);
    if |d| > 2 {
      assert p[..2] == d[..2] && p[2..] == d[2..|p|];
      assert FormatExpiry(r) == p[..2] + "/" + p[2..];
    } else {
      assert p == d == r;
    }
  }

  /** One hour in milliseconds. */
  const HourMs: int := 3600000

  /** The fee in percent of the total, by the time left before pickup:
      30 under 24 hours, 10 under 72 hours, otherwise nothing. */
  function FeePercent(pickupMs: int, nowMs: int): (pct: nat)
  {
    if pickupMs - nowMs < 24 * HourMs then 30
    else if pickupMs - nowMs < 72 * HourMs then 10
    else 0
  }

  /** `Math.round` of a number of cents given as `numerator / 100`: halves
      go up. */
  function RoundCents(numerator: int): int
  {
    (numerator + 50) / 100
  }

  /** What `feePreview` shows. */
  datatype FeePreview = FeePreview(cancellationFee: int, refundAmount: int)

  /** `feePreview`: the fee is the tier's percentage of the total, rounded to
      the cent; nothing is refunded. */
  function Preview(totalCents: int, pickupMs: int, nowMs: int): FeePreview
  {
    FeePreview(RoundCents(totalCents * FeePercent(pickupMs, nowMs)), 0)
  }

  /** The fee is within half a cent of the tier's share of the total, lies
      between nothing and the total, and nothing is ever refunded. */
  lemma PreviewBounds(totalCents: int, pickupMs: int, nowMs: int)
    requires totalCents >= 0
    ensures var p := Preview(totalCents, pickupMs, nowMs);
            var exact := totalCents * FeePercent(pickupMs, nowMs);
            -50 < 100 * p.cancellationFee - exact <= 50 &&
            0 <= p.cancellationFee <= totalCents &&
            p.refundAmount == 0
  {
  }

  /** Cancelling later never costs less: the fee only grows as the pickup
      comes closer. */
  lemma FeeGrowsTowardPickup(totalCents: int, pickupMs: int, earlierMs: int, laterMs: int)
    requires totalCents >= 0 && earlierMs <= laterMs
    ensures Preview(totalCents, pickupMs, earlierMs).cancellationFee <= Preview(totalCents, pickupMs, laterMs).cancellationFee
  {
    var lo := totalCents * FeePercent(pickupMs, earlierMs);
    var hi := totalCents * FeePercent(pickupMs, laterMs);
    assert FeePercent(pickupMs, earlierMs) <= FeePercent(pickupMs, laterMs);
    assert lo <= hi;
  }

  /** The cards and the time of the check, as calendar month (1 to 12). */
  datatype Clock = Clock(year: int, month: int)

  /** The errors object of `validatePayment`. */
  datatype PaymentErrors = PaymentErrors(cardNumber: Option<string>, expiry: Option<string>, cvv: Option<string>)

  /** `s.replace(/\s+/g, "")`. */
  function RemoveSpaces(s: string): (r: string)
    ensures |r| <= |s|
  {
    if s == [] then []
    else if IsJsSpace(s[0]) then RemoveSpaces(s[1..])
    else [s[0]] + RemoveSpaces(s[1..])
  }

  /** `/^(0[1-9]|1[0-2])\/\d{2}$/`: a month 01 to 12, a slash, two digits. */
  predicate ExpiryFormat(e: string)
  {
    |e| == 5 && e[2] == '/' && IsDigit(e[0]) && IsDigit(e[1]) && IsDigit(e[3]) && IsDigit(e[4]) &&
    1 <= DigitsValue(e[..2]) <= 12
  }

  /** `new Date(2000 + yy, mm) <= new Date()`: the card runs until the end of
      month `mm` of 20YY, so it has expired once that month is over. */
  predicate ExpiredAt(mm: int, yy: int, now: Clock)
  {
    var endYear := if mm == 12 then 2000 + yy + 1 else 2000 + yy;
    var endMonth := if mm == 12 then 1 else mm + 1;
    endYear < now.year || (endYear == now.year && endMonth <= now.month)
  }

  /** `validatePayment`: the errors object it stores. */
  function ValidatePayment(cardNumber: string, expiry: string, cvv: string, now: Clock): PaymentErrors
  {
    var cardDigits := RemoveSpaces(cardNumber);
    PaymentErrors(
      if |cardDigits| == 16 && AllDigits(cardDigits) then None else Some("Card number must be 16 digits."),
      if !ExpiryFormat(expiry) then Some("Invalid expiry format (MM/YY).")
      else if ExpiredAt(DigitsValue(expiry[..2]), DigitsValue(expiry[3..]), now) then Some("Card has expired.")
      else None,
      if |cvv| == 3 && AllDigits(cvv) then None else Some("CVV must be 3 digits."))
  }

  predicate NoErrors(e: PaymentErrors)
  {
    e.cardNumber.None? && e.expiry.None? && e.cvv.None?
  }

  /** A payment passes exactly with 16 card digits (spaces aside), an
      expiry "MM/YY" whose month is not over, and a 3-digit CVV; the card is
      still good during its own expiry month. */
  lemma ValidatePaymentIff(cardNumber: string, expiry: string, cvv: string, now: Clock)
    requires 1 <= now.month <= 12
    ensures NoErrors(ValidatePayment(cardNumber, expiry, cvv, now)) <==>
              |RemoveSpaces(cardNumber)| == 16 && AllDigits(RemoveSpaces(cardNumber)) &&
              ExpiryFormat(expiry) &&
              (var mm := DigitsValue(expiry[..2]); var year := 2000 + DigitsValue(expiry[3..]);
               year > now.year || (year == now.year && mm >= now.month)) &&
              |cvv| == 3 && AllDigits(cvv)
  {
  }

  /** A card formatted by `formatCardNumber` with 16 digits passes the card
      check. */
  lemma FormattedCardAccepted(value: string, expiry: string, cvv: string, now: Clock)
    requires |Digits(value)| == 16
    ensures ValidatePayment(FormatCardNumber(value), expiry, cvv, now).cardNumber.None?
  {
    FormatCardNumberAgrees(value);
    Checkout.GroupedShape(Digits(value));
    GroupedCharsAreDigitsOrSpaces(Digits(value));
    RemoveSpacesOfDigitText(Checkout.Grouped(Digits(value)));
  }

  /** Removing the spaces of a text of digits and spaces keeps its digits. */
  lemma {:induction false} RemoveSpacesOfDigitText(s: string)
    requires forall i :: 0 <= i < |s| ==> IsDigit(s[i]) || s[i] == ' '
    ensures RemoveSpaces(s) == Digits(s)
  {
    if s != [] {
      RemoveSpacesOfDigitText(s[1..]);
    }
  }

  /** `handleCancel`'s gate: a fee-free cancellation goes ahead without any
      card; otherwise it needs a valid payment. */
  function CancelProceeds(fee: int, cardNumber: string, expiry: string, cvv: string, now: Clock): (go: bool)
  {
    !(fee > 0 && !NoErrors(ValidatePayment(cardNumber, expiry, cvv, now)))
  }

  /** More than three days before pickup, the cancel request is sent even
      with an empty payment form; closer to pickup, a positive total needs a
      valid payment. */
  lemma CancelGate(totalCents: int, pickupMs: int, nowMs: int, cardNumber: string, expiry: string, cvv: string, now: Clock)
    requires totalCents >= 0
    ensures pickupMs - nowMs >= 72 * HourMs ==>
              CancelProceeds(Preview(totalCents, pickupMs, nowMs).cancellationFee, "", "", "", now)
    ensures pickupMs - nowMs < 72 * HourMs && totalCents >= 5 ==>
              (CancelProceeds(Preview(totalCents, pickupMs, nowMs).cancellationFee, cardNumber, expiry, cvv, now) <==>
               NoErrors(ValidatePayment(cardNumber, expiry, cvv, now)))
  {
  }
}
