/** The car detail page: the amenity check boxes, the number of days, the
    price with its 15% tax, the guard and the request sent on "proceed to
    checkout", the image type read off a Base64 header, and the carousel.
    Money is in cents; dates are midnight timestamps in milliseconds. */
module CarDetail {
  import opened Text
  import Reservations

  /** `list.filter(a => a !== x)`. */
  function Without(list: seq<string>, x: string): (r: seq<string>)
    ensures x !in r
    ensures forall a :: a in r <==> a in list && a != x
    ensures |r| <= |list|
  {
    if list == [] then []
    else if list[0] == x then Without(list[1..], x)
    else [list[0]] + Without(list[1..], x)
  }

  /** A list without repeated entries. */
  predicate Distinct(list: seq<string>)
  {
    forall i, j :: 0 <= i < j < |list| ==> list[i] != list[j]
  }

  lemma {:induction false} WithoutKeepsDistinct(list: seq<string>, x: string)
    requires Distinct(list)
    ensures Distinct(Without(list, x))
    decreases |list|
  {
    if list != [] {
      WithoutKeepsDistinct(list[1..], x);
      assert list[0] !in list[1..];
    }
  }

  lemma {:induction false} WithoutAbsent(list: seq<string>, x: string)
    requires x !in list
    ensures Without(list, x) == list
    decreases |list|
  {
    if list != [] {
      WithoutAbsent(list[1..], x);
    }
  }

  lemma {:induction false} WithoutAppend(list: seq<string>, y: string, x: string)
    ensures Without(list + [y], x) == Without(list, x) + (if y == x then [] else [y])
    decreases |list|
  {
    if list == [] {
      assert list + [y] == [y];
    } else {
      assert (list + [y])[1..] == list[1..] + [y];
      WithoutAppend(list[1..], y, x);
    }
  }

  lemma {:induction false} WithoutCommutes(list: seq<string>, x: string, y: string)
    ensures Without(Without(list, x), y) == Without(Without(list, y), x)
    decreases |list|
  {
    if list != [] {
      WithoutCommutes(list[1..], x, y);
    }
  }

  /** `handleAmenityChange`: checking adds the id once and drops "none";
      unchecking drops the id. */
  function AmenityChange(prev: seq<string>, id: string, checked: bool): seq<string>
  {
    if checked then Without(if id in prev then prev else prev + [id], "none")
    else Without(prev, id)
  }

  /** After checking, the list holds the id (unless it is "none") and never
      "none"; after unchecking, it lacks the id. Nothing else is added or
      removed, and a list without repeats stays so. */
  lemma AmenityChangeEffect(prev: seq<string>, id: string, checked: bool)
    ensures var r := AmenityChange(prev, id, checked);
            (checked ==> "none" !in r && (id != "none" ==> id in r)) &&
            (!checked ==> id !in r) &&
            (forall a :: a != id && a != "none" ==> (a in r <==> a in prev)) &&
            (Distinct(prev) ==> Distinct(r))
  {
    if Distinct(prev) {
      if checked && id !in prev {
        var grown := prev + [id];
        forall i, j | 0 <= i < j < |grown|
          ensures grown[i] != grown[j]
        {
          if j == |prev| {
            assert grown[i] == prev[i];
          }
        }
        WithoutKeepsDistinct(grown, "none");
      } else if checked {
        WithoutKeepsDistinct(prev, "none");
      } else {
        WithoutKeepsDistinct(prev, id);
      }
    }
  }

  /** Checking a new amenity and unchecking it again leaves the selection
      as it was, less "none". */
  lemma CheckThenUncheck(prev: seq<string>, id: string)
    requires id !in prev && id != "none"
    ensures AmenityChange(AmenityChange(prev, id, true), id, false) == Without(prev, "none")
  {
    WithoutAppend(prev, id, "none");
    WithoutAppend(Without(prev, "none"), id, id);
    WithoutCommutes(prev, "none", id);
    WithoutAbsent(prev, id);
    assert Without(Without(prev, "none"), id) == Without(prev, "none") by {
      WithoutCommutes(prev, "none", id);
    }
  }

  /** One day in milliseconds. */
  const DayMs: int := 1000 * 60 * 60 * 24

  /** `calculateDays`: the whole days between the dates rounded up, in
      either order, and 1 when that is 0 or a date is missing. */
  function CalculateDays(rentalMs: Option<int>, returnMs: Option<int>): (days: int)
  {
    if rentalMs.None? || returnMs.None? then 1
    else
      var diff := if returnMs.value >= rentalMs.value then returnMs.value - rentalMs.value
                  else rentalMs.value - returnMs.value;
      var diffDays := (diff + DayMs - 1) / DayMs;
      if diffDays == 0 then 1 else diffDays
  }

  /** At least one day is always charged; for two different dates the page
      charges the nights between them, one day less than the server, which
      counts both the rental and the return day. */
  lemma CalculateDaysVersusServer(rentalDay: int, returnDay: int)
    ensures CalculateDays(Some(rentalDay * DayMs), Some(returnDay * DayMs)) >= 1
    ensures rentalDay < returnDay ==>
              CalculateDays(Some(rentalDay * DayMs), Some(returnDay * DayMs)) ==
              Reservations.TotalDays(rentalDay, returnDay) - 1
    ensures rentalDay == returnDay ==> CalculateDays(Some(rentalDay * DayMs), Some(returnDay * DayMs)) == 1
  {
    var diff := if returnDay >= rentalDay then returnDay - rentalDay else rentalDay - returnDay;
    assert (if returnDay * DayMs >= rentalDay * DayMs then returnDay * DayMs - rentalDay * DayMs
            else rentalDay * DayMs - returnDay * DayMs) == diff * DayMs;
    assert (diff * DayMs + DayMs - 1) / DayMs == diff;
  }

  /** The price of one amenity id in cents; an unknown id costs nothing. */
  function AmenityPrice(id: string): nat
  {
    if id == "baby-sitter" then 2000
    else if id == "gps" then 1000
    else if id == "power-bank" then 500
    else 0
  }

  /** The amenity cost on the page: the prices of the selected ids other
      than "none", added in list order. */
  function AmenityCost(amenities: seq<string>): nat
  {
    if amenities == [] then 0
    else AmenityCost(amenities[..|amenities| - 1]) +
         (if amenities[|amenities| - 1] == "none" then 0 else AmenityPrice(amenities[|amenities| - 1]))
  }

  /** For a selection without "none" the page and the server agree on the
      amenity cost. */
  lemma {:induction false} AmenityCostMatchesServer(amenities: seq<string>)
    requires "none" !in amenities
    ensures AmenityCost(amenities) == Reservations.PriceSum(amenities)
    decreases |amenities|
  {
    if amenities != [] {
      var init := amenities[..|amenities| - 1];
      assert "none" !in init by {
        assert forall a :: a in init ==> a in amenities;
      }
      AmenityCostMatchesServer(init);
    }
  }

  /** The total with 15% tax, in cents. */
  function TotalPrice(pricePerDay: int, days: int, amenities: seq<string>): real
  {
    var subtotal := pricePerDay * days + AmenityCost(amenities);
    subtotal as real + subtotal as real * 0.15
  }

  /** With the selection "none" removed, for two different midnight dates the
      page's total exceeds the server's expected total by 15% of the page's
      subtotal less one day's price, so the two agree only when those
      happen to cancel out. */
  lemma TotalVersusServer(pricePerDay: int, rentalDay: int, returnDay: int, amenities: seq<string>)
    requires rentalDay < returnDay && "none" !in amenities
    ensures var days := CalculateDays(Some(rentalDay * DayMs), Some(returnDay * DayMs));
            var subtotal := pricePerDay * days + AmenityCost(amenities);
            TotalPrice(pricePerDay, days, amenities) -
              Reservations.ExpectedTotal(pricePerDay, rentalDay, returnDay, Some(amenities)) as real ==
            subtotal as real * 0.15 - pricePerDay as real
  {
    CalculateDaysVersusServer(rentalDay, returnDay);
    AmenityCostMatchesServer(amenities);
    if amenities != [] {
      assert Reservations.AmenityCost(Some(amenities)) == Reservations.PriceSum(amenities);
    }
  }

  /** `proceedToCheckout`'s guards. */
  function ProceedError(haveVehicle: bool, haveUser: bool, rentalMs: int, returnMs: int): Option<string>
  {
    if !haveVehicle || !haveUser then Some("Missing vehicle or user data")
    else if returnMs <= rentalMs then Some("Return date must be after rental date")
    else None
  }

  /** The page goes on to the server only with a vehicle, a user and a
      return date strictly after the rental date. */
  lemma ProceedIff(haveVehicle: bool, haveUser: bool, rentalMs: int, returnMs: int)
    ensures ProceedError(haveVehicle, haveUser, rentalMs, returnMs).None? <==>
              haveVehicle && haveUser && rentalMs < returnMs
    ensures ProceedError(haveVehicle, haveUser, rentalMs, returnMs).None? ==>
              CalculateDays(Some(rentalMs), Some(returnMs)) >= 1
  {
  }

  /** The amenities sent, as the page builds them: an empty list whenever
      "none" is selected. */
  function SentAmenitiesAsWritten(amenities: seq<string>): seq<string>
  {
    if "none" in amenities then [] else amenities
  }

  /** The amenities sent, as the server expects them: the selection itself,
      which the check boxes keep free of "none" beside other items. */
  function SentAmenities(amenities: seq<string>): seq<string>
  {
    amenities
  }

  /** The reservation posted to the server, the total rounded to the cent. */
  function Request(vehicleId: nat, userId: nat, rentalDay: int, returnDay: int, pricePerDay: int,
                   amenities: seq<string>, sent: seq<string>): Reservations.Reservation
  {
    var days := CalculateDays(Some(rentalDay * DayMs), Some(returnDay * DayMs));
    var subtotal := pricePerDay * days + AmenityCost(amenities);
    Reservations.Reservation(
      None, Some(Reservations.VehicleRef(Some(vehicleId))), Some(userId), Some(rentalDay), Some(returnDay),
      Some((subtotal * 115 + 50) / 100), Some(sent))
  }

  /** As written, the default selection "none" is sent as an empty list,
      which the reservation service refuses among its request checks, before
      its price and availability checks (the controller's lookup of the
      vehicle, which answers 404 for an unknown one, comes first). */
  lemma DefaultSelectionRefused(vehicleId: nat, userId: nat, rentalDay: int, returnDay: int, pricePerDay: int)
    requires rentalDay < returnDay && pricePerDay > 0
    ensures var r := Request(vehicleId, userId, rentalDay, returnDay, pricePerDay, ["none"],
                             SentAmenitiesAsWritten(["none"]));
            Reservations.RequestError(r) == Some("At least one amenity or 'none' is required")
  {
    CalculateDaysVersusServer(rentalDay, returnDay);
  }

  /** Sent as selected, every selection the check boxes can produce from the
      default passes the server's amenity rules. */
  lemma SelectionPassesAmenityRules(vehicleId: nat, userId: nat, rentalDay: int, returnDay: int,
                                    pricePerDay: int, amenities: seq<string>)
    requires rentalDay < returnDay && pricePerDay > 0
    requires amenities != [] && forall a :: a in amenities ==> a in Reservations.ValidAmenities
    requires "none" in amenities ==> amenities == ["none"]
    ensures Reservations.RequestError(Request(vehicleId, userId, rentalDay, returnDay, pricePerDay,
                                              amenities, SentAmenities(amenities))).None?
  {
    CalculateDaysVersusServer(rentalDay, returnDay);
    var days := CalculateDays(Some(rentalDay * DayMs), Some(returnDay * DayMs));
    assert pricePerDay * days > 0;
    assert Reservations.FirstInvalidAmenity(amenities).None?;
  }

  /** Checking the boxes starting from the default keeps the selection
      within the rules the server checks. */
  lemma ChangeKeepsServerRules(prev: seq<string>, id: string, checked: bool)
    requires forall a :: a in prev ==> a in Reservations.ValidAmenities
    requires "none" in prev ==> prev == ["none"]
    requires id in Reservations.ValidAmenities
    ensures var r := AmenityChange(prev, id, checked);
            (forall a :: a in r ==> a in Reservations.ValidAmenities) &&
            ("none" in r ==> r == ["none"])
  {
    var r := AmenityChange(prev, id, checked);
    AmenityChangeEffect(prev, id, checked);
    if "none" in r {
      assert !checked && prev == ["none"] && id != "none";
      assert r == Without(["none"], id);
    }
  }

  /** `base64Str.substring(0, 20)`. */
  function Header(base64: string): (h: string)
    ensures |h| == (if |base64| < 20 then |base64| else 20) && h == base64[..|h|]
  {
    base64[..if |base64| < 20 then |base64| else 20]
  }

  /** `getImageMimeType`: the type announced by the first 20 characters of
      the Base64 text, JPEG when none matches. */
  function MimeType(base64: string): (mime: string)
    ensures mime in {"image/jpeg", "image/png", "image/gif", "image/webp"}
  {
    if base64 == [] then "image/jpeg"
    else
      var header := Header(base64);
      if Contains(header, "/9j/") then "image/jpeg"
      else if Contains(header, "iVBORw0KGgo") then "image/png"
      else if Contains(header, "R0lGODlh") then "image/gif"
      else if Contains(header, "UklGR") then "image/webp"
      else "image/jpeg"
  }

  /** Only the header counts; the Base64 signature of a JPEG, PNG, GIF or
      WebP file at the start of the text selects its type unless an earlier
      signature also occurs in the header; a header with no signature, and
      an empty text, give JPEG. */
  lemma MimeTypeByHeader(base64: string)
    ensures |base64| > 20 ==> MimeType(base64) == MimeType(base64[..20])
    ensures StartsWith(base64, "/9j/") ==> MimeType(base64) == "image/jpeg"
    ensures StartsWith(base64, "iVBORw0KGgo") && !Contains(Header(base64), "/9j/") ==>
              MimeType(base64) == "image/png"
    ensures StartsWith(base64, "R0lGODlh") && !Contains(Header(base64), "/9j/") &&
            !Contains(Header(base64), "iVBORw0KGgo") ==>
              MimeType(base64) == "image/gif"
    ensures StartsWith(base64, "UklGR") && !Contains(Header(base64), "/9j/") &&
            !Contains(Header(base64), "iVBORw0KGgo") && !Contains(Header(base64), "R0lGODlh") ==>
              MimeType(base64) == "image/webp"
    ensures !Contains(Header(base64), "/9j/") && !Contains(Header(base64), "iVBORw0KGgo") &&
            !Contains(Header(base64), "R0lGODlh") && !Contains(Header(base64), "UklGR") ==>
              MimeType(base64) == "image/jpeg"
  {
    var header := Header(base64);
    if |base64| > 20 {
      assert base64[..20][..20] == header;
    }
    if StartsWith(base64, "/9j/") {
      assert header[0..4] == "/9j/";
      ContainsAt(header, "/9j/", 0);
    }
    if StartsWith(base64, "iVBORw0KGgo") {
      assert header[0..11] == "iVBORw0KGgo";
      ContainsAt(header, "iVBORw0KGgo", 0);
    }
    if StartsWith(base64, "R0lGODlh") {
      assert header[0..8] == "R0lGODlh";
      ContainsAt(header, "R0lGODlh", 0);
    }
    if StartsWith(base64, "UklGR") {
      assert header[0..5] == "UklGR";
      ContainsAt(header, "UklGR", 0);
    }
  }

  /** `changeImage(delta)`: the next index, wrapping around `count`
      images; `%` is JavaScript's remainder, which keeps the sign of the
      dividend. */
  function ChangeImage(prev: int, delta: int, count: nat): int
    requires count > 0
  {
    var a := prev + delta + count;
    if a >= 0 then a % count else -((-a) % count)
  }

  /** The remainder of `a` by `n` when `a` lies in the `q`-th block of `n`. */
  lemma ModInBlock(a: int, n: int, q: int)
    requires n > 0 && q * n <= a < q * n + n
    ensures a % n == a - q * n
  {
    var r := a % n;
    var k := a / n - q;
    assert k * n == a - q * n - r;
    if k >= 1 {
      MulAtLeast(k, n);
    } else if k <= -1 {
      MulAtLeast(-k, n);
    }
  }

  lemma MulAtLeast(k: int, n: int)
    requires k >= 1 && n > 0
    ensures k * n >= n
  {
    assert k * n == (k - 1) * n + n;
  }

  /** From a shown image, a step either way stays among the images, and a
      step back undoes a step forward. */
  lemma ChangeImageWraps(prev: int, count: nat)
    requires 0 <= prev < count
    ensures 0 <= ChangeImage(prev, 1, count) < count && 0 <= ChangeImage(prev, -1, count) < count
    ensures ChangeImage(ChangeImage(prev, 1, count), -1, count) == prev
    ensures ChangeImage(ChangeImage(prev, -1, count), 1, count) == prev
    ensures prev == count - 1 ==> ChangeImage(prev, 1, count) == 0
    ensures prev == 0 ==> ChangeImage(prev, -1, count) == count - 1
  {
    var next := if prev == count - 1 then 0 else prev + 1;
    var back := if prev == 0 then count - 1 else prev - 1;
    ModInBlock(prev + 1 + count, count, if prev == count - 1 then 2 else 1);
    ModInBlock(prev - 1 + count, count, if prev == 0 then 0 else 1);
    assert ChangeImage(prev, 1, count) == next;
    assert ChangeImage(prev, -1, count) == back;
    ModInBlock(next - 1 + count, count, if next == 0 then 0 else 1);
    ModInBlock(back + 1 + count, count, if back == count - 1 then 2 else 1);
  }
}
