/** `ReservationService.createReservation`: the request checks, the amenity
    price list, the days-times-rate price check and the move of the vehicle
    from Available to Rented. Dates are epoch days and money is in cents. */
module Reservations {
  import opened Text
  import opened Vehicles

  /** The vehicle a reservation refers to; its id may itself be missing. */
  datatype VehicleRef = VehicleRef(id: Option<nat>)

  /** A reservation as submitted; `None` stands for a Java `null`. */
  datatype Reservation = Reservation(
    id: Option<nat>,
    vehicle: Option<VehicleRef>,
    userId: Option<nat>,
    rentalDate: Option<int>,
    returnDate: Option<int>,
    totalPrice: Option<int>,
    amenities: Option<seq<string>>)

  const ValidAmenities: seq<string> := ["none", "baby-sitter", "gps", "power-bank"]

  /** The price of one amenity in cents; an unknown name costs nothing. */
  function AmenityPrice(amenity: string): (p: nat)
    ensures amenity !in ValidAmenities ==> p == 0
  {
    if amenity == "baby-sitter" then 2000
    else if amenity == "gps" then 1000
    else if amenity == "power-bank" then 500
    else 0
  }

  /** The prices of the amenities, added up in list order. */
  function PriceSum(amenities: seq<string>): nat
  {
    if amenities == [] then 0
    else PriceSum(amenities[..|amenities| - 1]) + AmenityPrice(amenities[|amenities| - 1])
  }

  /** `calculateAmenityCost`: nothing when the list is missing, empty or
      contains "none", otherwise the sum of the item prices. */
  function AmenityCost(amenities: Option<seq<string>>): nat
  {
    if amenities.None? || amenities.value == [] || "none" in amenities.value then 0
    else PriceSum(amenities.value)
  }

  /** The sum only depends on how many of each priced item the list has. */
  lemma {:induction false} PriceSumByCount(amenities: seq<string>)
    ensures PriceSum(amenities) ==
      2000 * multiset(amenities)["baby-sitter"] +
      1000 * multiset(amenities)["gps"] +
      500 * multiset(amenities)["power-bank"]
    decreases |amenities|
  {
    if amenities != [] {
      var init := amenities[..|amenities| - 1];
      assert amenities == init + [amenities[|amenities| - 1]];
      PriceSumByCount(init);
    }
  }

  /** The amenity cost is 20.00 per baby-sitter, 10.00 per GPS and 5.00 per
      power bank, and zero whenever "none" is selected. */
  lemma AmenityCostByCount(amenities: seq<string>)
    ensures "none" in amenities ==> AmenityCost(Some(amenities)) == 0
    ensures "none" !in amenities ==>
              AmenityCost(Some(amenities)) ==
                2000 * multiset(amenities)["baby-sitter"] +
                1000 * multiset(amenities)["gps"] +
                500 * multiset(amenities)["power-bank"]
  {
    PriceSumByCount(amenities);
  }

  /** `calculateAmenityCost`, accumulating over the list as the source does. */
  method CalculateAmenityCost(amenities: Option<seq<string>>) returns (cost: nat)
    ensures cost == AmenityCost(amenities)
  {
    if amenities.None? || |amenities.value| == 0 || "none" in amenities.value {
      return 0;
    }
    var list := amenities.value;
    cost := 0;
    var i := 0;
    while i < |list|
      invariant 0 <= i <= |list|
      invariant cost == PriceSum(list[..i])
    {
      assert list[..i + 1][..i] == list[..i];
      if list[i] == "baby-sitter" {
        cost := cost + 2000;
      } else if list[i] == "gps" {
        cost := cost + 1000;
      } else if list[i] == "power-bank" {
        cost := cost + 500;
      }
      i := i + 1;
    }
    assert list[..|list|] == list;
  }

  /** Days charged: both the rental and the return day count. */
  function TotalDays(rentalDate: int, returnDate: int): int
  {
    returnDate - rentalDate + 1
  }

  /** The price the server expects, in cents. */
  function ExpectedTotal(pricePerDay: int, rentalDate: int, returnDate: int, amenities: Option<seq<string>>): int
  {
    pricePerDay * TotalDays(rentalDate, returnDate) + AmenityCost(amenities)
  }

  /** The checks that look only at the submitted reservation, in order. */
  function RequestError(r: Reservation): Option<string>
  {
    if r.vehicle.None? then Some("Vehicle is required")
    else if r.userId.None? then Some("User ID is required")
    else if r.rentalDate.None? || r.returnDate.None? then Some("Rental and return dates are required")
    else if r.returnDate.value < r.rentalDate.value then Some("Return date must be after rental date")
    else if r.totalPrice.None? || r.totalPrice.value <= 0 then Some("Total price must be greater than zero")
    else if r.amenities.None? || r.amenities.value == [] then Some("At least one amenity or 'none' is required")
    else if FirstInvalidAmenity(r.amenities.value).Some? then
      Some("Invalid amenity: " + FirstInvalidAmenity(r.amenities.value).value)
    else if "none" in r.amenities.value && |r.amenities.value| > 1 then
      Some("'none' cannot be combined with other amenities")
    else None
  }

  /** The first amenity that is not on the list of valid ones. */
  function FirstInvalidAmenity(amenities: seq<string>): (r: Option<string>)
    ensures r.None? <==> forall a :: a in amenities ==> a in ValidAmenities
    ensures r.Some? ==> r.value in amenities && r.value !in ValidAmenities
  {
    if amenities == [] then None
    else if amenities[0] !in ValidAmenities then Some(amenities[0])
    else
      var rest := FirstInvalidAmenity(amenities[1..]);
      assert forall a :: a in amenities ==> a == amenities[0] || a in amenities[1..];
      rest
  }

  /** Why `createReservation` fails, if it does: the request checks, then the
      vehicle lookup, its availability and the price check. */
  function CreateError(vehicles: map<nat, Vehicle>, r: Reservation): Option<string>
  {
    if RequestError(r).Some? then RequestError(r)
    else if r.vehicle.value.id.None? then Some("The given id must not be null")
    else if r.vehicle.value.id.value !in vehicles then Some("Vehicle not found")
    else
      var v := vehicles[r.vehicle.value.id.value];
      if v.status != "Available" then Some("Vehicle is not available")
      else if v.pricePerDay.None? then Some("Vehicle has no price per day")
      else
        var expected := ExpectedTotal(v.pricePerDay.value, r.rentalDate.value, r.returnDate.value, r.amenities);
        if r.totalPrice.value - expected > 1 || expected - r.totalPrice.value > 1 then
          Some("Total price mismatch")
        else None
  }

  /** A reservation the service accepts, stated as conditions on it. */
  ghost predicate Acceptable(vehicles: map<nat, Vehicle>, r: Reservation)
  {
    r.vehicle.Some? && r.userId.Some? && r.rentalDate.Some? && r.returnDate.Some? &&
    r.rentalDate.value <= r.returnDate.value &&
    r.totalPrice.Some? && r.totalPrice.value > 0 &&
    r.amenities.Some? && |r.amenities.value| >= 1 &&
    (forall a :: a in r.amenities.value ==> a in ValidAmenities) &&
    ("none" in r.amenities.value ==> r.amenities.value == ["none"]) &&
    r.vehicle.value.id.Some? && r.vehicle.value.id.value in vehicles &&
    vehicles[r.vehicle.value.id.value].status == "Available" &&
    vehicles[r.vehicle.value.id.value].pricePerDay.Some? &&
    var expected := ExpectedTotal(vehicles[r.vehicle.value.id.value].pricePerDay.value,
                                  r.rentalDate.value, r.returnDate.value, r.amenities);
    -1 <= r.totalPrice.value - expected <= 1
  }

  /** The service accepts a reservation exactly when every rule holds: all
      fields present, a return no earlier than the rental (the same day is
      allowed), a positive total, known amenities with "none" on its own, an
      Available vehicle, and a total within one cent of the expected one. */
  lemma AcceptedIff(vehicles: map<nat, Vehicle>, r: Reservation)
    ensures CreateError(vehicles, r).None? <==> Acceptable(vehicles, r)
  {
    if r.amenities.Some? && "none" in r.amenities.value && |r.amenities.value| == 1 {
      assert r.amenities.value == [r.amenities.value[0]];
    }
  }

  /** Once a vehicle has been rented, no further reservation for it succeeds. */
  lemma RentedVehicleRefused(vehicles: map<nat, Vehicle>, vehicleId: nat, r: Reservation)
    requires vehicleId in vehicles
    requires r.vehicle == Some(VehicleRef(Some(vehicleId)))
    ensures CreateError(vehicles[vehicleId := vehicles[vehicleId].(status := "Rented")], r).Some?
  {
  }

  /** The reservations table and the part of the vehicles table it touches. */
  class ReservationService {
    var vehicles: map<nat, Vehicle>
    var reservations: map<nat, Reservation>
    var nextId: nat

    ghost predicate Valid()
      reads this
    {
      forall id :: id in reservations ==> id < nextId && reservations[id].id == Some(id)
    }

    constructor (vehicles0: map<nat, Vehicle>)
      ensures Valid() && vehicles == vehicles0 && reservations == map[]
    {
      vehicles, reservations, nextId := vehicles0, map[], 0;
    }

    /** `createReservation`: on success the vehicle becomes Rented and the
        reservation is stored under a new id; on failure nothing changes. */
    method CreateReservation(r: Reservation) returns (result: Result<Reservation>)
      requires Valid()
      modifies this
      ensures Valid()
      ensures result.Failure? <==> CreateError(old(vehicles), r).Some?
      ensures result.Failure? ==>
        result.error == CreateError(old(vehicles), r).value &&
        vehicles == old(vehicles) && reservations == old(reservations) && nextId == old(nextId)
      ensures result.Success? ==>
        var vid := r.vehicle.value.id.value;
        old(vehicles)[vid].status == "Available" &&
        vehicles == old(vehicles)[vid := old(vehicles)[vid].(status := "Rented")] &&
        result.value == r.(id := Some(old(nextId))) &&
        reservations == old(reservations)[old(nextId) := result.value]
    {
      var err := RequestError(r);
      if err.Some? {
        return Failure(err.value);
      }
      if r.vehicle.value.id.None? {
        return Failure("The given id must not be null");
      }
      var vid := r.vehicle.value.id.value;
      if vid !in vehicles {
        return Failure("Vehicle not found");
      }
      var v := vehicles[vid];
      if v.status != "Available" {
        return Failure("Vehicle is not available");
      }
      if v.pricePerDay.None? {
        return Failure("Vehicle has no price per day");
      }
      var totalDays := r.returnDate.value - r.rentalDate.value + 1;
      var amenityCost := CalculateAmenityCost(r.amenities);
      var expected := v.pricePerDay.value * totalDays + amenityCost;
      var difference := r.totalPrice.value - expected;
      if difference > 1 || -difference > 1 {
        return Failure("Total price mismatch");
      }
      vehicles := vehicles[vid := vehicles[vid].(status := "Rented")];
      var saved := r.(id := Some(nextId));
      reservations := reservations[nextId := saved];
      nextId := nextId + 1;
      result := Success(saved);
    }
  }
}
