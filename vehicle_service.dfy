/** The vehicle store: the `vehicles` table behind `VehicleService`, with the
    checks `saveVehicle` makes and the database's unique columns. Money is in
    integer cents. */
module Vehicles {
  import opened Text

  /** A vehicle row; `None` stands for a Java `null`. */
  datatype Vehicle = Vehicle(
    id: Option<nat>,
    make: Option<string>,
    model: Option<string>,
    vehicleType: Option<string>,
    year: Option<int>,
    color: Option<string>,
    licensePlate: Option<string>,
    vin: Option<string>,
    fuelType: Option<string>,
    transmission: Option<string>,
    seatingCapacity: Option<int>,
    mileage: Option<int>,
    pricePerDay: Option<int>,
    location: Option<string>,
    status: string,
    vehicleImage1: Option<string>,
    vehicleImage2: Option<string>,
    vehicleImage3: Option<string>,
    description: Option<string>,
    features: Option<string>)

  /** `new Vehicle()`: every field unset and the status "Available". */
  function NewVehicle(): (v: Vehicle)
    ensures v.id.None? && v.status == "Available"
  {
    Vehicle(None, None, None, None, None, None, None, None, None, None, None, None,
            None, None, "Available", None, None, None, None, None)
  }

  /** `s != null && !s.trim().isEmpty()`. */
  predicate Filled(s: Option<string>)
  {
    s.Some? && !IsBlank(Java, s.value)
  }

  /** The field checks of `saveVehicle`, in the order it makes them. */
  function FieldError(v: Vehicle): (r: Option<string>)
    ensures r.None? <==>
      Filled(v.make) && Filled(v.model) && Filled(v.vehicleType) &&
      v.year.Some? && 1900 <= v.year.value <= 2030 &&
      Filled(v.location) && v.pricePerDay.Some? && v.pricePerDay.value > 0
  {
    if !Filled(v.make) then Some("Vehicle make is required")
    else if !Filled(v.model) then Some("Vehicle model is required")
    else if !Filled(v.vehicleType) then Some("Vehicle type is required")
    else if v.year.None? || v.year.value < 1900 || v.year.value > 2030 then Some("Valid year is required")
    else if !Filled(v.location) then Some("Location is required")
    else if v.pricePerDay.None? || v.pricePerDay.value <= 0 then Some("Valid price per day greater than 0 is required")
    else None
  }

  /** A stored vehicle other than `v` itself already has `v`'s plate. */
  predicate PlateHeldByOther(vehicles: map<nat, Vehicle>, v: Vehicle)
  {
    v.licensePlate.Some? &&
    exists id :: id in vehicles && vehicles[id].licensePlate == v.licensePlate && Some(id) != v.id
  }

  /** A stored vehicle other than `v` itself already has `v`'s VIN. */
  predicate VinHeldByOther(vehicles: map<nat, Vehicle>, v: Vehicle)
  {
    v.vin.Some? &&
    exists id :: id in vehicles && vehicles[id].vin == v.vin && Some(id) != v.id
  }

  /** Why `saveVehicle(v)` fails, if it does: the field checks, the service's
      own duplicate checks on non-blank plate and VIN, and then the unique
      columns, which also catch a duplicate blank value. */
  function SaveError(vehicles: map<nat, Vehicle>, v: Vehicle): Option<string>
  {
    if FieldError(v).Some? then FieldError(v)
    else if Filled(v.licensePlate) && PlateHeldByOther(vehicles, v) then
      Some("Vehicle with this license plate already exists")
    else if Filled(v.vin) && VinHeldByOther(vehicles, v) then
      Some("Vehicle with this VIN already exists")
    else if PlateHeldByOther(vehicles, v) || VinHeldByOther(vehicles, v) then
      Some("Failed to save vehicle: duplicate entry")
    else None
  }

  /** A save is refused exactly when a field check fails or the plate or VIN
      belongs to a different stored vehicle; re-saving a vehicle under its own
      id with its own plate and VIN is allowed. */
  lemma SaveRefusedIff(vehicles: map<nat, Vehicle>, v: Vehicle)
    ensures SaveError(vehicles, v).Some? <==>
      FieldError(v).Some? || PlateHeldByOther(vehicles, v) || VinHeldByOther(vehicles, v)
    ensures v.id.Some? && v.id.value in vehicles && FieldError(v).None? &&
            (forall id :: id in vehicles && id != v.id.value ==>
               (v.licensePlate.Some? ==> vehicles[id].licensePlate != v.licensePlate) &&
               (v.vin.Some? ==> vehicles[id].vin != v.vin))
            ==> SaveError(vehicles, v).None?
  {
  }

  /** The id a successful save stores under: the vehicle's own id when a row
      with that id exists, otherwise the next generated id. */
  function SaveTarget(vehicles: map<nat, Vehicle>, nextId: nat, v: Vehicle): nat
  {
    if v.id.Some? && v.id.value in vehicles then v.id.value else nextId
  }

  /** No two stored vehicles share a plate, nor a VIN (the unique columns). */
  ghost predicate UniqueKeys(vehicles: map<nat, Vehicle>)
  {
    forall i, j :: i in vehicles && j in vehicles && i != j ==>
      (vehicles[i].licensePlate.Some? ==> vehicles[i].licensePlate != vehicles[j].licensePlate) &&
      (vehicles[i].vin.Some? ==> vehicles[i].vin != vehicles[j].vin)
  }

  function IdsWithStatus(vehicles: map<nat, Vehicle>, status: string): (r: set<nat>)
    ensures r <= vehicles.Keys
    ensures forall id :: id in r <==> id in vehicles && vehicles[id].status == status
  {
    set id | id in vehicles && vehicles[id].status == status
  }

  /** `VehicleStatistics`. */
  datatype Statistics = Statistics(total: nat, available: nat, rented: nat, maintenance: nat, outOfService: nat)

  /** `getVehicleStatistics`: the row count and the count for each known status. */
  function StatisticsOf(vehicles: map<nat, Vehicle>): (s: Statistics)
  {
    Statistics(|vehicles|,
               |IdsWithStatus(vehicles, "Available")|,
               |IdsWithStatus(vehicles, "Rented")|,
               |IdsWithStatus(vehicles, "Maintenance")|,
               |IdsWithStatus(vehicles, "Out_of_Service")|)
  }

  lemma {:induction false} SubsetCardinality(a: set<nat>, b: set<nat>)
    requires a <= b
    ensures |a| <= |b|
    decreases |b|
  {
    if a != {} {
      var x :| x in a;
      SubsetCardinality(a - {x}, b - {x});
    }
  }

  /** Each vehicle is counted under at most one status, so the four counts
      never add up to more than the total. */
  lemma StatisticsBounded(vehicles: map<nat, Vehicle>)
    ensures var s := StatisticsOf(vehicles);
            s.available + s.rented + s.maintenance + s.outOfService <= s.total
  {
    var a := IdsWithStatus(vehicles, "Available");
    var r := IdsWithStatus(vehicles, "Rented");
    var m := IdsWithStatus(vehicles, "Maintenance");
    var o := IdsWithStatus(vehicles, "Out_of_Service");
    assert a * r == {} && (a + r) * m == {} && (a + r + m) * o == {};
    assert |a + r + m + o| == |a| + |r| + |m| + |o|;
    SubsetCardinality(a + r + m + o, vehicles.Keys);
  }

  /** The `vehicles` table and the service over it. */
  class VehicleService {
    var vehicles: map<nat, Vehicle>
    var nextId: nat

    /** Rows are stored under their own id, generated ids are fresh, and the
        unique columns hold. */
    ghost predicate Valid()
      reads this
    {
      (forall id :: id in vehicles ==> id < nextId && vehicles[id].id == Some(id)) &&
      UniqueKeys(vehicles)
    }

    constructor ()
      ensures Valid() && vehicles == map[]
    {
      vehicles, nextId := map[], 0;
    }

    /** `saveVehicle`: insert, or update the row with the vehicle's id. */
    method SaveVehicle(v: Vehicle) returns (r: Result<Vehicle>)
      requires Valid()
      modifies this
      ensures Valid()
      ensures r.Failure? <==> SaveError(old(vehicles), v).Some?
      ensures r.Failure? ==> r.error == SaveError(old(vehicles), v).value &&
                             vehicles == old(vehicles) && nextId == old(nextId)
      ensures r.Success? ==>
        var id := SaveTarget(old(vehicles), old(nextId), v);
        r.value == v.(id := Some(id)) && vehicles == old(vehicles)[id := r.value]
    {
      var err := SaveError(vehicles, v);
      if err.Some? {
        return Failure(err.value);
      }
      var id := SaveTarget(vehicles, nextId, v);
      var saved := v.(id := Some(id));
      SaveKeepsKeysUnique(vehicles, nextId, v);
      vehicles := vehicles[id := saved];
      if id == nextId {
        nextId := nextId + 1;
      }
      r := Success(saved);
    }

    /** `updateVehicleStatus`: only the status of an existing row changes. */
    method UpdateVehicleStatus(vehicleId: nat, status: string) returns (r: Result<Vehicle>)
      requires Valid()
      modifies this
      ensures Valid() && nextId == old(nextId)
      ensures r.Failure? <==> vehicleId !in old(vehicles)
      ensures r.Failure? ==> r.error == "Vehicle not found" && vehicles == old(vehicles)
      ensures r.Success? ==>
        r.value == old(vehicles)[vehicleId].(status := status) &&
        vehicles == old(vehicles)[vehicleId := r.value]
    {
      if vehicleId !in vehicles {
        return Failure("Vehicle not found");
      }
      var updated := vehicles[vehicleId].(status := status);
      vehicles := vehicles[vehicleId := updated];
      r := Success(updated);
    }

    /** `deleteVehicle`: remove an existing row. */
    method DeleteVehicle(vehicleId: nat) returns (r: Result<()>)
      requires Valid()
      modifies this
      ensures Valid() && nextId == old(nextId)
      ensures r.Failure? <==> vehicleId !in old(vehicles)
      ensures r.Failure? ==> r.error == "Vehicle not found" && vehicles == old(vehicles)
      ensures r.Success? ==> vehicles == old(vehicles) - {vehicleId}
    {
      if vehicleId !in vehicles {
        return Failure("Vehicle not found");
      }
      vehicles := vehicles - {vehicleId};
      r := Success(());
    }

    /** `getVehicleStatistics`. */
    function GetVehicleStatistics(): (s: Statistics)
      reads this
      ensures s.total == |vehicles|
      ensures s.available + s.rented + s.maintenance + s.outOfService <= s.total
    {
      StatisticsBounded(vehicles);
      StatisticsOf(vehicles)
    }
  }

  /** A save that passes every check keeps plates and VINs unique. */
  lemma SaveKeepsKeysUnique(vehicles: map<nat, Vehicle>, nextId: nat, v: Vehicle)
    requires forall id :: id in vehicles ==> id < nextId && vehicles[id].id == Some(id)
    requires UniqueKeys(vehicles)
    requires SaveError(vehicles, v).None?
    ensures var id := SaveTarget(vehicles, nextId, v);
            UniqueKeys(vehicles[id := v.(id := Some(id))])
  {
    var id := SaveTarget(vehicles, nextId, v);
    var m := vehicles[id := v.(id := Some(id))];
    forall i, j | i in m && j in m && i != j
      ensures (m[i].licensePlate.Some? ==> m[i].licensePlate != m[j].licensePlate) &&
              (m[i].vin.Some? ==> m[i].vin != m[j].vin)
    {
      if i == id {
        assert j in vehicles && Some(j) != v.id;
      } else if j == id {
        assert i in vehicles && Some(i) != v.id;
      }
    }
  }
}
