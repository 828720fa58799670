/** The vehicle change requests of `PendingVehicleController`: an ordinary
    administrator submits an ADD or REMOVE request, a super administrator
    approves it (which adds or deletes the vehicle through the vehicle
    service) or rejects it. The caller's identity, the clock and the uploaded
    images (already Base64 text) are parameters. */
module PendingVehicles {
  import opened Text
  import opened Vehicles

  /** The administrator behind the request, as found by email or username. */
  datatype Caller = Caller(id: nat, role: string)

  /** The answer of an endpoint: 200 with a message and the request id, or an
      error status with its message. */
  datatype Reply = Ok(message: string, requestId: Option<nat>) | Error(status: nat, error: string)

  /** The multipart form of the ADD endpoint; `None` is an absent parameter.
      An image is its Base64 text, so an empty upload is "". */
  datatype AddForm = AddForm(
    make: Option<string>,
    model: Option<string>,
    vehicleType: Option<string>,
    year: Option<int>,
    color: Option<string>,
    licensePlate: Option<string>,
    vin: Option<string>,
    fuelType: Option<string>,
    transmission: Option<string>,
    seatingCapacity: Option<int>,
    mileage: Option<int>,
    pricePerDay: Option<string>,
    location: Option<string>,
    description: Option<string>,
    features: Option<string>,
    image1: Option<string>,
    image2: Option<string>,
    image3: Option<string>)

  /** The JSON object stored in `vehicleData`; the optional keys are `None`
      when absent. */
  datatype VehicleData = VehicleData(
    make: string,
    model: string,
    vehicleType: string,
    year: int,
    color: string,
    licensePlate: string,
    vin: Option<string>,
    fuelType: string,
    transmission: string,
    seatingCapacity: int,
    mileage: Option<int>,
    pricePerDay: string,
    location: string,
    description: Option<string>,
    features: Option<string>,
    image1: string,
    image2: string,
    image3: string)

  /** A row of `pending_vehicle_changes`. */
  datatype PendingVehicleChange = PendingVehicleChange(
    id: Option<nat>,
    changeType: string,
    vehicleData: Option<VehicleData>,
    vehicleId: Option<nat>,
    requestedBy: nat,
    requestedAt: int,
    status: string,
    approvedBy: Option<nat>,
    approvedAt: Option<int>,
    rejectionReason: Option<string>)

  /** Non-empty text with no whitespace at either end, as `trim()` leaves it. */
  predicate Trimmed(s: string)
  {
    s != [] && !IsSpace(Java, s[0]) && !IsSpace(Java, s[|s| - 1])
  }

  /** The identity checks both submit endpoints make first. */
  function SubmitGuard(caller: Option<Caller>, superAdminMessage: string): (r: Option<Reply>)
    ensures r.None? <==> caller.Some? && caller.value.role != "SUPER_ADMIN"
    ensures r.Some? ==> r.value.Error? && r.value.status in {401, 403}
  {
    if caller.None? then Some(Error(401, "Admin not found"))
    else if caller.value.role == "SUPER_ADMIN" then Some(Error(403, superAdminMessage))
    else None
  }

  /** Why the ADD form is refused, if it is. */
  function FormError(f: AddForm): Option<string>
  {
    if !Filled(f.make) || !Filled(f.model) || !Filled(f.vehicleType) || f.year.None? ||
       !Filled(f.color) || !Filled(f.licensePlate) || !Filled(f.fuelType) ||
       !Filled(f.transmission) || f.seatingCapacity.None? || !Filled(f.pricePerDay) ||
       !Filled(f.location)
    then Some("All required fields must be provided")
    else if f.image1.None? || f.image1.value == [] || f.image2.None? || f.image2.value == [] ||
            f.image3.None? || f.image3.value == []
    then Some("All three vehicle images are required")
    else None
  }

  /** An optional text parameter kept only when it is not blank, trimmed. */
  function KeepIfFilled(s: Option<string>): (r: Option<string>)
    ensures r.Some? <==> Filled(s)
    ensures r.Some? ==> r.value == Trim(Java, s.value) && Trimmed(r.value)
  {
    if Filled(s) then Some(Trim(Java, s.value)) else None
  }

  /** The form is accepted exactly when every required text parameter is
      present and not blank, the year and seating capacity are present, and
      all three images are non-empty. */
  lemma FormAcceptedIff(f: AddForm)
    ensures FormError(f).None? <==>
      Filled(f.make) && Filled(f.model) && Filled(f.vehicleType) && f.year.Some? &&
      Filled(f.color) && Filled(f.licensePlate) && Filled(f.fuelType) &&
      Filled(f.transmission) && f.seatingCapacity.Some? && Filled(f.pricePerDay) &&
      Filled(f.location) &&
      f.image1.Some? && f.image1.value != [] && f.image2.Some? && f.image2.value != [] &&
      f.image3.Some? && f.image3.value != []
    ensures FormError(f) == Some("All three vehicle images are required") ==>
      Filled(f.make) && Filled(f.pricePerDay) && Filled(f.location)
  {
  }

  /** The JSON data an accepted form is stored as. */
  function DataOf(f: AddForm): VehicleData
    requires FormError(f).None?
  {
    VehicleData(
      Trim(Java, f.make.value), Trim(Java, f.model.value), Trim(Java, f.vehicleType.value),
      f.year.value, Trim(Java, f.color.value), Trim(Java, f.licensePlate.value), KeepIfFilled(f.vin),
      Trim(Java, f.fuelType.value), Trim(Java, f.transmission.value), f.seatingCapacity.value,
      f.mileage, f.pricePerDay.value, Trim(Java, f.location.value),
      KeepIfFilled(f.description), KeepIfFilled(f.features),
      f.image1.value, f.image2.value, f.image3.value)
  }

  /** The required text fields of the stored data are the sent texts
      trimmed, and non-empty, except the price, which is kept exactly as it
      was sent; an optional text field is present exactly when it was sent
      non-blank, and then it is the sent text trimmed. */
  lemma DataOfTrimmed(f: AddForm)
    requires FormError(f).None?
    ensures var d := DataOf(f);
      d.make == Trim(Java, f.make.value) && d.model == Trim(Java, f.model.value) &&
      d.vehicleType == Trim(Java, f.vehicleType.value) && d.color == Trim(Java, f.color.value) &&
      d.licensePlate == Trim(Java, f.licensePlate.value) && d.fuelType == Trim(Java, f.fuelType.value) &&
      d.transmission == Trim(Java, f.transmission.value) && d.location == Trim(Java, f.location.value) &&
      Trimmed(d.make) && Trimmed(d.model) && Trimmed(d.vehicleType) && Trimmed(d.color) &&
      Trimmed(d.licensePlate) && Trimmed(d.fuelType) && Trimmed(d.transmission) &&
      Trimmed(d.location) &&
      d.pricePerDay == f.pricePerDay.value &&
      (d.vin.Some? <==> Filled(f.vin)) && (d.vin.Some? ==> Trimmed(d.vin.value)) &&
      (d.vin.Some? ==> d.vin.value == Trim(Java, f.vin.value)) &&
      (d.description.Some? <==> Filled(f.description)) &&
      (d.description.Some? ==> d.description.value == Trim(Java, f.description.value)) &&
      (d.features.Some? <==> Filled(f.features)) &&
      (d.features.Some? ==> d.features.value == Trim(Java, f.features.value)) &&
      d.image1 == f.image1.value && d.image2 == f.image2.value && d.image3 == f.image3.value &&
      d.mileage == f.mileage && d.year == f.year.value && d.seatingCapacity == f.seatingCapacity.value
  {
  }

  /** The vehicle an approved ADD request creates, or `None` when its price
      cannot be read. */
  function VehicleOf(d: VehicleData): (r: Option<Vehicle>)
    ensures r.Some? <==> BigDecimalCents(d.pricePerDay).Some?
    ensures r.Some? ==>
      var v := r.value;
      v.id.None? && v.status == "Available" && v.pricePerDay == BigDecimalCents(d.pricePerDay) &&
      v.make == Some(d.make) && v.model == Some(d.model) && v.vehicleType == Some(d.vehicleType) &&
      v.year == Some(d.year) && v.licensePlate == Some(d.licensePlate) && v.vin == d.vin &&
      v.location == Some(d.location) && v.mileage == d.mileage &&
      v.color == Some(d.color) && v.fuelType == Some(d.fuelType) &&
      v.transmission == Some(d.transmission) && v.seatingCapacity == Some(d.seatingCapacity) &&
      v.description == d.description && v.features == d.features &&
      v.vehicleImage1 == Some(d.image1) && v.vehicleImage2 == Some(d.image2) &&
      v.vehicleImage3 == Some(d.image3)
  {
    match BigDecimalCents(d.pricePerDay)
    case None => None
    case Some(cents) =>
      Some(NewVehicle().(
        make := Some(d.make), model := Some(d.model), vehicleType := Some(d.vehicleType),
        year := Some(d.year), color := Some(d.color), licensePlate := Some(d.licensePlate),
        vin := d.vin, fuelType := Some(d.fuelType), transmission := Some(d.transmission),
        seatingCapacity := Some(d.seatingCapacity), mileage := d.mileage, pricePerDay := Some(cents),
        location := Some(d.location), description := d.description, features := d.features,
        vehicleImage1 := Some(d.image1), vehicleImage2 := Some(d.image2),
        vehicleImage3 := Some(d.image3)))
  }

  /** The checks approve and reject make before deciding: the request must
      exist and be PENDING, and the deciding administrator must be known. */
  function DecisionGuard(requests: map<nat, PendingVehicleChange>, requestId: nat,
                         decider: Option<nat>, failurePrefix: string): (r: Option<Reply>)
    ensures r.None? <==> requestId in requests && requests[requestId].status == "PENDING" && decider.Some?
    ensures requestId !in requests ==> r == Some(Error(404, "Pending request not found"))
    ensures requestId in requests && requests[requestId].status != "PENDING" ==>
              r == Some(Error(400, "Request is not in pending status"))
  {
    if requestId !in requests then Some(Error(404, "Pending request not found"))
    else if requests[requestId].status != "PENDING" then Some(Error(400, "Request is not in pending status"))
    else if decider.None? then Some(Error(500, failurePrefix))
    else None
  }

  /** Why carrying out an approved change fails, if it does. The exception
      text the platform adds to a failed price conversion is not modelled. */
  function OperationError(vehicles: map<nat, Vehicle>, c: PendingVehicleChange): (r: Option<string>)
    ensures c.changeType != "ADD" && c.changeType != "REMOVE" ==> r.None?
    ensures c.changeType == "REMOVE" && c.vehicleId.Some? ==>
              (r.None? <==> c.vehicleId.value in vehicles)
    ensures c.changeType == "ADD" && c.vehicleData.Some? ==>
              (r.None? <==> VehicleOf(c.vehicleData.value).Some? &&
                            SaveError(vehicles, VehicleOf(c.vehicleData.value).value).None?)
  {
    if c.changeType == "ADD" then
      if c.vehicleData.None? then Some("Failed to create vehicle: ")
      else match VehicleOf(c.vehicleData.value)
        case None => Some("Failed to create vehicle: ")
        case Some(v) =>
          if SaveError(vehicles, v).Some? then Some("Failed to create vehicle: " + SaveError(vehicles, v).value)
          else None
    else if c.changeType == "REMOVE" then
      if c.vehicleId.None? || c.vehicleId.value !in vehicles then Some("Failed to delete vehicle: Vehicle not found")
      else None
    else None
  }

  /** An ADD request whose stored price has a space at either end can never
      be approved; since the price is stored as it was sent (`DataOfTrimmed`),
      such a request passes submission and then stays PENDING. */
  lemma PaddedPriceBlocksApproval(vehicles: map<nat, Vehicle>, c: PendingVehicleChange)
    requires c.changeType == "ADD" && c.vehicleData.Some?
    requires var price := c.vehicleData.value.pricePerDay;
      price != [] && (price[0] == ' ' || price[|price| - 1] == ' ')
    ensures OperationError(vehicles, c).Some?
  {
  }

  /** A rejection reason is stored only when it is not blank, trimmed. */
  function StoredReason(reason: Option<string>, previous: Option<string>): (r: Option<string>)
    ensures Filled(reason) ==> r == Some(Trim(Java, reason.value)) && Trimmed(r.value)
    ensures !Filled(reason) ==> r == previous
  {
    if Filled(reason) then Some(Trim(Java, reason.value)) else previous
  }

  /** `new PendingVehicleChange(vehicleData, requestedBy)` stored under `id`. */
  function NewAddRequest(id: nat, data: VehicleData, requestedBy: nat, now: int): (c: PendingVehicleChange)
    ensures c.id == Some(id) && c.changeType == "ADD" && c.status == "PENDING"
    ensures c.vehicleData == Some(data) && c.vehicleId.None? && c.requestedBy == requestedBy
    ensures c.approvedBy.None? && c.approvedAt.None? && c.rejectionReason.None?
  {
    PendingVehicleChange(Some(id), "ADD", Some(data), None, requestedBy, now, "PENDING", None, None, None)
  }

  /** `new PendingVehicleChange(vehicleId, requestedBy)` stored under `id`. */
  function NewRemoveRequest(id: nat, vehicleId: nat, requestedBy: nat, now: int): (c: PendingVehicleChange)
    ensures c.id == Some(id) && c.changeType == "REMOVE" && c.status == "PENDING"
    ensures c.vehicleId == Some(vehicleId) && c.vehicleData.None? && c.requestedBy == requestedBy
    ensures c.approvedBy.None? && c.approvedAt.None? && c.rejectionReason.None?
  {
    PendingVehicleChange(Some(id), "REMOVE", None, Some(vehicleId), requestedBy, now, "PENDING", None, None, None)
  }

  /** Every row is stored under its own id; a decided row records who decided
      and when; an ADD row carries its data and a REMOVE row its vehicle. */
  ghost predicate WellFormed(requests: map<nat, PendingVehicleChange>, nextId: nat)
  {
    forall id :: id in requests ==>
      id < nextId && requests[id].id == Some(id) &&
      requests[id].status in {"PENDING", "APPROVED", "REJECTED"} &&
      (requests[id].status != "PENDING" ==> requests[id].approvedBy.Some? && requests[id].approvedAt.Some?) &&
      (requests[id].changeType == "ADD" ==> requests[id].vehicleData.Some?) &&
      (requests[id].changeType == "REMOVE" ==> requests[id].vehicleId.Some?)
  }

  /** Deciding a PENDING row keeps the table well formed. */
  lemma DecideKeepsWellFormed(requests: map<nat, PendingVehicleChange>, nextId: nat, id: nat,
                              status: string, decider: nat, at: int, reason: Option<string>)
    requires WellFormed(requests, nextId) && id in requests
    requires status == "APPROVED" || status == "REJECTED"
    ensures WellFormed(requests[id := requests[id].(status := status, approvedBy := Some(decider),
                                                    approvedAt := Some(at), rejectionReason := reason)], nextId)
  {
  }

  /** Storing a new PENDING row under the next id keeps the table well formed. */
  lemma SubmitKeepsWellFormed(requests: map<nat, PendingVehicleChange>, nextId: nat, c: PendingVehicleChange)
    requires WellFormed(requests, nextId)
    requires c.id == Some(nextId) && c.status == "PENDING"
    requires c.changeType == "ADD" ==> c.vehicleData.Some?
    requires c.changeType == "REMOVE" ==> c.vehicleId.Some?
    ensures WellFormed(requests[nextId := c], nextId + 1)
  {
  }

  /** The 403 texts for a super administrator using a request endpoint. */
  const DirectAddMessage := "Super admins should use direct add endpoint"
  const DirectRemoveMessage := "Super admins should use direct remove endpoint"

  /** The texts of the successful replies. */
  const AddSubmittedMessage := "Vehicle add request submitted for approval"
  const RemoveSubmittedMessage := "Vehicle remove request submitted for approval"
  const ApprovedMessage := "Vehicle change request approved successfully"
  const RejectedMessage := "Vehicle change request rejected"

  /** The prefixes of the 500 texts when a decision fails unexpectedly. */
  const ApproveFailurePrefix := "Failed to approve request: "
  const RejectFailurePrefix := "Failed to reject request: "

  /** The `pending_vehicle_changes` table, and the vehicle service the
      approvals act on. */
  class PendingVehicleController {
    var requests: map<nat, PendingVehicleChange>
    var nextId: nat
    const vehicleService: VehicleService

    ghost predicate Valid()
      reads this, vehicleService
    {
      WellFormed(requests, nextId) && vehicleService.Valid()
    }

    constructor (service: VehicleService)
      requires service.Valid()
      ensures Valid() && requests == map[] && vehicleService == service
    {
      requests, nextId, vehicleService := map[], 0, service;
    }

    /** `submitVehicleAddRequest` at time `now`. */
    method SubmitVehicleAddRequest(caller: Option<Caller>, form: AddForm, now: int) returns (reply: Reply)
      requires Valid()
      modifies this
      ensures Valid()
      ensures reply.Ok? <==>
        SubmitGuard(caller, DirectAddMessage).None? && FormError(form).None?
      ensures SubmitGuard(caller, DirectAddMessage).Some? ==>
        reply == SubmitGuard(caller, DirectAddMessage).value
      ensures SubmitGuard(caller, DirectAddMessage).None? && FormError(form).Some? ==>
        reply == Error(400, FormError(form).value)
      ensures reply.Error? ==> requests == old(requests) && nextId == old(nextId)
      ensures reply.Ok? ==>
        reply == Ok(AddSubmittedMessage, Some(old(nextId))) &&
        requests == old(requests)[old(nextId) := NewAddRequest(old(nextId), DataOf(form), caller.value.id, now)]
    {
      var guard := SubmitGuard(caller, DirectAddMessage);
      if guard.Some? {
        return guard.value;
      }
      var err := FormError(form);
      if err.Some? {
        return Error(400, err.value);
      }
      var change := NewAddRequest(nextId, DataOf(form), caller.value.id, now);
      SubmitKeepsWellFormed(requests, nextId, change);
      requests, nextId, reply := requests[nextId := change], nextId + 1, Ok(AddSubmittedMessage, Some(nextId));
    }

    /** `submitVehicleRemoveRequest` at time `now`; the vehicle is not looked
        up until approval. */
    method SubmitVehicleRemoveRequest(caller: Option<Caller>, vehicleId: nat, now: int) returns (reply: Reply)
      requires Valid()
      modifies this
      ensures Valid()
      ensures reply.Ok? <==> SubmitGuard(caller, DirectRemoveMessage).None?
      ensures reply.Error? ==>
        reply == SubmitGuard(caller, DirectRemoveMessage).value &&
        requests == old(requests) && nextId == old(nextId)
      ensures reply.Ok? ==>
        reply == Ok(RemoveSubmittedMessage, Some(old(nextId))) &&
        requests == old(requests)[old(nextId) := NewRemoveRequest(old(nextId), vehicleId, caller.value.id, now)]
    {
      var guard := SubmitGuard(caller, DirectRemoveMessage);
      if guard.Some? {
        return guard.value;
      }
      var change := NewRemoveRequest(nextId, vehicleId, caller.value.id, now);
      SubmitKeepsWellFormed(requests, nextId, change);
      requests := requests[nextId := change];
      reply := Ok(RemoveSubmittedMessage, Some(nextId));
      nextId := nextId + 1;
    }

    /** Saves the vehicle an ADD request describes. */
    method CreateVehicle(d: VehicleData) returns (err: Option<string>)
      requires vehicleService.Valid()
      modifies vehicleService
      ensures vehicleService.Valid()
      ensures err == (match VehicleOf(d)
                      case None => Some("Failed to create vehicle: ")
                      case Some(v) =>
                        if SaveError(old(vehicleService.vehicles), v).Some?
                        then Some("Failed to create vehicle: " + SaveError(old(vehicleService.vehicles), v).value)
                        else None)
      ensures err.Some? ==> vehicleService.vehicles == old(vehicleService.vehicles)
      ensures err.None? ==>
        var id := old(vehicleService.nextId);
        vehicleService.vehicles == old(vehicleService.vehicles)[id := VehicleOf(d).value.(id := Some(id))]
    {
      var vehicle := VehicleOf(d);
      if vehicle.None? {
        return Some("Failed to create vehicle: ");
      }
      var saved := vehicleService.SaveVehicle(vehicle.value);
      if saved.Failure? {
        return Some("Failed to create vehicle: " + saved.error);
      }
      err := None;
    }

    /** Deletes the vehicle a REMOVE request names. */
    method RemoveVehicle(vehicleId: nat) returns (err: Option<string>)
      requires vehicleService.Valid()
      modifies vehicleService
      ensures vehicleService.Valid()
      ensures err.Some? <==> vehicleId !in old(vehicleService.vehicles)
      ensures err.Some? ==> err.value == "Failed to delete vehicle: Vehicle not found" &&
                            vehicleService.vehicles == old(vehicleService.vehicles)
      ensures err.None? ==> vehicleService.vehicles == old(vehicleService.vehicles) - {vehicleId}
    {
      var deleted := vehicleService.DeleteVehicle(vehicleId);
      if deleted.Failure? {
        assert "Failed to delete vehicle: " + deleted.error == "Failed to delete vehicle: Vehicle not found";
        return Some("Failed to delete vehicle: " + deleted.error);
      }
      err := None;
    }

    /** The vehicle operation an approved request stands for: the vehicle an
        ADD describes is saved, the vehicle a REMOVE names is deleted. The
        failure text is the one `OperationError` gives, and a failure
        changes nothing. */
    method CarryOut(c: PendingVehicleChange) returns (err: Option<string>)
      requires vehicleService.Valid()
      requires c.changeType == "ADD" ==> c.vehicleData.Some?
      requires c.changeType == "REMOVE" ==> c.vehicleId.Some?
      modifies vehicleService
      ensures vehicleService.Valid()
      ensures err == OperationError(old(vehicleService.vehicles), c)
      ensures err.Some? ==> vehicleService.vehicles == old(vehicleService.vehicles)
      ensures err.None? ==>
        (c.changeType == "ADD" ==>
           var id := old(vehicleService.nextId);
           vehicleService.vehicles == old(vehicleService.vehicles)[id := VehicleOf(c.vehicleData.value).value.(id := Some(id))]) &&
        (c.changeType == "REMOVE" ==>
           vehicleService.vehicles == old(vehicleService.vehicles) - {c.vehicleId.value}) &&
        (c.changeType != "ADD" && c.changeType != "REMOVE" ==>
           vehicleService.vehicles == old(vehicleService.vehicles))
    {
      if c.changeType == "ADD" {
        err := CreateVehicle(c.vehicleData.value);
      } else if c.changeType == "REMOVE" {
        err := RemoveVehicle(c.vehicleId.value);
      } else {
        err := None;
      }
    }

    /** `approvePendingRequest` by the administrator `approver` (`None` when
        no account matches the caller) at time `now`. The request is stored
        as APPROVED only when its change was carried out; otherwise nothing
        changes. */
    method ApprovePendingRequest(requestId: nat, approver: Option<nat>, now: int) returns (reply: Reply)
      requires Valid()
      modifies this, vehicleService
      ensures Valid() && nextId == old(nextId)
      ensures reply.Ok? <==>
        DecisionGuard(old(requests), requestId, approver, ApproveFailurePrefix).None? &&
        OperationError(old(vehicleService.vehicles), old(requests)[requestId]).None?
      ensures DecisionGuard(old(requests), requestId, approver, ApproveFailurePrefix).Some? ==>
        reply == DecisionGuard(old(requests), requestId, approver, ApproveFailurePrefix).value
      ensures DecisionGuard(old(requests), requestId, approver, ApproveFailurePrefix).None? &&
              OperationError(old(vehicleService.vehicles), old(requests)[requestId]).Some? ==>
        reply == Error(500, OperationError(old(vehicleService.vehicles), old(requests)[requestId]).value)
      ensures reply.Error? ==>
        requests == old(requests) && vehicleService.vehicles == old(vehicleService.vehicles)
      ensures reply.Ok? ==>
        var c := old(requests)[requestId];
        reply == Ok(ApprovedMessage, Some(requestId)) &&
        requests == old(requests)[requestId := c.(status := "APPROVED", approvedBy := approver, approvedAt := Some(now))] &&
        (c.changeType == "ADD" ==>
           var id := old(vehicleService.nextId);
           vehicleService.vehicles == old(vehicleService.vehicles)[id := VehicleOf(c.vehicleData.value).value.(id := Some(id))]) &&
        (c.changeType == "REMOVE" ==>
           vehicleService.vehicles == old(vehicleService.vehicles) - {c.vehicleId.value}) &&
        (c.changeType != "ADD" && c.changeType != "REMOVE" ==>
           vehicleService.vehicles == old(vehicleService.vehicles))
    {
      var guard := DecisionGuard(requests, requestId, approver, ApproveFailurePrefix);
      if guard.Some? {
        return guard.value;
      }
      var c := requests[requestId];
      var err := CarryOut(c);
      if err.Some? {
        return Error(500, err.value);
      }
      DecideKeepsWellFormed(requests, nextId, requestId, "APPROVED", approver.value, now, c.rejectionReason);
      requests := requests[requestId := c.(status := "APPROVED", approvedBy := approver, approvedAt := Some(now))];
      reply := Ok(ApprovedMessage, Some(requestId));
    }

    /** `rejectPendingRequest` with the body's `reason`, by `rejecter` at
        time `now`. */
    method RejectPendingRequest(requestId: nat, reason: Option<string>, rejecter: Option<nat>, now: int)
      returns (reply: Reply)
      requires Valid()
      modifies this
      ensures Valid() && nextId == old(nextId)
      ensures reply.Ok? <==> DecisionGuard(old(requests), requestId, rejecter, RejectFailurePrefix).None?
      ensures reply.Error? ==>
        reply == DecisionGuard(old(requests), requestId, rejecter, RejectFailurePrefix).value &&
        requests == old(requests)
      ensures reply.Ok? ==>
        var c := old(requests)[requestId];
        reply == Ok(RejectedMessage, Some(requestId)) &&
        requests == old(requests)[requestId := c.(status := "REJECTED", approvedBy := rejecter,
                                                  approvedAt := Some(now),
                                                  rejectionReason := StoredReason(reason, c.rejectionReason))]
    {
      var guard := DecisionGuard(requests, requestId, rejecter, RejectFailurePrefix);
      if guard.Some? {
        return guard.value;
      }
      var c := requests[requestId];
      var stored := StoredReason(reason, c.rejectionReason);
      DecideKeepsWellFormed(requests, nextId, requestId, "REJECTED", rejecter.value, now, stored);
      requests := requests[requestId := c.(status := "REJECTED", approvedBy := rejecter,
                                           approvedAt := Some(now), rejectionReason := stored)];
      reply := Ok(RejectedMessage, Some(requestId));
    }
  }
}
