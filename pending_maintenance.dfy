/** The maintenance-record requests of `PendingMaintenanceController`: an
    ordinary administrator submits a record, which gets defaults for its next
    service date and its status; a super administrator approves it (which
    creates the maintenance record) or rejects it. Dates are calendar dates;
    the clock, the caller and the receipt compressor are parameters. */
module PendingMaintenance {
  import opened Text
  import opened Vehicles
  import opened PendingVehicles

  /** A `LocalDate` (the records keep `atStartOfDay()` of one). */
  datatype Date = Date(year: int, month: int, day: int)

  predicate IsLeapYear(year: int)
  {
    year % 4 == 0 && (year % 100 != 0 || year % 400 == 0)
  }

  function DaysInMonth(year: int, month: int): (n: int)
    ensures 28 <= n <= 31
  {
    if month == 2 then (if IsLeapYear(year) then 29 else 28)
    else if month == 4 || month == 6 || month == 9 || month == 11 then 30
    else 31
  }

  predicate ValidDate(d: Date)
  {
    1 <= d.month <= 12 && 1 <= d.day <= DaysInMonth(d.year, d.month)
  }

  /** Months counted from January of year 0. */
  function MonthIndex(d: Date): int
  {
    d.year * 12 + d.month - 1
  }

  /** `LocalDate.parse` of ISO text `YYYY-MM-DD` with a four-digit year;
      impossible dates such as 2023-02-29 are refused. */
  function ParseIsoDate(s: string): (r: Option<Date>)
    ensures r.Some? ==> ValidDate(r.value) && 0 <= r.value.year <= 9999
  {
    if |s| == 10 && s[4] == '-' && s[7] == '-' &&
       AllDigits(s[..4]) && AllDigits(s[5..7]) && AllDigits(s[8..])
    then
      DigitsValueBound(s[..4]);
      assert Pow10(4) == 10000;
      var d := Date(DigitsValue(s[..4]), DigitsValue(s[5..7]), DigitsValue(s[8..]));
      if ValidDate(d) then Some(d) else None
    else None
  }

  /** The ISO text of a date with a four-digit year. */
  function FormatIsoDate(d: Date): (s: string)
    requires ValidDate(d) && 0 <= d.year <= 9999
  {
    assert Pow10(2) == 100 && Pow10(4) == 10000;
    PadNat(d.year, 4) + "-" + PadNat(d.month, 2) + "-" + PadNat(d.day, 2)
  }

  /** Formatting a date and parsing the text gives the date back. */
  lemma IsoDateRoundTrip(d: Date)
    requires ValidDate(d) && 0 <= d.year <= 9999
    ensures ParseIsoDate(FormatIsoDate(d)) == Some(d)
  {
    assert Pow10(2) == 100 && Pow10(4) == 10000;
    var s := FormatIsoDate(d);
    assert s[..4] == PadNat(d.year, 4);
    assert s[5..7] == PadNat(d.month, 2);
    assert s[8..] == PadNat(d.day, 2);
  }

  /** Parsing accepts only the canonical text: a parsed date formats back to
      exactly the text it came from. */
  lemma IsoDateCanonical(s: string)
    requires ParseIsoDate(s).Some?
    ensures FormatIsoDate(ParseIsoDate(s).value) == s
  {
    var d := ParseIsoDate(s).value;
    assert Pow10(2) == 100 && Pow10(4) == 10000;
    DigitsValueInjective(PadNat(d.year, 4), s[..4]);
    DigitsValueInjective(PadNat(d.month, 2), s[5..7]);
    DigitsValueInjective(PadNat(d.day, 2), s[8..]);
    assert s == s[..4] + "-" + s[5..7] + "-" + s[8..];
  }

  function Min(a: int, b: int): int
  {
    if a <= b then a else b
  }

  /** `LocalDate.plusMonths(k)`: the month advances by `k` (carrying into the
      year) and the day is clamped to the last day of the resulting month. */
  function PlusMonths(d: Date, k: nat): (r: Date)
    requires ValidDate(d)
    ensures ValidDate(r)
    ensures MonthIndex(r) == MonthIndex(d) + k
    ensures r.day <= d.day
    ensures d.day <= DaysInMonth(r.year, r.month) ==> r.day == d.day
    ensures d.day > DaysInMonth(r.year, r.month) ==> r.day == DaysInMonth(r.year, r.month)
  {
    var total := MonthIndex(d) + k;
    var y := total / 12;
    var m := total % 12 + 1;
    Date(y, m, Min(d.day, DaysInMonth(y, m)))
  }

  /** The multipart form of the submit endpoint; `None` is an absent
      parameter. The receipt is its Base64 text, so an empty upload is "". */
  datatype MaintenanceForm = MaintenanceForm(
    carId: Option<nat>,
    maintenanceType: Option<string>,
    description: Option<string>,
    cost: Option<string>,
    date: Option<string>,
    nextDate: Option<string>,
    mechanic: Option<string>,
    status: Option<string>,
    notes: Option<string>,
    mileage: Option<int>,
    receipt: Option<string>)

  /** A row of `pending_maintenance_records`; money is in cents. */
  datatype PendingMaintenanceRecord = PendingMaintenanceRecord(
    id: Option<nat>,
    carId: nat,
    maintenanceType: string,
    description: Option<string>,
    cost: Option<int>,
    date: Date,
    nextDate: Date,
    mechanic: Option<string>,
    status: string,
    notes: Option<string>,
    mileage: Option<int>,
    receipt: Option<string>,
    requestedBy: nat,
    requestedAt: int,
    approvalStatus: string,
    approvedBy: Option<nat>,
    approvedAt: Option<int>,
    rejectionReason: Option<string>)

  /** A row of `maintenance_records`. */
  datatype MaintenanceRecord = MaintenanceRecord(
    id: Option<nat>,
    carId: nat,
    maintenanceType: string,
    description: Option<string>,
    cost: Option<int>,
    date: Date,
    nextDate: Date,
    mechanic: Option<string>,
    status: string,
    notes: Option<string>,
    mileage: Option<int>,
    receipt: Option<string>,
    completedAt: int)

  /** What submitting a form produces: an error reply, or the row to store. */
  datatype Submission = Refused(reply: Reply) | Built(request: PendingMaintenanceRecord)

  /** The parsed cost, when one was sent. */
  function CostOf(cost: Option<string>): Option<Option<int>>
  {
    if !Filled(cost) then Some(None)
    else match BigDecimalCents(cost.value)
      case None => None
      case Some(c) => Some(Some(c))
  }

  /** The next service date: the one sent, or three months after `date`. */
  function NextDateOf(nextDate: Option<string>, date: Date): Option<Date>
    requires ValidDate(date)
  {
    if !Filled(nextDate) then Some(PlusMonths(date, 3))
    else ParseIsoDate(nextDate.value)
  }

  /** The receipt to store: none when absent or empty, otherwise the output of
      `compress`, whose failure refuses the submission. */
  function ReceiptOf(receipt: Option<string>, compress: string -> Option<string>): Option<Option<string>>
  {
    if receipt.None? || receipt.value == [] then Some(None)
    else match compress(receipt.value)
      case None => None
      case Some(r) => Some(Some(r))
  }

  /** `submitMaintenanceRequest` after the caller checks, by `requestedBy` at
      time `now`. Conversions of the cost and the dates work on the text as
      sent; the platform's exception text after the 500 prefix is not
      modelled. */
  function Submit(f: MaintenanceForm, requestedBy: nat, now: int, compress: string -> Option<string>): Submission
  {
    if f.carId.None? || !Filled(f.maintenanceType) || !Filled(f.date) then
      Refused(Error(400, "Car ID, type, and date are required"))
    else if CostOf(f.cost).None? || ParseIsoDate(f.date.value).None? then
      Refused(Error(500, "Failed to submit maintenance request: "))
    else
      var date := ParseIsoDate(f.date.value).value;
      if NextDateOf(f.nextDate, date).None? then
        Refused(Error(500, "Failed to submit maintenance request: "))
      else if ReceiptOf(f.receipt, compress).None? then
        Refused(Error(400, "Failed to process receipt image"))
      else
        Built(PendingMaintenanceRecord(
          None, f.carId.value, Trim(Java, f.maintenanceType.value), KeepIfFilled(f.description),
          CostOf(f.cost).value, date, NextDateOf(f.nextDate, date).value, KeepIfFilled(f.mechanic),
          if Filled(f.status) then Trim(Java, f.status.value) else "Completed",
          KeepIfFilled(f.notes), f.mileage, ReceiptOf(f.receipt, compress).value,
          requestedBy, now, "PENDING", None, None, None))
  }

  /** A built request is PENDING, has the sent type trimmed, valid dates, the
      status sent (trimmed) or "Completed", and without a next date the one three
      months after the service date, clamped to the end of that month. */
  lemma SubmitDefaults(f: MaintenanceForm, requestedBy: nat, now: int, compress: string -> Option<string>)
    requires Submit(f, requestedBy, now, compress).Built?
    ensures var q := Submit(f, requestedBy, now, compress).request;
      q.approvalStatus == "PENDING" && q.id.None? && q.requestedBy == requestedBy &&
      q.carId == f.carId.value &&
      q.description == KeepIfFilled(f.description) && q.mechanic == KeepIfFilled(f.mechanic) &&
      q.notes == KeepIfFilled(f.notes) && Some(q.cost) == CostOf(f.cost) && q.mileage == f.mileage &&
      Some(q.receipt) == ReceiptOf(f.receipt, compress) &&
      q.maintenanceType == Trim(Java, f.maintenanceType.value) && Trimmed(q.maintenanceType) &&
      ValidDate(q.date) && ValidDate(q.nextDate) &&
      Some(q.date) == ParseIsoDate(f.date.value) &&
      (Filled(f.status) ==> q.status == Trim(Java, f.status.value) && Trimmed(q.status)) &&
      (!Filled(f.status) ==> q.status == "Completed") &&
      (!Filled(f.nextDate) ==>
         MonthIndex(q.nextDate) == MonthIndex(q.date) + 3 && q.nextDate.day <= q.date.day) &&
      (Filled(f.nextDate) ==> Some(q.nextDate) == ParseIsoDate(f.nextDate.value))
  {
    var date := ParseIsoDate(f.date.value).value;
    if !Filled(f.nextDate) {
      var n := PlusMonths(date, 3);
      assert NextDateOf(f.nextDate, date) == Some(n);
    }
  }

  /** The part of `SubmitDefaults` the request table relies on. */
  lemma SubmitBuildsPending(f: MaintenanceForm, requestedBy: nat, now: int, compress: string -> Option<string>)
    requires Submit(f, requestedBy, now, compress).Built?
    ensures var q := Submit(f, requestedBy, now, compress).request;
      q.approvalStatus == "PENDING" && ValidDate(q.date) && ValidDate(q.nextDate)
  {
    SubmitDefaults(f, requestedBy, now, compress);
  }

  /** A submission is refused exactly when the car, type or date is missing,
      or a cost, date, next date or receipt cannot be converted. */
  lemma SubmitRefusedIff(f: MaintenanceForm, requestedBy: nat, now: int, compress: string -> Option<string>)
    ensures Submit(f, requestedBy, now, compress).Refused? <==>
      f.carId.None? || !Filled(f.maintenanceType) || !Filled(f.date) ||
      (Filled(f.cost) && BigDecimalCents(f.cost.value).None?) ||
      ParseIsoDate(f.date.value).None? ||
      (Filled(f.nextDate) && ParseIsoDate(f.nextDate.value).None?) ||
      (f.receipt.Some? && f.receipt.value != [] && compress(f.receipt.value).None?)
    ensures f.carId.None? || !Filled(f.maintenanceType) || !Filled(f.date) ==>
      Submit(f, requestedBy, now, compress) == Refused(Error(400, "Car ID, type, and date are required"))
  {
  }

  /** `new MaintenanceRecord(pending)` at time `now`. */
  function RecordOf(q: PendingMaintenanceRecord, now: int): (r: MaintenanceRecord)
    ensures r.id.None? && r.completedAt == now
  {
    MaintenanceRecord(None, q.carId, q.maintenanceType, q.description, q.cost, q.date, q.nextDate,
                      q.mechanic, q.status, q.notes, q.mileage, q.receipt, now)
  }

  /** The record of an approved request repeats every maintenance field of
      the request. */
  predicate CopiesRequest(r: MaintenanceRecord, q: PendingMaintenanceRecord)
  {
    r.carId == q.carId && r.maintenanceType == q.maintenanceType && r.description == q.description &&
    r.cost == q.cost && r.date == q.date && r.nextDate == q.nextDate && r.mechanic == q.mechanic &&
    r.status == q.status && r.notes == q.notes && r.mileage == q.mileage && r.receipt == q.receipt
  }

  /** The approve and reject guards: the request must exist and be PENDING,
      and the deciding administrator must be known. */
  function ReviewGuard(requests: map<nat, PendingMaintenanceRecord>, requestId: nat,
                         decider: Option<nat>, failurePrefix: string): (r: Option<Reply>)
    ensures r.None? <==> requestId in requests && requests[requestId].approvalStatus == "PENDING" && decider.Some?
    ensures requestId !in requests ==> r == Some(Error(404, "Pending request not found"))
    ensures requestId in requests && requests[requestId].approvalStatus != "PENDING" ==>
              r == Some(Error(400, "Request is not in pending status"))
  {
    if requestId !in requests then Some(Error(404, "Pending request not found"))
    else if requests[requestId].approvalStatus != "PENDING" then Some(Error(400, "Request is not in pending status"))
    else if decider.None? then Some(Error(500, failurePrefix))
    else None
  }

  /** Every request row is stored under its own id with valid dates; a
      decided row records who decided and when. */
  ghost predicate RequestsWellFormed(requests: map<nat, PendingMaintenanceRecord>, nextId: nat)
  {
    forall id :: id in requests ==>
      id < nextId && requests[id].id == Some(id) &&
      ValidDate(requests[id].date) && ValidDate(requests[id].nextDate) &&
      requests[id].approvalStatus in {"PENDING", "APPROVED", "REJECTED"} &&
      (requests[id].approvalStatus != "PENDING" ==>
         requests[id].approvedBy.Some? && requests[id].approvedAt.Some?)
  }

  /** Every maintenance record comes from an APPROVED request whose fields it
      repeats. */
  ghost predicate RecordsTraced(records: map<nat, MaintenanceRecord>, nextId: nat,
                                origin: map<nat, nat>, requests: map<nat, PendingMaintenanceRecord>)
  {
    forall rid :: rid in records ==>
      rid < nextId && records[rid].id == Some(rid) &&
      rid in origin && origin[rid] in requests &&
      requests[origin[rid]].approvalStatus == "APPROVED" &&
      CopiesRequest(records[rid], requests[origin[rid]])
  }

  /** Deciding a PENDING request keeps the tables consistent: records only
      point at requests that were already APPROVED, and those do not change. */
  lemma DecideKeepsInvariants(requests: map<nat, PendingMaintenanceRecord>, nextId: nat,
                              records: map<nat, MaintenanceRecord>, nextRecordId: nat,
                              origin: map<nat, nat>, id: nat, q: PendingMaintenanceRecord)
    requires RequestsWellFormed(requests, nextId) && RecordsTraced(records, nextRecordId, origin, requests)
    requires id in requests && requests[id].approvalStatus == "PENDING"
    requires q == requests[id].(approvalStatus := q.approvalStatus, approvedBy := q.approvedBy,
                                approvedAt := q.approvedAt, rejectionReason := q.rejectionReason)
    requires q.approvalStatus in {"APPROVED", "REJECTED"} && q.approvedBy.Some? && q.approvedAt.Some?
    ensures RequestsWellFormed(requests[id := q], nextId)
    ensures RecordsTraced(records, nextRecordId, origin, requests[id := q])
  {
    forall rid | rid in records
      ensures origin[rid] != id
    {
      assert requests[origin[rid]].approvalStatus == "APPROVED";
    }
  }

  /** The text of a successful submission. */
  const SubmittedMessage := "Maintenance record request submitted for approval"

  /** Storing a new PENDING request under the next id keeps the tables
      consistent: no record points at it. */
  lemma AddKeepsInvariants(requests: map<nat, PendingMaintenanceRecord>, nextId: nat,
                           records: map<nat, MaintenanceRecord>, nextRecordId: nat,
                           origin: map<nat, nat>, q: PendingMaintenanceRecord)
    requires RequestsWellFormed(requests, nextId) && RecordsTraced(records, nextRecordId, origin, requests)
    requires q.id == Some(nextId) && q.approvalStatus == "PENDING" && ValidDate(q.date) && ValidDate(q.nextDate)
    ensures RequestsWellFormed(requests[nextId := q], nextId + 1)
    ensures RecordsTraced(records, nextRecordId, origin, requests[nextId := q])
  {
    assert nextId !in requests;
    forall rid | rid in records
      ensures origin[rid] != nextId
    {
    }
  }

  /** The pending requests, the maintenance records and the receipt
      compressor. */
  class PendingMaintenanceController {
    var requests: map<nat, PendingMaintenanceRecord>
    var nextId: nat
    var records: map<nat, MaintenanceRecord>
    var nextRecordId: nat
    /** For each maintenance record, the request it was created from. */
    ghost var origin: map<nat, nat>
    /** `imageCompressionService.compressBase64Image`; `None` when it throws. */
    const compress: string -> Option<string>

    ghost predicate Valid()
      reads this
    {
      RequestsWellFormed(requests, nextId) && RecordsTraced(records, nextRecordId, origin, requests)
    }

    constructor (compress0: string -> Option<string>)
      ensures Valid() && requests == map[] && records == map[] && compress == compress0
    {
      requests, nextId, records, nextRecordId := map[], 0, map[], 0;
      origin := map[];
      compress := compress0;
    }

    /** `submitMaintenanceRequest` by `caller` at time `now`. */
    method SubmitMaintenanceRequest(caller: Option<Caller>, f: MaintenanceForm, now: int) returns (reply: Reply)
      requires Valid()
      modifies this
      ensures Valid() && records == old(records)
      ensures SubmitGuard(caller, DirectAddMessage).Some? ==>
        reply == SubmitGuard(caller, DirectAddMessage).value &&
        requests == old(requests)
      ensures SubmitGuard(caller, DirectAddMessage).None? ==>
        match Submit(f, caller.value.id, now, compress)
        case Refused(error) => reply == error && requests == old(requests)
        case Built(q) =>
          reply == Ok(SubmittedMessage, Some(old(nextId))) &&
          requests == old(requests)[old(nextId) := q.(id := Some(old(nextId)))]
    {
      var guard := SubmitGuard(caller, DirectAddMessage);
      if guard.Some? {
        return guard.value;
      }
      var submission := Submit(f, caller.value.id, now, compress);
      if submission.Refused? {
        return submission.reply;
      }
      SubmitBuildsPending(f, caller.value.id, now, compress);
      var q := submission.request.(id := Some(nextId));
      AddKeepsInvariants(requests, nextId, records, nextRecordId, origin, q);
      requests := requests[nextId := q];
      reply := Ok(SubmittedMessage, Some(nextId));
      nextId := nextId + 1;
    }

    /** `approvePendingMaintenanceRequest` by `approver` at time `now`: the
        request becomes APPROVED and a maintenance record copying it is
        created. */
    method ApprovePendingMaintenanceRequest(requestId: nat, approver: Option<nat>, now: int)
      returns (reply: Reply, recordId: Option<nat>)
      requires Valid()
      modifies this
      ensures Valid() && nextId == old(nextId)
      ensures reply.Ok? <==> ReviewGuard(old(requests), requestId, approver, "Failed to approve request: ").None?
      ensures reply.Error? ==>
        reply == ReviewGuard(old(requests), requestId, approver, "Failed to approve request: ").value &&
        recordId.None? && requests == old(requests) && records == old(records)
      ensures reply.Ok? ==>
        var q := old(requests)[requestId].(approvalStatus := "APPROVED", approvedBy := approver,
                                           approvedAt := Some(now));
        reply == Ok("Maintenance request approved successfully", Some(requestId)) &&
        recordId == Some(old(nextRecordId)) &&
        requests == old(requests)[requestId := q] &&
        records == old(records)[old(nextRecordId) := RecordOf(q, now).(id := Some(old(nextRecordId)))]
    {
      var guard := ReviewGuard(requests, requestId, approver, "Failed to approve request: ");
      if guard.Some? {
        return guard.value, None;
      }
      var q := requests[requestId].(approvalStatus := "APPROVED", approvedBy := approver, approvedAt := Some(now));
      DecideKeepsInvariants(requests, nextId, records, nextRecordId, origin, requestId, q);
      requests := requests[requestId := q];
      var record := RecordOf(q, now).(id := Some(nextRecordId));
      records := records[nextRecordId := record];
      origin := origin[nextRecordId := requestId];
      reply, recordId := Ok("Maintenance request approved successfully", Some(requestId)), Some(nextRecordId);
      nextRecordId := nextRecordId + 1;
    }

    /** `rejectPendingMaintenanceRequest` with the body's `reason`, by
        `rejecter` at time `now`. */
    method RejectPendingMaintenanceRequest(requestId: nat, reason: Option<string>, rejecter: Option<nat>, now: int)
      returns (reply: Reply)
      requires Valid()
      modifies this
      ensures Valid() && nextId == old(nextId) && records == old(records)
      ensures reply.Ok? <==> ReviewGuard(old(requests), requestId, rejecter, "Failed to reject request: ").None?
      ensures reply.Error? ==>
        reply == ReviewGuard(old(requests), requestId, rejecter, "Failed to reject request: ").value &&
        requests == old(requests)
      ensures reply.Ok? ==>
        var q := old(requests)[requestId];
        reply == Ok("Maintenance request rejected", Some(requestId)) &&
        requests == old(requests)[requestId := q.(approvalStatus := "REJECTED", approvedBy := rejecter,
                                                  approvedAt := Some(now),
                                                  rejectionReason := StoredReason(reason, q.rejectionReason))]
    {
      var guard := ReviewGuard(requests, requestId, rejecter, "Failed to reject request: ");
      if guard.Some? {
        return guard.value;
      }
      var before := requests[requestId];
      var q := before.(approvalStatus := "REJECTED", approvedBy := rejecter, approvedAt := Some(now),
                      rejectionReason := StoredReason(reason, before.rejectionReason));
      DecideKeepsInvariants(requests, nextId, records, nextRecordId, origin, requestId, q);
      requests := requests[requestId := q];
      reply := Ok("Maintenance request rejected", Some(requestId));
    }
  }
}
