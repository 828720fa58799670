/** The client-side checks of the add-vehicle form (`AddVehicleManager`):
    the field validators, `validateForm`, the gate in front of the upload and
    the image size guard. Field values are the text the inputs hold; the
    current year is a parameter. */
module VehicleForm {
  import opened Text

  /** A chosen image file; only its size matters here. */
  datatype ImageFile = ImageFile(name: string, size: nat)

  /** The form state `newVehicle`. */
  datatype NewVehicle = NewVehicle(
    licensePlate: string,
    make: string,
    model: string,
    year: string,
    vehicleType: string,
    color: string,
    vin: string,
    fuelType: string,
    transmission: string,
    seatingCapacity: string,
    mileage: string,
    pricePerDay: string,
    location: string,
    description: string,
    features: string,
    vehicleImage1: Option<ImageFile>,
    vehicleImage2: Option<ImageFile>,
    vehicleImage3: Option<ImageFile>)

  /** The empty form the page starts with. */
  const EmptyForm := NewVehicle("", "", "", "", "", "", "", "", "", "", "", "", "", "", "", None, None, None)

  /** `/^[A-Za-z]{2}\s\d{3}$/`: two letters, one whitespace character, three
      digits. */
  predicate ValidLicensePlate(plate: string)
  {
    |plate| == 6 && IsAsciiLetter(plate[0]) && IsAsciiLetter(plate[1]) && IsJsSpace(plate[2]) &&
    IsDigit(plate[3]) && IsDigit(plate[4]) && IsDigit(plate[5])
  }

  /** A character of `[A-HJ-NPR-Z0-9]` under the `i` flag: a digit or a
      letter other than I, O and Q in either case. */
  predicate IsVinChar(c: char)
  {
    IsDigit(c) ||
    (IsAsciiLetter(c) && LowerChar(c) != 'i' && LowerChar(c) != 'o' && LowerChar(c) != 'q')
  }

  /** `validateVin`: empty, or exactly 17 VIN characters. */
  predicate ValidVin(vin: string)
  {
    vin == [] || (|vin| == 17 && forall i :: 0 <= i < |vin| ==> IsVinChar(vin[i]))
  }

  /** Case does not matter to the VIN check. */
  lemma VinIgnoresCase(vin: string)
    ensures ValidVin(vin) <==> ValidVin(Lower(vin))
  {
    assert forall c :: IsVinChar(c) <==> IsVinChar(LowerChar(c));
  }

  /** `validateYear`: `parseInt(year)` lies in [1900, currentYear]; text that
      does not start with a number fails. */
  predicate ValidYear(year: string, currentYear: int)
  {
    ParseInt(year).Some? && 1900 <= ParseInt(year).value <= currentYear
  }

  /** `validatePrice`: `parseFloat(price)` lies in (0, 10000]. */
  predicate ValidPrice(price: string)
  {
    ParseFloat(price).Some? && 0.0 < ParseFloat(price).value <= 10000.0
  }

  /** `validateSeatingCapacity`: `parseInt(capacity)` lies in [2, 50]. */
  predicate ValidSeatingCapacity(capacity: string)
  {
    ParseInt(capacity).Some? && 2 <= ParseInt(capacity).value <= 50
  }

  /** `validateMileage`: empty, or `parseInt(mileage)` in [0, 500000]. */
  predicate ValidMileage(mileage: string)
  {
    mileage == [] || (ParseInt(mileage).Some? && 0 <= ParseInt(mileage).value <= 500000)
  }

  const VehicleTypes: seq<string> := ["Sedan", "SUV", "Truck", "Van"]
  const FuelTypes: seq<string> := ["Petrol", "Diesel", "Electric", "Hybrid"]
  const Transmissions: seq<string> := ["Automatic", "Manual"]
  const Locations: seq<string> := ["Suva", "Nadi", "Lautoka"]

  /** One entry of the errors object: the field and its message. */
  datatype FieldError = FieldError(field: Field, message: string)

  /** The keys of the errors object. */
  datatype Field = LicensePlate | Vin | Year | PricePerDay | SeatingCapacity | Mileage
                 | VehicleType | FuelType | Transmission | Location

  /** The entry for one check: nothing when it passes. */
  function Check(ok: bool, field: Field, message: string): (r: seq<FieldError>)
    ensures ok <==> r == []
  {
    if ok then [] else [FieldError(field, message)]
  }

  /** The keys in the order `validateForm` checks them. */
  const CheckOrder: seq<Field> :=
    [LicensePlate, Vin, Year, PricePerDay, SeatingCapacity, Mileage,
     VehicleType, FuelType, Transmission, Location]

  lemma CheckOrderComplete(field: Field)
    ensures field in CheckOrder
  {
  }

  /** The message of each key of the errors object. */
  function Message(field: Field): string
  {
    match field
    case LicensePlate => "License plate must be in format: AB 123"
    case Vin => "VIN must be 17 alphanumeric characters"
    case Year => "Year must be between 1900 and current year"
    case PricePerDay => "Price per day must be greater than 0 and up to 10,000 FJD"
    case SeatingCapacity => "Seating capacity must be between 2 and 50"
    case Mileage => "Mileage must be between 0 and 500,000 km"
    case VehicleType => "Vehicle type must be Sedan, SUV, Truck, or Van"
    case FuelType => "Fuel type must be Petrol, Diesel, Electric, or Hybrid"
    case Transmission => "Transmission must be Automatic or Manual"
    case Location => "Location must be Suva, Nadi, or Lautoka"
  }

  /** The outcome of each check. */
  datatype Verdicts = Verdicts(
    licensePlate: bool, vin: bool, year: bool, pricePerDay: bool, seatingCapacity: bool,
    mileage: bool, vehicleType: bool, fuelType: bool, transmission: bool, location: bool)

  /** Every validator run on the form. */
  function Verdict(v: NewVehicle, currentYear: int): Verdicts
  {
    Verdicts(
      ValidLicensePlate(v.licensePlate),
      ValidVin(v.vin),
      ValidYear(v.year, currentYear),
      ValidPrice(v.pricePerDay),
      ValidSeatingCapacity(v.seatingCapacity),
      ValidMileage(v.mileage),
      v.vehicleType in VehicleTypes,
      v.fuelType in FuelTypes,
      v.transmission in Transmissions,
      v.location in Locations)
  }

  /** The outcome recorded for `field`. */
  predicate Holds(r: Verdicts, field: Field)
  {
    match field
    case LicensePlate => r.licensePlate
    case Vin => r.vin
    case Year => r.year
    case PricePerDay => r.pricePerDay
    case SeatingCapacity => r.seatingCapacity
    case Mileage => r.mileage
    case VehicleType => r.vehicleType
    case FuelType => r.fuelType
    case Transmission => r.transmission
    case Location => r.location
  }

  /** Whether the check of `field` passes. */
  predicate Passes(v: NewVehicle, currentYear: int, field: Field)
  {
    Holds(Verdict(v, currentYear), field)
  }

  /** The entries of the failed checks among `fields`, in order. */
  function ErrorsFor(fields: seq<Field>, ok: Field -> bool, text: Field -> string): seq<FieldError>
  {
    if fields == [] then []
    else Check(ok(fields[0]), fields[0], text(fields[0])) + ErrorsFor(fields[1..], ok, text)
  }

  /** Every check of the form passes. */
  predicate FormValid(v: NewVehicle, currentYear: int)
  {
    forall field :: Passes(v, currentYear, field)
  }

  /** `validateForm`. The source skips the VIN and mileage checks for empty
      text, which both validators accept anyway. */
  function ValidateForm(v: NewVehicle, currentYear: int): seq<FieldError>
  {
    ErrorsFor(CheckOrder, Outcome(Verdict(v, currentYear)), Message)
  }

  /** The outcomes as a test on keys. */
  function Outcome(r: Verdicts): Field -> bool
  {
    field => Holds(r, field)
  }

  /** Whether an errors list has an entry for `field`. */
  predicate HasError(errors: seq<FieldError>, field: Field)
  {
    errors != [] && (errors[0].field == field || HasError(errors[1..], field))
  }

  lemma {:induction false} HasErrorConcat(a: seq<FieldError>, b: seq<FieldError>, field: Field)
    ensures HasError(a + b, field) <==> HasError(a, field) || HasError(b, field)
    decreases |a|
  {
    if a != [] {
      assert (a + b)[1..] == a[1..] + b;
      HasErrorConcat(a[1..], b, field);
    } else {
      assert a + b == b;
    }
  }

  lemma HasErrorCheck(ok: bool, name: Field, message: string, field: Field)
    ensures HasError(Check(ok, name, message), field) <==> !ok && name == field
  {
  }

  /** An entry names a field exactly when it is among the checked ones and
      its check failed. */
  lemma {:induction false} ErrorsForHas(fields: seq<Field>, ok: Field -> bool, text: Field -> string, field: Field)
    ensures HasError(ErrorsFor(fields, ok, text), field) <==> field in fields && !ok(field)
    decreases |fields|
  {
    if fields != [] {
      var c := Check(ok(fields[0]), fields[0], text(fields[0]));
      HasErrorConcat(c, ErrorsFor(fields[1..], ok, text), field);
      HasErrorCheck(ok(fields[0]), fields[0], text(fields[0]), field);
      ErrorsForHas(fields[1..], ok, text, field);
      assert field in fields <==> field == fields[0] || field in fields[1..];
    }
  }

  /** No entry at all exactly when every checked field passes. */
  lemma {:induction false} ErrorsForEmpty(fields: seq<Field>, ok: Field -> bool, text: Field -> string)
    ensures ErrorsFor(fields, ok, text) == [] <==> forall i :: 0 <= i < |fields| ==> ok(fields[i])
    decreases |fields|
  {
    if fields != [] {
      ErrorsForEmpty(fields[1..], ok, text);
      assert forall i :: 1 <= i < |fields| ==> fields[i] == fields[1..][i - 1];
    }
  }

  /** Over a list naming every field, the entries are empty exactly when
      every check passes, and name exactly the failing fields. */
  lemma ErrorsForComplete(fields: seq<Field>, ok: Field -> bool, text: Field -> string)
    requires forall field :: field in fields
    ensures ErrorsFor(fields, ok, text) == [] <==> forall field :: ok(field)
    ensures forall field :: HasError(ErrorsFor(fields, ok, text), field) <==> !ok(field)
  {
    ErrorsForEmpty(fields, ok, text);
    forall field ensures HasError(ErrorsFor(fields, ok, text), field) <==> !ok(field)
    {
      ErrorsForHas(fields, ok, text, field);
    }
    if exists field :: !ok(field) {
      var field :| !ok(field);
      assert field in fields;
      var i :| 0 <= i < |fields| && fields[i] == field;
    }
  }

  /** Each entry carries its key's message. */
  lemma {:induction false} ErrorsForMessages(fields: seq<Field>, ok: Field -> bool, text: Field -> string)
    ensures forall i :: 0 <= i < |ErrorsFor(fields, ok, text)| ==>
      ErrorsFor(fields, ok, text)[i].message == text(ErrorsFor(fields, ok, text)[i].field)
    decreases |fields|
  {
    if fields != [] {
      ErrorsForMessages(fields[1..], ok, text);
    }
  }

  lemma MessageNotEmpty(field: Field)
    ensures Message(field) != []
  {
    match field
    case LicensePlate =>
    case Vin =>
    case Year =>
    case PricePerDay =>
    case SeatingCapacity =>
    case Mileage =>
    case VehicleType =>
    case FuelType =>
    case Transmission =>
    case Location =>
  }

  /** The errors object is empty exactly when every check passes, and it
      names exactly the fields whose check fails. */
  lemma ValidateFormIff(v: NewVehicle, currentYear: int)
    ensures ValidateForm(v, currentYear) == [] <==> FormValid(v, currentYear)
    ensures forall field :: HasError(ValidateForm(v, currentYear), field) <==> !Passes(v, currentYear, field)
  {
    forall field ensures field in CheckOrder {
      CheckOrderComplete(field);
    }
    var r := Verdict(v, currentYear);
    ErrorsForComplete(CheckOrder, Outcome(r), Message);
    forall field ensures Passes(v, currentYear, field) <==> Outcome(r)(field) {
    }
  }

  /** The messages joined with "; ". */
  function JoinMessages(errors: seq<FieldError>): (s: string)
    ensures errors != [] && errors[0].message != [] ==> s != []
  {
    if errors == [] then ""
    else if |errors| == 1 then errors[0].message
    else errors[0].message + "; " + JoinMessages(errors[1..])
  }

  /** `handleAddVehicle` before the upload: the error text shown, or `None`
      when the form goes to the server. */
  function SubmitGate(v: NewVehicle, currentYear: int): (shown: Option<string>)
  {
    var errors := ValidateForm(v, currentYear);
    if |errors| > 0 then Some(JoinMessages(errors)) else None
  }

  /** The form is uploaded exactly when every check passes; otherwise a
      non-empty error text is shown. */
  lemma SubmitGateIff(v: NewVehicle, currentYear: int)
    ensures SubmitGate(v, currentYear).None? <==> FormValid(v, currentYear)
    ensures SubmitGate(v, currentYear).Some? ==> SubmitGate(v, currentYear).value != []
  {
    ValidateFormIff(v, currentYear);
    var errors := ValidateForm(v, currentYear);
    if errors != [] {
      ErrorsForMessages(CheckOrder, Outcome(Verdict(v, currentYear)), Message);
      MessageNotEmpty(errors[0].field);
    }
  }

  /** 5 MB. */
  const MaxImageBytes: nat := 5 * 1024 * 1024

  /** Which of the three image inputs changed. */
  datatype ImageSlot = Image1 | Image2 | Image3

  function ImageIn(v: NewVehicle, slot: ImageSlot): Option<ImageFile>
  {
    match slot
    case Image1 => v.vehicleImage1
    case Image2 => v.vehicleImage2
    case Image3 => v.vehicleImage3
  }

  /** `handleImageChange`: a file over 5 MB is refused and the form is left
      as it was; otherwise the slot takes the file (or is cleared), and no
      other field changes. */
  function ImageChange(v: NewVehicle, slot: ImageSlot, file: Option<ImageFile>): (r: NewVehicle)
    ensures file.Some? && file.value.size > MaxImageBytes ==> r == v
    ensures !(file.Some? && file.value.size > MaxImageBytes) ==>
      ImageIn(r, slot) == file &&
      forall other :: other != slot ==> ImageIn(r, other) == ImageIn(v, other)
    ensures r.(vehicleImage1 := v.vehicleImage1, vehicleImage2 := v.vehicleImage2,
               vehicleImage3 := v.vehicleImage3) == v
  {
    if file.Some? && file.value.size > MaxImageBytes then v
    else match slot
      case Image1 => v.(vehicleImage1 := file)
      case Image2 => v.(vehicleImage2 := file)
      case Image3 => v.(vehicleImage3 := file)
  }

  /** Every image the form holds after any sequence of changes is at most
      5 MB, when it started with none over that size. */
  lemma {:induction false} ImagesStayWithinLimit(v: NewVehicle, changes: seq<(ImageSlot, Option<ImageFile>)>)
    requires forall slot :: ImageIn(v, slot).Some? ==> ImageIn(v, slot).value.size <= MaxImageBytes
    ensures var r := ApplyImageChanges(v, changes);
      forall slot :: ImageIn(r, slot).Some? ==> ImageIn(r, slot).value.size <= MaxImageBytes
    decreases |changes|
  {
    if changes != [] {
      var next := ImageChange(v, changes[0].0, changes[0].1);
      forall slot | ImageIn(next, slot).Some? ensures ImageIn(next, slot).value.size <= MaxImageBytes
      {
        if slot != changes[0].0 {
          assert ImageIn(next, slot) == ImageIn(v, slot);
        }
      }
      ImagesStayWithinLimit(next, changes[1..]);
      assert ApplyImageChanges(v, changes) == ApplyImageChanges(next, changes[1..]);
    }
  }

  function ApplyImageChanges(v: NewVehicle, changes: seq<(ImageSlot, Option<ImageFile>)>): NewVehicle
    decreases |changes|
  {
    if changes == [] then v
    else ApplyImageChanges(ImageChange(v, changes[0].0, changes[0].1), changes[1..])
  }
}
