/** The vehicle search page: the filter chain over the available vehicles,
    the price-range buckets, the checks before a reservation draft is made,
    the filter reset and the image carousel. Prices are in cents; the parsed
    dates and the start of today are millisecond timestamps given by the
    caller. */
module VehicleSearch {
  import opened Text
  import opened Lists
  import CarDetail

  /** The fields of a listed vehicle that the search looks at. */
  datatype Listing = Listing(id: nat, location: string, vehicleType: string, pricePerDay: int)

  /** The search form. `minPrice` holds the chosen price-range value. */
  datatype SearchParams = SearchParams(
    pickupLocation: string,
    dropoffLocation: string,
    vehicleType: string,
    minPrice: string,
    startDate: string,
    endDate: string)

  /** `a.toLowerCase().includes(b.toLowerCase())`. */
  predicate ContainsIgnoringCase(a: string, b: string)
  {
    Contains(Lower(a), Lower(b))
  }

  /** The vehicle is at the pickup location searched for, or none is given. */
  predicate LocationOk(p: SearchParams, v: Listing)
  {
    p.pickupLocation == [] || ContainsIgnoringCase(v.location, p.pickupLocation)
  }

  /** The vehicle has the type searched for, or none is given. */
  predicate TypeOk(p: SearchParams, v: Listing)
  {
    p.vehicleType == [] || ContainsIgnoringCase(v.vehicleType, p.vehicleType)
  }

  /** The price lies in the chosen range; an unknown range filters nothing. */
  predicate InRange(range: string, price: int)
  {
    if range == "0-50" then price < 5000
    else if range == "50-100" then 5000 <= price <= 10000
    else if range == "100-150" then 10000 <= price <= 15000
    else if range == "150-200" then 15000 <= price <= 20000
    else if range == "200+" then price >= 20000
    else true
  }

  predicate PriceOk(p: SearchParams, v: Listing)
  {
    p.minPrice == [] || InRange(p.minPrice, v.pricePerDay)
  }

  /** A vehicle the search shows. */
  predicate Matches(p: SearchParams, v: Listing)
  {
    LocationOk(p, v) && TypeOk(p, v) && PriceOk(p, v)
  }

  /** The filter effect: `results` starts as a copy of the vehicles and is
      narrowed by location, type and price in turn, each only when that
      field is set. */
  method FilterVehicles(vehicles: seq<Listing>, p: SearchParams) returns (results: seq<Listing>)
    ensures results == Filter(vehicles, (v: Listing) => Matches(p, v))
  {
    results := vehicles;
    if p.pickupLocation != [] {
      results := Filter(results, (v: Listing) => ContainsIgnoringCase(v.location, p.pickupLocation));
      FilterAgrees(vehicles, (v: Listing) => ContainsIgnoringCase(v.location, p.pickupLocation), (v: Listing) => LocationOk(p, v));
    } else {
      FilterKeepsAll(vehicles, (v: Listing) => LocationOk(p, v));
    }
    var stage := results;
    if p.vehicleType != [] {
      results := Filter(results, (v: Listing) => ContainsIgnoringCase(v.vehicleType, p.vehicleType));
      FilterAgrees(stage, (v: Listing) => ContainsIgnoringCase(v.vehicleType, p.vehicleType), (v: Listing) => TypeOk(p, v));
    } else {
      FilterKeepsAll(stage, (v: Listing) => TypeOk(p, v));
    }
    FilterTwice(vehicles, (v: Listing) => LocationOk(p, v), (v: Listing) => TypeOk(p, v), (v: Listing) => LocationOk(p, v) && TypeOk(p, v));
    stage := results;
    if p.minPrice != [] {
      var priceRange := p.minPrice;
      if priceRange == "0-50" {
        results := Filter(results, (v: Listing) => v.pricePerDay < 5000);
      } else if priceRange == "50-100" {
        results := Filter(results, (v: Listing) => v.pricePerDay >= 5000 && v.pricePerDay <= 10000);
      } else if priceRange == "100-150" {
        results := Filter(results, (v: Listing) => v.pricePerDay >= 10000 && v.pricePerDay <= 15000);
      } else if priceRange == "150-200" {
        results := Filter(results, (v: Listing) => v.pricePerDay >= 15000 && v.pricePerDay <= 20000);
      } else if priceRange == "200+" {
        results := Filter(results, (v: Listing) => v.pricePerDay >= 20000);
      }
      FilterSame(stage, results, p);
    } else {
      FilterKeepsAll(stage, (v: Listing) => PriceOk(p, v));
    }
    FilterTwice(vehicles, (v: Listing) => LocationOk(p, v) && TypeOk(p, v), (v: Listing) => PriceOk(p, v), (v: Listing) => Matches(p, v));
  }

  /** Filters by tests that agree on every entry give the same list. */
  lemma {:induction false} FilterAgrees(s: seq<Listing>, a: Listing -> bool, b: Listing -> bool)
    requires forall v :: a(v) == b(v)
    ensures Filter(s, a) == Filter(s, b)
    decreases |s|
  {
    if s != [] {
      FilterAgrees(s[1..], a, b);
    }
  }

  /** The price filter as the source writes it, one branch per range, is the
      price test. */
  lemma FilterSame(stage: seq<Listing>, results: seq<Listing>, p: SearchParams)
    requires p.minPrice != []
    requires p.minPrice == "0-50" ==> results == Filter(stage, (v: Listing) => v.pricePerDay < 5000)
    requires p.minPrice == "50-100" ==> results == Filter(stage, (v: Listing) => v.pricePerDay >= 5000 && v.pricePerDay <= 10000)
    requires p.minPrice == "100-150" ==> results == Filter(stage, (v: Listing) => v.pricePerDay >= 10000 && v.pricePerDay <= 15000)
    requires p.minPrice == "150-200" ==> results == Filter(stage, (v: Listing) => v.pricePerDay >= 15000 && v.pricePerDay <= 20000)
    requires p.minPrice == "200+" ==> results == Filter(stage, (v: Listing) => v.pricePerDay >= 20000)
    requires p.minPrice !in {"0-50", "50-100", "100-150", "150-200", "200+"} ==> results == stage
    ensures results == Filter(stage, (v: Listing) => PriceOk(p, v))
  {
    var r := p.minPrice;
    if r == "0-50" {
      FilterAgrees(stage, (v: Listing) => v.pricePerDay < 5000, (v: Listing) => PriceOk(p, v));
    } else if r == "50-100" {
      FilterAgrees(stage, (v: Listing) => v.pricePerDay >= 5000 && v.pricePerDay <= 10000, (v: Listing) => PriceOk(p, v));
    } else if r == "100-150" {
      FilterAgrees(stage, (v: Listing) => v.pricePerDay >= 10000 && v.pricePerDay <= 15000, (v: Listing) => PriceOk(p, v));
    } else if r == "150-200" {
      FilterAgrees(stage, (v: Listing) => v.pricePerDay >= 15000 && v.pricePerDay <= 20000, (v: Listing) => PriceOk(p, v));
    } else if r == "200+" {
      FilterAgrees(stage, (v: Listing) => v.pricePerDay >= 20000, (v: Listing) => PriceOk(p, v));
    } else {
      FilterKeepsAll(stage, (v: Listing) => PriceOk(p, v));
    }
  }

  /** The shown vehicles are the listed ones that match, in listing order. */
  lemma FilteredIsOrderedSelection(vehicles: seq<Listing>, p: SearchParams)
    ensures IsSubsequence(Filter(vehicles, (v: Listing) => Matches(p, v)), vehicles)
    ensures forall v :: v in Filter(vehicles, (v: Listing) => Matches(p, v)) <==> v in vehicles && Matches(p, v)
  {
    FilterSpec(vehicles, (v: Listing) => Matches(p, v));
  }

  /** The location and type tests ignore letter case on both sides. */
  lemma MatchIgnoresCase(p: SearchParams, v: Listing)
    ensures Matches(p, v) == Matches(p.(pickupLocation := Lower(p.pickupLocation), vehicleType := Lower(p.vehicleType)),
                                     v.(location := Lower(v.location), vehicleType := Lower(v.vehicleType)))
  {
    LowerIdempotent(p.pickupLocation);
    LowerIdempotent(p.vehicleType);
    LowerIdempotent(v.location);
    LowerIdempotent(v.vehicleType);
  }


  /** The ranges cover every price; the end points 100, 150 and 200 belong
      to two neighbouring ranges at once. */
  lemma PriceRangesOverlapAtEnds(price: int)
    ensures InRange("0-50", price) || InRange("50-100", price) || InRange("100-150", price) ||
            InRange("150-200", price) || InRange("200+", price)
    ensures price == 10000 ==> InRange("50-100", price) && InRange("100-150", price)
    ensures price == 15000 ==> InRange("100-150", price) && InRange("150-200", price)
    ensures price == 20000 ==> InRange("150-200", price) && InRange("200+", price)
    ensures price == 5000 ==> !InRange("0-50", price) && InRange("50-100", price)
  {
  }

  /** The reservation draft passed on to the car detail page. */
  datatype Draft = Draft(
    vehicle: Listing,
    rentalDate: string,
    returnDate: string,
    pickupLocation: string,
    dropoffLocation: string,
    userId: Option<nat>)

  datatype ReserveOutcome = Refused(message: string) | Proceed(draft: Draft)

  /** `handleReservation`: both dates and a pickup location are required;
      the start may not lie before today and the end must come after it.
      The dropoff defaults to the pickup location. */
  function HandleReservation(v: Listing, p: SearchParams, startMs: int, endMs: int, todayMs: int,
                             userId: Option<nat>): ReserveOutcome
  {
    if p.startDate == [] || p.endDate == [] then Refused("Please select both start and end dates to reserve a vehicle")
    else if p.pickupLocation == [] then Refused("Please select a pickup location")
    else if startMs < todayMs then Refused("Start date cannot be in the past")
    else if endMs <= startMs then Refused("End date must be after start date")
    else Proceed(Draft(v, p.startDate, p.endDate, p.pickupLocation,
                       if p.dropoffLocation == [] then p.pickupLocation else p.dropoffLocation, userId))
  }

  /** A draft is made exactly when the form is complete, the start is today
      or later and the end is after the start; it carries the searched dates
      and a dropoff location that is never empty. */
  lemma ReservationIff(v: Listing, p: SearchParams, startMs: int, endMs: int, todayMs: int, userId: Option<nat>)
    ensures HandleReservation(v, p, startMs, endMs, todayMs, userId).Proceed? <==>
              p.startDate != [] && p.endDate != [] && p.pickupLocation != [] &&
              todayMs <= startMs < endMs
    ensures var r := HandleReservation(v, p, startMs, endMs, todayMs, userId);
            r.Proceed? ==>
              r.draft.rentalDate == p.startDate && r.draft.returnDate == p.endDate &&
              r.draft.dropoffLocation != [] &&
              (p.dropoffLocation == [] ==> r.draft.dropoffLocation == p.pickupLocation) &&
              (p.dropoffLocation != [] ==> r.draft.dropoffLocation == p.dropoffLocation)
  {
  }

  /** `clearFilters`: the filters are emptied and the dates kept. */
  function ClearFilters(p: SearchParams): SearchParams
  {
    SearchParams("", "", "", "", p.startDate, p.endDate)
  }

  /** After clearing, the dates are those before and every vehicle is shown. */
  lemma ClearFiltersShowsAll(vehicles: seq<Listing>, p: SearchParams)
    ensures ClearFilters(p).startDate == p.startDate && ClearFilters(p).endDate == p.endDate
    ensures Filter(vehicles, (v: Listing) => Matches(ClearFilters(p), v)) == vehicles
  {
    FilterKeepsAll(vehicles, (v: Listing) => Matches(ClearFilters(p), v));
  }

  /** `nextImage` and `prevImage` of the search cards. */
  function NextImage(prev: int, count: nat): int
    requires count > 0
  {
    (prev + 1) % count
  }

  function PrevImage(prev: int, count: nat): int
    requires count > 0
  {
    var a := prev - 1 + count;
    if a >= 0 then a % count else -((-a) % count)
  }

  /** On a shown image the search cards step exactly as the car detail
      carousel does, so they wrap around the same way. */
  lemma CarouselMatchesCarDetail(prev: int, count: nat)
    requires 0 <= prev < count
    ensures NextImage(prev, count) == CarDetail.ChangeImage(prev, 1, count)
    ensures PrevImage(prev, count) == CarDetail.ChangeImage(prev, -1, count)
  {
    CarDetail.ModInBlock(prev + 1, count, if prev == count - 1 then 1 else 0);
    CarDetail.ModInBlock(prev + 1 + count, count, if prev == count - 1 then 2 else 1);
  }
}
