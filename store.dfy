/** The booking server: its database as one map per table, and the request
    handlers that read and change it. A handler answers either with a value
    or with an HTTP error status. The errors modelled are the 4xx replies: on
    those the transaction is rolled back, so the tables are as they were
    before the request. The 500 replies, given when an exception escapes a
    handler, are not modelled. */
module Store {
  import opened Common
  import opened Schema
  import Pricing

  datatype Response<T> = Ok(value: T) | Fail(status: int)

  // ------------------------------------------------------------------
  // Lookups
  // ------------------------------------------------------------------

  /** A key one above every key in use, as the database assigns to a new row. */
  function FreshKey(keys: set<int>): (k: int)
    ensures k >= 1 && k !in keys
    ensures forall x :: x in keys ==> x < k
  {
    var s := SortedElements(keys);
    SortedElementsAscending(keys);
    if s == [] then 1
    else
      var top := s[|s| - 1];
      assert forall x :: x in keys ==> x <= top by {
        forall x | x in keys ensures x <= top {
          var i :| 0 <= i < |s| && s[i] == x;
          if i < |s| - 1 { assert s[i] < s[|s| - 1]; }
        }
      }
      if top < 1 then 1 else top + 1
  }

  /** The first row (smallest key) whose code is the given one, if any. */
  function FirstWithCode(codes: map<int, string>, code: string): (r: Option<int>)
    ensures r.None? <==> (forall k :: k in codes ==> codes[k] != code)
    ensures r.Some? ==> r.value in codes && codes[r.value] == code
    ensures r.Some? ==> forall k :: k in codes && codes[k] == code ==> r.value <= k
  {
    var hits := set k | k in codes && codes[k] == code;
    assert forall k :: k in codes && codes[k] == code ==> k in hits;
    if hits == {} then None else Some(Minimum(hits))
  }

  function AirportCodes(airports: map<int, Airport>): map<int, string> {
    map k | k in airports :: airports[k].code
  }

  function AirlineCodes(airlines: map<int, Airline>): map<int, string> {
    map k | k in airlines :: airlines[k].code
  }

  // ------------------------------------------------------------------
  // Administrator check
  // ------------------------------------------------------------------

  /** 401 without an administrator id (a missing id or 0), 403 for an id that
      is not a user or not an administrator, the id otherwise. */
  function RequireAdmin(users: map<int, User>, adminUserId: Option<int>): (r: Response<int>)
    ensures r == Fail(401) <==> adminUserId.None? || adminUserId.value == 0
    ensures r == Fail(403) <==> (adminUserId.Some? && adminUserId.value != 0
      && (adminUserId.value !in users || !users[adminUserId.value].isAdmin))
    ensures r.Ok? <==> (adminUserId.Some? && adminUserId.value != 0
      && adminUserId.value in users && users[adminUserId.value].isAdmin)
    ensures r.Ok? ==> r.value == adminUserId.value
  {
    if adminUserId.None? || adminUserId.value == 0 then Fail(401)
    else if adminUserId.value !in users || !users[adminUserId.value].isAdmin then Fail(403)
    else Ok(adminUserId.value)
  }

  /** A user who registered through the server is never let through the
      administrator check. */
  lemma {:induction false} RegisteredUserIsNotAdmin(users: map<int, User>, id: int, email: string, name: string, hash: string)
    ensures RequireAdmin(users[id := NewUser(email, name, hash)], Some(id)).Fail?
  {
  }

  // ------------------------------------------------------------------
  // Flight updates
  // ------------------------------------------------------------------

  /** The fields an administrator may change; None leaves a field as it is.
      Times arrive already parsed, in seconds. */
  datatype FlightUpdate = FlightUpdate(
    flightNumber: Option<string>,
    airlineId: Option<int>,
    originId: Option<int>,
    destinationId: Option<int>,
    departureTime: Option<int>,
    arrivalTime: Option<int>,
    basePrice: Option<real>,
    totalSeats: Option<int>,
    availableSeats: Option<int>,
    aircraftType: Option<string>)

  function Max(a: int, b: int): int { if a < b then b else a }

  /** The given value, or the default where none is given. */
  function Or<T>(o: Option<T>, default: T): T { if o.Some? then o.value else default }

  /** The flight after an update, field by field in the order the handler
      assigns them. */
  function ApplyUpdate(f: Flight, u: FlightUpdate): (g: Flight)
    ensures g.flightNumber == (if u.flightNumber.Some? then u.flightNumber.value else f.flightNumber)
    ensures g.airlineId == (if u.airlineId.Some? then u.airlineId.value else f.airlineId)
    ensures g.originId == (if u.originId.Some? then u.originId.value else f.originId)
    ensures g.destinationId == (if u.destinationId.Some? then u.destinationId.value else f.destinationId)
    ensures g.departureTime == (if u.departureTime.Some? then u.departureTime.value else f.departureTime)
    ensures g.arrivalTime == (if u.arrivalTime.Some? then u.arrivalTime.value else f.arrivalTime)
    ensures g.basePrice == (if u.basePrice.Some? then u.basePrice.value else f.basePrice)
    ensures g.totalSeats == (if u.totalSeats.Some? then u.totalSeats.value else f.totalSeats)
    ensures g.aircraftType == (if u.aircraftType.Some? then u.aircraftType.value else f.aircraftType)
    ensures u.availableSeats.Some? ==> g.availableSeats == u.availableSeats.value
    ensures u.availableSeats.None? && u.totalSeats.None? ==> g.availableSeats == f.availableSeats
    ensures u.availableSeats.None? && u.totalSeats.Some? ==>
      g.availableSeats == Max(0, f.availableSeats + u.totalSeats.value - f.totalSeats)
  {
    var totalSeats := if u.totalSeats.Some? then u.totalSeats.value else f.totalSeats;
    var resized := if u.totalSeats.Some? then Max(0, f.availableSeats + (u.totalSeats.value - f.totalSeats))
      else f.availableSeats;
    Flight(
      Or(u.flightNumber, f.flightNumber),
      Or(u.airlineId, f.airlineId),
      Or(u.originId, f.originId),
      Or(u.destinationId, f.destinationId),
      Or(u.departureTime, f.departureTime),
      Or(u.arrivalTime, f.arrivalTime),
      Or(u.basePrice, f.basePrice),
      totalSeats,
      Or(u.availableSeats, resized),
      Or(u.aircraftType, f.aircraftType))
  }

  const NoChange := FlightUpdate(None, None, None, None, None, None, None, None, None, None)

  /** An update that names no field leaves the flight as it is. */
  lemma {:induction false} EmptyUpdateIsIdentity(f: Flight)
    ensures ApplyUpdate(f, NoChange) == f
  {
  }

  /** Resizing a flight without naming its availability keeps the number of
      sold seats, unless the clamp at zero applies; the availability never
      becomes negative that way. */
  lemma {:induction false} ResizeKeepsSoldSeats(f: Flight, u: FlightUpdate)
    requires u.totalSeats.Some? && u.availableSeats.None?
    ensures ApplyUpdate(f, u).availableSeats >= 0
    ensures f.availableSeats + u.totalSeats.value - f.totalSeats >= 0 ==>
      ApplyUpdate(f, u).totalSeats - ApplyUpdate(f, u).availableSeats == f.totalSeats - f.availableSeats
  {
  }

  /** Applying the same update twice changes nothing more when it sets the
      availability explicitly or leaves the seat count alone. */
  lemma {:induction false} UpdateIdempotent(f: Flight, u: FlightUpdate)
    requires u.availableSeats.Some? || u.totalSeats.None?
    ensures ApplyUpdate(ApplyUpdate(f, u), u) == ApplyUpdate(f, u)
  {
  }

  /** Applying a resize twice is idempotent too once the availability was
      not clamped: the second difference is zero. */
  lemma {:induction false} ResizeTwice(f: Flight, u: FlightUpdate)
    requires u.totalSeats.Some? && u.availableSeats.None?
    ensures ApplyUpdate(ApplyUpdate(f, u), u) == ApplyUpdate(f, u)
  {
    var g := ApplyUpdate(f, u);
    assert g.totalSeats == u.totalSeats.value;
    assert g.availableSeats >= 0;
  }

  // ------------------------------------------------------------------
  // Search
  // ------------------------------------------------------------------

  /** The search form, as the request model holds it once its defaults are
      filled in: origin, destination, date and airline default to None, and
      sortBy defaults to Some("price"), so None there is an explicit null.
      The date is the first second of the requested day. */
  datatype SearchParams = SearchParams(
    origin: Option<string>,
    destination: Option<string>,
    date: Option<int>,
    airline: Option<string>,
    sortBy: Option<string>)

  const SecondsPerDay := 86400

  /** The search a body without any field asks for: no filter, sorted by
      price. */
  function DefaultSearch(): (params: SearchParams)
    ensures params.origin.None? && params.destination.None? && params.date.None? && params.airline.None?
    ensures OrderFor(params.sortBy) == Some(PriceLe)
  {
    SearchParams(None, None, None, None, Some("price"))
  }

  datatype SearchResult = SearchResult(
    flightId: int,
    flight: Flight,
    currentPrice: real,
    trend: Pricing.Trend,
    durationHours: real)

  /** A filter on a field of the flight given by code: skipped when the code
      is absent, empty or unknown. */
  predicate CodeFilter(codes: map<int, string>, code: Option<string>, field: int) {
    code.None? || code.value == "" || FirstWithCode(codes, code.value).None?
      || field == FirstWithCode(codes, code.value).value
  }

  /** Whether a flight passes every filter of the search. */
  predicate Matches(airports: map<int, Airport>, airlines: map<int, Airline>, params: SearchParams, f: Flight) {
    CodeFilter(AirportCodes(airports), params.origin, f.originId)
    && CodeFilter(AirportCodes(airports), params.destination, f.destinationId)
    && (params.date.None? || params.date.value <= f.departureTime < params.date.value + SecondsPerDay)
    && CodeFilter(AirlineCodes(airlines), params.airline, f.airlineId)
  }

  /** The row shown for a flight, priced at the instant now (seconds) with
      the random factor drawn for it. */
  function ResultFor(id: int, f: Flight, now: int, factor: real): (r: SearchResult)
    ensures r.flightId == id && r.flight == f
    ensures r.trend == Pricing.PriceTrend(f.basePrice, f.totalSeats, f.availableSeats)
    ensures r.durationHours * 3600.0 == (f.arrivalTime - f.departureTime) as real
  {
    var hours := (f.departureTime - now) as real / 3600.0;
    SearchResult(id, f,
      Pricing.CalculatePrice(f.basePrice, f.totalSeats, f.availableSeats, hours, factor),
      Pricing.PriceTrend(f.basePrice, f.totalSeats, f.availableSeats),
      (f.arrivalTime - f.departureTime) as real / 3600.0)
  }

  function PriceLe(a: SearchResult, b: SearchResult): bool { a.currentPrice <= b.currentPrice }
  function DurationLe(a: SearchResult, b: SearchResult): bool { a.durationHours <= b.durationHours }
  function DepartureLe(a: SearchResult, b: SearchResult): bool { a.flight.departureTime <= b.flight.departureTime }

  /** The order a sort key asks for; any other key leaves the rows in the
      order the database returned them. */
  function OrderFor(sortBy: Option<string>): (order: Option<(SearchResult, SearchResult) -> bool>)
    ensures order.Some? <==> sortBy == Some("price") || sortBy == Some("duration") || sortBy == Some("departure")
  {
    if sortBy == Some("price") then Some(PriceLe)
    else if sortBy == Some("duration") then Some(DurationLe)
    else if sortBy == Some("departure") then Some(DepartureLe)
    else None
  }

  /** Each of the three orders is a total preorder, so sorting by it yields
      a sequence ordered by it. */
  lemma {:induction false} OrdersArePreorders(sortBy: Option<string>)
    requires OrderFor(sortBy).Some?
    ensures TotalPreorder(OrderFor(sortBy).value)
  {
  }

  function FlightIds(rows: seq<SearchResult>): seq<int> {
    seq(|rows|, i requires 0 <= i < |rows| => rows[i].flightId)
  }

  // ------------------------------------------------------------------
  // Payments
  // ------------------------------------------------------------------

  datatype Payment = Payment(totalAmount: real, bookingIds: seq<int>, paymentMethod: string)

  /** The rows an id list selects: SQL's IN ignores repeated ids. */
  function Selected(bookings: map<int, Booking>, ids: seq<int>): set<int> {
    bookings.Keys * Elements(ids)
  }

  /** A payment goes through exactly when the list is not empty, repeats no
      id, and names existing bookings that are all pending. */
  predicate Payable(bookings: map<int, Booking>, ids: seq<int>) {
    |ids| > 0 && Distinct(ids)
    && forall i :: 0 <= i < |ids| ==> ids[i] in bookings && bookings[ids[i]].status == Pending
  }

  lemma {:induction false} SubsetSameSize(a: set<int>, b: set<int>)
    requires a <= b && |a| == |b|
    ensures a == b
  {
    assert b == a + (b - a);
    assert b - a == {};
    forall x | x in b ensures x in a {
      assert x !in b - a;
    }
  }

  lemma {:induction false} SubsetSize(a: set<int>, b: set<int>)
    requires a <= b
    ensures |a| <= |b|
  {
    assert b == a + (b - a);
  }

  /** As many rows found as ids given exactly when every id names a booking
      and no id repeats. */
  lemma {:induction false} AllFoundByCount(bookings: map<int, Booking>, ids: seq<int>)
    ensures |Selected(bookings, ids)| == |ids| <==> Elements(ids) <= bookings.Keys && Distinct(ids)
  {
    var found := Selected(bookings, ids);
    ElementsCount(ids);
    SubsetSize(found, Elements(ids));
    if |found| == |ids| {
      SubsetSameSize(found, Elements(ids));
    }
    if Elements(ids) <= bookings.Keys {
      assert found == Elements(ids);
    }
  }

  /** The found rows that are pending. */
  function PendingOf(bookings: map<int, Booking>, found: set<int>): (pending: set<int>)
    ensures pending <= found
    ensures forall k :: k in pending <==> k in found && k in bookings && bookings[k].status == Pending
  {
    set k | k in found && k in bookings && bookings[k].status == Pending
  }

  /** For a payable list, the rows in key order are exactly the listed ids. */
  lemma {:induction false} PayableRows(bookings: map<int, Booking>, ids: seq<int>, rows: seq<int>)
    requires Payable(bookings, ids)
    requires rows == SortedElements(PendingOf(bookings, Selected(bookings, ids)))
    ensures forall k :: 0 <= k < |rows| ==> rows[k] in bookings
    ensures Elements(rows) == Elements(ids)
    ensures rows == SortedElements(Elements(ids))
  {
    var found := Selected(bookings, ids);
    assert found == Elements(ids);
    assert PendingOf(bookings, found) == found;
  }

  /** Confirming bookings keeps the constraints of the bookings table and
      leaves every booked seat taken. */
  lemma {:induction false} ConfirmKeepsInvariant(bookings: map<int, Booking>, seats: map<int, Seat>, rows: set<int>)
    requires BookingsConstraints(bookings) && BookedSeatsTaken(bookings, seats)
    ensures BookingsConstraints(ConfirmAll(bookings, rows)) && BookedSeatsTaken(ConfirmAll(bookings, rows), seats)
  {
    RestatusKeepsConstraints(bookings, ConfirmAll(bookings, rows));
  }

  /** The counts the payment handler compares decide acceptance: an id list
      that is not empty, as many rows as ids, and every found row pending. */
  lemma {:induction false} PayableByCounts(bookings: map<int, Booking>, ids: seq<int>, pending: set<int>)
    requires pending == PendingOf(bookings, Selected(bookings, ids))
    ensures Payable(bookings, ids) <==>
      |ids| > 0 && |Selected(bookings, ids)| == |ids| && |pending| == |ids|
  {
    var found := Selected(bookings, ids);
    AllFoundByCount(bookings, ids);
    SubsetSize(pending, found);
    if |ids| > 0 && |found| == |ids| && |pending| == |ids| {
      SubsetSameSize(pending, found);
      forall i | 0 <= i < |ids| ensures ids[i] in bookings && bookings[ids[i]].status == Pending {
        assert ids[i] in Elements(ids);
        assert ids[i] in pending;
      }
    }
    if Payable(bookings, ids) {
      assert found == Elements(ids);
      assert pending == found;
    }
  }

  /** The total over a list of bookings, in list order. */
  function SumPrices(bookings: map<int, Booking>, rows: seq<int>): (total: real)
    requires forall i :: 0 <= i < |rows| ==> rows[i] in bookings
    ensures (forall i :: 0 <= i < |rows| ==> bookings[rows[i]].totalPrice >= 0.0) ==> total >= 0.0
  {
    if rows == [] then 0.0
    else SumPrices(bookings, rows[..|rows| - 1]) + bookings[rows[|rows| - 1]].totalPrice
  }

  /** The bookings table with the given rows confirmed. */
  function ConfirmAll(bookings: map<int, Booking>, rows: set<int>): (r: map<int, Booking>)
    ensures r.Keys == bookings.Keys
    ensures forall k :: k in r ==> r[k] == (if k in rows then bookings[k].(status := Confirmed) else bookings[k])
  {
    map k | k in bookings :: if k in rows then bookings[k].(status := Confirmed) else bookings[k]
  }

  // ------------------------------------------------------------------
  // The store
  // ------------------------------------------------------------------

  /** A booking request as the client sends it. */
  datatype BookingRequest = BookingRequest(
    flightId: int,
    seatId: int,
    passengerName: string,
    passengerEmail: string,
    passengerPhone: string,
    userId: Option<int>)

  /** What a successful booking returns: the new booking's id, PNR, PIN and
      price. */
  datatype Confirmation = Confirmation(id: int, pnr: string, pin: string, price: real)

  /** The row stored for a booking request. */
  function NewBooking(req: BookingRequest, pnr: string, pin: string, price: real): (b: Booking)
    ensures b.status == Pending && b.pnr == pnr && b.uniquePin == pin && b.totalPrice == price
    ensures b.flightId == req.flightId && b.seatId == req.seatId && b.userId == req.userId
  {
    Booking(pnr, pin, req.flightId, req.seatId, req.userId,
      req.passengerName, req.passengerEmail, req.passengerPhone, price, Pending)
  }

  /** Every seat a booking holds is marked taken. */
  ghost predicate BookedSeatsTaken(bookings: map<int, Booking>, seats: map<int, Seat>) {
    forall k :: k in bookings && bookings[k].seatId in seats ==> !seats[bookings[k].seatId].isAvailable
  }

  predicate SeatOpen(seats: map<int, Seat>, seatId: int) {
    seatId in seats && seats[seatId].isAvailable
  }

  /** Under the store invariant an available seat is held by no booking, so
      the unique-seat constraint cannot reject an insert (no 409). */
  lemma {:induction false} OpenSeatIsFree(bookings: map<int, Booking>, seats: map<int, Seat>, seatId: int)
    requires BookedSeatsTaken(bookings, seats)
    requires SeatOpen(seats, seatId)
    ensures !SeatReferenced(bookings, seatId)
  {
  }

  /** First draw not yet in use, as the regeneration loops pick it. */
  method FirstUnused(draws: seq<string>, used: set<string>) returns (k: nat)
    requires exists j :: 0 <= j < |draws| && draws[j] !in used
    ensures k < |draws| && draws[k] !in used
    ensures forall j :: 0 <= j < k ==> draws[j] in used
  {
    k := 0;
    while draws[k] in used
      invariant exists j :: k <= j < |draws| && draws[j] !in used
      invariant forall j :: 0 <= j < k ==> draws[j] in used
      decreases |draws| - k
    {
      k := k + 1;
    }
  }

  class BookingStore {
    var users: map<int, User>
    var airports: map<int, Airport>
    var airlines: map<int, Airline>
    var flights: map<int, Flight>
    var seats: map<int, Seat>
    var bookings: map<int, Booking>

    ghost predicate Valid()
      reads this
    {
      UniqueEmails(users) && BookingsConstraints(bookings) && BookedSeatsTaken(bookings, seats)
    }

    /** The store over the seeded tables, with no bookings yet. */
    constructor (users: map<int, User>, airports: map<int, Airport>, airlines: map<int, Airline>,
                 flights: map<int, Flight>, seats: map<int, Seat>)
      requires UniqueEmails(users)
      ensures Valid()
      ensures this.users == users && this.airports == airports && this.airlines == airlines
      ensures this.flights == flights && this.seats == seats && this.bookings == map[]
    {
      this.users := users;
      this.airports := airports;
      this.airlines := airlines;
      this.flights := flights;
      this.seats := seats;
      this.bookings := map[];
    }

    /** Registration: 400 for an email in use, otherwise a new non-admin user. */
    method RegisterUser(email: string, name: string, passwordHash: string) returns (r: Response<int>)
      requires Valid()
      modifies this
      ensures Valid()
      ensures r == Fail(400) <==> EmailTaken(old(users), email)
      ensures r.Fail? ==> users == old(users)
      ensures r.Ok? ==> r.value !in old(users) && users == old(users)[r.value := NewUser(email, name, passwordHash)]
      ensures airports == old(airports) && airlines == old(airlines) && flights == old(flights)
      ensures seats == old(seats) && bookings == old(bookings)
    {
      if exists k :: k in users && users[k].email == email {
        return Fail(400);
      }
      var id := FreshKey(users.Keys);
      users := users[id := NewUser(email, name, passwordHash)];
      r := Ok(id);
    }

    /** Booking a seat: 404 for an unknown flight, 400 for a seat that does
        not exist or is taken. The seat's flight is not compared with the
        requested flight. On success the seat is taken, the requested flight
        loses one available seat, and a pending booking is added whose PNR
        and PIN are the first draws not used by any booking; its price is the
        dynamic price before the sale. */
    method CreateBooking(req: BookingRequest, hoursToDeparture: real, randomFactor: real,
                         pnrDraws: seq<string>, pinDraws: seq<string>) returns (r: Response<Confirmation>)
      requires Valid()
      requires exists j :: 0 <= j < |pnrDraws| && pnrDraws[j] !in Pnrs(bookings)
      requires exists j :: 0 <= j < |pinDraws| && pinDraws[j] !in Pins(bookings)
      modifies this
      ensures Valid()
      ensures r == Fail(404) <==> req.flightId !in old(flights)
      ensures r == Fail(400) <==> (req.flightId in old(flights) && !SeatOpen(old(seats), req.seatId))
      ensures r.Ok? <==> (req.flightId in old(flights) && SeatOpen(old(seats), req.seatId))
      ensures r.Fail? ==> flights == old(flights) && seats == old(seats) && bookings == old(bookings)
      ensures r.Ok? ==> seats == old(seats)[req.seatId := old(seats)[req.seatId].(isAvailable := false)]
      ensures r.Ok? ==> flights == old(flights)[req.flightId :=
        old(flights)[req.flightId].(availableSeats := old(flights)[req.flightId].availableSeats - 1)]
      ensures r.Ok? ==> r.value.id !in old(bookings)
      ensures r.Ok? ==> bookings == old(bookings)[r.value.id := NewBooking(req, r.value.pnr, r.value.pin, r.value.price)]
      ensures r.Ok? ==> r.value.pnr !in Pnrs(old(bookings)) && r.value.pin !in Pins(old(bookings))
      ensures r.Ok? ==> exists i :: (0 <= i < |pnrDraws| && r.value.pnr == pnrDraws[i]
                                     && forall j :: 0 <= j < i ==> pnrDraws[j] in Pnrs(old(bookings)))
      ensures r.Ok? ==> exists i :: (0 <= i < |pinDraws| && r.value.pin == pinDraws[i]
                                     && forall j :: 0 <= j < i ==> pinDraws[j] in Pins(old(bookings)))
      ensures r.Ok? ==> r.value.price == Pricing.CalculatePrice(old(flights)[req.flightId].basePrice,
        old(flights)[req.flightId].totalSeats, old(flights)[req.flightId].availableSeats,
        hoursToDeparture, randomFactor)
      ensures users == old(users) && airports == old(airports) && airlines == old(airlines)
    {
      if req.flightId !in flights {
        return Fail(404);
      }
      var flight := flights[req.flightId];
      if !(req.seatId in seats && seats[req.seatId].isAvailable) {
        return Fail(400);
      }
      var seat := seats[req.seatId];
      var price := Pricing.CalculatePrice(flight.basePrice, flight.totalSeats, flight.availableSeats,
        hoursToDeparture, randomFactor);
      var i := FirstUnused(pnrDraws, Pnrs(bookings));
      var pnr := pnrDraws[i];
      var j := FirstUnused(pinDraws, Pins(bookings));
      var pin := pinDraws[j];
      var booking := NewBooking(req, pnr, pin, price);
      OpenSeatIsFree(bookings, seats, req.seatId);
      var id := FreshKey(bookings.Keys);
      AddBookingKeepsConstraints(bookings, id, booking);
      seats := seats[req.seatId := seat.(isAvailable := false)];
      flights := flights[req.flightId := flight.(availableSeats := flight.availableSeats - 1)];
      bookings := bookings[id := booking];
      r := Ok(Confirmation(id, pnr, pin, price));
    }

    /** Payment for a list of bookings: 400 for an empty list, 404 when the
        rows found are fewer than the ids (an unknown or repeated id), 400
        when a found booking is not pending. Otherwise every listed booking
        is confirmed, the rest untouched, and the total is the sum of their
        prices. Either every listed booking is confirmed or none is. */
    method ProcessPayment(bookingIds: seq<int>, paymentMethod: string) returns (r: Response<Payment>)
      requires Valid()
      modifies this
      ensures Valid()
      ensures r.Ok? <==> Payable(old(bookings), bookingIds)
      ensures |bookingIds| == 0 ==> r == Fail(400)
      ensures |bookingIds| > 0 && !(Elements(bookingIds) <= old(bookings).Keys && Distinct(bookingIds))
        ==> r == Fail(404)
      ensures (|bookingIds| > 0 && Elements(bookingIds) <= old(bookings).Keys && Distinct(bookingIds)
               && !Payable(old(bookings), bookingIds)) ==> r == Fail(400)
      ensures r.Fail? ==> r.status in {400, 404} && bookings == old(bookings)
      ensures r.Ok? ==> bookings == ConfirmAll(old(bookings), Elements(bookingIds))
      ensures r.Ok? ==> r.value.bookingIds == SortedElements(Elements(bookingIds))
      ensures r.Ok? ==> r.value.totalAmount == SumPrices(old(bookings), r.value.bookingIds)
      ensures r.Ok? ==> r.value.paymentMethod == paymentMethod
      ensures users == old(users) && airports == old(airports) && airlines == old(airlines)
      ensures flights == old(flights) && seats == old(seats)
    {
      var found := Selected(bookings, bookingIds);
      var pending := PendingOf(bookings, found);
      PayableByCounts(bookings, bookingIds, pending);
      AllFoundByCount(bookings, bookingIds);
      SubsetSize(pending, found);
      if |bookingIds| == 0 {
        return Fail(400);
      }
      if |found| != |bookingIds| {
        return Fail(404);
      }
      if |pending| == 0 {
        return Fail(400);
      }
      if |pending| < |bookingIds| {
        return Fail(400);
      }
      var rows := SortedElements(pending);
      PayableRows(bookings, bookingIds, rows);
      var total := TotalPrice(rows);
      ghost var before := bookings;
      ConfirmRows(rows);
      ConfirmKeepsInvariant(before, seats, Elements(bookingIds));
      r := Ok(Payment(total, rows, paymentMethod));
    }

    /** The sum of the prices of the given bookings, in list order. */
    method TotalPrice(rows: seq<int>) returns (total: real)
      requires forall k :: 0 <= k < |rows| ==> rows[k] in bookings
      ensures total == SumPrices(bookings, rows)
    {
      total := 0.0;
      for i := 0 to |rows|
        invariant total == SumPrices(bookings, rows[..i])
      {
        assert rows[..i + 1][..i] == rows[..i];
        total := total + bookings[rows[i]].totalPrice;
      }
      assert rows[..|rows|] == rows;
    }

    /** Marks the given bookings confirmed, one after the other. */
    method ConfirmRows(rows: seq<int>)
      requires forall k :: 0 <= k < |rows| ==> rows[k] in bookings
      modifies this
      ensures bookings == ConfirmAll(old(bookings), Elements(rows))
      ensures users == old(users) && airports == old(airports) && airlines == old(airlines)
      ensures flights == old(flights) && seats == old(seats)
    {
      ghost var before := bookings;
      for i := 0 to |rows|
        invariant bookings.Keys == before.Keys
        invariant forall k :: k in bookings ==>
          bookings[k] == (if k in rows[..i] then before[k].(status := Confirmed) else before[k])
        invariant users == old(users) && airports == old(airports) && airlines == old(airlines)
        invariant flights == old(flights) && seats == old(seats)
      {
        bookings := bookings[rows[i] := bookings[rows[i]].(status := Confirmed)];
      }
      assert rows[..|rows|] == rows;
      var target := ConfirmAll(before, Elements(rows));
      forall k | k in bookings ensures bookings[k] == target[k] {
        assert k in rows <==> k in Elements(rows);
      }
      assert bookings == target;
    }

    /** Changing a flight: the administrator check first, 404 for an unknown
        flight, otherwise only the fields the update names change. */
    method AdminUpdateFlight(adminUserId: Option<int>, flightId: int, u: FlightUpdate) returns (r: Response<bool>)
      requires Valid()
      modifies this
      ensures Valid()
      ensures RequireAdmin(old(users), adminUserId).Fail? ==> r == Fail(RequireAdmin(old(users), adminUserId).status)
      ensures r.Ok? <==> RequireAdmin(old(users), adminUserId).Ok? && flightId in old(flights)
      ensures RequireAdmin(old(users), adminUserId).Ok? && flightId !in old(flights) ==> r == Fail(404)
      ensures r.Fail? ==> flights == old(flights)
      ensures r.Ok? ==> flights == old(flights)[flightId := ApplyUpdate(old(flights)[flightId], u)]
      ensures users == old(users) && airports == old(airports) && airlines == old(airlines)
      ensures seats == old(seats) && bookings == old(bookings)
    {
      var check := RequireAdmin(users, adminUserId);
      if check.Fail? {
        return Fail(check.status);
      }
      if flightId !in flights {
        return Fail(404);
      }
      flights := flights[flightId := ApplyUpdate(flights[flightId], u)];
      r := Ok(true);
    }

    /** Deleting a flight: the administrator check, 404 for an unknown flight,
        400 while any booking names the flight; otherwise the flight and all
        of its seats go. */
    method AdminDeleteFlight(adminUserId: Option<int>, flightId: int) returns (r: Response<bool>)
      requires Valid()
      modifies this
      ensures Valid()
      ensures RequireAdmin(old(users), adminUserId).Fail? ==> r == Fail(RequireAdmin(old(users), adminUserId).status)
      ensures RequireAdmin(old(users), adminUserId).Ok? && flightId !in old(flights) ==> r == Fail(404)
      ensures (RequireAdmin(old(users), adminUserId).Ok? && flightId in old(flights)
        && exists k :: k in old(bookings) && old(bookings)[k].flightId == flightId) ==> r == Fail(400)
      ensures r.Ok? <==> (RequireAdmin(old(users), adminUserId).Ok? && flightId in old(flights)
        && forall k :: k in old(bookings) ==> old(bookings)[k].flightId != flightId)
      ensures r.Fail? ==> flights == old(flights) && seats == old(seats)
      ensures r.Ok? ==> flights == old(flights) - {flightId}
      ensures r.Ok? ==> seats == map s | s in old(seats) && old(seats)[s].flightId != flightId :: old(seats)[s]
      ensures users == old(users) && airports == old(airports) && airlines == old(airlines)
      ensures bookings == old(bookings)
    {
      var check := RequireAdmin(users, adminUserId);
      if check.Fail? {
        return Fail(check.status);
      }
      if flightId !in flights {
        return Fail(404);
      }
      if exists k :: k in bookings && bookings[k].flightId == flightId {
        return Fail(400);
      }
      seats := map s | s in seats && seats[s].flightId != flightId :: seats[s];
      flights := flights - {flightId};
      r := Ok(true);
    }

    /** Searching: the flights in key order that pass every filter, each
        priced at the instant now with its own random factor, then sorted
        stably by the requested key. */
    method SearchFlights(params: SearchParams, now: int, factor: int -> real) returns (results: seq<SearchResult>)
      ensures OrderFor(params.sortBy).None? ==>
        results == Candidates(airports, airlines, flights, params, now, factor, SortedElements(flights.Keys))
      ensures multiset(results)
        == multiset(Candidates(airports, airlines, flights, params, now, factor, SortedElements(flights.Keys)))
      ensures OrderFor(params.sortBy).Some? ==> SortedBy(results, OrderFor(params.sortBy).value)
      ensures OrderFor(params.sortBy).Some? ==>
        results == SortBy(Candidates(airports, airlines, flights, params, now, factor, SortedElements(flights.Keys)),
                          OrderFor(params.sortBy).value)
    {
      var ids := SortedElements(flights.Keys);
      var rows: seq<SearchResult> := [];
      for k := 0 to |ids|
        invariant rows == Candidates(airports, airlines, flights, params, now, factor, ids[..k])
      {
        assert ids[..k + 1][..k] == ids[..k] && ids[..k + 1][k] == ids[k];
        var f := flights[ids[k]];
        if Matches(airports, airlines, params, f) {
          rows := rows + [ResultFor(ids[k], f, now, factor(ids[k]))];
        }
      }
      assert ids[..|ids|] == ids;
      var order := OrderFor(params.sortBy);
      if order.Some? {
        OrdersArePreorders(params.sortBy);
        SortBySorted(rows, order.value);
        results := SortBy(rows, order.value);
      } else {
        results := rows;
      }
    }
  }

  /** The result rows for the flights with the given keys, in key order,
      keeping those that pass the filters. */
  function Candidates(airports: map<int, Airport>, airlines: map<int, Airline>, flights: map<int, Flight>,
                      params: SearchParams, now: int, factor: int -> real, ids: seq<int>): (rows: seq<SearchResult>)
    requires forall i :: 0 <= i < |ids| ==> ids[i] in flights
    ensures |rows| <= |ids|
  {
    if ids == [] then []
    else
      var rest := Candidates(airports, airlines, flights, params, now, factor, ids[..|ids| - 1]);
      var id := ids[|ids| - 1];
      if Matches(airports, airlines, params, flights[id]) then rest + [ResultFor(id, flights[id], now, factor(id))]
      else rest
  }

  /** Each search row is a flight of the given keys that passes the
      filters, priced for the search. */
  lemma {:induction false} CandidatesSound(airports: map<int, Airport>, airlines: map<int, Airline>,
      flights: map<int, Flight>, params: SearchParams, now: int, factor: int -> real, ids: seq<int>)
    requires forall i :: 0 <= i < |ids| ==> ids[i] in flights
    ensures forall r :: r in Candidates(airports, airlines, flights, params, now, factor, ids) ==>
      r.flightId in ids && r.flight == flights[r.flightId] && Matches(airports, airlines, params, r.flight)
      && r == ResultFor(r.flightId, r.flight, now, factor(r.flightId))
  {
    if ids != [] {
      var init := ids[..|ids| - 1];
      CandidatesSound(airports, airlines, flights, params, now, factor, init);
      assert forall x :: x in init ==> x in ids;
    }
  }

  /** Every flight of the given keys that passes the filters has a row. */
  lemma {:induction false} CandidatesComplete(airports: map<int, Airport>, airlines: map<int, Airline>,
      flights: map<int, Flight>, params: SearchParams, now: int, factor: int -> real, ids: seq<int>)
    requires forall i :: 0 <= i < |ids| ==> ids[i] in flights
    ensures forall i :: 0 <= i < |ids| && Matches(airports, airlines, params, flights[ids[i]]) ==>
      ids[i] in FlightIds(Candidates(airports, airlines, flights, params, now, factor, ids))
  {
    if ids != [] {
      var init := ids[..|ids| - 1];
      var rest := Candidates(airports, airlines, flights, params, now, factor, init);
      var rows := Candidates(airports, airlines, flights, params, now, factor, ids);
      CandidatesComplete(airports, airlines, flights, params, now, factor, init);
      assert forall j :: 0 <= j < |rest| ==> FlightIds(rows)[j] == FlightIds(rest)[j];
      forall i | 0 <= i < |ids| && Matches(airports, airlines, params, flights[ids[i]])
        ensures ids[i] in FlightIds(rows)
      {
        if i < |ids| - 1 {
          assert ids[i] == init[i];
        } else {
          assert FlightIds(rows)[|rows| - 1] == ids[i];
        }
      }
    }
  }

  /** Rows follow the order of the keys, so no flight is shown twice. */
  lemma {:induction false} CandidatesOrdered(airports: map<int, Airport>, airlines: map<int, Airline>,
      flights: map<int, Flight>, params: SearchParams, now: int, factor: int -> real, ids: seq<int>)
    requires forall i :: 0 <= i < |ids| ==> ids[i] in flights
    requires StrictlyIncreasing(ids)
    ensures StrictlyIncreasing(FlightIds(Candidates(airports, airlines, flights, params, now, factor, ids)))
  {
    if ids != [] {
      var init := ids[..|ids| - 1];
      var rest := Candidates(airports, airlines, flights, params, now, factor, init);
      var id := ids[|ids| - 1];
      CandidatesOrdered(airports, airlines, flights, params, now, factor, init);
      CandidatesSound(airports, airlines, flights, params, now, factor, init);
      if Matches(airports, airlines, params, flights[id]) {
        forall k | 0 <= k < |rest| ensures rest[k].flightId < id {
          assert rest[k] in rest;
          var m :| 0 <= m < |init| && init[m] == rest[k].flightId;
          assert init[m] == ids[m];
        }
        var rows := Candidates(airports, airlines, flights, params, now, factor, ids);
        assert forall j :: 0 <= j < |rest| ==> FlightIds(rows)[j] == FlightIds(rest)[j];
      }
    }
  }

  /** Rows for keys in ascending order are all different. */
  lemma {:induction false} CandidatesDistinct(airports: map<int, Airport>, airlines: map<int, Airline>,
      flights: map<int, Flight>, params: SearchParams, now: int, factor: int -> real, ids: seq<int>)
    requires forall i :: 0 <= i < |ids| ==> ids[i] in flights
    requires StrictlyIncreasing(ids)
    ensures Distinct(Candidates(airports, airlines, flights, params, now, factor, ids))
  {
    var c := Candidates(airports, airlines, flights, params, now, factor, ids);
    CandidatesOrdered(airports, airlines, flights, params, now, factor, ids);
    forall a, b | 0 <= a < b < |c| ensures c[a] != c[b] {
      assert FlightIds(c)[a] < FlightIds(c)[b];
    }
  }

  /** Sorting the search rows is stable: rows whose keys tie under the
      sort order keep the query order, which is ascending flight key. */
  lemma {:induction false} SearchTiesInKeyOrder(airports: map<int, Airport>, airlines: map<int, Airline>,
      flights: map<int, Flight>, params: SearchParams, now: int, factor: int -> real, ids: seq<int>,
      le: (SearchResult, SearchResult) -> bool, p: nat, q: nat)
    requires forall i :: 0 <= i < |ids| ==> ids[i] in flights
    requires StrictlyIncreasing(ids)
    requires p < q < |SortBy(Candidates(airports, airlines, flights, params, now, factor, ids), le)|
    requires le(SortBy(Candidates(airports, airlines, flights, params, now, factor, ids), le)[q],
                SortBy(Candidates(airports, airlines, flights, params, now, factor, ids), le)[p])
    ensures SortBy(Candidates(airports, airlines, flights, params, now, factor, ids), le)[p].flightId
          < SortBy(Candidates(airports, airlines, flights, params, now, factor, ids), le)[q].flightId
  {
    var c := Candidates(airports, airlines, flights, params, now, factor, ids);
    CandidatesDistinct(airports, airlines, flights, params, now, factor, ids);
    CandidatesOrdered(airports, airlines, flights, params, now, factor, ids);
    var i, j := SortByTieOrigins(c, le, p, q);
    assert FlightIds(c)[i] < FlightIds(c)[j];
  }

  predicate StrictlyIncreasing(s: seq<int>) {
    forall i, j :: 0 <= i < j < |s| ==> s[i] < s[j]
  }
}
