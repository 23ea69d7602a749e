/** The database schema: one record type per table, the column defaults, and
    the uniqueness constraints the tables declare. A table is a map from the
    integer primary key to its row. */
module Schema {
  import opened Common

  datatype User = User(email: string, name: string, passwordHash: string, isAdmin: bool)

  datatype Airport = Airport(code: string, name: string, city: string, country: string)

  datatype Airline = Airline(code: string, name: string)

  /** Departure and arrival are instants in seconds. */
  datatype Flight = Flight(
    flightNumber: string,
    airlineId: int,
    originId: int,
    destinationId: int,
    departureTime: int,
    arrivalTime: int,
    basePrice: real,
    totalSeats: int,
    availableSeats: int,
    aircraftType: string)

  datatype Seat = Seat(flightId: int, seatNumber: string, seatClass: string, isAvailable: bool)

  /** The status column is free text; the program writes "pending" and
      "confirmed" only. */
  datatype BookingStatus = Pending | Confirmed | OtherStatus(name: string)

  datatype Booking = Booking(
    pnr: string,
    uniquePin: string,
    flightId: int,
    seatId: int,
    userId: Option<int>,
    passengerName: string,
    passengerEmail: string,
    passengerPhone: string,
    totalPrice: real,
    status: BookingStatus)

  // ------------------------------------------------------------------
  // Column defaults: a user is not an administrator, a seat is available and
  // a booking is pending unless the insert says otherwise.
  // ------------------------------------------------------------------

  function NewUser(email: string, name: string, passwordHash: string): (u: User)
    ensures !u.isAdmin
    ensures u.email == email && u.name == name && u.passwordHash == passwordHash
  {
    User(email, name, passwordHash, false)
  }

  function NewSeat(flightId: int, seatNumber: string, seatClass: string): (s: Seat)
    ensures s.isAvailable
    ensures s.flightId == flightId && s.seatNumber == seatNumber && s.seatClass == seatClass
  {
    Seat(flightId, seatNumber, seatClass, true)
  }

  // ------------------------------------------------------------------
  // Unique constraints
  // ------------------------------------------------------------------

  ghost predicate UniqueEmails(users: map<int, User>) {
    forall i, j :: i in users && j in users && i != j ==> users[i].email != users[j].email
  }

  ghost predicate UniqueAirportCodes(airports: map<int, Airport>) {
    forall i, j :: i in airports && j in airports && i != j ==> airports[i].code != airports[j].code
  }

  ghost predicate UniqueAirlineCodes(airlines: map<int, Airline>) {
    forall i, j :: i in airlines && j in airlines && i != j ==> airlines[i].code != airlines[j].code
  }

  ghost predicate UniquePnrs(bookings: map<int, Booking>) {
    forall i, j :: i in bookings && j in bookings && i != j ==> bookings[i].pnr != bookings[j].pnr
  }

  ghost predicate UniquePins(bookings: map<int, Booking>) {
    forall i, j :: i in bookings && j in bookings && i != j ==> bookings[i].uniquePin != bookings[j].uniquePin
  }

  ghost predicate UniqueSeatRefs(bookings: map<int, Booking>) {
    forall i, j :: i in bookings && j in bookings && i != j ==> bookings[i].seatId != bookings[j].seatId
  }

  /** Every constraint of the bookings table. */
  ghost predicate BookingsConstraints(bookings: map<int, Booking>) {
    UniquePnrs(bookings) && UniquePins(bookings) && UniqueSeatRefs(bookings)
  }

  function Pnrs(bookings: map<int, Booking>): set<string> {
    set k | k in bookings :: bookings[k].pnr
  }

  function Pins(bookings: map<int, Booking>): set<string> {
    set k | k in bookings :: bookings[k].uniquePin
  }

  predicate SeatReferenced(bookings: map<int, Booking>, seatId: int) {
    exists k :: k in bookings && bookings[k].seatId == seatId
  }

  predicate EmailTaken(users: map<int, User>, email: string) {
    exists k :: k in users && users[k].email == email
  }

  function BookingsOfSeat(bookings: map<int, Booking>, seatId: int): set<int> {
    set k | k in bookings && bookings[k].seatId == seatId
  }

  /** Under the seat constraint a seat is held by at most one booking. */
  lemma {:induction false} AtMostOneBookingPerSeat(bookings: map<int, Booking>, seatId: int)
    requires UniqueSeatRefs(bookings)
    ensures |BookingsOfSeat(bookings, seatId)| <= 1
  {
    var held := BookingsOfSeat(bookings, seatId);
    if held != {} {
      NonEmptyHasElement(held);
      var k :| k in held;
      assert held == {k} by {
        forall j | j in held ensures j == k {
          assert bookings[j].seatId == bookings[k].seatId;
        }
      }
    }
  }

  /** A new row whose PNR, PIN and seat are not yet used keeps every
      constraint of the bookings table. */
  lemma {:induction false} AddBookingKeepsConstraints(bookings: map<int, Booking>, id: int, b: Booking)
    requires BookingsConstraints(bookings)
    requires id !in bookings
    requires b.pnr !in Pnrs(bookings) && b.uniquePin !in Pins(bookings)
    requires !SeatReferenced(bookings, b.seatId)
    ensures BookingsConstraints(bookings[id := b])
  {
    var bs := bookings[id := b];
    forall i, j | i in bs && j in bs && i != j
      ensures bs[i].pnr != bs[j].pnr && bs[i].uniquePin != bs[j].uniquePin && bs[i].seatId != bs[j].seatId
    {
      if i == id {
        assert bs[j].pnr in Pnrs(bookings) && bs[j].uniquePin in Pins(bookings);
      } else if j == id {
        assert bs[i].pnr in Pnrs(bookings) && bs[i].uniquePin in Pins(bookings);
      }
    }
  }

  /** Changing only the status of existing rows keeps every constraint. */
  lemma {:induction false} RestatusKeepsConstraints(bookings: map<int, Booking>, changed: map<int, Booking>)
    requires BookingsConstraints(bookings)
    requires changed.Keys == bookings.Keys
    requires forall k :: k in changed ==> changed[k] == bookings[k].(status := changed[k].status)
    ensures BookingsConstraints(changed)
  {
  }
}
