/** The checkout session of the booking page: the flight being booked, the
    bookings made for it, the seats picked on the seat map and the number of
    seats wanted. Seat picking toggles seats within that number; booking
    sends one request per picked seat and keeps the replies only when every
    one of them is a booking with an id; payment sends the ids of those
    bookings in one request and keeps the confirmed bookings on success.
    The network is an input: the reply to each request is a parameter. */
module Checkout {
  import opened Common
  import SeatGrid

  /** A picked seat: its id and its seat number. */
  datatype SelectedSeat = SelectedSeat(id: int, number: string)

  /** The part of a flight record the session uses. */
  datatype FlightChoice = FlightChoice(id: int, currentPrice: real)

  /** A booking record as the server returns it; the id may be missing. */
  datatype ClientBooking = ClientBooking(id: Option<int>, pnr: string, status: string)

  /** The reply to one booking request: a non-error status with a booking,
      or an error status (a failed request or an unreadable reply is one
      too). */
  datatype BookingOutcome = Created(booking: ClientBooking) | Rejected(status: int)

  /** The reply to the payment request: an error, or an ok reply with its
      success flag and, when present, the confirmed bookings. */
  datatype PaymentOutcome =
    | PaymentFailed(status: int)
    | PaymentReply(success: bool, bookings: Option<seq<ClientBooking>>)

  /** The passenger fields of the booking form. */
  datatype PassengerForm = PassengerForm(name: string, email: string, phone: string)

  /** The body of one booking request. */
  datatype BookingRequest = BookingRequest(flightId: int, seatId: int, passenger: PassengerForm, userId: Option<int>)

  /** The body of the payment request. */
  datatype PaymentRequest = PaymentRequest(bookingIds: seq<int>, paymentMethod: string)

  // ------------------------------------------------------------------
  // Seat selection
  // ------------------------------------------------------------------

  /** Some picked seat has the id. */
  predicate Picked(sel: seq<SelectedSeat>, id: int) {
    exists k :: 0 <= k < |sel| && sel[k].id == id
  }

  /** No seat id is picked twice. */
  predicate DistinctIds(sel: seq<SelectedSeat>) {
    forall i, j :: 0 <= i < j < |sel| ==> sel[i].id != sel[j].id
  }

  /** The first position holding the seat id, as findIndex finds it. */
  function IndexOf(sel: seq<SelectedSeat>, id: int): (k: Option<nat>)
    ensures k.Some? ==> k.value < |sel| && sel[k.value].id == id
                        && forall j :: 0 <= j < k.value ==> sel[j].id != id
    ensures k.None? ==> forall j :: 0 <= j < |sel| ==> sel[j].id != id
  {
    if sel == [] then None
    else if sel[0].id == id then Some(0)
    else match IndexOf(sel[1..], id)
      case None => None
      case Some(j) => Some(j + 1)
  }

  /** The selection after clicking a seat: a picked seat is taken out, a
      new one is added at the end while fewer than count seats are picked,
      and otherwise nothing changes. */
  function Toggled(sel: seq<SelectedSeat>, count: nat, id: int, number: string): (t: seq<SelectedSeat>)
    ensures Picked(sel, id) ==> |t| + 1 == |sel|
    ensures !Picked(sel, id) ==> |sel| <= |t| && t[..|sel|] == sel
    ensures |t| <= |sel| || |t| <= count
  {
    match IndexOf(sel, id)
    case Some(k) => sel[..k] + sel[k + 1..]
    case None => if |sel| < count then sel + [SelectedSeat(id, number)] else sel
  }

  /** The selection without the seats of one id, order kept. */
  function Without(sel: seq<SelectedSeat>, id: int): seq<SelectedSeat> {
    if sel == [] then []
    else (if sel[0].id == id then [] else [sel[0]]) + Without(sel[1..], id)
  }

  lemma {:induction false} WithoutConcat(a: seq<SelectedSeat>, b: seq<SelectedSeat>, id: int)
    ensures Without(a + b, id) == Without(a, id) + Without(b, id)
  {
    if a != [] {
      var ab := a + b;
      assert ab[0] == a[0] && ab[1..] == a[1..] + b;
      WithoutConcat(a[1..], b, id);
    } else {
      assert a + b == b;
    }
  }

  lemma {:induction false} WithoutAbsent(a: seq<SelectedSeat>, id: int)
    requires forall j :: 0 <= j < |a| ==> a[j].id != id
    ensures Without(a, id) == a
  {
    if a != [] {
      WithoutAbsent(a[1..], id);
    }
  }

  /** Taking out the one entry of an id is filtering that id out. */
  lemma {:induction false} RemoveOnly(sel: seq<SelectedSeat>, k: nat, id: int)
    requires k < |sel| && sel[k].id == id
    requires forall j :: 0 <= j < |sel| && j != k ==> sel[j].id != id
    ensures sel[..k] + sel[k + 1..] == Without(sel, id)
  {
    var before, after := sel[..k], sel[k + 1..];
    assert sel == before + [sel[k]] + after;
    WithoutConcat(before + [sel[k]], after, id);
    WithoutConcat(before, [sel[k]], id);
    WithoutAbsent(before, id);
    WithoutAbsent(after, id);
    assert Without([sel[k]], id) == [];
  }

  /** With distinct ids, no entry but the k-th has the k-th entry's id. */
  lemma {:induction false} OthersDiffer(sel: seq<SelectedSeat>, k: nat)
    requires DistinctIds(sel) && k < |sel|
    ensures forall j :: 0 <= j < |sel| && j != k ==> sel[j].id != sel[k].id
  {
    forall j | 0 <= j < |sel| && j != k ensures sel[j].id != sel[k].id {
      if j < k {
        assert sel[j].id != sel[k].id;
      } else {
        assert sel[k].id != sel[j].id;
      }
    }
  }

  /** Once the only entry of an id is taken out, the id is not picked. */
  lemma {:induction false} RemovedNotPicked(sel: seq<SelectedSeat>, k: nat, id: int)
    requires k < |sel|
    requires forall j :: 0 <= j < |sel| && j != k ==> sel[j].id != id
    ensures !Picked(sel[..k] + sel[k + 1..], id)
  {
    var t := sel[..k] + sel[k + 1..];
    forall j | 0 <= j < |t| ensures t[j].id != id {
      if j < k {
        assert t[j] == sel[j];
      } else {
        assert t[j] == sel[j + 1];
      }
    }
  }

  /** Clicking a picked seat removes exactly the entry of that id and keeps
      the others in order, however many seats are wanted. */
  lemma {:induction false} ToggleDeselects(sel: seq<SelectedSeat>, count: nat, id: int, number: string)
    requires DistinctIds(sel)
    requires Picked(sel, id)
    ensures Toggled(sel, count, id, number) == Without(sel, id)
    ensures |Toggled(sel, count, id, number)| == |sel| - 1
    ensures !Picked(Toggled(sel, count, id, number), id)
  {
    var k := IndexOf(sel, id).value;
    assert Toggled(sel, count, id, number) == sel[..k] + sel[k + 1..];
    OthersDiffer(sel, k);
    RemoveOnly(sel, k, id);
    RemovedNotPicked(sel, k, id);
  }

  /** Clicking a seat not picked adds it at the end while fewer than count
      seats are picked and changes nothing otherwise. */
  lemma {:induction false} ToggleSelects(sel: seq<SelectedSeat>, count: nat, id: int, number: string)
    requires !Picked(sel, id)
    ensures |sel| < count ==> Toggled(sel, count, id, number) == sel + [SelectedSeat(id, number)]
    ensures |sel| >= count ==> Toggled(sel, count, id, number) == sel
  {
  }

  /** Picked ids stay distinct and never more than the number wanted. */
  lemma {:induction false} ToggleKeepsBound(sel: seq<SelectedSeat>, count: nat, id: int, number: string)
    requires DistinctIds(sel) && |sel| <= count
    ensures DistinctIds(Toggled(sel, count, id, number))
    ensures |Toggled(sel, count, id, number)| <= count
  {
    var t := Toggled(sel, count, id, number);
    if Picked(sel, id) {
      ToggleDeselects(sel, count, id, number);
      var k := IndexOf(sel, id).value;
      assert forall j :: 0 <= j < |t| ==> t[j] == (if j < k then sel[j] else sel[j + 1]);
    } else if |sel| < count {
      assert forall j :: 0 <= j < |sel| ==> t[j] == sel[j];
    }
  }

  /** Clicking a new seat twice leaves the selection as it was. */
  lemma {:induction false} ToggleTwice(sel: seq<SelectedSeat>, count: nat, id: int, number: string)
    requires DistinctIds(sel) && !Picked(sel, id) && |sel| < count
    ensures Toggled(Toggled(sel, count, id, number), count, id, number) == sel
  {
    var t := sel + [SelectedSeat(id, number)];
    assert Toggled(sel, count, id, number) == t;
    assert forall j :: 0 <= j < |sel| ==> t[j] == sel[j];
    assert t[|sel|].id == id;
    assert IndexOf(t, id) == Some(|sel|);
    assert t[..|sel|] + t[|sel| + 1..] == sel;
  }

  /** The confirm button is enabled exactly when some seats are picked and
      as many as are wanted. */
  function ConfirmEnabled(count: nat, sel: seq<SelectedSeat>): (enabled: bool)
    ensures enabled <==> 0 < |sel| && |sel| == count
  {
    if |sel| == 0 then false else |sel| == count
  }

  /** Once the confirm button is enabled, the selection is full: clicking a
      seat not yet picked changes nothing. */
  lemma {:induction false} EnabledSelectionIsFull(sel: seq<SelectedSeat>, count: nat, id: int, number: string)
    requires ConfirmEnabled(count, sel)
    requires !Picked(sel, id)
    ensures Toggled(sel, count, id, number) == sel
  {
  }

  /** While a non-empty selection within the count leaves the button
      disabled, clicking a seat not yet picked adds it. */
  lemma {:induction false} DisabledSelectionGrows(sel: seq<SelectedSeat>, count: nat, id: int, number: string)
    requires 0 < |sel| <= count && !ConfirmEnabled(count, sel)
    requires !Picked(sel, id)
    ensures Toggled(sel, count, id, number) == sel + [SelectedSeat(id, number)]
  {
  }

  // ------------------------------------------------------------------
  // Booking and payment replies
  // ------------------------------------------------------------------

  /** A reply counts as a booking when it is not an error and its id is
      present and not zero (zero is falsy on the page). */
  predicate HasId(o: BookingOutcome) {
    o.Created? && o.booking.id.Some? && o.booking.id.value != 0
  }

  /** The bookings of a batch of replies, when every reply is a booking with
      an id, in request order; nothing otherwise. */
  function Accepted(outcomes: seq<BookingOutcome>): (r: Option<seq<ClientBooking>>)
    ensures r.Some? <==> forall k :: 0 <= k < |outcomes| ==> HasId(outcomes[k])
    ensures r.Some? ==> |r.value| == |outcomes| && forall k :: 0 <= k < |outcomes| ==> r.value[k] == outcomes[k].booking
  {
    if outcomes == [] then Some([])
    else if !HasId(outcomes[0]) then None
    else match Accepted(outcomes[1..])
      case None => None
      case Some(rest) => Some([outcomes[0].booking] + rest)
  }

  /** The ids of the bookings that have one, in order; a zero id is kept. */
  function BookingIds(bs: seq<ClientBooking>): (ids: seq<int>)
    ensures |ids| <= |bs|
    ensures forall x :: x in ids <==> exists k :: 0 <= k < |bs| && bs[k].id == Some(x)
  {
    if bs == [] then []
    else (if bs[0].id.Some? then [bs[0].id.value] else []) + BookingIds(bs[1..])
  }

  /** The ids of two runs of bookings follow one another. */
  lemma {:induction false} BookingIdsConcat(a: seq<ClientBooking>, b: seq<ClientBooking>)
    ensures BookingIds(a + b) == BookingIds(a) + BookingIds(b)
  {
    if a != [] {
      var ab := a + b;
      assert ab[0] == a[0] && ab[1..] == a[1..] + b;
      BookingIdsConcat(a[1..], b);
    } else {
      assert a + b == b;
    }
  }

  /** When every booking has an id, the ids are those of the bookings, one
      each, in order. */
  lemma {:induction false} BookingIdsAllPresent(bs: seq<ClientBooking>)
    requires forall k :: 0 <= k < |bs| ==> bs[k].id.Some?
    ensures |BookingIds(bs)| == |bs|
    ensures forall k :: 0 <= k < |bs| ==> BookingIds(bs)[k] == bs[k].id.value
  {
    if bs != [] {
      BookingIdsAllPresent(bs[1..]);
    }
  }

  /** After an accepted batch, payment asks for the ids of the bookings just
      made, one per picked seat, in picking order, and none of them zero. */
  lemma {:induction false} AcceptedBatchPaysAll(outcomes: seq<BookingOutcome>)
    requires Accepted(outcomes).Some?
    ensures |BookingIds(Accepted(outcomes).value)| == |outcomes|
    ensures forall k :: 0 <= k < |outcomes| ==>
      outcomes[k].booking.id == Some(BookingIds(Accepted(outcomes).value)[k])
      && BookingIds(Accepted(outcomes).value)[k] != 0
  {
    var bs := Accepted(outcomes).value;
    assert forall k :: 0 <= k < |bs| ==> bs[k].id.Some? by {
      forall k | 0 <= k < |bs| ensures bs[k].id.Some? {
        assert HasId(outcomes[k]);
      }
    }
    BookingIdsAllPresent(bs);
    forall k | 0 <= k < |outcomes|
      ensures outcomes[k].booking.id == Some(BookingIds(bs)[k]) && BookingIds(bs)[k] != 0
    {
      assert HasId(outcomes[k]);
    }
  }

  // ------------------------------------------------------------------
  // The session
  // ------------------------------------------------------------------

  class CheckoutSession {
    var currentFlight: Option<FlightChoice>
    var currentBooking: Option<seq<ClientBooking>>
    var selectedSeatIds: seq<SelectedSeat>
    var seatCount: nat

    /** Picked seat ids are distinct and no more than the number wanted. */
    predicate Valid()
      reads this
    {
      DistinctIds(selectedSeatIds) && |selectedSeatIds| <= seatCount
    }

    /** The state at page load: nothing chosen, one seat wanted. */
    constructor ()
      ensures Valid()
      ensures currentFlight == None && currentBooking == None
      ensures selectedSeatIds == [] && seatCount == 1
    {
      currentFlight := None;
      currentBooking := None;
      selectedSeatIds := [];
      seatCount := 1;
    }

    /** Opening a flight: the selection is emptied and the number wanted is
        read from the seat-count control. */
    method SelectFlight(flight: FlightChoice, controlCount: nat)
      modifies this
      ensures Valid()
      ensures currentFlight == Some(flight) && selectedSeatIds == [] && seatCount == controlCount
      ensures currentBooking == old(currentBooking)
    {
      currentFlight := Some(flight);
      selectedSeatIds := [];
      seatCount := controlCount;
    }

    /** Changing the number of seats wanted keeps the oldest picks that
        fit, and a selection that already fits as it is. */
    method UpdateSeatSelection(newCount: nat)
      requires Valid()
      modifies this
      ensures Valid()
      ensures seatCount == newCount
      ensures |selectedSeatIds| == if |old(selectedSeatIds)| <= newCount then |old(selectedSeatIds)| else newCount
      ensures selectedSeatIds == old(selectedSeatIds)[..|selectedSeatIds|]
      ensures currentFlight == old(currentFlight) && currentBooking == old(currentBooking)
    {
      seatCount := newCount;
      if |selectedSeatIds| > seatCount {
        selectedSeatIds := selectedSeatIds[..seatCount];
      }
    }

    /** Clicking a seat on the map; only available seats can be clicked. */
    method SelectSeat(seat: SeatGrid.ClientSeat)
      requires Valid()
      requires seat.isAvailable
      modifies this
      ensures Valid()
      ensures selectedSeatIds == Toggled(old(selectedSeatIds), seatCount, seat.id, seat.seatNumber)
      ensures seatCount == old(seatCount)
      ensures currentFlight == old(currentFlight) && currentBooking == old(currentBooking)
    {
      ToggleKeepsBound(selectedSeatIds, seatCount, seat.id, seat.seatNumber);
      var index := IndexOf(selectedSeatIds, seat.id);
      match index
      case Some(k) =>
        selectedSeatIds := selectedSeatIds[..k] + selectedSeatIds[k + 1..];
      case None =>
        if |selectedSeatIds| < seatCount {
          selectedSeatIds := selectedSeatIds + [SelectedSeat(seat.id, seat.seatNumber)];
        }
    }

    /** Submitting the booking form. Requests go out only for a complete
        selection, one per picked seat in picking order; outcomes[k] is the
        reply to the k-th. The replies are kept when all are bookings with
        ids; otherwise the flight is opened afresh, which empties the
        selection and leaves the bookings as they were. */
    method HandleBooking(form: PassengerForm, userId: Option<int>, outcomes: seq<BookingOutcome>, controlCount: nat)
      returns (requests: seq<BookingRequest>)
      requires Valid()
      requires |outcomes| == |selectedSeatIds|
      modifies this
      ensures Valid()
      ensures |requests| > 0 <==> ConfirmEnabled(old(seatCount), old(selectedSeatIds)) && old(currentFlight).Some?
      ensures |requests| > 0 ==> |requests| == |old(selectedSeatIds)|
      ensures forall k :: 0 <= k < |requests| ==>
        requests[k] == BookingRequest(old(currentFlight).value.id, old(selectedSeatIds)[k].id, form, userId)
      ensures currentFlight == old(currentFlight)
      ensures |requests| == 0 ==>
        currentBooking == old(currentBooking) && selectedSeatIds == old(selectedSeatIds) && seatCount == old(seatCount)
      ensures |requests| > 0 && Accepted(outcomes).Some? ==>
        currentBooking == Accepted(outcomes) && selectedSeatIds == old(selectedSeatIds) && seatCount == old(seatCount)
      ensures |requests| > 0 && Accepted(outcomes).None? ==>
        currentBooking == old(currentBooking) && selectedSeatIds == [] && seatCount == controlCount
    {
      requests := [];
      if |selectedSeatIds| == 0 || |selectedSeatIds| != seatCount {
        return;
      }
      if currentFlight.None? {
        // The request body reads the flight id and fails before any request.
        return;
      }
      var flightId := currentFlight.value.id;
      for k := 0 to |selectedSeatIds|
        invariant |requests| == k
        invariant forall j :: 0 <= j < k ==> requests[j] == BookingRequest(flightId, selectedSeatIds[j].id, form, userId)
      {
        requests := requests + [BookingRequest(flightId, selectedSeatIds[k].id, form, userId)];
      }
      var bookings := Accepted(outcomes);
      match bookings
      case Some(bs) =>
        currentBooking := Some(bs);
      case None =>
        SelectFlight(currentFlight.value, controlCount);
    }

    /** Submitting the payment form. One request goes out with the ids of
        the current bookings in order, those without an id dropped, unless
        there are no bookings, no such ids or no payment method. The
        bookings are replaced only by an ok, successful reply that carries
        bookings. */
    method HandlePayment(paymentMethod: Option<string>, outcome: PaymentOutcome) returns (request: Option<PaymentRequest>)
      modifies this
      ensures request.Some? <==>
        old(currentBooking).Some? && |BookingIds(old(currentBooking).value)| > 0 && paymentMethod.Some?
      ensures request.Some? ==> request.value == PaymentRequest(BookingIds(old(currentBooking).value), paymentMethod.value)
      ensures currentBooking ==
        if request.Some? && outcome.PaymentReply? && outcome.success && outcome.bookings.Some?
        then outcome.bookings else old(currentBooking)
      ensures currentFlight == old(currentFlight) && selectedSeatIds == old(selectedSeatIds) && seatCount == old(seatCount)
    {
      request := None;
      if currentBooking.None? || |currentBooking.value| == 0 {
        return;
      }
      var ids := BookingIds(currentBooking.value);
      if |ids| == 0 {
        return;
      }
      if paymentMethod.None? {
        return;
      }
      request := Some(PaymentRequest(ids, paymentMethod.value));
      match outcome
      case PaymentFailed(_) =>
      case PaymentReply(success, bookings) =>
        if success && bookings.Some? {
          currentBooking := bookings;
        }
    }

    /** Starting a new search clears the session and wants one seat. */
    method ResetSearch()
      modifies this
      ensures Valid()
      ensures currentFlight == None && currentBooking == None
      ensures selectedSeatIds == [] && seatCount == 1
    {
      currentFlight := None;
      currentBooking := None;
      selectedSeatIds := [];
      seatCount := 1;
    }
  }
}
