/** The sample-data generator: the route table, three flights per route, the
    seat count of each aircraft type, and the seats of every flight numbered
    row by row, six to a row. */
module Seed {
  import opened Common
  import opened Schema

  // ------------------------------------------------------------------
  // Seat numbering
  // ------------------------------------------------------------------

  /** The row of the n-th seat (n counts from 1). */
  function SeatRow(n: nat): (row: nat)
    requires n >= 1
    ensures row >= 1
  {
    (n - 1) / 6 + 1
  }

  /** The column letter of the n-th seat. */
  function SeatColumn(n: nat): (col: char)
    requires n >= 1
    ensures 'A' <= col <= 'F'
  {
    (65 + (n - 1) % 6) as char
  }

  /** The seat number of the n-th seat: the row in decimal followed by the
      column letter. */
  function SeatNumber(n: nat): (s: string)
    requires n >= 1
    ensures |s| >= 2 && AllDigits(s[..|s| - 1]) && 'A' <= s[|s| - 1] <= 'F'
  {
    NatToDecimal(SeatRow(n)) + [SeatColumn(n)]
  }

  /** Six consecutive seats share a row: row r holds seats 6r-5 .. 6r, in
      columns A to F. */
  lemma {:induction false} SeatsOfRow(n: nat, row: nat)
    requires n >= 1
    ensures SeatRow(n) == row <==> 6 * (row - 1) < n <= 6 * row
    ensures SeatColumn(n) as int - 'A' as int == n - 1 - 6 * (SeatRow(n) - 1)
  {
  }

  /** The row and the column determine the seat index. */
  lemma {:induction false} SeatIndexFromRowAndColumn(n: nat)
    requires n >= 1
    ensures n == 6 * (SeatRow(n) - 1) + (SeatColumn(n) as int - 'A' as int) + 1
  {
  }

  /** Different seats of a flight never get the same seat number. */
  lemma {:induction false} SeatNumberInjective(a: nat, b: nat)
    requires a >= 1 && b >= 1
    requires SeatNumber(a) == SeatNumber(b)
    ensures a == b
  {
    var sa, sb := SeatNumber(a), SeatNumber(b);
    var ra, rb := NatToDecimal(SeatRow(a)), NatToDecimal(SeatRow(b));
    assert |sa| == |ra| + 1 && |sb| == |rb| + 1;
    assert sa[..|ra|] == ra && sb[..|rb|] == rb;
    assert SeatColumn(a) == sa[|sa| - 1] == sb[|sb| - 1] == SeatColumn(b);
    DecimalInjective(SeatRow(a), SeatRow(b));
    SeatIndexFromRowAndColumn(a);
    SeatIndexFromRowAndColumn(b);
  }

  // ------------------------------------------------------------------
  // Aircraft types
  // ------------------------------------------------------------------

  predicate StartsWith(s: string, t: string) { |t| <= |s| && s[..|t|] == t }

  /** Python's substring test t in s. */
  predicate Contains(s: string, t: string)
    decreases |s|
  {
    StartsWith(s, t) || (|s| > 0 && Contains(s[1..], t))
  }

  /** If no two neighbouring characters of s equal t[k], t[k+1], then t is not
      a substring of s. */
  lemma {:induction false} NotContainsPair(s: string, t: string, k: nat)
    requires k + 1 < |t|
    requires forall i :: 0 <= i < |s| - 1 ==> !(s[i] == t[k] && s[i + 1] == t[k + 1])
    ensures !Contains(s, t)
    decreases |s|
  {
    if |t| <= |s| {
      assert s[..|t|][k] != t[k] || s[..|t|][k + 1] != t[k + 1];
    }
    if |s| > 0 {
      forall i | 0 <= i < |s[1..]| - 1 ensures !(s[1..][i] == t[k] && s[1..][i + 1] == t[k + 1]) {
        assert s[1..][i] == s[i + 1] && s[1..][i + 1] == s[i + 2];
      }
      NotContainsPair(s[1..], t, k);
    }
  }

  /** If s lacks one of the characters of t, then t is not a substring of s. */
  lemma {:induction false} NotContainsChar(s: string, t: string, k: nat)
    requires k < |t| && t[k] !in s
    ensures !Contains(s, t)
    decreases |s|
  {
    if |t| <= |s| {
      assert s[..|t|][k] == s[k];
    }
    if |s| > 0 {
      assert forall x :: x in s[1..] ==> x in s;
      NotContainsChar(s[1..], t, k);
    }
  }

  /** Total seats of a flight, from the aircraft name: the first of 737, A320,
      777, 787, A350, A380 that occurs in it decides, and 200 otherwise. */
  function SeatsForAircraft(aircraft: string): (seats: nat)
    ensures 150 <= seats <= 350
  {
    if Contains(aircraft, "737") then 180
    else if Contains(aircraft, "A320") then 150
    else if Contains(aircraft, "777") then 300
    else if Contains(aircraft, "787") then 280
    else if Contains(aircraft, "A350") then 220
    else if Contains(aircraft, "A380") then 350
    else 200
  }

  /** Economy and business seats per aircraft, looked up by exact name. */
  const SeatClassTable: map<string, (nat, nat)> := map[
    "Boeing 737" := (150, 30),
    "Airbus A320" := (120, 30),
    "Boeing 777" := (240, 60),
    "Airbus A350" := (180, 40),
    "Boeing 787" := (220, 60),
    "Airbus A380" := (280, 70)]

  /** The (class, count) entries for an aircraft in their table order:
      economy first, then business; an unlisted aircraft gets 140 + 40. */
  function SeatClasses(aircraft: string): (classes: seq<(string, nat)>)
    ensures |classes| == 2 && classes[0].0 == "economy" && classes[1].0 == "business"
  {
    var counts := if aircraft in SeatClassTable then SeatClassTable[aircraft] else (140, 40);
    [("economy", counts.0), ("business", counts.1)]
  }

  /** t occurs in s at position i. */
  lemma {:induction false} ContainsAt(s: string, t: string, i: nat)
    requires i + |t| <= |s| && s[i..i + |t|] == t
    ensures Contains(s, t)
    decreases i
  {
    if i > 0 {
      assert s[1..][i - 1..i - 1 + |t|] == t;
      ContainsAt(s[1..], t, i - 1);
    }
  }

  // Each aircraft of the seat-class table gets the seat count of its own
  // family: its name contains its own key of the seat-count rule and none
  // of the keys the rule tests before it.

  lemma {:induction false} Boeing737Keys(name: string)
    requires name == "Boeing 737"
    ensures Contains(name, "737")
  {
    ContainsAt(name, "737", 7);
  }

  lemma {:induction false} SeatsForBoeing737()
    ensures SeatsForAircraft("Boeing 737") == 180
    ensures SeatClasses("Boeing 737")[0].1 + SeatClasses("Boeing 737")[1].1 == 180
  {
    assert SeatClasses("Boeing 737")[0].1 + SeatClasses("Boeing 737")[1].1 == 180;
    Boeing737Keys("Boeing 737");
  }

  lemma {:induction false} AirbusA320Keys(name: string)
    requires name == "Airbus A320"
    ensures !Contains(name, "737")
    ensures Contains(name, "A320")
  {
    NotContainsChar(name, "737", 0);
    ContainsAt(name, "A320", 7);
  }

  lemma {:induction false} SeatsForAirbusA320()
    ensures SeatsForAircraft("Airbus A320") == 150
    ensures SeatClasses("Airbus A320")[0].1 + SeatClasses("Airbus A320")[1].1 == 150
  {
    assert SeatClasses("Airbus A320")[0].1 + SeatClasses("Airbus A320")[1].1 == 150;
    AirbusA320Keys("Airbus A320");
  }

  lemma {:induction false} Boeing777Keys(name: string)
    requires name == "Boeing 777"
    ensures !Contains(name, "737")
    ensures !Contains(name, "A320")
    ensures Contains(name, "777")
  {
    NotContainsChar(name, "737", 1);
    NotContainsChar(name, "A320", 0);
    ContainsAt(name, "777", 7);
  }

  lemma {:induction false} SeatsForBoeing777()
    ensures SeatsForAircraft("Boeing 777") == 300
    ensures SeatClasses("Boeing 777")[0].1 + SeatClasses("Boeing 777")[1].1 == 300
  {
    assert SeatClasses("Boeing 777")[0].1 + SeatClasses("Boeing 777")[1].1 == 300;
    Boeing777Keys("Boeing 777");
  }

  lemma {:induction false} Boeing787Keys(name: string)
    requires name == "Boeing 787"
    ensures !Contains(name, "737")
    ensures !Contains(name, "A320")
    ensures !Contains(name, "777")
    ensures Contains(name, "787")
  {
    NotContainsChar(name, "737", 1);
    NotContainsChar(name, "A320", 0);
    NotContainsPair(name, "777", 0);
    ContainsAt(name, "787", 7);
  }

  lemma {:induction false} SeatsForBoeing787()
    ensures SeatsForAircraft("Boeing 787") == 280
    ensures SeatClasses("Boeing 787")[0].1 + SeatClasses("Boeing 787")[1].1 == 280
  {
    assert SeatClasses("Boeing 787")[0].1 + SeatClasses("Boeing 787")[1].1 == 280;
    Boeing787Keys("Boeing 787");
  }

  lemma {:induction false} AirbusA350Keys(name: string)
    requires name == "Airbus A350"
    ensures !Contains(name, "737")
    ensures !Contains(name, "A320")
    ensures !Contains(name, "777")
    ensures !Contains(name, "787")
    ensures Contains(name, "A350")
  {
    NotContainsChar(name, "737", 0);
    NotContainsChar(name, "A320", 2);
    NotContainsChar(name, "777", 0);
    NotContainsChar(name, "787", 0);
    ContainsAt(name, "A350", 7);
  }

  lemma {:induction false} SeatsForAirbusA350()
    ensures SeatsForAircraft("Airbus A350") == 220
    ensures SeatClasses("Airbus A350")[0].1 + SeatClasses("Airbus A350")[1].1 == 220
  {
    assert SeatClasses("Airbus A350")[0].1 + SeatClasses("Airbus A350")[1].1 == 220;
    AirbusA350Keys("Airbus A350");
  }

  lemma {:induction false} AirbusA380Keys(name: string)
    requires name == "Airbus A380"
    ensures !Contains(name, "737")
    ensures !Contains(name, "A320")
    ensures !Contains(name, "777")
    ensures !Contains(name, "787")
    ensures !Contains(name, "A350")
    ensures Contains(name, "A380")
  {
    NotContainsChar(name, "737", 0);
    NotContainsChar(name, "A320", 2);
    NotContainsChar(name, "777", 0);
    NotContainsChar(name, "787", 0);
    NotContainsChar(name, "A350", 2);
    ContainsAt(name, "A380", 7);
  }

  lemma {:induction false} SeatsForAirbusA380()
    ensures SeatsForAircraft("Airbus A380") == 350
    ensures SeatClasses("Airbus A380")[0].1 + SeatClasses("Airbus A380")[1].1 == 350
  {
    assert SeatClasses("Airbus A380")[0].1 + SeatClasses("Airbus A380")[1].1 == 350;
    AirbusA380Keys("Airbus A380");
  }

  /** For every aircraft of the seat-class table the economy and business
      counts add up to the seat count the flight is given. */
  lemma {:induction false} ClassCountsMatchTotal(aircraft: string)
    requires aircraft in SeatClassTable
    ensures SeatClasses(aircraft)[0].1 + SeatClasses(aircraft)[1].1 == SeatsForAircraft(aircraft)
  {
    if aircraft == "Boeing 737" { SeatsForBoeing737(); }
    else if aircraft == "Airbus A320" { SeatsForAirbusA320(); }
    else if aircraft == "Boeing 777" { SeatsForBoeing777(); }
    else if aircraft == "Boeing 787" { SeatsForBoeing787(); }
    else if aircraft == "Airbus A350" { SeatsForAirbusA350(); }
    else {
      assert aircraft == "Airbus A380";
      SeatsForAirbusA380();
    }
  }

  // ------------------------------------------------------------------
  // Routes and flights
  // ------------------------------------------------------------------

  /** A route; the duration is kept in minutes so that 2.5 hours is exact. */
  datatype Route = Route(originId: int, destinationId: int, durationMinutes: nat, basePrice: real, aircraft: string)

  const Routes: seq<Route> := [
    Route(1, 2, 120, 3500.0, "Boeing 737"), Route(1, 3, 150, 4200.0, "Boeing 777"),
    Route(1, 4, 120, 4500.0, "Airbus A320"), Route(1, 5, 150, 4800.0, "Boeing 787"),
    Route(1, 6, 120, 4000.0, "Airbus A320"), Route(1, 7, 180, 5200.0, "Boeing 777"),
    Route(1, 8, 90, 3200.0, "Airbus A320"), Route(1, 9, 180, 5500.0, "Boeing 737"),
    Route(1, 10, 60, 2800.0, "Airbus A320"),
    Route(2, 1, 120, 3500.0, "Boeing 737"), Route(2, 3, 90, 3800.0, "Airbus A320"),
    Route(2, 5, 90, 4200.0, "Airbus A350"), Route(2, 6, 90, 3700.0, "Airbus A320"),
    Route(2, 7, 120, 4500.0, "Boeing 777"), Route(2, 8, 30, 1800.0, "Airbus A320"),
    Route(2, 10, 120, 3400.0, "Airbus A320"),
    Route(3, 1, 150, 4200.0, "Boeing 777"), Route(3, 2, 90, 3800.0, "Airbus A320"),
    Route(3, 5, 60, 2800.0, "Airbus A320"), Route(3, 6, 60, 2600.0, "Airbus A320"),
    Route(3, 7, 90, 3200.0, "Airbus A320"),
    Route(4, 1, 120, 4500.0, "Airbus A320"), Route(4, 2, 150, 4400.0, "Boeing 737"),
    Route(4, 3, 120, 3900.0, "Airbus A320"), Route(4, 5, 120, 4000.0, "Airbus A320"),
    Route(5, 1, 150, 4800.0, "Boeing 787"), Route(5, 2, 90, 4200.0, "Airbus A350"),
    Route(5, 3, 60, 2800.0, "Airbus A320"), Route(5, 4, 120, 4000.0, "Airbus A320"),
    Route(5, 7, 90, 3200.0, "Airbus A320"),
    Route(6, 1, 120, 4000.0, "Airbus A320"), Route(6, 2, 90, 3700.0, "Airbus A320"),
    Route(6, 3, 60, 2600.0, "Airbus A320"),
    Route(7, 1, 180, 5200.0, "Boeing 777"), Route(7, 2, 120, 4500.0, "Boeing 777"),
    Route(7, 3, 90, 3200.0, "Airbus A320"), Route(7, 5, 90, 3200.0, "Airbus A320"),
    Route(8, 1, 90, 3200.0, "Airbus A320"), Route(8, 2, 30, 1800.0, "Airbus A320"),
    Route(9, 1, 180, 5500.0, "Boeing 737"),
    Route(10, 1, 60, 2800.0, "Airbus A320"), Route(10, 2, 120, 3400.0, "Airbus A320")]

  /** The route table: 42 routes between airports 1 to 10, none from an
      airport to itself, each with a positive duration and base price. */
  lemma {:induction false} RouteTable()
    ensures |Routes| == 42
    ensures forall k :: 0 <= k < |Routes| ==>
      1 <= Routes[k].originId <= 10 && 1 <= Routes[k].destinationId <= 10
      && Routes[k].originId != Routes[k].destinationId
      && Routes[k].durationMinutes > 0 && Routes[k].basePrice > 0.0
  {
  }

  /** Every aircraft of the route table is listed in the seat-class table, so
      every seeded flight gets exactly its total seat count in seats. */
  lemma {:induction false} RoutesUseListedAircraft()
    ensures forall k :: 0 <= k < |Routes| ==> Routes[k].aircraft in SeatClassTable
    ensures forall k :: 0 <= k < |Routes| ==>
      SeatClasses(Routes[k].aircraft)[0].1 + SeatClasses(Routes[k].aircraft)[1].1
        == SeatsForAircraft(Routes[k].aircraft)
  {
    forall k | 0 <= k < |Routes|
      ensures Routes[k].aircraft in SeatClassTable
      ensures SeatClasses(Routes[k].aircraft)[0].1 + SeatClasses(Routes[k].aircraft)[1].1
        == SeatsForAircraft(Routes[k].aircraft)
    {
      ClassCountsMatchTotal(Routes[k].aircraft);
    }
  }

  /** The departure hours of the three daily flights of a route. */
  const DepartureHours: seq<nat> := [6, 14, 20]

  /** One generated flight: times are minutes after the base date. */
  datatype FlightConfig = FlightConfig(
    flightNumber: string,
    airlineId: int,
    originId: int,
    destinationId: int,
    departureMinutes: int,
    arrivalMinutes: int,
    basePrice: real,
    seats: nat,
    aircraft: string)

  function FlightNumber(n: nat): string { "BMF" + NatToDecimal(n) }

  /** The flight made for the i-th departure of a route while the flight
      counter stands at n. */
  function ConfigFor(route: Route, n: nat, i: nat): (c: FlightConfig)
    requires i < 3
    ensures 1 <= c.airlineId <= 6
    ensures c.arrivalMinutes == c.departureMinutes + route.durationMinutes
  {
    FlightConfig(
      FlightNumber(n),
      (n + i) % 6 + 1,
      route.originId,
      route.destinationId,
      DepartureHours[i] * 60,
      DepartureHours[i] * 60 + route.durationMinutes,
      route.basePrice,
      SeatsForAircraft(route.aircraft),
      route.aircraft)
  }

  /** Three flights per route, in route order, numbered from BMF101 on. */
  method GenerateFlightConfigs(routes: seq<Route>) returns (configs: seq<FlightConfig>)
    ensures |configs| == 3 * |routes|
    ensures forall k :: 0 <= k < |configs| ==> configs[k] == ConfigFor(routes[k / 3], 101 + k, k % 3)
    ensures forall k :: 0 <= k < |configs| ==> configs[k].flightNumber == FlightNumber(101 + k)
  {
    configs := [];
    var flightCounter := 101;
    for r := 0 to |routes|
      invariant |configs| == 3 * r && flightCounter == 101 + 3 * r
      invariant forall k :: 0 <= k < |configs| ==> configs[k] == ConfigFor(routes[k / 3], 101 + k, k % 3)
    {
      for i := 0 to 3
        invariant |configs| == 3 * r + i && flightCounter == 101 + 3 * r + i
        invariant forall k :: 0 <= k < |configs| ==> configs[k] == ConfigFor(routes[k / 3], 101 + k, k % 3)
      {
        var route := routes[r];
        var airlineId := (flightCounter + i) % 6 + 1;
        var depHour := DepartureHours[i];
        var arrMinutes := depHour * 60 + route.durationMinutes;
        var config := FlightConfig(FlightNumber(flightCounter), airlineId, route.originId,
          route.destinationId, depHour * 60, arrMinutes, route.basePrice,
          SeatsForAircraft(route.aircraft), route.aircraft);
        ConfigStep(routes, configs, config, r, i);
        configs := configs + [config];
        flightCounter := flightCounter + 1;
      }
    }
  }

  /** Appending the i-th flight of route r keeps every config equal to the
      one its position asks for. */
  lemma {:induction false} ConfigStep(routes: seq<Route>, configs: seq<FlightConfig>, config: FlightConfig, r: nat, i: nat)
    requires r < |routes| && i < 3 && |configs| == 3 * r + i
    requires forall k :: 0 <= k < |configs| ==> configs[k] == ConfigFor(routes[k / 3], 101 + k, k % 3)
    requires config == ConfigFor(routes[r], 101 + 3 * r + i, i)
    ensures forall k :: 0 <= k < |configs| + 1 ==> (configs + [config])[k] == ConfigFor(routes[k / 3], 101 + k, k % 3)
  {
    assert (3 * r + i) / 3 == r && (3 * r + i) % 3 == i;
  }

  /** The three flights of a route leave at 06:00, 14:00 and 20:00, in that
      order, whatever their counter values. */
  lemma {:induction false} ConfigSchedule(route: Route, n: nat, i: nat)
    requires i < 3
    ensures ConfigFor(route, n, i).departureMinutes in {360, 840, 1200}
    ensures forall m: nat, j: nat :: i < j < 3 ==>
      ConfigFor(route, n, i).departureMinutes < ConfigFor(route, m, j).departureMinutes
  {
  }

  /** Flight numbers of different counter values differ. */
  lemma {:induction false} FlightNumberInjective(a: nat, b: nat)
    requires FlightNumber(a) == FlightNumber(b)
    ensures a == b
  {
    assert FlightNumber(a)[3..] == NatToDecimal(a);
    assert FlightNumber(b)[3..] == NatToDecimal(b);
    DecimalInjective(a, b);
  }

  /** All generated flight numbers are different. */
  lemma {:induction false} ConfigsDistinct(configs: seq<FlightConfig>)
    requires forall k :: 0 <= k < |configs| ==> configs[k].flightNumber == FlightNumber(101 + k)
    ensures forall j, k :: 0 <= j < k < |configs| ==> configs[j].flightNumber != configs[k].flightNumber
  {
    forall j, k | 0 <= j < k < |configs| ensures configs[j].flightNumber != configs[k].flightNumber {
      if configs[j].flightNumber == configs[k].flightNumber {
        FlightNumberInjective(101 + j, 101 + k);
      }
    }
  }

  /** The flight row stored for a generated flight: it starts with every seat
      available. */
  function FlightOf(c: FlightConfig, baseDate: int): (f: Flight)
    ensures f.availableSeats == f.totalSeats == c.seats
    ensures f.arrivalTime - f.departureTime == 60 * (c.arrivalMinutes - c.departureMinutes)
  {
    Flight(c.flightNumber, c.airlineId, c.originId, c.destinationId,
      baseDate + 60 * c.departureMinutes, baseDate + 60 * c.arrivalMinutes,
      c.basePrice, c.seats, c.seats, c.aircraft)
  }

  /** The flights table of the sample data, in insertion order. */
  method SeedFlights(routes: seq<Route>, baseDate: int) returns (flights: seq<Flight>)
    ensures |flights| == 3 * |routes|
    ensures forall k :: 0 <= k < |flights| ==>
      flights[k] == FlightOf(ConfigFor(routes[k / 3], 101 + k, k % 3), baseDate)
  {
    var configs := GenerateFlightConfigs(routes);
    flights := [];
    for k := 0 to |configs|
      invariant |flights| == k
      invariant forall j :: 0 <= j < k ==> flights[j] == FlightOf(configs[j], baseDate)
    {
      flights := flights + [FlightOf(configs[k], baseDate)];
    }
  }

  // ------------------------------------------------------------------
  // Seats
  // ------------------------------------------------------------------

  function Repeat<T>(x: T, n: nat): (r: seq<T>)
    ensures |r| == n
  {
    if n == 0 then [] else Repeat(x, n - 1) + [x]
  }

  lemma {:induction false} RepeatAt<T>(x: T, n: nat, k: nat)
    requires k < n
    ensures Repeat(x, n)[k] == x
  {
    if k < n - 1 {
      RepeatAt(x, n - 1, k);
    }
  }

  /** The class of every seat in numbering order: each class as many times as
      its count, the classes in table order. */
  function ClassSequence(classes: seq<(string, nat)>): seq<string> {
    if classes == [] then []
    else ClassSequence(classes[..|classes| - 1]) + Repeat(classes[|classes| - 1].0, classes[|classes| - 1].1)
  }

  /** Seats numbered continuously from 1, the k-th of class order[k]. */
  function Numbered(flightId: int, order: seq<string>): (seats: seq<Seat>)
    ensures |seats| == |order|
  {
    if order == [] then []
    else Numbered(flightId, order[..|order| - 1]) + [NewSeat(flightId, SeatNumber(|order|), order[|order| - 1])]
  }

  lemma {:induction false} NumberedAt(flightId: int, order: seq<string>, k: nat)
    requires k < |order|
    ensures Numbered(flightId, order)[k] == NewSeat(flightId, SeatNumber(k + 1), order[k])
  {
    if k < |order| - 1 {
      NumberedAt(flightId, order[..|order| - 1], k);
    }
  }

  /** The seats of a flight: numbered continuously from 1, in class order. */
  function SeatsFor(flightId: int, classes: seq<(string, nat)>): (seats: seq<Seat>) {
    Numbered(flightId, ClassSequence(classes))
  }

  /** Adding one more class to the table appends that class, as many
      times as its count, to the class of every seat. */
  lemma {:induction false} ClassSequenceExtend(classes: seq<(string, nat)>, c: nat)
    requires c < |classes|
    ensures ClassSequence(classes[..c + 1]) == ClassSequence(classes[..c]) + Repeat(classes[c].0, classes[c].1)
  {
    assert classes[..c + 1][..c] == classes[..c];
  }

  /** The seat rows of one flight, one class after the other. */
  method GenerateSeats(flightId: int, aircraft: string) returns (seats: seq<Seat>)
    ensures seats == SeatsFor(flightId, SeatClasses(aircraft))
  {
    seats := NumberSeats(flightId, SeatClasses(aircraft));
  }

  /** Numbering one more seat appends it with the next number. */
  lemma {:induction false} NumberedSnoc(flightId: int, order: seq<string>, x: string)
    ensures Numbered(flightId, order + [x]) == Numbered(flightId, order) + [NewSeat(flightId, SeatNumber(|order| + 1), x)]
  {
    assert (order + [x])[..|order|] == order;
  }

  lemma {:induction false} RepeatSnoc(before: seq<string>, x: string, i: nat)
    ensures before + Repeat(x, i + 1) == (before + Repeat(x, i)) + [x]
  {
  }

  /** NumberedSnoc for an order given as next == order + [x] and the next
      seat number given as n. */
  lemma {:induction false} NumberedStep(flightId: int, order: seq<string>, next: seq<string>, x: string, n: nat)
    requires next == order + [x] && n == |order| + 1
    ensures Numbered(flightId, next) == Numbered(flightId, order) + [NewSeat(flightId, SeatNumber(n), x)]
  {
    NumberedSnoc(flightId, order, x);
  }

  /** The inner numbering loop: count more seats of one class, numbered on
      from seatNum. */
  method NumberClass(flightId: int, seats: seq<Seat>, seatNum: int, classType: string, count: nat,
                     ghost before: seq<string>)
    returns (out: seq<Seat>, nextNum: int)
    requires seats == Numbered(flightId, before) && seatNum == |seats| + 1
    ensures out == Numbered(flightId, before + Repeat(classType, count)) && nextNum == |out| + 1
  {
    out, nextNum := seats, seatNum;
    assert before + Repeat(classType, 0) == before;
    for i := 0 to count
      invariant nextNum == |before| + i + 1
      invariant out == Numbered(flightId, before + Repeat(classType, i))
    {
      RepeatSnoc(before, classType, i);
      NumberedStep(flightId, before + Repeat(classType, i), before + Repeat(classType, i + 1), classType, nextNum);
      out := out + [NewSeat(flightId, SeatNumber(nextNum), classType)];
      nextNum := nextNum + 1;
    }
  }

  /** The numbering loop: seat numbers run on from 1 across the classes in
      table order. */
  method NumberSeats(flightId: int, classes: seq<(string, nat)>) returns (seats: seq<Seat>)
    ensures seats == SeatsFor(flightId, classes)
  {
    seats := [];
    var seatNum := 1;
    for c := 0 to |classes|
      invariant seatNum == |seats| + 1
      invariant seats == Numbered(flightId, ClassSequence(classes[..c]))
    {
      ClassSequenceExtend(classes, c);
      seats, seatNum := NumberClass(flightId, seats, seatNum, classes[c].0, classes[c].1, ClassSequence(classes[..c]));
    }
    assert classes[..|classes|] == classes;
  }


  /** The seats of an aircraft from the table: economy seats are numbered
      1 .. economy, business seats follow, every seat starts available, and
      the seat numbers are all different. */
  lemma {:induction false} SeatsForLayout(flightId: int, aircraft: string, k: nat)
    requires k < |SeatsFor(flightId, SeatClasses(aircraft))|
    ensures |SeatsFor(flightId, SeatClasses(aircraft))|
      == SeatClasses(aircraft)[0].1 + SeatClasses(aircraft)[1].1
    ensures SeatsFor(flightId, SeatClasses(aircraft))[k].seatClass
      == (if k < SeatClasses(aircraft)[0].1 then "economy" else "business")
    ensures SeatsFor(flightId, SeatClasses(aircraft))[k].seatNumber == SeatNumber(k + 1)
    ensures SeatsFor(flightId, SeatClasses(aircraft))[k].isAvailable
  {
    TwoClassLayout(flightId, SeatClasses(aircraft), k);
  }

  /** The same for any table of two classes. */
  lemma {:induction false} TwoClassLayout(flightId: int, classes: seq<(string, nat)>, k: nat)
    requires |classes| == 2 && k < |SeatsFor(flightId, classes)|
    ensures |SeatsFor(flightId, classes)| == classes[0].1 + classes[1].1
    ensures SeatsFor(flightId, classes)[k] == NewSeat(flightId, SeatNumber(k + 1),
      if k < classes[0].1 then classes[0].0 else classes[1].0)
  {
    ClassSequenceExtend(classes, 0);
    ClassSequenceExtend(classes, 1);
    assert classes[..2] == classes;
    var economy := Repeat(classes[0].0, classes[0].1);
    assert ClassSequence(classes[..1]) == economy;
    if k < classes[0].1 {
      RepeatAt(classes[0].0, classes[0].1, k);
    } else {
      RepeatAt(classes[1].0, classes[1].1, k - classes[0].1);
    }
    NumberedAt(flightId, ClassSequence(classes), k);
  }

  /** A two-class table numbers as many seats as its two counts add up to. */
  lemma {:induction false} SeatsForLength(flightId: int, classes: seq<(string, nat)>)
    requires |classes| == 2
    ensures |SeatsFor(flightId, classes)| == classes[0].1 + classes[1].1
  {
    ClassSequenceExtend(classes, 0);
    ClassSequenceExtend(classes, 1);
    assert classes[..0] == [] && classes[..2] == classes;
  }

  /** Every seeded flight gets exactly its total_seats seats: flight k+1's
      class table adds up to the total its aircraft name gave it. */
  lemma {:induction false} SeededSeatCount(baseDate: int, k: nat)
    requires k < 3 * |Routes|
    ensures |SeatsFor(k + 1, SeatClasses(FlightOf(ConfigFor(Routes[k / 3], 101 + k, k % 3), baseDate).aircraftType))|
      == FlightOf(ConfigFor(Routes[k / 3], 101 + k, k % 3), baseDate).totalSeats
  {
    var route := Routes[k / 3];
    RoutesUseListedAircraft();
    ClassCountsMatchTotal(route.aircraft);
    SeatsForLength(k + 1, SeatClasses(route.aircraft));
  }

  /** The seats table of the sample data: the seats of every flight in turn,
      the i-th flight having id i + 1. */
  method SeedSeats(flights: seq<Flight>) returns (seats: seq<Seat>)
    ensures seats == AllSeats(flights, |flights|)
  {
    seats := [];
    for i := 0 to |flights|
      invariant seats == AllSeats(flights, i)
    {
      var flightSeats := GenerateSeats(i + 1, flights[i].aircraftType);
      seats := seats + flightSeats;
    }
  }

  function AllSeats(flights: seq<Flight>, n: nat): seq<Seat>
    requires n <= |flights|
  {
    if n == 0 then [] else AllSeats(flights, n - 1) + SeatsFor(n, SeatClasses(flights[n - 1].aircraftType))
  }
}
