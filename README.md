# Flight Booker: a verified model of the booking core

This project models the core of a small flight-booking system in Dafny. It covers both the browser page and the server.

- **Client.** The checkout session of the booking page: the flight being booked, the seats picked on the seat map, the bookings made for them and the number of seats wanted.
  - Seat picking toggles seats within that number.
  - Booking sends one request per picked seat. The session keeps the replies only when every reply is a booking with an id.
  - Payment sends the ids of those bookings in one request.
  - Seat-grid layout: seat numbers are read with `(\d+)([A-Z])` and then `(\d+)-([A-Z])`. Seats are grouped by row, rows are sorted, seats within a row are sorted by column, and an aisle gap is inserted.
  - The seat map shows business seats before economy seats.
  - Two receipt helpers: the text sanitiser and the receipt file name.
- **Server.**
  - A store holding one map per table.
  - Request handlers that answer with a value or an HTTP status: booking a seat, paying for a list of bookings, registering, the administrator check, updating and deleting a flight, and the filters and sort keys of the flight search.
- **Schema.** The record types with their column defaults and unique constraints.
- **Pricing.** The threshold tiers of the dynamic pricing engine.
- **Seeding.** The sample-data generator: routes, three flights per route, seat counts per aircraft, and seat numbering six to a row.

Modules, one file each:

| file | module | source |
|---|---|---|
| `common.dfy` | `Common` | decimal numerals, sorted views of sets, stable sort, code-point order on strings |
| `schema.dfy` | `Schema` | `FlightBookerSim/backend/models.py` |
| `pricing.dfy` | `Pricing` | `FlightBookerSim/backend/pricing_engine.py` |
| `seed.dfy` | `Seed` | `FlightBookerSim/backend/seed_data.py` |
| `store.dfy` | `Store` | `backend/main.py`, with class `BookingStore` |
| `seatgrid.dfy` | `SeatGrid` | `createSeatGrid` and `createSeatMap` in `frontend/script.js` |
| `checkout.dfy` | `Checkout` | the page's session globals in `frontend/script.js`, with class `CheckoutSession` |
| `receipt.dfy` | `Receipt` | `safeText` and the receipt file name in `frontend/script.js` |

The form follows the source:

- **State changed in place is a class with `modifies` clauses.**
  - The page's globals are `Checkout.CheckoutSession`.
  - The database session is `Store.BookingStore`.
- **Loops of the source are methods with loop invariants**, each proved against a specification function:
  - the seat and flight generation loops;
  - the PNR/PIN regeneration loops;
  - the payment confirmation loop;
  - the row grouping and layout of the seat grid.
- **Pure code is functions and lemmas:** the sanitiser, the pricing tiers and the filter predicates.

Two cross-file facts are proved:

- **The seat-number round trip** (`SeatGrid.ParseSeedSeatNumber`). The frontend parser reads back exactly the row and column the seed generator encoded.
- **The booking-to-payment link** (`Checkout.AcceptedBatchPaysAll`). After an accepted booking batch, payment asks for one non-zero id per picked seat, in picking order.

Behaviour of the code worth noting:

- **Booking replies.** `handleBooking` waits on `Promise.all`, which rejects on the first failed reply. Any failure rejects the whole batch. The model takes all replies as input, so the order in which replies arrive plays no part.
- **Changing flight.** `selectFlight` clears the seat selection and leaves `currentBooking` as it was, and so does `Checkout.CheckoutSession.SelectFlight`.
- **Unavailable seats.** `selectSeat` never checks availability; only available seats get a click handler (`frontend/script.js:494-499`). The model therefore requires availability on `SelectSeat`.
- **Payment failures.** `handlePayment` treats every failure alike, whether an error status, an unsuccessful reply or a thrown exception: it alerts and leaves `currentBooking` unchanged.
- **Aisle position.** A comment in the seat-grid code puts the aisle gap after column D. The code puts it before the third seat of any row with more than four seats. `SeatGrid.SixSeatAisle` shows that in a six-seat row the gap falls between B and C.
- **Seat and flight.** `create_booking` never checks that the seat belongs to the requested flight (`backend/main.py:497-500`). The seat is taken from its own flight, but the requested flight loses an available seat. `Store.BookingStore.CreateBooking` states exactly that.

## Model

| member | source | states |
|---|---|---|
| Common.NatToDecimal | FlightBookerSim/backend/seed_data.py:196 | the decimal numeral of a row number is non-empty, all digits, and a single digit exactly below 10 |
| Common.DecimalRoundTrip | frontend/script.js:457 | reading back a numeral with parseInt gives the number it was written from |
| Common.DecimalInjective | FlightBookerSim/backend/seed_data.py:141 | different numbers have different numerals |
| Common.ElementsCount | backend/main.py:580 | a list has as many distinct elements as entries exactly when no entry repeats, and never more |
| Common.SortedElements | frontend/script.js:466 | the sorted view of a key set holds exactly the keys, once each |
| Common.SortedElementsAscending | frontend/script.js:466 | the sorted view of a key set is strictly ascending |
| Common.SortBy | backend/main.py:350-355 | sorting keeps the length and the multiset of entries (a permutation) |
| Common.SortBySorted | backend/main.py:350-355 | sorting by a total preorder yields a sequence ordered by it |
| Common.InsertIndex | backend/main.py:350-355 | the insertion point is the first entry x is ordered before, and x is ordered before none of the earlier ones |
| Common.InsertEntry | backend/main.py:350-355 | inserting keeps the entries before the insertion point, puts x there and shifts the rest by one |
| Common.InsertHeadFirst | backend/main.py:350-355 | a new entry lands before every entry it is ordered before |
| Common.InsertKeepsOrder | backend/main.py:350-355 | inserting keeps the relative order of the other entries |
| Common.SortByStable | backend/main.py:350-355 | the sort is stable, as list.sort is: an entry before another and ordered no later than it stays before it, so tied keys keep their order |
| Common.SortByDistinct | backend/main.py:350-355 | sorting a list free of repeats leaves it free of repeats |
| Common.SortByTieOrigins | backend/main.py:350-355 | two tied entries of the sorted list stand in the input's order |
| Common.LexTotal | frontend/script.js:476 | any two column labels are comparable |
| Common.LexTransitive | frontend/script.js:476 | the column order is transitive |
| Common.LexAntisymmetric | frontend/script.js:476 | two column labels each ordered before the other are equal |
| Common.LexLe | frontend/script.js:476 | column labels compare character by character, a prefix first (code-point order standing for localeCompare) |
| Schema.NewUser | FlightBookerSim/backend/models.py:15 | a new user is never an administrator (the column default), and keeps its email, name and hash |
| Schema.NewSeat | FlightBookerSim/backend/models.py:61 | a new seat is available and keeps its flight, number and class |
| Schema.AtMostOneBookingPerSeat | FlightBookerSim/backend/models.py:72 | under the unique seat reference, at most one booking holds any seat |
| Schema.AddBookingKeepsConstraints | FlightBookerSim/backend/models.py:69-72 | a new booking with an unused PNR, unused PIN and unreferenced seat keeps all three unique constraints |
| Schema.RestatusKeepsConstraints | FlightBookerSim/backend/models.py:79 | changing only booking statuses keeps every constraint of the bookings table |
| Pricing.OccupancyRate | FlightBookerSim/backend/pricing_engine.py:15 | the rate times the seat count is the number sold; it is 0 for a flight without seats |
| Pricing.DemandMultiplier | FlightBookerSim/backend/pricing_engine.py:17-26 | the demand multiplier lies between 0.85 and 1.65 |
| Pricing.TimeMultiplier | FlightBookerSim/backend/pricing_engine.py:30-39 | the time multiplier lies between 0.9 and 1.5 |
| Pricing.CalculatePrice | FlightBookerSim/backend/pricing_engine.py:43 | a non-negative base price and factor give a non-negative price |
| Pricing.PriceTrend | FlightBookerSim/backend/pricing_engine.py:48-59 | low exactly below occupancy 0.5, moderate exactly in [0.5, 0.8), high exactly from 0.8 |
| Pricing.DemandMultiplierMonotone | FlightBookerSim/backend/pricing_engine.py:17-26 | the demand multiplier never decreases as occupancy grows |
| Pricing.DemandMultiplierValues | FlightBookerSim/backend/pricing_engine.py:17-26 | the demand multiplier is one of 0.85, 1.0, 1.15, 1.35, 1.65 |
| Pricing.TimeMultiplierAntitone | FlightBookerSim/backend/pricing_engine.py:30-39 | the time multiplier never increases as the time to departure grows |
| Pricing.TrendMonotone | FlightBookerSim/backend/pricing_engine.py:54-59 | a higher occupancy never gives a lower trend |
| Pricing.TrendMonotoneInSales | FlightBookerSim/backend/pricing_engine.py:52-59 | selling one more seat of a flight never lowers its trend |
| Pricing.OccupancyMonotoneInSales | FlightBookerSim/backend/pricing_engine.py:15 | selling one more seat never lowers the occupancy |
| Pricing.PriceMonotoneInSales | FlightBookerSim/backend/pricing_engine.py:15-43 | with the same time and random draw, selling a seat never makes the flight cheaper |
| Pricing.PriceBounds | FlightBookerSim/backend/pricing_engine.py:17-43 | with a factor in [0.95, 1.05] the price lies between 0.85·0.9·0.95 and 1.65·1.5·1.05 times the base price |
| Pricing.TrendIgnoresBasePrice | FlightBookerSim/backend/pricing_engine.py:48-59 | the trend does not depend on the base price |
| Pricing.OccupancyBelow | FlightBookerSim/backend/pricing_engine.py:15-26 | for a flight with seats, occupancy < num/den exactly when den·sold < num·total |
| Pricing.DemandTier | FlightBookerSim/backend/pricing_engine.py:17-26 | the integer tier lies in 0..4 |
| Pricing.DemandTierAgrees | FlightBookerSim/backend/pricing_engine.py:15-26 | the real-valued thresholds and the integer cross-multiplied thresholds choose the same multiplier |
| Pricing.FullyAvailableIsCheapest | FlightBookerSim/backend/pricing_engine.py:15-18 | a fully available flight has trend low and the lowest demand multiplier, 0.85 |
| Seed.SeatRow | FlightBookerSim/backend/seed_data.py:194 | rows count from 1 |
| Seed.SeatColumn | FlightBookerSim/backend/seed_data.py:195 | columns are A to F |
| Seed.SeatNumber | FlightBookerSim/backend/seed_data.py:196 | a seat number is a run of digits followed by one letter A to F |
| Seed.SeatsOfRow | FlightBookerSim/backend/seed_data.py:194-195 | row r holds exactly seats 6r-5 .. 6r, in columns A to F in order |
| Seed.SeatIndexFromRowAndColumn | FlightBookerSim/backend/seed_data.py:194-195 | the seat index is recovered from its row and column |
| Seed.SeatNumberInjective | FlightBookerSim/backend/seed_data.py:194-196 | different seats of a flight never share a seat number |
| Seed.SeatClasses | FlightBookerSim/backend/seed_data.py:179-189 | each aircraft has an economy entry followed by a business entry |
| Seed.SeatsForAircraft | FlightBookerSim/backend/seed_data.py:119-132 | a flight of any aircraft type gets between 150 and 350 seats |
| Seed.SeatsForBoeing737 | FlightBookerSim/backend/seed_data.py:119-120 | a Boeing 737 gets 180 seats, and its class counts add up to 180 |
| Seed.SeatsForAirbusA320 | FlightBookerSim/backend/seed_data.py:121-122 | an Airbus A320 gets 150 seats, and its class counts add up to 150 |
| Seed.SeatsForBoeing777 | FlightBookerSim/backend/seed_data.py:123-124 | a Boeing 777 gets 300 seats, and its class counts add up to 300 |
| Seed.SeatsForBoeing787 | FlightBookerSim/backend/seed_data.py:125-126 | a Boeing 787 gets 280 seats, and its class counts add up to 280 |
| Seed.SeatsForAirbusA350 | FlightBookerSim/backend/seed_data.py:127-128 | an Airbus A350 gets 220 seats, and its class counts add up to 220 |
| Seed.SeatsForAirbusA380 | FlightBookerSim/backend/seed_data.py:129-130 | an Airbus A380 gets 350 seats, and its class counts add up to 350 |
| Seed.ClassCountsMatchTotal | FlightBookerSim/backend/seed_data.py:179-186 | for every aircraft of the class table, the class counts add up to the seat count the substring rule gives |
| Seed.RouteTable | FlightBookerSim/backend/seed_data.py:52-114 | the route table has 42 routes between airports 1 to 10, none from an airport to itself, each with a positive duration and base price |
| Seed.RoutesUseListedAircraft | FlightBookerSim/backend/seed_data.py:52-114 | every route's aircraft is in the class table, and that aircraft's class counts add up to its seat total |
| Seed.SeededSeatCount | FlightBookerSim/backend/seed_data.py:116-205 | every seeded flight k+1 gets exactly total_seats seats from its class table |
| Seed.SeatsForLength | FlightBookerSim/backend/seed_data.py:191-205 | numbering a two-class table yields as many seats as its two counts add up to |
| Seed.GenerateFlightConfigs | FlightBookerSim/backend/seed_data.py:116-153 | three flights per route in route order; the k-th is departure k mod 3 of route k/3, numbered BMF(101+k) |
| Seed.ConfigFor | FlightBookerSim/backend/seed_data.py:135-151 | a generated flight has an airline in 1..6 and arrives one route duration after it departs |
| Seed.ConfigSchedule | FlightBookerSim/backend/seed_data.py:135-139 | the three flights of a route depart at 6, 14 and 20 hours, in that order |
| Seed.FlightNumberInjective | FlightBookerSim/backend/seed_data.py:141 | different counter values give different flight numbers |
| Seed.ConfigsDistinct | FlightBookerSim/backend/seed_data.py:137-153 | all generated flight numbers differ |
| Seed.FlightOf | FlightBookerSim/backend/seed_data.py:159-173 | a seeded flight starts with every seat available; its duration is the configured one |
| Seed.SeedFlights | FlightBookerSim/backend/seed_data.py:155-174 | the flights table holds one row per generated flight, in order |
| Seed.NumberClass | FlightBookerSim/backend/seed_data.py:193-205 | the inner loop appends count seats of one class, numbered on from the next free number, exactly as the continuous numbering prescribes |
| Seed.NumberSeats | FlightBookerSim/backend/seed_data.py:191-205 | the numbering loop yields the seats numbered continuously from 1 across the classes in table order |
| Seed.GenerateSeats | FlightBookerSim/backend/seed_data.py:188-205 | a flight's seats are its class table numbered from 1 |
| Seed.SeatsForLayout | FlightBookerSim/backend/seed_data.py:189-205 | seat k is numbered SeatNumber(k+1), is economy below the economy count and business after it, and starts available; the count is economy + business |
| Seed.TwoClassLayout | FlightBookerSim/backend/seed_data.py:191-205 | for any two-class table, seat k is the next number in the first class, then the second |
| Seed.SeedSeats | FlightBookerSim/backend/seed_data.py:188-205 | the seats table is the seats of every flight in turn, flight i+1 for the i-th flight |
| Store.FirstWithCode | backend/main.py:279-281 | the lookup finds a row with the code exactly when one exists, and the first such row |
| Store.CodeFilter | backend/main.py:279-301 | a code filter applies only to a non-empty code naming a known row, and then keeps exactly the flights whose field is that row |
| Store.Matches | backend/main.py:279-301 | a flight is listed exactly when it passes the origin, destination, date and airline filters |
| Store.RequireAdmin | backend/main.py:194-200 | 401 exactly without an id (missing or 0), 403 exactly for an unknown or non-admin id, success otherwise |
| Store.FreshKey | backend/main.py:214-216 | a new row gets an id of at least 1, unused and above every id in use |
| Store.RegisteredUserIsNotAdmin | backend/main.py:209-215 | a user created by registration never passes the administrator check |
| Store.ApplyUpdate | backend/main.py:432-453 | each named field is replaced; a seat-count change shifts availability by the difference, clamped at 0; an explicit availability overrides it |
| Store.EmptyUpdateIsIdentity | backend/main.py:432-453 | an update naming no field changes nothing |
| Store.ResizeKeepsSoldSeats | backend/main.py:446-449 | a resize keeps availability non-negative and keeps the sold count unless the clamp applies |
| Store.UpdateIdempotent | backend/main.py:432-453 | repeating an update changes nothing more when it sets availability explicitly or leaves the seat count alone |
| Store.ResizeTwice | backend/main.py:446-449 | repeating a resize changes nothing more |
| Store.ResultFor | backend/main.py:304-323 | a search row carries the flight, the trend of its occupancy, and its duration in hours |
| Store.OrdersArePreorders | backend/main.py:350-355 | each sort key is a total preorder |
| Store.OrderFor | backend/main.py:350-355 | price, duration and departure select their sort key; any other value, or an explicit null, leaves the query order |
| Store.DefaultSearch | backend/main.py:129-134 | a body without any field applies no filter and sorts by price, the default of sort_by |
| Store.AllFoundByCount | backend/main.py:575-585 | as many rows found as ids exactly when every id names a booking and no id repeats |
| Store.PendingOf | backend/main.py:589 | the pending rows are exactly the found rows whose status is pending |
| Store.Payable | backend/main.py:571-620 | a list is payable when it is non-empty, has no repeated id, and names existing pending bookings only |
| Store.PayableByCounts | backend/main.py:571-620 | the handler's count checks accept exactly the non-empty, duplicate-free lists of existing pending bookings |
| Store.PayableRows | backend/main.py:575-620 | for a payable list, the rows confirmed are exactly the listed ids, in key order |
| Store.ConfirmKeepsInvariant | backend/main.py:628-631 | confirming keeps the bookings-table constraints and every booked seat taken |
| Store.SumPrices | backend/main.py:625 | a total over non-negative prices is non-negative |
| Store.ConfirmAll | backend/main.py:628-631 | exactly the given rows become confirmed; every other row is untouched |
| Store.NewBooking | backend/main.py:523-534 | a new booking is pending and carries the request's flight, seat and user with the drawn PNR, PIN and price |
| Store.OpenSeatIsFree | backend/main.py:560-562 | under the store invariant an available seat is held by no booking, so the 409 branch is unreachable |
| Store.FirstUnused | backend/main.py:515-521 | the regeneration loop stops at the first draw not in use |
| Store.BookingStore.RegisterUser | backend/main.py:202-225 | 400 exactly for an email in use; otherwise one new non-admin user under a fresh id, with nothing else changed |
| Store.BookingStore.CreateBooking | backend/main.py:489-565 | 404 exactly for an unknown flight, 400 exactly for a missing or taken seat, with nothing changed; otherwise the seat is taken, the requested flight loses exactly one seat, and one pending booking is added with a PNR and PIN unused by any booking, priced at the pre-sale price; the invariant is kept |
| Store.BookingStore.ProcessPayment | backend/main.py:567-681 | success exactly for a payable list: 400 for an empty list, 404 for an unknown or repeated id, 400 for a list of existing, distinct ids that includes a booking not pending; nothing changes on those failures; on success exactly the listed bookings are confirmed and the total is the sum of their prices |
| Store.BookingStore.TotalPrice | backend/main.py:625 | the loop's total is the sum of the listed prices |
| Store.BookingStore.ConfirmRows | backend/main.py:628-631 | the loop confirms exactly the listed bookings and changes no other table |
| Store.BookingStore.AdminUpdateFlight | backend/main.py:425-459 | the administrator check's status on failure, 404 for an unknown flight, otherwise only that flight changes, by ApplyUpdate |
| Store.BookingStore.AdminDeleteFlight | backend/main.py:461-479 | the administrator check's status, 404 for an unknown flight, 400 while any booking names it (nothing removed); otherwise the flight and exactly its seats are removed |
| Store.BookingStore.SearchFlights | backend/main.py:274-357 | with a known key, the results are the filtered rows in key order put through the stable sort by that key: a permutation, ordered by the key, ties in key order; with any other key or a null, the filtered rows in key order |
| Store.Candidates | backend/main.py:303-346 | there is at most one row per flight key |
| Store.CandidatesSound | backend/main.py:279-301 | every row is a listed flight that passes every filter, priced for the search |
| Store.CandidatesComplete | backend/main.py:279-301 | every listed flight that passes the filters has a row |
| Store.CandidatesDistinct | backend/main.py:274-348 | rows built for ascending keys are all different |
| Store.SearchTiesInKeyOrder | backend/main.py:350-355 | after sorting the search rows, rows whose sort keys tie appear in ascending flight key, the query order |
| Store.CandidatesOrdered | backend/main.py:301-303 | rows follow ascending flight keys, so no flight appears twice |
| SeatGrid.DigitRunEnd | frontend/script.js:445 | the run of digits from i ends at the first non-digit |
| SeatGrid.RunEndIsFirstNonDigit | frontend/script.js:445 | a digit run ending before a non-digit ends where DigitRunEnd says |
| SeatGrid.FindPlain | frontend/script.js:445 | a match found by the scan is a match of (\d+)([A-Z]) |
| SeatGrid.FindDashed | frontend/script.js:447 | a match found by the scan is a match of (\d+)-([A-Z]) |
| SeatGrid.FindPlainLeftmost | frontend/script.js:445 | no match of (\d+)([A-Z]) starts before the one found |
| SeatGrid.FindDashedLeftmost | frontend/script.js:447 | no match of (\d+)-([A-Z]) starts before the one found |
| SeatGrid.Digits | frontend/script.js:457 | the captured row text is all digits |
| SeatGrid.ParsePlain | frontend/script.js:445-461 | a leftmost match of the first pattern gives the row (its digits in decimal) and the column (its letter) |
| SeatGrid.ParseDashed | frontend/script.js:446-461 | without a first-pattern match, a leftmost match of the dashed pattern decides |
| SeatGrid.ParseFallback | frontend/script.js:449-455 | a seat number neither pattern matches goes in row 1 with the whole text as its column |
| SeatGrid.ParseSeatNumber | frontend/script.js:443-463 | when either pattern matches, the column is one upper-case letter; every character of the column comes from the seat number |
| SeatGrid.ParseSeedSeatNumber | frontend/script.js:445-461 | the parser recovers exactly the row and column that seed_data.py encoded in the n-th seat number |
| SeatGrid.ButtonFor | frontend/script.js:486-501 | a seat's button shows its column, carries its id and number, and is enabled (clickable) exactly when the seat is available |
| SeatGrid.Buttons | frontend/script.js:478 | one button per seat |
| SeatGrid.RowCells | frontend/script.js:478-504 | a row has one cell per seat, plus one gap cell in rows of more than four seats |
| SeatGrid.LayRow | frontend/script.js:478-504 | the row loop yields RowCells: the seats' buttons in order with a gap before the third seat when there are more than four |
| SeatGrid.RowCellsShape | frontend/script.js:478-484 | the gap is the only non-button cell and exists exactly in rows of more than four seats, at index 2; the buttons are the seats in order |
| SeatGrid.SixSeatAisle | frontend/script.js:479-484 | in a six-seat row A..F the gap falls between B and C, not after D |
| SeatGrid.CellsOfRow | frontend/script.js:478-504 | every seat of a row has its button, and every button is one of its seats |
| SeatGrid.Placements | frontend/script.js:443-463 | one placement per seat |
| SeatGrid.PlacementsAt | frontend/script.js:443-463 | the k-th placement is the k-th seat's parsed position |
| SeatGrid.InRowMembers | frontend/script.js:458-461 | a row's list holds exactly the seats whose number names that row |
| SeatGrid.InRowEmpty | frontend/script.js:452-454 | a row no seat names has an empty list |
| SeatGrid.ColLeIsPreorder | frontend/script.js:476 | the column comparison is a total preorder |
| SeatGrid.RowsGrid | frontend/script.js:466 | one grid row per row number |
| SeatGrid.RowsGridAt | frontend/script.js:466-507 | grid row i is the i-th row number with its sorted seats laid out |
| SeatGrid.GroupStep | frontend/script.js:458-461 | appending a seat to its row's list keeps the dictionary grouping the seats read so far |
| SeatGrid.GroupByRow | frontend/script.js:442-463 | the dictionary's keys are exactly the rows named, and each row's list is its seats in list order |
| SeatGrid.LayRows | frontend/script.js:466-507 | the row loop yields the grid of the grouped seats, rows ascending |
| SeatGrid.GridOf | frontend/script.js:437-510 | the grid has one row per row number the seats name |
| SeatGrid.CreateSeatGrid | frontend/script.js:437-510 | the grid built is GridOf(seats) |
| SeatGrid.PlacedGridOrdered | frontend/script.js:466 | grid rows are strictly ascending and are exactly the row numbers named by the seats |
| SeatGrid.RowSeatsSortedPermutation | frontend/script.js:476 | within a row, seats are sorted by column and are a permutation of that row's seats |
| SeatGrid.PlacedInGrid | frontend/script.js:443-504 | every placed seat's button is in the grid row of its row number |
| SeatGrid.SeatInGrid | frontend/script.js:443-504 | every listed seat is shown, as a button in the row its number names |
| SeatGrid.GridButtonIsPlaced | frontend/script.js:466-504 | every button of a grid row is a placed seat of that row |
| SeatGrid.GridButtonIsSeat | frontend/script.js:443-504 | every button of the grid is a listed seat, in the row its number names |
| SeatGrid.OfClass | frontend/script.js:416-417 | the filter keeps exactly the seats of the class |
| SeatGrid.OfClassEmpty | frontend/script.js:420 | a class's list is non-empty exactly when some seat has that class |
| SeatGrid.SeatSections | frontend/script.js:416-434 | at most two sections, each holding exactly the seats of its class |
| SeatGrid.SeatSectionsClasses | frontend/script.js:420-434 | a business section exactly when a business seat exists, an economy section exactly when an economy seat exists, business first; no other class |
| SeatGrid.SeatSectionsPartition | frontend/script.js:416-434 | a business or economy seat is in its class's section; no seat is in another class's section |
| SeatGrid.SeatMapShowsSeat | frontend/script.js:411-434 | every business or economy seat appears as a button in its class's grid, in its row |
| SeatGrid.SeatMapButtonIsSeat | frontend/script.js:411-434 | every button of a section is a listed seat of that section's class |
| SeatGrid.CreateSeatMap | frontend/script.js:411-435 | the seat map is the grid of each section, business first |
| Checkout.IndexOf | frontend/script.js:526 | the position found is the first holding the id; none exactly when the id is not picked |
| Checkout.WithoutConcat | frontend/script.js:530 | filtering an id out of a concatenation filters each part |
| Checkout.WithoutAbsent | frontend/script.js:530 | filtering out an id that is not there changes nothing |
| Checkout.RemoveOnly | frontend/script.js:530 | splicing out the only entry of an id is filtering that id out |
| Checkout.OthersDiffer | frontend/script.js:526 | with distinct ids, only the k-th entry has the k-th id |
| Checkout.RemovedNotPicked | frontend/script.js:530 | after splicing out the only entry of an id, that id is not picked |
| Checkout.Toggled | frontend/script.js:523-543 | clicking a picked seat shortens the selection by one; clicking another keeps the selection as a prefix; the result stays within the count or the old size |
| Checkout.ToggleDeselects | frontend/script.js:526-530 | clicking a picked seat removes exactly its entry, keeps the others in order, and shortens the selection by one, whatever the count |
| Checkout.ToggleSelects | frontend/script.js:533-538 | clicking a new seat appends it while fewer than the count are picked, and otherwise changes nothing |
| Checkout.ToggleKeepsBound | frontend/script.js:523-543 | picked ids stay distinct and never exceed the count |
| Checkout.ToggleTwice | frontend/script.js:523-539 | clicking a new seat twice restores the selection |
| Checkout.ConfirmEnabled | frontend/script.js:564-596 | the confirm button is enabled exactly when the selection is non-empty and its size equals the count |
| Checkout.EnabledSelectionIsFull | frontend/script.js:533-540 | once the confirm button is enabled, clicking a seat not yet picked changes nothing |
| Checkout.DisabledSelectionGrows | frontend/script.js:533-536 | while a non-empty selection leaves the button disabled, clicking a seat not yet picked adds it at the end |
| Checkout.HasId | frontend/script.js:637-655 | a reply counts as a booking exactly when it is not an error and carries an id that is present and not zero |
| Checkout.Accepted | frontend/script.js:622-661 | a batch is accepted exactly when every reply is a booking with a non-zero id; the bookings are then the replies in request order |
| Checkout.BookingIds | frontend/script.js:756-766 | the ids sent are exactly the present ids of the bookings, never more than the bookings |
| Checkout.BookingIdsConcat | frontend/script.js:756-766 | the ids of two runs of bookings follow one another |
| Checkout.BookingIdsAllPresent | frontend/script.js:756-766 | when every booking has an id, the ids are those ids, one each, in order |
| Checkout.AcceptedBatchPaysAll | frontend/script.js:682 | after an accepted batch, payment lists one non-zero id per picked seat, the k-th seat's booking id k-th |
| Checkout.CheckoutSession.constructor | frontend/script.js:2-7 | at page load no flight or booking is chosen, nothing is picked and one seat is wanted |
| Checkout.CheckoutSession.SelectFlight | frontend/script.js:351-354 | opening a flight sets it, empties the selection, reads the count, and leaves the bookings as they were |
| Checkout.CheckoutSession.UpdateSeatSelection | frontend/script.js:513-521 | the new count is set and the selection becomes its oldest entries that fit; a selection that fits is untouched |
| Checkout.CheckoutSession.SelectSeat | frontend/script.js:523-543 | the selection becomes Toggled of the old one while the session invariant (distinct, bounded) is kept |
| Checkout.CheckoutSession.HandleBooking | frontend/script.js:605-694 | requests go out exactly for a complete selection with a flight, one per picked seat in order; bookings are kept only if all replies have ids; otherwise the selection is emptied and bookings are untouched |
| Checkout.CheckoutSession.HandlePayment | frontend/script.js:742-850 | one request, with the current bookings' present ids in order, exactly when there are bookings, such ids and a method; the bookings are replaced only by an ok, successful reply that carries bookings |
| Checkout.CheckoutSession.ResetSearch | frontend/script.js:1158-1170 | a new search clears flight, bookings and selection and wants one seat |
| Receipt.ReplaceCharRemoves | frontend/script.js:992-993 | replacing leaves no replaced sign behind and brings in only text or replacement characters |
| Receipt.ReplaceCharAbsent | frontend/script.js:992-993 | text without the sign is left as it is |
| Receipt.ReplaceChar | frontend/script.js:992-993 | each occurrence of the sign is replaced by the text given, the rest kept in order |
| Receipt.KeepPrintableChars | frontend/script.js:994 | what is kept is printable ASCII or whitespace |
| Receipt.KeepPrintableWhole | frontend/script.js:994 | text of printable characters and whitespace is kept whole |
| Receipt.KeepPrintable | frontend/script.js:994 | the filter never lengthens the text |
| Receipt.DropSpaces | frontend/script.js:995 | the result is the suffix after the leading whitespace |
| Receipt.CollapseSpaces | frontend/script.js:995 | collapsing never lengthens the text |
| Receipt.CollapseFirst | frontend/script.js:995 | the collapsed text starts with a space exactly when the text starts with whitespace |
| Receipt.CollapseNoDouble | frontend/script.js:995 | collapsing never leaves two spaces in a row |
| Receipt.CollapsePrintable | frontend/script.js:994-995 | after the filter, collapsing leaves only printable ASCII |
| Receipt.TrimStart | frontend/script.js:996 | trimming the start leaves a suffix that does not start with whitespace |
| Receipt.TrimEnd | frontend/script.js:996 | trimming the end leaves a prefix that does not end with whitespace |
| Receipt.Trim | frontend/script.js:996 | trimming never lengthens the text and leaves it neither starting nor ending with whitespace |
| Receipt.TrimKeeps | frontend/script.js:996 | trimming printable text without double spaces makes it clean |
| Receipt.SafeText | frontend/script.js:990 | null, undefined and the empty string give the empty string |
| Receipt.SafeTextClean | frontend/script.js:989-997 | the output is printable ASCII only, with no leading or trailing space and no two consecutive spaces |
| Receipt.CollapseCleanLoose | frontend/script.js:995 | printable text without double spaces is left as it is by collapsing |
| Receipt.CleanHasNoSigns | frontend/script.js:992-993 | clean text has no arrow or rupee sign to replace |
| Receipt.CleanKeptWhole | frontend/script.js:994 | clean text has no character to drop |
| Receipt.CleanTrimmed | frontend/script.js:996 | clean text has nothing to trim |
| Receipt.SafeTextFixesClean | frontend/script.js:989-997 | clean text is a fixed point of the sanitiser |
| Receipt.SafeTextIdempotent | frontend/script.js:989-997 | sanitising twice gives the same text as sanitising once |
| Receipt.Join | frontend/script.js:985 | a one-element list joins to that element; a longer one to its head, the separator and the joined rest |
| Receipt.FirstSegment | frontend/script.js:1154 | the first split segment is the longest prefix without the separator |
| Receipt.FirstSegmentOfPrefix | frontend/script.js:1154 | splitting text that starts with a separator-free part returns that part |
| Receipt.ReceiptFileName | frontend/script.js:1154 | the file name starts with booking- and ends with .pdf |
| Receipt.ReceiptFileNameFirstPnr | frontend/script.js:1154 | the file name is booking-<first PNR>-multiple.pdf for several bookings and booking-<PNR>.pdf for one, for any PNR without a comma |

## Left out

- The DOM and rendering are not modelled: result lists, the payment and confirmation pages, the seat highlighting of `updateSeatMapDisplay`, loaders, scrolling and alerts. Only the confirm-button rule of `updateSeatSummary` is modelled, as `Checkout.ConfirmEnabled`.
- `fetch`, `localStorage` and promise scheduling are not modelled. The replies to the booking requests and to the payment request are parameters (`outcomes`, `outcome`), so concurrency and the timing of `Promise.all` are not modelled.
- Pending bookings created on the server for the successful part of a rejected batch stay there. The client model does not track them; the server model shows each one as an ordinary `CreateBooking`.
- The unreachable `invalidBookings` check after `Promise.all` (frontend/script.js:675-680) is not modelled. Every reply was already required to carry an id.
- Checkout.CheckoutSession.HandleBooking: when no flight is open, the page throws while building the first request body and the catch block does not reopen a flight. The model sends no request and leaves the session unchanged, which is what the page ends up doing.
- Checkout.CheckoutSession.UpdateSeatSelection: the seat count is a `nat` read from the control. A `parseInt` result that is NaN or negative is not modelled.
- Checkout.CheckoutSession.SelectFlight: the same applies to `controlCount`. The seat fetch and the redraw that follow the state lines are left out.
- Checkout.CheckoutSession.HandlePayment: the id filter drops only missing ids, as the page does; a reply booking that is null is not modelled.
- Common.LexLe: the column sort in the seat grid uses `localeCompare`. The model compares by character code instead, which agrees on the single upper-case letters the two patterns capture and may differ on other labels.
- SeatGrid.ParseSeatNumber: `parseInt` of the captured digits is read as a decimal number, leading zeros included, which is what `parseInt` does for a digit run.
- Receipt.SafeText: `String(text)` of a non-string value is not modelled. The input is a string or null/undefined (`None`).
- Receipt.ReceiptFileName: the list of PNRs is not empty, as on the confirmation page. Rendering of the PDF with jsPDF is left out.
- Pricing.CalculatePrice: the float product and `round(…, 2)` are not modelled. Prices are exact `real` values, and the random factor and the hours to departure are parameters. Occupancy, the tiers and the trend are exact.
- Store.ResultFor: the duration is not rounded to two decimals, and the sort by duration uses the exact value.
- Store.BookingStore.SearchFlights: the search query has no order_by, and its rows are modelled in ascending key order. `SearchParams` holds the request model after its defaults are filled in. A body without `sort_by` therefore has `sortBy == Some("price")` (`Store.DefaultSearch`), and `None` stands only for an explicit null, which leaves the rows unsorted. The departure sort compares instants in seconds. The server compares ISO 8601 strings, which order the same way for times written in one format. Parsing the date string is left out: the date parameter is the first second of the day. The clock and the per-flight random factors are parameters. The 500 reply is not modelled. The search reads the airline, origin and destination rows of every matching flight (`backend/main.py:326-338`). When one of them is missing, which an update can cause (see AdminUpdateFlight), the whole search answers 500. The model lists that flight like any other.
- Store.BookingStore.CreateBooking: the random PNR and PIN draws are sequences given as input, and the precondition says some draw is unused. This stands for the fact that the regeneration loops terminate. Row locking (`with_for_update`) is not modelled, and neither is the 500 path (`backend/main.py:563-565`). One of those 500s comes after the commit at main.py:537. The reply then reads `flight.origin.city` and `flight.destination.city` (main.py:551-552), which raises when those rows are missing (see AdminUpdateFlight). The booking and the taken seat stay committed, while the model answers Ok. The 409 path is proved unreachable under the store invariant (`Store.OpenSeatIsFree`).
- Store.BookingStore.ProcessPayment: the reply's booking details are not modelled: seat numbers, flight details, and the fallback PIN for rows from old databases. The rows come back in key order, which is how `query.all()` is modelled. The 500 path is not modelled, and one 500 the source can give comes after the commit. The confirmations are committed at `backend/main.py:631` before the reply is built. If a confirmed booking's seat row no longer exists, `seat.seat_number` raises at main.py:650 and the handler answers 500 (main.py:676-681). Its rollback cannot undo the commit, so those bookings stay confirmed. In that state the model answers Ok, and its "nothing changes on failure" covers only the 400 and 404 replies. `AdminDeleteFlight` (below) can reach that state.
- Store.BookingStore.AdminUpdateFlight: `airline_id`, `origin_id` and `destination_id` are stored without checking that those rows exist (`backend/main.py:434-439`). With no foreign-key enforcement, the flight can then name missing rows. `Store.ApplyUpdate` accepts any id the same way. Times arrive already parsed. An unparseable `departure_time` or `arrival_time` makes `datetime.fromisoformat` raise (main.py:441-443). The handler re-raises (main.py:457-459), so the reply is 500 with nothing changed. The model has no such reply.
- Store.BookingStore.AdminDeleteFlight: the booking check looks only at bookings whose flight is the deleted flight (`backend/main.py:469-473`). A booking made for another flight can hold one of its seats (`CreateBooking`, main.py:497-500), and the delete removes that seat too. Nothing in the source turns on SQLite's foreign-key enforcement, so the model removes the seat the same way. Afterwards that booking names a seat id that is no longer in `seats`. `BookedSeatsTaken` still holds only because it skips bookings whose seat id is missing.
- Store.BookingStore.RegisterUser: password hashing is a parameter (`passwordHash`). Login and the rest of authentication are left out.
- Database plumbing is left out: SQLAlchemy sessions, migrations, `ensure_default_admin`, and the listing, creating and seat-fetching endpoints that only read or insert rows. The QR code endpoint is also left out.
- Seed: the airports and airlines inserted at the start of seeding are constant rows and are not modelled. The base date (now plus seven days) is a parameter. Durations are kept in minutes, so 2.5 hours is exact. Flight ids are the insertion positions counted from 1.
- Schema: creation timestamps (`created_at`, `booking_date`) and foreign keys other than the seat reference are not modelled. Statuses other than pending and confirmed are kept as free text (`OtherStatus`).
