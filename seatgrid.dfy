/** The seat map of the booking page: seat numbers are read with the
    patterns (\d+)([A-Z]) and (\d+)-([A-Z]), seats are grouped by row, rows
    are laid out in ascending order, the seats of a row by column, with an
    aisle gap in rows of more than four seats. Business seats come before
    economy seats; seats of any other class are not shown. */
module SeatGrid {
  import opened Common
  import Seed

  /** A seat as the seat list of a flight delivers it to the page. */
  datatype ClientSeat = ClientSeat(id: int, seatNumber: string, seatClass: string, isAvailable: bool)

  predicate IsUpper(c: char) { 'A' <= c <= 'Z' }

  // ------------------------------------------------------------------
  // Reading a seat number
  // ------------------------------------------------------------------

  /** The end of the run of digits that starts at i. */
  function DigitRunEnd(s: string, i: nat): (e: nat)
    requires i <= |s|
    ensures i <= e <= |s|
    ensures forall k :: i <= k < e ==> IsDigit(s[k])
    ensures e == |s| || !IsDigit(s[e])
    decreases |s| - i
  {
    if i < |s| && IsDigit(s[i]) then DigitRunEnd(s, i + 1) else i
  }

  /** (\d+)([A-Z]) matches at i with the digits s[i..j] and the letter s[j]. */
  predicate PlainMatchAt(s: string, i: nat, j: nat) {
    i < j < |s| && (forall k :: i <= k < j ==> IsDigit(s[k])) && IsUpper(s[j])
  }

  /** (\d+)-([A-Z]) matches at i with the digits s[i..j], the dash s[j] and
      the letter s[j + 1]. */
  predicate DashedMatchAt(s: string, i: nat, j: nat) {
    i < j && j + 1 < |s| && (forall k :: i <= k < j ==> IsDigit(s[k])) && s[j] == '-' && IsUpper(s[j + 1])
  }

  /** The digits of a match end where the run of digits ends. */
  lemma {:induction false} RunEndIsFirstNonDigit(s: string, i: nat, j: nat)
    requires i <= j <= |s|
    requires forall k :: i <= k < j ==> IsDigit(s[k])
    requires j == |s| || !IsDigit(s[j])
    ensures DigitRunEnd(s, i) == j
    decreases j - i
  {
    if i < j {
      RunEndIsFirstNonDigit(s, i + 1, j);
    }
  }

  /** The first start, from i on, where (\d+)([A-Z]) matches. */
  function FindPlain(s: string, i: nat): (m: Option<nat>)
    requires i <= |s|
    ensures m.Some? ==> i <= m.value < |s| && PlainMatchAt(s, m.value, DigitRunEnd(s, m.value))
    decreases |s| - i
  {
    if i == |s| then None
    else if IsDigit(s[i]) && DigitRunEnd(s, i) < |s| && IsUpper(s[DigitRunEnd(s, i)]) then Some(i)
    else FindPlain(s, i + 1)
  }

  /** The first start, from i on, where (\d+)-([A-Z]) matches. */
  function FindDashed(s: string, i: nat): (m: Option<nat>)
    requires i <= |s|
    ensures m.Some? ==> i <= m.value < |s| && DashedMatchAt(s, m.value, DigitRunEnd(s, m.value))
    decreases |s| - i
  {
    if i == |s| then None
    else if IsDigit(s[i]) && DigitRunEnd(s, i) + 1 < |s| && s[DigitRunEnd(s, i)] == '-'
            && IsUpper(s[DigitRunEnd(s, i) + 1]) then Some(i)
    else FindDashed(s, i + 1)
  }

  /** The scan finds the leftmost match: the pattern matches at no start
      between i and the one found (or the end of the text). */
  lemma {:induction false} FindPlainLeftmost(s: string, i: nat)
    requires i <= |s|
    ensures forall k: nat, j: nat :: i <= k && (FindPlain(s, i).None? || k < FindPlain(s, i).value)
                                    ==> !PlainMatchAt(s, k, j)
    decreases |s| - i
  {
    if i < |s| && !(IsDigit(s[i]) && DigitRunEnd(s, i) < |s| && IsUpper(s[DigitRunEnd(s, i)])) {
      FindPlainLeftmost(s, i + 1);
      forall j: nat | PlainMatchAt(s, i, j) ensures false {
        RunEndIsFirstNonDigit(s, i, j);
      }
    }
  }

  lemma {:induction false} FindDashedLeftmost(s: string, i: nat)
    requires i <= |s|
    ensures forall k: nat, j: nat :: i <= k && (FindDashed(s, i).None? || k < FindDashed(s, i).value)
                                    ==> !DashedMatchAt(s, k, j)
    decreases |s| - i
  {
    if i < |s| && !(IsDigit(s[i]) && DigitRunEnd(s, i) + 1 < |s| && s[DigitRunEnd(s, i)] == '-'
                    && IsUpper(s[DigitRunEnd(s, i) + 1])) {
      FindDashedLeftmost(s, i + 1);
      forall j: nat | DashedMatchAt(s, i, j) ensures false {
        RunEndIsFirstNonDigit(s, i, j);
      }
    }
  }

  /** Where a seat goes in the grid: its row number and the column label. */
  datatype SeatPos = SeatPos(row: nat, col: string)

  function Digits(s: string, i: nat, j: nat): (d: string)
    requires i <= j <= |s|
    requires forall k :: i <= k < j ==> IsDigit(s[k])
    ensures AllDigits(d) && d == s[i..j]
  {
    s[i..j]
  }

  /** The first match of (\d+)([A-Z]) gives the row (the digits read in
      decimal) and the column (the letter); failing that, the first match of
      (\d+)-([A-Z]); failing both, the seat goes in row 1 with its whole
      number as the column. */
  function ParseSeatNumber(s: string): (p: SeatPos)
    ensures FindPlain(s, 0).Some? || FindDashed(s, 0).Some? ==> |p.col| == 1 && IsUpper(p.col[0])
    ensures forall k :: 0 <= k < |p.col| ==> p.col[k] in s
  {
    match FindPlain(s, 0)
    case Some(i) =>
      var e := DigitRunEnd(s, i);
      SeatPos(DecimalValue(Digits(s, i, e)), [s[e]])
    case None =>
      match FindDashed(s, 0)
      case Some(i) =>
        var e := DigitRunEnd(s, i);
        SeatPos(DecimalValue(Digits(s, i, e)), [s[e + 1]])
      case None => SeatPos(1, s)
  }

  /** A leftmost match of the first pattern decides the position. */
  lemma {:induction false} ParsePlain(s: string, i: nat, j: nat)
    requires PlainMatchAt(s, i, j)
    requires forall k: nat, l: nat :: k < i ==> !PlainMatchAt(s, k, l)
    ensures ParseSeatNumber(s) == SeatPos(DecimalValue(Digits(s, i, j)), [s[j]])
  {
    RunEndIsFirstNonDigit(s, i, j);
    FindPlainLeftmost(s, 0);
    assert FindPlain(s, 0) == Some(i);
  }

  /** Without a match of the first pattern, a leftmost match of the second
      decides the position. */
  lemma {:induction false} ParseDashed(s: string, i: nat, j: nat)
    requires forall k: nat, l: nat :: !PlainMatchAt(s, k, l)
    requires DashedMatchAt(s, i, j)
    requires forall k: nat, l: nat :: k < i ==> !DashedMatchAt(s, k, l)
    ensures ParseSeatNumber(s) == SeatPos(DecimalValue(Digits(s, i, j)), [s[j + 1]])
  {
    RunEndIsFirstNonDigit(s, i, j);
    FindDashedLeftmost(s, 0);
    assert FindPlain(s, 0).None?;
    assert FindDashed(s, 0) == Some(i);
  }

  /** A seat number neither pattern matches goes in row 1 as it is. */
  lemma {:induction false} ParseFallback(s: string)
    requires forall k: nat, l: nat :: !PlainMatchAt(s, k, l) && !DashedMatchAt(s, k, l)
    ensures ParseSeatNumber(s) == SeatPos(1, s)
  {
    assert FindPlain(s, 0).None?;
    assert FindDashed(s, 0).None?;
  }

  /** The grid reads back the row and column the seed generator encoded in
      the n-th seat number of a flight. */
  lemma {:induction false} ParseSeedSeatNumber(n: nat)
    requires n >= 1
    ensures ParseSeatNumber(Seed.SeatNumber(n)) == SeatPos(Seed.SeatRow(n), [Seed.SeatColumn(n)])
  {
    var d := NatToDecimal(Seed.SeatRow(n));
    var s := Seed.SeatNumber(n);
    assert s == d + [Seed.SeatColumn(n)];
    assert forall k :: 0 <= k < |d| ==> IsDigit(s[k]);
    assert PlainMatchAt(s, 0, |d|);
    assert s[0..|d|] == d;
    DecimalRoundTrip(Seed.SeatRow(n));
    ParsePlain(s, 0, |d|);
  }

  // ------------------------------------------------------------------
  // Cells of one row
  // ------------------------------------------------------------------

  /** A seat with the row and column read from its number. */
  datatype Placed = Placed(seat: ClientSeat, row: nat, col: string)

  function Place(seat: ClientSeat): Placed {
    var pos := ParseSeatNumber(seat.seatNumber);
    Placed(seat, pos.row, pos.col)
  }

  /** A seat button shows the column, carries the seat's id and number, and
      is enabled (and clickable) exactly when the seat is available. */
  datatype Cell = Aisle | SeatButton(caption: string, seatId: int, seatNumber: string, enabled: bool)

  function ButtonFor(p: Placed): (c: Cell)
    ensures c.SeatButton? && c.caption == p.col && c.seatId == p.seat.id
    ensures c.seatNumber == p.seat.seatNumber && (c.enabled <==> p.seat.isAvailable)
  {
    SeatButton(p.col, p.seat.id, p.seat.seatNumber, p.seat.isAvailable)
  }

  function Buttons(row: seq<Placed>): (cs: seq<Cell>)
    ensures |cs| == |row|
  {
    seq(|row|, i requires 0 <= i < |row| => ButtonFor(row[i]))
  }

  /** The cells of a row with its seats in display order: one button per
      seat, and a gap before the third seat when the row has more than four
      seats. */
  function RowCells(row: seq<Placed>): (cells: seq<Cell>)
    ensures |cells| == |row| + (if |row| > 4 then 1 else 0)
  {
    if |row| > 4 then Buttons(row[..2]) + [Aisle] + Buttons(row[2..]) else Buttons(row)
  }

  /** Lays out one row, seat by seat. */
  method LayRow(row: seq<Placed>) returns (cells: seq<Cell>)
    ensures cells == RowCells(row)
  {
    cells := [];
    for k := 0 to |row|
      invariant cells == if |row| > 4 && k > 2 then Buttons(row[..2]) + [Aisle] + Buttons(row[2..k])
                         else Buttons(row[..k])
    {
      if k == 2 && |row| > 4 {
        cells := cells + [Aisle];
      }
      cells := cells + [ButtonFor(row[k])];
    }
    assert row[..|row|] == row;
  }

  /** The gap is the only cell that is not a button, it exists exactly in
      rows of more than four seats, and the buttons are the row's seats in
      order. */
  lemma {:induction false} RowCellsShape(row: seq<Placed>)
    ensures |RowCells(row)| == |row| + (if |row| > 4 then 1 else 0)
    ensures forall k :: 0 <= k < |RowCells(row)| ==> (RowCells(row)[k] == Aisle <==> |row| > 4 && k == 2)
    ensures forall k :: 0 <= k < |row| ==>
      RowCells(row)[if |row| > 4 && k >= 2 then k + 1 else k] == ButtonFor(row[k])
  {
  }

  /** In a full row of six seats the gap falls between the second and the
      third seat, that is between columns B and C of a row A to F, and not
      after column D. */
  lemma {:induction false} SixSeatAisle(row: seq<Placed>)
    requires |row| == 6
    requires forall k :: 0 <= k < 6 ==> row[k].col == [(65 + k) as char]
    ensures RowCells(row)[1].caption == "B" && RowCells(row)[2] == Aisle && RowCells(row)[3].caption == "C"
    ensures RowCells(row)[5].caption == "E" && RowCells(row)[6].caption == "F"
  {
    RowCellsShape(row);
    assert RowCells(row)[1] == ButtonFor(row[1]);
    assert RowCells(row)[3] == ButtonFor(row[2]);
    assert RowCells(row)[5] == ButtonFor(row[4]);
    assert RowCells(row)[6] == ButtonFor(row[5]);
  }

  lemma {:induction false} CellsOfRow(row: seq<Placed>)
    ensures forall x :: x in row ==> ButtonFor(x) in RowCells(row)
    ensures forall c :: c in RowCells(row) && c.SeatButton? ==> exists x :: x in row && c == ButtonFor(x)
  {
    RowCellsShape(row);
    forall x | x in row ensures ButtonFor(x) in RowCells(row) {
      var k :| 0 <= k < |row| && row[k] == x;
      assert RowCells(row)[if |row| > 4 && k >= 2 then k + 1 else k] == ButtonFor(x);
    }
    forall c | c in RowCells(row) && c.SeatButton? ensures exists x :: x in row && c == ButtonFor(x) {
      var k :| 0 <= k < |RowCells(row)| && RowCells(row)[k] == c;
      var j := if |row| > 4 && k > 2 then k - 1 else k;
      assert RowCells(row)[if |row| > 4 && j >= 2 then j + 1 else j] == ButtonFor(row[j]);
    }
  }

  // ------------------------------------------------------------------
  // The grid
  // ------------------------------------------------------------------

  datatype GridRow = GridRow(rowNumber: int, cells: seq<Cell>)

  /** Every seat with the row and column read from its number. */
  function Placements(seats: seq<ClientSeat>): (ps: seq<Placed>)
    ensures |ps| == |seats|
  {
    if seats == [] then [] else Placements(seats[..|seats| - 1]) + [Place(seats[|seats| - 1])]
  }

  lemma {:induction false} PlacementsAt(seats: seq<ClientSeat>, k: int)
    requires 0 <= k < |seats|
    ensures Placements(seats)[k] == Place(seats[k])
  {
    var init := seats[..|seats| - 1];
    if k < |seats| - 1 {
      PlacementsAt(init, k);
    }
  }

  function RowsOf(ps: seq<Placed>): set<int> {
    set p | p in ps :: p.row as int
  }

  /** The seats read into row r, in the order they were met. */
  function InRow(ps: seq<Placed>, r: int): seq<Placed> {
    if ps == [] then []
    else
      var last := ps[|ps| - 1];
      InRow(ps[..|ps| - 1], r) + (if last.row == r then [last] else [])
  }

  /** The seats of row r are the listed seats whose number names row r. */
  lemma {:induction false} InRowMembers(ps: seq<Placed>, r: int)
    ensures forall p :: p in InRow(ps, r) <==> p in ps && p.row == r
  {
    if ps != [] {
      var init := ps[..|ps| - 1];
      InRowMembers(init, r);
      assert ps == init + [ps[|ps| - 1]];
    }
  }

  lemma {:induction false} InRowEmpty(ps: seq<Placed>, r: int)
    requires r !in RowsOf(ps)
    ensures InRow(ps, r) == []
  {
    if ps != [] {
      var init, last := ps[..|ps| - 1], ps[|ps| - 1];
      assert ps == init + [last];
      RowsOfSnoc(init, last);
      InRowEmpty(init, r);
    }
  }

  function ColLe(a: Placed, b: Placed): bool {
    LexLe(a.col, b.col)
  }

  lemma {:induction false} ColLeIsPreorder()
    ensures TotalPreorder(ColLe)
  {
    forall a: Placed, b: Placed ensures ColLe(a, b) || ColLe(b, a) {
      LexTotal(a.col, b.col);
    }
    forall a: Placed, b: Placed, c: Placed | ColLe(a, b) && ColLe(b, c) ensures ColLe(a, c) {
      LexTransitive(a.col, b.col, c.col);
    }
  }

  /** The seats of row r sorted by column; the sort is stable. */
  function RowSeats(ps: seq<Placed>, r: int): seq<Placed> {
    SortBy(InRow(ps, r), ColLe)
  }

  /** One grid row per row number of rows, in that order. */
  function RowsGrid(ps: seq<Placed>, rows: seq<int>): (grid: seq<GridRow>)
    ensures |grid| == |rows|
  {
    if rows == [] then []
    else RowsGrid(ps, rows[..|rows| - 1]) + [GridRow(rows[|rows| - 1], RowCells(RowSeats(ps, rows[|rows| - 1])))]
  }

  lemma {:induction false} RowsGridAt(ps: seq<Placed>, rows: seq<int>, i: int)
    requires 0 <= i < |rows|
    ensures RowsGrid(ps, rows)[i] == GridRow(rows[i], RowCells(RowSeats(ps, rows[i])))
  {
    if i < |rows| - 1 {
      RowsGridAt(ps, rows[..|rows| - 1], i);
    }
  }

  lemma {:induction false} RowsGridSnoc(ps: seq<Placed>, rows: seq<int>, i: int)
    requires 0 <= i < |rows|
    ensures RowsGrid(ps, rows[..i + 1]) == RowsGrid(ps, rows[..i]) + [GridRow(rows[i], RowCells(RowSeats(ps, rows[i])))]
  {
    assert rows[..i + 1][..i] == rows[..i];
  }

  /** The grid of placed seats: one row per row number, in ascending
      order. */
  function PlacedGrid(ps: seq<Placed>): seq<GridRow> {
    RowsGrid(ps, SortedElements(RowsOf(ps)))
  }

  /** The grid of a list of seats. */
  function GridOf(seats: seq<ClientSeat>): (grid: seq<GridRow>)
    ensures |grid| == |RowsOf(Placements(seats))|
  {
    PlacedGrid(Placements(seats))
  }

  lemma {:induction false} RowsOfSnoc(ps: seq<Placed>, p: Placed)
    ensures RowsOf(ps + [p]) == RowsOf(ps) + {p.row as int}
  {
    assert forall x :: x in ps + [p] <==> x in ps || x == p;
  }

  lemma {:induction false} InRowSnoc(ps: seq<Placed>, p: Placed, r: int)
    ensures InRow(ps + [p], r) == InRow(ps, r) + (if p.row == r then [p] else [])
  {
    assert (ps + [p])[..|ps|] == ps;
  }

  /** Appending one placed seat to its row's list in a dictionary that
      groups pre keeps the dictionary grouping pre + [p]. */
  lemma {:induction false} GroupStep(pre: seq<Placed>, p: Placed, m: map<int, seq<Placed>>, m': map<int, seq<Placed>>)
    requires m.Keys == RowsOf(pre)
    requires forall r :: r in m ==> m[r] == InRow(pre, r)
    requires m' == m[p.row as int := (if p.row as int in m then m[p.row as int] else []) + [p]]
    ensures m'.Keys == RowsOf(pre + [p])
    ensures forall r :: r in m' ==> m'[r] == InRow(pre + [p], r)
  {
    RowsOfSnoc(pre, p);
    if p.row as int !in m {
      InRowEmpty(pre, p.row as int);
    }
    forall r | r in m' ensures m'[r] == InRow(pre + [p], r) {
      InRowSnoc(pre, p, r);
    }
  }

  /** The dictionary from row number to the seats read into that row, in
      list order. */
  method GroupByRow(seats: seq<ClientSeat>) returns (byRow: map<int, seq<Placed>>)
    ensures byRow.Keys == RowsOf(Placements(seats))
    ensures forall r :: r in byRow ==> byRow[r] == InRow(Placements(seats), r)
  {
    ghost var ps := Placements(seats);
    byRow := map[];
    for k := 0 to |seats|
      invariant byRow.Keys == RowsOf(ps[..k])
      invariant forall r :: r in byRow ==> byRow[r] == InRow(ps[..k], r)
    {
      var p := Place(seats[k]);
      PlacementsAt(seats, k);
      assert ps[..k + 1] == ps[..k] + [p];
      var row := if p.row in byRow then byRow[p.row] else [];
      GroupStep(ps[..k], p, byRow, byRow[p.row := row + [p]]);
      byRow := byRow[p.row := row + [p]];
    }
    assert ps[..|seats|] == ps;
  }

  /** Lays out the rows of the dictionary in ascending order, the seats of
      each row sorted by column. */
  method LayRows(byRow: map<int, seq<Placed>>, ghost ps: seq<Placed>) returns (grid: seq<GridRow>)
    requires byRow.Keys == RowsOf(ps)
    requires forall r :: r in byRow ==> byRow[r] == InRow(ps, r)
    ensures grid == PlacedGrid(ps)
  {
    var rows := SortedElements(byRow.Keys);
    grid := [];
    for i := 0 to |rows|
      invariant grid == RowsGrid(ps, rows[..i])
    {
      RowsGridSnoc(ps, rows, i);
      assert rows[i] in byRow.Keys;
      var sorted := SortBy(byRow[rows[i]], ColLe);
      var cells := LayRow(sorted);
      grid := grid + [GridRow(rows[i], cells)];
    }
    assert rows[..|rows|] == rows;
  }

  /** Groups the seats by row in a dictionary, then lays out the rows. */
  method CreateSeatGrid(seats: seq<ClientSeat>) returns (grid: seq<GridRow>)
    ensures grid == GridOf(seats)
  {
    var byRow := GroupByRow(seats);
    grid := LayRows(byRow, Placements(seats));
  }

  /** Rows appear once each, in strictly ascending order, and they are
      exactly the row numbers read from the seats. */
  lemma {:induction false} PlacedGridOrdered(ps: seq<Placed>)
    ensures forall i, j :: 0 <= i < j < |PlacedGrid(ps)| ==> PlacedGrid(ps)[i].rowNumber < PlacedGrid(ps)[j].rowNumber
    ensures forall r :: (exists i :: 0 <= i < |PlacedGrid(ps)| && PlacedGrid(ps)[i].rowNumber == r)
                        <==> r in RowsOf(ps)
  {
    var rows := SortedElements(RowsOf(ps));
    var grid := PlacedGrid(ps);
    SortedElementsAscending(RowsOf(ps));
    forall i | 0 <= i < |rows| ensures grid[i].rowNumber == rows[i] {
      RowsGridAt(ps, rows, i);
    }
    forall r ensures (exists i :: 0 <= i < |grid| && grid[i].rowNumber == r) <==> r in RowsOf(ps) {
      if r in RowsOf(ps) {
        var i :| 0 <= i < |rows| && rows[i] == r;
        assert grid[i].rowNumber == r;
      }
    }
  }

  /** Within a row the seats are sorted by column and are exactly the seats
      read into that row, each as often as it was listed. */
  lemma {:induction false} RowSeatsSortedPermutation(ps: seq<Placed>, r: int)
    ensures SortedBy(RowSeats(ps, r), ColLe)
    ensures multiset(RowSeats(ps, r)) == multiset(InRow(ps, r))
  {
    ColLeIsPreorder();
    SortBySorted(InRow(ps, r), ColLe);
  }

  lemma {:induction false} PlacedInGrid(ps: seq<Placed>, x: Placed)
    requires x in ps
    ensures exists i :: 0 <= i < |PlacedGrid(ps)| && PlacedGrid(ps)[i].rowNumber == x.row
                        && ButtonFor(x) in PlacedGrid(ps)[i].cells
  {
    var r := x.row as int;
    assert r in RowsOf(ps);
    var rows := SortedElements(RowsOf(ps));
    var i :| 0 <= i < |rows| && rows[i] == r;
    InRowMembers(ps, r);
    assert x in InRow(ps, r);
    RowSeatsSortedPermutation(ps, r);
    assert x in multiset(RowSeats(ps, r));
    assert x in RowSeats(ps, r);
    CellsOfRow(RowSeats(ps, r));
    RowsGridAt(ps, rows, i);
    assert PlacedGrid(ps)[i] == GridRow(r, RowCells(RowSeats(ps, r)));
    assert ButtonFor(x) in PlacedGrid(ps)[i].cells;
  }

  /** Every listed seat is shown, as a button in the row its number names. */
  lemma {:induction false} SeatInGrid(seats: seq<ClientSeat>, k: int)
    requires 0 <= k < |seats|
    ensures exists i :: 0 <= i < |GridOf(seats)| && GridOf(seats)[i].rowNumber == Place(seats[k]).row
                        && ButtonFor(Place(seats[k])) in GridOf(seats)[i].cells
  {
    var ps := Placements(seats);
    PlacementsAt(seats, k);
    assert ps[k] in ps;
    PlacedInGrid(ps, ps[k]);
    assert GridOf(seats) == PlacedGrid(ps);
  }

  lemma {:induction false} GridButtonIsPlaced(ps: seq<Placed>, i: int, c: Cell)
    requires 0 <= i < |PlacedGrid(ps)|
    requires c in PlacedGrid(ps)[i].cells && c.SeatButton?
    ensures exists x :: x in ps && c == ButtonFor(x) && x.row == PlacedGrid(ps)[i].rowNumber
  {
    var rows := SortedElements(RowsOf(ps));
    var r := rows[i];
    var row := RowSeats(ps, r);
    RowsGridAt(ps, rows, i);
    CellsOfRow(row);
    var x :| x in row && c == ButtonFor(x);
    RowSeatsSortedPermutation(ps, r);
    assert x in multiset(InRow(ps, r));
    InRowMembers(ps, r);
  }

  /** Every button of the grid is a listed seat, in the row its number
      names. */
  lemma {:induction false} GridButtonIsSeat(seats: seq<ClientSeat>, i: int, c: Cell)
    requires 0 <= i < |GridOf(seats)|
    requires c in GridOf(seats)[i].cells && c.SeatButton?
    ensures exists k :: 0 <= k < |seats| && c == ButtonFor(Place(seats[k]))
                        && Place(seats[k]).row == GridOf(seats)[i].rowNumber
  {
    var ps := Placements(seats);
    GridButtonIsPlaced(ps, i, c);
    var x :| x in ps && c == ButtonFor(x) && x.row == PlacedGrid(ps)[i].rowNumber;
    var k :| 0 <= k < |ps| && ps[k] == x;
    PlacementsAt(seats, k);
  }

  // ------------------------------------------------------------------
  // The seat map: business section, then economy section
  // ------------------------------------------------------------------

  const Business := "business"
  const Economy := "economy"

  /** The seats of one class, in list order. */
  function OfClass(seats: seq<ClientSeat>, cls: string): (r: seq<ClientSeat>)
    ensures forall s :: s in r <==> s in seats && s.seatClass == cls
  {
    if seats == [] then []
    else (if seats[0].seatClass == cls then [seats[0]] else []) + OfClass(seats[1..], cls)
  }

  predicate HasClass(seats: seq<ClientSeat>, cls: string) {
    exists s :: s in seats && s.seatClass == cls
  }

  lemma {:induction false} OfClassEmpty(seats: seq<ClientSeat>, cls: string)
    ensures |OfClass(seats, cls)| > 0 <==> HasClass(seats, cls)
  {
    var r := OfClass(seats, cls);
    if HasClass(seats, cls) {
      var s :| s in seats && s.seatClass == cls;
      assert s in r;
    }
    if |r| > 0 {
      assert r[0] in r;
    }
  }

  /** A section of the seat map: a class and its seats, in list order. */
  datatype Section = Section(seatClass: string, seats: seq<ClientSeat>)

  /** A section per class that has seats, business first; seats of any
      other class are in no section. */
  function SeatSections(seats: seq<ClientSeat>): (sections: seq<Section>)
    ensures |sections| <= 2
    ensures forall k :: 0 <= k < |sections| ==> sections[k].seats == OfClass(seats, sections[k].seatClass)
  {
    var business := OfClass(seats, Business);
    var economy := OfClass(seats, Economy);
    (if |business| > 0 then [Section(Business, business)] else [])
      + (if |economy| > 0 then [Section(Economy, economy)] else [])
  }

  /** There is a business section exactly when some seat is business and an
      economy section exactly when some seat is economy, business first. */
  lemma {:induction false} SeatSectionsClasses(seats: seq<ClientSeat>)
    ensures |SeatSections(seats)| == (if HasClass(seats, Business) then 1 else 0) + (if HasClass(seats, Economy) then 1 else 0)
    ensures HasClass(seats, Business) ==> SeatSections(seats)[0].seatClass == Business
    ensures HasClass(seats, Economy) ==> SeatSections(seats)[|SeatSections(seats)| - 1].seatClass == Economy
    ensures forall k :: 0 <= k < |SeatSections(seats)| ==> SeatSections(seats)[k].seatClass in {Business, Economy}
  {
    OfClassEmpty(seats, Business);
    OfClassEmpty(seats, Economy);
  }

  /** A seat of either class is in the section of its class; a seat of any
      other class is in none. */
  lemma {:induction false} SeatSectionsPartition(seats: seq<ClientSeat>, s: ClientSeat)
    requires s in seats
    ensures s.seatClass in {Business, Economy} ==>
      exists k :: 0 <= k < |SeatSections(seats)| && SeatSections(seats)[k].seatClass == s.seatClass
                  && s in SeatSections(seats)[k].seats
    ensures forall k :: 0 <= k < |SeatSections(seats)| && s in SeatSections(seats)[k].seats
                        ==> SeatSections(seats)[k].seatClass == s.seatClass
  {
    OfClassEmpty(seats, Business);
    OfClassEmpty(seats, Economy);
    if s.seatClass == Business {
      assert s in SeatSections(seats)[0].seats;
    } else if s.seatClass == Economy {
      var last := |SeatSections(seats)| - 1;
      assert s in SeatSections(seats)[last].seats;
    }
  }

  /** A listed business or economy seat is shown as a button in its
      class's section, in the row its number names. */
  lemma {:induction false} SeatMapShowsSeat(seats: seq<ClientSeat>, s: ClientSeat)
    requires s in seats && s.seatClass in {Business, Economy}
    ensures exists j, i :: 0 <= j < |SeatSections(seats)| && SeatSections(seats)[j].seatClass == s.seatClass
                           && 0 <= i < |GridOf(SeatSections(seats)[j].seats)|
                           && GridOf(SeatSections(seats)[j].seats)[i].rowNumber == Place(s).row
                           && ButtonFor(Place(s)) in GridOf(SeatSections(seats)[j].seats)[i].cells
  {
    SeatSectionsPartition(seats, s);
    var j :| 0 <= j < |SeatSections(seats)| && SeatSections(seats)[j].seatClass == s.seatClass
             && s in SeatSections(seats)[j].seats;
    var sec := SeatSections(seats)[j].seats;
    var k :| 0 <= k < |sec| && sec[k] == s;
    SeatInGrid(sec, k);
  }

  /** Every button of a section is a listed seat of that section's class. */
  lemma {:induction false} SeatMapButtonIsSeat(seats: seq<ClientSeat>, j: int, i: int, c: Cell)
    requires 0 <= j < |SeatSections(seats)|
    requires 0 <= i < |GridOf(SeatSections(seats)[j].seats)|
    requires c in GridOf(SeatSections(seats)[j].seats)[i].cells && c.SeatButton?
    ensures exists s :: s in seats && s.seatClass == SeatSections(seats)[j].seatClass && c == ButtonFor(Place(s))
  {
    var sec := SeatSections(seats)[j].seats;
    GridButtonIsSeat(sec, i, c);
    var k :| 0 <= k < |sec| && c == ButtonFor(Place(sec[k])) && Place(sec[k]).row == GridOf(sec)[i].rowNumber;
    assert sec[k] in sec;
  }

  datatype SectionView = SectionView(seatClass: string, grid: seq<GridRow>)

  /** Builds the seat map: the grid of each section, business first. */
  method CreateSeatMap(seats: seq<ClientSeat>) returns (view: seq<SectionView>)
    ensures |view| == |SeatSections(seats)|
    ensures forall k :: 0 <= k < |view| ==>
      view[k] == SectionView(SeatSections(seats)[k].seatClass, GridOf(SeatSections(seats)[k].seats))
  {
    var sections := SeatSections(seats);
    view := [];
    for k := 0 to |sections|
      invariant |view| == k
      invariant forall j :: 0 <= j < k ==> view[j] == SectionView(sections[j].seatClass, GridOf(sections[j].seats))
    {
      var grid := CreateSeatGrid(sections[k].seats);
      view := view + [SectionView(sections[k].seatClass, grid)];
    }
  }
}
