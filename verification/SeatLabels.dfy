/**
 * Labels of a drawn hall: a letter per occupied grid row, and seat numbers that
 * run from left to right within a row, across zones and aisles.
 */
module SeatLabels {
  import opened Common
  import opened RowLabel

  datatype Cell = Cell(zone: nat, r: nat, c: nat)

  /** The number is kept as a natural; the source stores its decimal digits. */
  datatype Labelled = Labelled(cell: Cell, row: string, number: nat)

  // ------------------------------------------------------------- row letters

  function InsertRow(rows: seq<nat>, r: nat): seq<nat> {
    if rows == [] then [r]
    else
      var last := |rows| - 1;
      if rows[last] < r then rows + [r]
      else if rows[last] == r then rows
      else InsertRow(rows[..last], r) + [rows[last]]
  }

  /** The occupied grid rows, in order, each once. */
  function SortedRows(cells: seq<Cell>): seq<nat> {
    if cells == [] then [] else InsertRow(SortedRows(cells[..|cells| - 1]), cells[|cells| - 1].r)
  }

  predicate Increasing(rows: seq<nat>) {
    forall i, j :: 0 <= i < j < |rows| ==> rows[i] < rows[j]
  }

  predicate Occupied(cells: seq<Cell>, r: nat) {
    exists k :: 0 <= k < |cells| && cells[k].r == r
  }

  lemma {:induction false} InsertRowMembers(rows: seq<nat>, r: nat)
    ensures forall x :: x in InsertRow(rows, r) <==> x in rows || x == r
  {
    if rows != [] {
      var last := |rows| - 1;
      InsertRowMembers(rows[..last], r);
      assert rows == rows[..last] + [rows[last]];
    }
  }

  lemma {:induction false} InsertRowKeepsOrder(rows: seq<nat>, r: nat)
    requires Increasing(rows)
    ensures Increasing(InsertRow(rows, r))
  {
    if rows != [] {
      var last := |rows| - 1;
      var inserted := InsertRow(rows[..last], r);
      InsertRowKeepsOrder(rows[..last], r);
      InsertRowMembers(rows[..last], r);
      if rows[last] > r {
        assert InsertRow(rows, r) == inserted + [rows[last]];
        hide InsertRow;
        forall k | 0 <= k < |inserted|
          ensures inserted[k] < rows[last]
        {
          assert inserted[k] in inserted;
        }
      }
    }
  }

  lemma {:induction false} SortedRowsAreTheRows(cells: seq<Cell>)
    ensures Increasing(SortedRows(cells))
    ensures forall r: nat :: r in SortedRows(cells) <==> Occupied(cells, r)
  {
    if cells != [] {
      var last := |cells| - 1;
      SortedRowsAreTheRows(cells[..last]);
      InsertRowKeepsOrder(SortedRows(cells[..last]), cells[last].r);
      InsertRowMembers(SortedRows(cells[..last]), cells[last].r);
      forall r: nat
        ensures Occupied(cells, r) <==> Occupied(cells[..last], r) || cells[last].r == r
      {
        if k :| 0 <= k < last && cells[k].r == r {
          assert cells[..last][k].r == r;
        }
      }
    }
  }

  function PositionOf(rows: seq<nat>, r: nat): nat
    requires r in rows
  {
    if rows[|rows| - 1] == r then |rows| - 1 else PositionOf(rows[..|rows| - 1], r)
  }

  lemma {:induction false} PositionFinds(rows: seq<nat>, i: nat)
    requires Increasing(rows) && i < |rows|
    ensures PositionOf(rows, rows[i]) == i
  {
    if i < |rows| - 1 {
      PositionFinds(rows[..|rows| - 1], i);
    }
  }

  /** An override by grid row, or the automatic letter of the row's place among the occupied ones. */
  function LetterAt(rows: seq<nat>, overrides: seq<string>, i: nat): string
    requires i < |rows|
  {
    if rows[i] < |overrides| then overrides[rows[i]] else LabelOf(i)
  }

  function LetterOf(rows: seq<nat>, overrides: seq<string>, r: nat): string
    requires r in rows
  {
    if r < |overrides| then overrides[r] else LabelOf(PositionOf(rows, r))
  }

  ghost predicate LettersClash(cells: seq<Cell>, overrides: seq<string>) {
    var rows := SortedRows(cells);
    exists a, b :: a in rows && b in rows && a != b && LetterOf(rows, overrides, a) == LetterOf(rows, overrides, b)
  }

  // ------------------------------------------------------------ seat numbers

  function InsertByColumn(row: seq<Cell>, cell: Cell): seq<Cell> {
    if row == [] || row[|row| - 1].c <= cell.c then row + [cell]
    else InsertByColumn(row[..|row| - 1], cell) + [row[|row| - 1]]
  }

  /** Stable sort by column. */
  function SortByColumn(row: seq<Cell>): seq<Cell> {
    if row == [] then [] else InsertByColumn(SortByColumn(row[..|row| - 1]), row[|row| - 1])
  }

  function RowCells(cells: seq<Cell>, r: nat): seq<Cell> {
    if cells == [] then []
    else
      var last := cells[|cells| - 1];
      RowCells(cells[..|cells| - 1], r) + if last.r == r then [last] else []
  }

  /** Rows in the order their first cell was drawn. */
  function FirstSeen(cells: seq<Cell>): seq<nat> {
    if cells == [] then []
    else
      var rows := FirstSeen(cells[..|cells| - 1]);
      var r := cells[|cells| - 1].r;
      if r in rows then rows else rows + [r]
  }

  function Numbered(row: seq<Cell>, letter: string): (seats: seq<Labelled>)
    ensures |seats| == |row|
    ensures forall i :: 0 <= i < |row| ==> seats[i] == Labelled(row[i], letter, i + 1)
  {
    seq(|row|, i requires 0 <= i < |row| => Labelled(row[i], letter, i + 1))
  }

  function LabelRows(cells: seq<Cell>, overrides: seq<string>, order: seq<nat>): seq<Labelled>
    requires forall r :: r in order ==> r in SortedRows(cells)
  {
    if order == [] then []
    else
      var r := order[|order| - 1];
      LabelRows(cells, overrides, order[..|order| - 1])
      + Numbered(SortByColumn(RowCells(cells, r)), LetterOf(SortedRows(cells), overrides, r))
  }

  // -------------------------------------------------------------- the method

  lemma {:induction false} SeenRowsAreTheRows(cells: seq<Cell>)
    ensures forall r: nat :: r in FirstSeen(cells) <==> Occupied(cells, r)
    ensures forall i, j :: 0 <= i < j < |FirstSeen(cells)| ==> FirstSeen(cells)[i] != FirstSeen(cells)[j]
  {
    if cells != [] {
      var last := |cells| - 1;
      SeenRowsAreTheRows(cells[..last]);
      forall r: nat
        ensures Occupied(cells, r) <==> Occupied(cells[..last], r) || cells[last].r == r
      {
        if k :| 0 <= k < last && cells[k].r == r {
          assert cells[..last][k].r == r;
        }
      }
    }
  }

  function Values(labels: seq<string>): set<string> {
    set s | s in labels
  }

  lemma {:induction false} AsManyValuesIffDistinct(labels: seq<string>)
    ensures |Values(labels)| <= |labels|
    ensures |Values(labels)| == |labels| <==> forall i, j :: 0 <= i < j < |labels| ==> labels[i] != labels[j]
  {
    if labels != [] {
      var last := |labels| - 1;
      AsManyValuesIffDistinct(labels[..last]);
      assert labels == labels[..last] + [labels[last]];
      assert Values(labels) == Values(labels[..last]) + {labels[last]};
      if labels[last] in labels[..last] {
        assert Values(labels) == Values(labels[..last]);
      }
    }
  }

  /** Two occupied rows share a label exactly when the list of labels repeats one. */
  lemma ClashIffRepeated(cells: seq<Cell>, overrides: seq<string>, labels: seq<string>)
    requires var rows := SortedRows(cells);
             |labels| == |rows| && forall i :: 0 <= i < |rows| ==> labels[i] == LetterAt(rows, overrides, i)
    ensures LettersClash(cells, overrides) <==> exists i, j :: 0 <= i < j < |labels| && labels[i] == labels[j]
  {
    var rows := SortedRows(cells);
    SortedRowsAreTheRows(cells);
    forall i: nat | i < |rows|
      ensures LetterOf(rows, overrides, rows[i]) == labels[i]
    {
      PositionFinds(rows, i);
    }
    if LettersClash(cells, overrides) {
      var a, b :| a in rows && b in rows && a != b && LetterOf(rows, overrides, a) == LetterOf(rows, overrides, b);
      var i: nat :| i < |rows| && rows[i] == a;
      var j: nat :| j < |rows| && rows[j] == b;
      assert labels[i] == labels[j];
      assert i < j || j < i;
    }
    if i, j :| 0 <= i < j < |labels| && labels[i] == labels[j] {
      assert rows[i] in rows && rows[j] in rows && rows[i] != rows[j];
      assert LetterOf(rows, overrides, rows[i]) == LetterOf(rows, overrides, rows[j]);
    }
  }

  /** Each occupied row with its letter; None if two rows would share one. */
  method Letters(cells: seq<Cell>, overrides: seq<string>) returns (letters: Option<map<nat, string>>)
    ensures letters.None? <==> LettersClash(cells, overrides)
    ensures letters.Some? ==> forall r :: r in SortedRows(cells) ==>
              r in letters.value && letters.value[r] == LetterOf(SortedRows(cells), overrides, r)
  {
    var rows := SortedRows(cells);
    SortedRowsAreTheRows(cells);
    hide SortedRows;
    hide Occupied;
    var table: map<nat, string> := map[];
    var labels: seq<string> := [];
    for i := 0 to |rows|
      invariant |labels| == i && forall k :: 0 <= k < i ==> labels[k] == LetterAt(rows, overrides, k)
      invariant forall k :: 0 <= k < i ==> rows[k] in table && table[rows[k]] == LetterAt(rows, overrides, k)
    {
      var letter := if rows[i] < |overrides| then overrides[rows[i]] else LabelOf(i);
      labels := labels + [letter];
      table := table[rows[i] := letter];
    }
    AsManyValuesIffDistinct(labels);
    ClashIffRepeated(cells, overrides, labels);
    if |Values(labels)| != |rows| {
      return None;
    }
    forall r | r in rows
      ensures r in table && table[r] == LetterOf(rows, overrides, r)
    {
      var i: nat :| i < |rows| && rows[i] == r;
      PositionFinds(rows, i);
    }
    return Some(table);
  }

  lemma SeenRowsAreSorted(cells: seq<Cell>)
    ensures forall r: nat :: r in FirstSeen(cells) <==> r in SortedRows(cells)
  {
    SortedRowsAreTheRows(cells);
    SeenRowsAreTheRows(cells);
  }

  method LabelCanvasSeats(cells: seq<Cell>, overrides: seq<string>) returns (seats: Result<seq<Labelled>>)
    ensures seats.Err? <==> LettersClash(cells, overrides)
    ensures seats.Err? <==>
              exists a: nat, b: nat :: Occupied(cells, a) && Occupied(cells, b) && a != b
                                       && RowLetter(cells, overrides, a) == RowLetter(cells, overrides, b)
    ensures seats.Ok? ==> forall i :: 0 <= i < |seats.value| ==> seats.value[i].row == RowLetter(cells, overrides, seats.value[i].cell.r)
    ensures seats.Ok? ==>
              (forall r :: r in FirstSeen(cells) ==> r in SortedRows(cells))
              && seats.value == LabelRows(cells, overrides, FirstSeen(cells))
  {
    SeenRowsAreSorted(cells);
    SeatsCarryTheirRowsLetter(cells, overrides);
    hide RowLetter;
    hide Occupied;
    hide SortedRows;
    hide FirstSeen;
    hide LettersClash;
    hide LetterOf;
    hide RowCells;
    hide SortByColumn;
    var letters := Letters(cells, overrides);
    if letters.None? {
      return Err(BadRequest);
    }
    var byRow, order := GroupByRow(cells);
    var out := [];
    for n := 0 to |order|
      invariant out == LabelRows(cells, overrides, order[..n])
    {
      assert order[..n + 1][..n] == order[..n];
      out := out + Numbered(SortByColumn(byRow[order[n]]), letters.value[order[n]]);
    }
    assert order[..|order|] == order;
    return Ok(out);
  }

  method GroupByRow(cells: seq<Cell>) returns (byRow: map<nat, seq<Cell>>, order: seq<nat>)
    ensures order == FirstSeen(cells)
    ensures forall r :: r in order ==> r in byRow && byRow[r] == RowCells(cells, r)
  {
    byRow, order := map[], [];
    for n := 0 to |cells|
      invariant order == FirstSeen(cells[..n])
      invariant forall r :: r in order <==> r in byRow
      invariant forall r: nat :: RowCells(cells[..n], r) == if r in byRow then byRow[r] else []
    {
      assert cells[..n + 1][..n] == cells[..n];
      var r := cells[n].r;
      if r !in byRow {
        byRow, order := byRow[r := []], order + [r];
      }
      byRow := byRow[r := byRow[r] + [cells[n]]];
    }
    assert cells[..|cells|] == cells;
  }

  // ---------------------------------------------------------------- promises

  predicate DistinctCells(cells: seq<Cell>) {
    forall i, j :: 0 <= i < j < |cells| ==> cells[i].r != cells[j].r || cells[i].c != cells[j].c
  }

  predicate LeftToRight(row: seq<Cell>) {
    forall i, j :: 0 <= i < j < |row| ==> row[i].c < row[j].c
  }

  lemma {:induction false} InsertPermutes(row: seq<Cell>, cell: Cell)
    ensures multiset(InsertByColumn(row, cell)) == multiset(row) + multiset{cell}
  {
    if row != [] && row[|row| - 1].c > cell.c {
      InsertPermutes(row[..|row| - 1], cell);
      assert row == row[..|row| - 1] + [row[|row| - 1]];
    }
  }

  lemma {:induction false} SortPermutes(row: seq<Cell>)
    ensures multiset(SortByColumn(row)) == multiset(row)
  {
    if row != [] {
      SortPermutes(row[..|row| - 1]);
      InsertPermutes(SortByColumn(row[..|row| - 1]), row[|row| - 1]);
      hide InsertByColumn;
      assert row == row[..|row| - 1] + [row[|row| - 1]];
    }
  }

  lemma {:induction false} InsertKeepsLeftToRight(row: seq<Cell>, cell: Cell)
    requires LeftToRight(row) && forall k :: 0 <= k < |row| ==> row[k].c != cell.c
    ensures LeftToRight(InsertByColumn(row, cell))
  {
    if row != [] && row[|row| - 1].c > cell.c {
      var front := row[..|row| - 1];
      InsertKeepsLeftToRight(front, cell);
      InsertPermutes(front, cell);
      var inserted := InsertByColumn(front, cell);
      forall k | 0 <= k < |inserted|
        ensures inserted[k].c < row[|row| - 1].c
      {
        assert inserted[k] in multiset(inserted);
        assert inserted[k] in front || inserted[k] == cell;
      }
    }
  }

  lemma {:induction false} SortGoesLeftToRight(row: seq<Cell>)
    requires forall i, j :: 0 <= i < j < |row| ==> row[i].c != row[j].c
    ensures LeftToRight(SortByColumn(row))
  {
    if row != [] {
      var last := |row| - 1;
      var sorted := SortByColumn(row[..last]);
      SortGoesLeftToRight(row[..last]);
      SortPermutes(row[..last]);
      forall k | 0 <= k < |sorted|
        ensures sorted[k].c != row[last].c
      {
        assert sorted[k] in multiset(sorted);
        assert sorted[k] in row[..last];
      }
      InsertKeepsLeftToRight(sorted, row[last]);
    }
  }

  lemma {:induction false} RowCellsAreTheRow(cells: seq<Cell>, r: nat)
    ensures forall x :: multiset(RowCells(cells, r))[x] == if x.r == r then multiset(cells)[x] else 0
    ensures DistinctCells(cells) ==>
              forall i, j :: 0 <= i < j < |RowCells(cells, r)| ==> RowCells(cells, r)[i].c != RowCells(cells, r)[j].c
  {
    if cells != [] {
      var last := |cells| - 1;
      var front := RowCells(cells[..last], r);
      RowCellsAreTheRow(cells[..last], r);
      assert cells == cells[..last] + [cells[last]];
      if DistinctCells(cells) && cells[last].r == r {
        forall k | 0 <= k < |front|
          ensures front[k].c != cells[last].c
        {
          assert front[k] in multiset(front);
          assert front[k] in multiset(cells[..last]) && front[k].r == r;
          assert front[k] in cells[..last];
        }
      }
    }
  }

  function CellsOf(seats: seq<Labelled>): seq<Cell> {
    if seats == [] then [] else CellsOf(seats[..|seats| - 1]) + [seats[|seats| - 1].cell]
  }

  lemma {:induction false} CellsOfConcat(a: seq<Labelled>, b: seq<Labelled>)
    ensures CellsOf(a + b) == CellsOf(a) + CellsOf(b)
  {
    if b == [] {
      assert a + b == a;
    } else {
      assert (a + b)[..|a + b| - 1] == a + b[..|b| - 1];
      CellsOfConcat(a, b[..|b| - 1]);
    }
  }

  lemma {:induction false} CellsOfNumbered(seats: seq<Labelled>, row: seq<Cell>)
    requires |seats| == |row| && forall i :: 0 <= i < |row| ==> seats[i].cell == row[i]
    ensures CellsOf(seats) == row
  {
    if row != [] {
      CellsOfNumbered(seats[..|row| - 1], row[..|row| - 1]);
    }
  }

  /** The seats of one grid row, in the order they come out. */
  function SeatsOf(seats: seq<Labelled>, r: nat): seq<Labelled> {
    if seats == [] then []
    else
      var last := seats[|seats| - 1];
      SeatsOf(seats[..|seats| - 1], r) + if last.cell.r == r then [last] else []
  }

  lemma {:induction false} SeatsOfConcat(a: seq<Labelled>, b: seq<Labelled>, r: nat)
    ensures SeatsOf(a + b, r) == SeatsOf(a, r) + SeatsOf(b, r)
  {
    if b == [] {
      assert a + b == a;
    } else {
      assert (a + b)[..|a + b| - 1] == a + b[..|b| - 1];
      SeatsOfConcat(a, b[..|b| - 1], r);
    }
  }

  lemma {:induction false} SeatsOfOneRow(seats: seq<Labelled>, own: nat, r: nat)
    requires forall k :: 0 <= k < |seats| ==> seats[k].cell.r == own
    ensures SeatsOf(seats, r) == if own == r then seats else []
  {
    if seats != [] {
      SeatsOfOneRow(seats[..|seats| - 1], own, r);
    }
  }

  function RowBlock(cells: seq<Cell>, overrides: seq<string>, r: nat): seq<Labelled>
    requires r in SortedRows(cells)
  {
    Numbered(SortByColumn(RowCells(cells, r)), LetterOf(SortedRows(cells), overrides, r))
  }

  lemma BlockIsOneRow(cells: seq<Cell>, overrides: seq<string>, r: nat)
    requires r in SortedRows(cells)
    ensures forall k :: 0 <= k < |RowBlock(cells, overrides, r)| ==>
              RowBlock(cells, overrides, r)[k].cell.r == r
              && RowBlock(cells, overrides, r)[k].row == LetterOf(SortedRows(cells), overrides, r)
  {
    var row := SortByColumn(RowCells(cells, r));
    SortPermutes(RowCells(cells, r));
    RowCellsAreTheRow(cells, r);
    forall k | 0 <= k < |row|
      ensures row[k].r == r
    {
      assert row[k] in multiset(row);
    }
  }

  lemma OneMoreBlock(cells: seq<Cell>, overrides: seq<string>, order: seq<nat>)
    requires order != [] && forall x :: x in order ==> x in SortedRows(cells)
    ensures LabelRows(cells, overrides, order)
            == LabelRows(cells, overrides, order[..|order| - 1]) + RowBlock(cells, overrides, order[|order| - 1])
    ensures order == order[..|order| - 1] + [order[|order| - 1]]
  {
  }

  /** Each occupied row comes out as one block: its cells left to right, numbered 1, 2, 3 and so on. */
  lemma {:induction false} EachRowIsNumberedInOrder(cells: seq<Cell>, overrides: seq<string>, order: seq<nat>, r: nat)
    requires (forall x :: x in order ==> x in SortedRows(cells)) && r in SortedRows(cells)
    requires forall i, j :: 0 <= i < j < |order| ==> order[i] != order[j]
    ensures SeatsOf(LabelRows(cells, overrides, order), r) == if r in order then RowBlock(cells, overrides, r) else []
  {
    hide SortedRows;
    hide RowBlock;
    if order == [] {
    } else {
      var last := |order| - 1;
      OneMoreBlock(cells, overrides, order);
      hide LabelRows;
      EachRowIsNumberedInOrder(cells, overrides, order[..last], r);
      SeatsOfConcat(LabelRows(cells, overrides, order[..last]), RowBlock(cells, overrides, order[last]), r);
      BlockIsOneRow(cells, overrides, order[last]);
      SeatsOfOneRow(RowBlock(cells, overrides, order[last]), order[last], r);
      hide SeatsOf;
    }
  }

  lemma BlockHoldsItsCells(cells: seq<Cell>, overrides: seq<string>, r: nat, x: Cell)
    requires r in SortedRows(cells)
    ensures multiset(CellsOf(RowBlock(cells, overrides, r)))[x] == if x.r == r then multiset(cells)[x] else 0
  {
    CellsOfNumbered(RowBlock(cells, overrides, r), SortByColumn(RowCells(cells, r)));
    SortPermutes(RowCells(cells, r));
    RowCellsAreTheRow(cells, r);
  }

  lemma {:induction false} BlocksHoldTheirCells(cells: seq<Cell>, overrides: seq<string>, order: seq<nat>, x: Cell)
    requires forall r :: r in order ==> r in SortedRows(cells)
    requires forall i, j :: 0 <= i < j < |order| ==> order[i] != order[j]
    ensures multiset(CellsOf(LabelRows(cells, overrides, order)))[x] == if x.r in order then multiset(cells)[x] else 0
  {
    hide SortedRows;
    hide RowBlock;
    if order == [] {
    } else {
      var last := |order| - 1;
      OneMoreBlock(cells, overrides, order);
      hide LabelRows;
      BlocksHoldTheirCells(cells, overrides, order[..last], x);
      CellsOfConcat(LabelRows(cells, overrides, order[..last]), RowBlock(cells, overrides, order[last]));
      BlockHoldsItsCells(cells, overrides, order[last], x);
      hide CellsOf;
    }
  }

  /** Nobody's seat is lost or invented: the labelled cells are a permutation of the input. */
  lemma LabellingPermutes(cells: seq<Cell>, overrides: seq<string>)
    requires forall r :: r in FirstSeen(cells) ==> r in SortedRows(cells)
    ensures multiset(CellsOf(LabelRows(cells, overrides, FirstSeen(cells)))) == multiset(cells)
  {
    SeenRowsAreTheRows(cells);
    hide SortedRows;
    hide FirstSeen;
    forall x: Cell
      ensures multiset(CellsOf(LabelRows(cells, overrides, FirstSeen(cells))))[x] == multiset(cells)[x]
    {
      BlocksHoldTheirCells(cells, overrides, FirstSeen(cells), x);
      if x in multiset(cells) {
        var k :| 0 <= k < |cells| && cells[k] == x;
        assert Occupied(cells, x.r);
      }
    }
  }

  /** In every occupied grid row the numbers are exactly 1..n from left to right, n the row's cells. */
  lemma RowsRunFromOneToN(cells: seq<Cell>, overrides: seq<string>, r: nat)
    requires DistinctCells(cells) && Occupied(cells, r)
    requires forall x :: x in FirstSeen(cells) ==> x in SortedRows(cells)
    ensures var seats := SeatsOf(LabelRows(cells, overrides, FirstSeen(cells)), r);
            && |seats| == |RowCells(cells, r)|
            && (forall i :: 0 <= i < |seats| ==> seats[i].number == i + 1)
            && (forall i, j :: 0 <= i < j < |seats| ==> seats[i].cell.c < seats[j].cell.c)
  {
    SeenRowsAreTheRows(cells);
    EachRowIsNumberedInOrder(cells, overrides, FirstSeen(cells), r);
    RowCellsAreTheRow(cells, r);
    SortPermutes(RowCells(cells, r));
    SortGoesLeftToRight(RowCells(cells, r));
    assert |multiset(SortByColumn(RowCells(cells, r)))| == |multiset(RowCells(cells, r))|;
    hide LabelRows;
    hide FirstSeen;
    hide SortedRows;
    hide SeatsOf;
  }

  lemma {:induction false} BlocksDoNotCollide(cells: seq<Cell>, overrides: seq<string>, order: seq<nat>)
    requires !LettersClash(cells, overrides)
    requires forall r :: r in order ==> r in SortedRows(cells)
    requires forall i, j :: 0 <= i < j < |order| ==> order[i] != order[j]
    ensures var seats := LabelRows(cells, overrides, order);
            && (forall i :: 0 <= i < |seats| ==>
                  seats[i].cell.r in order && seats[i].row == LetterOf(SortedRows(cells), overrides, seats[i].cell.r))
            && (forall i, j :: 0 <= i < j < |seats| ==> seats[i].row != seats[j].row || seats[i].number != seats[j].number)
  {
    hide SortedRows;
    hide LetterOf;
    if order != [] {
      var last := |order| - 1;
      BlocksDoNotCollide(cells, overrides, order[..last]);
      BlockIsOneRow(cells, overrides, order[last]);
      assert order == order[..last] + [order[last]];
      assert LabelRows(cells, overrides, order) == LabelRows(cells, overrides, order[..last]) + RowBlock(cells, overrides, order[last]);
    }
  }

  /** No two seats share a row label and a number whenever the map is accepted, with overrides or without. */
  lemma NoTwoSeatsShareALabel(cells: seq<Cell>, overrides: seq<string>)
    requires !LettersClash(cells, overrides)
    requires forall x :: x in FirstSeen(cells) ==> x in SortedRows(cells)
    ensures var seats := LabelRows(cells, overrides, FirstSeen(cells));
            forall i, j :: 0 <= i < j < |seats| ==> seats[i].row != seats[j].row || seats[i].number != seats[j].number
  {
    SeenRowsAreTheRows(cells);
    BlocksDoNotCollide(cells, overrides, FirstSeen(cells));
  }

  /** Automatic letters never clash: without overrides no map is refused, and rows are lettered in order. */
  lemma AutomaticLettersNeverClash(cells: seq<Cell>)
    ensures !LettersClash(cells, [])
    ensures var rows := SortedRows(cells);
            forall a, b :: a in rows && b in rows && a < b ==> Before(LetterOf(rows, [], a), LetterOf(rows, [], b))
  {
    var rows := SortedRows(cells);
    SortedRowsAreTheRows(cells);
    forall a, b | a in rows && b in rows && a < b
      ensures Before(LetterOf(rows, [], a), LetterOf(rows, [], b))
      ensures LetterOf(rows, [], a) != LetterOf(rows, [], b)
    {
      var i: nat :| i < |rows| && rows[i] == a;
      var j: nat :| j < |rows| && rows[j] == b;
      PositionFinds(rows, i);
      PositionFinds(rows, j);
      LabelsAreOrdered(i, j);
      if LabelOf(i) == LabelOf(j) {
        LabelsAreDistinct(i, j);
      }
    }
  }

  /** The occupied rows nearer the stage. */
  ghost function RowsBelow(cells: seq<Cell>, r: nat): set<nat> {
    set x: nat | x < r && Occupied(cells, x)
  }

  /** The override of the row, or the letter that its place among the occupied rows gives it. */
  ghost function RowLetter(cells: seq<Cell>, overrides: seq<string>, r: nat): string {
    if r < |overrides| then overrides[r] else LabelOf(|RowsBelow(cells, r)|)
  }

  ghost function RowSet(rows: seq<nat>): set<nat> {
    set r | r in rows
  }

  lemma {:induction false} IncreasingCount(rows: seq<nat>)
    requires Increasing(rows)
    ensures |RowSet(rows)| == |rows|
  {
    if rows != [] {
      var last := |rows| - 1;
      var front := rows[..last];
      IncreasingCount(front);
      forall r
        ensures r in RowSet(rows) <==> r in RowSet(front) || r == rows[last]
      {
        if r in rows {
          var k: nat :| k < |rows| && rows[k] == r;
          assert k < last ==> front[k] == r;
        }
      }
      assert RowSet(rows) == RowSet(front) + {rows[last]};
      assert rows[last] !in RowSet(front);
    }
  }

  lemma LetterIsRowLetter(cells: seq<Cell>, overrides: seq<string>, r: nat)
    requires r in SortedRows(cells)
    ensures LetterOf(SortedRows(cells), overrides, r) == RowLetter(cells, overrides, r)
  {
    var rows := SortedRows(cells);
    SortedRowsAreTheRows(cells);
    hide SortedRows;
    var i: nat :| i < |rows| && rows[i] == r;
    PositionFinds(rows, i);
    IncreasingCount(rows[..i]);
    RowsBelowAreBefore(cells, rows, i);
    hide RowsBelow;
    hide RowSet;
    hide Occupied;
    hide Increasing;
  }

  lemma RowsBelowAreBefore(cells: seq<Cell>, rows: seq<nat>, i: nat)
    requires Increasing(rows) && i < |rows| && forall x: nat :: x in rows <==> Occupied(cells, x)
    ensures RowsBelow(cells, rows[i]) == RowSet(rows[..i])
  {
    hide Occupied;
    forall x: nat
      ensures x in rows && x < rows[i] <==> x in rows[..i]
    {
      if x in rows && x < rows[i] {
        var j: nat :| j < |rows| && rows[j] == x;
        assert j < i && rows[..i][j] == x;
      }
    }
  }

  /** A map is refused exactly when two occupied rows have one letter, and each seat carries the letter of its row. */
  lemma SeatsCarryTheirRowsLetter(cells: seq<Cell>, overrides: seq<string>)
    ensures LettersClash(cells, overrides) <==>
              exists a: nat, b: nat :: Occupied(cells, a) && Occupied(cells, b) && a != b
                                       && RowLetter(cells, overrides, a) == RowLetter(cells, overrides, b)
    ensures forall r :: r in FirstSeen(cells) ==> r in SortedRows(cells)
    ensures var seats := LabelRows(cells, overrides, FirstSeen(cells));
            !LettersClash(cells, overrides) ==> forall i :: 0 <= i < |seats| ==> seats[i].row == RowLetter(cells, overrides, seats[i].cell.r)
  {
    SeenRowsAreSorted(cells);
    SortedRowsAreTheRows(cells);
    SeenRowsAreTheRows(cells);
    var rows := SortedRows(cells);
    forall r | r in rows
      ensures LetterOf(rows, overrides, r) == RowLetter(cells, overrides, r)
    {
      LetterIsRowLetter(cells, overrides, r);
    }
    hide SortedRows;
    hide LetterOf;
    hide RowLetter;
    hide Occupied;
    hide LabelRows;
    hide FirstSeen;
    if !LettersClash(cells, overrides) {
      BlocksDoNotCollide(cells, overrides, FirstSeen(cells));
    }
  }
}
