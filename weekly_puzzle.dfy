/**
 * The weekly-puzzle addon's tile board: a 6 x 6 grid of tiles stored as six
 * rows of six columns, and the two integer indexers that pick a tile out of a
 * row (0..5) and out of the whole board (0..35).
 *
 * The indexers are reproduced as written, including the row switch that maps
 * both 3 and 4 to the fourth column, so the sixth column is never returned.
 */
module WeeklyPuzzle {
  import opened Wrappers

  // ---------------------------------------------------------------------------
  // C# integer division
  // ---------------------------------------------------------------------------

  /** C#'s `a / b` for a positive divisor: the quotient rounded toward zero. */
  function TruncDiv(a: int, b: int): (q: int)
    requires b > 0
    ensures a >= 0 ==> 0 <= a - b * q < b
    ensures a < 0 ==> -b < a - b * q <= 0
  {
    if a >= 0 then a / b else -((-a) / b)
  }

  /** C#'s `a % b` for a positive divisor: the remainder takes the sign of a. */
  function TruncRem(a: int, b: int): (r: int)
    requires b > 0
    ensures a >= 0 ==> 0 <= r < b
    ensures a < 0 ==> -b < r <= 0
  {
    a - b * TruncDiv(a, b)
  }

  // ---------------------------------------------------------------------------
  // Tiles, rows and the board
  // ---------------------------------------------------------------------------

  /**
   * One tile: the owning addon, the button and three resource nodes (pointers,
   * kept as plain addresses) and an unknown 64-bit field.
   */
  datatype GameTileItem = GameTileItem(self: nat, button: nat, unkRes10: nat, unkRes18: nat,
                                       unkRes20: nat, unk28: int)

  /** The six column fields of a row, in declaration order. */
  datatype Column = Col1 | Col2 | Col3 | Col4 | Col5 | Col6

  /** The position of a column field among the six, from 0. */
  function ColumnNumber(c: Column): (k: nat)
    ensures k < 6
  {
    match c
    case Col1 => 0
    case Col2 => 1
    case Col3 => 2
    case Col4 => 3
    case Col5 => 4
    case Col6 => 5
  }

  datatype GameTileRow = GameTileRow(col1: GameTileItem, col2: GameTileItem, col3: GameTileItem,
                                     col4: GameTileItem, col5: GameTileItem, col6: GameTileItem)

  /** Reading one column field of a row. */
  function Cell(row: GameTileRow, c: Column): GameTileItem
  {
    match c
    case Col1 => row.col1
    case Col2 => row.col2
    case Col3 => row.col3
    case Col4 => row.col4
    case Col5 => row.col5
    case Col6 => row.col6
  }

  datatype GameTileBoard = GameTileBoard(row1: GameTileRow, row2: GameTileRow, row3: GameTileRow,
                                         row4: GameTileRow, row5: GameTileRow, row6: GameTileRow)

  /** Reading one row field of the board, rows numbered from 0. */
  function Row(board: GameTileBoard, r: nat): GameTileRow
    requires r < 6
  {
    match r
    case 0 => board.row1
    case 1 => board.row2
    case 2 => board.row3
    case 3 => board.row4
    case 4 => board.row5
    case 5 => board.row6
  }

  /** Which of the two indexers threw. */
  datatype Indexer = RowIndexer | BoardIndexer

  /** The `ArgumentOutOfRangeException` an indexer throws for an index it rejects. */
  datatype IndexError = ArgumentOutOfRange(thrownBy: Indexer)

  // ---------------------------------------------------------------------------
  // The indexers
  // ---------------------------------------------------------------------------

  /**
   * The switch of the row indexer: the column an index selects. It accepts
   * exactly 0..5, and it never selects the sixth column.
   */
  function RowColumn(index: int): (r: Result<Column, IndexError>)
    ensures r.Success? <==> 0 <= index < 6
    ensures r.Failure? ==> r.error == ArgumentOutOfRange(RowIndexer)
    ensures r != Success(Col6)
  {
    match index
    case 0 => Success(Col1)
    case 1 => Success(Col2)
    case 2 => Success(Col3)
    case 3 => Success(Col4)
    case 4 => Success(Col4)
    case 5 => Success(Col5)
    case _ => Failure(ArgumentOutOfRange(RowIndexer))
  }

  /** `GameTileRow.this[int index]`. */
  function RowAt(row: GameTileRow, index: int): (r: Result<GameTileItem, IndexError>)
    ensures r.Success? <==> 0 <= index < 6
    ensures r.Failure? ==> r.error == ArgumentOutOfRange(RowIndexer)
  {
    match RowColumn(index)
    case Success(c) => Success(Cell(row, c))
    case Failure(e) => Failure(e)
  }

  /**
   * `GameTileBoard.this[int index]`: the row is `index / 6`, the position in
   * it `index % 6`, both with C#'s truncating division.
   */
  function BoardAt(board: GameTileBoard, index: int): (r: Result<GameTileItem, IndexError>)
    ensures r == Failure(ArgumentOutOfRange(BoardIndexer)) <==> index <= -6 || 36 <= index
  {
    match TruncDiv(index, 6)
    case 0 => RowAt(board.row1, TruncRem(index, 6))
    case 1 => RowAt(board.row2, TruncRem(index, 6))
    case 2 => RowAt(board.row3, TruncRem(index, 6))
    case 3 => RowAt(board.row4, TruncRem(index, 6))
    case 4 => RowAt(board.row5, TruncRem(index, 6))
    case 5 => RowAt(board.row6, TruncRem(index, 6))
    case _ => Failure(ArgumentOutOfRange(BoardIndexer))
  }

  // ---------------------------------------------------------------------------
  // Properties of the indexers
  // ---------------------------------------------------------------------------

  /** The row indexer, index by index: 3 and 4 both give the fourth column. */
  lemma RowAtValues(row: GameTileRow)
    ensures RowAt(row, 0) == Success(row.col1)
    ensures RowAt(row, 1) == Success(row.col2)
    ensures RowAt(row, 2) == Success(row.col3)
    ensures RowAt(row, 3) == Success(row.col4)
    ensures RowAt(row, 4) == Success(row.col4) == RowAt(row, 3)
    ensures RowAt(row, 5) == Success(row.col5)
  {
  }

  /** Every index outside 0..5, negative ones included, is rejected by the row indexer. */
  lemma RowAtRejects(row: GameTileRow, index: int)
    ensures RowAt(row, index).Failure? <==> !(0 <= index < 6)
    ensures RowAt(row, index).Failure? ==> RowAt(row, index).error == ArgumentOutOfRange(RowIndexer)
  {
  }

  /** For non-negative arguments C#'s division agrees with Dafny's. */
  lemma TruncDivOfNonNegative(a: int, b: int)
    requires a >= 0 && b > 0
    ensures TruncDiv(a, b) == a / b && TruncRem(a, b) == a % b
  {
  }

  /**
   * Inside 0..35 the board indexer reads row `index / 6` at position
   * `index % 6`; the column it ends up reading is never the sixth.
   */
  lemma BoardAtInRange(board: GameTileBoard, index: int)
    requires 0 <= index < 36
    ensures RowColumn(index % 6).Success? && RowColumn(index % 6).value != Col6
    ensures BoardAt(board, index) == RowAt(Row(board, index / 6), index % 6)
    ensures BoardAt(board, index) == Success(Cell(Row(board, index / 6), RowColumn(index % 6).value))
  {
    TruncDivOfNonNegative(index, 6);
  }

  /**
   * Every index outside 0..35 is rejected. Because the division truncates,
   * -5..-1 fall into row 0 with a negative position and are rejected by the
   * row indexer; the rest are rejected by the board's own switch.
   */
  lemma BoardAtRejects(board: GameTileBoard, index: int)
    ensures BoardAt(board, index).Failure? <==> !(0 <= index < 36)
    ensures -6 < index < 0 ==> BoardAt(board, index) == Failure(ArgumentOutOfRange(RowIndexer))
    ensures index <= -6 || 36 <= index ==> BoardAt(board, index) == Failure(ArgumentOutOfRange(BoardIndexer))
  {
    var q := TruncDiv(index, 6);
    if 0 <= index < 36 {
      BoardAtInRange(board, index);
    } else if -6 < index < 0 {
      assert q == 0 && TruncRem(index, 6) == index;
    } else if index <= -6 {
      assert q <= -1;
    } else {
      assert q >= 6;
    }
  }

  /**
   * Every tile outside the sixth column is returned by some index in 0..35
   * (the fifth column by the index of position 5).
   */
  lemma BoardAtReaches(board: GameTileBoard, r: nat, c: Column)
    requires r < 6 && c != Col6
    ensures exists index :: 0 <= index < 36 && BoardAt(board, index) == Success(Cell(Row(board, r), c))
  {
    var position := if c == Col5 then 5 else ColumnNumber(c);
    var index := 6 * r + position;
    assert index / 6 == r && index % 6 == position;
    BoardAtInRange(board, index);
  }

  /**
   * The row indexer as written never returns the sixth column: in a row whose
   * sixth tile differs from the other five, no index reads it.
   */
  lemma RowAtMissesCol6(row: GameTileRow, index: int)
    requires row.col6 != row.col1 && row.col6 != row.col2 && row.col6 != row.col3
    requires row.col6 != row.col4 && row.col6 != row.col5
    ensures RowAt(row, index) != Success(row.col6)
  {
    if 0 <= index < 6 {
      assert RowColumn(index).value != Col6;
    }
  }

  // ---------------------------------------------------------------------------
  // The indexers as evidently intended
  // ---------------------------------------------------------------------------

  /** The column at position k of a row, in declaration order. */
  function ColumnAt(k: nat): (c: Column)
    requires k < 6
    ensures ColumnNumber(c) == k
  {
    match k
    case 0 => Col1
    case 1 => Col2
    case 2 => Col3
    case 3 => Col4
    case 4 => Col5
    case 5 => Col6
  }

  /** The row switch with its fifth case corrected: index k selects the (k + 1)-th column. */
  function IntendedRowColumn(index: int): (r: Result<Column, IndexError>)
    ensures r.Success? <==> 0 <= index < 6
    ensures r.Success? ==> ColumnNumber(r.value) == index
    ensures r.Failure? ==> r.error == ArgumentOutOfRange(RowIndexer)
  {
    if 0 <= index < 6 then Success(ColumnAt(index)) else Failure(ArgumentOutOfRange(RowIndexer))
  }

  /** The row indexer over the corrected switch. */
  function IntendedRowAt(row: GameTileRow, index: int): (r: Result<GameTileItem, IndexError>)
    ensures r.Success? <==> 0 <= index < 6
    ensures r.Success? ==> r.value == Cell(row, ColumnAt(index))
    ensures r.Failure? ==> r.error == ArgumentOutOfRange(RowIndexer)
  {
    match IntendedRowColumn(index)
    case Success(c) => Success(Cell(row, c))
    case Failure(e) => Failure(e)
  }

  /** The board indexer over the corrected row indexer. */
  function IntendedBoardAt(board: GameTileBoard, index: int): (r: Result<GameTileItem, IndexError>)
    ensures r == Failure(ArgumentOutOfRange(BoardIndexer)) <==> index <= -6 || 36 <= index
  {
    match TruncDiv(index, 6)
    case 0 => IntendedRowAt(board.row1, TruncRem(index, 6))
    case 1 => IntendedRowAt(board.row2, TruncRem(index, 6))
    case 2 => IntendedRowAt(board.row3, TruncRem(index, 6))
    case 3 => IntendedRowAt(board.row4, TruncRem(index, 6))
    case 4 => IntendedRowAt(board.row5, TruncRem(index, 6))
    case 5 => IntendedRowAt(board.row6, TruncRem(index, 6))
    case _ => Failure(ArgumentOutOfRange(BoardIndexer))
  }

  /**
   * The corrected board indexer accepts exactly 0..35, and index i reads row
   * i / 6 at column i % 6; every tile, the sixth column included, is read by
   * exactly one index.
   */
  lemma IntendedBoardAtExact(board: GameTileBoard, index: int)
    ensures IntendedBoardAt(board, index).Success? <==> 0 <= index < 36
    ensures 0 <= index < 36 ==> IntendedBoardAt(board, index) == Success(Cell(Row(board, index / 6), ColumnAt(index % 6)))
  {
    var q := TruncDiv(index, 6);
    if 0 <= index < 36 {
      TruncDivOfNonNegative(index, 6);
    } else if -6 < index < 0 {
      assert q == 0 && TruncRem(index, 6) == index;
    } else if index <= -6 {
      assert q <= -1;
    } else {
      assert q >= 6;
    }
  }

  /** Under the corrected indexer, tile (r, c) is read by index 6 * r + c and by no other index. */
  lemma IntendedBoardAtOneToOne(board: GameTileBoard, r: nat, c: Column, index: int)
    requires r < 6
    ensures IntendedBoardAt(board, 6 * r + ColumnNumber(c)) == Success(Cell(Row(board, r), c))
    ensures 0 <= index < 36 && index / 6 == r && ColumnAt(index % 6) == c ==> index == 6 * r + ColumnNumber(c)
  {
    var i := 6 * r + ColumnNumber(c);
    assert i / 6 == r && i % 6 == ColumnNumber(c);
    IntendedBoardAtExact(board, i);
    if 0 <= index < 36 && index / 6 == r && ColumnAt(index % 6) == c {
      assert index == 6 * (index / 6) + index % 6;
    }
  }

  /**
   * On a board whose 36 tiles are pairwise distinct, the corrected indexer
   * returns the same tile for two indices in 0..35 only when they are equal.
   */
  lemma IntendedBoardAtInjective(board: GameTileBoard, i: int, j: int)
    requires forall r1: nat, c1: Column, r2: nat, c2: Column | r1 < 6 && r2 < 6 && (r1, c1) != (r2, c2) ::
      Cell(Row(board, r1), c1) != Cell(Row(board, r2), c2)
    requires 0 <= i < 36 && 0 <= j < 36
    requires IntendedBoardAt(board, i) == IntendedBoardAt(board, j)
    ensures i == j
  {
    IntendedBoardAtExact(board, i);
    IntendedBoardAtExact(board, j);
    var ri, ci, rj, cj := i / 6, ColumnAt(i % 6), j / 6, ColumnAt(j % 6);
    assert Cell(Row(board, ri), ci) == Cell(Row(board, rj), cj);
    assert ri == rj && ci == cj;
    assert i % 6 == ColumnNumber(ci) == ColumnNumber(cj) == j % 6;
    assert i == 6 * ri + i % 6 && j == 6 * rj + j % 6;
  }
}
