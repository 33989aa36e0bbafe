/**
 * The explicit memory layout of the weekly-puzzle addon and its three nested
 * structs: each struct's declared size and its fields' declared offsets, as
 * constant tables, with the lemmas that show the tables are consistent (the
 * nested structs are exactly tiled by equal slots, the addon's fields do not
 * overlap where their sizes are known) and the byte offset of the tile each
 * board index selects.
 *
 * Sizes of `AtkUnitBase` and `FFXIVString` are not part of this model, so the
 * fields of those types carry no size and no claim depends on one.
 */
module WeeklyPuzzleLayout {
  import opened Wrappers
  import WeeklyPuzzle

  /** The size of a pointer field and of a `long` field on the 64-bit target. */
  const PointerSize: nat := 8

  /** A field: its name, its `FieldOffset`, and its size when the model knows it. */
  datatype Field = Field(name: string, offset: nat, size: Option<nat>)

  // ---------------------------------------------------------------------------
  // The tables
  // ---------------------------------------------------------------------------

  const RewardPanelItemSize: nat := 0x28
  const GameTileItemSize: nat := 0x30
  const GameTileRowSize: nat := 0x120
  const GameTileBoardSize: nat := 0x6C0
  const AddonWeeklyPuzzleSize: nat := 0xD00

  const RewardPanelItemFields: seq<Field> := [
    Field("CompBase", 0x0, Some(PointerSize)),
    Field("Res", 0x8, Some(PointerSize)),
    Field("NameText", 0x10, Some(PointerSize)),
    Field("RewardText", 0x18, Some(PointerSize)),
    Field("Unk20", 0x20, Some(PointerSize))
  ]

  const GameTileItemFields: seq<Field> := [
    Field("self", 0x0, Some(PointerSize)),
    Field("Button", 0x8, Some(PointerSize)),
    Field("UnkRes10", 0x10, Some(PointerSize)),
    Field("UnkRes18", 0x18, Some(PointerSize)),
    Field("UnkRes20", 0x20, Some(PointerSize)),
    Field("Unk28", 0x28, Some(PointerSize))
  ]

  const GameTileRowFields: seq<Field> := [
    Field("Col1", 0x0, Some(GameTileItemSize)),
    Field("Col2", 0x30, Some(GameTileItemSize)),
    Field("Col3", 0x60, Some(GameTileItemSize)),
    Field("Col4", 0x90, Some(GameTileItemSize)),
    Field("Col5", 0xC0, Some(GameTileItemSize)),
    Field("Col6", 0xF0, Some(GameTileItemSize))
  ]

  const GameTileBoardFields: seq<Field> := [
    Field("Row1", 0x0, Some(GameTileRowSize)),
    Field("Row2", 0x120, Some(GameTileRowSize)),
    Field("Row3", 0x240, Some(GameTileRowSize)),
    Field("Row4", 0x360, Some(GameTileRowSize)),
    Field("Row5", 0x480, Some(GameTileRowSize)),
    Field("Row6", 0x5A0, Some(GameTileRowSize))
  ]

  const AddonWeeklyPuzzleFields: seq<Field> := [
    Field("AtkUnitBase", 0x0, None),
    Field("RewardPanelCommander", 0x220, Some(RewardPanelItemSize)),
    Field("RewardPanelCoffer", 0x248, Some(RewardPanelItemSize)),
    Field("RewardPanelGiftBox", 0x270, Some(RewardPanelItemSize)),
    Field("RewardPanelDualBlades", 0x298, Some(RewardPanelItemSize)),
    Field("Unk2C0", 0x2C0, Some(PointerSize)),
    Field("Unk2C8", 0x2C8, Some(PointerSize)),
    Field("Unk2D0", 0x2D0, Some(PointerSize)),
    Field("Unk2D8", 0x2D8, Some(PointerSize)),
    Field("Unk2E0", 0x2E0, Some(PointerSize)),
    Field("Unk2E8", 0x2E8, Some(PointerSize)),
    Field("Unk2F0", 0x2F0, Some(PointerSize)),
    Field("GameBoard", 0x2F8, Some(GameTileBoardSize)),
    Field("UnkA38", 0xA38, Some(PointerSize)),
    Field("CommanderStr", 0xB48, None),
    Field("CofferStr", 0xBB0, None),
    Field("GiftBoxStr", 0xC18, None),
    Field("DualBladesStr", 0xC80, None)
  ]

  // ---------------------------------------------------------------------------
  // Layout predicates
  // ---------------------------------------------------------------------------

  /** Field k is a slot of `stride` bytes at offset k * stride, and the slots fill the struct. */
  predicate Tiles(fields: seq<Field>, stride: nat, size: nat)
  {
    && |fields| * stride == size
    && forall k :: 0 <= k < |fields| ==> fields[k].offset == k * stride && fields[k].size == Some(stride)
  }

  /** Each field's offset is strictly below the next one's. */
  predicate Increasing(fields: seq<Field>)
  {
    forall k :: 0 <= k < |fields| - 1 ==> fields[k].offset < fields[k + 1].offset
  }

  /** Offsets strictly increase across the whole table, not only between neighbours. */
  predicate Ordered(fields: seq<Field>)
  {
    forall i, j :: 0 <= i < j < |fields| ==> fields[i].offset < fields[j].offset
  }

  /** A field of known size ends no later than where the next one starts. */
  predicate EndsBeforeNext(fields: seq<Field>)
  {
    forall k :: 0 <= k < |fields| - 1 && fields[k].size.Some? ==>
      fields[k].offset + fields[k].size.value <= fields[k + 1].offset
  }

  /** No field of known size reaches into any later field. */
  predicate Disjoint(fields: seq<Field>)
  {
    forall i, j :: 0 <= i < j < |fields| && fields[i].size.Some? ==>
      fields[i].offset + fields[i].size.value <= fields[j].offset
  }

  /** Every field starts inside the struct, and one of known size also ends inside it. */
  predicate WithinSize(fields: seq<Field>, size: nat)
  {
    forall k :: 0 <= k < |fields| ==>
      fields[k].offset < size && (fields[k].size.Some? ==> fields[k].offset + fields[k].size.value <= size)
  }

  // ---------------------------------------------------------------------------
  // Generic layout lemmas
  // ---------------------------------------------------------------------------

  /** Increasing between neighbours is increasing between any two fields. */
  lemma {:induction false} IncreasingOrdered(fields: seq<Field>)
    requires Increasing(fields)
    ensures Ordered(fields)
    decreases |fields|
  {
    if |fields| > 1 {
      var tail := fields[1..];
      assert Increasing(tail) by {
        forall k | 0 <= k < |tail| - 1 ensures tail[k].offset < tail[k + 1].offset {
          assert tail[k] == fields[k + 1] && tail[k + 1] == fields[k + 2];
        }
      }
      IncreasingOrdered(tail);
      forall i, j | 0 <= i < j < |fields| ensures fields[i].offset < fields[j].offset {
        if i > 0 {
          assert fields[i] == tail[i - 1] && fields[j] == tail[j - 1];
        } else if j > 1 {
          assert fields[1] == tail[0] && fields[j] == tail[j - 1];
        }
      }
    }
  }

  /** With ordered offsets, ending before the next field means ending before every later one. */
  lemma OrderedDisjoint(fields: seq<Field>)
    requires Ordered(fields) && EndsBeforeNext(fields)
    ensures Disjoint(fields)
  {
    forall i, j | 0 <= i < j < |fields| && fields[i].size.Some?
      ensures fields[i].offset + fields[i].size.value <= fields[j].offset
    {
      if i + 1 < j {
        assert fields[i + 1].offset < fields[j].offset;
      }
    }
  }

  /** A later slot starts at least one stride after an earlier one. */
  lemma {:induction false} MulStrictlyMonotone(a: nat, b: nat, stride: nat)
    requires a < b
    ensures a * stride + stride <= b * stride
    decreases b - a
  {
    if a + 1 < b {
      MulStrictlyMonotone(a + 1, b, stride);
    }
    assert (a + 1) * stride == a * stride + stride;
  }

  /**
   * A struct tiled by equal slots has its fields in strictly increasing order,
   * without overlap, and all inside the struct.
   */
  lemma TilesLayout(fields: seq<Field>, stride: nat, size: nat)
    requires Tiles(fields, stride, size) && stride > 0
    ensures Ordered(fields) && Disjoint(fields) && WithinSize(fields, size)
  {
    forall i, j | 0 <= i < j < |fields|
      ensures fields[i].offset + stride <= fields[j].offset
    {
      MulStrictlyMonotone(i, j, stride);
    }
    forall k | 0 <= k < |fields|
      ensures fields[k].offset + stride <= size
    {
      MulStrictlyMonotone(k, |fields|, stride);
    }
  }

  // ---------------------------------------------------------------------------
  // The concrete structs
  // ---------------------------------------------------------------------------

  /** `RewardPanelItem`: five 8-byte fields exactly fill its 0x28 bytes. */
  lemma RewardPanelItemLayout()
    ensures Tiles(RewardPanelItemFields, PointerSize, RewardPanelItemSize)
    ensures Ordered(RewardPanelItemFields) && Disjoint(RewardPanelItemFields)
    ensures WithinSize(RewardPanelItemFields, RewardPanelItemSize)
  {
    TilesLayout(RewardPanelItemFields, PointerSize, RewardPanelItemSize);
  }

  /** `GameTileItem`: six 8-byte fields exactly fill its 0x30 bytes. */
  lemma GameTileItemLayout()
    ensures Tiles(GameTileItemFields, PointerSize, GameTileItemSize)
    ensures Ordered(GameTileItemFields) && Disjoint(GameTileItemFields)
    ensures WithinSize(GameTileItemFields, GameTileItemSize)
  {
    TilesLayout(GameTileItemFields, PointerSize, GameTileItemSize);
  }

  /** `GameTileRow`: column k at k * 0x30, and six tiles exactly fill its 0x120 bytes. */
  lemma GameTileRowLayout()
    ensures Tiles(GameTileRowFields, GameTileItemSize, GameTileRowSize)
    ensures Ordered(GameTileRowFields) && Disjoint(GameTileRowFields)
    ensures WithinSize(GameTileRowFields, GameTileRowSize)
  {
    TilesLayout(GameTileRowFields, GameTileItemSize, GameTileRowSize);
  }

  /** `GameTileBoard`: row k at k * 0x120, and six rows exactly fill its 0x6C0 bytes. */
  lemma GameTileBoardLayout()
    ensures Tiles(GameTileBoardFields, GameTileRowSize, GameTileBoardSize)
    ensures Ordered(GameTileBoardFields) && Disjoint(GameTileBoardFields)
    ensures WithinSize(GameTileBoardFields, GameTileBoardSize)
  {
    TilesLayout(GameTileBoardFields, GameTileRowSize, GameTileBoardSize);
  }

  /**
   * `AddonWeeklyPuzzle`: offsets strictly increase; the four reward panels
   * sit at 0x220 + k * 0x28 and the last ends exactly where `Unk2C0` begins;
   * the board ends at 0x9B8, before `UnkA38`; no field of known size
   * overlaps a later one and every field starts inside the 0xD00 bytes.
   */
  lemma AddonWeeklyPuzzleLayout()
    ensures Ordered(AddonWeeklyPuzzleFields)
    ensures Disjoint(AddonWeeklyPuzzleFields)
    ensures WithinSize(AddonWeeklyPuzzleFields, AddonWeeklyPuzzleSize)
    ensures forall k :: 0 <= k < 4 ==>
      AddonWeeklyPuzzleFields[1 + k].offset == 0x220 + k * RewardPanelItemSize
    ensures AddonWeeklyPuzzleFields[4].offset + RewardPanelItemSize == AddonWeeklyPuzzleFields[5].offset == 0x2C0
    ensures AddonWeeklyPuzzleFields[12].name == "GameBoard"
    ensures AddonWeeklyPuzzleFields[12].offset + GameTileBoardSize == 0x9B8 < AddonWeeklyPuzzleFields[13].offset
  {
    AddonWeeklyPuzzleNeighbours();
    IncreasingOrdered(AddonWeeklyPuzzleFields);
    OrderedDisjoint(AddonWeeklyPuzzleFields);
    AddonWeeklyPuzzleWithinSize();
  }

  lemma AddonWeeklyPuzzleNeighbours()
    ensures Increasing(AddonWeeklyPuzzleFields) && EndsBeforeNext(AddonWeeklyPuzzleFields)
  {
  }

  lemma AddonWeeklyPuzzleWithinSize()
    ensures WithinSize(AddonWeeklyPuzzleFields, AddonWeeklyPuzzleSize)
  {
  }

  // ---------------------------------------------------------------------------
  // Where the indexers read
  // ---------------------------------------------------------------------------

  /** The offset of a column field inside a row, read from the row's table. */
  function ColumnOffset(c: WeeklyPuzzle.Column): nat
  {
    GameTileRowFields[WeeklyPuzzle.ColumnNumber(c)].offset
  }

  /** The offset of row r inside the board, read from the board's table. */
  function RowOffset(r: nat): nat
    requires r < 6
  {
    GameTileBoardFields[r].offset
  }

  /** The byte offset inside the board of the tile that the board indexer returns for index. */
  function TileOffset(index: int): nat
    requires 0 <= index < 36
  {
    WeeklyPuzzle.TruncDivOfNonNegative(index, 6);
    RowOffset(index / 6) + ColumnOffset(WeeklyPuzzle.RowColumn(index % 6).value)
  }

  /**
   * For index in 0..35 the indexer reads the tile 0x30 * index bytes into the
   * board when the position in the row is 0..3, and one tile earlier when it
   * is 4 or 5; so it never reads the last 0x30 bytes of a row.
   */
  lemma IndexerTileOffset(index: int)
    requires 0 <= index < 36
    ensures TileOffset(index) == GameTileItemSize * (if index % 6 < 4 then index else index - 1)
    ensures TileOffset(index) % GameTileRowSize != GameTileRowFields[5].offset
    ensures TileOffset(index) + GameTileItemSize <= GameTileBoardSize
  {
    var r, p := index / 6, index % 6;
    assert index == 6 * r + p;
    GameTileRowLayout();
    GameTileBoardLayout();
    assert RowOffset(r) == r * GameTileRowSize;
    var col := WeeklyPuzzle.ColumnNumber(WeeklyPuzzle.RowColumn(p).value);
    assert col == (if p < 4 then p else p - 1);
    assert ColumnOffset(WeeklyPuzzle.RowColumn(p).value) == col * GameTileItemSize;
    assert TileOffset(index) == r * GameTileRowSize + col * GameTileItemSize;
    assert TileOffset(index) % GameTileRowSize == col * GameTileItemSize;
  }

  /**
   * Under the corrected row switch index i reads the tile exactly 0x30 * i
   * bytes into the board: the 36 indices walk the board's tiles in memory order.
   */
  lemma IntendedIndexerTileOffset(index: int)
    requires 0 <= index < 36
    ensures RowOffset(index / 6) + ColumnOffset(WeeklyPuzzle.ColumnAt(index % 6)) == GameTileItemSize * index
  {
    var r, p := index / 6, index % 6;
    assert index == 6 * r + p;
    GameTileRowLayout();
    GameTileBoardLayout();
    assert RowOffset(r) == r * GameTileRowSize;
    assert ColumnOffset(WeeklyPuzzle.ColumnAt(p)) == p * GameTileItemSize;
  }
}
