/** The lossless tile cache of app-native/src/qu_composition.rs. */
module QuCompositions {
  import opened Folds
  import opened Crc32

  datatype Position = Position(col: nat, row: nat)

  datatype StoredTile = StoredTile(bytes: nat, crc: bv32)

  datatype TileOutcome = Applied | StaleEpoch | OutOfGrid | CrcMismatch | OverBudget

  type Tiles = map<Position, StoredTile>

  ghost function Total(tiles: Tiles): nat
    decreases |tiles|
  {
    if tiles == map[] then 0
    else
      var p :| p in tiles;
      ShrinksWithout(tiles, p);
      tiles[p].bytes + Total(tiles - {p})
  }

  lemma ShrinksWithout(tiles: Tiles, p: Position)
    requires p in tiles
    ensures |tiles - {p}| < |tiles|
  {
    assert (tiles - {p}).Keys == tiles.Keys - {p};
  }

  /** The total does not depend on the order in which the tiles are counted. */
  lemma {:induction false} TotalCounts(tiles: Tiles, p: Position)
    requires p in tiles
    ensures Total(tiles) == tiles[p].bytes + Total(tiles - {p})
    decreases |tiles|
  {
    var q :| q in tiles && Total(tiles) == tiles[q].bytes + Total(tiles - {q});
    if q != p {
      ShrinksWithout(tiles, q);
      ShrinksWithout(tiles, p);
      TotalCounts(tiles - {q}, p);
      TotalCounts(tiles - {p}, q);
      assert tiles - {q} - {p} == tiles - {p} - {q};
    }
  }

  function BytesAt(tiles: Tiles, p: Position): nat {
    if p in tiles then tiles[p].bytes else 0
  }

  lemma TotalWithout(tiles: Tiles, p: Position)
    ensures Total(tiles) == BytesAt(tiles, p) + Total(tiles - {p})
  {
    if p in tiles {
      TotalCounts(tiles, p);
    } else {
      assert tiles - {p} == tiles;
    }
  }

  lemma TotalReplaced(tiles: Tiles, p: Position, t: StoredTile)
    ensures Total(tiles[p := t]) == Total(tiles) - BytesAt(tiles, p) + t.bytes
  {
    TotalWithout(tiles, p);
    TotalWithout(tiles[p := t], p);
    assert tiles[p := t] - {p} == tiles - {p};
  }

  function Without(tiles: Tiles, positions: seq<Position>): Tiles {
    map p | p in tiles && p !in positions :: tiles[p]
  }

  lemma WithoutOneMore(tiles: Tiles, positions: seq<Position>, i: nat)
    requires i < |positions|
    ensures Without(tiles, positions[..i + 1]) == Without(tiles, positions[..i]) - {positions[i]}
  {
    assert positions[..i + 1] == positions[..i] + [positions[i]];
  }

  class QuComposition {
    const gridCols: nat
    const gridRows: nat
    const maxBytes: nat
    var epoch: nat
    var usedBytes: nat
    var tiles: Tiles
    ghost var pixels: map<Position, seq<Byte>>

    constructor (gridCols: nat, gridRows: nat, epoch: nat, maxBytes: nat)
      ensures Valid() && tiles == map[] && this.epoch == epoch
      ensures this.gridCols == gridCols && this.gridRows == gridRows && this.maxBytes == maxBytes
    {
      this.gridCols, this.gridRows, this.epoch, this.maxBytes := gridCols, gridRows, epoch, maxBytes;
      usedBytes, tiles, pixels := 0, map[], map[];
    }

    /**
     * The count is the sum of the stored sizes and within the budget; every tile is inside the grid,
     * and its size and checksum are those of the pixels it was applied with.
     */
    ghost predicate Valid()
      reads this
    {
      && usedBytes == Total(tiles) <= maxBytes
      && (forall p :: p in tiles ==> p.col < gridCols && p.row < gridRows)
      && pixels.Keys == tiles.Keys
      && forall p :: p in tiles ==> tiles[p] == StoredTile(|pixels[p]|, Checksum(pixels[p]))
    }

    /** What becomes of a tile, in the order of the checks. */
    ghost function Verdict(epoch: nat, p: Position, decoded: seq<Byte>, crc: bv32): TileOutcome
      reads this
    {
      if epoch != this.epoch then StaleEpoch
      else if p.col >= gridCols || p.row >= gridRows then OutOfGrid
      else if Checksum(decoded) != crc then CrcMismatch
      else if Total(tiles - {p}) + |decoded| > maxBytes then OverBudget
      else Applied
    }

    method ApplyTile(epoch: nat, col: nat, row: nat, decoded: seq<Byte>, crc: bv32) returns (outcome: TileOutcome)
      requires Valid()
      modifies this`usedBytes, this`tiles, this`pixels
      ensures Valid()
      ensures outcome == old(Verdict(epoch, Position(col, row), decoded, crc))
      ensures outcome == Applied ==> tiles == old(tiles)[Position(col, row) := StoredTile(|decoded|, crc)]
                                     && pixels == old(pixels)[Position(col, row) := decoded]
      ensures outcome != Applied ==> tiles == old(tiles) && pixels == old(pixels)
    {
      if epoch != this.epoch {
        return StaleEpoch;
      }
      if col >= gridCols || row >= gridRows {
        return OutOfGrid;
      }
      var actual := Crc(decoded);
      if actual != crc {
        return CrcMismatch;
      }
      var p := Position(col, row);
      TotalWithout(tiles, p);
      var projected := usedBytes - BytesAt(tiles, p) + |decoded|;
      if projected > maxBytes {
        return OverBudget;
      }
      TotalReplaced(tiles, p, StoredTile(|decoded|, crc));
      usedBytes := projected;
      tiles := tiles[p := StoredTile(|decoded|, crc)];
      pixels := pixels[p := decoded];
      outcome := Applied;
    }

    /** `HashMap::remove`, with the bytes given back. */
    method Remove(p: Position)
      requires Valid()
      modifies this`usedBytes, this`tiles, this`pixels
      ensures Valid() && tiles == old(tiles) - {p}
    {
      TotalWithout(tiles, p);
      if p in tiles {
        usedBytes := usedBytes - tiles[p].bytes;
      }
      tiles, pixels := tiles - {p}, pixels - {p};
    }

    method ApplyInvalidate(epoch: nat, positions: seq<Position>) returns (current: bool)
      requires Valid()
      modifies this`usedBytes, this`tiles, this`pixels
      ensures Valid()
      ensures current <==> epoch == this.epoch
      ensures tiles == if current then Without(old(tiles), positions) else old(tiles)
    {
      if epoch != this.epoch {
        return false;
      }
      ghost var was := tiles;
      for i := 0 to |positions|
        invariant Valid() && tiles == Without(was, positions[..i])
      {
        WithoutOneMore(was, positions, i);
        Remove(positions[i]);
      }
      assert positions[..|positions|] == positions;
      current := true;
    }

    method SetEpoch(newEpoch: nat)
      modifies this`epoch, this`usedBytes, this`tiles, this`pixels
      ensures Valid() && epoch == newEpoch && tiles == map[] && usedBytes == 0
    {
      epoch := newEpoch;
      tiles, pixels := map[], map[];
      usedBytes := 0;
    }
  }

  /** What the answer tells: each refusal only once the checks before it have passed. */
  lemma VerdictTells(cache: QuComposition, epoch: nat, p: Position, decoded: seq<Byte>, crc: bv32)
    requires cache.Valid()
    ensures var outcome := cache.Verdict(epoch, p, decoded, crc);
            var inside := p.col < cache.gridCols && p.row < cache.gridRows;
            && (outcome == StaleEpoch <==> epoch != cache.epoch)
            && (outcome == OutOfGrid <==> epoch == cache.epoch && !inside)
            && (outcome == CrcMismatch <==> epoch == cache.epoch && inside && Checksum(decoded) != crc)
            && (outcome == OverBudget <==>
                  && epoch == cache.epoch && inside && Checksum(decoded) == crc
                  && Total(cache.tiles[p := StoredTile(|decoded|, crc)]) > cache.maxBytes)
            && (outcome == Applied <==>
                  && epoch == cache.epoch && inside && Checksum(decoded) == crc
                  && Total(cache.tiles[p := StoredTile(|decoded|, crc)]) <= cache.maxBytes)
  {
    TotalWithout(cache.tiles, p);
    TotalReplaced(cache.tiles, p, StoredTile(|decoded|, crc));
  }

  /** A tile corrupted within 32 consecutive bits is refused whatever the state of the cache. */
  lemma CorruptedTileIsRefused(cache: QuComposition, epoch: nat, p: Position,
                               sent: seq<Byte>, decoded: seq<Byte>, i: int)
    requires DifferWithin(32, TextBits(sent), TextBits(decoded), i)
    ensures cache.Verdict(epoch, p, decoded, Checksum(sent)) != Applied
  {
    BurstsAreDetected(sent, decoded, i);
  }
}
