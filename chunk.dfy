/**
 * A chunk of a region together with its edit buffers: the blocks and biomes
 * set but not yet written into the chunk's NBT, grouped by section Y, and a
 * bitset per kind recording which positions already hold a pending value so
 * that the first write to a position wins.
 */
module Chunk {
  import opened Ints
  import opened Arith
  import opened Errors
  import opened Nbt
  import opened LocalCoords
  import opened FixedBits
  import opened RegionRules
  import opened BiomeCells
  import opened PackedData
  import opened SectionWrite
  import opened BiomeWrite
  import opened ChunkWrite

  // ---- seen-bitset indexes ----

  /**
   * `ChunkData::get_block_index` as written: the stride of z is
   * `16 * (end() - -start())`, that is `16 * (end() + start())` of the
   * inclusive height range, which is 255 layers for the default height
   * where 384 are needed.
   */
  function GetBlockIndexAsWritten(h: Height, x: int, y: int, z: int): int
  {
    x + (y - h.start) * WIDTH + z * WIDTH * (h.Last() + h.start)
  }

  /** Two different positions of one default-height chunk share a seen bit. */
  lemma BlockIndexAsWrittenCollides()
    ensures GetBlockIndexAsWritten(DEFAULT_WORLD_HEIGHT, 0, 191, 0) == GetBlockIndexAsWritten(DEFAULT_WORLD_HEIGHT, 0, -64, 1)
  {
  }

  /**
   * The index as written is injective only while `y - start` stays below the
   * stride, i.e. on the lowest `end() + start()` layers.
   */
  lemma BlockIndexAsWrittenInjectiveBelowStride(h: Height, x1: int, y1: int, z1: int, x2: int, y2: int, z2: int)
    requires 0 <= x1 < 16 && 0 <= x2 < 16 && 0 <= z1 && 0 <= z2
    requires 0 <= y1 - h.start < h.Last() + h.start && 0 <= y2 - h.start < h.Last() + h.start
    requires GetBlockIndexAsWritten(h, x1, y1, z1) == GetBlockIndexAsWritten(h, x2, y2, z2)
    ensures x1 == x2 && y1 == y2 && z1 == z2
  {
    var s := h.Last() + h.start;
    var a := x1 + (y1 - h.start) * 16;
    var b := x2 + (y2 - h.start) * 16;
    MulAssoc(z1, 16, s);
    MulAssoc(z2, 16, s);
    DivModUnique(GetBlockIndexAsWritten(h, x1, y1, z1), 16 * s, z1, a);
    DivModUnique(GetBlockIndexAsWritten(h, x2, y2, z2), 16 * s, z2, b);
    DivModUnique(a, 16, y1 - h.start, x1);
    DivModUnique(b, 16, y2 - h.start, x2);
  }

  /** The seen-block index with the stride the bitset size is laid out for: one layer of 16 * 16 per Y value. */
  function BlockIndex(h: Height, x: int, y: int, z: int): int
  {
    x + (y - h.start) * WIDTH + z * WIDTH * h.Count()
  }

  /** `ChunkData::block_bitset`: 16 * height * 16 bits. */
  function BlockBitsetSize(count: nat): nat
  {
    WIDTH * count * WIDTH
  }

  /** Every position of the chunk has its own bit, inside the bitset. */
  lemma BlockIndexInjective(h: Height, x1: int, y1: int, z1: int, x2: int, y2: int, z2: int)
    requires 0 <= x1 < 16 && 0 <= z1 < 16 && h.start <= y1 < h.end
    requires 0 <= x2 < 16 && 0 <= z2 < 16 && h.start <= y2 < h.end
    ensures 0 <= BlockIndex(h, x1, y1, z1) < BlockBitsetSize(h.Count())
    ensures BlockIndex(h, x1, y1, z1) == BlockIndex(h, x2, y2, z2) <==> x1 == x2 && y1 == y2 && z1 == z2
  {
    var n := h.Count();
    var a := x1 + (y1 - h.start) * 16;
    var b := x2 + (y2 - h.start) * 16;
    MulAssoc(z1, 16, n);
    MulAssoc(z2, 16, n);
    MulAddBound(x1, 16, y1 - h.start, n);
    MulAddBound(a, 16 * n, z1, 16);
    MulAssoc(16, n, 16);
    if BlockIndex(h, x1, y1, z1) == BlockIndex(h, x2, y2, z2) {
      DivModUnique(BlockIndex(h, x1, y1, z1), 16 * n, z1, a);
      DivModUnique(BlockIndex(h, x2, y2, z2), 16 * n, z2, b);
      DivModUnique(a, 16, y1 - h.start, x1);
      DivModUnique(b, 16, y2 - h.start, x2);
    }
  }

  /**
   * `ChunkData::get_biome_index`: the section offset from the lowest
   * section (`start / 16`, truncating, as i8; the i8 difference wraps) times
   * 64, plus the cell's slot x + 4z + 16y.
   */
  function BiomeIndex(h: Height, c: BiomeCell): int
  {
    WrapI8(c.section - WrapI8(TruncDiv(h.start, WIDTH))) * 64 + BiomeSlot(c)
  }

  /** `ChunkData::biome_bitset`: 64 bits per section, `count / 16` sections. */
  function BiomeBitsetSize(count: nat): nat
  {
    (count / WIDTH) * 64
  }

  /** Cells of the chunk's sections have distinct bits inside the biome bitset. */
  lemma BiomeIndexInjective(h: Height, c1: BiomeCell, c2: BiomeCell)
    requires InRange(c1) && InRange(c2)
    requires var low := WrapI8(TruncDiv(h.start, WIDTH));
      0 <= c1.section - low < 0x80 && c1.section - low < h.Count() / 16 &&
      0 <= c2.section - low < 0x80 && c2.section - low < h.Count() / 16
    ensures 0 <= BiomeIndex(h, c1) < BiomeBitsetSize(h.Count())
    ensures BiomeIndex(h, c1) == BiomeIndex(h, c2) <==> c1.section == c2.section && c1.cell == c2.cell
  {
    var low := WrapI8(TruncDiv(h.start, WIDTH));
    BiomeSlotInjective(c1, c2);
    BiomeSlotInjective(c2, c1);
    MulAddBound(BiomeSlot(c1), 64, c1.section - low, h.Count() / 16);
    if BiomeIndex(h, c1) == BiomeIndex(h, c2) {
      DivModUnique(BiomeIndex(h, c1), 64, c1.section - low, BiomeSlot(c1));
      DivModUnique(BiomeIndex(h, c2), 64, c2.section - low, BiomeSlot(c2));
    }
  }

  /** The section a block Y belongs to: `floor(y / 16) as i8` (saturating). */
  function SectionOf(y: int): i8
  {
    SatI8(FloorDiv(y, WIDTH))
  }

  /** The pending list of a section, empty when the section has none. */
  function PendingAt<V>(m: map<i8, seq<V>>, y: i8): seq<V>
  {
    if y in m then m[y] else []
  }

  /** `entry(y).or_insert_with(Vec::new).push(v)`. */
  function PushPending<V>(m: map<i8, seq<V>>, y: i8, v: V): (r: map<i8, seq<V>>)
    ensures r.Keys == m.Keys + {y}
    ensures r[y] == PendingAt(m, y) + [v]
    ensures forall k :: k in m && k != y ==> r[k] == m[k]
  {
    m[y := PendingAt(m, y) + [v]]
  }

  /** Every field of a `ChunkData`, as one value. */
  datatype ChunkState = ChunkState(nbt: Compound, worldHeight: Height,
                                   pendingBlocks: map<i8, seq<BlockWithCoordinate>>, seenBlocks: BitSet,
                                   pendingBiomes: map<i8, seq<BiomeCellWithId>>, seenBiomes: BitSet,
                                   dirtyBlocks: bool, dirtyBiomes: bool)

  /** The state `ChunkData::new` gives a chunk. */
  function NewChunkState(nbt: Compound, worldHeight: Height): ChunkState
  {
    ChunkState(nbt, worldHeight, map[], WithCapacity(BlockBitsetSize(worldHeight.Count())),
               map[], WithCapacity(BiomeBitsetSize(worldHeight.Count())), false, false)
  }

  /** The buffers re-initialised for `count` Y values, the rest of the chunk kept. */
  function ResetState(s: ChunkState, count: nat): ChunkState
  {
    s.(pendingBlocks := map[], pendingBiomes := map[],
       seenBlocks := WithCapacity(BlockBitsetSize(count)), seenBiomes := WithCapacity(BiomeBitsetSize(count)))
  }

  /** Both bitsets of a chunk state are well formed. */
  predicate ValidState(s: ChunkState)
  {
    s.seenBlocks.Valid() && s.seenBiomes.Valid()
  }

  class ChunkData {
    /** The chunk's NBT compound. */
    var nbt: Compound
    /** The world height the buffers were laid out for. */
    var worldHeight: Height
    var pendingBlocks: map<i8, seq<BlockWithCoordinate>>
    var seenBlocks: BitSet
    var pendingBiomes: map<i8, seq<BiomeCellWithId>>
    var seenBiomes: BitSet
    /** Whether block (biome) writes are pending; the region's write skips the chunk otherwise. */
    var dirtyBlocks: bool
    var dirtyBiomes: bool

    predicate Valid()
      reads this
    {
      ValidState(State())
    }

    /** The chunk's fields. */
    function State(): ChunkState
      reads this
    {
      ChunkState(nbt, worldHeight, pendingBlocks, seenBlocks, pendingBiomes, seenBiomes, dirtyBlocks, dirtyBiomes)
    }

    /** A chunk holding the given state: the `ChunkData` a region slot owns, borrowed for a call. */
    constructor FromState(s: ChunkState)
      requires ValidState(s)
      ensures Valid() && State() == s
    {
      nbt := s.nbt;
      worldHeight := s.worldHeight;
      pendingBlocks := s.pendingBlocks;
      pendingBiomes := s.pendingBiomes;
      seenBlocks := s.seenBlocks;
      seenBiomes := s.seenBiomes;
      dirtyBlocks := s.dirtyBlocks;
      dirtyBiomes := s.dirtyBiomes;
    }

    /** `ChunkData::new`: empty buffers, bitsets sized for the height, nothing dirty. */
    constructor (nbt: Compound, worldHeight: Height)
      ensures this.nbt == nbt && this.worldHeight == worldHeight
      ensures pendingBlocks == map[] && pendingBiomes == map[]
      ensures seenBlocks == WithCapacity(BlockBitsetSize(worldHeight.Count()))
      ensures seenBiomes == WithCapacity(BiomeBitsetSize(worldHeight.Count()))
      ensures !dirtyBlocks && !dirtyBiomes
      ensures State() == NewChunkState(nbt, worldHeight)
      ensures Valid()
    {
      this.nbt := nbt;
      this.worldHeight := worldHeight;
      pendingBlocks := map[];
      pendingBiomes := map[];
      seenBlocks := WithCapacity(BlockBitsetSize(worldHeight.Count()));
      seenBiomes := WithCapacity(BiomeBitsetSize(worldHeight.Count()));
      dirtyBlocks := false;
      dirtyBiomes := false;
    }

    /**
     * `ChunkData::set_block` (chunk-local x and z, asserted below 16): the
     * first write to a position is queued under its section and returns
     * `Some(())`; a later one returns `None` and changes nothing. Setting the
     * bit of a position outside the bitset panics.
     */
    method SetBlock(x: u32, y: i32, z: u32, block: Block) returns (r: Option<()>)
      requires Valid()
      requires x < 16 && z < 16
      requires 0 <= BlockIndex(worldHeight, x, y, z) < seenBlocks.len
      modifies this
      ensures Valid()
      ensures nbt == old(nbt) && worldHeight == old(worldHeight)
      ensures var i := BlockIndex(worldHeight, x, y, z);
        (r.Some? <==> !old(seenBlocks.Contains(i))) &&
        (r.Some? ==>
          seenBlocks == old(seenBlocks).Insert(i) &&
          pendingBlocks == PushPending(old(pendingBlocks), SectionOf(y), BlockWithCoordinate(Coords(x, y, z), block)) &&
          dirtyBlocks) &&
        (r.None? ==> seenBlocks == old(seenBlocks) && pendingBlocks == old(pendingBlocks) && dirtyBlocks == old(dirtyBlocks))
      ensures pendingBiomes == old(pendingBiomes) && seenBiomes == old(seenBiomes) && dirtyBiomes == old(dirtyBiomes)
    {
      var index := BlockIndex(worldHeight, x, y, z);
      if !seenBlocks.Contains(index) {
        seenBlocks := seenBlocks.Insert(index);
        var sectionY := SectionOf(y);
        pendingBlocks := PushPending(pendingBlocks, sectionY, BlockWithCoordinate(Coords(x, y, z), block));
        dirtyBlocks := true;
        return Some(());
      }
      return None;
    }

    /**
     * `ChunkData::set_biome`: the first write to a cell is queued under the
     * cell's section and returns `Some(())`; a later one returns `None` and
     * changes nothing.
     */
    method SetBiome(cell: BiomeCell, biome: string) returns (r: Option<()>)
      requires Valid()
      requires 0 <= BiomeIndex(worldHeight, cell) < seenBiomes.len
      modifies this
      ensures Valid()
      ensures nbt == old(nbt) && worldHeight == old(worldHeight)
      ensures var i := BiomeIndex(worldHeight, cell);
        (r.Some? <==> !old(seenBiomes.Contains(i))) &&
        (r.Some? ==>
          seenBiomes == old(seenBiomes).Insert(i) &&
          pendingBiomes == PushPending(old(pendingBiomes), cell.section, BiomeCellWithId(cell, biome)) &&
          dirtyBiomes) &&
        (r.None? ==> seenBiomes == old(seenBiomes) && pendingBiomes == old(pendingBiomes) && dirtyBiomes == old(dirtyBiomes))
      ensures pendingBlocks == old(pendingBlocks) && seenBlocks == old(seenBlocks) && dirtyBlocks == old(dirtyBlocks)
    {
      var index := BiomeIndex(worldHeight, cell);
      if !seenBiomes.Contains(index) {
        seenBiomes := seenBiomes.Insert(index);
        pendingBiomes := PushPending(pendingBiomes, cell.section, BiomeCellWithId(cell, biome));
        dirtyBiomes := true;
        return Some(());
      }
      return None;
    }

    /** `set_internal_block_buffer`: replaces the pending blocks and clears the seen blocks, nothing else. */
    method SetInternalBlockBuffer(buffer: map<i8, seq<BlockWithCoordinate>>)
      requires Valid()
      modifies this
      ensures Valid()
      ensures pendingBlocks == buffer && seenBlocks == old(seenBlocks).Clear()
      ensures nbt == old(nbt) && worldHeight == old(worldHeight) && dirtyBlocks == old(dirtyBlocks)
      ensures pendingBiomes == old(pendingBiomes) && seenBiomes == old(seenBiomes) && dirtyBiomes == old(dirtyBiomes)
    {
      pendingBlocks := buffer;
      seenBlocks := seenBlocks.Clear();
    }

    /** `set_internal_biome_buffer`: replaces the pending biomes and clears the seen biomes, nothing else. */
    method SetInternalBiomeBuffer(buffer: map<i8, seq<BiomeCellWithId>>)
      requires Valid()
      modifies this
      ensures Valid()
      ensures pendingBiomes == buffer && seenBiomes == old(seenBiomes).Clear()
      ensures nbt == old(nbt) && worldHeight == old(worldHeight) && dirtyBiomes == old(dirtyBiomes)
      ensures pendingBlocks == old(pendingBlocks) && seenBlocks == old(seenBlocks) && dirtyBlocks == old(dirtyBlocks)
    {
      pendingBiomes := buffer;
      seenBiomes := seenBiomes.Clear();
    }

    /**
     * `ChunkData::write_blocks`: the chunk-level checks, the entity cache,
     * then each section in list order; a section whose Y has a pending entry
     * has the entry removed and its blocks written, and the block entities it
     * overwrites are dropped (matched on the full position, with the cache
     * kept for the whole chunk). On success the seen blocks are cleared and
     * the chunk is no longer dirty.
     */
    method WriteBlocks(pos: (int, int), lighting: bool) returns (r: Result<()>)
      requires Valid() && BlocksInSections(pendingBlocks) && LongDataSections(nbt)
      modifies this
      ensures Valid()
      ensures r.Ok? ==> WriteChunkBlocks(old(nbt), pos, old(pendingBlocks), lighting, Exact) == Done(Ok(ChunkOut(nbt, pendingBlocks)))
      ensures r.Ok? ==> seenBlocks == old(seenBlocks).Clear() && !dirtyBlocks
      ensures r.Err? ==> WriteChunkBlocks(old(nbt), pos, old(pendingBlocks), lighting, Exact) == Done(Err(r.error))
      ensures r.Err? ==> seenBlocks == old(seenBlocks) && dirtyBlocks == old(dirtyBlocks)
      ensures worldHeight == old(worldHeight)
      ensures pendingBiomes == old(pendingBiomes) && seenBiomes == old(seenBiomes) && dirtyBiomes == old(dirtyBiomes)
    {
      var chunk, pending := nbt, pendingBlocks;
      var out, left := WriteChunkBlocksChecked(chunk, pos, pending, lighting, Exact);
      pendingBlocks := left;
      if out.Err? {
        return Err(out.error);
      }
      nbt := out.value.nbt;
      seenBlocks := seenBlocks.Clear();
      dirtyBlocks := false;
      return Ok(());
    }

    /**
     * `ChunkData::write_biomes` for a write that does not panic: on success
     * the chunk's NBT and pending biomes are the write's, the seen-biomes
     * bitset is cleared and the chunk is no longer biome-dirty; on an error
     * the seen bitset and dirty flag keep their values.
     */
    method WriteBiomes(pos: (int, int)) returns (r: Result<()>)
      requires Valid() && BiomesInSections(pendingBiomes)
      requires WriteChunkBiomes(nbt, pos, pendingBiomes).Done?
      modifies this
      ensures Valid()
      ensures r.Ok? ==> WriteChunkBiomes(old(nbt), pos, old(pendingBiomes)) == Done(Ok(ChunkOut(nbt, pendingBiomes)))
      ensures r.Ok? ==> seenBiomes == old(seenBiomes).Clear() && !dirtyBiomes
      ensures r.Err? ==> WriteChunkBiomes(old(nbt), pos, old(pendingBiomes)) == Done(Err(r.error))
      ensures r.Err? ==> seenBiomes == old(seenBiomes) && dirtyBiomes == old(dirtyBiomes)
      ensures pendingBiomes.Keys <= old(pendingBiomes).Keys
      ensures worldHeight == old(worldHeight)
      ensures pendingBlocks == old(pendingBlocks) && seenBlocks == old(seenBlocks) && dirtyBlocks == old(dirtyBlocks)
    {
      var chunk, pending := nbt, pendingBiomes;
      var out, left := WriteChunkBiomesChecked(chunk, pos, pending);
      pendingBiomes := left;
      if out.Err? {
        return Err(out.error);
      }
      nbt := out.value.nbt;
      seenBiomes := seenBiomes.Clear();
      dirtyBiomes := false;
      return Ok(());
    }

  }
}
