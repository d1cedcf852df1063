/**
 * The pure rules of a region: the palette bit-width tables, the region-local
 * coordinate fold, the chunk validity check and the empty chunk template.
 */
module RegionRules {
  import opened Ints
  import opened Arith
  import opened Errors
  import opened Nbt
  import opened LocalCoords

  /** A region is 32 by 32 chunks; a chunk (and a section) is 16 blocks wide. */
  const REGION_SIZE: int := 32
  const WIDTH: int := 16
  const BLOCKS_PER_REGION: int := 512
  const REQUIRED_STATUS: string := "minecraft:full"
  const MIN_DATA_VERSION: int := 2860

  /**
   * A world height as the half-open range `start .. end` kept in the region's
   * configuration. The chunk and the region edit buffers read it as the
   * inclusive range `start ..= end - 1`.
   */
  datatype Height = Height(start: int, end: int)
  {
    /** `RangeInclusive::end()` of the inclusive reading. */
    function Last(): int { end - 1 }

    /** `count()` of the range: how many Y values it holds. */
    function Count(): nat { if end > start then end - start else 0 }
  }

  const DEFAULT_WORLD_HEIGHT: Height := Height(-64, 320)

  /** The region configuration read when flushing. */
  datatype Config = Config(createChunkIfMissing: bool, updateLighting: bool, worldHeight: Height)

  const DEFAULT_CONFIG: Config := Config(false, true, DEFAULT_WORLD_HEIGHT)

  /** Chunk position local to its region, each coordinate a `u8`. */
  type ChunkPos = (u8, u8)

  /** A block together with the (region- or chunk-local) coordinates it is meant for. */
  datatype BlockWithCoordinate = BlockWithCoordinate(coordinates: Coords, block: Block)

  /** Entries in a section's block index array (16 * 16 * 16) and biome index array (4 * 4 * 4). */
  const BLOCK_DATA_LEN: nat := 4096
  const BIOME_DATA_LEN: nat := 64

  /** Rust's `/` on signed integers: truncates toward zero. */
  function TruncDiv(a: int, d: int): (r: int)
    requires d > 0
    ensures a >= 0 ==> r * d <= a < r * d + d
    ensures a < 0 ==> r * d - d < a <= r * d
  {
    if a >= 0 then a / d else -((-a) / d)
  }

  /** `v as i8` on an integer: wraps to the low eight bits, read as signed. */
  function WrapI8(v: int): (r: i8)
    ensures -0x80 <= v < 0x80 ==> r == v
  {
    (v + 0x80) % 0x100 - 0x80
  }

  // ---- bit widths ----

  /** `get_block_bit_count`: bits per entry of a block index array for a palette of `len` entries. */
  function BlockBitCount(len: nat): (r: nat)
  {
    if len <= 16 then 4
    else if len <= 32 then 5
    else if len <= 64 then 6
    else if len <= 128 then 7
    else if len <= 256 then 8
    else if len <= 512 then 9
    else if len <= 1024 then 10
    else if len <= 2048 then 11
    else if len <= 4096 then 12
    else 13
  }

  /** `get_biome_bit_count` (and biome.rs `get_bit_count`): bits per entry of a biome index array. */
  function BiomeBitCount(len: nat): (r: nat)
  {
    if len <= 1 then 0
    else if len == 2 then 1
    else if len <= 4 then 2
    else if len <= 8 then 3
    else if len <= 16 then 4
    else if len <= 32 then 5
    else 6
  }

  lemma PowersUpTo12()
    ensures Pow2(0) == 1 && Pow2(1) == 2 && Pow2(2) == 4 && Pow2(3) == 8 && Pow2(4) == 16
    ensures Pow2(5) == 32 && Pow2(6) == 64 && Pow2(7) == 128 && Pow2(8) == 256
    ensures Pow2(9) == 512 && Pow2(10) == 1024 && Pow2(11) == 2048 && Pow2(12) == 4096
  {
    assert Pow2(4) == 16;
    assert Pow2(8) == 256;
    assert Pow2(12) == 4096;
  }

  /**
   * The block width is at least 4, and above 16 entries it is the least `b`
   * with `len <= 2^b`, up to 12 bits for the largest section palette (4096);
   * longer palettes get 13.
   */
  lemma BlockBitCountIsLeastWidth(len: nat)
    ensures 4 <= BlockBitCount(len) <= 13
    ensures len <= 16 ==> BlockBitCount(len) == 4
    ensures 16 < len <= 4096 ==> Pow2(BlockBitCount(len) - 1) < len <= Pow2(BlockBitCount(len))
    ensures len > 4096 ==> BlockBitCount(len) == 13
  {
    PowersUpTo12();
  }

  /** Every index into a palette of at most 4096 entries fits the block width. */
  lemma BlockIndexesFit(len: nat, i: int)
    requires len <= 4096 && 0 <= i < len
    ensures i < Pow2(BlockBitCount(len))
  {
    PowersUpTo12();
    BlockBitCountIsLeastWidth(len);
  }

  /**
   * The biome width is 0 for at most one entry, otherwise the least `b` with
   * `len <= 2^b`, up to 5 bits at 32 entries; longer palettes get 6.
   */
  lemma BiomeBitCountIsLeastWidth(len: nat)
    ensures BiomeBitCount(len) <= 6
    ensures len <= 1 ==> BiomeBitCount(len) == 0
    ensures 1 < len <= 32 ==> Pow2(BiomeBitCount(len) - 1) < len <= Pow2(BiomeBitCount(len))
    ensures len > 32 ==> BiomeBitCount(len) == 6
  {
    PowersUpTo12();
  }

  lemma BitCountsMonotone(a: nat, b: nat)
    requires a <= b
    ensures BlockBitCount(a) <= BlockBitCount(b)
    ensures BiomeBitCount(a) <= BiomeBitCount(b)
  {
  }

  /** The two tables agree exactly on the palette lengths 9 to 64. */
  lemma BitCountsAgree(len: nat)
    ensures BlockBitCount(len) == BiomeBitCount(len) <==> 9 <= len <= 64
  {
  }

  lemma BitCountExamples()
    ensures BlockBitCount(0) == 4 && BlockBitCount(58) == 6 && BlockBitCount(1754) == 11
    ensures BlockBitCount(8572728) == 13
    ensures BiomeBitCount(0) == 0 && BiomeBitCount(4) == 2 && BiomeBitCount(7) == 3
    ensures BiomeBitCount(25) == 5 && BiomeBitCount(8572728) == 6
  {
  }

  // ---- region-local coordinates ----

  /**
   * `to_region_local`: `x & 511` and `z & 511` on the two's-complement i32,
   * which is the remainder of floor division by 512; y is kept.
   */
  function ToRegionLocal(c: (i32, i32, i32)): (r: Coords)
  {
    Coords(c.0 % BLOCKS_PER_REGION, c.1, c.2 % BLOCKS_PER_REGION)
  }

  /** The local x and z are the floor-mod 512 of the global ones: in range and congruent. */
  lemma ToRegionLocalIsFloorMod(c: (i32, i32, i32))
    ensures var r := ToRegionLocal(c);
      0 <= r.x < 512 && 0 <= r.z < 512 && r.y == c.1 &&
      c.0 == 512 * FloorDiv(c.0, 512) + r.x && c.2 == 512 * FloorDiv(c.2, 512) + r.z
  {
  }

  lemma ToRegionLocalExamples()
    ensures ToRegionLocal((-841, -17, 4821)) == Coords(183, -17, 213)
    ensures ToRegionLocal((851, 85, -481)) == Coords(339, 85, 31)
    ensures ToRegionLocal((52, -81, 381)) == Coords(52, -81, 381)
  {
  }

  // ---- chunk validity ----

  /** `is_valid_chunk`: the chunk must be fully generated and at least `MIN_DATA_VERSION`. */
  function IsValidChunk(chunk: Compound, pos: (int, int)): (r: Result<()>)
    ensures r.Ok? <==> StringTag(chunk, "Status") == Some(REQUIRED_STATUS) &&
                       IntTag(chunk, "DataVersion").Some? && IntTag(chunk, "DataVersion").value >= MIN_DATA_VERSION
    ensures StringTag(chunk, "Status").None? ==> r == Err(MissingNbtTag("Status"))
    ensures StringTag(chunk, "Status").Some? && StringTag(chunk, "Status").value != REQUIRED_STATUS ==>
              r == Err(NotFullyGenerated(pos, StringTag(chunk, "Status").value))
    ensures StringTag(chunk, "Status") == Some(REQUIRED_STATUS) && IntTag(chunk, "DataVersion").None? ==>
              r == Err(MissingNbtTag("DataVersion"))
    ensures StringTag(chunk, "Status") == Some(REQUIRED_STATUS) && IntTag(chunk, "DataVersion").Some? &&
            IntTag(chunk, "DataVersion").value < MIN_DATA_VERSION ==>
              r == Err(UnsupportedVersion(pos, IntTag(chunk, "DataVersion").value))
  {
    match StringTag(chunk, "Status")
    case None => Err(MissingNbtTag("Status"))
    case Some(status) =>
      if status != REQUIRED_STATUS then Err(NotFullyGenerated(pos, status))
      else
        match IntTag(chunk, "DataVersion")
        case None => Err(MissingNbtTag("DataVersion"))
        case Some(v) => if v < MIN_DATA_VERSION then Err(UnsupportedVersion(pos, v)) else Ok(())
  }

  // ---- the empty chunk ----

  const AIR: string := "minecraft:air"
  const PLAINS: string := "minecraft:plains"

  /** One section of an empty chunk: plains biome and air blocks, single-entry palettes without data. */
  function EmptySection(y: i8): Compound
  {
    map[
      "Y" := TByte(y),
      "biomes" := TCompound(map["palette" := TList(StringList([PLAINS]))]),
      "block_states" := TCompound(map["palette" := TList(CompoundList([map["Name" := TString(AIR)]]))])
    ]
  }

  /** The sections with Y from `lo` up to but excluding `hi`. */
  function EmptySections(lo: i8, hi: i8): (r: seq<Compound>)
    ensures |r| == if hi > lo then hi - lo else 0
    ensures forall i :: 0 <= i < |r| ==> r[i] == EmptySection(lo + i)
    decreases hi - lo
  {
    if lo >= hi then [] else [EmptySection(lo)] + EmptySections(lo + 1, hi)
  }

  /** The section Y range of a world height: `start / 16 .. end / 16`, truncating, as i8. */
  function SectionRange(h: Height): (i8, i8)
  {
    (WrapI8(TruncDiv(h.start, WIDTH)), WrapI8(TruncDiv(h.end, WIDTH)))
  }

  /** `get_empty_chunk`: a generated, current-version chunk of empty sections at its world chunk position. */
  function GetEmptyChunk(pos: ChunkPos, regionCoords: (i32, i32), h: Height): (r: Compound)
    requires -0x8000_0000 <= regionCoords.0 * REGION_SIZE + pos.0 < 0x8000_0000
    requires -0x8000_0000 <= regionCoords.1 * REGION_SIZE + pos.1 < 0x8000_0000
  {
    var range := SectionRange(h);
    map[
      "Status" := TString(REQUIRED_STATUS),
      "DataVersion" := TInt(MIN_DATA_VERSION),
      "sections" := TList(CompoundList(EmptySections(range.0, range.1))),
      "block_entities" := TList(EmptyList),
      "isLightOn" := TByte(0),
      "xPos" := TInt(regionCoords.0 * REGION_SIZE + pos.0),
      "zPos" := TInt(regionCoords.1 * REGION_SIZE + pos.1)
    ]
  }

  /** The empty chunk passes the validity check and carries its world position and one section per 16 Y values. */
  lemma EmptyChunkShape(pos: ChunkPos, regionCoords: (i32, i32), h: Height)
    requires -0x8000_0000 <= regionCoords.0 * REGION_SIZE + pos.0 < 0x8000_0000
    requires -0x8000_0000 <= regionCoords.1 * REGION_SIZE + pos.1 < 0x8000_0000
    ensures var c := GetEmptyChunk(pos, regionCoords, h);
      IsValidChunk(c, pos) == Ok(()) &&
      IntTag(c, "xPos") == Some(regionCoords.0 * 32 + pos.0) &&
      IntTag(c, "zPos") == Some(regionCoords.1 * 32 + pos.1) &&
      ByteTag(c, "isLightOn") == Some(0) &&
      ListTag(c, "sections") == Some(CompoundList(EmptySections(SectionRange(h).0, SectionRange(h).1)))
  {
  }

  /** The default height gives 24 sections, Y = -4 to 19; the example chunk (15, 9) of region (2, -5) sits at (79, -151). */
  lemma EmptyChunkExamples()
    ensures SectionRange(DEFAULT_WORLD_HEIGHT) == (-4, 20)
    ensures |EmptySections(-4, 20)| == 24 && EmptySections(-4, 20)[0] == EmptySection(-4)
    ensures IntTag(GetEmptyChunk((15, 9), (2, -5), DEFAULT_WORLD_HEIGHT), "xPos") == Some(79)
    ensures IntTag(GetEmptyChunk((15, 9), (2, -5), DEFAULT_WORLD_HEIGHT), "zPos") == Some(-151)
  {
  }
}
