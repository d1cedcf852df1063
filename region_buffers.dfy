/**
 * The region-level edit buffers of `set.rs` and `biome.rs`: blocks and
 * biome cells set but not yet written, grouped by chunk slot and section
 * Y, and one bitset per kind over the whole region recording which
 * positions already hold a pending value, so that the first write to a
 * position wins.
 */
module RegionBuffers {
  import opened Ints
  import opened Arith
  import opened Errors
  import opened Nbt
  import opened LocalCoords
  import opened FixedBits
  import opened RegionRules
  import opened BiomeCells
  import opened Chunk

  /** Pending values per chunk slot, per section Y, in the order they were set. */
  type Pending<V> = map<ChunkPos, map<i8, seq<V>>>

  /** The sections of a chunk slot, none when the slot has no entry. */
  function SectionsAt<V>(m: Pending<V>, k: ChunkPos): map<i8, seq<V>>
  {
    if k in m then m[k] else map[]
  }

  /** `entry(k).or_default().entry(y).or_default().push(v)`. */
  function PushAt<V>(m: Pending<V>, k: ChunkPos, y: i8, v: V): (r: Pending<V>)
    ensures r.Keys == m.Keys + {k}
    ensures r[k] == PushPending(SectionsAt(m, k), y, v)
    ensures forall j :: j in m && j != k ==> r[j] == m[j]
  {
    m[k := PushPending(SectionsAt(m, k), y, v)]
  }

  // ---- the seen-block index ----

  /**
   * `get_block_index` as written: the stride of z is `end() - start()` of
   * the inclusive height range, one layer short of the number of Y values.
   */
  function RegionBlockIndexAsWritten(h: Height, x: int, y: int, z: int): int
  {
    x + (y - h.start) * BLOCKS_PER_REGION + z * BLOCKS_PER_REGION * (h.Last() - h.start)
  }

  /** `bitset_size` as written: `512 * (end() - start()) * 512`. */
  function RegionBlockBitsetSizeAsWritten(h: Height): int
  {
    BLOCKS_PER_REGION * (h.Last() - h.start) * BLOCKS_PER_REGION
  }

  /**
   * At the default height, the top block of one column and the bottom
   * block of the next z share a seen bit, and the far corner of the region
   * lies past the end of the bitset, so setting it panics.
   */
  lemma RegionBlockIndexAsWrittenFails()
    ensures RegionBlockIndexAsWritten(DEFAULT_WORLD_HEIGHT, 0, 319, 0) == RegionBlockIndexAsWritten(DEFAULT_WORLD_HEIGHT, 0, -64, 1) == 196096
    ensures RegionBlockIndexAsWritten(DEFAULT_WORLD_HEIGHT, 511, 319, 511) == 100401663
    ensures RegionBlockBitsetSizeAsWritten(DEFAULT_WORLD_HEIGHT) == 100401152
  {
  }

  /** The seen-block index with one layer of 512 * 512 per Y value: `x + 512 (y - start) + 512 count z`. */
  function RegionBlockIndex(h: Height, x: int, y: int, z: int): int
  {
    x + (y - h.start) * BLOCKS_PER_REGION + z * BLOCKS_PER_REGION * h.Count()
  }

  /** The seen-block bitset size for every Y value: `512 * count * 512`. */
  function RegionBlockBitsetSize(h: Height): nat
  {
    BLOCKS_PER_REGION * h.Count() * BLOCKS_PER_REGION
  }

  /** A position of the region inside the world height. */
  predicate InRegion(h: Height, x: int, y: int, z: int)
  {
    0 <= x < BLOCKS_PER_REGION && 0 <= z < BLOCKS_PER_REGION && h.start <= y < h.end
  }

  /** Every position of the region has its own seen bit, inside the bitset. */
  lemma RegionBlockIndexInjective(h: Height, x1: int, y1: int, z1: int, x2: int, y2: int, z2: int)
    requires InRegion(h, x1, y1, z1) && InRegion(h, x2, y2, z2)
    ensures 0 <= RegionBlockIndex(h, x1, y1, z1) < RegionBlockBitsetSize(h)
    ensures RegionBlockIndex(h, x1, y1, z1) == RegionBlockIndex(h, x2, y2, z2) <==> x1 == x2 && y1 == y2 && z1 == z2
  {
    var n := h.Count();
    var a := x1 + (y1 - h.start) * 512;
    var b := x2 + (y2 - h.start) * 512;
    MulAssoc(z1, 512, n);
    MulAssoc(z2, 512, n);
    MulAddBound(x1, 512, y1 - h.start, n);
    MulAddBound(a, 512 * n, z1, 512);
    MulAssoc(512, n, 512);
    if RegionBlockIndex(h, x1, y1, z1) == RegionBlockIndex(h, x2, y2, z2) {
      DivModUnique(RegionBlockIndex(h, x1, y1, z1), 512 * n, z1, a);
      DivModUnique(RegionBlockIndex(h, x2, y2, z2), 512 * n, z2, b);
      DivModUnique(a, 512, y1 - h.start, x1);
      DivModUnique(b, 512, y2 - h.start, x2);
    }
  }

  // ---- the seen-biome index ----

  /** The lowest section Y of a world height: `(start() / 16) as i8`, truncating. */
  function LowestSection(h: Height): i8
  {
    WrapI8(TruncDiv(h.start, WIDTH))
  }

  /** How many sections the world height holds: `count() / 16`. */
  function SectionCount(h: Height): nat
  {
    h.Count() / WIDTH
  }

  /**
   * `get_biome_index`: within a section the cell's z, then y, then x (the
   * reverse of the order in the section's biome array), then the section
   * offset from the lowest section (the i8 difference wraps), then the chunk
   * x and the chunk z, each level 64 cells times the levels below it.
   */
  function RegionBiomeIndex(h: Height, c: BiomeCell): int
  {
    var sc := SectionCount(h);
    c.cell.2 + c.cell.1 * 4 + c.cell.0 * 16
      + 64 * WrapI8(c.section - LowestSection(h))
      + 64 * sc * c.chunk.0
      + 64 * sc * REGION_SIZE * c.chunk.1
  }

  /** `get_default_biome_bitset`: `(32 * sections * 32) * 64` bits. */
  function RegionBiomeBitsetSize(h: Height): nat
  {
    (REGION_SIZE * SectionCount(h) * REGION_SIZE) * 64
  }

  /** The cell's section lies inside the world height. */
  predicate InSections(h: Height, c: BiomeCell)
  {
    0 <= c.section - LowestSection(h) < SectionCount(h) && c.section - LowestSection(h) < 0x80
  }

  /** The index as four mixed-radix digits: the cell, the section offset, the chunk x, the chunk z. */
  lemma RegionBiomeIndexDigits(h: Height, c: BiomeCell)
    requires InRange(c) && InSections(h, c)
    ensures var s := c.section - LowestSection(h);
      RegionBiomeIndex(h, c) == (c.cell.2 + c.cell.1 * 4 + c.cell.0 * 16) + 64 * (s + SectionCount(h) * (c.chunk.0 + 32 * c.chunk.1))
  {
    var sc := SectionCount(h);
    var s := c.section - LowestSection(h);
    assert WrapI8(c.section - LowestSection(h)) == s;
    Distrib(sc, c.chunk.0, 32 * c.chunk.1);
    MulAssoc(sc, 32, c.chunk.1);
    Distrib(64, s, sc * (c.chunk.0 + 32 * c.chunk.1));
    Distrib(64, sc * c.chunk.0, sc * 32 * c.chunk.1);
    MulAssoc(64, sc, c.chunk.0);
    MulAssoc(64, sc * 32, c.chunk.1);
    MulAssoc(64, sc, 32);
  }

  /** Four digits of radix 64, `sc`, 32 and 32 are one number below `64 * sc * 1024`, and determine the digits. */
  lemma MixedRadix(sc: int, a1: int, s1: int, x1: int, z1: int, a2: int, s2: int, x2: int, z2: int)
    requires 0 <= a1 < 64 && 0 <= s1 < sc && 0 <= x1 < 32 && 0 <= z1 < 32
    requires 0 <= a2 < 64 && 0 <= s2 < sc && 0 <= x2 < 32 && 0 <= z2 < 32
    ensures 0 <= a1 + 64 * (s1 + sc * (x1 + 32 * z1)) < 64 * (sc * 1024)
    ensures a1 + 64 * (s1 + sc * (x1 + 32 * z1)) == a2 + 64 * (s2 + sc * (x2 + 32 * z2)) ==>
              a1 == a2 && s1 == s2 && x1 == x2 && z1 == z2
  {
    var u1, u2 := x1 + 32 * z1, x2 + 32 * z2;
    var v1, v2 := s1 + sc * u1, s2 + sc * u2;
    MulAddBound(s1, sc, u1, 1024);
    MulAddBound(s2, sc, u2, 1024);
    MulAddBound(a1, 64, v1, sc * 1024);
    if a1 + 64 * v1 == a2 + 64 * v2 {
      DivModUnique(a1 + 64 * v1, 64, v1, a1);
      DivModUnique(a2 + 64 * v2, 64, v2, a2);
      DivModUnique(v1, sc, u1, s1);
      DivModUnique(v2, sc, u2, s2);
    }
  }

  /** Every in-range cell of the world height has its own seen bit, inside the bitset. */
  lemma RegionBiomeIndexInjective(h: Height, c1: BiomeCell, c2: BiomeCell)
    requires InRange(c1) && InSections(h, c1) && InRange(c2) && InSections(h, c2)
    ensures 0 <= RegionBiomeIndex(h, c1) < RegionBiomeBitsetSize(h)
    ensures RegionBiomeIndex(h, c1) == RegionBiomeIndex(h, c2) <==> c1 == c2
  {
    var sc := SectionCount(h);
    RegionBiomeIndexDigits(h, c1);
    RegionBiomeIndexDigits(h, c2);
    var a1, a2 := CellDigit(c1.cell), CellDigit(c2.cell);
    CellDigitInjective(c1.cell, c2.cell);
    MixedRadix(sc, a1, c1.section - LowestSection(h), c1.chunk.0, c1.chunk.1,
               a2, c2.section - LowestSection(h), c2.chunk.0, c2.chunk.1);
    MulAssoc(64, sc, 1024);
    assert RegionBiomeBitsetSize(h) == 64 * (sc * 1024);
  }

  /** The cell's digit within a section: z, then y, then x, radix 4. */
  function CellDigit(cell: (u8, u8, u8)): int
  {
    cell.2 + cell.1 * 4 + cell.0 * 16
  }

  lemma CellDigitInjective(p: (u8, u8, u8), q: (u8, u8, u8))
    requires p.0 < 4 && p.1 < 4 && p.2 < 4 && q.0 < 4 && q.1 < 4 && q.2 < 4
    ensures 0 <= CellDigit(p) < 64 && 0 <= CellDigit(q) < 64
    ensures CellDigit(p) == CellDigit(q) ==> p == q
  {
    if CellDigit(p) == CellDigit(q) {
      DivModUnique(CellDigit(p), 4, p.1 + 4 * p.0, p.2);
      DivModUnique(CellDigit(q), 4, q.1 + 4 * q.0, q.2);
      DivModUnique(p.1 + 4 * p.0, 4, p.0, p.1);
      DivModUnique(q.1 + 4 * q.0, 4, q.0, q.1);
    }
  }

  // ---- the buffers ----

  /** The four buffer fields of the region. */
  datatype Buffers = Buffers(pendingBlocks: Pending<BlockWithCoordinate>, seenBlocks: BitSet,
                             pendingBiomes: Pending<BiomeCellWithId>, seenBiomes: BitSet)

  /** Both bitsets are well formed. */
  predicate ValidBuffers(b: Buffers)
  {
    b.seenBlocks.Valid() && b.seenBiomes.Valid()
  }

  /** The buffers of a new region: nothing pending, and bitsets sized for the world height. */
  function EmptyBuffers(h: Height): (b: Buffers)
    ensures ValidBuffers(b) && b.pendingBlocks == map[] && b.pendingBiomes == map[]
    ensures b.seenBlocks == WithCapacity(RegionBlockBitsetSize(h)) && b.seenBiomes == WithCapacity(RegionBiomeBitsetSize(h))
  {
    Buffers(map[], WithCapacity(RegionBlockBitsetSize(h)), map[], WithCapacity(RegionBiomeBitsetSize(h)))
  }

  /** The chunk slot of region-local x and z: `((x / 16) as u8, (z / 16) as u8)`. */
  function BlockChunk(x: u32, z: u32): (r: ChunkPos)
    ensures x < 512 && z < 512 ==> r.0 as int == x as int / 16 && r.1 as int == z as int / 16 && r.0 < 32 && r.1 < 32
  {
    (TruncU8(x / WIDTH), TruncU8(z / WIDTH))
  }

  /**
   * `set_block`: the first write to a position is queued under its chunk
   * slot and section and gives `Some(())`; a later one gives `None` and
   * changes nothing. The source panics on an index past the end of the
   * bitset; here that index is excluded by the precondition.
   */
  function SetBlockIn(b: Buffers, h: Height, x: u32, y: i32, z: u32, block: Block): (Buffers, Option<()>)
    requires 0 <= RegionBlockIndex(h, x, y, z) < b.seenBlocks.len
  {
    var i := RegionBlockIndex(h, x, y, z);
    if b.seenBlocks.Contains(i) then (b, None)
    else (b.(seenBlocks := b.seenBlocks.Insert(i),
             pendingBlocks := PushAt(b.pendingBlocks, BlockChunk(x, z), SectionOf(y),
                                     BlockWithCoordinate(Coords(x, y, z), block))),
          Some(()))
  }

  /**
   * `set_biome`: the first write to a cell is queued under its chunk and
   * section and gives `Some(())`; a later one gives `None` and changes
   * nothing.
   */
  function SetBiomeIn(b: Buffers, h: Height, c: BiomeCell, biome: string): (Buffers, Option<()>)
    requires 0 <= RegionBiomeIndex(h, c) < b.seenBiomes.len
  {
    var i := RegionBiomeIndex(h, c);
    if b.seenBiomes.Contains(i) then (b, None)
    else (b.(seenBiomes := b.seenBiomes.Insert(i),
             pendingBiomes := PushAt(b.pendingBiomes, c.chunk, c.section, BiomeCellWithId(c, biome))),
          Some(()))
  }

  /**
   * What a first write does: it succeeds exactly when the position was not
   * seen yet; then one more bit is set, the value is the last of its
   * section's list, and every other list and the biome buffers are as
   * they were. A repeated write changes nothing.
   */
  lemma SetBlockOutcome(b: Buffers, h: Height, x: u32, y: i32, z: u32, block: Block)
    requires ValidBuffers(b) && 0 <= RegionBlockIndex(h, x, y, z) < b.seenBlocks.len
    ensures var (n, r) := SetBlockIn(b, h, x, y, z, block);
      var k := BlockChunk(x, z);
      ValidBuffers(n) && n.pendingBiomes == b.pendingBiomes && n.seenBiomes == b.seenBiomes &&
      (r.Some? <==> !b.seenBlocks.Contains(RegionBlockIndex(h, x, y, z))) &&
      (r.None? ==> n == b) &&
      (r.Some? ==>
        n.seenBlocks.Contains(RegionBlockIndex(h, x, y, z)) &&
        n.seenBlocks.CountOnes() == b.seenBlocks.CountOnes() + 1 &&
        n.pendingBlocks.Keys == b.pendingBlocks.Keys + {k} &&
        n.pendingBlocks[k].Keys == SectionsAt(b.pendingBlocks, k).Keys + {SectionOf(y)} &&
        n.pendingBlocks[k][SectionOf(y)] == PendingAt(SectionsAt(b.pendingBlocks, k), SectionOf(y)) + [BlockWithCoordinate(Coords(x, y, z), block)] &&
        (forall s :: s in SectionsAt(b.pendingBlocks, k) && s != SectionOf(y) ==> n.pendingBlocks[k][s] == b.pendingBlocks[k][s]) &&
        (forall j :: j in b.pendingBlocks && j != k ==> n.pendingBlocks[j] == b.pendingBlocks[j]))
  {
    InsertCount(b.seenBlocks, RegionBlockIndex(h, x, y, z));
  }

  /** Setting a block twice at one position: the second write gives `None` and keeps the first. */
  lemma SetBlockTwice(b: Buffers, h: Height, x: u32, y: i32, z: u32, first: Block, second: Block)
    requires 0 <= RegionBlockIndex(h, x, y, z) < b.seenBlocks.len
    ensures var n := SetBlockIn(b, h, x, y, z, first).0;
      n.seenBlocks.len == b.seenBlocks.len && SetBlockIn(n, h, x, y, z, second) == (n, None)
  {
  }

  /** A write at one position of the region leaves whether any other position is seen as it was. */
  lemma SetBlockKeepsOthers(b: Buffers, h: Height, x: u32, y: i32, z: u32, block: Block, x2: u32, y2: i32, z2: u32)
    requires InRegion(h, x, y, z) && InRegion(h, x2, y2, z2) && (x, y, z) != (x2, y2, z2)
    requires RegionBlockBitsetSize(h) <= b.seenBlocks.len
    ensures 0 <= RegionBlockIndex(h, x, y, z) < b.seenBlocks.len
    ensures SetBlockIn(b, h, x, y, z, block).0.seenBlocks.Contains(RegionBlockIndex(h, x2, y2, z2)) ==
            b.seenBlocks.Contains(RegionBlockIndex(h, x2, y2, z2))
  {
    RegionBlockIndexInjective(h, x, y, z, x2, y2, z2);
  }

  /** `set_biome`'s outcome, as `SetBlockOutcome` states it for blocks. */
  lemma SetBiomeOutcome(b: Buffers, h: Height, c: BiomeCell, biome: string)
    requires ValidBuffers(b) && 0 <= RegionBiomeIndex(h, c) < b.seenBiomes.len
    ensures var (n, r) := SetBiomeIn(b, h, c, biome);
      ValidBuffers(n) && n.pendingBlocks == b.pendingBlocks && n.seenBlocks == b.seenBlocks &&
      (r.Some? <==> !b.seenBiomes.Contains(RegionBiomeIndex(h, c))) &&
      (r.None? ==> n == b) &&
      (r.Some? ==>
        n.seenBiomes.Contains(RegionBiomeIndex(h, c)) &&
        n.seenBiomes.CountOnes() == b.seenBiomes.CountOnes() + 1 &&
        n.pendingBiomes.Keys == b.pendingBiomes.Keys + {c.chunk} &&
        n.pendingBiomes[c.chunk].Keys == SectionsAt(b.pendingBiomes, c.chunk).Keys + {c.section} &&
        n.pendingBiomes[c.chunk][c.section] == PendingAt(SectionsAt(b.pendingBiomes, c.chunk), c.section) + [BiomeCellWithId(c, biome)] &&
        (forall s :: s in SectionsAt(b.pendingBiomes, c.chunk) && s != c.section ==> n.pendingBiomes[c.chunk][s] == b.pendingBiomes[c.chunk][s]) &&
        (forall j :: j in b.pendingBiomes && j != c.chunk ==> n.pendingBiomes[j] == b.pendingBiomes[j]))
  {
    InsertCount(b.seenBiomes, RegionBiomeIndex(h, c));
  }

  /** Setting a biome twice in one cell: the second write gives `None` and keeps the first. */
  lemma SetBiomeTwice(b: Buffers, h: Height, c: BiomeCell, first: string, second: string)
    requires 0 <= RegionBiomeIndex(h, c) < b.seenBiomes.len
    ensures var n := SetBiomeIn(b, h, c, first).0;
      n.seenBiomes.len == b.seenBiomes.len && SetBiomeIn(n, h, c, second) == (n, None)
  {
  }

  /** A write to one cell leaves whether any other cell of the world height is seen as it was. */
  lemma SetBiomeKeepsOthers(b: Buffers, h: Height, c: BiomeCell, biome: string, c2: BiomeCell)
    requires InRange(c) && InSections(h, c) && InRange(c2) && InSections(h, c2) && c != c2
    requires RegionBiomeBitsetSize(h) <= b.seenBiomes.len
    ensures 0 <= RegionBiomeIndex(h, c) < b.seenBiomes.len
    ensures SetBiomeIn(b, h, c, biome).0.seenBiomes.Contains(RegionBiomeIndex(h, c2)) ==
            b.seenBiomes.Contains(RegionBiomeIndex(h, c2))
  {
    RegionBiomeIndexInjective(h, c, c2);
  }

  /** `pre_set_block`: on a new region one write gives one chunk slot pending and one bit set. */
  lemma PreSetBlock(block: Block)
    ensures var h := DEFAULT_WORLD_HEIGHT;
      var (n, r) := SetBlockIn(EmptyBuffers(h), h, 1, 2, 3, block);
      r == Some(()) && |n.pendingBlocks| == 1 && n.seenBlocks.CountOnes() == 1
  {
    var h := DEFAULT_WORLD_HEIGHT;
    RegionBlockIndexInjective(h, 1, 2, 3, 1, 2, 3);
    SetBlockOutcome(EmptyBuffers(h), h, 1, 2, 3, block);
    assert SetBlockIn(EmptyBuffers(h), h, 1, 2, 3, block).0.pendingBlocks.Keys == {BlockChunk(1, 3)};
  }

  /** `set_duplicate_block`: a second write at the same position gives `None` and leaves both counts at one. */
  lemma SetDuplicateBlock(first: Block, second: Block)
    ensures var h := DEFAULT_WORLD_HEIGHT;
      var n := SetBlockIn(EmptyBuffers(h), h, 52, -5, 395, first).0;
      var (m, r) := SetBlockIn(n, h, 52, -5, 395, second);
      r == None && |m.pendingBlocks| == 1 && m.seenBlocks.CountOnes() == 1
  {
    var h := DEFAULT_WORLD_HEIGHT;
    RegionBlockIndexInjective(h, 52, -5, 395, 52, -5, 395);
    SetBlockOutcome(EmptyBuffers(h), h, 52, -5, 395, first);
    assert SetBlockIn(EmptyBuffers(h), h, 52, -5, 395, first).0.pendingBlocks.Keys == {BlockChunk(52, 395)};
  }

  /** `pre_set_biome`, with the cell of (5, 17, 148). */
  lemma PreSetBiome(biome: string)
    ensures var h := DEFAULT_WORLD_HEIGHT;
      var (n, r) := SetBiomeIn(EmptyBuffers(h), h, BiomeCell((0, 9), 1, (1, 0, 1)), biome);
      r == Some(()) && |n.pendingBiomes| == 1 && n.seenBiomes.CountOnes() == 1
  {
    var h := DEFAULT_WORLD_HEIGHT;
    var c := BiomeCell((0, 9), 1, (1, 0, 1));
    assert LowestSection(h) == -4 && SectionCount(h) == 24;
    RegionBiomeIndexInjective(h, c, c);
    SetBiomeOutcome(EmptyBuffers(h), h, c, biome);
    assert SetBiomeIn(EmptyBuffers(h), h, c, biome).0.pendingBiomes.Keys == {c.chunk};
  }

  /** `set_duplicate_biome`, with the cell of (248, -42, 21). */
  lemma SetDuplicateBiome(first: string, second: string)
    ensures var h := DEFAULT_WORLD_HEIGHT;
      var c := BiomeCell((15, 1), -3, (2, 1, 1));
      var n := SetBiomeIn(EmptyBuffers(h), h, c, first).0;
      var (m, r) := SetBiomeIn(n, h, c, second);
      r == None && |m.pendingBiomes| == 1 && m.seenBiomes.CountOnes() == 1
  {
    var h := DEFAULT_WORLD_HEIGHT;
    var c := BiomeCell((15, 1), -3, (2, 1, 1));
    assert LowestSection(h) == -4 && SectionCount(h) == 24;
    RegionBiomeIndexInjective(h, c, c);
    SetBiomeOutcome(EmptyBuffers(h), h, c, first);
    assert SetBiomeIn(EmptyBuffers(h), h, c, first).0.pendingBiomes.Keys == {c.chunk};
  }

  // ---- replacing the buffers ----

  /** `set_internal_block_buffer`: the pending blocks replaced and the seen blocks cleared. */
  function ResetBlocks(b: Buffers, buffer: Pending<BlockWithCoordinate>): (r: Buffers)
  {
    b.(pendingBlocks := buffer, seenBlocks := b.seenBlocks.Clear())
  }

  /**
   * `set_internal_biome_buffer` as written: the pending biomes are
   * replaced, but it is the seen *blocks* that are cleared.
   */
  function ResetBiomesAsWritten(b: Buffers, buffer: Pending<BiomeCellWithId>): (r: Buffers)
  {
    b.(pendingBiomes := buffer, seenBlocks := b.seenBlocks.Clear())
  }

  /** `set_internal_biome_buffer` as evidently intended: the seen biomes cleared with the pending ones. */
  function ResetBiomes(b: Buffers, buffer: Pending<BiomeCellWithId>): (r: Buffers)
  {
    b.(pendingBiomes := buffer, seenBiomes := b.seenBiomes.Clear())
  }

  /** After either reset of its kind, every position can be set again and the other kind is untouched. */
  lemma ResetsForget(b: Buffers, blocks: Pending<BlockWithCoordinate>, biomes: Pending<BiomeCellWithId>, i: int)
    ensures var n := ResetBlocks(b, blocks);
      !n.seenBlocks.Contains(i) && n.seenBlocks.len == b.seenBlocks.len && n.pendingBlocks == blocks &&
      n.pendingBiomes == b.pendingBiomes && n.seenBiomes == b.seenBiomes
    ensures var n := ResetBiomes(b, biomes);
      !n.seenBiomes.Contains(i) && n.seenBiomes.len == b.seenBiomes.len && n.pendingBiomes == biomes &&
      n.pendingBlocks == b.pendingBlocks && n.seenBlocks == b.seenBlocks
  {
  }

  /**
   * The reset as written loses a set biome: a cell set, the biome buffer
   * then replaced by an empty one, and the same cell set again gives
   * `None`, so the cell is neither pending nor settable. (The seen blocks
   * it clears instead are those of blocks still pending.) The intended
   * reset lets the second write through.
   */
  lemma ResetBiomesAsWrittenLosesCell(biome: string)
    ensures var h := DEFAULT_WORLD_HEIGHT;
      var c := BiomeCell((0, 0), 4, (0, 0, 1));
      var n := SetBiomeIn(EmptyBuffers(h), h, c, biome).0;
      var asWritten := ResetBiomesAsWritten(n, map[]);
      var intended := ResetBiomes(n, map[]);
      asWritten.pendingBiomes == map[] && SetBiomeIn(asWritten, h, c, biome).1 == None &&
      SetBiomeIn(intended, h, c, biome).1 == Some(())
  {
    var h := DEFAULT_WORLD_HEIGHT;
    var c := BiomeCell((0, 0), 4, (0, 0, 1));
    assert LowestSection(h) == -4 && SectionCount(h) == 24;
    RegionBiomeIndexInjective(h, c, c);
  }

  // ---- allocating the buffers ----

  /** A Rust range `lo..hi`: empty when `lo >= hi`. */
  predicate InSpan(lo: int, hi: int, v: int)
  {
    lo <= v < hi
  }

  /** One chunk's allocated sections: an empty list for every Y of `ys`. */
  function AllocatedSections<V>(ys: (i8, i8)): (r: map<i8, seq<V>>)
    ensures forall y :: y in r <==> InSpan(ys.0, ys.1, y)
    ensures forall y :: y in r ==> r[y] == []
    decreases ys.1 - ys.0
  {
    if ys.0 >= ys.1 then map[] else AllocatedSections((ys.0 + 1, ys.1))[ys.0 := []]
  }

  /**
   * The buffer `allocate_block_buffer` and `allocate_biome_buffer` build
   * for chunk x in `xs`, chunk z in `zs` and section Y in `ys`: each such
   * slot holds an empty list for every Y; a slot gets an entry only when
   * `ys` is not empty.
   */
  function Allocation<V>(xs: (u8, u8), zs: (u8, u8), ys: (i8, i8)): (r: Pending<V>)
    ensures forall k :: k in r <==> InSpan(xs.0, xs.1, k.0) && InSpan(zs.0, zs.1, k.1) && ys.0 < ys.1
    ensures forall k :: k in r ==> r[k] == AllocatedSections(ys)
  {
    if ys.0 < ys.1 then map x: u8, z: u8 | xs.0 <= x < xs.1 && zs.0 <= z < zs.1 :: (x, z) := AllocatedSections(ys)
    else map[]
  }

  /**
   * The loops of `allocate_*_buffer` as written: every slot of the ranges
   * is given its missing sections in the region's *own* pending map, with
   * what is already pending kept.
   */
  function Grown<V>(m: Pending<V>, a: Pending<V>): (r: Pending<V>)
  {
    map k | k in m.Keys + a.Keys :: if k in a then a[k] + SectionsAt(m, k) else m[k]
  }

  /**
   * `allocate_block_buffer` as written: the loops fill the pending map, and
   * then `set_internal_block_buffer` replaces it with the local buffer,
   * which the loops never touched.
   */
  function AllocateBlocksAsWritten(b: Buffers, xs: (u8, u8), zs: (u8, u8), ys: (i8, i8)): Buffers
  {
    ResetBlocks(b.(pendingBlocks := Grown(b.pendingBlocks, Allocation(xs, zs, ys))), map[])
  }

  /** `allocate_biome_buffer` as written, likewise, with the reset as written. */
  function AllocateBiomesAsWritten(b: Buffers, xs: (u8, u8), zs: (u8, u8), ys: (i8, i8)): Buffers
  {
    ResetBiomesAsWritten(b.(pendingBiomes := Grown(b.pendingBiomes, Allocation(xs, zs, ys))), map[])
  }

  /** `allocate_block_buffer` as evidently intended: the allocation becomes the pending buffer. */
  function AllocateBlocks(b: Buffers, xs: (u8, u8), zs: (u8, u8), ys: (i8, i8)): Buffers
  {
    ResetBlocks(b, Allocation(xs, zs, ys))
  }

  /** `allocate_biome_buffer` as evidently intended, with the intended reset. */
  function AllocateBiomes(b: Buffers, xs: (u8, u8), zs: (u8, u8), ys: (i8, i8)): Buffers
  {
    ResetBiomes(b, Allocation(xs, zs, ys))
  }

  /**
   * The allocation as written is lost whatever the ranges: the pending
   * buffer ends up empty, exactly as `set_internal_*_buffer` with an empty
   * buffer leaves it.
   */
  lemma AllocateAsWrittenDiscards(b: Buffers, xs: (u8, u8), zs: (u8, u8), ys: (i8, i8))
    ensures AllocateBlocksAsWritten(b, xs, zs, ys) == ResetBlocks(b, map[])
    ensures AllocateBiomesAsWritten(b, xs, zs, ys) == ResetBiomesAsWritten(b, map[])
  {
  }

  /** For one chunk and one section the buffer as written is empty, where the intended one holds that chunk. */
  lemma AllocateOneSection(b: Buffers)
    ensures AllocateBlocksAsWritten(b, (0, 1), (0, 1), (0, 1)).pendingBlocks == map[]
    ensures AllocateBlocks(b, (0, 1), (0, 1), (0, 1)).pendingBlocks.Keys == {(0, 0)}
  {
    var a: Pending<BlockWithCoordinate> := Allocation((0, 1), (0, 1), (0, 1));
    assert (0, 0) in a;
    assert forall k :: k in a ==> k == (0, 0);
  }

  /**
   * The intended allocation holds an empty list for every section Y of
   * every chunk slot in the ranges, nothing else, and clears the seen bits.
   */
  lemma AllocateBlocksShape(b: Buffers, xs: (u8, u8), zs: (u8, u8), ys: (i8, i8), k: ChunkPos, y: i8)
    ensures var n := AllocateBlocks(b, xs, zs, ys);
      n.seenBlocks.ones == {} && n.seenBlocks.len == b.seenBlocks.len &&
      ((k in n.pendingBlocks && y in n.pendingBlocks[k]) <==>
         InSpan(xs.0, xs.1, k.0) && InSpan(zs.0, zs.1, k.1) && InSpan(ys.0, ys.1, y)) &&
      (k in n.pendingBlocks && y in n.pendingBlocks[k] ==> n.pendingBlocks[k][y] == [])
  {
  }
}
