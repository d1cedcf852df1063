/**
 * The region of `set.rs` and `biome.rs`: chunk compounds by slot, and the
 * region-level edit buffers of `RegionBuffers`, which `set_block` and
 * `set_biome` fill and `write_biomes` flushes into the chunks.
 */
module BufferedRegions {
  import opened Ints
  import opened Errors
  import opened Nbt
  import opened FixedBits
  import opened RegionRules
  import opened BiomeCells
  import opened ChunkWrite
  import opened RegionBuffers
  import Regions
  import BiomeReads

  // ---- allocation loops ----

  /** The innermost loop of `allocate_*_buffer`: an empty list for every section Y of the range. */
  method AllocateSectionsIn<V>(ys: (i8, i8)) returns (m: map<i8, seq<V>>)
    ensures m == AllocatedSections(ys)
  {
    m := map[];
    var y: int := ys.0;
    while y < ys.1
      invariant ys.0 <= y && (y <= ys.1 || y == ys.0)
      invariant forall v :: v in m <==> InSpan(ys.0, y, v)
      invariant forall v :: v in m ==> m[v] == []
      decreases ys.1 - y
    {
      m := m[y := []];
      y := y + 1;
    }
  }

  /**
   * The loops of `allocate_*_buffer` over the local buffer: for each chunk
   * x, each chunk z and each section Y of the ranges, the slot's entry and
   * its section's empty list, created when missing.
   */
  method AllocationIn<V>(xs: (u8, u8), zs: (u8, u8), ys: (i8, i8)) returns (buf: Pending<V>)
    ensures buf == Allocation(xs, zs, ys)
  {
    buf := map[];
    var sections: map<i8, seq<V>> := AllocateSectionsIn(ys);
    var x: int := xs.0;
    while x < xs.1
      invariant xs.0 <= x && (x <= xs.1 || x == xs.0)
      invariant forall k :: k in buf <==> InSpan(xs.0, x, k.0) && InSpan(zs.0, zs.1, k.1) && ys.0 < ys.1
      invariant forall k :: k in buf ==> buf[k] == sections
      decreases xs.1 - x
    {
      var z: int := zs.0;
      while z < zs.1
        invariant zs.0 <= z && (z <= zs.1 || z == zs.0)
        invariant forall k :: k in buf <==>
          ((InSpan(xs.0, x, k.0) && InSpan(zs.0, zs.1, k.1)) || (k.0 == x && InSpan(zs.0, z, k.1))) && ys.0 < ys.1
        invariant forall k :: k in buf ==> buf[k] == sections
        decreases zs.1 - z
      {
        if ys.0 < ys.1 {
          buf := buf[(x, z) := sections];
        }
        z := z + 1;
      }
      x := x + 1;
    }
  }

  // ---- write_biomes ----

  /**
   * The chunk a biome flush works on: the slot's own, or the chunk
   * `emptyChunk` creates for a missing slot.
   */
  function LentNbt(chunks: map<ChunkPos, Compound>, k: ChunkPos, emptyChunk: ChunkPos -> Compound): Compound
  {
    if k in chunks then chunks[k] else emptyChunk(k)
  }

  /** A slot the flush can work on: it holds a chunk, or missing chunks are created. */
  predicate Reachable(chunks: map<ChunkPos, Compound>, k: ChunkPos, create: bool)
  {
    k in chunks || create
  }

  /** How the flush of one chunk slot ends. */
  datatype Flush = Missing | Wrote(nbt: Compound) | Failed(error: Error) | Panicked

  /**
   * The flush of slot `k`: a slot that cannot be reached is missing;
   * otherwise the lent chunk is written with the slot's pending biomes.
   */
  function FlushOf(reached: bool, lent: Compound, k: ChunkPos, pending: map<i8, seq<BiomeCellWithId>>): Flush
  {
    if !reached then Missing
    else match WriteChunkBiomes(lent, Regions.SlotPos(k), pending)
      case Panics => Panicked
      case Done(Err(e)) => Failed(e)
      case Done(Ok(out)) => Wrote(out.nbt)
  }

  /** The flush of slot `k` of a region. */
  function FlushAt(chunks: map<ChunkPos, Compound>, pending: Pending<BiomeCellWithId>, emptyChunk: ChunkPos -> Compound,
                   create: bool, k: ChunkPos): Flush
    requires k in pending
  {
    FlushOf(Reachable(chunks, k, create), LentNbt(chunks, k, emptyChunk), k, pending[k])
  }

  /** The chunk a slot holds after its flush: the written one, or the lent one when the flush did not write. */
  function Written(f: Flush, lent: Compound): Compound
  {
    if f.Wrote? then f.nbt else lent
  }

  /** What `write_biomes` writes into each pending chunk slot. */
  function BiomeWrites(chunks: map<ChunkPos, Compound>, pending: Pending<BiomeCellWithId>, emptyChunk: ChunkPos -> Compound,
                       create: bool): (t: map<ChunkPos, Compound>)
    ensures t.Keys == pending.Keys
  {
    map k | k in pending :: Written(FlushAt(chunks, pending, emptyChunk, create, k), LentNbt(chunks, k, emptyChunk))
  }

  /** `s` with the slots of `done` taken from `t`, including slots `s` lacks. */
  function Merged<V>(s: map<ChunkPos, V>, t: map<ChunkPos, V>, done: set<ChunkPos>): (r: map<ChunkPos, V>)
    requires done <= t.Keys
    ensures r.Keys == s.Keys + done
  {
    map k | k in s.Keys + done :: if k in done then t[k] else s[k]
  }

  /** Taking one more slot of `t`. */
  lemma MergedStep<V>(s: map<ChunkPos, V>, t: map<ChunkPos, V>, done: set<ChunkPos>, k: ChunkPos)
    requires done <= t.Keys && k in t
    ensures Merged(s, t, done)[k := t[k]] == Merged(s, t, done + {k})
  {
  }

  /** What the write of a lent chunk needs: the cells in their sections and no panic. */
  predicate FlushableNbt(lent: Compound, k: ChunkPos, pending: map<i8, seq<BiomeCellWithId>>)
  {
    BiomesInSections(pending) && WriteChunkBiomes(lent, Regions.SlotPos(k), pending).Done?
  }

  /** The pending slots whose flush writes. */
  function WritingSlots(chunks: map<ChunkPos, Compound>, pending: Pending<BiomeCellWithId>, emptyChunk: ChunkPos -> Compound,
                        create: bool): set<ChunkPos>
  {
    set k | k in pending && FlushAt(chunks, pending, emptyChunk, create, k).Wrote?
  }

  /** A flush of slot `k` that did not write, and the error it ends with: the missing chunk, or the write's own error. */
  predicate FlushFailed(f: Flush, k: ChunkPos, e: Error)
  {
    (f == Missing && e == TriedToModifyMissingChunk(k.0, k.1)) || f == Failed(e)
  }

  /** Every reachable pending slot is flushable. */
  predicate Flushable(chunks: map<ChunkPos, Compound>, pending: Pending<BiomeCellWithId>, emptyChunk: ChunkPos -> Compound,
                      create: bool)
  {
    forall k :: k in pending && Reachable(chunks, k, create) ==> FlushableNbt(LentNbt(chunks, k, emptyChunk), k, pending[k])
  }

  /**
   * One chunk of `write_biomes`: the slot's chunk, or the chunk
   * `emptyChunk` creates, inserted when missing chunks are created, is
   * written with the slot's pending biomes; a missing chunk is an error
   * otherwise. `f` is the slot's flush.
   */
  method FlushChunkIn(chunks: map<ChunkPos, Compound>, pending: Pending<BiomeCellWithId>, emptyChunk: ChunkPos -> Compound,
                      create: bool, k: ChunkPos, ghost f: Flush) returns (r: Result<()>, out: map<ChunkPos, Compound>)
    requires k in pending
    requires f == FlushOf(Reachable(chunks, k, create), LentNbt(chunks, k, emptyChunk), k, pending[k])
    requires Reachable(chunks, k, create) ==> FlushableNbt(LentNbt(chunks, k, emptyChunk), k, pending[k])
    ensures r.Ok? <==> f.Wrote?
    ensures r.Ok? ==> out == chunks[k := f.nbt]
    ensures r.Err? ==> FlushFailed(f, k, r.error)
  {
    out := chunks;
    var lent := LentNbt(chunks, k, emptyChunk);
    if k !in chunks {
      if !create {
        return Err(TriedToModifyMissingChunk(k.0, k.1)), out;
      }
      out := out[k := lent];
    }
    var w, left := WriteChunkBiomesChecked(lent, Regions.SlotPos(k), pending[k]);
    if w.Err? {
      return Err(w.error), out;
    }
    out := out[k := w.value.nbt];
    return Ok(()), out;
  }

  /**
   * Where the `write_biomes` loop stands once the slots of `done` are
   * flushed: each of them wrote, and `out` is `s` with their written chunks.
   */
  predicate Progress(s: map<ChunkPos, Compound>, pending: Pending<BiomeCellWithId>, emptyChunk: ChunkPos -> Compound,
                     create: bool, done: set<ChunkPos>, out: map<ChunkPos, Compound>)
  {
    done <= WritingSlots(s, pending, emptyChunk, create) && done <= pending.Keys &&
    out == Merged(s, BiomeWrites(s, pending, emptyChunk, create), done)
  }

  /**
   * One pass of the `write_biomes` loop: slot `k`, not yet flushed, is
   * flushed next. On success the loop has one more slot done; otherwise
   * its flush failed.
   */
  method FlushSlotIn(chunks: map<ChunkPos, Compound>, pending: Pending<BiomeCellWithId>, emptyChunk: ChunkPos -> Compound,
                     create: bool, k: ChunkPos, ghost s: map<ChunkPos, Compound>, ghost done: set<ChunkPos>)
    returns (r: Result<()>, out: map<ChunkPos, Compound>)
    requires Flushable(s, pending, emptyChunk, create) && k in pending && k !in done
    requires Progress(s, pending, emptyChunk, create, done, chunks)
    ensures r.Ok? ==> Progress(s, pending, emptyChunk, create, done + {k}, out)
    ensures r.Err? ==> FlushFailed(FlushAt(s, pending, emptyChunk, create, k), k, r.error)
  {
    ghost var t := BiomeWrites(s, pending, emptyChunk, create);
    ghost var f := FlushAt(s, pending, emptyChunk, create, k);
    assert LentNbt(chunks, k, emptyChunk) == LentNbt(s, k, emptyChunk);
    assert Reachable(chunks, k, create) == Reachable(s, k, create);
    r, out := FlushChunkIn(chunks, pending, emptyChunk, create, k, f);
    if r.Ok? {
      assert t[k] == f.nbt;
      MergedStep(s, t, done, k);
    }
  }

  /**
   * The loop of `write_biomes`: every pending slot is flushed, one at a
   * time in an order of the map's choosing, until one fails. On success
   * every flush wrote and the chunks are `BiomeWrites` merged in; otherwise
   * `failed` is the slot whose flush failed.
   */
  method FlushAllIn(chunks: map<ChunkPos, Compound>, pending: Pending<BiomeCellWithId>, emptyChunk: ChunkPos -> Compound,
                    create: bool) returns (r: Result<()>, out: map<ChunkPos, Compound>, ghost failed: ChunkPos)
    requires Flushable(chunks, pending, emptyChunk, create)
    ensures r.Ok? ==>
      pending.Keys <= WritingSlots(chunks, pending, emptyChunk, create) &&
      out == Merged(chunks, BiomeWrites(chunks, pending, emptyChunk, create), pending.Keys)
    ensures r.Err? ==> failed in pending && FlushFailed(FlushAt(chunks, pending, emptyChunk, create, failed), failed, r.error)
  {
    ghost var done: set<ChunkPos> := {};
    out := chunks;
    var todo := pending.Keys;
    failed := (0, 0);
    while todo != {}
      invariant done + todo == pending.Keys && done !! todo
      invariant Progress(chunks, pending, emptyChunk, create, done, out)
      decreases todo
    {
      var k :| k in todo;
      r, out := FlushSlotIn(out, pending, emptyChunk, create, k, chunks, done);
      if r.Err? {
        return r, out, k;
      }
      done := done + {k};
      todo := todo - {k};
    }
    assert done == pending.Keys;
    return Ok(()), out, failed;
  }

  class BufferedRegion {
    var chunks: map<ChunkPos, Compound>
    var regionCoords: (i32, i32)
    var config: Config
    var pendingBlocks: Pending<BlockWithCoordinate>
    var seenBlocks: BitSet
    var pendingBiomes: Pending<BiomeCellWithId>
    var seenBiomes: BitSet

    /** The four buffer fields as one value. */
    function Buffers(): RegionBuffers.Buffers
      reads this`pendingBlocks, this`seenBlocks, this`pendingBiomes, this`seenBiomes
    {
      RegionBuffers.Buffers(pendingBlocks, seenBlocks, pendingBiomes, seenBiomes)
    }

    /** Both bitsets are well formed. */
    predicate Valid()
      reads this`seenBlocks, this`seenBiomes
    {
      seenBlocks.Valid() && seenBiomes.Valid()
    }

    /** `Region::full_empty`: an empty chunk in every grid slot, the default configuration and empty buffers. */
    constructor FullEmpty(rc: (i32, i32))
      requires Regions.CoordsFit(rc)
      ensures Valid() && chunks == Regions.FullEmptyNbt(rc) && regionCoords == rc && config == DEFAULT_CONFIG
      ensures Buffers() == EmptyBuffers(DEFAULT_WORLD_HEIGHT)
    {
      chunks := Regions.FullEmptyNbt(rc);
      regionCoords := rc;
      config := DEFAULT_CONFIG;
      pendingBlocks := map[];
      seenBlocks := WithCapacity(RegionBlockBitsetSize(DEFAULT_WORLD_HEIGHT));
      pendingBiomes := map[];
      seenBiomes := WithCapacity(RegionBiomeBitsetSize(DEFAULT_WORLD_HEIGHT));
    }

    /**
     * `set_block`: the first write to a position is queued and gives
     * `Some(())`, a later one gives `None` (see `SetBlockIn`); nothing but
     * the block buffers changes.
     */
    method SetBlock(x: u32, y: i32, z: u32, block: Block) returns (r: Option<()>)
      requires Valid() && 0 <= RegionBlockIndex(config.worldHeight, x, y, z) < seenBlocks.len
      modifies this`pendingBlocks, this`seenBlocks
      ensures Valid() && (Buffers(), r) == SetBlockIn(old(Buffers()), config.worldHeight, x, y, z, block)
    {
      var index := RegionBlockIndex(config.worldHeight, x, y, z);
      if !seenBlocks.Contains(index) {
        seenBlocks := seenBlocks.Insert(index);
        pendingBlocks := PushAt(pendingBlocks, BlockChunk(x, z), Chunk.SectionOf(y), BlockWithCoordinate(LocalCoords.Coords(x, y, z), block));
        return Some(());
      }
      return None;
    }

    /** `set_biome`: as `SetBiomeIn` states; nothing but the biome buffers changes. */
    method SetBiome(cell: BiomeCell, biome: string) returns (r: Option<()>)
      requires Valid() && 0 <= RegionBiomeIndex(config.worldHeight, cell) < seenBiomes.len
      modifies this`pendingBiomes, this`seenBiomes
      ensures Valid() && (Buffers(), r) == SetBiomeIn(old(Buffers()), config.worldHeight, cell, biome)
    {
      var index := RegionBiomeIndex(config.worldHeight, cell);
      if !seenBiomes.Contains(index) {
        seenBiomes := seenBiomes.Insert(index);
        pendingBiomes := PushAt(pendingBiomes, cell.chunk, cell.section, BiomeCellWithId(cell, biome));
        return Some(());
      }
      return None;
    }

    /** `set_internal_block_buffer`. */
    method SetInternalBlockBuffer(buffer: Pending<BlockWithCoordinate>)
      requires Valid()
      modifies this`pendingBlocks, this`seenBlocks
      ensures Valid() && Buffers() == ResetBlocks(old(Buffers()), buffer)
    {
      pendingBlocks := buffer;
      seenBlocks := seenBlocks.Clear();
    }

    /** `set_internal_biome_buffer`, clearing the seen biomes as intended. */
    method SetInternalBiomeBuffer(buffer: Pending<BiomeCellWithId>)
      requires Valid()
      modifies this`pendingBiomes, this`seenBiomes
      ensures Valid() && Buffers() == ResetBiomes(old(Buffers()), buffer)
    {
      pendingBiomes := buffer;
      seenBiomes := seenBiomes.Clear();
    }

    /** `allocate_block_buffer`, with the filled buffer becoming the pending one as intended. */
    method AllocateBlockBuffer(xs: (u8, u8), zs: (u8, u8), ys: (i8, i8))
      requires Valid()
      modifies this`pendingBlocks, this`seenBlocks
      ensures Valid() && Buffers() == AllocateBlocks(old(Buffers()), xs, zs, ys)
    {
      var buffer := AllocationIn(xs, zs, ys);
      SetInternalBlockBuffer(buffer);
    }

    /** `allocate_biome_buffer`, likewise. */
    method AllocateBiomeBuffer(xs: (u8, u8), zs: (u8, u8), ys: (i8, i8))
      requires Valid()
      modifies this`pendingBiomes, this`seenBiomes
      ensures Valid() && Buffers() == AllocateBiomes(old(Buffers()), xs, zs, ys)
    {
      var buffer := AllocationIn(xs, zs, ys);
      SetInternalBiomeBuffer(buffer);
    }

    /** `get_biomes`: the cells grouped by chunk, the groups read in the order the map yields them. */
    method GetBiomes(cells: seq<BiomeCell>) returns (r: Result<seq<BiomeCellWithId>>, ghost groups: seq<BiomeReads.ChunkGroup>)
      ensures BiomeReads.Lists(groups, BiomeReads.GroupedCells(cells))
      ensures r == BiomeReads.ReadCellGroups(chunks, groups)
    {
      r, groups := BiomeReads.GetBiomesIn(chunks, cells);
    }

    /** `get_biome`, with a missing section reported as `NoSectionFound`. */
    method GetBiome(cell: BiomeCell) returns (r: Result<string>)
      ensures r == BiomeReads.BiomeAt(chunks, cell)
    {
      r := BiomeReads.GetBiomeIn(chunks, cell);
    }

    /**
     * `write_biomes`: the seen biomes are cleared first; then every pending
     * chunk slot is flushed (`FlushAllIn`), a missing slot getting the chunk
     * `emptyChunk` creates when the configuration allows it. On success
     * every flush wrote, every pending slot holds its written chunk, every
     * other chunk is as it was, and the pending biomes are cleared;
     * otherwise `failed` names the first slot whose flush did not write,
     * and the error is its missing chunk or its write's error.
     */
    method WriteBiomes(emptyChunk: ChunkPos -> Compound) returns (r: Result<()>, ghost failed: ChunkPos)
      requires Valid() && Flushable(chunks, pendingBiomes, emptyChunk, config.createChunkIfMissing)
      modifies this`chunks, this`seenBiomes, this`pendingBiomes
      ensures Valid() && seenBiomes == old(seenBiomes).Clear()
      ensures r.Ok? ==>
        old(pendingBiomes).Keys <= WritingSlots(old(chunks), old(pendingBiomes), emptyChunk, config.createChunkIfMissing) &&
        chunks == Merged(old(chunks), BiomeWrites(old(chunks), old(pendingBiomes), emptyChunk, config.createChunkIfMissing),
                         old(pendingBiomes).Keys) &&
        pendingBiomes == map[]
      ensures r.Err? ==>
        failed in old(pendingBiomes) &&
        FlushFailed(FlushAt(old(chunks), old(pendingBiomes), emptyChunk, config.createChunkIfMissing, failed), failed, r.error)
    {
      seenBiomes := seenBiomes.Clear();
      var cs;
      r, cs, failed := FlushAllIn(chunks, pendingBiomes, emptyChunk, config.createChunkIfMissing);
      chunks := cs;
      if r.Ok? {
        pendingBiomes := map[];
      }
    }
  }
}
