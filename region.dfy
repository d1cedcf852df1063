/**
 * A region of 32 by 32 chunk slots, each owning a chunk (its NBT and edit
 * buffers, as a `ChunkState` value), with the configuration its edits are
 * flushed under. The slot key is a pair of `u8`; only keys below 32 are
 * reachable through the accessors, though a region built from a map may
 * hold others.
 */
module Regions {
  import opened Ints
  import opened Errors
  import opened Nbt
  import opened FixedBits
  import opened RegionRules
  import opened Chunk
  import SectionWrite
  import opened ChunkWrite
  import opened SectionFill
  import BlockReads

  /** A slot of the 32 * 32 grid. */
  predicate InGrid(k: ChunkPos)
  {
    k.0 < REGION_SIZE && k.1 < REGION_SIZE
  }

  /** The 1024 slots of the grid. */
  function GridKeys(): (s: set<ChunkPos>)
    ensures forall k :: k in s <==> InGrid(k)
  {
    set x: u8, z: u8 | 0 <= x < REGION_SIZE && 0 <= z < REGION_SIZE :: (x, z)
  }

  /** Region coordinates whose chunks' world positions `rc * 32 + slot` all fit an `i32`. */
  predicate CoordsFit(rc: (i32, i32))
  {
    -0x400_0000 <= rc.0 < 0x400_0000 && -0x400_0000 <= rc.1 < 0x400_0000
  }

  /** The chunk `get_chunk_mut` creates in an empty grid slot: `get_empty_chunk` wrapped by `ChunkData::new`. */
  function CreatedChunk(k: ChunkPos, rc: (i32, i32), h: Height): ChunkState
    requires InGrid(k) && CoordsFit(rc)
  {
    NewChunkState(GetEmptyChunk(k, rc, h), h)
  }

  /** The chunks `from_nbt` builds: each compound wrapped by `ChunkData::new` at the default height. */
  function FromNbtStates(m: map<ChunkPos, Compound>): map<ChunkPos, ChunkState>
  {
    map k | k in m :: NewChunkState(m[k], DEFAULT_WORLD_HEIGHT)
  }

  /** The compounds `full_empty` starts from: an empty chunk in every grid slot. */
  function FullEmptyNbt(rc: (i32, i32)): (m: map<ChunkPos, Compound>)
    requires CoordsFit(rc)
    ensures m.Keys == GridKeys()
  {
    map k | k in GridKeys() :: GetEmptyChunk(k, rc, DEFAULT_WORLD_HEIGHT)
  }

  /** Every grid slot holds a chunk whose "Status" is the required one. */
  ghost predicate AllGenerated(s: map<ChunkPos, ChunkState>)
  {
    forall k :: InGrid(k) ==> k in s && StringTag(s[k].nbt, "Status") == Some(REQUIRED_STATUS)
  }

  /** `full_empty` gives a region `is_region_generated` accepts. */
  lemma FullEmptyGenerated(rc: (i32, i32))
    requires CoordsFit(rc)
    ensures FromNbtStates(FullEmptyNbt(rc)).Keys == GridKeys()
    ensures AllGenerated(FromNbtStates(FullEmptyNbt(rc)))
  {
    forall k | InGrid(k)
      ensures StringTag(FullEmptyNbt(rc)[k], "Status") == Some(REQUIRED_STATUS)
    {
      EmptyChunkShape(k, rc, DEFAULT_WORLD_HEIGHT);
    }
  }

  /** A grid slot `set_world_height` has visited once its loops stand at `(x, z)`, in row-major order. */
  predicate Visited(k: ChunkPos, x: int, z: int)
  {
    InGrid(k) && (k.0 < x || (k.0 == x && k.1 < z))
  }

  /**
   * Slots taken from `t` in row-major order, up to `(x, z)`, over the map
   * `s`: the shape of a loop that visits the grid and writes one slot each
   * time round.
   */
  function Overlay<V>(s: map<ChunkPos, V>, t: map<ChunkPos, V>, x: int, z: int): map<ChunkPos, V>
    requires forall k :: InGrid(k) ==> k in t
    requires 0 <= x <= REGION_SIZE && 0 <= z <= REGION_SIZE && (z > 0 ==> x < REGION_SIZE)
    decreases x, z
  {
    if z > 0 then
      var k := (x as u8, (z - 1) as u8);
      Overlay(s, t, x, z - 1)[k := t[k]]
    else if x > 0 then Overlay(s, t, x - 1, REGION_SIZE)
    else s
  }

  /** A slot not yet visited is as it was. */
  lemma {:induction false} OverlayUnvisited<V>(s: map<ChunkPos, V>, t: map<ChunkPos, V>, x: int, z: int, k: ChunkPos)
    requires forall k :: InGrid(k) ==> k in t
    requires 0 <= x <= REGION_SIZE && 0 <= z <= REGION_SIZE && (z > 0 ==> x < REGION_SIZE)
    requires !Visited(k, x, z)
    ensures var r := Overlay(s, t, x, z); (k in r <==> k in s) && (k in s ==> r[k] == s[k])
    decreases x, z
  {
    if z > 0 {
      OverlayUnvisited(s, t, x, z - 1, k);
    } else if x > 0 {
      OverlayUnvisited(s, t, x - 1, REGION_SIZE, k);
    }
  }

  /** A visited slot holds its value from `t`. */
  lemma {:induction false} OverlayVisited<V>(s: map<ChunkPos, V>, t: map<ChunkPos, V>, x: int, z: int, k: ChunkPos)
    requires forall k :: InGrid(k) ==> k in t
    requires 0 <= x <= REGION_SIZE && 0 <= z <= REGION_SIZE && (z > 0 ==> x < REGION_SIZE)
    requires Visited(k, x, z)
    ensures var r := Overlay(s, t, x, z); k in r && r[k] == t[k]
    decreases x, z
  {
    if z > 0 {
      if k != (x as u8, (z - 1) as u8) {
        OverlayVisited(s, t, x, z - 1, k);
      }
    } else {
      OverlayVisited(s, t, x - 1, REGION_SIZE, k);
    }
  }

  /** Visiting the next slot of a row: it is still as in `s`, and writing its value from `t` is one more step. */
  lemma OverlayNext<V>(s: map<ChunkPos, V>, t: map<ChunkPos, V>, x: u8, z: u8)
    requires forall k :: InGrid(k) ==> k in t
    requires x < REGION_SIZE && z < REGION_SIZE
    ensures (x, z) in Overlay(s, t, x, z) <==> (x, z) in s
    ensures (x, z) in s ==> Overlay(s, t, x, z)[(x, z)] == s[(x, z)]
    ensures Overlay(s, t, x, z)[(x, z) := t[(x, z)]] == Overlay(s, t, x, z + 1)
  {
    OverlayUnvisited(s, t, x, z, (x, z));
  }

  /** The whole grid visited: the grid slots hold their values from `t`, everything else is as in `s`. */
  lemma OverlayAll<V>(s: map<ChunkPos, V>, t: map<ChunkPos, V>)
    requires forall k :: InGrid(k) ==> k in t
    ensures var r := Overlay(s, t, REGION_SIZE, 0);
      (forall k :: k in r <==> k in s || InGrid(k)) &&
      (forall k :: k in s && !InGrid(k) ==> r[k] == s[k]) &&
      (forall k :: InGrid(k) ==> r[k] == t[k])
  {
    var r := Overlay(s, t, REGION_SIZE, 0);
    forall k: ChunkPos
      ensures k in r <==> k in s || InGrid(k)
      ensures k in s && !InGrid(k) ==> r[k] == s[k]
      ensures InGrid(k) ==> r[k] == t[k]
    {
      if InGrid(k) {
        OverlayVisited(s, t, REGION_SIZE, 0, k);
      } else {
        OverlayUnvisited(s, t, REGION_SIZE, 0, k);
      }
    }
  }

  /** Finishing a row is starting the next one. */
  lemma OverlayRow<V>(s: map<ChunkPos, V>, t: map<ChunkPos, V>, x: int)
    requires forall k :: InGrid(k) ==> k in t
    requires 0 <= x < REGION_SIZE
    ensures Overlay(s, t, x, REGION_SIZE) == Overlay(s, t, x + 1, 0)
  {
  }

  /** Every slot before `(x, z)`, in row-major order, holds a chunk in `s`. */
  predicate Present<V>(s: map<ChunkPos, V>, x: int, z: int)
    requires 0 <= x <= REGION_SIZE && 0 <= z <= REGION_SIZE && (z > 0 ==> x < REGION_SIZE)
    decreases x, z
  {
    if z > 0 then (x as u8, (z - 1) as u8) in s && Present(s, x, z - 1)
    else if x > 0 then Present(s, x - 1, REGION_SIZE)
    else true
  }

  /** `Present` says what it means: every visited slot is a key of `s`. */
  lemma {:induction false} PresentVisited<V>(s: map<ChunkPos, V>, x: int, z: int, k: ChunkPos)
    requires 0 <= x <= REGION_SIZE && 0 <= z <= REGION_SIZE && (z > 0 ==> x < REGION_SIZE)
    requires Visited(k, x, z)
    ensures Present(s, x, z) ==> k in s
    decreases x, z
  {
    if z > 0 {
      if k != (x as u8, (z - 1) as u8) {
        PresentVisited(s, x, z - 1, k);
      }
    } else {
      PresentVisited(s, x - 1, REGION_SIZE, k);
    }
  }

  /** Finishing a row is starting the next one. */
  lemma PresentRow<V>(s: map<ChunkPos, V>, x: int)
    requires 0 <= x < REGION_SIZE
    ensures Present(s, x, REGION_SIZE) == Present(s, x + 1, 0)
  {
  }

  /** Every slot of the grid present: the grid's keys are all in `s`. */
  lemma PresentAll<V>(s: map<ChunkPos, V>)
    ensures Present(s, REGION_SIZE, 0) ==> GridKeys() <= s.Keys
  {
    forall k | k in GridKeys()
      ensures Present(s, REGION_SIZE, 0) ==> k in s
    {
      PresentVisited(s, REGION_SIZE, 0, k);
    }
  }

  /**
   * What `get_chunk_mut` followed by the buffer reset leaves in slot `k`:
   * the chunk `m` holds there (or a new empty one) with its buffers
   * reset for `count` Y values.
   */
  function ResetChunkAt(m: map<ChunkPos, ChunkState>, k: ChunkPos, rc: (i32, i32), h: Height, count: nat): ChunkState
    requires InGrid(k) && CoordsFit(rc)
  {
    ResetState(if k in m then m[k] else CreatedChunk(k, rc, h), count)
  }

  /** Every grid slot's chunk once `set_world_height` has visited it. */
  function ResetTargets(s: map<ChunkPos, ChunkState>, rc: (i32, i32), h: Height, count: nat): (t: map<ChunkPos, ChunkState>)
    requires CoordsFit(rc)
    ensures forall k :: InGrid(k) ==> k in t
  {
    map k | k in GridKeys() :: ResetChunkAt(s, k, rc, h, count)
  }

  /** The chunks once `set_world_height`'s loops stand at `(x, z)`: every earlier slot visited. */
  function ResetUpTo(s: map<ChunkPos, ChunkState>, rc: (i32, i32), h: Height, count: nat, x: int, z: int)
    : map<ChunkPos, ChunkState>
    requires CoordsFit(rc) && 0 <= x <= REGION_SIZE && 0 <= z <= REGION_SIZE && (z > 0 ==> x < REGION_SIZE)
  {
    Overlay(s, ResetTargets(s, rc, h, count), x, z)
  }

  /** The next visit of a row, as `ResetSlot` performs it, is one more step of the overlay. */
  lemma ResetNext(s: map<ChunkPos, ChunkState>, t: map<ChunkPos, ChunkState>, rc: (i32, i32), h: Height, count: nat,
                  x: u8, z: u8)
    requires CoordsFit(rc) && x < REGION_SIZE && z < REGION_SIZE
    requires t == ResetTargets(s, rc, h, count)
    ensures (x, z) in Overlay(s, t, x, z) <==> (x, z) in s
    ensures var m := Overlay(s, t, x, z);
      m[(x, z) := ResetChunkAt(m, (x, z), rc, h, count)] == Overlay(s, t, x, z + 1)
  {
    OverlayNext(s, t, x, z);
    assert ResetChunkAt(Overlay(s, t, x, z), (x, z), rc, h, count) == t[(x, z)];
  }

  /**
   * After `set_world_height` has visited the whole grid: every grid slot
   * holds its old chunk (or a new empty one, at the old height) with the
   * buffers reset for `count` Y values, and the chunks outside the grid
   * are untouched.
   */
  lemma ResetAllSlots(s: map<ChunkPos, ChunkState>, rc: (i32, i32), h: Height, count: nat)
    requires CoordsFit(rc)
    ensures var r := ResetUpTo(s, rc, h, count, REGION_SIZE, 0);
      (forall k :: k in r <==> k in s || InGrid(k)) &&
      (forall k :: k in s && !InGrid(k) ==> r[k] == s[k]) &&
      (forall k :: InGrid(k) ==> r[k] == ResetState(if k in s then s[k] else CreatedChunk(k, rc, h), count))
  {
    OverlayAll(s, ResetTargets(s, rc, h, count));
  }

  /** A slot of the region's grid. */
  type GridPos = k: ChunkPos | InGrid(k) witness (0, 0)

  /** `e` is the error `get_chunk_mut` gives for a grid slot that `s` leaves empty. */
  predicate MissingSlot(e: Error, s: map<ChunkPos, ChunkState>)
  {
    e.TriedToModifyMissingChunk? && 0 <= e.cx < REGION_SIZE && 0 <= e.cz < REGION_SIZE &&
    (e.cx as u8, e.cz as u8) !in s
  }

  /** `s` with the entries of `t` at the keys in `done`. */
  function Updated<V>(s: map<ChunkPos, V>, t: map<ChunkPos, V>, done: set<ChunkPos>): map<ChunkPos, V>
    requires done <= t.Keys
  {
    map k | k in s :: if k in done then t[k] else s[k]
  }

  /** Taking one more key of `t`. */
  lemma UpdatedStep<V>(s: map<ChunkPos, V>, t: map<ChunkPos, V>, done: set<ChunkPos>, k: ChunkPos)
    requires done <= t.Keys && k in t && k in s
    ensures Updated(s, t, done)[k := t[k]] == Updated(s, t, done + {k})
  {
  }

  /** Every key taken. */
  lemma UpdatedAll<V>(s: map<ChunkPos, V>, t: map<ChunkPos, V>)
    requires s.Keys == t.Keys
    ensures Updated(s, t, s.Keys) == t
  {
  }

  /** Storing a slot's own value back changes nothing. */
  lemma StoreSame<V>(s: map<ChunkPos, V>, k: ChunkPos)
    requires k in s
    ensures s[k := s[k]] == s
  {
  }

  /** A second store to a slot replaces the first. */
  lemma StoreOver<V>(s: map<ChunkPos, V>, k: ChunkPos, a: V, b: V)
    ensures s[k := a][k := b] == s[k := b]
  {
  }

  /** The chunk-local position `ChunkData::write_*` is given: the slot key. */
  function SlotPos(k: ChunkPos): (int, int)
  {
    (k.0 as int, k.1 as int)
  }

  /** The block write of the chunk in slot `k` neither panics nor fails, or the chunk is not block-dirty. */
  predicate BlocksSucceed(s: ChunkState, k: ChunkPos, lighting: bool)
  {
    s.dirtyBlocks ==> ChunkSucceeds(WriteChunkBlocks(s.nbt, SlotPos(k), s.pendingBlocks, lighting, SectionWrite.Exact))
  }

  /**
   * The chunk in slot `k` once `Region::write_blocks` has passed it: a
   * block-dirty chunk takes the NBT and pending map of its successful
   * write, its seen blocks are cleared and it is no longer dirty; any other
   * chunk is left alone.
   */
  function BlocksWritten(s: ChunkState, k: ChunkPos, lighting: bool): ChunkState
  {
    if !s.dirtyBlocks then s
    else match WriteChunkBlocks(s.nbt, SlotPos(k), s.pendingBlocks, lighting, SectionWrite.Exact)
      case Done(Ok(out)) =>
        s.(nbt := out.nbt, pendingBlocks := out.pending, seenBlocks := s.seenBlocks.Clear(), dirtyBlocks := false)
      case _ => s
  }

  /** Every chunk of `m` once `Region::write_blocks` has passed it. */
  function BlockTargets(m: map<ChunkPos, ChunkState>, lighting: bool): (t: map<ChunkPos, ChunkState>)
    ensures t.Keys == m.Keys
  {
    map k | k in m :: BlocksWritten(m[k], k, lighting)
  }

  /** The chunks of `m` whose block write `ChunkData::write_blocks` models: pending blocks in their sections, data tags that are long arrays. */
  predicate BlocksWritable(m: map<ChunkPos, ChunkState>)
  {
    forall k :: k in m && m[k].dirtyBlocks ==> BlocksInSections(m[k].pendingBlocks) && LongDataSections(m[k].nbt)
  }

  /** Every block write in `done` succeeds. */
  predicate AllBlocksSucceed(m: map<ChunkPos, ChunkState>, done: set<ChunkPos>, lighting: bool)
    requires done <= m.Keys
  {
    forall k :: k in done ==> BlocksSucceed(m[k], k, lighting)
  }

  /** The biome write of the chunk in slot `k` neither panics nor fails, or the chunk is not biome-dirty. */
  predicate BiomesSucceed(s: ChunkState, k: ChunkPos)
  {
    s.dirtyBiomes ==> ChunkSucceeds(WriteChunkBiomes(s.nbt, SlotPos(k), s.pendingBiomes))
  }

  /** The chunk in slot `k` once `Region::write_biomes` has passed it, as `BlocksWritten` for biomes. */
  function BiomesWritten(s: ChunkState, k: ChunkPos): ChunkState
  {
    if !s.dirtyBiomes then s
    else match WriteChunkBiomes(s.nbt, SlotPos(k), s.pendingBiomes)
      case Done(Ok(out)) =>
        s.(nbt := out.nbt, pendingBiomes := out.pending, seenBiomes := s.seenBiomes.Clear(), dirtyBiomes := false)
      case _ => s
  }

  /** Every chunk of `m` once `Region::write_biomes` has passed it. */
  function BiomeTargets(m: map<ChunkPos, ChunkState>): (t: map<ChunkPos, ChunkState>)
    ensures t.Keys == m.Keys
  {
    map k | k in m :: BiomesWritten(m[k], k)
  }

  /**
   * The chunks of `m` whose biome write `ChunkData::write_biomes` models:
   * pending cells in their sections and a write that does not panic.
   */
  predicate BiomesWritable(m: map<ChunkPos, ChunkState>)
  {
    forall k :: k in m && m[k].dirtyBiomes ==>
      BiomesInSections(m[k].pendingBiomes) &&
      WriteChunkBiomes(m[k].nbt, SlotPos(k), m[k].pendingBiomes).Done?
  }

  /** Every biome write in `done` succeeds. */
  predicate AllBiomesSucceed(m: map<ChunkPos, ChunkState>, done: set<ChunkPos>)
    requires done <= m.Keys
  {
    forall k :: k in done ==> BiomesSucceed(m[k], k)
  }

  /** The block write of the dirty chunk in slot `k` of `m` fails with `e`. */
  predicate BlocksFail(m: map<ChunkPos, ChunkState>, k: ChunkPos, lighting: bool, e: Error)
  {
    k in m && m[k].dirtyBlocks &&
    WriteChunkBlocks(m[k].nbt, SlotPos(k), m[k].pendingBlocks, lighting, SectionWrite.Exact) == Done(Err(e))
  }

  /** The biome write of the dirty chunk in slot `k` of `m` fails with `e`. */
  predicate BiomesFail(m: map<ChunkPos, ChunkState>, k: ChunkPos, e: Error)
  {
    k in m && m[k].dirtyBiomes && WriteChunkBiomes(m[k].nbt, SlotPos(k), m[k].pendingBiomes) == Done(Err(e))
  }

  /** A write loop over `s` has stored the targets of every slot not in `todo`, each write succeeding. */
  predicate BlocksProgress(s: map<ChunkPos, ChunkState>, t: map<ChunkPos, ChunkState>, todo: set<ChunkPos>,
                           chunks: map<ChunkPos, ChunkState>, lighting: bool)
  {
    todo <= s.Keys && s.Keys == t.Keys && chunks == Updated(s, t, s.Keys - todo) &&
    AllBlocksSucceed(s, s.Keys - todo, lighting)
  }

  lemma BlocksProgressStep(s: map<ChunkPos, ChunkState>, t: map<ChunkPos, ChunkState>, todo: set<ChunkPos>,
                           chunks: map<ChunkPos, ChunkState>, lighting: bool, k: ChunkPos)
    requires BlocksProgress(s, t, todo, chunks, lighting) && k in todo && BlocksSucceed(s[k], k, lighting)
    ensures k in chunks && chunks[k] == s[k]
    ensures BlocksProgress(s, t, todo - {k}, chunks[k := t[k]], lighting)
  {
    UpdatedStep(s, t, s.Keys - todo, k);
    assert s.Keys - (todo - {k}) == (s.Keys - todo) + {k};
  }

  lemma BlocksProgressEnd(s: map<ChunkPos, ChunkState>, t: map<ChunkPos, ChunkState>,
                          chunks: map<ChunkPos, ChunkState>, lighting: bool)
    requires BlocksProgress(s, t, {}, chunks, lighting)
    ensures chunks == t && AllBlocksSucceed(s, s.Keys, lighting)
  {
    assert s.Keys - {} == s.Keys;
    UpdatedAll(s, t);
  }

  /** The same for the biome write loop. */
  predicate BiomesProgress(s: map<ChunkPos, ChunkState>, t: map<ChunkPos, ChunkState>, todo: set<ChunkPos>,
                           chunks: map<ChunkPos, ChunkState>)
  {
    todo <= s.Keys && s.Keys == t.Keys && chunks == Updated(s, t, s.Keys - todo) &&
    AllBiomesSucceed(s, s.Keys - todo)
  }

  lemma BiomesProgressStep(s: map<ChunkPos, ChunkState>, t: map<ChunkPos, ChunkState>, todo: set<ChunkPos>,
                           chunks: map<ChunkPos, ChunkState>, k: ChunkPos)
    requires BiomesProgress(s, t, todo, chunks) && k in todo && BiomesSucceed(s[k], k)
    ensures k in chunks && chunks[k] == s[k]
    ensures BiomesProgress(s, t, todo - {k}, chunks[k := t[k]])
  {
    UpdatedStep(s, t, s.Keys - todo, k);
    assert s.Keys - (todo - {k}) == (s.Keys - todo) + {k};
  }

  lemma BiomesProgressEnd(s: map<ChunkPos, ChunkState>, t: map<ChunkPos, ChunkState>,
                          chunks: map<ChunkPos, ChunkState>)
    requires BiomesProgress(s, t, {}, chunks)
    ensures chunks == t && AllBiomesSucceed(s, s.Keys)
  {
    assert s.Keys - {} == s.Keys;
    UpdatedAll(s, t);
  }

  /**
   * After `Region::write_blocks` has passed a chunk whose write succeeds: a
   * block-dirty chunk is clean, its seen blocks are cleared, exactly the
   * pending entries whose Y no section has are left, and its world height
   * and biome buffers are kept; a clean chunk is unchanged.
   */
  lemma BlocksWrittenChunk(m: map<ChunkPos, ChunkState>, lighting: bool, k: ChunkPos)
    requires k in m && BlocksSucceed(m[k], k, lighting)
    ensures var w := BlockTargets(m, lighting)[k];
      !w.dirtyBlocks && w.worldHeight == m[k].worldHeight &&
      w.pendingBiomes == m[k].pendingBiomes && w.seenBiomes == m[k].seenBiomes && w.dirtyBiomes == m[k].dirtyBiomes
    ensures var w := BlockTargets(m, lighting)[k];
      m[k].dirtyBlocks ==>
        w.seenBlocks.ones == {} && w.seenBlocks.len == m[k].seenBlocks.len &&
        w.pendingBlocks == m[k].pendingBlocks - SectionYs(SectionsOf(m[k].nbt))
    ensures !m[k].dirtyBlocks ==> BlockTargets(m, lighting)[k] == m[k]
  {
    if m[k].dirtyBlocks {
      ChunkBlocksPending(m[k].nbt, SlotPos(k), m[k].pendingBlocks, lighting, SectionWrite.Exact);
    }
  }

  /** A second `write_blocks` after a successful one changes nothing: no chunk is block-dirty any more. */
  lemma WriteBlocksIdempotent(m: map<ChunkPos, ChunkState>, lighting: bool)
    requires AllBlocksSucceed(m, m.Keys, lighting)
    ensures AllBlocksSucceed(BlockTargets(m, lighting), m.Keys, lighting)
    ensures BlockTargets(BlockTargets(m, lighting), lighting) == BlockTargets(m, lighting)
  {
    var w := BlockTargets(m, lighting);
    forall k | k in m
      ensures !w[k].dirtyBlocks
    {
      BlocksWrittenChunk(m, lighting, k);
    }
  }

  /** `BlocksWrittenChunk` for `Region::write_biomes`. */
  lemma BiomesWrittenChunk(m: map<ChunkPos, ChunkState>, k: ChunkPos)
    requires k in m && BiomesSucceed(m[k], k)
    ensures var w := BiomeTargets(m)[k];
      !w.dirtyBiomes && w.worldHeight == m[k].worldHeight &&
      w.pendingBlocks == m[k].pendingBlocks && w.seenBlocks == m[k].seenBlocks && w.dirtyBlocks == m[k].dirtyBlocks
    ensures var w := BiomeTargets(m)[k];
      m[k].dirtyBiomes ==>
        w.seenBiomes.ones == {} && w.seenBiomes.len == m[k].seenBiomes.len &&
        w.pendingBiomes == m[k].pendingBiomes - SectionYs(SectionsOf(m[k].nbt))
    ensures !m[k].dirtyBiomes ==> BiomeTargets(m)[k] == m[k]
  {
    if m[k].dirtyBiomes {
      ChunkBiomesPending(m[k].nbt, SlotPos(k), m[k].pendingBiomes);
    }
  }

  /** A second `write_biomes` after a successful one changes nothing. */
  lemma WriteBiomesIdempotent(m: map<ChunkPos, ChunkState>)
    requires AllBiomesSucceed(m, m.Keys)
    ensures AllBiomesSucceed(BiomeTargets(m), m.Keys)
    ensures BiomeTargets(BiomeTargets(m)) == BiomeTargets(m)
  {
    var w := BiomeTargets(m);
    forall k | k in m
      ensures !w[k].dirtyBiomes
    {
      BiomesWrittenChunk(m, k);
    }
  }

  // ---- set_sections ----

  /** A created chunk's empty sections carry palette lists. */
  lemma CreatedPalettes(k: ChunkPos, rc: (i32, i32), h: Height)
    requires InGrid(k) && CoordsFit(rc)
    ensures PalettesListed(CreatedChunk(k, rc, h).nbt)
  {
    var range := SectionRange(h);
    assert SectionsOf(CreatedChunk(k, rc, h).nbt) == EmptySections(range.0, range.1);
  }

  /** The chunk `get_chunk_mut` lends for slot `k`: the one there, a created one, or the missing-chunk error. */
  function LentChunk(m: map<ChunkPos, ChunkState>, k: ChunkPos, rc: (i32, i32), c: Config): (r: Result<ChunkState>)
    requires InGrid(k) && CoordsFit(rc)
    ensures r.Ok? && k in m ==> r.value == m[k]
    ensures r.Ok? && k !in m ==> PalettesListed(r.value.nbt)
    ensures r.Err? <==> k !in m && !c.createChunkIfMissing
  {
    if k in m then Ok(m[k])
    else if c.createChunkIfMissing then CreatedPalettes(k, rc, c.worldHeight); Ok(CreatedChunk(k, rc, c.worldHeight))
    else Err(TriedToModifyMissingChunk(k.0, k.1))
  }

  /** The section entry `e` fills, in the chunk already at its slot, has its palette list (`set_sections` unwraps it). */
  predicate StepListed(m: map<ChunkPos, ChunkState>, e: (ChunkPos, i8, Block))
  {
    e.0 in m ==> TargetListed(m[e.0].nbt, e.1)
  }

  /** Entries `i` onwards each satisfy `StepListed`. */
  predicate EntriesListed(m: map<ChunkPos, ChunkState>, entries: seq<(ChunkPos, i8, Block)>, i: nat)
  {
    forall j :: i <= j < |entries| ==> StepListed(m, entries[j])
  }

  /** The chunk lent for slot `k` has its palette list in the section the lookup for `y` finds. */
  lemma LentTarget(m: map<ChunkPos, ChunkState>, k: ChunkPos, y: i8, rc: (i32, i32), c: Config)
    requires InGrid(k) && CoordsFit(rc) && LentChunk(m, k, rc, c).Ok? && (k in m ==> TargetListed(m[k].nbt, y))
    ensures TargetListed(LentChunk(m, k, rc, c).value.nbt, y)
  {
    if k !in m {
      ListedTarget(LentChunk(m, k, rc, c).value.nbt, y);
    }
  }

  /** All entries of a `set_sections` call name grid slots (the call asserts it). */
  predicate AllInGrid(entries: seq<(ChunkPos, i8, Block)>)
  {
    forall i :: 0 <= i < |entries| ==> InGrid(entries[i].0)
  }

  /**
   * One entry of `set_sections`: the slot's chunk is lent (created when
   * missing and the configuration allows it) and the section with Y `e.1`
   * of its NBT filled with `e.2`; only that chunk's NBT changes.
   */
  function SetSectionStep(m: map<ChunkPos, ChunkState>, e: (ChunkPos, i8, Block), rc: (i32, i32), c: Config)
    : (r: Result<map<ChunkPos, ChunkState>>)
    requires InGrid(e.0) && CoordsFit(rc) && StepListed(m, e)
  {
    match LentChunk(m, e.0, rc, c)
    case Err(err) => Err(err)
    case Ok(chunk) =>
      LentTarget(m, e.0, e.1, rc, c);
      match SetSectionIn(chunk.nbt, SlotPos(e.0), e.1, e.2, c.updateLighting)
      case Err(err) => Err(err)
      case Ok(out) => Ok(m[e.0 := chunk.(nbt := out)])
  }

  /** A store adds its slot and keeps every other one. */
  lemma StoreKeeps<V>(m: map<ChunkPos, V>, k: ChunkPos, v: V)
    ensures m[k := v].Keys == m.Keys + {k} && m[k := v][k] == v
    ensures forall j :: j in m && j != k ==> m[k := v][j] == m[j]
  {
  }

  /**
   * A successful entry stores the filled NBT in the lent chunk, leaving its
   * buffers and every other chunk alone.
   */
  lemma SetSectionStepShape(m: map<ChunkPos, ChunkState>, e: (ChunkPos, i8, Block), rc: (i32, i32), c: Config)
    requires InGrid(e.0) && CoordsFit(rc) && StepListed(m, e) && SetSectionStep(m, e, rc, c).Ok?
    ensures LentChunk(m, e.0, rc, c).Ok? && TargetListed(LentChunk(m, e.0, rc, c).value.nbt, e.1)
    ensures var chunk := LentChunk(m, e.0, rc, c).value;
      LentChunk(m, e.0, rc, c).Ok? &&
      SetSectionIn(chunk.nbt, SlotPos(e.0), e.1, e.2, c.updateLighting).Ok? &&
      SetSectionStep(m, e, rc, c).value ==
        m[e.0 := chunk.(nbt := SetSectionIn(chunk.nbt, SlotPos(e.0), e.1, e.2, c.updateLighting).value)]
  {
    LentTarget(m, e.0, e.1, rc, c);
  }

  /** A successful entry adds its slot to the chunks. */
  lemma SetSectionStepKeys(m: map<ChunkPos, ChunkState>, e: (ChunkPos, i8, Block), rc: (i32, i32), c: Config)
    requires InGrid(e.0) && CoordsFit(rc) && StepListed(m, e) && SetSectionStep(m, e, rc, c).Ok?
    ensures SetSectionStep(m, e, rc, c).value.Keys == m.Keys + {e.0}
  {
    SetSectionStepShape(m, e, rc, c);
    var next := SetSectionStep(m, e, rc, c).value;
    StoreKeeps(m, e.0, next[e.0]);
  }

  /**
   * A successful entry keeps `StepListed` for every later entry: a chunk
   * other than the lent one is unchanged, and the lent one had the later
   * entry's target listed (from the chunks before, or created with every
   * palette listed) and a fill keeps that.
   */
  lemma StepKeepsListed(m: map<ChunkPos, ChunkState>, entries: seq<(ChunkPos, i8, Block)>, i: nat,
                        rc: (i32, i32), c: Config)
    requires i < |entries| && AllInGrid(entries) && CoordsFit(rc) && EntriesListed(m, entries, i)
    requires SetSectionStep(m, entries[i], rc, c).Ok?
    ensures EntriesListed(SetSectionStep(m, entries[i], rc, c).value, entries, i + 1)
  {
    var e := entries[i];
    var next := SetSectionStep(m, e, rc, c).value;
    SetSectionStepShape(m, e, rc, c);
    var chunk := LentChunk(m, e.0, rc, c).value;
    forall j | i + 1 <= j < |entries|
      ensures StepListed(next, entries[j])
    {
      var f := entries[j];
      if f.0 == e.0 {
        assert StepListed(m, f);
        LentTarget(m, e.0, f.1, rc, c);
        SetSectionKeepsTarget(chunk.nbt, SlotPos(e.0), e.1, e.2, c.updateLighting, f.1);
      } else if f.0 in next {
        assert StepListed(m, f);
      }
    }
  }

  /** `set_sections` from entry `i` on, one entry at a time, stopping at the first error. */
  function SetSectionsFrom(m: map<ChunkPos, ChunkState>, entries: seq<(ChunkPos, i8, Block)>, i: nat,
                           rc: (i32, i32), c: Config): Result<map<ChunkPos, ChunkState>>
    requires i <= |entries| && AllInGrid(entries) && CoordsFit(rc) && EntriesListed(m, entries, i)
    decreases |entries| - i
  {
    if i == |entries| then Ok(m)
    else match SetSectionStep(m, entries[i], rc, c)
      case Err(e) => Err(e)
      case Ok(next) =>
        StepKeepsListed(m, entries, i, rc, c);
        SetSectionsFrom(next, entries, i + 1, rc, c)
  }

  /** The grid slots entries `i` onwards name. */
  function EntrySlots(entries: seq<(ChunkPos, i8, Block)>, i: nat): set<ChunkPos>
    requires i <= |entries|
    decreases |entries| - i
  {
    if i == |entries| then {} else {entries[i].0} + EntrySlots(entries, i + 1)
  }

  /**
   * A successful `set_sections` leaves exactly the chunks there were plus
   * those created for the entries' slots.
   */
  lemma {:induction false} SetSectionsChunks(m: map<ChunkPos, ChunkState>, entries: seq<(ChunkPos, i8, Block)>, i: nat,
                                             rc: (i32, i32), c: Config)
    requires i <= |entries| && AllInGrid(entries) && CoordsFit(rc) && EntriesListed(m, entries, i)
    requires SetSectionsFrom(m, entries, i, rc, c).Ok?
    ensures SetSectionsFrom(m, entries, i, rc, c).value.Keys == m.Keys + EntrySlots(entries, i)
    decreases |entries| - i
  {
    if i < |entries| {
      SetSectionStepKeys(m, entries[i], rc, c);
      StepKeepsListed(m, entries, i, rc, c);
      var next := SetSectionStep(m, entries[i], rc, c).value;
      SetSectionsChunks(next, entries, i + 1, rc, c);
      KeysCompose(m.Keys, next.Keys, SetSectionsFrom(next, entries, i + 1, rc, c).value.Keys, entries[i].0,
                  EntrySlots(entries, i), EntrySlots(entries, i + 1));
    }
  }

  /** Set algebra for `SetSectionsChunks`. */
  lemma KeysCompose(m: set<ChunkPos>, next: set<ChunkPos>, r: set<ChunkPos>, k: ChunkPos, s: set<ChunkPos>, rest: set<ChunkPos>)
    requires next == m + {k} && r == next + rest && s == {k} + rest
    ensures r == m + s
  {
  }

  /** Without chunk creation, a successful `set_sections` needed every slot its entries name to hold a chunk. */
  lemma {:induction false} SetSectionsNeedChunks(m: map<ChunkPos, ChunkState>, entries: seq<(ChunkPos, i8, Block)>, i: nat,
                                                 rc: (i32, i32), c: Config)
    requires i <= |entries| && AllInGrid(entries) && CoordsFit(rc) && EntriesListed(m, entries, i)
    requires SetSectionsFrom(m, entries, i, rc, c).Ok? && !c.createChunkIfMissing
    ensures EntrySlots(entries, i) <= m.Keys
    decreases |entries| - i
  {
    if i < |entries| {
      SetSectionStepShape(m, entries[i], rc, c);
      StepKeepsListed(m, entries, i, rc, c);
      var next := SetSectionStep(m, entries[i], rc, c).value;
      SetSectionsNeedChunks(next, entries, i + 1, rc, c);
      StoreKeeps(m, entries[i].0, next[entries[i].0]);
    }
  }

  /** A successful `set_sections` keeps every chunk no entry names. */
  lemma {:induction false} SetSectionsKeepOthers(m: map<ChunkPos, ChunkState>, entries: seq<(ChunkPos, i8, Block)>, i: nat,
                                                 rc: (i32, i32), c: Config, k: ChunkPos)
    requires i <= |entries| && AllInGrid(entries) && CoordsFit(rc) && EntriesListed(m, entries, i)
    requires SetSectionsFrom(m, entries, i, rc, c).Ok? && k in m && k !in EntrySlots(entries, i)
    ensures k in SetSectionsFrom(m, entries, i, rc, c).value && SetSectionsFrom(m, entries, i, rc, c).value[k] == m[k]
    decreases |entries| - i
  {
    if i < |entries| {
      SetSectionStepShape(m, entries[i], rc, c);
      StepKeepsListed(m, entries, i, rc, c);
      var next := SetSectionStep(m, entries[i], rc, c).value;
      StoreKeeps(m, entries[i].0, next[entries[i].0]);
      SetSectionsKeepOthers(next, entries, i + 1, rc, c, k);
    }
  }

  // ---- get_block / get_blocks over the region ----

  /** `invalid_get_coords`: (852, 14, 5212) falls in slot (53, 255) after saturation, which no chunk of the grid has. */
  lemma InvalidGetCoords(m: map<ChunkPos, ChunkState>)
    requires forall k :: k in m ==> InGrid(k)
    ensures BlockReads.ChunkOfCoord((852, 14, 5212)) == (53, 255)
    ensures BlockReads.BlockAt(m, (852, 14, 5212)) == Err(NoChunk(53, 255))
  {
    assert BlockReads.ChunkOfCoord((852, 14, 5212)) == (53, 255);
  }

  /** Every section of every chunk has a "Y". */
  predicate YsOk(m: map<ChunkPos, ChunkState>)
  {
    forall k :: k in m ==> BlockReads.AllHaveY(m[k].nbt)
  }

  lemma CreatedYs(k: ChunkPos, rc: (i32, i32), h: Height)
    requires InGrid(k) && CoordsFit(rc)
    ensures BlockReads.AllHaveY(CreatedChunk(k, rc, h).nbt)
  {
    var range := SectionRange(h);
    assert SectionsOf(CreatedChunk(k, rc, h).nbt) == EmptySections(range.0, range.1);
  }

  /**
   * After one `set_sections` entry, `get_block` anywhere in the filled
   * section of its chunk returns the entry's block (in normal form).
   */
  lemma SetSectionStepReadsBack(m: map<ChunkPos, ChunkState>, e: (ChunkPos, i8, Block), rc: (i32, i32), c: Config,
                                coord: BlockReads.Coord)
    requires InGrid(e.0) && CoordsFit(rc) && StepListed(m, e) && YsOk(m) && SetSectionStep(m, e, rc, c).Ok?
    requires BlockReads.ChunkOfCoord(coord) == e.0 && Chunk.SectionOf(coord.1) == e.1
    ensures BlockReads.BlockAt(SetSectionStep(m, e, rc, c).value, coord) == Ok(Normalized(e.2))
  {
    SetSectionStepShape(m, e, rc, c);
    var chunk := LentChunk(m, e.0, rc, c).value;
    if e.0 !in m {
      CreatedYs(e.0, rc, c.worldHeight);
    }
    var next := SetSectionStep(m, e, rc, c).value;
    assert next[e.0].nbt == SetSectionIn(chunk.nbt, SlotPos(e.0), e.1, e.2, c.updateLighting).value;
    BlockReads.SetSectionReadsBack(chunk.nbt, SlotPos(e.0), e.1, e.2, c.updateLighting, next, coord);
  }

  class Region {
    /** The chunks of the region by local slot; the region owns each. */
    var chunks: map<ChunkPos, ChunkState>
    /** How flushes behave: chunk creation, lighting reset, the world height. */
    var config: Config
    var regionCoords: (i32, i32)

    /** Every chunk's bitsets are well formed. */
    predicate Valid()
      reads this`chunks
    {
      forall k :: k in chunks ==> ValidState(chunks[k])
    }

    /** `Region::empty`: no chunks, and missing chunks are created on demand. */
    constructor Empty(regionCoords: (i32, i32))
      ensures Valid() && chunks == map[] && this.regionCoords == regionCoords
      ensures config == DEFAULT_CONFIG.(createChunkIfMissing := true)
    {
      chunks := map[];
      config := DEFAULT_CONFIG.(createChunkIfMissing := true);
      this.regionCoords := regionCoords;
    }

    /** `Region::from_nbt`: every compound made a new chunk, under the default configuration. */
    constructor FromNbt(m: map<ChunkPos, Compound>, regionCoords: (i32, i32))
      ensures Valid() && chunks == FromNbtStates(m)
      ensures config == DEFAULT_CONFIG && this.regionCoords == regionCoords
    {
      chunks := FromNbtStates(m);
      config := DEFAULT_CONFIG;
      this.regionCoords := regionCoords;
    }

    /** `Region::full_empty`: `from_nbt` over an empty chunk in every grid slot. */
    constructor FullEmpty(regionCoords: (i32, i32))
      requires CoordsFit(regionCoords)
      ensures Valid() && chunks == FromNbtStates(FullEmptyNbt(regionCoords))
      ensures config == DEFAULT_CONFIG && this.regionCoords == regionCoords
    {
      chunks := FromNbtStates(FullEmptyNbt(regionCoords));
      config := DEFAULT_CONFIG;
      this.regionCoords := regionCoords;
    }

    /** `get_chunk`: a slot outside the grid is an error; otherwise the chunk, if the slot holds one. */
    function GetChunk(x: u8, z: u8): (r: Result<Option<ChunkState>>)
      reads this
      ensures r.Err? <==> !InGrid((x, z))
      ensures r.Err? ==> r.error == ChunkOutOfRegionBounds(x, z)
      ensures r.Ok? ==> (r.value.Some? <==> (x, z) in chunks) && (r.value.Some? ==> r.value.value == chunks[(x, z)])
    {
      if x >= REGION_SIZE || z >= REGION_SIZE then Err(ChunkOutOfRegionBounds(x, z))
      else if (x, z) in chunks then Ok(Some(chunks[(x, z)]))
      else Ok(None)
    }

    /**
     * `get_chunk_mut`: a slot outside the grid is an error; a slot holding a
     * chunk gives it; an empty slot gets a new empty chunk at the configured
     * height when the configuration says so, and is an error otherwise.
     */
    method GetChunkMut(x: u8, z: u8) returns (r: Result<ChunkState>)
      requires Valid() && CoordsFit(regionCoords)
      modifies this
      ensures Valid() && config == old(config) && regionCoords == old(regionCoords)
      ensures !InGrid((x, z)) ==> r == Err(ChunkOutOfRegionBounds(x, z))
      ensures InGrid((x, z)) && (x, z) !in old(chunks) && !config.createChunkIfMissing ==>
                r == Err(TriedToModifyMissingChunk(x, z))
      ensures r.Ok? <==> InGrid((x, z)) && ((x, z) in old(chunks) || config.createChunkIfMissing)
      ensures r.Ok? ==> (x, z) in chunks && r.value == chunks[(x, z)] && ValidState(r.value)
      ensures r.Ok? && (x, z) !in old(chunks) ==>
                chunks == old(chunks)[(x, z) := CreatedChunk((x, z), regionCoords, config.worldHeight)]
      ensures r.Err? || (x, z) in old(chunks) ==> chunks == old(chunks)
    {
      if x >= REGION_SIZE || z >= REGION_SIZE {
        return Err(ChunkOutOfRegionBounds(x, z));
      }
      if (x, z) in chunks {
        return Ok(chunks[(x, z)]);
      }
      if !config.createChunkIfMissing {
        return Err(TriedToModifyMissingChunk(x, z));
      }
      var c := CreatedChunk((x, z), regionCoords, config.worldHeight);
      chunks := chunks[(x, z) := c];
      return Ok(c);
    }

    /** `is_region_generated`: every grid slot holds a chunk with the required status. */
    method IsRegionGenerated() returns (r: Result<bool>)
      ensures r == Ok(AllGenerated(chunks))
    {
      var x: u8 := 0;
      while x < REGION_SIZE
        invariant 0 <= x <= REGION_SIZE
        invariant forall k: ChunkPos :: InGrid(k) && k.0 < x ==>
                    k in chunks && StringTag(chunks[k].nbt, "Status") == Some(REQUIRED_STATUS)
      {
        var z: u8 := 0;
        while z < REGION_SIZE
          invariant 0 <= z <= REGION_SIZE
          invariant forall k: ChunkPos :: InGrid(k) && (k.0 < x || (k.0 == x && k.1 < z)) ==>
                      k in chunks && StringTag(chunks[k].nbt, "Status") == Some(REQUIRED_STATUS)
        {
          var chunk := GetChunk(x, z);
          if chunk.value.None? {
            return Ok(false);
          }
          var status := StringTag(chunk.value.value.nbt, "Status");
          if status != Some(REQUIRED_STATUS) {
            return Ok(false);
          }
          z := z + 1;
        }
        x := x + 1;
      }
      return Ok(true);
    }

    /**
     * One slot of `set_world_height`'s loop: `get_chunk_mut`, then the
     * chunk's buffers reset for `count` Y values.
     */
    method ResetSlot(x: u8, z: u8, count: nat) returns (r: Result<()>)
      requires Valid() && CoordsFit(regionCoords) && InGrid((x, z))
      modifies this
      ensures Valid() && config == old(config) && regionCoords == old(regionCoords)
      ensures r.Err? <==> (x, z) !in old(chunks) && !config.createChunkIfMissing
      ensures r.Err? ==> r.error == TriedToModifyMissingChunk(x, z) && chunks == old(chunks)
      ensures r.Ok? ==> chunks == old(chunks)[(x, z) := ResetChunkAt(old(chunks), (x, z), regionCoords, config.worldHeight, count)]
    {
      var chunk := GetChunkMut(x, z);
      if chunk.Err? {
        return Err(chunk.error);
      }
      chunks := chunks[(x, z) := ResetState(chunk.value, count)];
      return Ok(());
    }

    /**
     * The inner loop of `set_world_height`: the slots of row `x`, from
     * `chunks` as the visits before it left them (the slots of `t`
     * overlaid on `s` up to the row).
     */
    method ResetRow(x: u8, count: nat, ghost s: map<ChunkPos, ChunkState>, ghost t: map<ChunkPos, ChunkState>,
                    ghost rc: (i32, i32), ghost h: Height)
      returns (missing: Option<GridPos>)
      requires Valid() && CoordsFit(regionCoords) && x < REGION_SIZE
      requires rc == regionCoords && h == config.worldHeight && t == ResetTargets(s, rc, h, count)
      requires chunks == Overlay(s, t, x, 0)
      requires !config.createChunkIfMissing ==> Present(s, x, 0)
      modifies this
      ensures Valid() && config == old(config) && regionCoords == old(regionCoords)
      ensures missing.None? ==> chunks == Overlay(s, t, x, REGION_SIZE)
      ensures missing.None? && !config.createChunkIfMissing ==> Present(s, x, REGION_SIZE)
      ensures missing.Some? ==> !config.createChunkIfMissing && missing.value !in s
    {
      var z: u8 := 0;
      while z < REGION_SIZE
        invariant 0 <= z <= REGION_SIZE
        invariant Valid() && config == old(config) && regionCoords == old(regionCoords)
        invariant chunks == Overlay(s, t, x, z)
        invariant !config.createChunkIfMissing ==> Present(s, x, z)
      {
        ResetNext(s, t, rc, h, count, x, z);
        var visit := ResetSlot(x, z, count);
        if visit.Err? {
          return Some((x, z));
        }
        z := z + 1;
      }
      return None;
    }

    /** The outer loop of `set_world_height`: the rows of the grid in order, `t` giving each slot's result. */
    method ResetGrid(count: nat, ghost t: map<ChunkPos, ChunkState>, ghost rc: (i32, i32), ghost h: Height)
      returns (missing: Option<GridPos>)
      requires Valid() && CoordsFit(regionCoords)
      requires rc == regionCoords && h == config.worldHeight && t == ResetTargets(chunks, rc, h, count)
      modifies this
      ensures Valid() && config == old(config) && regionCoords == old(regionCoords)
      ensures missing.None? ==> chunks == Overlay(old(chunks), t, REGION_SIZE, 0)
      ensures missing.None? && !config.createChunkIfMissing ==> Present(old(chunks), REGION_SIZE, 0)
      ensures missing.Some? ==> !config.createChunkIfMissing && missing.value !in old(chunks)
    {
      var x: u8 := 0;
      while x < REGION_SIZE
        invariant 0 <= x <= REGION_SIZE
        invariant Valid() && config == old(config) && regionCoords == old(regionCoords)
        invariant chunks == Overlay(old(chunks), t, x, 0)
        invariant !config.createChunkIfMissing ==> Present(old(chunks), x, 0)
      {
        missing := ResetRow(x, count, old(chunks), t, rc, h);
        if missing.Some? {
          return;
        }
        OverlayRow(old(chunks), t, x);
        PresentRow(old(chunks), x);
        x := x + 1;
      }
      return None;
    }

    /**
     * `set_world_height`: visits the grid slots row by row through
     * `get_chunk_mut` (so an empty slot gets a chunk at the old height, or
     * stops the loop with an error, keeping the visits done so far), resets
     * each chunk's buffers for the new number of Y values, then records the
     * new height. The chunks' own world height is left as it was. On
     * success the chunks are `ResetUpTo` the end of the grid, which
     * `ResetAllSlots` describes slot by slot.
     */
    method SetWorldHeight(range: Height) returns (r: Result<()>)
      requires Valid() && CoordsFit(regionCoords)
      modifies this
      ensures Valid() && regionCoords == old(regionCoords)
      ensures r.Ok? <==> old(config).createChunkIfMissing || GridKeys() <= old(chunks).Keys
      ensures r.Err? ==> config == old(config) && MissingSlot(r.error, old(chunks))
      ensures r.Ok? ==> config == old(config).(worldHeight := range)
      ensures r.Ok? ==>
        chunks == ResetUpTo(old(chunks), regionCoords, old(config).worldHeight, range.Count(), REGION_SIZE, 0)
    {
      var count := range.Count();
      ghost var t := ResetTargets(chunks, regionCoords, config.worldHeight, count);
      var missing := ResetGrid(count, t, regionCoords, config.worldHeight);
      if missing.Some? {
        return Err(TriedToModifyMissingChunk(missing.value.0 as int, missing.value.1 as int));
      }
      PresentAll(old(chunks));
      config := config.(worldHeight := range);
      return Ok(());
    }

    /**
     * `set_config`: when the world height differs, `set_world_height` runs
     * first (and its error is returned); then the configuration is replaced.
     * The result says whether the height changed.
     */
    method SetConfig(newConfig: Config) returns (r: Result<bool>)
      requires Valid() && CoordsFit(regionCoords)
      modifies this
      ensures Valid() && regionCoords == old(regionCoords)
      ensures r.Ok? ==> config == newConfig && r.value == (old(config).worldHeight != newConfig.worldHeight)
      ensures r.Ok? && !r.value ==> chunks == old(chunks)
      ensures r.Ok? && r.value ==>
        chunks == ResetUpTo(old(chunks), regionCoords, old(config).worldHeight, newConfig.worldHeight.Count(), REGION_SIZE, 0)
      ensures r.Err? <==> old(config).worldHeight != newConfig.worldHeight &&
                          !old(config).createChunkIfMissing && !(GridKeys() <= old(chunks).Keys)
      ensures r.Err? ==> config == old(config)
    {
      var changed := false;
      if config.worldHeight != newConfig.worldHeight {
        var reset := SetWorldHeight(newConfig.worldHeight);
        if reset.Err? {
          return Err(reset.error);
        }
        changed := true;
      }
      config := newConfig;
      return Ok(changed);
    }
    /**
     * One chunk of `Region::write_blocks`: a block-dirty chunk is lent to
     * `ChunkData::write_blocks` and its new state stored back; a clean chunk
     * is skipped. `target` is the chunk's `BlocksWritten`.
     */
    method FlushChunkBlocks(k: ChunkPos, ghost target: ChunkState) returns (r: Result<()>)
      requires Valid() && k in chunks && target == BlocksWritten(chunks[k], k, config.updateLighting)
      requires chunks[k].dirtyBlocks ==> BlocksInSections(chunks[k].pendingBlocks) && LongDataSections(chunks[k].nbt)
      modifies this
      ensures Valid() && config == old(config) && regionCoords == old(regionCoords)
      ensures r.Ok? ==> chunks == old(chunks)[k := target] && BlocksSucceed(old(chunks)[k], k, config.updateLighting)
      ensures r.Err? ==> BlocksFail(old(chunks), k, config.updateLighting, r.error)
    {
      if !chunks[k].dirtyBlocks {
        assert chunks[k := target] == chunks;
        return Ok(());
      }
      var c := new ChunkData.FromState(chunks[k]);
      r := c.WriteBlocks(SlotPos(k), config.updateLighting);
      if r.Ok? {
        chunks := chunks[k := c.State()];
      }
    }

    /**
     * `Region::write_blocks`: every block-dirty chunk is written with the
     * region's lighting rule, one chunk at a time in an order of the map's
     * choosing. On success every chunk is `BlockTargets`'s; the first chunk
     * whose write fails gives the error, and `failed` names it.
     */
    method WriteBlocks() returns (r: Result<()>, ghost failed: ChunkPos)
      requires Valid() && BlocksWritable(chunks)
      modifies this
      ensures Valid() && config == old(config) && regionCoords == old(regionCoords)
      ensures r.Ok? ==> chunks == BlockTargets(old(chunks), config.updateLighting)
      ensures r.Ok? ==> AllBlocksSucceed(old(chunks), old(chunks).Keys, config.updateLighting)
      ensures r.Err? ==> BlocksFail(old(chunks), failed, config.updateLighting, r.error)
    {
      ghost var s := chunks;
      ghost var t := BlockTargets(s, config.updateLighting);
      var todo := chunks.Keys;
      failed := (0, 0);
      assert s.Keys - todo == {};
      while todo != {}
        invariant Valid() && config == old(config) && regionCoords == old(regionCoords)
        invariant BlocksProgress(s, t, todo, chunks, config.updateLighting)
        decreases todo
      {
        var k :| k in todo;
        ghost var before := chunks;
        assert chunks[k] == s[k];
        r := FlushChunkBlocks(k, t[k]);
        if r.Err? {
          return r, k;
        }
        BlocksProgressStep(s, t, todo, before, config.updateLighting, k);
        todo := todo - {k};
      }
      BlocksProgressEnd(s, t, chunks, config.updateLighting);
      return Ok(()), failed;
    }

    /**
     * One chunk of `Region::write_biomes`: a biome-dirty chunk is lent to
     * `ChunkData::write_biomes` and its new state stored back; a clean chunk
     * is skipped. `target` is the chunk's `BiomesWritten`.
     */
    method FlushChunkBiomes(k: ChunkPos, ghost target: ChunkState) returns (r: Result<()>)
      requires Valid() && k in chunks && target == BiomesWritten(chunks[k], k)
      requires chunks[k].dirtyBiomes ==>
                 BiomesInSections(chunks[k].pendingBiomes) &&
                 WriteChunkBiomes(chunks[k].nbt, SlotPos(k), chunks[k].pendingBiomes).Done?
      modifies this
      ensures Valid() && config == old(config) && regionCoords == old(regionCoords)
      ensures r.Ok? ==> chunks == old(chunks)[k := target] && BiomesSucceed(old(chunks)[k], k)
      ensures r.Err? ==> BiomesFail(old(chunks), k, r.error)
    {
      if !chunks[k].dirtyBiomes {
        assert chunks[k := target] == chunks;
        return Ok(());
      }
      var c := new ChunkData.FromState(chunks[k]);
      r := c.WriteBiomes(SlotPos(k));
      if r.Ok? {
        chunks := chunks[k := c.State()];
      }
    }

    /**
     * `Region::write_biomes`: every biome-dirty chunk is written, one chunk
     * at a time in an order of the map's choosing. On success every chunk
     * is `BiomeTargets`'s; the first chunk whose write fails gives the
     * error, and `failed` names it.
     */
    method WriteBiomes() returns (r: Result<()>, ghost failed: ChunkPos)
      requires Valid() && BiomesWritable(chunks)
      modifies this
      ensures Valid() && config == old(config) && regionCoords == old(regionCoords)
      ensures r.Ok? ==> chunks == BiomeTargets(old(chunks))
      ensures r.Ok? ==> AllBiomesSucceed(old(chunks), old(chunks).Keys)
      ensures r.Err? ==> BiomesFail(old(chunks), failed, r.error)
    {
      ghost var s := chunks;
      ghost var t := BiomeTargets(s);
      var todo := chunks.Keys;
      failed := (0, 0);
      assert s.Keys - todo == {};
      while todo != {}
        invariant Valid() && config == old(config) && regionCoords == old(regionCoords)
        invariant BiomesProgress(s, t, todo, chunks)
        decreases todo
      {
        var k :| k in todo;
        ghost var before := chunks;
        assert chunks[k] == s[k];
        r := FlushChunkBiomes(k, t[k]);
        if r.Err? {
          return r, k;
        }
        BiomesProgressStep(s, t, todo, before, k);
        todo := todo - {k};
      }
      BiomesProgressEnd(s, t, chunks);
      return Ok(()), failed;
    }

    /**
     * The fill of one `set_sections` entry in the chunk `get_chunk_mut`
     * lent for slot `k`: the filled NBT is stored in it on success.
     */
    method FillLent(k: ChunkPos, y: i8, block: Block, ghost lent: ChunkState) returns (r: Result<()>)
      requires Valid() && k in chunks && chunks[k] == lent && TargetListed(lent.nbt, y)
      modifies this
      ensures Valid() && config == old(config) && regionCoords == old(regionCoords)
      ensures var out := SetSectionIn(lent.nbt, SlotPos(k), y, block, config.updateLighting);
        (r.Ok? ==> out.Ok? && chunks == old(chunks)[k := lent.(nbt := out.value)]) &&
        (r.Err? ==> out == Err(r.error))
    {
      var out := SetSectionIn(chunks[k].nbt, SlotPos(k), y, block, config.updateLighting);
      if out.Err? {
        return Err(out.error);
      }
      chunks := chunks[k := chunks[k].(nbt := out.value)];
      return Ok(());
    }

    /**
     * One entry of `Region::set_sections`: the chunk of slot `e.0` is lent
     * by `get_chunk_mut` and the section with Y `e.1` of its NBT filled with
     * `e.2`. The new chunks are `SetSectionStep`'s; on an error they are
     * left unspecified.
     */
    method SetSectionAt(e: (ChunkPos, i8, Block)) returns (r: Result<()>)
      requires Valid() && CoordsFit(regionCoords) && InGrid(e.0) && StepListed(chunks, e)
      modifies this
      ensures Valid() && config == old(config) && regionCoords == old(regionCoords)
      ensures r.Ok? ==> SetSectionStep(old(chunks), e, regionCoords, config) == Ok(chunks)
      ensures r.Err? ==> SetSectionStep(old(chunks), e, regionCoords, config) == Err(r.error)
    {
      ghost var s := chunks;
      var lent := GetChunkMut(e.0.0, e.0.1);
      if lent.Err? {
        return Err(lent.error);
      }
      ghost var chunk := LentChunk(s, e.0, regionCoords, config).value;
      LentTarget(s, e.0, e.1, regionCoords, config);
      assert chunks == s[e.0 := chunk] by {
        if e.0 in s {
          StoreSame(s, e.0);
        }
      }
      r := FillLent(e.0, e.1, e.2, chunk);
      if r.Ok? {
        SetSectionStepShape(s, e, regionCoords, config);
        StoreOver(s, e.0, chunk, chunks[e.0]);
      }
    }

    /**
     * `Region::set_sections`: every entry's slot must be in the grid (the
     * call asserts it); the entries are applied one after another, the first
     * error ending the call. The new chunks are `SetSectionsFrom`'s.
     */
    method SetSections(entries: seq<(ChunkPos, i8, Block)>) returns (r: Result<()>)
      requires Valid() && CoordsFit(regionCoords) && AllInGrid(entries) && EntriesListed(chunks, entries, 0)
      modifies this
      ensures Valid() && config == old(config) && regionCoords == old(regionCoords)
      ensures r.Ok? ==> SetSectionsFrom(old(chunks), entries, 0, regionCoords, config) == Ok(chunks)
      ensures r.Err? ==> SetSectionsFrom(old(chunks), entries, 0, regionCoords, config) == Err(r.error)
    {
      for i := 0 to |entries|
        invariant Valid() && config == old(config) && regionCoords == old(regionCoords) && EntriesListed(chunks, entries, i)
        invariant SetSectionsFrom(old(chunks), entries, 0, regionCoords, config) ==
                  SetSectionsFrom(chunks, entries, i, regionCoords, config)
      {
        ghost var before := chunks;
        var step := SetSectionAt(entries[i]);
        if step.Err? {
          return step;
        }
        StepKeepsListed(before, entries, i, regionCoords, config);
      }
      return Ok(());
    }

    /**
     * `Region::get_blocks`: the result of reading the grouped coordinates in
     * the order the group map yields them, named by `order`.
     */
    method GetBlocks(cs: seq<BlockReads.Coord>) returns (r: Result<seq<BlockWithCoordinate>>, ghost order: seq<ChunkPos>)
      ensures BlockReads.Enumerates(order, BlockReads.Grouped(cs).Keys)
      ensures r == BlockReads.ReadGroups(chunks, BlockReads.Grouped(cs), order)
    {
      r, order := BlockReads.GetBlocksIn(chunks, cs);
    }

    /** `Region::get_block`, with a missing section reported as `NoSectionFound`. */
    method GetBlock(x: u32, y: i32, z: u32) returns (r: Result<Block>)
      ensures r == BlockReads.BlockAt(chunks, (x, y, z))
    {
      r := BlockReads.GetBlockIn(chunks, (x, y, z));
    }
  }
}
