/**
 * Writing the pending blocks of one chunk section into its block states
 * (write.rs `ChunkData::write_blocks`, the body of the per-section loop):
 * decode the palette indexes into the reused 4096-entry array, reject an
 * index outside the palette, intern each pending block into the palette
 * (reusing an equal entry, appending otherwise), store its palette index at
 * the block's slot, compact the palette, and either drop the index data
 * (one palette entry left) or re-encode it at the block width.
 */
module SectionWrite {
  import opened Ints
  import opened Arith
  import opened Errors
  import opened Nbt
  import opened LocalCoords
  import opened RegionRules
  import opened PackedData
  import opened Palette

  // ---- interning pending blocks into the palette ----

  /**
   * What the block-to-index cache hashes and compares: the raw name text
   * and the properties, exactly the derived equality of `Block`.
   */
  type BlockKey = (string, Option<map<string, string>>)

  function KeyOf(b: Block): BlockKey
  {
    (NameText(b.name), b.properties)
  }

  lemma KeyOfIsBlockEq(a: Block, b: Block)
    ensures KeyOf(a) == KeyOf(b) <==> BlockEq(a, b)
  {
  }

  /** A block whose name reads the same before and after namespacing: an `Id`, or any name with a namespace. */
  predicate WellNamed(b: Block)
  {
    b.name.Id? || ':' in b.name.s
  }

  /** The block every well-named block with this key reads back as. */
  function KeyBlock(k: BlockKey): Block
  {
    Block(Namespaced(PopulateNamespace(k.0)), if k.1 == Some(map[]) then None else k.1)
  }

  lemma KeyBlockIsNormalized(b: Block)
    requires WellNamed(b)
    ensures KeyBlock(KeyOf(b)) == Normalized(b)
  {
  }

  /**
   * The cache conflates `Namespaced("stone")` with `Id("stone")`, which are
   * equal blocks that are written under different names.
   */
  lemma CacheConflatesNamespaces()
    ensures KeyOf(Block(Namespaced("stone"), None)) == KeyOf(Block(Id("stone"), None))
    ensures Normalized(Block(Namespaced("stone"), None)) != Normalized(Block(Id("stone"), None))
  {
    assert PopulateNamespace("stone") == "minecraft:stone";
    assert |"stone"| != |"minecraft:stone"|;
  }

  /** `palette.iter().position(|c| &block == c)`, searching from position `i`. */
  function FirstMatchFrom(palette: seq<Compound>, b: Block, i: nat): (r: Option<nat>)
    requires i <= |palette|
    ensures r.Some? ==> i <= r.value < |palette| && EqCompound(b, palette[r.value]) &&
                        forall j :: i <= j < r.value ==> !EqCompound(b, palette[j])
    ensures r.None? ==> forall j :: i <= j < |palette| ==> !EqCompound(b, palette[j])
    decreases |palette| - i
  {
    if i == |palette| then None
    else if EqCompound(b, palette[i]) then Some(i)
    else FirstMatchFrom(palette, b, i + 1)
  }

  function FirstMatch(palette: seq<Compound>, b: Block): Option<nat>
  {
    FirstMatchFrom(palette, b, 0)
  }

  datatype Interned = Interned(palette: seq<Compound>, cache: map<BlockKey, int>, index: int)

  /**
   * The palette index of one pending block: the cached index if the block
   * was seen before in this section, else the first equal palette entry,
   * else a new entry appended at the end.
   */
  function Intern(palette: seq<Compound>, cache: map<BlockKey, int>, b: Block): (r: Interned)
    ensures palette <= r.palette
  {
    var k := KeyOf(b);
    if k in cache then Interned(palette, cache, cache[k])
    else
      match FirstMatch(palette, b)
      case Some(i) => Interned(palette, cache[k := i], i)
      case None => Interned(palette + [ToCompound(b)], cache[k := |palette|], |palette|)
  }

  predicate CacheInRange(palette: seq<Compound>, cache: map<BlockKey, int>)
  {
    forall k :: k in cache ==> 0 <= cache[k] < |palette|
  }

  /** Every cached index names a palette entry that reads back as the key's block. */
  predicate CacheReads(palette: seq<Compound>, cache: map<BlockKey, int>)
  {
    forall k :: k in cache ==> 0 <= cache[k] < |palette| && FromCompound(palette[cache[k]]) == Ok(KeyBlock(k))
  }

  lemma InternInRange(palette: seq<Compound>, cache: map<BlockKey, int>, b: Block)
    requires CacheInRange(palette, cache)
    ensures var r := Intern(palette, cache, b);
      CacheInRange(r.palette, r.cache) && 0 <= r.index < |r.palette|
  {
  }

  /** Palette entry `i` exists and reads back as the normal form of `b`. */
  predicate ReadsBack(palette: seq<Compound>, i: int, b: Block)
  {
    0 <= i < |palette| && FromCompound(palette[i]) == Ok(Normalized(b))
  }

  /** The interned index names an entry that reads back as the block, and the cache stays truthful. */
  lemma InternReadsBack(palette: seq<Compound>, cache: map<BlockKey, int>, b: Block)
    requires CacheReads(palette, cache) && WellNamed(b)
    ensures var r := Intern(palette, cache, b); CacheReads(r.palette, r.cache) && ReadsBack(r.palette, r.index, b)
  {
    KeyBlockIsNormalized(b);
    if KeyOf(b) !in cache {
      match FirstMatch(palette, b)
      case Some(i) => InternFoundReadsBack(palette, cache, b, i);
      case None => InternAppendedReadsBack(palette, cache, b);
    }
  }

  /** A new key whose block matches palette entry `i` is cached at `i`, which reads back as the block. */
  lemma InternFoundReadsBack(palette: seq<Compound>, cache: map<BlockKey, int>, b: Block, i: nat)
    requires CacheReads(palette, cache) && WellNamed(b) && KeyBlock(KeyOf(b)) == Normalized(b)
    requires i < |palette| && EqCompound(b, palette[i])
    ensures CacheReads(palette, cache[KeyOf(b) := i]) && FromCompound(palette[i]) == Ok(Normalized(b))
  {
    EqCompoundReadsBack(b, palette[i]);
    CacheReadsExtend(palette, palette, cache, KeyOf(b), i);
  }

  /** A new key with no equal palette entry is cached at the appended entry, which reads back as the block. */
  lemma InternAppendedReadsBack(palette: seq<Compound>, cache: map<BlockKey, int>, b: Block)
    requires CacheReads(palette, cache) && KeyBlock(KeyOf(b)) == Normalized(b)
    ensures var p' := palette + [ToCompound(b)];
      CacheReads(p', cache[KeyOf(b) := |palette|]) && FromCompound(p'[|palette|]) == Ok(Normalized(b))
  {
    FromToCompound(b);
    var p' := palette + [ToCompound(b)];
    CacheReadsExtend(palette, p', cache, KeyOf(b), |palette|);
  }

  /** Caching a new key at an entry that reads back as the key's block keeps the cache truthful, also over a grown palette. */
  lemma CacheReadsExtend(palette: seq<Compound>, grown: seq<Compound>, cache: map<BlockKey, int>, key: BlockKey, i: int)
    requires CacheReads(palette, cache) && palette <= grown
    requires 0 <= i < |grown| && FromCompound(grown[i]) == Ok(KeyBlock(key))
    ensures CacheReads(grown, cache[key := i])
  {
    var c := cache[key := i];
    forall k | k in c ensures 0 <= c[k] < |grown| && FromCompound(grown[c[k]]) == Ok(KeyBlock(k)) {
      if k != key {
        assert grown[c[k]] == palette[cache[k]];
      }
    }
  }

  // ---- storing indexes ----

  /** The slot of a block in its section's index array: `x + 16 z + 256 (y & 15)`. */
  function Slot(c: Coords): int
  {
    c.x + c.z * WIDTH + (c.y % WIDTH) * WIDTH * WIDTH
  }

  /** Every pending block's slot lies inside the 4096-entry array (true for chunk-local x and z). */
  predicate InSection(pending: seq<BlockWithCoordinate>)
  {
    forall i :: 0 <= i < |pending| ==> Slot(pending[i].coordinates) < BLOCK_DATA_LEN
  }

  lemma SlotOfLocal(c: Coords)
    requires c.x < 16 && c.z < 16
    ensures 0 <= Slot(c) < BLOCK_DATA_LEN
  {
  }

  predicate AllWellNamed(pending: seq<BlockWithCoordinate>)
  {
    forall i :: 0 <= i < |pending| ==> WellNamed(pending[i].block)
  }

  /** The position of the last pending block that targets slot `s`, if any. */
  function LastWrite(pending: seq<BlockWithCoordinate>, s: int): (r: Option<nat>)
    ensures r.Some? ==> r.value < |pending| && Slot(pending[r.value].coordinates) == s &&
                        forall j :: r.value < j < |pending| ==> Slot(pending[j].coordinates) != s
    ensures r.None? ==> forall j :: 0 <= j < |pending| ==> Slot(pending[j].coordinates) != s
    decreases |pending|
  {
    if pending == [] then None
    else
      match LastWrite(pending[1..], s)
      case Some(j) => Some(j + 1)
      case None => if Slot(pending[0].coordinates) == s then Some(0) else None
  }

  datatype Applied = Applied(palette: seq<Compound>, indexes: seq<int>)

  /** The pending loop: each block in order is interned and its index stored at its slot. */
  function ApplyBlocks(palette: seq<Compound>, cache: map<BlockKey, int>, indexes: seq<int>,
                       pending: seq<BlockWithCoordinate>): (r: Applied)
    requires |indexes| == BLOCK_DATA_LEN && InSection(pending)
    ensures |r.indexes| == BLOCK_DATA_LEN && palette <= r.palette
    decreases |pending|
  {
    if pending == [] then Applied(palette, indexes)
    else
      var it := Intern(palette, cache, pending[0].block);
      ApplyBlocks(it.palette, it.cache, indexes[Slot(pending[0].coordinates) := it.index], pending[1..])
  }

  predicate IndexesIn(indexes: seq<int>, n: int)
  {
    forall k :: 0 <= k < |indexes| ==> 0 <= indexes[k] < n
  }

  lemma {:induction false} ApplyInRange(palette: seq<Compound>, cache: map<BlockKey, int>, indexes: seq<int>,
                                        pending: seq<BlockWithCoordinate>)
    requires |indexes| == BLOCK_DATA_LEN && InSection(pending)
    requires CacheInRange(palette, cache) && IndexesIn(indexes, |palette|)
    ensures var r := ApplyBlocks(palette, cache, indexes, pending); IndexesIn(r.indexes, |r.palette|)
    decreases |pending|
  {
    if pending != [] {
      var it := Intern(palette, cache, pending[0].block);
      InternInRange(palette, cache, pending[0].block);
      ApplyInRange(it.palette, it.cache, indexes[Slot(pending[0].coordinates) := it.index], pending[1..]);
    }
  }

  /** What slot `s` holds after the pending loop: the last write to it, or its index from before. */
  predicate SlotOutcome(r: Applied, indexes: seq<int>, pending: seq<BlockWithCoordinate>, s: int)
    requires 0 <= s < |r.indexes| && 0 <= s < |indexes|
  {
    match LastWrite(pending, s)
    case Some(j) => ReadsBack(r.palette, r.indexes[s], pending[j].block)
    case None => r.indexes[s] == indexes[s]
  }

  /**
   * After the pending loop a slot that some pending block targets names an
   * entry reading back as the last such block; any other slot keeps its
   * index.
   */
  lemma {:induction false} ApplyReadsBack(palette: seq<Compound>, cache: map<BlockKey, int>, indexes: seq<int>,
                                          pending: seq<BlockWithCoordinate>, s: int)
    requires |indexes| == BLOCK_DATA_LEN && InSection(pending) && AllWellNamed(pending)
    requires CacheReads(palette, cache) && 0 <= s < BLOCK_DATA_LEN
    ensures SlotOutcome(ApplyBlocks(palette, cache, indexes, pending), indexes, pending, s)
    decreases |pending|
  {
    if pending != [] {
      var b := pending[0];
      var it := Intern(palette, cache, b.block);
      InternReadsBack(palette, cache, b.block);
      var next := indexes[Slot(b.coordinates) := it.index];
      PendingTail(pending);
      ApplyReadsBack(it.palette, it.cache, next, pending[1..], s);
      ApplyStep(palette, cache, indexes, pending, s);
    }
  }

  lemma PendingTail(pending: seq<BlockWithCoordinate>)
    requires InSection(pending) && AllWellNamed(pending) && pending != []
    ensures InSection(pending[1..]) && AllWellNamed(pending[1..])
  {
    forall i | 0 <= i < |pending[1..]|
      ensures Slot(pending[1..][i].coordinates) < BLOCK_DATA_LEN && WellNamed(pending[1..][i].block)
    {
      assert pending[1..][i] == pending[i + 1];
    }
  }

  /** One step of `ApplyReadsBack`: the first block, then the rest. */
  lemma ApplyStep(palette: seq<Compound>, cache: map<BlockKey, int>, indexes: seq<int>,
                  pending: seq<BlockWithCoordinate>, s: int)
    requires |indexes| == BLOCK_DATA_LEN && InSection(pending) && pending != [] && 0 <= s < BLOCK_DATA_LEN
    requires var it := Intern(palette, cache, pending[0].block);
      ReadsBack(it.palette, it.index, pending[0].block) &&
      SlotOutcome(ApplyBlocks(it.palette, it.cache, indexes[Slot(pending[0].coordinates) := it.index], pending[1..]),
                  indexes[Slot(pending[0].coordinates) := it.index], pending[1..], s)
    ensures SlotOutcome(ApplyBlocks(palette, cache, indexes, pending), indexes, pending, s)
  {
    var it := Intern(palette, cache, pending[0].block);
    var r := ApplyBlocks(palette, cache, indexes, pending);
    assert r == ApplyBlocks(it.palette, it.cache, indexes[Slot(pending[0].coordinates) := it.index], pending[1..]);
    match LastWrite(pending[1..], s)
    case Some(j) =>
      assert pending[1..][j] == pending[j + 1];
    case None =>
      if Slot(pending[0].coordinates) == s {
        ReadsBackGrows(it.palette, r.palette, it.index, pending[0].block);
      }
  }

  lemma ReadsBackGrows(p: seq<Compound>, q: seq<Compound>, i: int, b: Block)
    requires p <= q && ReadsBack(p, i, b)
    ensures ReadsBack(q, i, b)
  {
    assert q[i] == p[i];
  }

  // ---- the whole section ----

  /** With `update_lighting`, a touched section loses its light arrays. */
  function Relit(section: Compound, lighting: bool): (r: Compound)
    ensures lighting ==> r.Keys == section.Keys - {"BlockLight", "SkyLight"}
    ensures !lighting ==> r == section
    ensures forall k :: k in r ==> k in section && r[k] == section[k]
  {
    if lighting then section - {"BlockLight", "SkyLight"} else section
  }

  /** The first index at or after `i` outside `0 .. n - 1`, as the validation loop finds it. */
  function FirstInvalidFrom(xs: seq<int>, n: int, i: nat): (r: Option<int>)
    requires i <= |xs|
    ensures r.None? <==> forall k :: i <= k < |xs| ==> 0 <= xs[k] < n
    ensures r.Some? ==> exists k :: i <= k < |xs| && xs[k] == r.value && !(0 <= r.value < n) &&
                          forall j :: i <= j < k ==> 0 <= xs[j] < n
    decreases |xs| - i
  {
    if i == |xs| then None
    else if xs[i] < 0 || xs[i] >= n then Some(xs[i])
    else FirstInvalidFrom(xs, n, i + 1)
  }

  /** The decoded prefix over the stale contents of the reused array. */
  function Overlay(stale: seq<int>, xs: seq<int>): (r: seq<int>)
    requires |xs| <= |stale|
    ensures |r| == |stale|
    ensures forall k :: 0 <= k < |xs| ==> r[k] == xs[k]
    ensures forall k :: |xs| <= k < |stale| ==> r[k] == stale[k]
  {
    xs + stale[|xs|..]
  }

  /** `clean_palette`'s effect on the array: the first `dataLen` indexes renumbered, the rest untouched. */
  function Renumbered(d: seq<int>, dataLen: nat): (r: seq<int>)
    ensures |r| == |d|
    ensures forall k :: 0 <= k < |d| ==> r[k] == if k < dataLen then Rank(d, d[k]) else d[k]
  {
    seq(|d|, k requires 0 <= k < |d| => if k < dataLen then Rank(d, d[k]) else d[k])
  }

  /** The block-state compound after writing: the compacted palette, no data for one entry, re-encoded data otherwise. */
  function StoreBlockStates(state: Compound, kept: seq<Compound>, indexes: seq<int>): (r: Compound)
    ensures StatePalette(r) == Some(kept)
    ensures |kept| == 1 ==> "data" !in r
    ensures |kept| != 1 ==> LongArrayTag(r, "data") == Some(Pack(indexes, BlockBitCount(|kept|)))
    ensures forall k :: k != "palette" && k != "data" ==> (k in r <==> k in state) && (k in r ==> r[k] == state[k])
  {
    var withPalette := state["palette" := TList(CompoundList(kept))];
    if |kept| == 1 then withPalette - {"data"}
    else withPalette["data" := TLongArray(Pack(indexes, BlockBitCount(|kept|)))]
  }

  /** The compound palette of a block-state compound, if it has one. */
  function StatePalette(state: Compound): Option<seq<Compound>>
  {
    match ListTag(state, "palette")
    case Some(CompoundList(p)) => Some(p)
    case _ => None
  }

  /** A written compound together with the index array as the write leaves it. */
  datatype Written = Written(compound: Compound, indexes: seq<int>)

  /** A write that neither panics nor fails. */
  predicate Succeeds(c: Checked<Result<Written>>)
  {
    c.Done? && c.value.Ok?
  }

  /**
   * The block-state compound of a section with pending blocks, its palette
   * already extracted: decode over the stale array, validate every index,
   * intern and store, compact, then store data and palette.
   */
  function WriteBlockStates(state: Compound, palette: seq<Compound>, pending: seq<BlockWithCoordinate>,
                            stale: seq<int>): (r: Checked<Result<Written>>)
    requires |stale| == BLOCK_DATA_LEN
    ensures r.Done? && r.value.Ok? ==> |r.value.value.indexes| == BLOCK_DATA_LEN && InSection(pending)
  {
    var decoded := Decoded(BLOCK_DATA_LEN, BlockBitCount(|palette|), LongArrayTag(state, "data"));
    var d0 := Overlay(stale, decoded);
    match FirstInvalidFrom(d0, |palette|, 0)
    case Some(v) => Done(Err(InvalidPaletteIndex(v)))
    case None =>
      if !InSection(pending) then Panics
      else
        var applied := ApplyBlocks(palette, map[], d0, pending);
        var kept := Kept(applied.palette, applied.indexes);
        var d2 := Renumbered(applied.indexes, |decoded|);
        if |kept| != 1 && !LongData(state) then Panics
        else Done(Ok(Written(StoreBlockStates(state, kept, d2[..|decoded|]), d2)))
  }

  /** The data tag is absent or a long array: `encode_data` unwraps it as a long array when it is present. */
  predicate LongData(state: Compound)
  {
    "data" in state ==> state["data"].TLongArray?
  }

  /** The section's block states, if any, have a long-array data tag or none. */
  predicate LongDataSection(section: Compound)
  {
    match CompoundTag(section, "block_states")
    case None => true
    case Some(state) => LongData(state)
  }

  /**
   * One section of `ChunkData::write_blocks` that has pending blocks:
   * `stale` is the reused index array as the previous section left it; the
   * result carries the written section and the array as this one leaves it.
   * A pending block outside the section panics once the checks have passed.
   */
  function WriteBlockSection(section: Compound, pending: seq<BlockWithCoordinate>, stale: seq<int>,
                             lighting: bool): (r: Checked<Result<Written>>)
    requires |stale| == BLOCK_DATA_LEN
    ensures r.Done? && r.value.Ok? ==> |r.value.value.indexes| == BLOCK_DATA_LEN && InSection(pending)
  {
    var lit := Relit(section, lighting);
    match CompoundTag(lit, "block_states")
    case None => Done(Err(MissingNbtTag("block_states")))
    case Some(state) =>
      match ListTag(state, "palette")
      case None => Done(Err(MissingNbtTag("palette")))
      case Some(list) =>
        if !list.CompoundList? then Done(Err(InvalidNbtList("palette")))
        else
          match WriteBlockStates(state, list.compounds, pending, stale)
          case Panics => Panics
          case Done(Err(e)) => Done(Err(e))
          case Done(Ok(w)) => Done(Ok(Written(lit["block_states" := TCompound(w.compound)], w.indexes)))
  }

  /**
   * The write panics only when a pending block lies outside the section or
   * `encode_data` finds a data tag that is not a long array.
   */
  lemma WriteBlockSectionInSection(section: Compound, pending: seq<BlockWithCoordinate>, stale: seq<int>, lighting: bool)
    requires |stale| == BLOCK_DATA_LEN && InSection(pending) && LongDataSection(section)
    ensures WriteBlockSection(section, pending, stale, lighting).Done?
  {
    assert CompoundTag(Relit(section, lighting), "block_states") == CompoundTag(section, "block_states");
  }

  // ---- reading a section back ----

  /** A block-state compound whose index data is absent or decodes to all 4096 entries, and is a long array when present. */
  predicate FullBlockStates(state: Compound)
  {
    LongData(state) &&
    match StatePalette(state)
    case None => true
    case Some(p) =>
      LongArrayTag(state, "data").None? ||
      PerWord(BlockBitCount(|p|)) * |LongArrayTag(state, "data").value| >= BLOCK_DATA_LEN
  }

  /** The section's block states are absent or full. */
  predicate FullSection(section: Compound)
  {
    match CompoundTag(section, "block_states")
    case None => true
    case Some(state) => FullBlockStates(state)
  }

  /** The palette entry a slot of a block-state compound names, decoding its data at the block width. */
  function StoredInStates(state: Compound, s: int): Option<Compound>
  {
    match StatePalette(state)
    case None => None
    case Some(p) =>
      var d := Decoded(BLOCK_DATA_LEN, BlockBitCount(|p|), LongArrayTag(state, "data"));
      if 0 <= s < |d| && 0 <= d[s] < |p| then Some(p[d[s]]) else None
  }

  /** The palette entry a slot of a section names. */
  function StoredBlock(section: Compound, s: int): Option<Compound>
  {
    match CompoundTag(section, "block_states")
    case None => None
    case Some(state) => StoredInStates(state, s)
  }

  /** Full data decodes to exactly 4096 entries. */
  lemma FullDecodes(state: Compound, p: seq<Compound>)
    requires FullBlockStates(state) && StatePalette(state) == Some(p)
    ensures |Decoded(BLOCK_DATA_LEN, BlockBitCount(|p|), LongArrayTag(state, "data"))| == BLOCK_DATA_LEN
  {
    DecodedShape(BLOCK_DATA_LEN, BlockBitCount(|p|), LongArrayTag(state, "data"));
  }

  /** The renumbered array fits the block width of the compacted palette, whose length is at most 4096. */
  lemma RenumberedFits(p: seq<Compound>, d: seq<int>)
    requires |d| == BLOCK_DATA_LEN && IndexesIn(d, |p|)
    ensures |Kept(p, d)| <= BLOCK_DATA_LEN
    ensures IndexesIn(Renumbered(d, |d|), |Kept(p, d)|)
    ensures Fits(Renumbered(d, |d|), BlockBitCount(|Kept(p, d)|))
  {
    KeptAtMostData(p, d);
    CompactedPalette(p, d);
    var r := Renumbered(d, |d|);
    forall k | 0 <= k < |r|
      ensures 0 <= r[k] < |Kept(p, d)| && r[k] < Pow2(BlockBitCount(|Kept(p, d)|))
    {
      assert Used(d, d[k]);
      BlockIndexesFit(|Kept(p, d)|, r[k]);
    }
  }

  /** The renumbered prefix that `encode_data` stores fits the block width of the compacted palette. */
  lemma RenumberedPrefixFits(p: seq<Compound>, d: seq<int>, n: nat)
    requires |d| == BLOCK_DATA_LEN && IndexesIn(d, |p|) && n <= |d|
    ensures Fits(Renumbered(d, n)[..n], BlockBitCount(|Kept(p, d)|))
  {
    RenumberedFits(p, d);
    var full := Renumbered(d, |d|);
    assert forall k :: 0 <= k < n ==> Renumbered(d, n)[..n][k] == full[k];
  }

  lemma InRangeAfterApply(palette: seq<Compound>, d0: seq<int>, pending: seq<BlockWithCoordinate>)
    requires |d0| == BLOCK_DATA_LEN && InSection(pending)
    requires FirstInvalidFrom(d0, |palette|, 0).None?
    ensures var a := ApplyBlocks(palette, map[], d0, pending); IndexesIn(a.indexes, |a.palette|)
  {
    ApplyInRange(palette, map[], d0, pending);
  }

  /** The stored block states decode to the renumbered array, through the compacted palette. */
  lemma StoredAfterWrite(state: Compound, kept: seq<Compound>, d2: seq<int>)
    requires |d2| == BLOCK_DATA_LEN && IndexesIn(d2, |kept|) && Fits(d2, BlockBitCount(|kept|))
    ensures var st := StoreBlockStates(state, kept, d2);
      Decoded(BLOCK_DATA_LEN, BlockBitCount(|kept|), LongArrayTag(st, "data")) == d2
  {
    var st := StoreBlockStates(state, kept, d2);
    if |kept| == 1 {
      assert LongArrayTag(st, "data").None?;
      assert forall k :: 0 <= k < |d2| ==> d2[k] == 0;
    } else {
      DecodeEncode(d2, BlockBitCount(|kept|));
    }
  }

  /** Compacting and storing keeps the entry every slot names. */
  lemma StoredAfterCompact(state: Compound, p: seq<Compound>, d: seq<int>, s: int)
    requires |d| == BLOCK_DATA_LEN && IndexesIn(d, |p|) && 0 <= s < BLOCK_DATA_LEN
    ensures StoredInStates(StoreBlockStates(state, Kept(p, d), Renumbered(d, |d|)), s) == Some(p[d[s]])
  {
    var kept := Kept(p, d);
    var d2 := Renumbered(d, |d|);
    RenumberedFits(p, d);
    StoredAfterWrite(state, kept, d2);
    CompactedPalette(p, d);
    assert Used(d, d[s]);
  }

  /** The written block states are the stored compaction of the applied array. */
  lemma WriteBlockStatesValue(state: Compound, palette: seq<Compound>, pending: seq<BlockWithCoordinate>,
                              stale: seq<int>)
    requires |stale| == BLOCK_DATA_LEN && InSection(pending)
    requires StatePalette(state) == Some(palette) && FullBlockStates(state)
    requires Succeeds(WriteBlockStates(state, palette, pending, stale))
    ensures var d0 := Decoded(BLOCK_DATA_LEN, BlockBitCount(|palette|), LongArrayTag(state, "data"));
      |d0| == BLOCK_DATA_LEN && FirstInvalidFrom(d0, |palette|, 0).None? &&
      var applied := ApplyBlocks(palette, map[], d0, pending);
      WriteBlockStates(state, palette, pending, stale).value.value ==
        Written(StoreBlockStates(state, Kept(applied.palette, applied.indexes), Renumbered(applied.indexes, BLOCK_DATA_LEN)),
                Renumbered(applied.indexes, BLOCK_DATA_LEN))
  {
    FullDecodes(state, palette);
    var decoded := Decoded(BLOCK_DATA_LEN, BlockBitCount(|palette|), LongArrayTag(state, "data"));
    assert Overlay(stale, decoded) == decoded;
    var applied := ApplyBlocks(palette, map[], decoded, pending);
    assert Renumbered(applied.indexes, BLOCK_DATA_LEN)[..BLOCK_DATA_LEN] == Renumbered(applied.indexes, BLOCK_DATA_LEN);
  }

  /**
   * Reading written block states back: a slot some pending block targets
   * reads back as the last such block, and every other slot names the same
   * palette entry as before.
   */
  lemma WriteBlockStatesReadsBack(state: Compound, palette: seq<Compound>, pending: seq<BlockWithCoordinate>,
                                  stale: seq<int>, s: int)
    requires |stale| == BLOCK_DATA_LEN && InSection(pending) && AllWellNamed(pending) && 0 <= s < BLOCK_DATA_LEN
    requires StatePalette(state) == Some(palette) && FullBlockStates(state)
    requires Succeeds(WriteBlockStates(state, palette, pending, stale))
    ensures var out := WriteBlockStates(state, palette, pending, stale).value.value.compound;
      StoredInStates(out, s).Some? &&
      (LastWrite(pending, s).Some? ==>
         FromCompound(StoredInStates(out, s).value) == Ok(Normalized(pending[LastWrite(pending, s).value].block))) &&
      (LastWrite(pending, s).None? ==> StoredInStates(out, s) == StoredInStates(state, s))
  {
    WriteBlockStatesValue(state, palette, pending, stale);
    var d0 := Decoded(BLOCK_DATA_LEN, BlockBitCount(|palette|), LongArrayTag(state, "data"));
    var applied := ApplyBlocks(palette, map[], d0, pending);
    var out := WriteBlockStates(state, palette, pending, stale).value.value.compound;
    assert out == StoreBlockStates(state, Kept(applied.palette, applied.indexes), Renumbered(applied.indexes, BLOCK_DATA_LEN));
    InRangeAfterApply(palette, d0, pending);
    StoredAfterCompact(state, applied.palette, applied.indexes, s);
    ApplyReadsBack(palette, map[], d0, pending, s);
    OutcomeOfSlot(state, palette, out, applied, d0, pending, s);
  }

  /** The slot outcome of the pending loop, seen through the stored and the original block states. */
  lemma OutcomeOfSlot(state: Compound, palette: seq<Compound>, out: Compound, applied: Applied, d0: seq<int>,
                      pending: seq<BlockWithCoordinate>, s: int)
    requires 0 <= s < BLOCK_DATA_LEN && |d0| == BLOCK_DATA_LEN && |applied.indexes| == BLOCK_DATA_LEN
    requires StatePalette(state) == Some(palette) && d0 == Decoded(BLOCK_DATA_LEN, BlockBitCount(|palette|), LongArrayTag(state, "data"))
    requires IndexesIn(applied.indexes, |applied.palette|)
    requires palette <= applied.palette && 0 <= d0[s] < |palette|
    requires StoredInStates(out, s) == Some(applied.palette[applied.indexes[s]])
    requires SlotOutcome(applied, d0, pending, s)
    ensures StoredInStates(out, s).Some?
    ensures LastWrite(pending, s).Some? ==>
              FromCompound(StoredInStates(out, s).value) == Ok(Normalized(pending[LastWrite(pending, s).value].block))
    ensures LastWrite(pending, s).None? ==> StoredInStates(out, s) == StoredInStates(state, s)
  {
  }

  /**
   * Reading a written section back: each slot targeted by a pending block
   * reads back as the last such block, and every other slot names the same
   * palette entry as before the write.
   */
  lemma WriteBlockSectionReadsBack(section: Compound, pending: seq<BlockWithCoordinate>, stale: seq<int>,
                                   lighting: bool, s: int)
    requires |stale| == BLOCK_DATA_LEN && InSection(pending) && AllWellNamed(pending) && 0 <= s < BLOCK_DATA_LEN
    requires FullSection(section)
    requires Succeeds(WriteBlockSection(section, pending, stale, lighting))
    ensures var out := WriteBlockSection(section, pending, stale, lighting).value.value.compound;
      StoredBlock(out, s).Some? &&
      (LastWrite(pending, s).Some? ==>
         FromCompound(StoredBlock(out, s).value) == Ok(Normalized(pending[LastWrite(pending, s).value].block))) &&
      (LastWrite(pending, s).None? ==> StoredBlock(out, s) == StoredBlock(section, s))
  {
    var state := CompoundTag(Relit(section, lighting), "block_states").value;
    assert CompoundTag(section, "block_states") == Some(state);
    WriteBlockStatesReadsBack(state, StatePalette(state).value, pending, stale, s);
  }

  /** Compaction leaves every kept entry referenced by the renumbered array. */
  lemma CompactedAllUsed(p: seq<Compound>, d: seq<int>)
    requires |d| == BLOCK_DATA_LEN && IndexesIn(d, |p|)
    ensures forall j :: 0 <= j < |Kept(p, d)| ==> j in Renumbered(d, |d|)
  {
    var kept := Kept(p, d);
    var d2 := Renumbered(d, |d|);
    forall j | 0 <= j < |kept| ensures j in d2 {
      var v := KeptEntrySource(p, d, j);
      var k :| 0 <= k < |d| && d[k] == v;
      assert d2[k] == j;
    }
  }

  /** After a write every entry of the new palette is referenced by the indexes the write leaves, each in range. */
  lemma WriteBlockStatesCompacts(state: Compound, palette: seq<Compound>, pending: seq<BlockWithCoordinate>,
                                 stale: seq<int>)
    requires |stale| == BLOCK_DATA_LEN && InSection(pending)
    requires StatePalette(state) == Some(palette) && FullBlockStates(state)
    requires Succeeds(WriteBlockStates(state, palette, pending, stale))
    ensures var w := WriteBlockStates(state, palette, pending, stale).value.value;
      var kept := StatePalette(w.compound).value;
      |kept| <= BLOCK_DATA_LEN && IndexesIn(w.indexes, |kept|) &&
      forall j :: 0 <= j < |kept| ==> j in w.indexes
  {
    WriteBlockStatesValue(state, palette, pending, stale);
    var d0 := Decoded(BLOCK_DATA_LEN, BlockBitCount(|palette|), LongArrayTag(state, "data"));
    var applied := ApplyBlocks(palette, map[], d0, pending);
    InRangeAfterApply(palette, d0, pending);
    RenumberedFits(applied.palette, applied.indexes);
    CompactedAllUsed(applied.palette, applied.indexes);
  }

  // ---- the imperative section write ----

  /** `decode_data` into the reused array: the decoded prefix is written, the rest keeps its stale contents. */
  method DecodeInto(a: array<int>, bitCount: nat, data: Option<seq<int>>) returns (dataLen: nat)
    requires data.Some? ==> 1 <= bitCount <= 63
    modifies a
    ensures dataLen == |Decoded(a.Length, bitCount, data)|
    ensures a[..] == Overlay(old(a[..]), Decoded(a.Length, bitCount, data))
  {
    var xs := DecodeData(a.Length, bitCount, data);
    for i := 0 to |xs|
      invariant forall k :: 0 <= k < i ==> a[k] == xs[k]
      invariant forall k :: i <= k < a.Length ==> a[k] == old(a[k])
    {
      a[i] := xs[i];
    }
    dataLen := |xs|;
  }

  /** The validation loop: the first index outside the palette, if any. */
  method FindInvalidIndex(a: array<int>, n: int) returns (r: Option<int>)
    ensures r == FirstInvalidFrom(a[..], n, 0)
  {
    for i := 0 to a.Length
      invariant FirstInvalidFrom(a[..], n, i) == FirstInvalidFrom(a[..], n, 0)
    {
      if a[i] < 0 || a[i] >= n {
        return Some(a[i]);
      }
    }
    return None;
  }

  /** A block entity's position as the write compares it. */
  type EntityKey = (int, int, int)

  /**
   * How block entities are matched with pending blocks: `SectionLocal` as
   * `write_blocks` does it, by `y & 15`, with the cache emptied after every
   * written section; `Exact` by the block's own y, with the cache kept.
   */
  datatype EntityMatch = SectionLocal | Exact

  /** The key a pending block marks: its chunk-local x and z, and its y as the rule reads it. */
  function PendingEntityKey(c: Coords, rule: EntityMatch): EntityKey
  {
    (c.x, if rule == SectionLocal then c.y % WIDTH else c.y, c.z)
  }

  /** Marks, among the cached block entities, those a pending block lands on. */
  function MarkAll(marks: map<EntityKey, bool>, pending: seq<BlockWithCoordinate>, rule: EntityMatch): (r: map<EntityKey, bool>)
    ensures r.Keys == marks.Keys
    decreases |pending|
  {
    if pending == [] then marks
    else
      var k := PendingEntityKey(pending[0].coordinates, rule);
      MarkAll(if k in marks then marks[k := true] else marks, pending[1..], rule)
  }

  /**
   * The pending loop over the array: interning with a fresh cache, storing
   * each index at its slot, and marking block entities at the same positions.
   */
  method ApplyPending(a: array<int>, palette: seq<Compound>, pending: seq<BlockWithCoordinate>,
                      marks: map<EntityKey, bool>, rule: EntityMatch) returns (newPalette: seq<Compound>, newMarks: map<EntityKey, bool>)
    requires a.Length == BLOCK_DATA_LEN && InSection(pending)
    modifies a
    ensures Applied(newPalette, a[..]) == ApplyBlocks(palette, map[], old(a[..]), pending)
    ensures newMarks == MarkAll(marks, pending, rule)
  {
    var cache: map<BlockKey, int> := map[];
    newPalette := palette;
    newMarks := marks;
    for i := 0 to |pending|
      invariant InSection(pending[i..])
      invariant ApplyBlocks(newPalette, cache, a[..], pending[i..]) == ApplyBlocks(palette, map[], old(a[..]), pending)
      invariant MarkAll(newMarks, pending[i..], rule) == MarkAll(marks, pending, rule)
    {
      var block := pending[i];
      assert pending[i..][0] == block && pending[i..][1..] == pending[i + 1..];
      var key := KeyOf(block.block);
      var paletteIndex: int;
      if key in cache {
        paletteIndex := cache[key];
      } else {
        var found := FirstMatch(newPalette, block.block);
        if found.Some? {
          paletteIndex := found.value;
          cache := cache[key := paletteIndex];
        } else {
          paletteIndex := |newPalette|;
          newPalette := newPalette + [ToCompound(block.block)];
          cache := cache[key := paletteIndex];
        }
      }
      var index := Slot(block.coordinates);
      a[index] := paletteIndex;
      var entity := PendingEntityKey(block.coordinates, rule);
      if entity in newMarks {
        newMarks := newMarks[entity := true];
      }
    }
  }

  /** The block-state part of the section write, over the reused array. */
  method WriteStatesInto(state: Compound, palette: seq<Compound>, pending: seq<BlockWithCoordinate>, a: array<int>,
                         marks: map<EntityKey, bool>, rule: EntityMatch) returns (r: Result<Compound>, newMarks: map<EntityKey, bool>)
    requires a.Length == BLOCK_DATA_LEN && InSection(pending)
    requires StatePalette(state) == Some(palette) && LongData(state)
    modifies a
    ensures WriteBlockStates(state, palette, pending, old(a[..])).Done?
    ensures var spec := WriteBlockStates(state, palette, pending, old(a[..])).value;
      (r.Ok? <==> spec.Ok?) && (r.Err? ==> r.error == spec.error) &&
      (r.Ok? ==> r.value == spec.value.compound && a[..] == spec.value.indexes && newMarks == MarkAll(marks, pending, rule))
  {
    newMarks := marks;
    var dataLen := DecodeInto(a, BlockBitCount(|palette|), LongArrayTag(state, "data"));
    var invalid := FindInvalidIndex(a, |palette|);
    if invalid.Some? {
      return Err(InvalidPaletteIndex(invalid.value)), newMarks;
    }
    var stored;
    stored, newMarks := StoreAppliedInto(state, palette, pending, a, dataLen, marks, rule);
    r := Ok(stored);
  }

  /** The pending loop, `clean_palette` and the re-encoding, over a decoded array whose indexes are all in range. */
  method StoreAppliedInto(state: Compound, palette: seq<Compound>, pending: seq<BlockWithCoordinate>, a: array<int>,
                          dataLen: nat, marks: map<EntityKey, bool>, rule: EntityMatch) returns (r: Compound, newMarks: map<EntityKey, bool>)
    requires a.Length == BLOCK_DATA_LEN && dataLen <= a.Length && InSection(pending)
    requires FirstInvalidFrom(a[..], |palette|, 0).None?
    requires LongData(state)
    modifies a
    ensures var applied := ApplyBlocks(palette, map[], old(a[..]), pending);
      var d2 := Renumbered(applied.indexes, dataLen);
      r == StoreBlockStates(state, Kept(applied.palette, applied.indexes), d2[..dataLen]) &&
      a[..] == d2 && newMarks == MarkAll(marks, pending, rule)
  {
    ghost var d0 := a[..];
    var grown;
    grown, newMarks := ApplyPending(a, palette, pending, marks, rule);
    ghost var d1 := a[..];
    InRangeAfterApply(palette, d0, pending);
    RenumberedFits(grown, d1);
    var kept := CleanPalette(a, dataLen, grown);
    assert a[..] == Renumbered(d1, dataLen);
    RenumberedPrefixFits(grown, d1, dataLen);
    var withPalette := state["palette" := TList(CompoundList(kept))];
    if |kept| == 1 {
      r := withPalette - {"data"};
    } else {
      r := EncodeData(dataLen, BlockBitCount(|kept|), a[..dataLen], withPalette);
    }
  }

  /** One section of `ChunkData::write_blocks` that has pending blocks, over the reused array. */
  method WriteSectionBlocks(section: Compound, pending: seq<BlockWithCoordinate>, a: array<int>, lighting: bool,
                            marks: map<EntityKey, bool>, rule: EntityMatch) returns (r: Result<Compound>, newMarks: map<EntityKey, bool>)
    requires a.Length == BLOCK_DATA_LEN && InSection(pending) && LongDataSection(section)
    modifies a
    ensures WriteBlockSection(section, pending, old(a[..]), lighting).Done?
    ensures var spec := WriteBlockSection(section, pending, old(a[..]), lighting).value;
      (r.Ok? <==> spec.Ok?) && (r.Err? ==> r.error == spec.error) &&
      (r.Ok? ==> r.value == spec.value.compound && a[..] == spec.value.indexes && newMarks == MarkAll(marks, pending, rule))
  {
    newMarks := marks;
    var lit := Relit(section, lighting);
    var maybeState := CompoundTag(lit, "block_states");
    if maybeState.None? {
      return Err(MissingNbtTag("block_states")), newMarks;
    }
    var state := maybeState.value;
    var list := ListTag(state, "palette");
    if list.None? {
      return Err(MissingNbtTag("palette")), newMarks;
    }
    if !list.value.CompoundList? {
      return Err(InvalidNbtList("palette")), newMarks;
    }
    assert CompoundTag(section, "block_states") == Some(state);
    var written;
    written, newMarks := WriteStatesInto(state, list.value.compounds, pending, a, marks, rule);
    if written.Err? {
      return Err(written.error), newMarks;
    }
    r := Ok(lit["block_states" := TCompound(written.value)]);
  }
}
