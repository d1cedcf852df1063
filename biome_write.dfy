/**
 * Writing the pending biomes of one chunk section into its biome states
 * (write.rs `ChunkData::write_biomes`, the body of the per-section loop):
 * decode the 64 palette indexes into the reused array, intern each pending
 * biome id into the string palette (appending it when absent), store its
 * index at the cell's slot, compact the palette, and either drop the index
 * data (one entry left) or re-encode it at the biome width.
 *
 * The source decodes at the block width (`get_block_bit_count`) but encodes
 * at the biome width. `WriteBiomeStatesAsWritten` keeps that decode;
 * `WriteBiomeStates`, which the rest of the model uses, decodes at the
 * biome width it encodes with.
 */
module BiomeWrite {
  import opened Ints
  import opened Arith
  import opened Errors
  import opened Nbt
  import opened RegionRules
  import opened PackedData
  import opened Palette
  import opened BiomeCells
  import opened SectionWrite

  // ---- interning pending biome ids into the palette ----

  /** `palette.iter().position(|b| b == id)` for an id the palette holds: its first occurrence. */
  function IndexOf(p: seq<string>, id: string): (r: nat)
    requires id in p
    ensures r < |p| && p[r] == id && forall j :: 0 <= j < r ==> p[j] != id
  {
    if p[0] == id then 0 else 1 + IndexOf(p[1..], id)
  }

  datatype BiomeInterned = BiomeInterned(palette: seq<string>, cache: map<string, int>, index: int)

  /**
   * The palette index of one pending biome: the cached index if the id was
   * seen before in this section, else the id's position after appending it
   * when the palette lacks it.
   */
  function InternBiome(palette: seq<string>, cache: map<string, int>, id: string): (r: BiomeInterned)
    ensures palette <= r.palette
  {
    if id in cache then BiomeInterned(palette, cache, cache[id])
    else
      var grown := if id in palette then palette else palette + [id];
      var i := IndexOf(grown, id);
      BiomeInterned(grown, cache[id := i], i)
  }

  /** Every cached index names the palette entry holding its id. */
  predicate BiomeCacheReads(palette: seq<string>, cache: map<string, int>)
  {
    forall id :: id in cache ==> 0 <= cache[id] < |palette| && palette[cache[id]] == id
  }

  /**
   * The interned index names the id, the cache stays truthful, and the
   * palette gains the id exactly when it lacked it.
   */
  lemma InternBiomeReadsBack(palette: seq<string>, cache: map<string, int>, id: string)
    requires BiomeCacheReads(palette, cache)
    ensures var r := InternBiome(palette, cache, id);
      BiomeCacheReads(r.palette, r.cache) && 0 <= r.index < |r.palette| && r.palette[r.index] == id &&
      r.palette == if id in palette then palette else palette + [id]
  {
    if id !in cache {
      var grown := if id in palette then palette else palette + [id];
      var i := IndexOf(grown, id);
      var c := cache[id := i];
      forall k | k in c ensures 0 <= c[k] < |grown| && grown[c[k]] == k {
        if k != id {
          assert grown[cache[k]] == palette[cache[k]];
        }
      }
    }
  }

  /** No id occurs twice. */
  predicate Distinct(p: seq<string>)
  {
    forall i, j :: 0 <= i < j < |p| ==> p[i] != p[j]
  }

  /** Interning never duplicates a palette entry. */
  lemma InternBiomeKeepsDistinct(palette: seq<string>, cache: map<string, int>, id: string)
    requires BiomeCacheReads(palette, cache) && Distinct(palette)
    ensures Distinct(InternBiome(palette, cache, id).palette)
  {
    InternBiomeReadsBack(palette, cache, id);
  }

  // ---- storing indexes ----

  /** Every pending biome's cell slot lies inside the 64-entry array (true for in-range cells). */
  predicate BiomesInSection(pending: seq<BiomeCellWithId>)
  {
    forall i :: 0 <= i < |pending| ==> BiomeSlot(pending[i].cell) < BIOME_DATA_LEN
  }

  lemma BiomesInSectionTail(pending: seq<BiomeCellWithId>)
    requires BiomesInSection(pending) && pending != []
    ensures BiomesInSection(pending[1..])
  {
    forall i | 0 <= i < |pending[1..]| ensures BiomeSlot(pending[1..][i].cell) < BIOME_DATA_LEN {
      assert pending[1..][i] == pending[i + 1];
    }
  }

  /** The last pending biome whose cell has slot `s`, if any. */
  function LastBiomeWrite(pending: seq<BiomeCellWithId>, s: int): (r: Option<nat>)
    ensures r.Some? ==> r.value < |pending| && BiomeSlot(pending[r.value].cell) == s &&
                        forall j :: r.value < j < |pending| ==> BiomeSlot(pending[j].cell) != s
    ensures r.None? ==> forall j :: 0 <= j < |pending| ==> BiomeSlot(pending[j].cell) != s
    decreases |pending|
  {
    if pending == [] then None
    else
      match LastBiomeWrite(pending[1..], s)
      case Some(j) => Some(j + 1)
      case None => if BiomeSlot(pending[0].cell) == s then Some(0) else None
  }

  datatype BiomesApplied = BiomesApplied(palette: seq<string>, indexes: seq<int>)

  /** The pending loop: each biome in order is interned and its index stored at its cell's slot. */
  function ApplyBiomes(palette: seq<string>, cache: map<string, int>, indexes: seq<int>,
                       pending: seq<BiomeCellWithId>): (r: BiomesApplied)
    requires |indexes| == BIOME_DATA_LEN && BiomesInSection(pending)
    ensures |r.indexes| == BIOME_DATA_LEN && palette <= r.palette
    decreases |pending|
  {
    if pending == [] then BiomesApplied(palette, indexes)
    else
      var it := InternBiome(palette, cache, pending[0].id);
      ApplyBiomes(it.palette, it.cache, indexes[BiomeSlot(pending[0].cell) := it.index], pending[1..])
  }

  /** What slot `s` holds after the pending loop: the id of the last write to it, or its index from before. */
  predicate BiomeOutcome(r: BiomesApplied, indexes: seq<int>, pending: seq<BiomeCellWithId>, s: int)
    requires 0 <= s < |r.indexes| && 0 <= s < |indexes|
  {
    match LastBiomeWrite(pending, s)
    case Some(j) => 0 <= r.indexes[s] < |r.palette| && r.palette[r.indexes[s]] == pending[j].id
    case None => r.indexes[s] == indexes[s]
  }

  /**
   * After the pending loop a slot that some pending biome targets names the
   * id of the last such biome; any other slot keeps its index.
   */
  lemma {:induction false} ApplyBiomesReadsBack(palette: seq<string>, cache: map<string, int>, indexes: seq<int>,
                                                pending: seq<BiomeCellWithId>, s: int)
    requires |indexes| == BIOME_DATA_LEN && BiomesInSection(pending)
    requires BiomeCacheReads(palette, cache) && 0 <= s < BIOME_DATA_LEN
    ensures BiomeOutcome(ApplyBiomes(palette, cache, indexes, pending), indexes, pending, s)
    decreases |pending|
  {
    if pending != [] {
      var it := InternBiome(palette, cache, pending[0].id);
      InternBiomeReadsBack(palette, cache, pending[0].id);
      BiomesInSectionTail(pending);
      ApplyBiomesReadsBack(it.palette, it.cache, indexes[BiomeSlot(pending[0].cell) := it.index], pending[1..], s);
      var r := ApplyBiomes(palette, cache, indexes, pending);
      assert r == ApplyBiomes(it.palette, it.cache, indexes[BiomeSlot(pending[0].cell) := it.index], pending[1..]);
      BiomeOutcomeStep(r, indexes, pending, s, it.index, it.palette);
    }
  }

  /** One step of `ApplyBiomesReadsBack`: the first biome stored at its slot, then the rest. */
  lemma BiomeOutcomeStep(r: BiomesApplied, indexes: seq<int>, pending: seq<BiomeCellWithId>, s: int,
                         index: int, p: seq<string>)
    requires pending != [] && BiomesInSection(pending) && 0 <= s < BIOME_DATA_LEN
    requires |indexes| == BIOME_DATA_LEN && |r.indexes| == BIOME_DATA_LEN
    requires p <= r.palette && 0 <= index < |p| && p[index] == pending[0].id
    requires BiomeOutcome(r, indexes[BiomeSlot(pending[0].cell) := index], pending[1..], s)
    ensures BiomeOutcome(r, indexes, pending, s)
  {
    match LastBiomeWrite(pending[1..], s)
    case Some(j) =>
      assert pending[1..][j] == pending[j + 1];
    case None =>
      if BiomeSlot(pending[0].cell) == s {
        PrefixEntry(p, r.palette, index);
      }
  }

  lemma PrefixEntry(p: seq<string>, q: seq<string>, i: int)
    requires p <= q && 0 <= i < |p|
    ensures i < |q| && q[i] == p[i]
  {
  }

  /** With every index in range before the loop, every index is in range after it. */
  lemma {:induction false} ApplyBiomesInRange(palette: seq<string>, cache: map<string, int>, indexes: seq<int>,
                                              pending: seq<BiomeCellWithId>)
    requires |indexes| == BIOME_DATA_LEN && BiomesInSection(pending)
    requires BiomeCacheReads(palette, cache) && IndexesIn(indexes, |palette|)
    ensures var r := ApplyBiomes(palette, cache, indexes, pending); IndexesIn(r.indexes, |r.palette|)
    decreases |pending|
  {
    if pending != [] {
      var it := InternBiome(palette, cache, pending[0].id);
      InternBiomeReadsBack(palette, cache, pending[0].id);
      BiomesInSectionTail(pending);
      ApplyBiomesInRange(it.palette, it.cache, indexes[BiomeSlot(pending[0].cell) := it.index], pending[1..]);
    }
  }

  // ---- decoding ----

  /** write.rs:424 as written: the biome indexes decoded at the block width of the palette length. */
  function BiomeIndexesAsWritten(state: Compound, palette: seq<string>): (xs: seq<int>)
    ensures |xs| <= BIOME_DATA_LEN
  {
    Decoded(BIOME_DATA_LEN, BlockBitCount(|palette|), LongArrayTag(state, "data"))
  }

  /**
   * The biome indexes as stored: `get_biome_bit_count` bits each. With at
   * most one palette entry that width is 0: a data tag, even when present,
   * is not read (at width 0 the word loop of `decode_data` never ends) and every
   * cell names entry 0, which is all a one-entry palette can mean.
   */
  function BiomeIndexes(state: Compound, palette: seq<string>): (xs: seq<int>)
    ensures |xs| <= BIOME_DATA_LEN
    ensures BiomeBitCount(|palette|) == 0 ==> xs == Zeros(BIOME_DATA_LEN)
  {
    var w := BiomeBitCount(|palette|);
    if w == 0 then Decoded(BIOME_DATA_LEN, 0, None) else Decoded(BIOME_DATA_LEN, w, LongArrayTag(state, "data"))
  }

  /**
   * A two-entry biome palette whose data sets only bit 16 stores the second
   * biome at cell 16. Decoding at the block width (4 bits) reads 16 entries,
   * puts the second biome at cell 4 and leaves cells 16 to 63 undecoded;
   * decoding at the biome width (1 bit) reads it back where it was written.
   */
  lemma BiomeIndexesAsWrittenMisreads()
    ensures var p := ["minecraft:plains", "minecraft:desert"];
      var state := map["palette" := TList(StringList(p)), "data" := TLongArray([0x1_0000])];
      var asWritten := BiomeIndexesAsWritten(state, p);
      var stored := BiomeIndexes(state, p);
      |asWritten| == 16 && asWritten[4] == 1 &&
      |stored| == BIOME_DATA_LEN && stored[4] == 0 && stored[16] == 1
  {
    var p := ["minecraft:plains", "minecraft:desert"];
    var state := map["palette" := TList(StringList(p)), "data" := TLongArray([0x1_0000])];
    Pow2Half();
    assert Pow2(4) == 16 && Pow2(1) == 2;
    assert 4 * 4 == 16 && 16 * 1 == 16 && 4 * 1 == 4;
    assert Unpack([0x1_0000], 4) == Fields(0x1_0000, 4) + Unpack([], 4);
    assert Unpack([0x1_0000], 1) == Fields(0x1_0000, 1) + Unpack([], 1);
    assert Field(0x1_0000, 4, 4) == 1;
    assert Field(0x1_0000, 4, 1) == (0x1_0000 / 16) % 2 == 0;
    assert Field(0x1_0000, 16, 1) == 1;
  }

  // ---- the biome states after the write ----

  /** The string palette of a biome-state compound, if it has one. */
  function BiomePalette(state: Compound): Option<seq<string>>
  {
    match ListTag(state, "palette")
    case Some(StringList(p)) => Some(p)
    case _ => None
  }

  /** The biome-state compound after writing: the compacted palette, no data for one entry, re-encoded data otherwise. */
  function StoreBiomeStates(state: Compound, kept: seq<string>, indexes: seq<int>): (r: Compound)
    requires |kept| >= 1
    ensures BiomePalette(r) == Some(kept)
    ensures |kept| == 1 ==> "data" !in r
    ensures |kept| != 1 ==> LongArrayTag(r, "data") == Some(Pack(indexes, BiomeBitCount(|kept|)))
    ensures forall k :: k != "palette" && k != "data" ==> (k in r <==> k in state) && (k in r ==> r[k] == state[k])
  {
    var withPalette := state["palette" := TList(StringList(kept))];
    if |kept| == 1 then withPalette - {"data"}
    else withPalette["data" := TLongArray(Pack(indexes, BiomeBitCount(|kept|)))]
  }

  /** Some entry of a non-empty index array in range is used, so the compacted palette is not empty. */
  lemma KeptNonEmpty<T>(p: seq<T>, d: seq<int>)
    requires |d| >= 1 && IndexesIn(d, |p|)
    ensures |Kept(p, d)| >= 1
  {
    CompactedPalette(p, d);
    assert Used(d, d[0]);
  }

  /**
   * The biome states after the pending loop, given the decoded indexes:
   * a pending cell outside the section panics in the loop, and
   * `clean_palette` panics on an index outside the grown palette (its
   * count vector is indexed by it), and `encode_data` panics on a data tag
   * that is not a long array; otherwise compact and store the first
   * `data_len` renumbered entries, as many as were decoded.
   */
  function WriteBiomeStatesFrom(state: Compound, decoded: seq<int>, palette: seq<string>,
                                pending: seq<BiomeCellWithId>, stale: seq<int>): (r: Checked<Written>)
    requires |decoded| <= BIOME_DATA_LEN && |stale| == BIOME_DATA_LEN
    ensures r.Done? ==> |r.value.indexes| == BIOME_DATA_LEN && BiomesInSection(pending)
  {
    if !BiomesInSection(pending) then Panics
    else
    var d0 := Overlay(stale, decoded);
    var applied := ApplyBiomes(palette, map[], d0, pending);
    if !IndexesIn(applied.indexes, |applied.palette|) then Panics
    else
      KeptNonEmpty(applied.palette, applied.indexes);
      var kept := Kept(applied.palette, applied.indexes);
      var d2 := Renumbered(applied.indexes, |decoded|);
      if |kept| != 1 && !LongData(state) then Panics
      else Done(Written(StoreBiomeStates(state, kept, d2[..|decoded|]), d2))
  }

  /** write.rs:405-467 as written, on one section's biome states: decoding at the block width. */
  function WriteBiomeStatesAsWritten(state: Compound, palette: seq<string>, pending: seq<BiomeCellWithId>,
                                     stale: seq<int>): (r: Checked<Written>)
    requires |stale| == BIOME_DATA_LEN
    ensures r.Done? ==> |r.value.indexes| == BIOME_DATA_LEN && BiomesInSection(pending)
  {
    WriteBiomeStatesFrom(state, BiomeIndexesAsWritten(state, palette), palette, pending, stale)
  }

  /** One section's biome states, decoding at the biome width the write encodes with. */
  function WriteBiomeStates(state: Compound, palette: seq<string>, pending: seq<BiomeCellWithId>,
                            stale: seq<int>): (r: Checked<Written>)
    requires |stale| == BIOME_DATA_LEN
    ensures r.Done? ==> |r.value.indexes| == BIOME_DATA_LEN && BiomesInSection(pending)
  {
    WriteBiomeStatesFrom(state, BiomeIndexes(state, palette), palette, pending, stale)
  }

  /**
   * One section of `ChunkData::write_biomes` that has pending biomes: the
   * section's "biomes" compound must hold a string palette; `stale` is the
   * reused index array as the previous section left it.
   */
  function WriteBiomeSection(section: Compound, pending: seq<BiomeCellWithId>, stale: seq<int>): (r: Checked<Result<Written>>)
    requires |stale| == BIOME_DATA_LEN
    ensures r.Done? && r.value.Ok? ==> |r.value.value.indexes| == BIOME_DATA_LEN && BiomesInSection(pending)
  {
    match CompoundTag(section, "biomes")
    case None => Done(Err(MissingNbtTag("biomes")))
    case Some(state) =>
      match ListTag(state, "palette")
      case None => Done(Err(MissingNbtTag("palette")))
      case Some(list) =>
        if !list.StringList? then Done(Err(InvalidNbtList("palette")))
        else
          match WriteBiomeStates(state, list.strings, pending, stale)
          case Panics => Panics
          case Done(w) => Done(Ok(Written(section["biomes" := TCompound(w.compound)], w.indexes)))
  }

  // ---- reading biome states back ----

  /** Biome states whose data, when present, is a long array that decodes to all 64 entries. */
  predicate FullBiomeStates(state: Compound)
  {
    ("data" in state ==> state["data"].TLongArray?) &&
    match BiomePalette(state)
    case None => true
    case Some(p) => |BiomeIndexes(state, p)| == BIOME_DATA_LEN
  }

  predicate FullBiomeSection(section: Compound)
  {
    match CompoundTag(section, "biomes")
    case None => true
    case Some(state) => FullBiomeStates(state)
  }

  /** The biome id a slot of a biome-state compound names. */
  function StoredBiome(state: Compound, s: int): Option<string>
  {
    match BiomePalette(state)
    case None => None
    case Some(p) =>
      var d := BiomeIndexes(state, p);
      if 0 <= s < |d| && 0 <= d[s] < |p| then Some(p[d[s]]) else None
  }

  /** The biome id a slot of a section names. */
  function StoredSectionBiome(section: Compound, s: int): Option<string>
  {
    match CompoundTag(section, "biomes")
    case None => None
    case Some(state) => StoredBiome(state, s)
  }

  /** The renumbered array fits the biome width of the compacted palette, which has 1 to 64 entries. */
  lemma BiomeRenumberedFits(p: seq<string>, d: seq<int>)
    requires |d| == BIOME_DATA_LEN && IndexesIn(d, |p|)
    ensures 1 <= |Kept(p, d)| <= BIOME_DATA_LEN
    ensures IndexesIn(Renumbered(d, |d|), |Kept(p, d)|)
    ensures |Kept(p, d)| >= 2 ==> 1 <= BiomeBitCount(|Kept(p, d)|) <= 6 && Fits(Renumbered(d, |d|), BiomeBitCount(|Kept(p, d)|))
  {
    KeptAtMostData(p, d);
    KeptNonEmpty(p, d);
    CompactedPalette(p, d);
    var n := |Kept(p, d)|;
    var r := Renumbered(d, |d|);
    BiomeBitCountIsLeastWidth(n);
    PowersUpTo12();
    forall k | 0 <= k < |r| ensures 0 <= r[k] < n {
      assert Used(d, d[k]);
    }
  }

  /** The renumbered prefix that `encode_data` stores fits the biome width of a compacted palette with two or more entries. */
  lemma BiomeRenumberedPrefixFits(p: seq<string>, d: seq<int>, n: nat)
    requires |d| == BIOME_DATA_LEN && IndexesIn(d, |p|) && n <= |d| && |Kept(p, d)| >= 2
    ensures 1 <= BiomeBitCount(|Kept(p, d)|) <= 6 && Fits(Renumbered(d, n)[..n], BiomeBitCount(|Kept(p, d)|))
  {
    BiomeRenumberedFits(p, d);
    var full := Renumbered(d, |d|);
    assert forall k :: 0 <= k < n ==> Renumbered(d, n)[..n][k] == full[k];
  }

  /** Compacting and storing keeps the id every slot names. */
  lemma StoredBiomeAfterCompact(state: Compound, p: seq<string>, d: seq<int>, s: int)
    requires |d| == BIOME_DATA_LEN && IndexesIn(d, |p|) && 0 <= s < BIOME_DATA_LEN
    ensures |Kept(p, d)| >= 1
    ensures StoredBiome(StoreBiomeStates(state, Kept(p, d), Renumbered(d, |d|)), s) == Some(p[d[s]])
  {
    var kept := Kept(p, d);
    var d2 := Renumbered(d, |d|);
    BiomeRenumberedFits(p, d);
    CompactedPalette(p, d);
    assert Used(d, d[s]);
    var out := StoreBiomeStates(state, kept, d2);
    if |kept| == 1 {
      assert d2[s] == 0;
    } else {
      DecodeEncode(d2, BiomeBitCount(|kept|));
    }
    assert BiomeIndexes(out, kept)[s] == d2[s];
  }

  /** The written biome states are the stored compaction of the applied array, on full states. */
  lemma WriteBiomeStatesValue(state: Compound, palette: seq<string>, pending: seq<BiomeCellWithId>, stale: seq<int>)
    requires |stale| == BIOME_DATA_LEN && BiomesInSection(pending)
    requires BiomePalette(state) == Some(palette) && FullBiomeStates(state)
    requires WriteBiomeStates(state, palette, pending, stale).Done?
    ensures var d0 := BiomeIndexes(state, palette);
      |d0| == BIOME_DATA_LEN &&
      var applied := ApplyBiomes(palette, map[], d0, pending);
      IndexesIn(applied.indexes, |applied.palette|) && |Kept(applied.palette, applied.indexes)| >= 1 &&
      WriteBiomeStates(state, palette, pending, stale).value ==
        Written(StoreBiomeStates(state, Kept(applied.palette, applied.indexes), Renumbered(applied.indexes, BIOME_DATA_LEN)),
                Renumbered(applied.indexes, BIOME_DATA_LEN))
  {
    var d0 := BiomeIndexes(state, palette);
    assert Overlay(stale, d0) == d0;
    var applied := ApplyBiomes(palette, map[], d0, pending);
    KeptNonEmpty(applied.palette, applied.indexes);
    var d2 := Renumbered(applied.indexes, BIOME_DATA_LEN);
    assert d2[..|d0|] == d2;
  }

  /**
   * Reading written biome states back: a slot some pending biome targets
   * names the id of the last such biome, and every other slot that named an
   * id before still names it.
   */
  lemma WriteBiomeStatesReadsBack(state: Compound, palette: seq<string>, pending: seq<BiomeCellWithId>,
                                  stale: seq<int>, s: int)
    requires |stale| == BIOME_DATA_LEN && BiomesInSection(pending) && 0 <= s < BIOME_DATA_LEN
    requires BiomePalette(state) == Some(palette) && FullBiomeStates(state)
    requires WriteBiomeStates(state, palette, pending, stale).Done?
    ensures var out := WriteBiomeStates(state, palette, pending, stale).value.compound;
      StoredBiome(out, s).Some? &&
      (LastBiomeWrite(pending, s).Some? ==> StoredBiome(out, s) == Some(pending[LastBiomeWrite(pending, s).value].id)) &&
      (LastBiomeWrite(pending, s).None? && StoredBiome(state, s).Some? ==> StoredBiome(out, s) == StoredBiome(state, s))
  {
    WriteBiomeStatesValue(state, palette, pending, stale);
    var d0 := BiomeIndexes(state, palette);
    var applied := ApplyBiomes(palette, map[], d0, pending);
    StoredBiomeAfterCompact(state, applied.palette, applied.indexes, s);
    ApplyBiomesReadsBack(palette, map[], d0, pending, s);
    if LastBiomeWrite(pending, s).None? && StoredBiome(state, s).Some? {
      assert applied.palette[d0[s]] == palette[d0[s]];
    }
  }

  /** Reading a written section back, slot by slot, as for its biome states. */
  lemma WriteBiomeSectionReadsBack(section: Compound, pending: seq<BiomeCellWithId>, stale: seq<int>, s: int)
    requires |stale| == BIOME_DATA_LEN && BiomesInSection(pending) && 0 <= s < BIOME_DATA_LEN
    requires FullBiomeSection(section)
    requires WriteBiomeSection(section, pending, stale).Done? && WriteBiomeSection(section, pending, stale).value.Ok?
    ensures var out := WriteBiomeSection(section, pending, stale).value.value.compound;
      StoredSectionBiome(out, s).Some? &&
      (LastBiomeWrite(pending, s).Some? ==> StoredSectionBiome(out, s) == Some(pending[LastBiomeWrite(pending, s).value].id)) &&
      (LastBiomeWrite(pending, s).None? && StoredSectionBiome(section, s).Some? ==>
         StoredSectionBiome(out, s) == StoredSectionBiome(section, s))
  {
    var state := CompoundTag(section, "biomes").value;
    WriteBiomeStatesReadsBack(state, BiomePalette(state).value, pending, stale, s);
  }

  /** Full biome states whose indexes all name a palette entry are written without a panic. */
  lemma WriteBiomeStatesNoPanic(state: Compound, palette: seq<string>, pending: seq<BiomeCellWithId>, stale: seq<int>)
    requires |stale| == BIOME_DATA_LEN && BiomesInSection(pending)
    requires BiomePalette(state) == Some(palette) && FullBiomeStates(state)
    requires IndexesIn(BiomeIndexes(state, palette), |palette|)
    ensures WriteBiomeStates(state, palette, pending, stale).Done?
  {
    var d0 := BiomeIndexes(state, palette);
    assert Overlay(stale, d0) == d0;
    ApplyBiomesInRange(palette, map[], d0, pending);
  }

  /** After a write every entry of the new palette is referenced by the indexes the write leaves. */
  lemma WriteBiomeStatesCompacts(state: Compound, palette: seq<string>, pending: seq<BiomeCellWithId>, stale: seq<int>)
    requires |stale| == BIOME_DATA_LEN && BiomesInSection(pending)
    requires BiomePalette(state) == Some(palette) && FullBiomeStates(state)
    requires WriteBiomeStates(state, palette, pending, stale).Done?
    ensures var w := WriteBiomeStates(state, palette, pending, stale).value;
      var kept := BiomePalette(w.compound).value;
      1 <= |kept| <= BIOME_DATA_LEN && IndexesIn(w.indexes, |kept|) &&
      forall j :: 0 <= j < |kept| ==> j in w.indexes
  {
    WriteBiomeStatesValue(state, palette, pending, stale);
    var d0 := BiomeIndexes(state, palette);
    var applied := ApplyBiomes(palette, map[], d0, pending);
    BiomeRenumberedFits(applied.palette, applied.indexes);
    var kept := Kept(applied.palette, applied.indexes);
    var d2 := Renumbered(applied.indexes, BIOME_DATA_LEN);
    forall j | 0 <= j < |kept| ensures j in d2 {
      var v := KeptEntrySource(applied.palette, applied.indexes, j);
      var k :| 0 <= k < |applied.indexes| && applied.indexes[k] == v;
      assert d2[k] == j;
    }
  }

  // ---- the imperative section write ----

  /** The pending loop over the array, interning with a fresh cache and storing each index at its cell's slot. */
  method ApplyBiomePending(a: array<int>, palette: seq<string>, pending: seq<BiomeCellWithId>)
    returns (newPalette: seq<string>)
    requires a.Length == BIOME_DATA_LEN && BiomesInSection(pending)
    modifies a
    ensures BiomesApplied(newPalette, a[..]) == ApplyBiomes(palette, map[], old(a[..]), pending)
  {
    var cache: map<string, int> := map[];
    newPalette := palette;
    for i := 0 to |pending|
      invariant BiomesInSection(pending[i..])
      invariant ApplyBiomes(newPalette, cache, a[..], pending[i..]) == ApplyBiomes(palette, map[], old(a[..]), pending)
    {
      var biome := pending[i];
      assert pending[i..][0] == biome && pending[i..][1..] == pending[i + 1..];
      var paletteIndex: int;
      if biome.id in cache {
        paletteIndex := cache[biome.id];
      } else {
        if biome.id !in newPalette {
          newPalette := newPalette + [biome.id];
        }
        paletteIndex := IndexOf(newPalette, biome.id);
        cache := cache[biome.id := paletteIndex];
      }
      a[BiomeSlot(biome.cell)] := paletteIndex;
    }
  }

  /** The biome-state part of the section write, over the reused array. */
  method WriteBiomeStatesInto(state: Compound, palette: seq<string>, pending: seq<BiomeCellWithId>, a: array<int>)
    returns (r: Compound)
    requires a.Length == BIOME_DATA_LEN && BiomesInSection(pending) && BiomePalette(state) == Some(palette)
    requires WriteBiomeStates(state, palette, pending, a[..]).Done?
    modifies a
    ensures var spec := WriteBiomeStates(state, palette, pending, old(a[..])).value;
      r == spec.compound && a[..] == spec.indexes
  {
    var w := BiomeBitCount(|palette|);
    var dataLen := DecodeInto(a, w, if w == 0 then None else LongArrayTag(state, "data"));
    assert a[..] == Overlay(old(a[..]), BiomeIndexes(state, palette));
    ghost var applied := ApplyBiomes(palette, map[], a[..], pending);
    KeptNonEmpty(applied.palette, applied.indexes);
    r := StoreBiomesAppliedInto(state, palette, pending, a, dataLen);
  }

  /** The pending loop, `clean_palette` and the re-encoding of the first `dataLen` entries, over a decoded array that stays in range. */
  method StoreBiomesAppliedInto(state: Compound, palette: seq<string>, pending: seq<BiomeCellWithId>, a: array<int>,
                                dataLen: nat) returns (r: Compound)
    requires a.Length == BIOME_DATA_LEN && dataLen <= a.Length && BiomesInSection(pending)
    requires var applied := ApplyBiomes(palette, map[], a[..], pending); IndexesIn(applied.indexes, |applied.palette|)
    requires var applied := ApplyBiomes(palette, map[], a[..], pending);
      |Kept(applied.palette, applied.indexes)| != 1 ==> LongData(state)
    modifies a
    ensures var applied := ApplyBiomes(palette, map[], old(a[..]), pending);
      var d2 := Renumbered(applied.indexes, dataLen);
      |Kept(applied.palette, applied.indexes)| >= 1 &&
      r == StoreBiomeStates(state, Kept(applied.palette, applied.indexes), d2[..dataLen]) && a[..] == d2
  {
    var grown := ApplyBiomePending(a, palette, pending);
    ghost var d1 := a[..];
    BiomeRenumberedFits(grown, d1);
    var kept := CleanPalette(a, dataLen, grown);
    assert a[..] == Renumbered(d1, dataLen);
    var withPalette := state["palette" := TList(StringList(kept))];
    if |kept| == 1 {
      r := withPalette - {"data"};
    } else {
      BiomeRenumberedPrefixFits(grown, d1, dataLen);
      r := EncodeData(dataLen, BiomeBitCount(|kept|), a[..dataLen], withPalette);
    }
  }

  /** One section of `ChunkData::write_biomes` that has pending biomes, over the reused array. */
  method WriteSectionBiomes(section: Compound, pending: seq<BiomeCellWithId>, a: array<int>) returns (r: Result<Compound>)
    requires a.Length == BIOME_DATA_LEN && BiomesInSection(pending)
    requires WriteBiomeSection(section, pending, a[..]).Done?
    modifies a
    ensures var spec := WriteBiomeSection(section, pending, old(a[..])).value;
      (r.Ok? <==> spec.Ok?) && (r.Err? ==> r.error == spec.error) &&
      (r.Ok? ==> r.value == spec.value.compound && a[..] == spec.value.indexes)
  {
    var maybeState := CompoundTag(section, "biomes");
    if maybeState.None? {
      return Err(MissingNbtTag("biomes"));
    }
    var state := maybeState.value;
    var list := ListTag(state, "palette");
    if list.None? {
      return Err(MissingNbtTag("palette"));
    }
    if !list.value.StringList? {
      return Err(InvalidNbtList("palette"));
    }
    var written := WriteBiomeStatesInto(state, list.value.strings, pending, a);
    r := Ok(section["biomes" := TCompound(written)]);
  }
}
