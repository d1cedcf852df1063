# silverfish — a Dafny model of the chunk-editing core

silverfish is a Rust library for editing Minecraft worlds stored in region
files. A region holds 32 × 32 chunks. Each chunk is an NBT compound whose
`sections` list holds one section per 16 Y values. A section stores its
blocks as a palette of block compounds plus a long array of palette indexes
packed `b` bits to a word. Its biomes are stored the same way, as 4 × 4 × 4
cells. Edits are queued in per-region or per-chunk buffers. A set at a
coordinate is accepted the first time and refused the second time. A flush
then decodes each touched section, interns the pending blocks into its
palette, writes their slots, compacts the palette and re-encodes the
indexes. Reads group coordinates by chunk and section and look the decoded
indexes up in the palette. A second snapshot of the crate adds coordinate
spaces, an operation queue on a `World`, a splitter that cuts a fill into
per-section pieces, grouping of operations by region, chunk and section,
and a standalone `modify_section` editor.

The model has one Dafny module per concern:

- `Ints`, `Errors` and `Arith` hold machine integers, the error variants and arithmetic helpers.
- `LocalCoords`, `WorldCoordinate` and `Nbt` model `coords.rs`, `coordinate.rs` and `nbt.rs`/`nbt_impls.rs`. The NBT tag tree is a datatype whose compounds are maps.
- `PackedData` models `data.rs`, the packed long-array codec. `EncodeData` and `DecodeData` are imperative and proved against `Packed`/`Decoded`.
- Two modules model `region.rs`. `RegionRules` holds the bit-width tables, `to_region_local`, `is_valid_chunk` and `get_empty_chunk`. `Palette` holds `clean_palette` as loops over arrays.
- `SectionWrite`, `BiomeWrite`, `ChunkWrite` and `SectionFill` model `write.rs`: the per-section flush of blocks and biomes, the chunk-level loops and `set_sections`.
- `FixedBits`, `BiomeCells` and `Chunk` model `chunk.rs` and the biome cells of `biome.rs`. `Chunk` has the class `ChunkData`, with its seen sets, pending maps and dirty flags.
- `Regions` models the `Region` class of `region.rs`, `write.rs` and `get.rs`. `BlockReads` and `BiomeReads` model `get.rs` and the reads of `biome.rs`.
- `RegionBuffers` and `BufferedRegions` model the region-level buffers of `set.rs` and `biome.rs` and the biome flush of `biome.rs`.
- `Paletted` models `paletted_blocks.rs`, with the class `PalettedBlocks` over an array of cells and an iterator class.
- `Operations`, `Split`, `Grouping`, `Worlds` and `SectionEditor` model `operation.rs`, `split.rs`, `grouping.rs`, `world.rs` and `main.rs`.

Code that changes state in place is modelled by classes and methods. Each such method is proved against a specification function of the old state. What the source promises is proved about those functions as lemmas.

The source holds two snapshots of the crate that do not fit together. The model keeps them apart, and each is consistent in itself:

- In the first, pending buffers live on `ChunkData` (`chunk.rs`, `write.rs`). This is the `Region` class.
- In the second, they live on the region (`set.rs`, `biome.rs`). This is the `BufferedRegion` class.

Where an inner function of one snapshot is not in the source, the model reconstructs it from its callers. This covers `decode_data` with the signature `write.rs` uses, and the `get_bit_count` of `get.rs`. For the two-argument `get_empty_chunk` of `biome.rs`, the empty chunk is a parameter.

## Model

| member | source | states |
|---|---|---|
| LocalCoords.FromTuple | src/coords.rs:24-28 | `Coords::from` and `Coords::new` store x, y and z unchanged |
| LocalCoords.AsTuple | src/coords.rs:30-40 | the tuple of a `Coords` converts back to the same `Coords` |
| LocalCoords.TupleRoundTrip | src/coords.rs:42-63 | `Coords::from(t).as_tuple() == t` for every (u32, i32, u32); `Coords == tuple` holds iff the coords are the ones built from the tuple |
| WorldCoordinate.Dc | src/coordinate.rs:85-87 | `dc(v, m)` is the floor of v / m |
| WorldCoordinate.Normalize | src/coordinate.rs:26-48 | the result is a Default coordinate scaled by the type's factor: 1, 8 for Nether, 16 for Chunk and 512 for Region |
| WorldCoordinate.AsOverworld | src/coordinate.rs:50-52 | `as_overworld` returns the coordinate unchanged |
| WorldCoordinate.AsNether | src/coordinate.rs:54-62 | Nether type, each component floor(normalized / 8) |
| WorldCoordinate.AsChunk | src/coordinate.rs:64-72 | Chunk type, each component floor(normalized / 16) |
| WorldCoordinate.AsRegion | src/coordinate.rs:74-83 | `as_region`, which divides by 16 then by 32, gives a Region coordinate equal to floor(normalized / 512) componentwise |
| WorldCoordinate.NormalizeIdempotent | src/coordinate.rs:26-48 | normalizing twice equals normalizing once |
| WorldCoordinate.GridConversionsIdempotent | src/coordinate.rs:64-83 | converting a Chunk coordinate to chunks, or a Region coordinate to regions, changes nothing; the region of the chunk is the region |
| WorldCoordinate.InsideOwnChunk | src/coordinate.rs:26-83 | along each of the three axes, a coordinate lies inside the 16 blocks of its chunk and the 512 blocks of its region |
| Nbt.PopulateNamespace | src/nbt.rs:132-138 | the result contains ':' and ends with the id; an id with ':' is unchanged; otherwise "minecraft:" is prefixed |
| Nbt.PopulateNamespaceIdempotent | src/nbt.rs:132-138 | populating twice equals populating once |
| Nbt.IntoNamespaced | src/nbt.rs:405-412 | the result is always `Namespaced`; a `Namespaced` name is unchanged; an `Id` gets a namespace, kept when it already has one |
| Nbt.IntoNamespacedIdempotent | src/nbt.rs:405-412 | `into_namespaced` is idempotent |
| Nbt.NameEqIgnoresVariant | src/nbt_impls.rs:189-193 | name equality compares the raw strings whatever the variant; so `Namespaced("minecraft:lime_wool")` differs from `Id("lime_wool")` |
| Nbt.NameFromText | src/nbt_impls.rs:165-181 | `Into<Name>` for text yields an `Id` on the same text, whose namespaced form is the populated text |
| Nbt.NewBlock | src/nbt_impls.rs:34-50 | `Into<Block>` and `Block::new`/`try_new` yield the name with no properties |
| Nbt.InsertAllKeys | src/nbt.rs:85-100 | the keys after a sequence of inserts are the old keys plus every inserted key |
| Nbt.InsertAllLastWins | src/nbt.rs:85-100 | a key maps to the value of its last insert, so a later duplicate overwrites an earlier one |
| Nbt.InsertAllUntouched | src/nbt.rs:85-100 | a key that no insert names keeps its old value |
| Nbt.NewBlockWithProps | src/nbt.rs:85-100 | `try_new_with_props` always has `Some` properties with exactly the given keys, each mapped to its last value |
| Nbt.PropertiesCompound | src/nbt.rs:175-190 | the written property compound has the same keys, each a string tag of its value |
| Nbt.ToCompound | src/nbt.rs:175-190 | `to_compound` writes the namespaced Name, and writes Properties iff they are `Some` and non-empty; no other key |
| Nbt.FromCompound | src/nbt.rs:143-170 | a missing Name gives `MissingNbtTag("Name")`; a result is `Namespaced` and never has `Some(empty)` properties |
| Nbt.FromToCompound | src/nbt.rs:143-190 | reading back what `to_compound` wrote gives the block with its name namespaced and empty properties dropped |
| Nbt.FromToCompoundEq | src/nbt.rs:143-190 | for a block with a namespaced name and without `Some(empty)` properties, the round trip gives an equal block |
| Nbt.EqOwnCompound | src/nbt_impls.rs:203-245 | a block equals its own compound iff it does not carry `Some(empty)` properties |
| Nbt.EqCompoundReadsBack | src/nbt_impls.rs:203-245 | a compound a block compares equal to reads back as the block's normal form |
| Nbt.HashAgreesWithEq | src/nbt_impls.rs:52-62 | equal blocks feed the hasher the same name and (key, value) pairs; `None` and `Some(empty)` hash alike but differ |
| RegionRules.TruncDiv | src/chunk.rs:117-124 | Rust's signed `/` rounds toward zero, for both signs of the dividend |
| RegionRules.BlockBitCountIsLeastWidth | src/region.rs:320-333 | the block width is 4 up to 16 entries, then the least b with len ≤ 2^b up to 4096 entries, and 13 beyond |
| RegionRules.BlockIndexesFit | src/region.rs:320-333 | every index into a palette of at most 4096 entries fits the block width |
| RegionRules.BiomeBitCountIsLeastWidth | src/region.rs:335-345 | the biome width is 0 for at most one entry, the least b with len ≤ 2^b up to 32 entries, and 6 beyond |
| RegionRules.BitCountsMonotone | src/region.rs:320-345 | both tables are monotone in the palette length |
| RegionRules.BitCountsAgree | src/region.rs:320-345 | the block and biome tables agree exactly on the lengths 9 to 64 |
| RegionRules.BitCountExamples | src/region.rs:526-540 | the test values: 0→4, 58→6, 1754→11, 8572728→13 for blocks; 0→0, 4→2, 7→3, 25→5, 8572728→6 for biomes |
| RegionRules.ToRegionLocalIsFloorMod | src/region.rs:415-422 | local x and z lie in [0, 512) and are congruent to the global ones modulo 512; y is unchanged |
| RegionRules.ToRegionLocalExamples | src/region.rs:497-501 | the test values: (-841,-17,4821)→(183,-17,213), (851,85,-481)→(339,85,31), (52,-81,381) unchanged |
| RegionRules.IsValidChunk | src/region.rs:425-448 | Ok iff Status is "minecraft:full" and DataVersion ≥ 2860; otherwise `MissingNbtTag`, `NotFullyGenerated` or `UnsupportedVersion`, checked in that order |
| RegionRules.EmptySections | src/region.rs:350-404 | one empty section per Y from lo up to but excluding hi, in order |
| RegionRules.EmptyChunkShape | src/region.rs:350-404 | the empty chunk passes `is_valid_chunk`, has xPos = rx·32+cx, zPos = rz·32+cz, isLightOn 0 and one section per Y in [start/16, end/16) |
| RegionRules.EmptyChunkExamples | src/region.rs:504-523 | the default height gives 24 sections with Y from -4; chunk (15,9) of region (2,-5) sits at (79, -151) |
| PackedData.PerWord | src/data.rs:15 | k entries of b bits fit in a word exactly when k·b ≤ 64 < k·b + b, and 1 ≤ k ≤ 64 |
| PackedData.ToI64Pattern | src/data.rs:10-12 | the stored i64 has the packed bit pattern as its remainder modulo 2^64 |
| PackedData.WordValueBound | src/data.rs:11-13 | entries of b bits packed low bits first give a value below 2^(n·b) |
| PackedData.WordFits | src/data.rs:11-20 | a word holding at most floor(64/b) entries fits in 64 bits |
| PackedData.Field | src/data.rs:44-47 | each field read by `(word >> (o·b)) & mask` lies in [0, 2^b) |
| PackedData.Fields | src/data.rs:46-52 | each word yields exactly floor(64/b) fields |
| PackedData.Decoded | src/data.rs:36-61 | `decode_data` never yields more than `size` entries |
| PackedData.FieldOfWordValue | src/data.rs:11-20 | field o of a packed word is entry o, or 0 past the last entry |
| PackedData.FieldOfToI64 | src/data.rs:44-47 | the arithmetic shift of the signed word reads the same field as the unsigned bit pattern |
| PackedData.FitsInWordIff | src/data.rs:15 | another entry fits in the word iff fewer than floor(64/b) are in it |
| PackedData.FieldsOfPackedWord | src/data.rs:11-20 | no entry straddles two words: the fields of a packed word are its entries, then zero padding |
| PackedData.UnpackAppend | src/data.rs:45-54 | decoding words one after another distributes over concatenation |
| PackedData.UnpackLength | src/data.rs:45-54 | the words decode to floor(64/b) entries each |
| PackedData.PackLength | src/data.rs:11-24 | the encoding has ceil(n / floor(64/b)) words; a partial last word is emitted only when it holds an entry |
| PackedData.UnpackPack | src/data.rs:6-61 | unpacking the packed words gives the entries, then zeros to the end of the last word |
| PackedData.DecodeEncode | src/data.rs:6-61 | decoding `size = n` entries of the encoding of n entries gives them back, for every width 1 ≤ b ≤ 63 at which `src/data.rs:44` builds its mask, and entries below 2^b |
| PackedData.DecodeEncodePadded | src/data.rs:6-61 | with room for more entries, decoding yields the entries followed only by zeros |
| PackedData.UnpackFits | src/data.rs:44-52 | every decoded field fits in b bits |
| PackedData.DecodedShape | src/data.rs:36-61 | no data decodes as `size` zeros; otherwise min(size, floor(64/b)·words) entries, each below 2^b |
| PackedData.PackedWordsPadded | src/data.rs:11-24 | each packed word is an i64 whose bits above its last whole entry are zero |
| PackedData.EncodeData | src/data.rs:6-33 | the new state is the old one with "data" inserted or replaced by the packed words; no other key changes |
| PackedData.PackWords | src/data.rs:7-24 | the packing loop returns exactly the packed word sequence of the entries |
| PackedData.PackStep | src/data.rs:11-19 | one entry joins the current word, which is pushed exactly when it holds floor(64/b) entries |
| PackedData.DecodeData | src/data.rs:36-61 | the decoding loop returns `Decoded(size, b, data)`, for 1 ≤ b ≤ 63 when there is data |
| Palette.UnusedBetween | src/region.rs:452-471 | at most hi − lo positions in [lo, hi) are unreferenced |
| Palette.UnusedSplit | src/region.rs:461-471 | the count of unreferenced positions adds up over adjacent ranges |
| Palette.KeptFromLength | src/region.rs:461-471 | the compacted palette has one entry per referenced position |
| Palette.KeptFromAt | src/region.rs:461-475 | a referenced entry sits at its position minus the number of removed positions below it |
| Palette.KeptFromSource | src/region.rs:461-471 | every surviving entry comes from a referenced position |
| Palette.CompactedPalette | src/region.rs:451-476 | the compacted palette holds exactly the referenced entries in palette order, a referenced entry v at its renumbered index |
| Palette.KeptEntrySource | src/region.rs:451-476 | every entry of the compacted palette is a referenced entry at its renumbered index |
| Palette.NothingUsed | src/region.rs:452-471 | with no data, every position is unreferenced |
| Palette.UnusedAfterAppend | src/region.rs:452-455 | one more index can make at most one more position referenced |
| Palette.KeptAtMostData | src/region.rs:451-476 | compaction keeps at most one entry per index |
| Palette.RankMonotone | src/region.rs:466-475 | renumbering keeps the order of referenced entries |
| Palette.CleanOfUsedPalette | src/region.rs:461-471 | a palette whose every entry is referenced is unchanged |
| Palette.CleanIdempotent | src/region.rs:451-476 | after a full renumbering every entry is referenced, so cleaning again changes nothing |
| Palette.CleanPalette | src/region.rs:451-476 | the palette becomes exactly the referenced entries in order; each of the first `data_len` indexes is renumbered to name the same entry; the rest are untouched |
| Palette.CountReferences | src/region.rs:452-455 | `palette_count[v]` is zero iff no index refers to v |
| Palette.RemoveUnused | src/region.rs:457-471 | the backward removal loop yields the compacted palette, and the offset of v is the number of removed positions at or below v |
| Palette.RenumberPrefix | src/region.rs:473-475 | each of the first `data_len` indexes loses its offset and then names its renumbered entry |
| SectionWrite.KeyOfIsBlockEq | src/write.rs:304-311 | two blocks share a palette-cache key iff they are equal blocks |
| SectionWrite.KeyBlockIsNormalized | src/write.rs:304-318 | the block a cache key stands for is the normal form of any well-named block with that key |
| SectionWrite.CacheConflatesNamespaces | src/write.rs:304-318 | `Namespaced("stone")` and `Id("stone")` share a cache key but are written under different names |
| SectionWrite.FirstMatchFrom | src/write.rs:309 | `position` finds the first palette entry the block equals, or reports that none does |
| SectionWrite.Intern | src/write.rs:304-322 | interning only ever appends to the palette |
| SectionWrite.InternInRange | src/write.rs:304-322 | the interned index names a palette entry, and the cached indexes stay in range |
| SectionWrite.InternReadsBack | src/write.rs:304-322 | the interned index names an entry that reads back as the pending block, and the cache stays truthful |
| SectionWrite.InternFoundReadsBack | src/write.rs:309-312 | an equal palette entry found by `position` is cached and reads back as the block |
| SectionWrite.InternAppendedReadsBack | src/write.rs:313-319 | a block with no equal entry is appended at `palette.len()`, cached there, and reads back as the block |
| SectionWrite.CacheReadsExtend | src/write.rs:311-318 | caching at an entry that reads back as the key's block keeps the cache truthful over a grown palette |
| SectionWrite.SlotOfLocal | src/write.rs:324-334 | the slot x + 16z + 256·(y & 15) of chunk-local coordinates lies in [0, 4096) |
| SectionWrite.LastWrite | src/write.rs:297-334 | finds the last pending block aimed at a slot, or reports that none is |
| SectionWrite.ApplyBlocks | src/write.rs:297-341 | the pending loop keeps 4096 indexes and only appends to the palette |
| SectionWrite.ApplyInRange | src/write.rs:297-341 | after the pending loop every index names a palette entry |
| SectionWrite.ApplyReadsBack | src/write.rs:297-341 | after the loop a slot some pending block targets reads back as the last such block; every other slot keeps its index |
| SectionWrite.ReadsBackGrows | src/write.rs:317 | an entry that reads back as a block still does once the palette grows |
| SectionWrite.Relit | src/write.rs:266-269 | with `update_lighting` the section loses exactly BlockLight and SkyLight; without it the section is unchanged |
| SectionWrite.FirstInvalidFrom | src/write.rs:291-295 | None iff every index lies in [0, palette length); otherwise the first index outside it |
| SectionWrite.Overlay | src/write.rs:288 | the decoded prefix over the stale rest of the reused array |
| SectionWrite.Renumbered | src/region.rs:473-475 | the first `data_len` indexes renumbered, the rest untouched |
| SectionWrite.StoreBlockStates | src/write.rs:345-371 | the palette is the compacted one; with one entry `data` is removed, otherwise it is the indexes encoded at the block width; no other key changes |
| SectionWrite.WriteBlockStates | src/write.rs:271-371 | a successful write leaves 4096 indexes and all pending blocks inside the section |
| SectionWrite.WriteBlockSection | src/write.rs:259-371 | a successful section write leaves 4096 indexes and all pending blocks inside the section |
| SectionWrite.WriteBlockSectionInSection | src/write.rs:324-334 | with every pending block inside the section, and a data tag that is a long array or absent, the write cannot panic (also at `src/data.rs:27-31`) |
| SectionWrite.FullDecodes | src/write.rs:288 | a section whose data covers the section decodes to exactly 4096 entries |
| SectionWrite.RenumberedFits | src/write.rs:345-371 | the compacted palette has at most 4096 entries, and the renumbered indexes name its entries and fit its block width |
| SectionWrite.InRangeAfterApply | src/write.rs:291-341 | indexes that passed validation stay in range through the pending loop |
| SectionWrite.StoredAfterWrite | src/write.rs:360-371 | the stored block states decode back to the renumbered indexes |
| SectionWrite.StoredAfterCompact | src/write.rs:345-371 | compacting and storing keeps the palette entry each slot names |
| SectionWrite.WriteBlockStatesValue | src/write.rs:271-371 | a successful write validates the decoded indexes and stores the compaction of the pending loop's result |
| SectionWrite.OutcomeOfSlot | src/write.rs:297-371 | the pending loop's outcome for a slot carries over to the stored block states |
| SectionWrite.WriteBlockStatesReadsBack | src/write.rs:271-371 | a targeted slot of the written block states reads back as the last block aimed at it; every other slot names the same palette entry as before |
| SectionWrite.WriteBlockSectionReadsBack | src/write.rs:259-371 | the same read-back for the whole written section |
| SectionWrite.CompactedAllUsed | src/write.rs:345 | after compaction every palette entry is referenced by the renumbered indexes |
| SectionWrite.WriteBlockStatesCompacts | src/write.rs:345-371 | after a write the palette has at most 4096 entries, all referenced, and every index is in range |
| SectionWrite.DecodeInto | src/write.rs:288 | `decode_data` into the reused array returns the decoded count and leaves the stale tail |
| SectionWrite.FindInvalidIndex | src/write.rs:291-295 | the validation loop finds the first index outside the palette |
| SectionWrite.MarkAll | src/write.rs:336-340 | marking block entities never adds or removes cached positions |
| SectionWrite.ApplyPending | src/write.rs:297-341 | the in-place pending loop computes the spec loop's palette and indexes, and marks the entities at written positions |
| SectionWrite.WriteStatesInto | src/write.rs:271-371 | the in-place block-state write succeeds or fails with the same error as the spec, and leaves the spec's compound and indexes |
| SectionWrite.StoreAppliedInto | src/write.rs:297-371 | the pending loop, `clean_palette` and re-encoding over the array give the spec's stored states and renumbered indexes |
| SectionWrite.WriteSectionBlocks | src/write.rs:259-371 | the in-place write of one section returns exactly the spec's result |
| BiomeCells.NewBiomeCell | src/biome.rs:372-387 | `BiomeCell::new` panics iff a chunk coordinate is ≥ 32 or a cell coordinate is ≥ 4; otherwise it stores them |
| BiomeCells.CoordinatesToBiomeCellContains | src/biome.rs:418-433 | panics iff x or z ≥ 512; otherwise the cell is in range and contains the coordinates: chunk x/16, cell (x & 15)/4, and likewise for z and for y in its section |
| BiomeCells.CoordinatesToBiomeCellExample | src/biome.rs:560-565 | (5,17,148) → chunk (0,9), section 1, cell (1,0,1); (248,-42,21) → (15,1), -3, (2,1,1); (852,14,5212) panics |
| BiomeCells.BiomeSlotInjective | src/write.rs:446-452 | the slot x + 4z + 16y of an in-range cell is below 64, and two cells of a section share a slot iff they are the same cell |
| BiomeWrite.IndexOf | src/write.rs:436-440 | `position` of an id in the palette is its first occurrence |
| BiomeWrite.InternBiome | src/write.rs:427-444 | interning only ever appends to the palette |
| BiomeWrite.InternBiomeReadsBack | src/write.rs:427-444 | the interned index names the id, the cache stays truthful, and the id is appended iff the palette lacked it |
| BiomeWrite.InternBiomeKeepsDistinct | src/write.rs:430-434 | interning never duplicates a palette entry |
| BiomeWrite.LastBiomeWrite | src/write.rs:426-453 | finds the last pending biome aimed at a slot, or reports that none is |
| BiomeWrite.ApplyBiomes | src/write.rs:426-453 | the pending loop keeps 64 indexes and only appends to the palette |
| BiomeWrite.ApplyBiomesReadsBack | src/write.rs:426-453 | after the loop a slot some pending biome targets names the id of the last such biome; every other slot keeps its index |
| BiomeWrite.ApplyBiomesInRange | src/write.rs:426-453 | indexes in range before the loop stay in range after it |
| BiomeWrite.BiomeIndexesAsWritten | src/write.rs:424 | decoding at the block width yields at most 64 entries |
| BiomeWrite.BiomeIndexes | src/write.rs:424 | decoding at the biome width yields at most 64 entries; with no bits to read every cell names entry 0 |
| BiomeWrite.BiomeIndexesAsWrittenMisreads | src/write.rs:424 | a two-entry palette whose data sets bit 16 decodes as written to only 16 cells with the second biome at cell 4, while the biome width reads it at cell 16 |
| BiomeWrite.StoreBiomeStates | src/write.rs:455-468 | the palette is the compacted one; with one entry `data` is removed, otherwise it is the indexes encoded at the biome width; no other key changes |
| BiomeWrite.KeptNonEmpty | src/write.rs:455 | compacting a palette that some index refers to leaves at least one entry |
| BiomeWrite.WriteBiomeStatesFrom | src/write.rs:426-468 | a write that does not panic leaves 64 indexes and all pending cells inside the section |
| BiomeWrite.WriteBiomeStatesAsWritten | src/write.rs:405-468 | a write as written that does not panic leaves 64 indexes and all pending cells inside the section |
| BiomeWrite.WriteBiomeStates | src/write.rs:405-468 | the same for the write that decodes at the biome width |
| BiomeWrite.WriteBiomeSection | src/write.rs:399-468 | a successful section write leaves 64 indexes and all pending cells inside the section |
| BiomeWrite.BiomeRenumberedFits | src/write.rs:455-468 | the compacted palette has 1 to 64 entries, and the renumbered indexes name its entries and fit its biome width |
| BiomeWrite.StoredBiomeAfterCompact | src/write.rs:455-468 | compacting and storing keeps the id every slot names |
| BiomeWrite.WriteBiomeStatesValue | src/write.rs:405-468 | a write stores the compaction of the pending loop's result |
| BiomeWrite.WriteBiomeStatesReadsBack | src/write.rs:405-468 | a targeted slot of the written states names the last pending id for it; every other slot that named an id still names it |
| BiomeWrite.WriteBiomeSectionReadsBack | src/write.rs:399-468 | the same read-back for the whole written section |
| BiomeWrite.WriteBiomeStatesNoPanic | src/write.rs:405-468 | biome states whose indexes all name a palette entry are written without a panic |
| BiomeWrite.WriteBiomeStatesCompacts | src/write.rs:455-468 | after a write the palette has 1 to 64 entries, all referenced, and every index is in range |
| BiomeWrite.ApplyBiomePending | src/write.rs:426-453 | the in-place pending loop computes the spec loop's palette and indexes |
| BiomeWrite.WriteBiomeStatesInto | src/write.rs:405-468 | the in-place biome-state write returns the spec's compound and indexes |
| BiomeWrite.StoreBiomesAppliedInto | src/write.rs:426-468 | the pending loop, `clean_palette` and the re-encoding of the first `data_len` entries over the array give the spec's stored states and renumbered indexes; a non-long data tag is allowed when one palette entry is left |
| BiomeWrite.WriteSectionBiomes | src/write.rs:399-468 | the in-place write of one section returns exactly the spec's result |
| ChunkWrite.EntityKeyOf | src/write.rs:251-256 | a block entity's key is its "x", "y" and "z" ints masked by 15, x and z in [0, 16); a missing int gives `MissingNbtTag` for the first one missing |
| ChunkWrite.EntityCacheContents | src/write.rs:250-257 | the cache is built iff every entity has a position; it then holds every entity's key, unmarked |
| ChunkWrite.Retained | src/write.rs:347-357 | `retain` never lengthens the list |
| ChunkWrite.RetainedFilter | src/write.rs:347-357 | `retain` keeps exactly the entities that are not marked for deletion |
| ChunkWrite.RetainedUnmarked | src/write.rs:347-357 | with nothing marked, every entity is kept in order |
| ChunkWrite.RetainedTwice | src/write.rs:347-358 | retaining twice, under marks that only grow, is retaining once under the later marks |
| ChunkWrite.RetainedSnoc | src/write.rs:347-357 | retaining one more entity at the end adds it iff it is unmarked |
| ChunkWrite.MarkAllMarks | src/write.rs:336-340 | a cached key is marked after the pending loop iff it was, or a pending block lands on it |
| ChunkWrite.MarkAllAppend | src/write.rs:336-340 | marking two lists in turn is marking their concatenation |
| ChunkWrite.MarkAllGrows | src/write.rs:336-340 | marking never unmarks a key |
| ChunkWrite.BlockStep | src/write.rs:259-372 | one visit of the section loop: it fails without a "Y" byte, keeps a section with no pending entry unchanged, and otherwise removes that entry and appends the written section |
| ChunkWrite.WriteBlockSectionsFrom | src/write.rs:259-372 | the completed section loop keeps a 4096-entry reused array |
| ChunkWrite.BlockSectionsPending | src/write.rs:261-264 | the completed loop removes the pending entries of exactly the section Ys the chunk has |
| ChunkWrite.BlockSectionsPrefix | src/write.rs:259-372 | the completed loop writes one section per visited section, in order |
| ChunkWrite.BlockStepReadsBack | src/write.rs:259-372 | a visited section with a pending entry reads back its pending blocks |
| ChunkWrite.BlockSectionsReadBack | src/write.rs:259-372 | the first section with a pending Y is written with that entry and reads back accordingly |
| ChunkWrite.BlockSectionsUnchanged | src/write.rs:261-264 | a section whose Y has no pending entry left when the loop reaches it comes out unchanged |
| ChunkWrite.BlockSectionsEntities | src/write.rs:336-358 | as written, only the pending blocks of the first written section mark entities, because the cache is emptied after it |
| ChunkWrite.BlockSectionsEntitiesExact | src/write.rs:336-357 | with the cache kept for the whole chunk, every written section's pending blocks mark entities |
| ChunkWrite.PrepareBlocksOutcome | src/write.rs:214-257 | the checks pass iff the chunk is valid and has isLightOn (with lighting), a sections list, a block-entity list and positioned entities; each failing check gives its own error |
| ChunkWrite.ResetChunkTags | src/write.rs:217-225 | the heightmaps are emptied and, with lighting, isLightOn is set to 0; nothing else changes |
| ChunkWrite.StartPass | src/write.rs:209-211 | the loop starts with a 4096-entry array of zeros |
| ChunkWrite.AssembleTags | src/write.rs:217-372 | the written chunk has the resets, the loop's sections and kept entities, and every other tag as it was |
| ChunkWrite.ChunkBlocksChecksFirst | src/write.rs:214-215 | an invalid chunk is rejected with its `is_valid_chunk` error before any section is touched |
| ChunkWrite.ChunkBlocksParts | src/write.rs:207-380 | a chunk write is its checks' outcome, then the section loop's outcome assembled into the chunk |
| ChunkWrite.WriteChunkBlocksChecked | src/write.rs:207-380 | `ChunkData::write_blocks` on the chunk's NBT computes the spec's outcome and only ever removes pending entries |
| ChunkWrite.PrepareBlocksChecked | src/write.rs:214-257 | the checks and the cache loop compute the spec's outcome |
| ChunkWrite.ChunkBlocksOutcome | src/write.rs:207-380 | a successful write is the loop's final state assembled into the chunk |
| ChunkWrite.AssembleParts | src/write.rs:229-248 | the assembled chunk lists the loop's sections and kept entities |
| ChunkWrite.ChunkBlocksPending | src/write.rs:259-264 | a successful write leaves pending exactly the entries whose Y no section has |
| ChunkWrite.ChunkBlocksTags | src/write.rs:217-372 | a successful write empties the heightmaps, zeroes isLightOn with lighting, and keeps the section count and every other tag |
| ChunkWrite.ChunkBlocksSectionReadsBack | src/write.rs:259-372 | the first section with a pending Y reads back its last pending block at each targeted slot and its old entry elsewhere |
| ChunkWrite.ChunkBlocksSectionUnchanged | src/write.rs:261-264 | a section with no pending entry, or repeating an earlier Y, is unchanged |
| ChunkWrite.CacheMarks | src/write.rs:250-257 | in the fresh cache an entity is marked iff a pending block lands on its key (also at `src/write.rs:336-340`) |
| ChunkWrite.CacheUnmarked | src/write.rs:256 | the fresh cache marks nothing |
| ChunkWrite.ChunkBlocksEntitiesAsWritten | src/write.rs:336-358 | as written, an entity survives iff no pending block of the first written section lands on its x, z and y & 15, whatever its section |
| ChunkWrite.ChunkBlocksEntities | src/write.rs:336-357 | with the whole-chunk cache, an entity survives iff no written block lands on its position |
| ChunkWrite.EntityCacheDiscrepancies | src/write.rs:336-358 | two chunks on which the write as written and the whole-chunk cache keep different entities |
| ChunkWrite.BiomeStep | src/write.rs:399-468 | one visit of the biome loop: it fails without a "Y" byte, keeps a section with no pending entry, and otherwise removes the entry and writes the section |
| ChunkWrite.WriteBiomeSectionsFrom | src/write.rs:399-469 | the completed biome loop keeps a 64-entry reused array |
| ChunkWrite.BiomeSectionsPending | src/write.rs:400-404 | the completed loop removes the pending entries of exactly the Ys the sections have |
| ChunkWrite.BiomeSectionsPrefix | src/write.rs:399-469 | the completed loop writes one section per visited section, in order |
| ChunkWrite.BiomeSectionsReadBack | src/write.rs:399-469 | the first section with a pending Y reads back its pending biomes |
| ChunkWrite.BiomeSectionsUnchanged | src/write.rs:400-404 | a section whose Y has no pending entry left comes out unchanged |
| ChunkWrite.ChunkBiomesOutcome | src/write.rs:383-397 | the checks of a biome write give the `is_valid_chunk` error or a sections error first; success keeps every other tag |
| ChunkWrite.ChunkBiomesFinal | src/write.rs:383-475 | a successful biome write puts the loop's final sections into the chunk |
| ChunkWrite.ChunkBiomesPending | src/write.rs:399-475 | a successful biome write leaves pending exactly the entries whose Y no section has, and keeps the section count |
| ChunkWrite.ChunkBiomesSectionReadsBack | src/write.rs:399-469 | the first section with a pending Y reads back its pending biomes after the write |
| ChunkWrite.ChunkBiomesSectionUnchanged | src/write.rs:400-404 | a section with no pending biomes, or repeating an earlier Y, is unchanged |
| ChunkWrite.BuildEntityCache | src/write.rs:250-257 | the cache loop computes the spec's cache or error |
| ChunkWrite.RetainEntities | src/write.rs:347-357 | the retain loop keeps, in order, exactly `Retained` |
| ChunkWrite.LoopStep | src/write.rs:259-372 | one visit of the loop is the visited section's step, then the rest |
| ChunkWrite.VisitBlockSection | src/write.rs:259-372 | one visit over the reused array gives the step's outcome and leaves the written indexes in the array |
| ChunkWrite.WriteBlockSectionsLoop | src/write.rs:259-372 | the section loop over one reused array computes the loop's spec and only removes pending entries |
| ChunkWrite.BiomeLoopStep | src/write.rs:399-469 | one visit of the biome loop is that section's step, then the rest |
| ChunkWrite.VisitBiomeSection | src/write.rs:399-468 | one biome visit over the reused array gives the step's outcome |
| ChunkWrite.WriteBiomeSectionsLoop | src/write.rs:399-469 | the biome loop over one reused array computes the loop's spec and only removes pending entries |
| ChunkWrite.WriteChunkBiomesChecked | src/write.rs:383-475 | `ChunkData::write_biomes` on the chunk's NBT computes the spec's outcome and only removes pending entries |
| SectionFill.FindSectionFrom | src/write.rs:138-145 | `try_find` gives the first section whose Y is the target; a section without Y met first is `MissingNbtTag("Y")`, and no match is "couldn't find section" |
| SectionFill.FindSameYs | src/write.rs:138-145 | two section lists with the same Y tags, position by position, give the same lookup result |
| SectionFill.FindSectionMissing | src/write.rs:138-145 | the lookup fails with "couldn't find section" iff every section has a Y and none is the target |
| SectionFill.Unlit | src/write.rs:106-114 | the heightmaps are emptied when present and, with lighting, isLightOn is 0; nothing else changes |
| SectionFill.FillSectionResult | src/write.rs:147-167 | a filled section keeps its Y and has block states whose palette is exactly [block] and no data |
| SectionFill.PruneShortNeverOk | src/write.rs:171-196 | as written, once the list is shorter than the loop bound the prune loop panics or fails |
| SectionFill.PruneAsWrittenRemovesAtMostOne | src/write.rs:171-196 | as written, a prune loop that succeeds removes at most one entity |
| SectionFill.PruneAsWrittenPanics | src/write.rs:171-196 | two block entities at the chunk's slot (0, 0): the first is removed, and reading the second panics |
| SectionFill.Pruned | src/write.rs:171-196 | the corrected pruning never adds an entity |
| SectionFill.PrunedOk | src/write.rs:172-183 | the corrected pruning succeeds iff every entity has its three coordinates |
| SectionFill.PrunedSurvive | src/write.rs:185-195 | every entity the corrected pruning keeps fails the range test |
| SectionFill.PrunedKeeps | src/write.rs:185-195 | the corrected pruning keeps each entity that fails the range test as often as it occurred, and adds none |
| SectionFill.WithEntities | src/write.rs:127-136 | the block-entity list gets the kept entities, an empty list staying empty; nothing else changes |
| SectionFill.FilledChunk | src/write.rs:106-196 | the chunk after a fill has the new sections, the kept entities, the resets, and every other tag as it was |
| SectionFill.SetSectionChecks | src/write.rs:104-136 | the checks succeed only for a valid chunk with sections and block-entity lists, and with isLightOn when lighting is updated |
| SectionFill.SetSectionFills | src/write.rs:138-167 | a successful fill keeps the section count; the first section with the Y has palette [block] and no data; every other section is unchanged (also at `src/write.rs:485-500`) |
| SectionFill.SetSectionKeeps | src/write.rs:104-196 | a successful fill was on a valid chunk; it keeps the pruned entities, empties the heightmaps, zeroes isLightOn with lighting, and keeps every other tag |
| SectionFill.SetSectionKeepsPalettes | src/write.rs:159 | every section still has its palette list after a fill, so a second fill does not panic at the `unwrap` |
| SectionFill.SetSectionKeepsTarget | src/write.rs:159 | after a fill, the section the lookup finds for any Y still has its palette list |
| SectionFill.SetSectionErrors | src/write.rs:104 | an invalid chunk is rejected with its error, and a Y no section has gives "couldn't find section" (also at `src/write.rs:145`) |
| Chunk.BlockIndexAsWrittenCollides | src/chunk.rs:117-124 | as written, at the default height (0, 191, 0) and (0, -64, 1) share a seen bit |
| Chunk.BlockIndexAsWrittenInjectiveBelowStride | src/chunk.rs:117-124 | as written, the index separates positions only on the layers below the stride `end - -start` |
| Chunk.BlockIndexInjective | src/chunk.rs:117-124 | with the stride the full height, each position of the chunk has its own bit, inside the block bitset (also at `src/chunk.rs:152-155`) |
| Chunk.BiomeIndexInjective | src/chunk.rs:127-142 | each biome cell of the chunk's sections has its own bit, inside the biome bitset (also at `src/chunk.rs:145-149`) |
| Chunk.PushPending | src/chunk.rs:76-78 | the pending map gains the key, the value is appended to that key's list, and every other key keeps its list |
| Chunk.ChunkData.constructor | src/chunk.rs:174-186 | a new chunk has no pending writes, empty bitsets sized for its height, and nothing dirty |
| Chunk.ChunkData.SetBlock | src/chunk.rs:53-81 | the first write to a position sets its bit, queues the block under its section, marks the chunk dirty and returns `Some`; a repeated write returns `None` and changes nothing |
| Chunk.ChunkData.SetBiome | src/chunk.rs:92-114 | the first write to a cell sets its bit, queues the biome under the cell's section, marks the chunk dirty and returns `Some`; a repeated write returns `None` and changes nothing |
| Chunk.ChunkData.SetInternalBlockBuffer | src/chunk.rs:160-163 | the pending blocks become the buffer and the seen blocks are cleared; nothing else changes |
| Chunk.ChunkData.SetInternalBiomeBuffer | src/chunk.rs:168-171 | the pending biomes become the buffer and the seen biomes are cleared; nothing else changes |
| Chunk.ChunkData.WriteBlocks | src/write.rs:207-380 | the chunk's new NBT and pending blocks are those of the corrected block write; on success the seen blocks are cleared and the chunk is clean; an error keeps them |
| Chunk.ChunkData.WriteBiomes | src/write.rs:383-475 | the chunk's new NBT and pending biomes are those of the corrected biome write; on success the seen biomes are cleared and the chunk is clean; an error keeps them |
| BlockReads.GroupedIsBuckets | src/get.rs:108-134 | each (chunk, section) group holds exactly the input coordinates of that chunk and section, in input order, and a group exists iff that list is non-empty |
| BlockReads.GroupedSlots | src/get.rs:111-123 | a chunk has a group iff some input coordinate lies in it |
| BlockReads.BucketCount | src/get.rs:111-123 | grouping loses and duplicates no coordinate: each is in its own group as often as in the input |
| BlockReads.BucketFiled | src/get.rs:112-116 | a group holds only coordinates of its chunk (x/16, z/16 as u8) and its section (y/16 floored as i8) |
| BlockReads.BucketIn | src/get.rs:111-123 | a group holds only input coordinates |
| BlockReads.GroupedFiled | src/get.rs:108-134 | every coordinate of every group is filed under its own chunk and section |
| BlockReads.GroupCoordinatesIntoChunks | src/get.rs:108-134 | the loop builds exactly the grouping above |
| BlockReads.ReadSlot | src/get.rs:77 | the section slot `(x & 15) + (z & 15) * 16 + (y & 15) * 256` is inside the 4096-entry array |
| BlockReads.CoordsOf | src/get.rs:90-93 | the coordinates of the results, one per result in order |
| BlockReads.ReadOne | src/get.rs:77-89 | a read succeeds only with an index naming a palette entry, and gives that entry parsed; an index out of the palette is `OutOfBounds` with the palette length |
| BlockReads.ReadCoordsResult | src/get.rs:76-94 | a section read that succeeds gives one result per coordinate asked for, in order, each the palette entry its slot names |
| BlockReads.StatesOf | src/get.rs:63-72 | the block states and palette returned are the section's `block_states` compound and its palette list |
| BlockReads.DecodedOver | src/get.rs:54 | decoding keeps the array at 4096 entries (also at `src/get.rs:74`) |
| BlockReads.ReadGroupsAppend | src/get.rs:39-98 | reading two runs of groups is reading their concatenation: the first error wins, otherwise the results are concatenated |
| BlockReads.ReadGroupsPush | src/get.rs:39-96 | one more successful group appends its results |
| BlockReads.ReadGroupsFail | src/get.rs:40-46 | a failing group ends the read with its error, whatever follows |
| BlockReads.Enumerate | src/get.rs:125-131 | the order the groups are visited in lists each chunk of the grouping exactly once |
| BlockReads.ReadSectionsRead | src/get.rs:56-95 | a section whose Y is asked for contributes its read results before those of the rest of the walk |
| BlockReads.ReadCoordsInto | src/get.rs:76-94 | the coordinate loop appends exactly the section read to what was found before |
| BlockReads.ReadSectionsInto | src/get.rs:48-95 | the section loop gives exactly the section walk from an all-zero array |
| BlockReads.DecodeSection | src/get.rs:74 | the array after decoding is the section's data decoded over its old content |
| BlockReads.ReadGroupAt | src/get.rs:40-95 | one chunk group is read as the model's group read: `NoChunk` for a missing chunk, tag errors for a malformed one |
| BlockReads.GetBlocksIn | src/get.rs:35-99 | `get_blocks` visits each group once, in some order, and returns the groups' results concatenated or the first error |
| BlockReads.FullSectionReads | src/get.rs:74-89 | in a section with full data, an entry read is the entry stored at that slot |
| BlockReads.ReadSectionsStored | src/get.rs:56-95 | over full sections, each block found was asked for and is what the first section of its Y stores at its slot |
| BlockReads.GroupStored | src/get.rs:39-95 | each block one group finds lies in that chunk, was asked for, and is stored there |
| BlockReads.ReadGroupsStored | src/get.rs:35-99 | over full sections, each block `get_blocks` finds was asked for and its chunk stores it |
| BlockReads.ReadSectionsCount | src/get.rs:56-95 | when every Y asked for has a section, the walk finds each coordinate exactly as often as it was asked for |
| BlockReads.AskedAfterRead | src/get.rs:58-61 | a section's list removed from the pending map and then the rest count each coordinate as the whole map does |
| BlockReads.ReadGroupsCount | src/get.rs:39-96 | over distinct groups, each coordinate is found as often as its own group asks for it |
| BlockReads.GroupedFound | src/get.rs:108-134 | the groups ask only for sections the input coordinates name |
| BlockReads.FoundAsOften | src/get.rs:35-99 | one coordinate is found as often as it appears in the input |
| BlockReads.GetBlocksComplete | src/get.rs:35-99 | when every coordinate's section exists, the coordinates a successful `get_blocks` returns are a permutation of the input, duplicates included (also at `src/get.rs:152-168`) |
| BlockReads.GetBlocksStored | src/get.rs:35-99 | over full sections, every block a successful `get_blocks` returns is at an input coordinate and is what its chunk stores there |
| BlockReads.MissingChunkFails | src/get.rs:40-46 | a group whose chunk is missing makes the read fail, with `NoChunk` when it comes first |
| BlockReads.ReadSectionsNone | src/get.rs:56-61 | a walk over sections that all have a Y, none the one asked for, finds nothing |
| BlockReads.GetBlockMissingSection | src/get.rs:21-24 | a chunk without a section of the coordinate's Y makes `get_block` as written panic, and the corrected one return `NoSectionFound` |
| BlockReads.GetBlockAsWrittenPanics | src/get.rs:21-24 | as written, `get_block` at (0, 0, 0) on a chunk with an empty section list panics |
| BlockReads.BlockAtAgrees | src/get.rs:21-24 | the corrected `get_block` agrees with the code as written whenever the latter does not panic |
| BlockReads.BlockAtStored | src/get.rs:21-24 | over full sections, `get_block` returns what the first section of the coordinate's Y stores at its slot (also at `src/get.rs:141-149`) |
| BlockReads.SingleGroup | src/get.rs:21-23 | one coordinate makes one group, read in the only order there is |
| BlockReads.GetBlockIn | src/get.rs:21-24 | the method computes the corrected `get_block` |
| BlockReads.ReadSectionsEmpty | src/get.rs:56-61 | a walk that asks for nothing finds nothing when every section has a Y |
| BlockReads.FilledReads | src/write.rs:152-167 | any coordinate of a section filled with a block reads as that block, in normal form (also at `src/get.rs:63-89`) |
| BlockReads.ReadSectionsFilled | src/get.rs:56-95 | a coordinate whose Y is first found at a filled section reads as the filled block |
| BlockReads.SetSectionReadsBack | src/write.rs:84-202 | after `set_section` fills section Y of a chunk, `get_block` anywhere in that section returns the block (also at `src/get.rs:21-24`) |
| Regions.GridKeys | src/region.rs:125-138 | the grid is exactly the 32 × 32 chunk slots |
| Regions.FullEmptyNbt | src/region.rs:125-138 | `full_empty` starts from an empty chunk in every grid slot and in no other |
| Regions.FullEmptyGenerated | src/region.rs:125-138 | a full-empty region has exactly the 1024 grid chunks, and `is_region_generated` accepts it (also at `src/region.rs:282-301`, `src/region.rs:551-555`) |
| Regions.OverlayAll | src/region.rs:93-102 | once the whole grid is visited, each grid slot holds its visited value and every other chunk is as it was |
| Regions.PresentAll | src/region.rs:96 | a visit of every slot that finds each chunk present means the grid's slots all hold chunks |
| Regions.ResetTargets | src/region.rs:96-100 | every grid slot has a value once visited |
| Regions.ResetAllSlots | src/region.rs:90-106 | after the grid loop every grid slot holds its old chunk, or a new empty one at the old height, with the buffers reset for the new number of Y values, and chunks off the grid are untouched |
| Regions.BlockTargets | src/write.rs:22-32 | `Region::write_blocks` keeps the set of chunks |
| Regions.BiomeTargets | src/write.rs:37-47 | `Region::write_biomes` keeps the set of chunks |
| Regions.BlocksWrittenChunk | src/write.rs:22-32 | a dirty chunk whose write succeeds ends clean, with its seen blocks cleared and only the entries no section has left pending, its height and biome buffers kept; a clean chunk is unchanged (also at `src/write.rs:375-377`) |
| Regions.WriteBlocksIdempotent | src/write.rs:22-32 | a second `write_blocks` after a successful one succeeds and changes nothing |
| Regions.BiomesWrittenChunk | src/write.rs:37-47 | the same for biomes: a dirty chunk ends clean with its seen biomes cleared, its block buffers kept; a clean chunk is unchanged (also at `src/write.rs:471-472`) |
| Regions.WriteBiomesIdempotent | src/write.rs:37-47 | a second `write_biomes` after a successful one succeeds and changes nothing |
| Regions.CreatedPalettes | src/region.rs:350-404 | a created chunk's sections all carry palette lists |
| Regions.CreatedYs | src/region.rs:350-404 | a created chunk's sections all carry a Y |
| Regions.LentChunk | src/region.rs:256-279 | `get_chunk_mut` lends the chunk in the slot, or a created one whose palettes are all listed, and fails iff the slot is empty and chunks are not created |
| Regions.LentTarget | src/region.rs:256-279 | the lent chunk has a palette list in the section the lookup for the entry's Y finds |
| Regions.StoreKeeps | src/write.rs:100-202 | storing a chunk back adds its slot and keeps every other slot |
| Regions.SetSectionStepShape | src/write.rs:100-202 | a successful entry stores the filled NBT in the lent chunk, keeping its buffers and every other chunk |
| Regions.SetSectionStepKeys | src/write.rs:100-202 | a successful entry adds its slot to the chunks |
| Regions.StepKeepsListed | src/write.rs:159 | after a successful entry every later entry's target section still has its palette list, so no later entry panics at the `unwrap` |
| Regions.SetSectionsChunks | src/write.rs:84-202 | a successful `set_sections` leaves exactly the old chunks plus those created for the entries' slots |
| Regions.SetSectionsNeedChunks | src/write.rs:100 | without chunk creation, a successful `set_sections` needed a chunk in every slot its entries name (also at `src/region.rs:266-276`) |
| Regions.SetSectionsKeepOthers | src/write.rs:84-202 | a successful `set_sections` keeps every chunk no entry names |
| Regions.InvalidGetCoords | src/get.rs:171-174 | (852, 14, 5212) falls in slot (53, 255), which no grid chunk has, so `get_block` is `NoChunk(53, 255)` |
| Regions.SetSectionStepReadsBack | src/write.rs:84-202 | after one `set_sections` entry, `get_block` anywhere in the filled section of its chunk returns the block (also at `src/write.rs:503-524`) |
| Regions.Region.Empty | src/region.rs:111-122 | an empty region has no chunks, its coordinates, and chunk creation on (also at `src/region.rs:539-546`) |
| Regions.Region.FromNbt | src/region.rs:141-154 | every compound becomes a new chunk, under the default configuration |
| Regions.Region.FullEmpty | src/region.rs:125-138 | `from_nbt` over an empty chunk in every grid slot |
| Regions.Region.GetChunk | src/region.rs:227-233 | a slot outside the grid is `ChunkOutOfRegionBounds`; otherwise the chunk there, or none iff the slot is empty |
| Regions.Region.GetChunkMut | src/region.rs:256-279 | out of the grid is `ChunkOutOfRegionBounds`; a held chunk is lent; an empty slot gets a new empty chunk at the configured height with creation on, and is `TriedToModifyMissingChunk` otherwise |
| Regions.Region.IsRegionGenerated | src/region.rs:282-301 | the region is generated iff every grid slot holds a chunk with the required status |
| Regions.Region.ResetSlot | src/region.rs:96-100 | one slot's visit: the lent chunk's buffers are reset for the new count; a missing chunk without creation is an error that changes nothing |
| Regions.Region.ResetRow | src/region.rs:94-101 | one row of the loop overlays that row's reset chunks, or stops at the first missing slot |
| Regions.Region.ResetGrid | src/region.rs:93-102 | the whole loop overlays every slot's reset chunk, or stops at the first missing slot |
| Regions.Region.SetWorldHeight | src/region.rs:90-106 | the call succeeds iff chunks are created or every grid slot has one; it then resets every chunk's buffers and records the new height; an error keeps the configuration and names a missing slot |
| Regions.Region.SetConfig | src/region.rs:61-72 | the height is reset first when it differs; on success the configuration is the new one, and the result says whether the height changed |
| Regions.Region.FlushChunkBlocks | src/write.rs:24-29 | a dirty chunk is written and stored back; a clean chunk is skipped |
| Regions.Region.WriteBlocks | src/write.rs:22-32 | on success every chunk is as the block write of each dirty chunk leaves it; otherwise the error is that of a dirty chunk whose write fails |
| Regions.Region.FlushChunkBiomes | src/write.rs:39-44 | a biome-dirty chunk is written and stored back; a clean chunk is skipped |
| Regions.Region.WriteBiomes | src/write.rs:37-47 | on success every chunk is as the biome write of each dirty chunk leaves it; otherwise the error is that of a dirty chunk whose write fails |
| Regions.Region.FillLent | src/write.rs:100-202 | the filled NBT is stored in the lent chunk on success |
| Regions.Region.SetSectionAt | src/write.rs:93-202 | one entry's new chunks or error are those of the entry's step |
| Regions.Region.SetSections | src/write.rs:60-67 | the entries are applied in order, the first error ending the call (also at `src/write.rs:84-202`) |
| Regions.Region.GetBlocks | src/get.rs:35-99 | the groups are read in the order the map yields them, each once |
| Regions.Region.GetBlock | src/get.rs:21-24 | the corrected `get_block` on the region's chunks |
| BiomeReads.GroupedCellsAreBuckets | src/biome.rs:453-474 | each (chunk, section) group holds exactly the input cells of that chunk and section, in input order, and exists iff that list is non-empty |
| BiomeReads.GroupedCellSlots | src/biome.rs:456-463 | a chunk has a group iff some input cell lies in it |
| BiomeReads.CellBucketCount | src/biome.rs:456-463 | grouping loses and duplicates no cell |
| BiomeReads.CellBucketFiled | src/biome.rs:456-463 | a group holds only input cells, all of its chunk and section |
| BiomeReads.GroupedCellsFiled | src/biome.rs:453-474 | every cell of every group is filed under its own chunk and section |
| BiomeReads.Coordinates | src/biome.rs:465-473 | the chunk slots of the listed groups, one per group in order |
| BiomeReads.GroupCellsIntoChunks | src/biome.rs:453-474 | the groups listed are the grouping's, each chunk once, in the map's order |
| BiomeReads.FileCells | src/biome.rs:456-463 | the filing loop builds exactly the grouping |
| BiomeReads.ListGroups | src/biome.rs:465-473 | the groups are moved out of the map each once |
| BiomeReads.CellIndex | src/biome.rs:83-86 | the slot `x + 4z + 16y` wraps in `u8`; for a cell in range it is the cell's slot, below 64 |
| BiomeReads.ReadCell | src/biome.rs:83-102 | a cell read succeeds iff its slot is below 64 and the entry there names a palette entry, giving that biome; each miss is `OutOfBounds` with the length checked |
| BiomeReads.CellsOf | src/biome.rs:98-102 | the cells of the results, one per result in order |
| BiomeReads.ReadCellsResult | src/biome.rs:81-103 | a section read that succeeds gives one result per cell asked for, in order, each its palette entry |
| BiomeReads.BiomeStatesOf | src/biome.rs:66-77 | the states returned are the section's `biomes` compound and its string palette; no `biomes` is `MissingNbtTag("biomes")` |
| BiomeReads.CellsDecoded | src/biome.rs:78-79 | a fresh array of 64 entries is decoded |
| BiomeReads.ReadCellGroupsStep | src/biome.rs:45-105 | the loop over groups stops at the first failing group with its error, and otherwise appends each group's results |
| BiomeReads.ReadSectionCells | src/biome.rs:66-103 | one section asked for is decoded and its cells read, or its tag error returned |
| BiomeReads.ReadBiomeSectionsIn | src/biome.rs:60-104 | the section loop gives exactly the model's section walk |
| BiomeReads.GetBiomesIn | src/biome.rs:41-108 | `get_biomes` reads the groups in the order they are listed and returns their results concatenated, or the first error |
| BiomeReads.ReadGroupsIn | src/biome.rs:45-105 | the group loop computes the model's read of the listed groups |
| BiomeReads.ReadGroupIn | src/biome.rs:46-104 | one group is read: `NoChunk` when missing, tag errors for a malformed chunk, then its sections |
| BiomeReads.FullSectionCellReads | src/biome.rs:78-96 | in a full section an entry read is the entry stored at that slot |
| BiomeReads.FoundCellStored | src/biome.rs:81-103 | a cell read from the first section of its Y was asked for there and is what that section stores |
| BiomeReads.ReadBiomeSectionsStored | src/biome.rs:60-104 | over full sections, every cell a walk finds was asked for and is stored in the first section of its Y |
| BiomeReads.ReadCellGroupsStored | src/biome.rs:45-105 | over full chunks, what the groups find lies in the chunks, was asked for, and is stored there |
| BiomeReads.GetBiomesStored | src/biome.rs:41-108 | over full chunks, every biome a successful `get_biomes` returns is for an input cell and is what its chunk's section stores at the cell's slot (also at `src/biome.rs:519-526`) |
| BiomeReads.MissingCellChunkFails | src/biome.rs:46-52 | a group whose chunk is missing makes the read fail, with `NoChunk` when listed first |
| BiomeReads.AskedCellAfterRead | src/biome.rs:62-65 | one section's list removed and the rest count each cell as the whole map does |
| BiomeReads.ReadBiomeSectionsCount | src/biome.rs:60-104 | when every Y asked for has a section, the walk finds each cell exactly as often as it was asked for |
| BiomeReads.ReadCellGroupCount | src/biome.rs:46-104 | one group finds a cell as often as its own list asks for it, and a cell of another chunk not at all |
| BiomeReads.CoordinatesCons | src/biome.rs:465-473 | a slot is listed iff the first group or the rest list it, and distinct lists stay distinct |
| BiomeReads.ReadCellGroupsCount | src/biome.rs:45-105 | over distinct groups each cell is found as often as its own group asks for it |
| BiomeReads.GroupedCellsFound | src/biome.rs:453-474 | the groups ask only for sections the input cells name |
| BiomeReads.GetBiomesComplete | src/biome.rs:41-108 | when every cell's section exists, the cells a successful `get_biomes` returns are a permutation of the input |
| BiomeReads.SingleCellGroup | src/biome.rs:28-30 | one cell makes one group |
| BiomeReads.ReadBiomeSectionsNone | src/biome.rs:60-65 | a walk over sections that all have a Y, none the cell's, finds nothing |
| BiomeReads.GetBiomeMissingSection | src/biome.rs:28-30 | a chunk without a section of the cell's Y makes `get_biome` as written panic, the corrected one return `NoSectionFound` |
| BiomeReads.GetBiomeAsWrittenPanics | src/biome.rs:28-30 | as written, `get_biome` on a chunk with an empty section list panics |
| BiomeReads.BiomeAtAgrees | src/biome.rs:28-30 | the corrected `get_biome` agrees with the code as written whenever the latter does not panic |
| BiomeReads.BiomeAtStored | src/biome.rs:28-30 | over full sections, `get_biome` returns what the first section of the cell's Y stores at its slot (also at `src/biome.rs:529-535`) |
| BiomeReads.SingleCellListed | src/biome.rs:453-474 | the single cell's group is a listing of its grouping |
| BiomeReads.GetBiomeIn | src/biome.rs:28-30 | the method computes the corrected `get_biome` |
| RegionBuffers.BlockChunk | src/set.rs:42 | a region-local position (x and z below 512) lies in chunk slot (x / 16, z / 16), inside the 32 × 32 grid, with no `u8` truncation |
| RegionBuffers.PushAt | src/set.rs:45-53 | the pending map gains the chunk slot; that slot's section list gets the value appended; every other slot keeps its lists |
| RegionBuffers.RegionBlockIndexAsWrittenFails | src/set.rs:13-17 | as written, at the default height (0, 319, 0) and (0, -64, 1) share a seen bit, and the far corner (511, 319, 511) lies past the end of the bitset (also at `src/set.rs:106-113`) |
| RegionBuffers.RegionBlockIndexInjective | src/set.rs:13-17 | with the stride the full height, every position of the region has its own seen bit, inside the bitset (also at `src/set.rs:106-113`) |
| RegionBuffers.RegionBiomeIndexDigits | src/biome.rs:315-335 | the biome index is the cell, section offset, chunk x and chunk z as mixed-radix digits |
| RegionBuffers.MixedRadix | src/biome.rs:315-335 | those digits form one number below the bitset size and are determined by it |
| RegionBuffers.RegionBiomeIndexInjective | src/biome.rs:315-344 | every in-range cell of the world height has its own seen bit, inside the bitset |
| RegionBuffers.CellDigitInjective | src/biome.rs:315-335 | the cell digit is below 64 and determined by the cell |
| RegionBuffers.EmptyBuffers | src/set.rs:116-118 | a new region has nothing pending and bitsets sized for the world height (also at `src/biome.rs:338-344`) |
| RegionBuffers.SetBlockOutcome | src/set.rs:37-59 | `set_block` succeeds iff the position was not seen; it then sets that bit and appends the block to its section's list, keeping every other list and the biome buffers; a repeated write changes nothing |
| RegionBuffers.SetBlockTwice | src/set.rs:37-59 | a second write at one position gives `None` and keeps the first (also at `src/set.rs:138-150`) |
| RegionBuffers.SetBlockKeepsOthers | src/set.rs:37-59 | a write leaves whether any other position is seen as it was |
| RegionBuffers.SetBiomeOutcome | src/biome.rs:128-150 | the same for `set_biome`: success iff the cell was not seen, then its bit set and the biome appended to its section's list |
| RegionBuffers.SetBiomeTwice | src/biome.rs:128-150 | a second write to one cell gives `None` and keeps the first (also at `src/biome.rs:492-502`) |
| RegionBuffers.SetBiomeKeepsOthers | src/biome.rs:128-150 | a write leaves whether any other cell is seen as it was |
| RegionBuffers.PreSetBlock | src/set.rs:127-136 | one write on a new region gives one chunk pending and one bit set |
| RegionBuffers.SetDuplicateBlock | src/set.rs:138-150 | a second write at the same position gives `None` and leaves both counts at one |
| RegionBuffers.PreSetBiome | src/biome.rs:481-489 | one biome write on a new region gives one chunk pending and one bit set |
| RegionBuffers.SetDuplicateBiome | src/biome.rs:492-502 | a second biome write to the same cell gives `None` and leaves both counts at one |
| RegionBuffers.ResetsForget | src/set.rs:100-103 | after the (corrected) reset of one kind every position of that kind can be set again, and the other kind is untouched (also at `src/biome.rs:309-312`) |
| RegionBuffers.ResetBiomesAsWrittenLosesCell | src/biome.rs:309-312 | as written, a cell set and the biome buffer then replaced by an empty one cannot be set again; the corrected reset lets the second write through |
| RegionBuffers.AllocatedSections | src/set.rs:80-92 | one chunk's allocation holds an empty list for every Y of the range and nothing else |
| RegionBuffers.Allocation | src/set.rs:73-95 | the allocation holds every chunk slot of the x and z ranges, each with an empty list per Y, and no slot when the Y range is empty (also at `src/biome.rs:282-304`) |
| RegionBuffers.AllocateAsWrittenDiscards | src/set.rs:73-95 | as written the allocation is lost whatever the ranges: the pending buffer ends up empty (also at `src/biome.rs:282-304`) |
| RegionBuffers.AllocateOneSection | src/set.rs:73-95 | for one chunk and one section the buffer as written is empty, where the intended one holds that chunk |
| RegionBuffers.AllocateBlocksShape | src/set.rs:73-95 | the intended allocation holds an empty list for every section of every chunk in the ranges, nothing else, and clears the seen bits |
| BufferedRegions.AllocateSectionsIn | src/set.rs:82-90 | the innermost loop gives an empty list for each Y of the range (also at `src/biome.rs:293-299`) |
| BufferedRegions.AllocationIn | src/set.rs:80-92 | the three nested loops build exactly the allocation: each chunk slot of the ranges with an empty list per Y (also at `src/biome.rs:291-301`) |
| BufferedRegions.BiomeWrites | src/biome.rs:164-264 | `write_biomes` writes into exactly the pending chunk slots |
| BufferedRegions.Merged | src/biome.rs:168-178 | merging the written slots keeps the old slots and adds the written ones |
| BufferedRegions.MergedStep | src/biome.rs:164-264 | one more slot written is one more slot merged |
| BufferedRegions.FlushChunkIn | src/biome.rs:168-263 | one slot: its chunk, or a created empty one when the configuration allows, is checked and written with the slot's pending biomes; a missing chunk without creation is `TriedToModifyMissingChunk` |
| BufferedRegions.FlushSlotIn | src/biome.rs:164-264 | one pass of the loop flushes one more slot not yet done, or fails with that slot's error |
| BufferedRegions.FlushAllIn | src/biome.rs:164-264 | on success every pending slot was written and the chunks are the written ones merged in; otherwise the error is that of a pending slot whose flush fails |
| BufferedRegions.BufferedRegion.FullEmpty | src/region.rs:125-138 | an empty chunk in every grid slot, the default configuration, nothing pending and bitsets sized for the default height (also at `src/set.rs:116-118`, `src/biome.rs:338-344`) |
| BufferedRegions.BufferedRegion.SetBlock | src/set.rs:37-59 | the buffers and result are those of `set_block` on the old buffers; nothing else changes |
| BufferedRegions.BufferedRegion.SetBiome | src/biome.rs:128-150 | the buffers and result are those of `set_biome` on the old buffers; nothing else changes |
| BufferedRegions.BufferedRegion.SetInternalBlockBuffer | src/set.rs:100-103 | the pending blocks become the buffer and the seen blocks are cleared |
| BufferedRegions.BufferedRegion.SetInternalBiomeBuffer | src/biome.rs:309-312 | the pending biomes become the buffer and the seen biomes are cleared (the corrected reset) |
| BufferedRegions.BufferedRegion.AllocateBlockBuffer | src/set.rs:73-95 | the pending blocks become the allocation (the corrected version) and the seen blocks are cleared |
| BufferedRegions.BufferedRegion.AllocateBiomeBuffer | src/biome.rs:282-304 | the pending biomes become the allocation (the corrected version) and the seen biomes are cleared |
| BufferedRegions.BufferedRegion.GetBiomes | src/biome.rs:41-108 | the cells are grouped and the groups read in the map's order, each once |
| BufferedRegions.BufferedRegion.GetBiome | src/biome.rs:28-30 | the corrected `get_biome` on the region's chunks |
| BufferedRegions.BufferedRegion.WriteBiomes | src/biome.rs:156-268 | the seen biomes are cleared first; on success every pending slot holds its written chunk, every other chunk is kept and the pending biomes are cleared; otherwise the error is that of a pending slot whose flush fails |
| Paletted.Digits | src/paletted_blocks.rs:55-60 | an index splits into a layer and two digits below the width that recompose it |
| Paletted.IndexRoundTrip | src/paletted_blocks.rs:49-60 | a cell inside the area whose index fits in 32 bits comes back from its index |
| Paletted.LayerWrap | src/paletted_blocks.rs:49-52 | a layer shifted by a multiple of 2^32 gives the same wrapped index |
| Paletted.CoordsRoundTrip | src/paletted_blocks.rs:49-60 | every index comes back from its coordinates, the `i32` cast of the layer undone modulo 2^32 |
| Paletted.IndexExamples | src/paletted_blocks.rs:682-688 | (5, 5, 5) and (0, -58, 15) have indexes 17749 and 1776 at height -64..320 and width 16 |
| Paletted.BlockValRoundTrip | src/paletted_blocks.rs:64-80 | packing succeeds iff the palette index is below 4096 and the palette below 0xFFFF, and unpacking then recovers both halves; the packed value is never the vacant marker |
| Paletted.PackParts | src/paletted_blocks.rs:64-80 | the packed value's halves are the palette and the palette index |
| Paletted.EncodedRoundTrip | src/paletted_blocks.rs:64-80 | every packed value is the packing of its own halves |
| Paletted.BlockValExamples | src/paletted_blocks.rs:691-713 | the values of the block-value tests, and the panic for palette index 8418 |
| Paletted.LenCountsOccupied | src/paletted_blocks.rs:133-135 | `len` (set bits) is the number of occupied cells |
| Paletted.LastMatch | src/paletted_blocks.rs:204-214 | `insert`'s search keeps the last listing of the slice, or none when it is not listed |
| Paletted.FirstMatchFrom | src/paletted_blocks.rs:236-252 | `insert_palette_only` finds the first listing of the slice, or none when it is not listed |
| Paletted.MatchesAgree | src/paletted_blocks.rs:199-252 | with every slice listed once, both searches find the same position |
| Paletted.InsertWellFormed | src/paletted_blocks.rs:199-231 | `insert` keeps the cells and the bitset in agreement |
| Paletted.ItemsFromYield | src/paletted_blocks.rs:418-447 | at an occupied cell that reads, the iterator yields that cell and goes on from the next |
| Paletted.ItemsFromStop | src/paletted_blocks.rs:418-447 | at an occupied cell that does not resolve or read, the iterator ends |
| Paletted.CountRefsUpdate | src/paletted_blocks.rs:162-231 | overwriting one cell changes a palette's reference count by what the old and new values point at |
| Paletted.CountRefsPositive | src/paletted_blocks.rs:320-384 | a cell pointing at a palette is counted |
| Paletted.CountRefsNone | src/paletted_blocks.rs:320-384 | with no cell pointing at a palette its count is zero |
| Paletted.ShiftCellRefers | src/paletted_blocks.rs:84-95 | a shifted cell points at the palette's new position and keeps its palette index |
| Paletted.CountRefsShifted | src/paletted_blocks.rs:84-95 | after unlisting a palette nothing points at, each position counts what the next-higher one counted |
| Paletted.CountPastPalette | src/paletted_blocks.rs:199-231 | no cell points past the palette list |
| Paletted.InsertConsistent | src/paletted_blocks.rs:199-231 | `insert` keeps the invariant: cells, bitset and reference counts agree |
| Paletted.InsertPosition | src/paletted_blocks.rs:199-231 | `insert` reuses the slice's listing and bumps its count, or lists it with count 1, and returns that position (also at `src/paletted_blocks.rs:547-565`) |
| Paletted.InsertLen | src/paletted_blocks.rs:199-231 | `insert` at a vacant cell adds one to `len`, at an occupied cell none (also at `src/paletted_blocks.rs:478-491`) |
| Paletted.InsertReadsBack | src/paletted_blocks.rs:199-231 | after `insert`, `get_raw` at the cell gives the slice's entry at the truncated index, or panics past the slice (also at `src/paletted_blocks.rs:281-294`) |
| Paletted.InsertKeepsOthers | src/paletted_blocks.rs:199-231 | `insert` leaves what every other cell resolves to unchanged |
| Paletted.InsertAtConsistent | src/paletted_blocks.rs:162-177 | `insert_at` keeps the invariant |
| Paletted.InsertAtReadsBack | src/paletted_blocks.rs:162-177 | after `insert_at`, `get_raw` at the cell gives the listed slice's entry, or panics past the slice (also at `src/paletted_blocks.rs:532-544`) |
| Paletted.InsertPaletteOnlyConsistent | src/paletted_blocks.rs:236-252 | `insert_palette_only` returns the listed position unchanged, or lists the slice with count 0 at the end; cells are untouched and the invariant kept (also at `src/paletted_blocks.rs:588-607`) |
| Paletted.InsertPaletteOnlyIdempotent | src/paletted_blocks.rs:236-252 | a second `insert_palette_only` of the same slice changes nothing and returns the same position |
| Paletted.RemoveVacant | src/paletted_blocks.rs:320-384 | `remove` changes nothing iff `get_raw` finds nothing, and then reports `OutOfBounds` or `UnsetPaletteBlock` |
| Paletted.RemoveReturns | src/paletted_blocks.rs:310-384 | `remove` returns the block `get` reads there, and an error where `get_raw` would panic |
| Paletted.RemoveLen | src/paletted_blocks.rs:320-384 | `remove` of an occupied cell takes one from `len` (also at `src/paletted_blocks.rs:626-646`) |
| Paletted.ClearCell | src/paletted_blocks.rs:340-352 | vacating a cell keeps cells and bitset in agreement and takes one reference from its palette |
| Paletted.UnlistingCell | src/paletted_blocks.rs:354-380 | after unlisting, a vacant cell stays vacant and an occupied one points at its palette's new position |
| Paletted.UnlistedPositions | src/paletted_blocks.rs:354-380 | the palette list after unlisting is the old one without that entry |
| Paletted.UnlistingConsistent | src/paletted_blocks.rs:354-380 | dropping a palette's last reference unlists it and keeps the invariant (also at `src/paletted_blocks.rs:716-748`) |
| Paletted.UnlistingCounts | src/paletted_blocks.rs:354-380 | after unlisting every count still covers the cells that point at it |
| Paletted.RemoveConsistent | src/paletted_blocks.rs:320-384 | `remove` keeps the invariant |
| Paletted.RemoveKeepsOthers | src/paletted_blocks.rs:320-384 | `remove` vacates its cell and leaves what every other cell resolves to unchanged |
| Paletted.InsertVacated | src/paletted_blocks.rs:199-231 | vacating the cell `insert` filled restores the cells and the bitset |
| Paletted.ShiftedPastPalette | src/paletted_blocks.rs:84-95 | shifting past the end of the palette list changes no cell |
| Paletted.InsertRemoveRoundTrip | src/paletted_blocks.rs:199-231 | `remove` undoes `insert` at a vacant cell (unless the slice was listed with count 0) and returns the inserted block (also at `src/paletted_blocks.rs:320-384`) |
| Paletted.ItemsFromSound | src/paletted_blocks.rs:418-447 | every item the iterator yields is what `get_raw` finds at its coordinates, read as a block |
| Paletted.ItemsFromCount | src/paletted_blocks.rs:418-447 | when every occupied cell reads, the iterator yields one item per occupied cell from its position |
| Paletted.ItemsCount | src/paletted_blocks.rs:149-156 | when every occupied cell reads, the iterator and `get_all` yield `len` items (also at `src/paletted_blocks.rs:663-679`) |
| Paletted.GetAllSound | src/paletted_blocks.rs:149-156 | every item `get_all` lists is a block `get` reads at those coordinates (also at `src/paletted_blocks.rs:511-529`) |
| Paletted.GeneratePaletteReadsBack | src/paletted_blocks.rs:398-405 | the generated palette has one compound per block, each reading back as the block's normal form (also at `src/paletted_blocks.rs:649-660`) |
| Paletted.TruncatedWidth | src/paletted_blocks.rs:114-130 | a width that truncates to zero as `u32` leaves no room in `usize` for any layer |
| Paletted.PalettedBlocks.constructor | src/paletted_blocks.rs:114-130 | every cell vacant, no bit set and no palette listed; the bottom and the width truncated to `i32` and `u32` (also at `src/paletted_blocks.rs:469-475`) |
| Paletted.PalettedBlocks.Len | src/paletted_blocks.rs:133-135 | `len` is the number of occupied cells |
| Paletted.PalettedBlocks.Insert | src/paletted_blocks.rs:199-231 | the new state and result are `insert`'s, and the invariant is kept |
| Paletted.PalettedBlocks.InsertAt | src/paletted_blocks.rs:162-177 | the new state is `insert_at`'s, and the invariant is kept |
| Paletted.PalettedBlocks.InsertPaletteOnly | src/paletted_blocks.rs:236-252 | the new state and result are `insert_palette_only`'s, and the invariant is kept when there is room |
| Paletted.PalettedBlocks.GetRaw | src/paletted_blocks.rs:281-294 | the compound the cell points at, if any |
| Paletted.PalettedBlocks.Get | src/paletted_blocks.rs:270-278 | the raw compound read as a block (also at `src/paletted_blocks.rs:610-623`) |
| Paletted.PalettedBlocks.ShiftIndexes | src/paletted_blocks.rs:84-95 | every occupied cell pointing past the index points one position lower |
| Paletted.PalettedBlocks.Remove | src/paletted_blocks.rs:310-384 | the new state and result are `remove`'s, and the invariant is kept |
| Paletted.PalettedBlocks.Contains | src/paletted_blocks.rs:138-146 | true iff the iterator yields a block equal to the one asked for (also at `src/paletted_blocks.rs:494-508`) |
| Paletted.PalettedBlocks.GetAll | src/paletted_blocks.rs:149-156 | what the iterator yields, with coordinates |
| Paletted.CountUse | src/paletted_blocks.rs:204-222 | `insert`'s palette update bumps the last listing's count or lists the slice with count 1 |
| Paletted.FindLast | src/paletted_blocks.rs:204-214 | the search loop keeps the last listing of the slice |
| Paletted.BlocksIter.constructor | src/paletted_blocks.rs:455-460 | the iterator starts with every item from the first cell |
| Paletted.BlocksIter.Next | src/paletted_blocks.rs:418-447 | `None` iff nothing is left; otherwise the next item, removed from what is left |
| Operations.InitCoords | src/operation.rs:10-20 | a set-block is filed under its coordinate and a fill under its `from` corner (also at `src/grouping.rs:40-42`) |
| Operations.At | src/split.rs:167-188 | the three-argument coordinate is a default-grid coordinate with those x, y and z |
| Split.Middles | src/split.rs:178-184 | one full-section piece per section strictly between the two ends |
| Split.MiddlesPush | src/split.rs:178-184 | the loop pushes the pieces in ascending section order |
| Split.SplitFillIntoSections | src/split.rs:135-193 | the method computes the section split: the top piece, the full sections in between, the bottom piece |
| Split.SectionBounds | src/split.rs:145-148 | a height lies in the 16 rows of its floored section, and `y - (y & 15)` is that section's base (also at `src/split.rs:168`, `src/split.rs:187`) |
| Split.PieceShape | src/split.rs:159-190 | each piece lies in one section, covers exactly the heights of that section between the corners, spans the corners' x/z extent and carries the fill's block |
| Split.PieceCount | src/split.rs:155-190 | a cross-section split gives `high - low + 1` pieces |
| Split.PiecesTile | src/split.rs:159-190 | the pieces tile the fill's height range: each height between the corners is covered by exactly one piece, and no piece reaches outside |
| Split.SectionSplitShortCircuits | src/split.rs:136-153 | a non-fill is `InvalidOperation`, a fill within one section is returned as it is, and otherwise at least two pieces result |
| Split.NonFillRefused | src/split.rs:7-22 | both splits refuse a non-fill with `InvalidOperation` (also at `src/split.rs:136-143`) |
| Split.SingleCellKept | src/split.rs:11-33 | `split_fill_into` returns the fill alone iff both corners are in one section, chunk or region for that unit (also at `src/split.rs:150-153`) |
| Split.SameChunkFillInside | src/split.rs:30-33 | when both corners of a fill lie in one chunk, every block of the fill does, so no mapping is needed |
| Split.SameRegionFillInside | src/split.rs:30-33 | the same for one region |
| Grouping.FilteredMembers | src/grouping.rs:39-53 | an operation is filed under a key iff some input with that key carries it |
| Grouping.PushLookup | src/grouping.rs:44-52 | filing adds the operation to its key's bucket and to no other |
| Grouping.BucketedFiltered | src/grouping.rs:39-53 | each bucket holds exactly the operations filed under its key, in input order |
| Grouping.BucketsNonEmpty | src/grouping.rs:44-52 | filing never leaves an empty bucket |
| Grouping.PushSize | src/grouping.rs:44-52 | filing one operation adds one to the total |
| Grouping.BucketedSize | src/grouping.rs:39-53 | the buckets together hold as many operations as were filed |
| Grouping.SectionGroups | src/grouping.rs:63-68 | the section loop lists each section bucket once and keeps every operation |
| Grouping.ChunkGroups | src/grouping.rs:60-74 | the chunk loop lists each chunk once, each with its section groups, and keeps every operation |
| Grouping.DimensionGroups | src/grouping.rs:57-81 | the region loop lists each region of a dimension once, each with its chunk groups, and keeps every operation |
| Grouping.RegionGroups | src/grouping.rs:55-84 | the outer loop lists each (dimension, region) once and keeps every operation |
| Grouping.GroupOperations | src/grouping.rs:33-85 | every (dimension, region), chunk and section key is listed exactly once, each section group holds its bucket, and no operation is lost or duplicated |
| Grouping.GroupsHoldFiltered | src/grouping.rs:33-85 | every section group holds exactly the input operations filed under its dimension, region, chunk and section, in input order |
| Worlds.DimensionPath | src/world.rs:23-38 | a dimension's folder lies under the world folder: the vanilla ones end in `region` (one level for the Overworld, two for the Nether and the End), a custom one is its own folder |
| Worlds.DimensionPathsDistinct | src/world.rs:23-38 | two dimensions share a folder iff they are equal, or are the Overworld and a custom dimension named `region` |
| Worlds.World.constructor | src/world.rs:42-50 | a new world has its path and no operations |
| Worlds.World.PushOp | src/world.rs:52-57 | the operation is queued for the Overworld after the earlier ones |
| Worlds.World.PushOperationData | src/world.rs:59-62 | the data is queued unchanged after the earlier operations |
| Worlds.World.Flush | src/world.rs:64-78 | `flush` succeeds and changes nothing |
| SectionEditor.DigitChar | src/main.rs:17 | a decimal digit's character has that digit's value |
| SectionEditor.Decimal | src/main.rs:17 | `format!("{}", n)` gives a non-empty string of decimal digits |
| SectionEditor.DecimalRoundTrip | src/main.rs:17 | the digits read back as the number |
| SectionEditor.RegionPath | src/main.rs:16-19 | the region file `r.<x>.<z>.mca` in the world's `region` folder, the Overworld's whatever the dimension |
| SectionEditor.DotIndex | src/main.rs:17 | in a region file name the first `.` after `r.` ends the x digits |
| SectionEditor.RegionFileNamesDistinct | src/main.rs:16-19 | two regions have the same file name iff they are the same region |
| SectionEditor.PropertiesValue | src/main.rs:315-323 | the properties compound has exactly the property names |
| SectionEditor.PaletteEntryValue | src/main.rs:304-313 | a palette entry is its name, and its properties only when there are any |
| SectionEditor.PaletteValues | src/main.rs:274-292 | one compound per palette entry |
| SectionEditor.BlockStatesValue | src/main.rs:274-292 | the block states hold the palette, and the data only when it has words |
| SectionEditor.BiomesValue | src/main.rs:253-262 | the biomes hold the palette, and the data only when it has words |
| SectionEditor.SectionValue | src/main.rs:227-241 | a section value has its Y and both sub-compounds, and each light array only when non-empty |
| SectionEditor.PaletteEntryRoundTrip | src/main.rs:296-323 | a palette entry reads back from its value |
| SectionEditor.PaletteRoundTrip | src/main.rs:274-323 | a palette reads back from its values |
| SectionEditor.BlockStatesRoundTrip | src/main.rs:266-292 | block states read back from their value, a missing data array defaulting to empty (also at `src/main.rs:330-332`) |
| SectionEditor.BiomesRoundTrip | src/main.rs:245-262 | biomes read back from their value, a missing data array defaulting to empty (also at `src/main.rs:330-332`) |
| SectionEditor.SectionValueTags | src/main.rs:214-241 | the section value's tags are the sub-values and the light arrays as the reader looks them up |
| SectionEditor.SectionRoundTrip | src/main.rs:214-241 | every field the value leaves out is one the reader fills with its default, so a section reads back from its value (also at `src/main.rs:326-332`) |
| SectionEditor.CeilLog2IsLeast | src/main.rs:140-145 | `next_power_of_two().trailing_zeros()` is the least `b` with `n <= 2^b` |
| SectionEditor.SectionBitCountIsLeastWidth | src/main.rs:140-145 | the width is at least 4, and otherwise the least `b` with `len <= 2^b` (also at `src/main.rs:183-188`) |
| SectionEditor.LeastWidthUnique | src/main.rs:140-145 | two widths meeting that description are equal |
| SectionEditor.SectionBitCountMonotone | src/main.rs:140-145 | a longer palette never gets a narrower width |
| SectionEditor.SectionBitCountIsBlockTable | src/main.rs:140-145 | the editor's width equals the region code's block table iff the palette has at most 8192 entries (also at `src/region.rs:320-333`) |
| SectionEditor.SectionBitCountExamples | src/main.rs:140-145 | palettes of 0, 58 and 1754 entries get 4, 6 and 11 bits, and 8193 entries get 14 (also at `src/region.rs:533-539`) |
| SectionEditor.SectionBitCountBound | src/main.rs:139-145 | a palette within the modelled bound gets at most 62 bits |
| SectionEditor.OldIndexesAsWritten | src/main.rs:148-161 | as written, decoding yields at most 4096 entries, none for a section without data |
| SectionEditor.OldIndexes | src/main.rs:148-161 | the corrected decoding yields at most 4096 entries, index 0 everywhere for a section without data |
| SectionEditor.SlotInSection | src/main.rs:169-177 | for a coordinate inside the section, the slot is the local `x + 16z + 256y`, inside the section, and different coordinates have different slots |
| SectionEditor.SlotsAgree | src/main.rs:171 | for sections -8 to 7 the `i8` product does not wrap and the slot as written is the corrected one |
| SectionEditor.Interned | src/main.rs:163-167 | the block is appended to the palette iff it is not listed, and is listed afterwards |
| SectionEditor.Position | src/main.rs:179-180 | the first palette index holding the block |
| SectionEditor.NewIndexesFit | src/main.rs:179-200 | the new indexes fit the new width |
| SectionEditor.ModifySection | src/main.rs:133-211 | the method gives the value of the modified section |
| SectionEditor.ModifiedReadsBack | src/main.rs:133-211 | decoded again, the block's slot names the block, every other slot keeps its index, and the old palette entries stay where they were |
| SectionEditor.ModifiedDataPacked | src/main.rs:189-204 | the new data has one word per `64 / b` indexes, a partial last word kept, and no entry crosses a word |
| SectionEditor.UniformSectionPanicsAsWritten | src/main.rs:148-180 | as written, a section stored as one block without data panics at the slot write |
| SectionEditor.HighSectionPanicsAsWritten | src/main.rs:169-180 | as written, at section 8 `8 * 16` wraps to -128 in `i8` and the slot lands past the section |
| SectionEditor.CorrectedModifiable | src/main.rs:133-211 | the corrected version edits a section without data and any section the coordinate lies in |
| SectionEditor.AsWrittenAgrees | src/main.rs:133-211 | where the code as written does not hit these two panics, the corrected version computes what it does |
| SectionEditor.LastSectionIsLast | src/main.rs:92-106 | the scan finds a section iff one has the Y, and then the last one |
| SectionEditor.LastIndexSection | src/main.rs:92-106 | the scan's result is the section at the last position with the Y, and no later section has it |
| SectionEditor.OtherSectionsFilter | src/main.rs:113-123 | keeping the other sections is a filter: it distributes over concatenation and keeps a section iff its Y differs |
| SectionEditor.OtherSectionsMembers | src/main.rs:113-123 | a section is kept iff it is listed and its Y differs |
| SectionEditor.FindSection | src/main.rs:92-106 | the first loop remembers the last section whose Y matches |
| SectionEditor.RebuildSections | src/main.rs:111-126 | the second loop gives the modified section followed by every section with another Y |
| SectionEditor.HandleChunk | src/main.rs:81-131 | `handle_chunk` on the parsed chunk computes the handled chunk |
| SectionEditor.SectionFromY | src/main.rs:214-241 | a section read from a compound has that compound's Y |
| SectionEditor.HandledChunkTags | src/main.rs:128 | `handle_chunk` replaces the section list and no other tag |
| SectionEditor.HandledChunkSections | src/main.rs:89-128 | the new list starts with the modified section, which reads back as the edited section with the block set, followed by exactly the sections of other heights |
| SectionEditor.HandledChunkSlot | src/main.rs:89 | below height 2048 the edited section is the block's own, so the slot written is its local `x + 16z + 256y` (also at `src/main.rs:169-177`) |

## Findings

| source | as written | input that shows it | evidently intended | confidence | as-written member | corrected member |
|---|---|---|---|---|---|---|
| src/chunk.rs:117-124 | the seen-block index uses the stride `end - -start`, i.e. `end + start` | at height -64..=319, positions (0, 191, 0) and (0, -64, 1) get the same bit, so the second write is dropped | a stride of the full height, `end - start + 1` | not executed | Chunk.BlockIndexAsWrittenCollides, Chunk.BlockIndexAsWrittenInjectiveBelowStride | Chunk.BlockIndexInjective |
| src/set.rs:13-17, src/set.rs:106-113 | the region seen-block index uses the stride `end - start` of a `RangeInclusive`, one layer short, and the bitset is sized the same way | at the default height (0, 319, 0) and (0, -64, 1) share bit 196096, and (511, 319, 511) has index 100401663, past the 100401152 bits | a stride of the full height and a bitset of 512 × height × 512 bits | not executed | RegionBuffers.RegionBlockIndexAsWrittenFails | RegionBuffers.RegionBlockIndexInjective |
| src/biome.rs:309-312 | `set_internal_biome_buffer` clears `seen_blocks` rather than `seen_biomes` | set a biome in cell (0, 0) section 4 (0, 0, 1), replace the biome buffer with an empty one, set the same cell again: `None`, and the biome is lost | the seen biomes cleared with the buffer, as BufferedRegions.BufferedRegion.SetInternalBiomeBuffer does (see Left out) | not executed | RegionBuffers.ResetBiomesAsWrittenLosesCell | RegionBuffers.ResetsForget |
| src/write.rs:424 | the biome data is decoded at the block width `get_block_bit_count` (at least 4 bits) rather than the biome width | a two-entry biome palette whose data is the word 0x10000 stores the second biome at cell 16; decoding at 4 bits reads 16 entries, puts it at cell 4 and leaves cells 16 to 63 undecoded, and the write then re-encodes only those 16 leading entries | decoding at the width the data was encoded with, `get_biome_bit_count` | not executed | BiomeWrite.BiomeIndexesAsWritten, BiomeWrite.BiomeIndexesAsWrittenMisreads, BiomeWrite.WriteBiomeStatesAsWritten | BiomeWrite.BiomeIndexes, BiomeWrite.WriteBiomeStates |
| src/write.rs:250-257, src/write.rs:358 | the block-entity cache is built once per chunk but cleared after the first section written, and entities are matched on x, z and `y & 15` only | pending blocks at (0, 0, 0) in section 0 and (1, 17, 1) in section 1: the entity at (1, 17, 1) survives; with only the upper block pending, an entity at (1, 1, 1) of section 0 is removed | the cache kept for the whole chunk and entities matched on their full position, so exactly the overwritten block entities are dropped | not executed | ChunkWrite.ChunkBlocksEntitiesAsWritten, ChunkWrite.EntityCacheDiscrepancies | ChunkWrite.ChunkBlocksEntities, Chunk.ChunkData.WriteBlocks |
| src/write.rs:171-196 | the prune loop removes by index while iterating up to the original length, and compares against `section_y * 16` in `i8` | two block entities at the chunk's slot (0, 0) in the filled section: after the first is removed, reading index 1 panics | one pass that removes every entity the loop's own `||` range test hits (masked x in the slot's x range, or y in the wrapped `i8` section range, or masked z in the slot's z range: any one axis suffices) and keeps the rest in order | not executed | SectionFill.PruneAsWritten, SectionFill.PruneAsWrittenPanics, SectionFill.PruneAsWrittenRemovesAtMostOne | SectionFill.Pruned, SectionFill.PrunedKeeps, SectionFill.PrunedSurvive |
| src/get.rs:21-24 | `get_block` takes `swap_remove(0)` of `get_blocks`' result, which is empty when the chunk has no section of that Y | a chunk in slot (0, 0) with an empty section list, read at (0, 0, 0): panic | an error for the missing section | not executed | BlockReads.BlockAtAsWritten, BlockReads.GetBlockAsWrittenPanics, BlockReads.GetBlockMissingSection | BlockReads.BlockAt, BlockReads.BlockAtAgrees, BlockReads.BlockAtStored |
| src/set.rs:73-95, src/biome.rs:282-304 | `allocate_*_buffer` fills the pending map itself, then replaces it with the empty local buffer | allocating one chunk and one section leaves nothing pending | the allocated lists become the pending buffer, as BufferedRegions.BufferedRegion.AllocateBlockBuffer and BufferedRegions.BufferedRegion.AllocateBiomeBuffer do (see Left out) | not executed | RegionBuffers.AllocateAsWrittenDiscards, RegionBuffers.AllocateOneSection | RegionBuffers.AllocateBlocksShape, BufferedRegions.BufferedRegion.AllocateBlockBuffer |
| src/biome.rs:28-30 | `get_biome` takes `swap_remove(0)` of `get_biomes`' result, which is empty when the chunk has no section of that Y | a chunk in slot (0, 0) with an empty section list: panic | an error for the missing section | not executed | BiomeReads.BiomeAtAsWritten, BiomeReads.GetBiomeAsWrittenPanics, BiomeReads.GetBiomeMissingSection | BiomeReads.BiomeAt, BiomeReads.BiomeAtAgrees, BiomeReads.BiomeAtStored |
| src/main.rs:148-180 | a section stored as one block has no `data`, so the decoded index list is empty and the slot write indexes past it | any section whose block states have a one-entry palette and no data: panic | an absent array read as index 0 everywhere, as `decode_data` does and SectionEditor.ModifySection does (see Left out) | not executed | SectionEditor.OldIndexesAsWritten, SectionEditor.UniformSectionPanicsAsWritten | SectionEditor.OldIndexes, SectionEditor.ModifySection, SectionEditor.CorrectedModifiable |
| src/main.rs:169-180 | the section base `section.y * 16` is an `i8` product, which wraps for sections 8 and up | a block at y 128 to 143 (section 8): `8 * 16` wraps to -128 and the slot lands past the section: panic | the base computed in a wide integer, as SectionEditor.ModifySection does (see Left out) | not executed | SectionEditor.SlotAsWritten, SectionEditor.HighSectionPanicsAsWritten | SectionEditor.Slot, SectionEditor.SlotInSection, SectionEditor.AsWrittenAgrees |

## Left out

- File and stream I/O: `Region::from_region`, `Region::write` (the region-file container and zlib), `src/level.rs` (gzip read and write) and `ModifyOperation::run` read or write bytes through external libraries; the model starts from and ends at the decoded tag tree.
- The tag-tree libraries (simdnbt, fastnbt) are not modelled: a compound is a map from key to a tagged value, and parsing and serialising them are left out.
- `NbtString` is a `string`, with no MUTF-8 byte encoding, so `NbtString == &str` and the string conversions of `src/nbt_impls.rs` are the identity on strings.
- Parallel iteration (rayon in `src/write.rs`, the `DashMap` of `src/region.rs`) is modelled as sequential iteration over a map; the chunks are written independently, so only the order in which an error is found can differ.
- The order in which a hash map is visited is not determined by the source: batched reads and the grouping of operations take it as a ghost `order` that enumerates the keys, and their results are stated for every such order.
- The f64 `floor` casts compute integer floor division only, and are modelled as Dafny's floor division on integers.
- The general chunk and region tiling loop of `split_fill_into` (`src/split.rs:36-130`) is float-driven and has an unresolved edge-case branch that can emit overlapping pieces; only its refusal of non-fill operations and its single-cell short-circuits are modelled.
- The bodies of `Operation::get_init_coords` and of the `Coordinate` accessors that `src/split.rs` calls are not part of this model; they are taken as projections of the operation's fields.
- `src/error.rs`, `src/operation.rs`, `src/lib.rs` and `src/config.rs` declare types only; their variants and fields appear as datatypes, and the `Debug` and `Display` impls are left out.
- `FixedBitSet` is modelled as a set of indexes with a capacity; inserting an index beyond the capacity panics in the source and is a precondition here.
- A panic from an `assert!`, an `unwrap` or an out-of-range index becomes a precondition of the member, except where the point of the member is when it panics (`BiomeCell::new`, `construct_block_val`, the as-written members of the findings), which return an explicit panic outcome.
- `decode_data` as called from `src/write.rs` takes a fixed array, a width and the optional data, and returns the decoded length; the shown `src/data.rs` has another signature, so the caller's form is reconstructed: absent data gives zeros, and present data overwrites a prefix and leaves the tail as it was.
- `get_bit_count`, imported by `src/get.rs` but not shown, is taken as the block table `get_block_bit_count`.
- The two-argument `get_empty_chunk` called by `src/biome.rs` is not shown; `BufferedRegions.BufferedRegion.WriteBiomes` takes it as a parameter mapping a chunk slot to the empty chunk.
- Release-build integer behaviour is modelled where the source relies on it (wrapping `u32`/`i32` casts and the reference-count decrement below zero in `PalettedBlocks`); debug-build overflow panics are not.
- Chunk.ChunkData.WriteBlocks requires every section's block-states `data` tag, when present, to be a long array: `encode_data` replaces it through `long_array_mut("data").unwrap()` (`src/data.rs:27-31`), which panics on another tag type.
- `encode_data` as called from `src/write.rs` takes the width, the fixed array and the decoded length, and packs only that many leading entries; the shown `src/data.rs` has another signature, so the caller's form is reconstructed alongside `decode_data`'s.
- Chunk.ChunkData.WriteBiomes requires the write not to panic: the source never checks the decoded biome indexes and panics in `clean_palette` on an out-of-range one, and `encode_data` panics on a `data` tag that is not a long array when two or more palette entries are left (`src/data.rs:27-31`). Both panics are `Panics` outcomes of BiomeWrite.WriteBiomeStates; a short data array is modelled with the array's stale tail, of which only the first `data_len` entries are encoded.
- Chunk.ChunkData.WriteBlocks leaves the chunk's NBT unspecified on an error: the source has already edited the earlier sections in place.
- Regions.Region.SetSectionAt leaves the chunks unspecified on an error beyond what `SetSectionStep` states, for the same reason.
- Regions.Region.WriteBlocks and Regions.Region.WriteBiomes state, on an error, only which chunk failed and why; the chunks written before it are not described.
- BufferedRegions.BufferedRegion.WriteBiomes states, on an error, only which pending slot failed and why. The chunks flushed before it have been edited in place, and the failing chunk's visited sections have had their pending lists removed (`src/biome.rs:199`); the model leaves the pending buffer as it was. The buffer is cleared only after success (`src/biome.rs:265`), although the doc comment at `src/biome.rs:152-154` says it is cleared at once.
- BufferedRegions.BufferedRegion.SetInternalBiomeBuffer clears the seen biomes, the reset evidently intended; as written (`src/biome.rs:309-312`) it clears the seen blocks, which RegionBuffers.ResetBiomesAsWritten models and RegionBuffers.ResetBiomesAsWrittenLosesCell exhibits (see Findings).
- BufferedRegions.BufferedRegion.AllocateBlockBuffer keeps the allocation as the pending blocks, the version evidently intended; as written (`src/set.rs:73-95`) the allocation is replaced by the empty local buffer, which RegionBuffers.AllocateBlocksAsWritten and RegionBuffers.AllocateBiomesAsWritten model and RegionBuffers.AllocateAsWrittenDiscards exhibits (see Findings).
- BufferedRegions.BufferedRegion.AllocateBiomeBuffer keeps the allocation as the pending biomes, the version evidently intended; as written (`src/biome.rs:282-304`) the allocation is replaced by the empty local buffer, which RegionBuffers.AllocateBlocksAsWritten and RegionBuffers.AllocateBiomesAsWritten model and RegionBuffers.AllocateAsWrittenDiscards exhibits (see Findings).
- SectionEditor.ModifySection reads an absent `data` array as index 0 everywhere and computes the section base in a wide integer, the behaviour evidently intended; as written (`src/main.rs:148-180`) a one-block section without data panics and sections 8 and up wrap in `i8`, which SectionEditor.OldIndexesAsWritten and SectionEditor.SlotAsWritten model and SectionEditor.UniformSectionPanicsAsWritten and SectionEditor.HighSectionPanicsAsWritten exhibit (see Findings).
- SectionEditor.HandleChunk edits each section with SectionEditor.ModifySection, so the same two corrections apply to it (see the line above and Findings).
- BiomeWrite.WriteBiomeSection decodes the stored biome data at the biome width `get_biome_bit_count`, not at the block width that `src/write.rs:424` uses; the as-written decode is BiomeWrite.WriteBiomeStatesAsWritten, and BiomeWrite.BiomeIndexesAsWrittenMisreads shows the cells it misreads (see Findings).
- BiomeWrite.WriteBiomeStatesInto decodes the stored biome data at the biome width `get_biome_bit_count`, not at the block width that `src/write.rs:424` uses; the as-written decode is BiomeWrite.WriteBiomeStatesAsWritten, and BiomeWrite.BiomeIndexesAsWrittenMisreads shows the cells it misreads (see Findings).
- BiomeWrite.WriteSectionBiomes decodes the stored biome data at the biome width `get_biome_bit_count`, not at the block width that `src/write.rs:424` uses; the as-written decode is BiomeWrite.WriteBiomeStatesAsWritten, and BiomeWrite.BiomeIndexesAsWrittenMisreads shows the cells it misreads (see Findings).
- ChunkWrite.BiomeStep decodes the stored biome data at the biome width `get_biome_bit_count`, not at the block width that `src/write.rs:424` uses; the as-written decode is BiomeWrite.WriteBiomeStatesAsWritten, and BiomeWrite.BiomeIndexesAsWrittenMisreads shows the cells it misreads (see Findings).
- ChunkWrite.WriteBiomeSectionsFrom decodes the stored biome data at the biome width `get_biome_bit_count`, not at the block width that `src/write.rs:424` uses; the as-written decode is BiomeWrite.WriteBiomeStatesAsWritten, and BiomeWrite.BiomeIndexesAsWrittenMisreads shows the cells it misreads (see Findings).
- ChunkWrite.VisitBiomeSection decodes the stored biome data at the biome width `get_biome_bit_count`, not at the block width that `src/write.rs:424` uses; the as-written decode is BiomeWrite.WriteBiomeStatesAsWritten, and BiomeWrite.BiomeIndexesAsWrittenMisreads shows the cells it misreads (see Findings).
- ChunkWrite.WriteBiomeSectionsLoop decodes the stored biome data at the biome width `get_biome_bit_count`, not at the block width that `src/write.rs:424` uses; the as-written decode is BiomeWrite.WriteBiomeStatesAsWritten, and BiomeWrite.BiomeIndexesAsWrittenMisreads shows the cells it misreads (see Findings).
- ChunkWrite.WriteChunkBiomesChecked decodes the stored biome data at the biome width `get_biome_bit_count`, not at the block width that `src/write.rs:424` uses; the as-written decode is BiomeWrite.WriteBiomeStatesAsWritten, and BiomeWrite.BiomeIndexesAsWrittenMisreads shows the cells it misreads (see Findings).
- Chunk.ChunkData.WriteBiomes decodes the stored biome data at the biome width `get_biome_bit_count`, not at the block width that `src/write.rs:424` uses; the as-written decode is BiomeWrite.WriteBiomeStatesAsWritten, and BiomeWrite.BiomeIndexesAsWrittenMisreads shows the cells it misreads (see Findings).
- Regions.Region.FlushChunkBiomes decodes the stored biome data at the biome width `get_biome_bit_count`, not at the block width that `src/write.rs:424` uses; the as-written decode is BiomeWrite.WriteBiomeStatesAsWritten, and BiomeWrite.BiomeIndexesAsWrittenMisreads shows the cells it misreads (see Findings).
- Regions.Region.WriteBiomes decodes the stored biome data at the biome width `get_biome_bit_count`, not at the block width that `src/write.rs:424` uses; the as-written decode is BiomeWrite.WriteBiomeStatesAsWritten, and BiomeWrite.BiomeIndexesAsWrittenMisreads shows the cells it misreads (see Findings).
- BiomeWrite.WriteBiomeSectionReadsBack holds of the corrected biome decode only; with the block-width decode of `src/write.rs:424` the cells are misread (BiomeWrite.BiomeIndexesAsWrittenMisreads, see Findings).
- ChunkWrite.BiomeSectionsReadBack holds of the corrected biome decode only; with the block-width decode of `src/write.rs:424` the cells are misread (BiomeWrite.BiomeIndexesAsWrittenMisreads, see Findings).
- ChunkWrite.ChunkBiomesSectionReadsBack holds of the corrected biome decode only; with the block-width decode of `src/write.rs:424` the cells are misread (BiomeWrite.BiomeIndexesAsWrittenMisreads, see Findings).
- Chunk.ChunkData.WriteBlocks applies the block-entity rule evidently intended (an entity is removed when a written block has its exact position); `src/write.rs:358` clears the cache after the first section written and matches on `y & 15`, which ChunkWrite.ChunkBlocksEntitiesAsWritten exhibits (see Findings).
- Regions.Region.FlushChunkBlocks applies the block-entity rule evidently intended (an entity is removed when a written block has its exact position); `src/write.rs:358` clears the cache after the first section written and matches on `y & 15`, which ChunkWrite.ChunkBlocksEntitiesAsWritten exhibits (see Findings).
- Regions.Region.WriteBlocks applies the block-entity rule evidently intended (an entity is removed when a written block has its exact position); `src/write.rs:358` clears the cache after the first section written and matches on `y & 15`, which ChunkWrite.ChunkBlocksEntitiesAsWritten exhibits (see Findings).
- Chunk.ChunkData.SetBlock indexes the seen blocks with the full-height stride; `src/chunk.rs:117-124` uses `end + start`, under which (0, 191, 0) and (0, -64, 1) share a bit and the second write gives `None`, as Chunk.BlockIndexAsWrittenCollides shows (see Findings).
- BlockReads.GetBlockIn returns `NoSectionFound` for a chunk with no section of the Y asked for; `src/get.rs:21-24` panics there (`swap_remove(0)` of an empty vector), as BlockReads.GetBlockAsWrittenPanics shows of BlockReads.BlockAtAsWritten (see Findings).
- Regions.Region.GetBlock returns `NoSectionFound` for a chunk with no section of the Y asked for; `src/get.rs:21-24` panics there (`swap_remove(0)` of an empty vector), as BlockReads.GetBlockAsWrittenPanics shows of BlockReads.BlockAtAsWritten (see Findings).
- BiomeReads.GetBiomeIn returns `NoSectionFound` for a chunk with no section of the Y asked for; `src/biome.rs:28-30` panics there, as BiomeReads.GetBiomeAsWrittenPanics shows of BiomeReads.BiomeAtAsWritten (see Findings).
- BufferedRegions.BufferedRegion.GetBiome returns `NoSectionFound` for a chunk with no section of the Y asked for; `src/biome.rs:28-30` panics there, as BiomeReads.GetBiomeAsWrittenPanics shows of BiomeReads.BiomeAtAsWritten (see Findings).
- RegionBuffers.SetBlockOutcome is stated of the corrected RegionBuffers.RegionBlockIndex and bitset size; as written (`src/set.rs:13-17`, `src/set.rs:106-113`) (0, 319, 0) and (0, -64, 1) share a bit and the far corner indexes past the bitset and panics, as RegionBuffers.RegionBlockIndexAsWrittenFails shows (see Findings). The requirement that the index lie inside the bitset excludes only that panic.
- RegionBuffers.SetBlockKeepsOthers is stated of the corrected RegionBuffers.RegionBlockIndex and bitset size; as written (`src/set.rs:13-17`, `src/set.rs:106-113`) (0, 319, 0) and (0, -64, 1) share a bit and the far corner indexes past the bitset and panics, as RegionBuffers.RegionBlockIndexAsWrittenFails shows (see Findings). The requirement that the index lie inside the bitset excludes only that panic.
- BufferedRegions.BufferedRegion.SetBlock is stated of the corrected RegionBuffers.RegionBlockIndex and bitset size; as written (`src/set.rs:13-17`, `src/set.rs:106-113`) (0, 319, 0) and (0, -64, 1) share a bit and the far corner indexes past the bitset and panics, as RegionBuffers.RegionBlockIndexAsWrittenFails shows (see Findings). The requirement that the index lie inside the bitset excludes only that panic.
- Regions.Region.FillLent, Regions.Region.SetSectionAt and Regions.Region.SetSections require the section each entry fills, in a chunk already present, to have a palette list: `src/write.rs:159` unwraps it and panics otherwise. Other sections are not constrained.
- SectionFill.SetSectionIn models the pruning of block entities by SectionFill.Pruned, the removal evidently intended; as written (`src/write.rs:171-196`) the loop panics or removes at most one entity (SectionFill.PruneAsWritten, see Findings).
- Regions.Region.SetSections requires every entry's slot to be in the 32 × 32 grid (`AllInGrid`), the `assert!` of `src/write.rs:84-100`; the `TriedToAccessArc` error there can only arise when another owner holds the chunk, which a single-owner model never has.
- ChunkWrite.WriteChunkBlocksChecked and Chunk.ChunkData.WriteBlocks require every pending block's slot `x + 16 z + 256 (y & 15)` to fall inside the 4096-entry array (`BlocksInSections`): `src/write.rs:324-334` does not mask x and z, and a larger slot panics there. A slot inside the array reached through an unmasked x or z lands in another cell, as modelled.
- Paletted.PalettedBlocks.Remove returns the block of the removed entry: the source reads it through a raw pointer into the vector after the entry is removed, which the model does not reproduce.
- SectionEditor.HandleChunk compares the section Y as a byte tag only; a section whose `Y` has another tag type is not found.
- SectionEditor.Slot and the section editor's bit width assume a palette shorter than 2^62 entries (`MAX_PALETTE`), which every vector of palette entries is.
- A custom dimension folder that is an absolute path replaces the world folder when joined by `Path::join`; paths here are sequences of components, so that case is not modelled.
- `World` methods that return `&mut Self` for chaining are modelled as methods that update the world in place.
- `World::flush` has an empty body in the source and is modelled as such.
