/**
 * `Region::set_sections` on one chunk: the checks it makes, the section it
 * looks up by Y, and the one-entry palette it leaves there.
 */
module SectionFill {
  import opened Ints
  import opened Errors
  import opened Nbt
  import opened RegionRules
  import opened ChunkWrite
  import SectionWrite

  /** The section's `block_states`, if it has them, hold a `palette` list (its `unwrap` panics otherwise). */
  predicate PaletteListed(section: Compound)
  {
    CompoundTag(section, "block_states").Some? ==> ListTag(CompoundTag(section, "block_states").value, "palette").Some?
  }

  /** Every section of the chunk satisfies `PaletteListed`. */
  predicate PalettesListed(nbt: Compound)
  {
    forall i :: 0 <= i < |SectionsOf(nbt)| ==> PaletteListed(SectionsOf(nbt)[i])
  }

  /**
   * `try_find` over the sections from `i`: the index of the first one whose
   * "Y" is `y`; a section without "Y" met before it is an error, and none
   * matching gives the "couldn't find section" error.
   */
  function FindSectionFrom(sections: seq<Compound>, y: i8, i: nat): (r: Result<nat>)
    requires i <= |sections|
    ensures r.Ok? ==> i <= r.value < |sections| && ByteTag(sections[r.value], "Y") == Some(y)
    ensures r.Ok? ==> forall j :: i <= j < r.value ==> ByteTag(sections[j], "Y").Some? && ByteTag(sections[j], "Y") != Some(y)
    ensures r.Err? ==> r.error == MissingNbtTag("Y") || r.error == MissingNbtTag("couldn't find section")
    decreases |sections| - i
  {
    if i == |sections| then Err(MissingNbtTag("couldn't find section"))
    else match ByteTag(sections[i], "Y")
      case None => Err(MissingNbtTag("Y"))
      case Some(sy) => if sy == y then Ok(i) else FindSectionFrom(sections, y, i + 1)
  }

  function FindSection(sections: seq<Compound>, y: i8): Result<nat>
  {
    FindSectionFrom(sections, y, 0)
  }

  /**
   * The section the lookup for `y` finds, if it finds one, satisfies
   * `PaletteListed`: the only palette `set_sections` unwraps.
   */
  predicate TargetListed(nbt: Compound, y: i8)
  {
    FindSection(SectionsOf(nbt), y).Ok? ==> PaletteListed(SectionsOf(nbt)[FindSection(SectionsOf(nbt), y).value])
  }

  /** A chunk whose every section has its palette list has it in the section any lookup finds. */
  lemma ListedTarget(nbt: Compound, y: i8)
    requires PalettesListed(nbt)
    ensures TargetListed(nbt, y)
  {
  }

  /** Two section lists with the same Y tags, position by position, give the same lookup. */
  lemma {:induction false} FindSameYs(sections: seq<Compound>, others: seq<Compound>, y: i8, i: nat)
    requires i <= |sections| == |others|
    requires forall j :: 0 <= j < |sections| ==> ByteTag(sections[j], "Y") == ByteTag(others[j], "Y")
    ensures FindSectionFrom(sections, y, i) == FindSectionFrom(others, y, i)
    decreases |sections| - i
  {
    if i < |sections| {
      FindSameYs(sections, others, y, i + 1);
    }
  }

  /** No section lacks "Y" and none has the Y asked for. */
  predicate NoSectionAt(sections: seq<Compound>, y: i8, i: nat)
    requires i <= |sections|
  {
    forall j :: i <= j < |sections| ==> ByteTag(sections[j], "Y").Some? && ByteTag(sections[j], "Y") != Some(y)
  }

  /** The lookup fails with "couldn't find section" exactly when every section has a Y and none is `y`. */
  lemma {:induction false} FindSectionMissing(sections: seq<Compound>, y: i8, i: nat)
    requires i <= |sections|
    ensures FindSectionFrom(sections, y, i) == Err(MissingNbtTag("couldn't find section")) <==> NoSectionAt(sections, y, i)
    decreases |sections| - i
  {
    if i < |sections| {
      FindSectionMissing(sections, y, i + 1);
      if ByteTag(sections[i], "Y").Some? && ByteTag(sections[i], "Y") != Some(y) {
        assert NoSectionAt(sections, y, i) <==> NoSectionAt(sections, y, i + 1);
      }
    }
  }

  /**
   * One section set to `block`: with lighting updated its light arrays go;
   * its block states lose `data` and their palette becomes the block's
   * compound alone. Missing block states, or a palette that is not a list
   * of compounds, is an error.
   */
  function FillSection(section: Compound, block: Block, lighting: bool): (r: Result<Compound>)
    requires PaletteListed(section)
  {
    var lit := if lighting then section - {"BlockLight", "SkyLight"} else section;
    match CompoundTag(lit, "block_states")
    case None => Err(MissingNbtTag("block_states"))
    case Some(states) =>
      var stripped := states - {"data"};
      if !ListTag(stripped, "palette").value.CompoundList? then Err(InvalidNbtList("palette"))
      else Ok(lit["block_states" := TCompound(stripped["palette" := TList(CompoundList([ToCompound(block)]))])])
  }

  /** The chunk with its heightmaps emptied (when present) and, with lighting updated, "isLightOn" zeroed. */
  function Unlit(nbt: Compound, lighting: bool): (r: Compound)
    ensures ListTag(r, "sections") == ListTag(nbt, "sections") && ListTag(r, "block_entities") == ListTag(nbt, "block_entities")
    ensures CompoundTag(nbt, "Heightmaps").Some? ==> CompoundTag(r, "Heightmaps") == Some(map[])
    ensures lighting ==> ByteTag(r, "isLightOn") == Some(0)
    ensures forall k :: k != "Heightmaps" && k != "isLightOn" ==> (k in r <==> k in nbt) && (k in r ==> r[k] == nbt[k])
  {
    var cleared := if CompoundTag(nbt, "Heightmaps").Some? then nbt["Heightmaps" := TCompound(map[])] else nbt;
    if lighting then cleared["isLightOn" := TByte(0)] else cleared
  }

  /** What a successful `FillSection` leaves: the same Y, a one-entry palette holding the block, and no data. */
  lemma FillSectionResult(section: Compound, block: Block, lighting: bool)
    requires PaletteListed(section) && FillSection(section, block, lighting).Ok?
    ensures var r := FillSection(section, block, lighting).value;
      ByteTag(r, "Y") == ByteTag(section, "Y") && PaletteListed(r) &&
      CompoundTag(r, "block_states").Some? && "data" !in CompoundTag(r, "block_states").value &&
      ListTag(CompoundTag(r, "block_states").value, "palette") == Some(CompoundList([ToCompound(block)]))
  {
  }

  // ---- block entities ----

  /**
   * The test the pruning loop applies to a block entity whose "x", "y" and
   * "z" ints, each `& 15`, make `key`: x at least the chunk slot's x, or y
   * in the range from `y * 16` to `y * 16 + 16` computed in wrapping `i8`
   * arithmetic, or z at least the slot's z.
   */
  predicate EntityHit(key: SectionWrite.EntityKey, pos: (int, int), y: i8)
  {
    var lo := WrapI8(y * WIDTH);
    var hi := WrapI8(lo + WIDTH);
    (pos.0 <= key.0 < pos.0 + WIDTH) || (lo <= key.1 < hi) || (pos.1 <= key.2 < pos.1 + WIDTH)
  }

  /**
   * The pruning loop as written: `for i in 0..n` over the list, removing
   * entity `i` when it is hit. A removal shifts the later entities down, so
   * the next one is skipped and the fixed bound `n` indexes past the end,
   * which panics. An entity missing a coordinate is an error.
   */
  function PruneAsWritten(entities: seq<Compound>, i: nat, n: nat, pos: (int, int), y: i8): Checked<Result<seq<Compound>>>
    decreases n - i
  {
    if i >= n then Done(Ok(entities))
    else if i >= |entities| then Panics
    else match EntityKeyOf(entities[i], SectionWrite.SectionLocal)
      case Err(e) => Done(Err(e))
      case Ok(key) =>
        if EntityHit(key, pos, y) then PruneAsWritten(entities[..i] + entities[i + 1..], i + 1, n, pos, y)
        else PruneAsWritten(entities, i + 1, n, pos, y)
  }

  /** Once the list is shorter than the bound the loop still has to read, it panics or fails. */
  lemma {:induction false} PruneShortNeverOk(entities: seq<Compound>, i: nat, n: nat, pos: (int, int), y: i8)
    requires i < n && |entities| < n
    ensures !(PruneAsWritten(entities, i, n, pos, y).Done? && PruneAsWritten(entities, i, n, pos, y).value.Ok?)
    decreases n - i
  {
    if i < |entities| && EntityKeyOf(entities[i], SectionWrite.SectionLocal).Ok? {
      var key := EntityKeyOf(entities[i], SectionWrite.SectionLocal).value;
      if EntityHit(key, pos, y) {
        PruneShortNeverOk(entities[..i] + entities[i + 1..], i + 1, n, pos, y);
      } else {
        PruneShortNeverOk(entities, i + 1, n, pos, y);
      }
    }
  }

  /** Any removal before the last index makes the as-written loop panic or fail: a successful run removes at most one entity. */
  lemma {:induction false} PruneAsWrittenRemovesAtMostOne(entities: seq<Compound>, i: nat, pos: (int, int), y: i8)
    requires i <= |entities|
    requires PruneAsWritten(entities, i, |entities|, pos, y).Done? && PruneAsWritten(entities, i, |entities|, pos, y).value.Ok?
    ensures |PruneAsWritten(entities, i, |entities|, pos, y).value.value| >= |entities| - 1
    decreases |entities| - i
  {
    var n := |entities|;
    if i < n {
      var key := EntityKeyOf(entities[i], SectionWrite.SectionLocal).value;
      if EntityHit(key, pos, y) {
        var rest := entities[..i] + entities[i + 1..];
        if i + 1 < n {
          PruneShortNeverOk(rest, i + 1, n, pos, y);
        }
      } else {
        PruneAsWrittenRemovesAtMostOne(entities, i + 1, pos, y);
      }
    }
  }

  /** Two block entities in the chunk at slot (0, 0): the first is removed, and reading the second panics. */
  lemma PruneAsWrittenPanics()
    ensures var be := map["x" := TInt(0), "y" := TInt(0), "z" := TInt(0)];
      PruneAsWritten([be, be], 0, 2, (0, 0), 0) == Panics
  {
    var be := map["x" := TInt(0), "y" := TInt(0), "z" := TInt(0)];
    assert EntityKeyOf(be, SectionWrite.SectionLocal) == Ok((0, 0, 0));
    assert [be, be][..0] + [be, be][1..] == [be];
  }

  /**
   * The pruning the loop is evidently meant to do: every block entity the
   * test hits removed, the others kept in order; the first entity missing a
   * coordinate is an error.
   */
  function Pruned(entities: seq<Compound>, pos: (int, int), y: i8): (r: Result<seq<Compound>>)
    ensures r.Ok? ==> |r.value| <= |entities|
  {
    if entities == [] then Ok([])
    else match EntityKeyOf(entities[0], SectionWrite.SectionLocal)
      case Err(e) => Err(e)
      case Ok(key) =>
        match Pruned(entities[1..], pos, y)
        case Err(e) => Err(e)
        case Ok(rest) => if EntityHit(key, pos, y) then Ok(rest) else Ok([entities[0]] + rest)
  }

  /** A block entity survives the pruning with its coordinates read back as `key`. */
  predicate Survives(be: Compound, pos: (int, int), y: i8)
  {
    EntityKeyOf(be, SectionWrite.SectionLocal).Ok? &&
    !EntityHit(EntityKeyOf(be, SectionWrite.SectionLocal).value, pos, y)
  }

  /** The pruning succeeds exactly when every block entity has its three coordinates. */
  lemma {:induction false} PrunedOk(entities: seq<Compound>, pos: (int, int), y: i8)
    ensures Pruned(entities, pos, y).Ok? <==> AllKeyed(entities)
  {
    if entities != [] {
      var tail := entities[1..];
      PrunedOk(tail, pos, y);
      if HasPosition(entities[0]) && AllKeyed(tail) {
        forall i | 0 <= i < |entities| ensures HasPosition(entities[i]) {
          if i > 0 { assert entities[i] == tail[i - 1]; }
        }
      }
      if AllKeyed(entities) {
        forall i | 0 <= i < |tail| ensures HasPosition(tail[i]) {
          assert tail[i] == entities[i + 1];
        }
      }
    }
  }

  /** Every entity a successful pruning keeps survives the test. */
  lemma {:induction false} PrunedSurvive(entities: seq<Compound>, pos: (int, int), y: i8)
    requires Pruned(entities, pos, y).Ok?
    ensures var r := Pruned(entities, pos, y).value;
      forall j :: 0 <= j < |r| ==> Survives(r[j], pos, y)
  {
    if entities != [] {
      PrunedSurvive(entities[1..], pos, y);
    }
  }

  /**
   * A successful pruning keeps each entity that survives the test as often
   * as it was there, and adds none.
   */
  lemma {:induction false} PrunedKeeps(entities: seq<Compound>, pos: (int, int), y: i8)
    requires Pruned(entities, pos, y).Ok?
    ensures var r := Pruned(entities, pos, y).value;
      (forall be :: Survives(be, pos, y) ==> multiset(r)[be] == multiset(entities)[be]) &&
      multiset(r) <= multiset(entities)
  {
    if entities != [] {
      var tail := entities[1..];
      PrunedKeeps(tail, pos, y);
      var rest := Pruned(tail, pos, y).value;
      assert multiset(entities) == multiset{entities[0]} + multiset(tail) by {
        assert entities == [entities[0]] + tail;
      }
      if Survives(entities[0], pos, y) {
        assert Pruned(entities, pos, y).value == [entities[0]] + rest;
        assert multiset([entities[0]] + rest) == multiset{entities[0]} + multiset(rest);
      } else {
        assert Pruned(entities, pos, y).value == rest;
      }
    }
  }

  /** The block entities list with the kept entities; an empty list stays as it is. */
  function WithEntities(nbt: Compound, kept: seq<Compound>): (r: Compound)
    requires EntitiesListed(nbt)
    ensures EntitiesListed(r) && EntitiesOf(r) == (if ListTag(nbt, "block_entities").value.EmptyList? then [] else kept)
    ensures forall k :: k != "block_entities" ==> (k in r <==> k in nbt) && (k in r ==> r[k] == nbt[k])
  {
    if ListTag(nbt, "block_entities").value.EmptyList? then nbt
    else nbt["block_entities" := TList(CompoundList(kept))]
  }

  /**
   * The chunk `set_sections` leaves: heightmaps emptied and "isLightOn"
   * zeroed (see `Unlit`), the kept block entities, and the new sections.
   */
  function FilledChunk(nbt: Compound, lighting: bool, kept: seq<Compound>, sections: seq<Compound>): (r: Compound)
    requires EntitiesListed(nbt)
    ensures ListTag(r, "sections") == Some(CompoundList(sections)) && SectionsListed(r) && SectionsOf(r) == sections
    ensures EntitiesListed(r) && EntitiesOf(r) == (if ListTag(nbt, "block_entities").value.EmptyList? then [] else kept)
    ensures CompoundTag(nbt, "Heightmaps").Some? ==> CompoundTag(r, "Heightmaps") == Some(map[])
    ensures lighting ==> ByteTag(r, "isLightOn") == Some(0)
    ensures forall k :: k != "Heightmaps" && k != "isLightOn" && k != "sections" && k != "block_entities" ==>
      (k in r <==> k in nbt) && (k in r ==> r[k] == nbt[k])
  {
    WithEntities(Unlit(nbt, lighting), kept)["sections" := TList(CompoundList(sections))]
  }

  /** The checks `set_sections` makes before it looks for the section, in its order. */
  function SetSectionChecks(nbt: Compound, pos: (int, int), lighting: bool): (r: Result<()>)
    ensures r.Ok? ==> IsValidChunk(nbt, pos).Ok? && SectionsListed(nbt) && EntitiesListed(nbt)
    ensures r.Ok? && lighting ==> ByteTag(nbt, "isLightOn").Some?
  {
    match IsValidChunk(nbt, pos)
    case Err(e) => Err(e)
    case Ok(_) =>
      if lighting && ByteTag(nbt, "isLightOn").None? then Err(MissingNbtTag("isLightOn"))
      else if ListTag(nbt, "sections").None? then Err(MissingNbtTag("sections"))
      else if !SectionsListed(nbt) then Err(InvalidNbtList("sections"))
      else if ListTag(nbt, "block_entities").None? then Err(MissingNbtTag("block_entities"))
      else if !EntitiesListed(nbt) then Err(InvalidNbtList("block_entities"))
      else Ok(())
  }

  /** The section lookup, the fill and the block entity pruning, on a chunk that passed the checks. */
  function FillChunk(nbt: Compound, pos: (int, int), y: i8, block: Block, lighting: bool): Result<Compound>
    requires TargetListed(nbt, y) && EntitiesListed(nbt)
  {
    var sections := SectionsOf(nbt);
    match FindSection(sections, y)
    case Err(e) => Err(e)
    case Ok(i) =>
      match FillSection(sections[i], block, lighting)
      case Err(e) => Err(e)
      case Ok(filled) =>
        match Pruned(EntitiesOf(nbt), pos, y)
        case Err(e) => Err(e)
        case Ok(kept) => Ok(FilledChunk(nbt, lighting, kept, sections[i := filled]))
  }

  /**
   * `set_sections` on the chunk whose NBT is `nbt`, at chunk position
   * `pos`: the chunk is checked, its heightmaps emptied, "isLightOn" zeroed
   * when lighting is updated (a missing one is an error), the sections and
   * block entities lists checked, the first section with Y `y` filled with
   * `block`, and the block entities `EntityHit` selects removed. Emptying the
   * heightmaps touches no tag the later checks read, so they read `nbt`.
   */
  function SetSectionIn(nbt: Compound, pos: (int, int), y: i8, block: Block, lighting: bool): Result<Compound>
    requires TargetListed(nbt, y)
  {
    match SetSectionChecks(nbt, pos, lighting)
    case Err(e) => Err(e)
    case Ok(_) => FillChunk(nbt, pos, y, block, lighting)
  }

  /**
   * What a successful fill leaves in the sections: as many as before, the
   * first with Y `y` carrying block states whose palette is exactly the
   * block's compound and which have no data, every other one unchanged.
   */
  lemma SetSectionFills(nbt: Compound, pos: (int, int), y: i8, block: Block, lighting: bool)
    requires TargetListed(nbt, y) && SetSectionIn(nbt, pos, y, block, lighting).Ok?
    ensures FindSection(SectionsOf(nbt), y).Ok?
    ensures var out := SetSectionIn(nbt, pos, y, block, lighting).value;
      var i := FindSection(SectionsOf(nbt), y).value;
      SectionsListed(out) && |SectionsOf(out)| == |SectionsOf(nbt)| &&
      (forall j :: 0 <= j < |SectionsOf(nbt)| && j != i ==> SectionsOf(out)[j] == SectionsOf(nbt)[j]) &&
      ByteTag(SectionsOf(out)[i], "Y") == Some(y) &&
      CompoundTag(SectionsOf(out)[i], "block_states").Some? &&
      "data" !in CompoundTag(SectionsOf(out)[i], "block_states").value &&
      ListTag(CompoundTag(SectionsOf(out)[i], "block_states").value, "palette") == Some(CompoundList([ToCompound(block)]))
  {
    var i := FindSection(SectionsOf(nbt), y).value;
    FillSectionResult(SectionsOf(nbt)[i], block, lighting);
  }

  /**
   * The rest of a successful fill: the chunk was valid, its block entities
   * are those `Pruned` keeps (an empty list stays empty), the heightmaps are
   * empty, "isLightOn" is zero with lighting updated, and every other tag
   * is kept.
   */
  lemma SetSectionKeeps(nbt: Compound, pos: (int, int), y: i8, block: Block, lighting: bool)
    requires TargetListed(nbt, y) && SetSectionIn(nbt, pos, y, block, lighting).Ok?
    ensures var out := SetSectionIn(nbt, pos, y, block, lighting).value;
      IsValidChunk(nbt, pos).Ok? && EntitiesListed(nbt) && EntitiesListed(out) &&
      Pruned(EntitiesOf(nbt), pos, y).Ok? &&
      EntitiesOf(out) == (if ListTag(nbt, "block_entities").value.EmptyList? then [] else Pruned(EntitiesOf(nbt), pos, y).value) &&
      (CompoundTag(nbt, "Heightmaps").Some? ==> CompoundTag(out, "Heightmaps") == Some(map[])) &&
      (lighting ==> ByteTag(out, "isLightOn") == Some(0)) &&
      (forall k :: k != "Heightmaps" && k != "isLightOn" && k != "sections" && k != "block_entities" ==>
         (k in out <==> k in nbt) && (k in out ==> out[k] == nbt[k]))
  {
    var sections := SectionsOf(nbt);
    var i := FindSection(sections, y).value;
    var filled := FillSection(sections[i], block, lighting).value;
    var kept := Pruned(EntitiesOf(nbt), pos, y).value;
    assert SetSectionIn(nbt, pos, y, block, lighting).value == FilledChunk(nbt, lighting, kept, sections[i := filled]);
  }

  /** Every section still has its palette list after a fill, so a later fill of the same chunk does not panic. */
  lemma SetSectionKeepsPalettes(nbt: Compound, pos: (int, int), y: i8, block: Block, lighting: bool)
    requires PalettesListed(nbt) && SetSectionIn(nbt, pos, y, block, lighting).Ok?
    ensures PalettesListed(SetSectionIn(nbt, pos, y, block, lighting).value)
  {
    var out := SetSectionIn(nbt, pos, y, block, lighting).value;
    SetSectionFills(nbt, pos, y, block, lighting);
    var i := FindSection(SectionsOf(nbt), y).value;
    FillSectionResult(SectionsOf(nbt)[i], block, lighting);
    forall j | 0 <= j < |SectionsOf(out)|
      ensures PaletteListed(SectionsOf(out)[j])
    {
      if j != i {
        assert PaletteListed(SectionsOf(nbt)[j]);
      }
    }
  }

  /**
   * A fill keeps `TargetListed` for every Y: the sections keep their Y tags,
   * the filled one gets a palette list, and the others are unchanged.
   */
  lemma SetSectionKeepsTarget(nbt: Compound, pos: (int, int), y: i8, block: Block, lighting: bool, y2: i8)
    requires TargetListed(nbt, y) && TargetListed(nbt, y2) && SetSectionIn(nbt, pos, y, block, lighting).Ok?
    ensures TargetListed(SetSectionIn(nbt, pos, y, block, lighting).value, y2)
  {
    var out := SetSectionIn(nbt, pos, y, block, lighting).value;
    SetSectionFills(nbt, pos, y, block, lighting);
    var i := FindSection(SectionsOf(nbt), y).value;
    FillSectionResult(SectionsOf(nbt)[i], block, lighting);
    forall j | 0 <= j < |SectionsOf(nbt)|
      ensures ByteTag(SectionsOf(nbt)[j], "Y") == ByteTag(SectionsOf(out)[j], "Y")
    {
    }
    FindSameYs(SectionsOf(nbt), SectionsOf(out), y2, 0);
  }

  /** A chunk that fails `is_valid_chunk` is rejected with its error; a Y no section has gives "couldn't find section". */
  lemma SetSectionErrors(nbt: Compound, pos: (int, int), y: i8, block: Block, lighting: bool)
    requires TargetListed(nbt, y)
    ensures IsValidChunk(nbt, pos).Err? ==> SetSectionIn(nbt, pos, y, block, lighting) == Err(IsValidChunk(nbt, pos).error)
    ensures IsValidChunk(nbt, pos).Ok? && (lighting ==> ByteTag(nbt, "isLightOn").Some?) &&
            SectionsListed(nbt) && EntitiesListed(nbt) && NoSectionAt(SectionsOf(nbt), y, 0) ==>
              SetSectionIn(nbt, pos, y, block, lighting) == Err(MissingNbtTag("couldn't find section"))
  {
    FindSectionMissing(SectionsOf(nbt), y, 0);
  }
}
