/**
 * `ChunkData::write_blocks` and `ChunkData::write_biomes` over a whole chunk:
 * the chunk-level checks, the walk over the "sections" list that writes every
 * section with pending values and removes its pending entry, and the removal
 * of block entities that pending blocks overwrite.
 */
module ChunkWrite {
  import opened Ints
  import opened Errors
  import opened Nbt
  import opened RegionRules
  import opened PackedData
  import opened SectionWrite
  import opened BiomeCells
  import opened BiomeWrite
  import opened LocalCoords

  // ---- block entities ----

  /** A block entity with all three coordinates as ints. */
  predicate HasPosition(be: Compound)
  {
    IntTag(be, "x").Some? && IntTag(be, "y").Some? && IntTag(be, "z").Some?
  }

  /** A block entity's cache key: its "x" and "z" ints `& 15`, and its "y" as the rule reads it. */
  function EntityKeyOf(be: Compound, rule: EntityMatch): (r: Result<EntityKey>)
    ensures IntTag(be, "x").None? ==> r == Err(MissingNbtTag("x"))
    ensures IntTag(be, "x").Some? && IntTag(be, "y").None? ==> r == Err(MissingNbtTag("y"))
    ensures IntTag(be, "x").Some? && IntTag(be, "y").Some? && IntTag(be, "z").None? ==> r == Err(MissingNbtTag("z"))
    ensures r.Ok? <==> HasPosition(be)
    ensures r.Ok? ==> 0 <= r.value.0 < WIDTH && 0 <= r.value.2 < WIDTH
    ensures r.Ok? && rule == SectionLocal ==> 0 <= r.value.1 < WIDTH
  {
    match IntTag(be, "x")
    case None => Err(MissingNbtTag("x"))
    case Some(x) =>
      match IntTag(be, "y")
      case None => Err(MissingNbtTag("y"))
      case Some(y) =>
        match IntTag(be, "z")
        case None => Err(MissingNbtTag("z"))
        case Some(z) => Ok((x % WIDTH, if rule == SectionLocal then y % WIDTH else y, z % WIDTH))
  }

  /** Every block entity has all three coordinates. */
  predicate AllKeyed(entities: seq<Compound>)
  {
    forall i :: 0 <= i < |entities| ==> HasPosition(entities[i])
  }

  /** The cache loop: every block entity's key inserted as unmarked; the first entity missing a coordinate fails. */
  function EntityCacheFrom(entities: seq<Compound>, cache: map<EntityKey, bool>, rule: EntityMatch): Result<map<EntityKey, bool>>
    decreases |entities|
  {
    if entities == [] then Ok(cache)
    else
      match EntityKeyOf(entities[0], rule)
      case Err(e) => Err(e)
      case Ok(k) => EntityCacheFrom(entities[1..], cache[k := false], rule)
  }

  /** Whether some block entity of the list has the key. */
  predicate KeyOccurs(entities: seq<Compound>, k: EntityKey, rule: EntityMatch)
  {
    exists i :: 0 <= i < |entities| && EntityKeyOf(entities[i], rule) == Ok(k)
  }

  /**
   * The cache succeeds exactly when every entity is keyed, and then holds the
   * earlier keys and every entity's key, the latter unmarked.
   */
  lemma {:induction false} EntityCacheContents(entities: seq<Compound>, cache: map<EntityKey, bool>, rule: EntityMatch)
    ensures EntityCacheFrom(entities, cache, rule).Ok? <==> AllKeyed(entities)
    ensures EntityCacheFrom(entities, cache, rule).Ok? ==>
      var r := EntityCacheFrom(entities, cache, rule).value;
      (forall k :: k in r <==> k in cache || KeyOccurs(entities, k, rule)) &&
      (forall k :: KeyOccurs(entities, k, rule) ==> !r[k]) &&
      (forall k :: k in cache && !KeyOccurs(entities, k, rule) ==> r[k] == cache[k])
    decreases |entities|
  {
    if entities != [] {
      var tail := entities[1..];
      assert forall i :: 0 <= i < |tail| ==> tail[i] == entities[i + 1];
      match EntityKeyOf(entities[0], rule)
      case Err(e) =>
      case Ok(k0) =>
        EntityCacheContents(tail, cache[k0 := false], rule);
        forall k ensures KeyOccurs(entities, k, rule) <==> k == k0 || KeyOccurs(tail, k, rule) {
          if KeyOccurs(entities, k, rule) && k != k0 {
            var i :| 0 <= i < |entities| && EntityKeyOf(entities[i], rule) == Ok(k);
            assert EntityKeyOf(tail[i - 1], rule) == Ok(k);
          }
          if KeyOccurs(tail, k, rule) {
            var i :| 0 <= i < |tail| && EntityKeyOf(tail[i], rule) == Ok(k);
            assert EntityKeyOf(entities[i + 1], rule) == Ok(k);
          }
        }
        if AllKeyed(tail) {
          forall i | 0 <= i < |entities| ensures HasPosition(entities[i]) {
            if i > 0 {
              assert entities[i] == tail[i - 1];
            }
          }
        }
    }
  }

  /** The chunk's block-entity cache, built before the section loop. */
  function EntityCache(entities: seq<Compound>, rule: EntityMatch): Result<map<EntityKey, bool>>
  {
    EntityCacheFrom(entities, map[], rule)
  }

  /** A block entity the marks delete: keyed, cached and marked. */
  predicate Marked(be: Compound, marks: map<EntityKey, bool>, rule: EntityMatch)
  {
    EntityKeyOf(be, rule).Ok? && EntityKeyOf(be, rule).value in marks && marks[EntityKeyOf(be, rule).value]
  }

  /** `block_entities.retain(..)`: the entities, in order, that the marks do not delete. */
  function Retained(entities: seq<Compound>, marks: map<EntityKey, bool>, rule: EntityMatch): (r: seq<Compound>)
    ensures |r| <= |entities|
    decreases |entities|
  {
    if entities == [] then []
    else
      var last := entities[|entities| - 1];
      Retained(entities[..|entities| - 1], marks, rule) + (if Marked(last, marks, rule) then [] else [last])
  }

  /** `retain` keeps exactly the entities that are not marked. */
  lemma {:induction false} RetainedFilter(entities: seq<Compound>, marks: map<EntityKey, bool>, rule: EntityMatch)
    ensures forall be :: be in Retained(entities, marks, rule) <==> be in entities && !Marked(be, marks, rule)
    decreases |entities|
  {
    if entities != [] {
      var init := entities[..|entities| - 1];
      RetainedFilter(init, marks, rule);
      assert entities == init + [entities[|entities| - 1]];
    }
  }

  /** When no entity is marked, `retain` keeps every entity. */
  lemma {:induction false} RetainedUnmarked(entities: seq<Compound>, marks: map<EntityKey, bool>, rule: EntityMatch)
    requires forall be :: be in entities ==> !Marked(be, marks, rule)
    ensures Retained(entities, marks, rule) == entities
    decreases |entities|
  {
    if entities != [] {
      var init := entities[..|entities| - 1];
      assert entities == init + [entities[|entities| - 1]];
      RetainedUnmarked(init, marks, rule);
    }
  }

  /** Retaining twice, under marks that only grow, is retaining once under the later marks. */
  lemma {:induction false} RetainedTwice(entities: seq<Compound>, m1: map<EntityKey, bool>, m2: map<EntityKey, bool>,
                                         rule: EntityMatch)
    requires forall k :: k in m1 && m1[k] ==> k in m2 && m2[k]
    ensures Retained(Retained(entities, m1, rule), m2, rule) == Retained(entities, m2, rule)
    decreases |entities|
  {
    if entities != [] {
      var init := entities[..|entities| - 1];
      var last := entities[|entities| - 1];
      RetainedTwice(init, m1, m2, rule);
      assert entities == init + [last];
      RetainedSnoc(init, last, m1, rule);
      RetainedSnoc(init, last, m2, rule);
      if !Marked(last, m1, rule) {
        RetainedSnoc(Retained(init, m1, rule), last, m2, rule);
      } else {
        assert Marked(last, m2, rule);
        assert Retained(init, m1, rule) + [] == Retained(init, m1, rule);
        assert Retained(init, m2, rule) + [] == Retained(init, m2, rule);
      }
    }
  }

  /** Retaining a list with one more entity at the end. */
  lemma RetainedSnoc(xs: seq<Compound>, x: Compound, marks: map<EntityKey, bool>, rule: EntityMatch)
    ensures Retained(xs + [x], marks, rule) == Retained(xs, marks, rule) + (if Marked(x, marks, rule) then [] else [x])
  {
    assert (xs + [x])[..|xs + [x]| - 1] == xs;
  }

  /** Whether some pending block marks the key. */
  predicate PendingHits(pending: seq<BlockWithCoordinate>, k: EntityKey, rule: EntityMatch)
  {
    exists j :: 0 <= j < |pending| && PendingEntityKey(pending[j].coordinates, rule) == k
  }

  /** After the pending loop a cached key is marked exactly when it was, or when some pending block lands on it. */
  lemma {:induction false} MarkAllMarks(marks: map<EntityKey, bool>, pending: seq<BlockWithCoordinate>, rule: EntityMatch,
                                        k: EntityKey)
    requires k in marks
    ensures k in MarkAll(marks, pending, rule)
    ensures MarkAll(marks, pending, rule)[k] <==> marks[k] || PendingHits(pending, k, rule)
    decreases |pending|
  {
    if pending != [] {
      var k0 := PendingEntityKey(pending[0].coordinates, rule);
      var next := if k0 in marks then marks[k0 := true] else marks;
      var tail := pending[1..];
      MarkAllMarks(next, tail, rule, k);
      if PendingHits(tail, k, rule) {
        var j :| 0 <= j < |tail| && PendingEntityKey(tail[j].coordinates, rule) == k;
        assert PendingEntityKey(pending[j + 1].coordinates, rule) == k;
      }
      if PendingHits(pending, k, rule) && k != k0 {
        var j :| 0 <= j < |pending| && PendingEntityKey(pending[j].coordinates, rule) == k;
        assert PendingEntityKey(tail[j - 1].coordinates, rule) == k;
      }
    }
  }

  /** Marking two lists of pending blocks one after the other is marking their concatenation. */
  lemma {:induction false} MarkAllAppend(marks: map<EntityKey, bool>, a: seq<BlockWithCoordinate>, b: seq<BlockWithCoordinate>,
                                         rule: EntityMatch)
    ensures MarkAll(marks, a + b, rule) == MarkAll(MarkAll(marks, a, rule), b, rule)
    decreases |a|
  {
    if a != [] {
      var k0 := PendingEntityKey(a[0].coordinates, rule);
      var next := if k0 in marks then marks[k0 := true] else marks;
      assert (a + b)[0] == a[0] && (a + b)[1..] == a[1..] + b;
      assert MarkAll(marks, a + b, rule) == MarkAll(next, a[1..] + b, rule);
      assert MarkAll(marks, a, rule) == MarkAll(next, a[1..], rule);
      MarkAllAppend(next, a[1..], b, rule);
    } else {
      assert a + b == b;
    }
  }

  /** Marking never unmarks a key. */
  lemma {:induction false} MarkAllGrows(marks: map<EntityKey, bool>, pending: seq<BlockWithCoordinate>, rule: EntityMatch)
    ensures forall k :: k in marks && marks[k] ==> k in MarkAll(marks, pending, rule) && MarkAll(marks, pending, rule)[k]
    decreases |pending|
  {
    if pending != [] {
      var k0 := PendingEntityKey(pending[0].coordinates, rule);
      MarkAllGrows(if k0 in marks then marks[k0 := true] else marks, pending[1..], rule);
    }
  }

  // ---- the section loop of write_blocks ----

  /** The section-loop state: the sections written so far, what is still pending, the reused array, the entity cache and the entities. */
  datatype BlockPass = BlockPass(sections: seq<Compound>, pending: map<i8, seq<BlockWithCoordinate>>, stale: seq<int>,
                                 marks: map<EntityKey, bool>, entities: seq<Compound>)

  /** A loop run that neither panics nor fails. */
  predicate Completes(c: Checked<Result<BlockPass>>)
  {
    c.Done? && c.value.Ok?
  }

  /**
   * One visit of the section loop of `write_blocks`: a section without a
   * "Y" byte fails; one whose Y has no pending entry is kept as it is;
   * otherwise the entry is removed and the section written, the entities it
   * marks are removed, and the cache is emptied.
   */
  function BlockStep(p: BlockPass, section: Compound, lighting: bool, rule: EntityMatch): (r: Checked<Result<BlockPass>>)
    requires |p.stale| == BLOCK_DATA_LEN
    ensures Completes(r) ==>
      ByteTag(section, "Y").Some? &&
      var y := ByteTag(section, "Y").value;
      var q := r.value.value;
      |q.stale| == BLOCK_DATA_LEN && q.pending == p.pending - {y} &&
      |q.sections| == |p.sections| + 1 && q.sections[..|p.sections|] == p.sections &&
      (y !in p.pending ==> q == p.(sections := p.sections + [section])) &&
      (y in p.pending ==>
         var w := WriteBlockSection(section, p.pending[y], p.stale, lighting);
         Succeeds(w) && q.sections == p.sections + [w.value.value.compound] &&
         q.marks == (if rule == SectionLocal then map[] else MarkAll(p.marks, p.pending[y], rule)) &&
         q.entities == Retained(p.entities, MarkAll(p.marks, p.pending[y], rule), rule))
  {
    match ByteTag(section, "Y")
    case None => Done(Err(MissingNbtTag("Y")))
    case Some(y) =>
      if y !in p.pending then Done(Ok(p.(sections := p.sections + [section])))
      else
        match WriteBlockSection(section, p.pending[y], p.stale, lighting)
        case Panics => Panics
        case Done(Err(e)) => Done(Err(e))
        case Done(Ok(w)) =>
          var marks := MarkAll(p.marks, p.pending[y], rule);
          var cache := if rule == SectionLocal then map[] else marks;
          Done(Ok(BlockPass(p.sections + [w.compound], p.pending - {y}, w.indexes, cache, Retained(p.entities, marks, rule))))
  }

  /** The section loop of `write_blocks` over the sections still to visit. */
  function WriteBlockSectionsFrom(p: BlockPass, rest: seq<Compound>, lighting: bool, rule: EntityMatch): (r: Checked<Result<BlockPass>>)
    requires |p.stale| == BLOCK_DATA_LEN
    ensures Completes(r) ==> |r.value.value.stale| == BLOCK_DATA_LEN
    decreases |rest|
  {
    if rest == [] then Done(Ok(p))
    else
      match BlockStep(p, rest[0], lighting, rule)
      case Panics => Panics
      case Done(Err(e)) => Done(Err(e))
      case Done(Ok(next)) => WriteBlockSectionsFrom(next, rest[1..], lighting, rule)
  }

  /** The section Ys of a list of sections, skipping sections without one. */
  function SectionYs(sections: seq<Compound>): set<i8>
    decreases |sections|
  {
    if sections == [] then {}
    else (if ByteTag(sections[0], "Y").Some? then {ByteTag(sections[0], "Y").value} else {}) + SectionYs(sections[1..])
  }

  /** The pending list of the first section that has one, empty when no section has. */
  function FirstProcessed(pending: map<i8, seq<BlockWithCoordinate>>, rest: seq<Compound>): seq<BlockWithCoordinate>
    decreases |rest|
  {
    if rest == [] then []
    else if ByteTag(rest[0], "Y").Some? && ByteTag(rest[0], "Y").value in pending then pending[ByteTag(rest[0], "Y").value]
    else FirstProcessed(pending, rest[1..])
  }

  /** A completed loop removes the pending entries of exactly the Ys the sections have, and keeps the others. */
  lemma {:induction false} BlockSectionsPending(p: BlockPass, rest: seq<Compound>, lighting: bool, rule: EntityMatch)
    requires |p.stale| == BLOCK_DATA_LEN
    requires Completes(WriteBlockSectionsFrom(p, rest, lighting, rule))
    ensures WriteBlockSectionsFrom(p, rest, lighting, rule).value.value.pending == p.pending - SectionYs(rest)
    decreases |rest|
  {
    if rest != [] {
      var next := BlockStep(p, rest[0], lighting, rule).value.value;
      var y := ByteTag(rest[0], "Y").value;
      assert next.pending == p.pending - {y};
      assert WriteBlockSectionsFrom(p, rest, lighting, rule) == WriteBlockSectionsFrom(next, rest[1..], lighting, rule);
      BlockSectionsPending(next, rest[1..], lighting, rule);
      assert SectionYs(rest) == {y} + SectionYs(rest[1..]);
      MinusTwice(p.pending, {y}, SectionYs(rest[1..]));
    }
  }

  lemma MinusTwice<K, V>(m: map<K, V>, a: set<K>, b: set<K>)
    ensures m - a - b == m - (a + b)
  {
  }

  /** A completed loop keeps the sections written so far and adds one per visited section. */
  lemma {:induction false} BlockSectionsPrefix(p: BlockPass, rest: seq<Compound>, lighting: bool, rule: EntityMatch)
    requires |p.stale| == BLOCK_DATA_LEN
    requires Completes(WriteBlockSectionsFrom(p, rest, lighting, rule))
    ensures var q := WriteBlockSectionsFrom(p, rest, lighting, rule).value.value;
      |q.sections| == |p.sections| + |rest| && q.sections[..|p.sections|] == p.sections
    decreases |rest|
  {
    if rest != [] {
      var next := BlockStep(p, rest[0], lighting, rule).value.value;
      BlockSectionsPrefix(next, rest[1..], lighting, rule);
      var q := WriteBlockSectionsFrom(p, rest, lighting, rule).value.value;
      assert q.sections[..|next.sections|][..|p.sections|] == q.sections[..|p.sections|];
    }
  }

  /** What reading a written section back shows: each targeted slot holds the last block aimed at it, every other slot is as before. */
  predicate SectionReadsBack(section: Compound, pending: seq<BlockWithCoordinate>, out: Compound, s: int)
  {
    StoredBlock(out, s).Some? &&
    (LastWrite(pending, s).Some? ==>
       FromCompound(StoredBlock(out, s).value) == Ok(Normalized(pending[LastWrite(pending, s).value].block))) &&
    (LastWrite(pending, s).None? ==> StoredBlock(out, s) == StoredBlock(section, s))
  }

  lemma SectionYsSplit(rest: seq<Compound>, i: int)
    requires 0 < i <= |rest|
    ensures SectionYs(rest[..i]) == SectionYs([rest[0]]) + SectionYs(rest[1..][..i - 1])
    ensures SectionYs([rest[0]]) == (if ByteTag(rest[0], "Y").Some? then {ByteTag(rest[0], "Y").value} else {})
  {
    assert rest[..i][1..] == rest[1..][..i - 1];
    assert [rest[0]][1..] == [];
  }

  /** A visit that writes the section leaves it reading back its pending entry. */
  lemma BlockStepReadsBack(p: BlockPass, section: Compound, lighting: bool, rule: EntityMatch, s: int)
    requires |p.stale| == BLOCK_DATA_LEN && Completes(BlockStep(p, section, lighting, rule)) && 0 <= s < BLOCK_DATA_LEN
    requires ByteTag(section, "Y").Some? && ByteTag(section, "Y").value in p.pending
    requires FullSection(section) && AllWellNamed(p.pending[ByteTag(section, "Y").value])
    ensures var q := BlockStep(p, section, lighting, rule).value.value;
      |p.sections| < |q.sections| && SectionReadsBack(section, p.pending[ByteTag(section, "Y").value], q.sections[|p.sections|], s)
  {
    var y := ByteTag(section, "Y").value;
    WriteBlockSectionReadsBack(section, p.pending[y], p.stale, lighting, s);
  }

  /**
   * The first section with a given Y whose pending entry is still there is
   * written with that entry, and reads back accordingly.
   */
  lemma {:induction false} BlockSectionsReadBack(p: BlockPass, rest: seq<Compound>, lighting: bool, rule: EntityMatch, i: int, k: int, s: int)
    requires |p.stale| == BLOCK_DATA_LEN && Completes(WriteBlockSectionsFrom(p, rest, lighting, rule))
    requires 0 <= i < |rest| && k == |p.sections| + i && 0 <= s < BLOCK_DATA_LEN
    requires ByteTag(rest[i], "Y").Some? && ByteTag(rest[i], "Y").value in p.pending
    requires ByteTag(rest[i], "Y").value !in SectionYs(rest[..i])
    requires FullSection(rest[i]) && AllWellNamed(p.pending[ByteTag(rest[i], "Y").value])
    ensures var q := WriteBlockSectionsFrom(p, rest, lighting, rule).value.value;
      k < |q.sections| && SectionReadsBack(rest[i], p.pending[ByteTag(rest[i], "Y").value], q.sections[k], s)
    decreases |rest|
  {
    var y := ByteTag(rest[i], "Y").value;
    BlockSectionsPrefix(p, rest, lighting, rule);
    var next := BlockStep(p, rest[0], lighting, rule).value.value;
    var q := WriteBlockSectionsFrom(p, rest, lighting, rule).value.value;
    assert q == WriteBlockSectionsFrom(next, rest[1..], lighting, rule).value.value;
    BlockSectionsPrefix(next, rest[1..], lighting, rule);
    if i == 0 {
      assert q.sections[..|next.sections|][k] == q.sections[k];
      BlockStepReadsBack(p, rest[0], lighting, rule, s);
    } else {
      SectionYsSplit(rest, i);
      assert rest[1..][i - 1] == rest[i];
      assert next.pending[y] == p.pending[y];
      BlockSectionsReadBack(next, rest[1..], lighting, rule, i - 1, k, s);
    }
  }

  /** A section whose Y has no pending entry left when the loop reaches it comes out unchanged. */
  lemma {:induction false} BlockSectionsUnchanged(p: BlockPass, rest: seq<Compound>, lighting: bool, rule: EntityMatch, i: int, k: int)
    requires |p.stale| == BLOCK_DATA_LEN && Completes(WriteBlockSectionsFrom(p, rest, lighting, rule))
    requires 0 <= i < |rest| && k == |p.sections| + i && ByteTag(rest[i], "Y").Some?
    requires ByteTag(rest[i], "Y").value !in p.pending || ByteTag(rest[i], "Y").value in SectionYs(rest[..i])
    ensures var q := WriteBlockSectionsFrom(p, rest, lighting, rule).value.value;
      k < |q.sections| && q.sections[k] == rest[i]
    decreases |rest|
  {
    BlockSectionsPrefix(p, rest, lighting, rule);
    var next := BlockStep(p, rest[0], lighting, rule).value.value;
    var q := WriteBlockSectionsFrom(p, rest, lighting, rule).value.value;
    assert q == WriteBlockSectionsFrom(next, rest[1..], lighting, rule).value.value;
    BlockSectionsPrefix(next, rest[1..], lighting, rule);
    if i == 0 {
      assert rest[..0] == [];
      assert q.sections[..|next.sections|][k] == q.sections[k];
    } else {
      SectionYsSplit(rest, i);
      assert rest[1..][i - 1] == rest[i];
      BlockSectionsUnchanged(next, rest[1..], lighting, rule, i - 1, k);
    }
  }

  /** No entity of the list is marked. */
  predicate NoneMarked(entities: seq<Compound>, marks: map<EntityKey, bool>, rule: EntityMatch)
  {
    forall be :: be in entities ==> !Marked(be, marks, rule)
  }

  /**
   * Block entities as the loop of `write_blocks` leaves them: only the
   * pending blocks of the first section with a pending entry mark any, since
   * the cache is emptied after every written section.
   */
  lemma {:induction false} BlockSectionsEntities(p: BlockPass, rest: seq<Compound>, lighting: bool)
    requires |p.stale| == BLOCK_DATA_LEN && Completes(WriteBlockSectionsFrom(p, rest, lighting, SectionLocal))
    requires NoneMarked(p.entities, p.marks, SectionLocal)
    ensures WriteBlockSectionsFrom(p, rest, lighting, SectionLocal).value.value.entities ==
            Retained(p.entities, MarkAll(p.marks, FirstProcessed(p.pending, rest), SectionLocal), SectionLocal)
    decreases |rest|
  {
    if rest == [] {
      RetainedUnmarked(p.entities, p.marks, SectionLocal);
    } else {
      var y := ByteTag(rest[0], "Y").value;
      var next := BlockStep(p, rest[0], lighting, SectionLocal).value.value;
      BlockSectionsEntities(next, rest[1..], lighting);
      if y in p.pending {
        RetainedUnmarked(next.entities, map[], SectionLocal);
        var m := MarkAll(map[], FirstProcessed(next.pending, rest[1..]), SectionLocal);
        assert m.Keys == {};
        assert m == map[];
      }
    }
  }

  /** The pending lists of the sections the loop writes, in section order: the first section of each pending Y. */
  function ProcessedBlocks(pending: map<i8, seq<BlockWithCoordinate>>, rest: seq<Compound>): seq<BlockWithCoordinate>
    decreases |rest|
  {
    if rest == [] then []
    else
      match ByteTag(rest[0], "Y")
      case None => ProcessedBlocks(pending, rest[1..])
      case Some(y) =>
        if y in pending then pending[y] + ProcessedBlocks(pending - {y}, rest[1..])
        else ProcessedBlocks(pending, rest[1..])
  }

  /** Block entities under exact matching with the cache kept: every written section's pending blocks mark. */
  lemma {:induction false} BlockSectionsEntitiesExact(p: BlockPass, rest: seq<Compound>, lighting: bool)
    requires |p.stale| == BLOCK_DATA_LEN && Completes(WriteBlockSectionsFrom(p, rest, lighting, Exact))
    requires NoneMarked(p.entities, p.marks, Exact)
    ensures WriteBlockSectionsFrom(p, rest, lighting, Exact).value.value.entities ==
            Retained(p.entities, MarkAll(p.marks, ProcessedBlocks(p.pending, rest), Exact), Exact)
    decreases |rest|
  {
    if rest == [] {
      RetainedUnmarked(p.entities, p.marks, Exact);
    } else {
      var y := ByteTag(rest[0], "Y").value;
      var next := BlockStep(p, rest[0], lighting, Exact).value.value;
      if y in p.pending {
        var m1 := MarkAll(p.marks, p.pending[y], Exact);
        RetainedFilter(p.entities, m1, Exact);
        BlockSectionsEntitiesExact(next, rest[1..], lighting);
        var later := ProcessedBlocks(next.pending, rest[1..]);
        MarkAllAppend(p.marks, p.pending[y], later, Exact);
        MarkAllGrows(m1, later, Exact);
        RetainedTwice(p.entities, m1, MarkAll(m1, later, Exact), Exact);
      } else {
        BlockSectionsEntitiesExact(next, rest[1..], lighting);
      }
    }
  }

  // ---- write_blocks over the chunk ----

  /** The block-entity list: a compound list, or an empty list, which reads as no entities. */
  predicate EntitiesListed(nbt: Compound)
  {
    ListTag(nbt, "block_entities").Some? &&
    (ListTag(nbt, "block_entities").value.CompoundList? || ListTag(nbt, "block_entities").value.EmptyList?)
  }

  /** The block entities of the chunk (none for an empty list). */
  function EntitiesOf(nbt: Compound): seq<Compound>
  {
    if ListTag(nbt, "block_entities").Some? && ListTag(nbt, "block_entities").value.CompoundList?
    then ListTag(nbt, "block_entities").value.compounds
    else []
  }

  /** The sections list is a compound list. */
  predicate SectionsListed(nbt: Compound)
  {
    ListTag(nbt, "sections").Some? && ListTag(nbt, "sections").value.CompoundList?
  }

  /** What the checks before the section loop hand to it. */
  datatype Prepared = Prepared(sections: seq<Compound>, cache: map<EntityKey, bool>)

  /**
   * The checks `write_blocks` makes before walking the sections, in the
   * source's order: chunk validity, the "isLightOn" byte when lighting is
   * updated, the "sections" list, the "block_entities" list and the position
   * of every block entity.
   */
  function PrepareBlocks(nbt: Compound, pos: (int, int), lighting: bool, rule: EntityMatch): Result<Prepared>
  {
    match IsValidChunk(nbt, pos)
    case Err(e) => Err(e)
    case Ok(_) =>
      if lighting && ByteTag(nbt, "isLightOn").None? then Err(MissingNbtTag("isLightOn"))
      else
        match ListTag(nbt, "sections")
        case None => Err(MissingNbtTag("sections"))
        case Some(list) =>
          if !list.CompoundList? then Err(InvalidNbtList("sections"))
          else
            match ListTag(nbt, "block_entities")
            case None => Err(MissingNbtTag("block_entities"))
            case Some(bes) =>
              if !(bes.CompoundList? || bes.EmptyList?) then Err(InvalidNbtList("block_entities"))
              else
                match EntityCache(EntitiesOf(nbt), rule)
                case Err(e) => Err(e)
                case Ok(cache) => Ok(Prepared(list.compounds, cache))
  }

  /** The checks pass exactly when the chunk is valid and has every tag they read; each failing check gives its error. */
  lemma PrepareBlocksOutcome(nbt: Compound, pos: (int, int), lighting: bool, rule: EntityMatch)
    ensures var r := PrepareBlocks(nbt, pos, lighting, rule);
      r.Ok? <==> IsValidChunk(nbt, pos).Ok? && (lighting ==> ByteTag(nbt, "isLightOn").Some?) &&
                         SectionsListed(nbt) && EntitiesListed(nbt) && AllKeyed(EntitiesOf(nbt))
    ensures var r := PrepareBlocks(nbt, pos, lighting, rule);
      IsValidChunk(nbt, pos).Err? ==> r == Err(IsValidChunk(nbt, pos).error)
    ensures var r := PrepareBlocks(nbt, pos, lighting, rule);
      IsValidChunk(nbt, pos).Ok? && lighting && ByteTag(nbt, "isLightOn").None? ==> r == Err(MissingNbtTag("isLightOn"))
    ensures var r := PrepareBlocks(nbt, pos, lighting, rule);
      IsValidChunk(nbt, pos).Ok? && (lighting ==> ByteTag(nbt, "isLightOn").Some?) ==>
                (ListTag(nbt, "sections").None? ==> r == Err(MissingNbtTag("sections"))) &&
                (ListTag(nbt, "sections").Some? && !SectionsListed(nbt) ==> r == Err(InvalidNbtList("sections"))) &&
                (SectionsListed(nbt) && ListTag(nbt, "block_entities").None? ==> r == Err(MissingNbtTag("block_entities"))) &&
                (SectionsListed(nbt) && ListTag(nbt, "block_entities").Some? && !EntitiesListed(nbt) ==>
                   r == Err(InvalidNbtList("block_entities")))
    ensures var r := PrepareBlocks(nbt, pos, lighting, rule);
      r.Ok? ==> r.value.sections == ListTag(nbt, "sections").value.compounds &&
                        Ok(r.value.cache) == EntityCache(EntitiesOf(nbt), rule)
  {
    EntityCacheContents(EntitiesOf(nbt), map[], rule);
  }

  /** The chunk-wide resets: the heightmaps compound emptied, and "isLightOn" set to 0 when lighting is updated. */
  function ResetChunk(nbt: Compound, lighting: bool): Compound
  {
    var cleared := if CompoundTag(nbt, "Heightmaps").Some? then nbt["Heightmaps" := TCompound(map[])] else nbt;
    if lighting then cleared["isLightOn" := TByte(0)] else cleared
  }

  /** The resets touch the heightmaps and "isLightOn" only. */
  lemma ResetChunkTags(nbt: Compound, lighting: bool)
    ensures var r := ResetChunk(nbt, lighting);
      CompoundTag(nbt, "Heightmaps").Some? ==> CompoundTag(r, "Heightmaps") == Some(map[])
    ensures var r := ResetChunk(nbt, lighting);
      CompoundTag(nbt, "Heightmaps").None? ==> ("Heightmaps" in r <==> "Heightmaps" in nbt) &&
                                                        ("Heightmaps" in r ==> r["Heightmaps"] == nbt["Heightmaps"])
    ensures var r := ResetChunk(nbt, lighting);
      lighting ==> ByteTag(r, "isLightOn") == Some(0)
    ensures var r := ResetChunk(nbt, lighting);
      !lighting ==> ("isLightOn" in r <==> "isLightOn" in nbt) && ("isLightOn" in r ==> r["isLightOn"] == nbt["isLightOn"])
    ensures var r := ResetChunk(nbt, lighting);
      forall k :: k != "Heightmaps" && k != "isLightOn" ==> (k in r <==> k in nbt) && (k in r ==> r[k] == nbt[k])
  {
  }

  /** A chunk after its section loop: the new chunk NBT and the pending entries left over. */
  datatype ChunkOut<V> = ChunkOut(nbt: Compound, pending: map<i8, seq<V>>)

  /** A chunk write that neither panics nor fails. */
  predicate ChunkSucceeds<V>(c: Checked<Result<ChunkOut<V>>>)
  {
    c.Done? && c.value.Ok?
  }

  /** The loop's starting state: nothing written, the reused array all zeros, the fresh cache and the chunk's entities. */
  function StartPass(nbt: Compound, pending: map<i8, seq<BlockWithCoordinate>>, pr: Prepared): (r: BlockPass)
    ensures |r.stale| == BLOCK_DATA_LEN
  {
    BlockPass([], pending, Zeros(BLOCK_DATA_LEN), pr.cache, EntitiesOf(nbt))
  }

  /** The chunk after the loop: the written sections, and the kept entities if the chunk holds a compound list of them. */
  function Assemble(nbt: Compound, lighting: bool, q: BlockPass): Compound
  {
    var withSections := ResetChunk(nbt, lighting)["sections" := TList(CompoundList(q.sections))];
    if ListTag(nbt, "block_entities").Some? && ListTag(nbt, "block_entities").value.CompoundList?
    then withSections["block_entities" := TList(CompoundList(q.entities))]
    else withSections
  }

  /** The assembled chunk: the resets, the loop's sections and kept entities, and every other tag as it was. */
  lemma AssembleTags(nbt: Compound, lighting: bool, q: BlockPass)
    ensures var r := Assemble(nbt, lighting, q);
      CompoundTag(nbt, "Heightmaps").Some? ==> CompoundTag(r, "Heightmaps") == Some(map[])
    ensures var r := Assemble(nbt, lighting, q);
      lighting ==> ByteTag(r, "isLightOn") == Some(0)
    ensures var r := Assemble(nbt, lighting, q);
      ListTag(r, "sections") == Some(CompoundList(q.sections))
    ensures var r := Assemble(nbt, lighting, q);
      ListTag(nbt, "block_entities").Some? && ListTag(nbt, "block_entities").value.CompoundList? ==>
                ListTag(r, "block_entities") == Some(CompoundList(q.entities))
    ensures var r := Assemble(nbt, lighting, q);
      ListTag(nbt, "block_entities").Some? && ListTag(nbt, "block_entities").value.EmptyList? ==>
                "block_entities" in r && r["block_entities"] == nbt["block_entities"]
    ensures var r := Assemble(nbt, lighting, q);
      forall k :: k != "Heightmaps" && k != "isLightOn" && k != "sections" && k != "block_entities" ==>
                (k in r <==> k in nbt) && (k in r ==> r[k] == nbt[k])
  {
    ResetChunkTags(nbt, lighting);
  }

  /**
   * `ChunkData::write_blocks` on the chunk's NBT and its pending blocks: the
   * checks, the section loop, and the chunk assembled from the loop's result.
   * A chunk that fails `is_valid_chunk` is rejected before any section is
   * touched.
   */
  function WriteChunkBlocks(nbt: Compound, pos: (int, int), pending: map<i8, seq<BlockWithCoordinate>>, lighting: bool,
                            rule: EntityMatch): Checked<Result<ChunkOut<BlockWithCoordinate>>>
  {
    match PrepareBlocks(nbt, pos, lighting, rule)
    case Err(e) => Done(Err(e))
    case Ok(pr) =>
      match WriteBlockSectionsFrom(StartPass(nbt, pending, pr), pr.sections, lighting, rule)
      case Panics => Panics
      case Done(Err(e)) => Done(Err(e))
      case Done(Ok(q)) => Done(Ok(ChunkOut(Assemble(nbt, lighting, q), q.pending)))
  }

  /** An invalid chunk is rejected before any section is touched; a successful write passed every check and completed the loop. */
  lemma ChunkBlocksChecksFirst(nbt: Compound, pos: (int, int), pending: map<i8, seq<BlockWithCoordinate>>, lighting: bool, rule: EntityMatch)
    ensures var r := WriteChunkBlocks(nbt, pos, pending, lighting, rule);
      IsValidChunk(nbt, pos).Err? ==> r == Done(Err(IsValidChunk(nbt, pos).error))
    ensures var r := WriteChunkBlocks(nbt, pos, pending, lighting, rule);
      r.Done? && r.value.Ok? ==>
        PrepareBlocks(nbt, pos, lighting, rule).Ok? &&
        Completes(WriteBlockSectionsFrom(StartPass(nbt, pending, PrepareBlocks(nbt, pos, lighting, rule).value),
                                         PrepareBlocks(nbt, pos, lighting, rule).value.sections, lighting, rule))
  {
    PrepareBlocksOutcome(nbt, pos, lighting, rule);
  }

  /** A chunk write is its checks' outcome, then its loop's outcome assembled into the chunk. */
  lemma ChunkBlocksParts(nbt: Compound, pos: (int, int), pending: map<i8, seq<BlockWithCoordinate>>, lighting: bool,
                         rule: EntityMatch)
    ensures PrepareBlocks(nbt, pos, lighting, rule).Err? ==>
              WriteChunkBlocks(nbt, pos, pending, lighting, rule) == Done(Err(PrepareBlocks(nbt, pos, lighting, rule).error))
    ensures PrepareBlocks(nbt, pos, lighting, rule).Ok? ==>
      var pr := PrepareBlocks(nbt, pos, lighting, rule).value;
      var q := WriteBlockSectionsFrom(BlockPass([], pending, Zeros(BLOCK_DATA_LEN), pr.cache, EntitiesOf(nbt)), pr.sections, lighting, rule);
      pr.sections == SectionsOf(nbt) &&
      (q.Done? && q.value.Err? ==> WriteChunkBlocks(nbt, pos, pending, lighting, rule) == Done(Err(q.value.error))) &&
      (q.Done? && q.value.Ok? ==>
         WriteChunkBlocks(nbt, pos, pending, lighting, rule) == Done(Ok(ChunkOut(Assemble(nbt, lighting, q.value.value), q.value.value.pending))))
  {
  }

  /**
   * `ChunkData::write_blocks` on the chunk's NBT and pending blocks: the
   * checks and the section loop; whatever the outcome, it only removes
   * pending entries.
   */
  method WriteChunkBlocksChecked(nbt: Compound, pos: (int, int), pending: map<i8, seq<BlockWithCoordinate>>, lighting: bool,
                                 rule: EntityMatch) returns (r: Result<ChunkOut<BlockWithCoordinate>>, left: map<i8, seq<BlockWithCoordinate>>)
    requires BlocksInSections(pending) && LongDataSections(nbt)
    ensures WriteChunkBlocks(nbt, pos, pending, lighting, rule) == Done(r)
    ensures r.Ok? ==> left == r.value.pending
    ensures left.Keys <= pending.Keys && forall y :: y in left ==> left[y] == pending[y]
  {
    ChunkBlocksParts(nbt, pos, pending, lighting, rule);
    left := pending;
    var prepared := PrepareBlocksChecked(nbt, pos, lighting, rule);
    if prepared.Err? {
      return Err(prepared.error), left;
    }
    var q;
    q, left := WriteBlockSectionsLoop(pending, prepared.value.cache, EntitiesOf(nbt), prepared.value.sections, lighting, rule);
    if q.Err? {
      return Err(q.error), left;
    }
    r := Ok(ChunkOut(Assemble(nbt, lighting, q.value), q.value.pending));
  }

  /** The checks of `write_blocks` before the section loop, with the cache built by its loop. */
  method PrepareBlocksChecked(nbt: Compound, pos: (int, int), lighting: bool, rule: EntityMatch) returns (r: Result<Prepared>)
    ensures r == PrepareBlocks(nbt, pos, lighting, rule)
  {
    var valid := IsValidChunk(nbt, pos);
    if valid.Err? {
      return Err(valid.error);
    }
    if lighting && ByteTag(nbt, "isLightOn").None? {
      return Err(MissingNbtTag("isLightOn"));
    }
    var list := ListTag(nbt, "sections");
    if list.None? {
      return Err(MissingNbtTag("sections"));
    }
    if !list.value.CompoundList? {
      return Err(InvalidNbtList("sections"));
    }
    var bes := ListTag(nbt, "block_entities");
    if bes.None? {
      return Err(MissingNbtTag("block_entities"));
    }
    if !(bes.value.CompoundList? || bes.value.EmptyList?) {
      return Err(InvalidNbtList("block_entities"));
    }
    var cache := BuildEntityCache(EntitiesOf(nbt), rule);
    if cache.Err? {
      return Err(cache.error);
    }
    return Ok(Prepared(list.value.compounds, cache.value));
  }

  /** The loop's final state of a successful chunk write. */
  function FinalPass(nbt: Compound, pos: (int, int), pending: map<i8, seq<BlockWithCoordinate>>, lighting: bool,
                     rule: EntityMatch): (q: BlockPass)
    requires ChunkSucceeds(WriteChunkBlocks(nbt, pos, pending, lighting, rule))
  {
    var pr := PrepareBlocks(nbt, pos, lighting, rule).value;
    WriteBlockSectionsFrom(StartPass(nbt, pending, pr), pr.sections, lighting, rule).value.value
  }

  /** A successful chunk write is the loop's final state assembled into the chunk. */
  lemma ChunkBlocksOutcome(nbt: Compound, pos: (int, int), pending: map<i8, seq<BlockWithCoordinate>>, lighting: bool,
                           rule: EntityMatch)
    requires ChunkSucceeds(WriteChunkBlocks(nbt, pos, pending, lighting, rule))
    ensures PrepareBlocks(nbt, pos, lighting, rule).Ok?
    ensures PrepareBlocks(nbt, pos, lighting, rule).value.sections == SectionsOf(nbt)
    ensures var q := FinalPass(nbt, pos, pending, lighting, rule);
      var out := WriteChunkBlocks(nbt, pos, pending, lighting, rule).value.value;
      out.nbt == Assemble(nbt, lighting, q) && out.pending == q.pending
  {
  }

  /** Where the assembled chunk keeps the loop's sections and entities. */
  lemma AssembleParts(nbt: Compound, lighting: bool, q: BlockPass)
    ensures SectionsListed(Assemble(nbt, lighting, q)) && SectionsOf(Assemble(nbt, lighting, q)) == q.sections
    ensures ListTag(nbt, "block_entities").Some? && ListTag(nbt, "block_entities").value.CompoundList? ==>
              EntitiesOf(Assemble(nbt, lighting, q)) == q.entities
  {
  }

  /** The sections list of a chunk whose list is a compound list. */
  function SectionsOf(nbt: Compound): seq<Compound>
  {
    if SectionsListed(nbt) then ListTag(nbt, "sections").value.compounds else []
  }

  /** A successful write leaves pending exactly the entries whose Y no section of the chunk has. */
  lemma ChunkBlocksPending(nbt: Compound, pos: (int, int), pending: map<i8, seq<BlockWithCoordinate>>, lighting: bool,
                           rule: EntityMatch)
    requires ChunkSucceeds(WriteChunkBlocks(nbt, pos, pending, lighting, rule))
    ensures WriteChunkBlocks(nbt, pos, pending, lighting, rule).value.value.pending == pending - SectionYs(SectionsOf(nbt))
  {
    ChunkBlocksOutcome(nbt, pos, pending, lighting, rule);
    var pr := PrepareBlocks(nbt, pos, lighting, rule).value;
    BlockSectionsPending(StartPass(nbt, pending, pr), pr.sections, lighting, rule);
  }

  /**
   * A successful write empties the heightmaps, zeroes "isLightOn" when
   * lighting is updated, replaces the sections list by one of the same
   * length, and keeps every other tag.
   */
  lemma ChunkBlocksTags(nbt: Compound, pos: (int, int), pending: map<i8, seq<BlockWithCoordinate>>, lighting: bool,
                        rule: EntityMatch)
    requires ChunkSucceeds(WriteChunkBlocks(nbt, pos, pending, lighting, rule))
    ensures var out := WriteChunkBlocks(nbt, pos, pending, lighting, rule).value.value.nbt;
      (CompoundTag(nbt, "Heightmaps").Some? ==> CompoundTag(out, "Heightmaps") == Some(map[])) &&
      (lighting ==> ByteTag(out, "isLightOn") == Some(0)) &&
      SectionsListed(out) && |SectionsOf(out)| == |SectionsOf(nbt)| &&
      (ListTag(nbt, "block_entities").value.EmptyList? ==> "block_entities" in out && out["block_entities"] == nbt["block_entities"]) &&
      (forall k :: k != "Heightmaps" && k != "isLightOn" && k != "sections" && k != "block_entities" ==>
         (k in out <==> k in nbt) && (k in out ==> out[k] == nbt[k]))
  {
    ChunkBlocksOutcome(nbt, pos, pending, lighting, rule);
    var pr := PrepareBlocks(nbt, pos, lighting, rule).value;
    BlockSectionsPrefix(StartPass(nbt, pending, pr), pr.sections, lighting, rule);
    AssembleParts(nbt, lighting, FinalPass(nbt, pos, pending, lighting, rule));
    AssembleTags(nbt, lighting, FinalPass(nbt, pos, pending, lighting, rule));
  }

  /**
   * A section of the chunk whose Y has a pending entry, and which is the
   * first section with that Y, comes out reading back the entry's blocks.
   */
  lemma ChunkBlocksSectionReadsBack(nbt: Compound, pos: (int, int), pending: map<i8, seq<BlockWithCoordinate>>, lighting: bool,
                                    rule: EntityMatch, i: int, s: int)
    requires ChunkSucceeds(WriteChunkBlocks(nbt, pos, pending, lighting, rule))
    requires 0 <= i < |SectionsOf(nbt)| && 0 <= s < BLOCK_DATA_LEN
    requires var section := SectionsOf(nbt)[i];
      ByteTag(section, "Y").Some? && ByteTag(section, "Y").value in pending &&
      ByteTag(section, "Y").value !in SectionYs(SectionsOf(nbt)[..i]) &&
      FullSection(section) && AllWellNamed(pending[ByteTag(section, "Y").value])
    ensures var out := SectionsOf(WriteChunkBlocks(nbt, pos, pending, lighting, rule).value.value.nbt);
      var section := SectionsOf(nbt)[i];
      i < |out| && SectionReadsBack(section, pending[ByteTag(section, "Y").value], out[i], s)
  {
    ChunkBlocksOutcome(nbt, pos, pending, lighting, rule);
    AssembleParts(nbt, lighting, FinalPass(nbt, pos, pending, lighting, rule));
    var pr := PrepareBlocks(nbt, pos, lighting, rule).value;
    BlockSectionsReadBack(StartPass(nbt, pending, pr), pr.sections, lighting, rule, i, i, s);
  }

  /** A section whose Y has no pending entry, or repeats an earlier section's Y, comes out unchanged. */
  lemma ChunkBlocksSectionUnchanged(nbt: Compound, pos: (int, int), pending: map<i8, seq<BlockWithCoordinate>>, lighting: bool,
                                    rule: EntityMatch, i: int)
    requires ChunkSucceeds(WriteChunkBlocks(nbt, pos, pending, lighting, rule))
    requires 0 <= i < |SectionsOf(nbt)|
    requires var section := SectionsOf(nbt)[i];
      ByteTag(section, "Y").Some? &&
      (ByteTag(section, "Y").value !in pending || ByteTag(section, "Y").value in SectionYs(SectionsOf(nbt)[..i]))
    ensures var out := SectionsOf(WriteChunkBlocks(nbt, pos, pending, lighting, rule).value.value.nbt);
      i < |out| && out[i] == SectionsOf(nbt)[i]
  {
    ChunkBlocksOutcome(nbt, pos, pending, lighting, rule);
    AssembleParts(nbt, lighting, FinalPass(nbt, pos, pending, lighting, rule));
    var pr := PrepareBlocks(nbt, pos, lighting, rule).value;
    BlockSectionsUnchanged(StartPass(nbt, pending, pr), pr.sections, lighting, rule, i, i);
  }

  /** In the fresh cache a chunk entity is marked after the pending loop exactly when a pending block lands on its key. */
  lemma CacheMarks(entities: seq<Compound>, pen: seq<BlockWithCoordinate>, rule: EntityMatch, be: Compound)
    requires EntityCache(entities, rule).Ok? && be in entities
    ensures HasPosition(be)
    ensures Marked(be, MarkAll(EntityCache(entities, rule).value, pen, rule), rule) <==>
            PendingHits(pen, EntityKeyOf(be, rule).value, rule)
  {
    EntityCacheContents(entities, map[], rule);
    var i :| 0 <= i < |entities| && entities[i] == be;
    var k := EntityKeyOf(be, rule).value;
    assert KeyOccurs(entities, k, rule);
    MarkAllMarks(EntityCache(entities, rule).value, pen, rule, k);
  }

  /** The fresh cache marks nothing. */
  lemma CacheUnmarked(entities: seq<Compound>, rule: EntityMatch)
    requires EntityCache(entities, rule).Ok?
    ensures NoneMarked(entities, EntityCache(entities, rule).value, rule)
  {
    EntityCacheContents(entities, map[], rule);
    forall be | be in entities ensures !Marked(be, EntityCache(entities, rule).value, rule) {
      var i :| 0 <= i < |entities| && entities[i] == be;
      assert KeyOccurs(entities, EntityKeyOf(be, rule).value, rule);
    }
  }

  /** The chunk's block entities after a successful write. */
  function EntitiesAfter(nbt: Compound, pos: (int, int), pending: map<i8, seq<BlockWithCoordinate>>, lighting: bool,
                         rule: EntityMatch): seq<Compound>
    requires ChunkSucceeds(WriteChunkBlocks(nbt, pos, pending, lighting, rule))
  {
    EntitiesOf(WriteChunkBlocks(nbt, pos, pending, lighting, rule).value.value.nbt)
  }

  /**
   * Block entities under `write_blocks` as written: an entity survives
   * exactly when no pending block of the first written section lands on its
   * x, z and `y & 15`, whichever section the entity is in.
   */
  lemma ChunkBlocksEntitiesAsWritten(nbt: Compound, pos: (int, int), pending: map<i8, seq<BlockWithCoordinate>>, lighting: bool)
    requires ChunkSucceeds(WriteChunkBlocks(nbt, pos, pending, lighting, SectionLocal))
    ensures forall be :: be in EntitiesAfter(nbt, pos, pending, lighting, SectionLocal) <==>
      be in EntitiesOf(nbt) && HasPosition(be) &&
      !PendingHits(FirstProcessed(pending, SectionsOf(nbt)), EntityKeyOf(be, SectionLocal).value, SectionLocal)
  {
    ChunkBlocksOutcome(nbt, pos, pending, lighting, SectionLocal);
    AssembleParts(nbt, lighting, FinalPass(nbt, pos, pending, lighting, SectionLocal));
    var pr := PrepareBlocks(nbt, pos, lighting, SectionLocal).value;
    var p := StartPass(nbt, pending, pr);
    var es := EntitiesOf(nbt);
    var marks := MarkAll(pr.cache, FirstProcessed(pending, pr.sections), SectionLocal);
    CacheUnmarked(es, SectionLocal);
    BlockSectionsEntities(p, pr.sections, lighting);
    RetainedFilter(es, marks, SectionLocal);
    forall be | be in es {
      CacheMarks(es, FirstProcessed(pending, pr.sections), SectionLocal, be);
    }
  }

  /**
   * Block entities with the cache kept for the whole chunk and matched on the
   * full Y: an entity survives exactly when no pending block of any written
   * section lands on its position.
   */
  lemma ChunkBlocksEntities(nbt: Compound, pos: (int, int), pending: map<i8, seq<BlockWithCoordinate>>, lighting: bool)
    requires ChunkSucceeds(WriteChunkBlocks(nbt, pos, pending, lighting, Exact))
    ensures forall be :: be in EntitiesAfter(nbt, pos, pending, lighting, Exact) <==>
      be in EntitiesOf(nbt) && HasPosition(be) && !PendingHits(ProcessedBlocks(pending, SectionsOf(nbt)), EntityKeyOf(be, Exact).value, Exact)
  {
    ChunkBlocksOutcome(nbt, pos, pending, lighting, Exact);
    AssembleParts(nbt, lighting, FinalPass(nbt, pos, pending, lighting, Exact));
    var pr := PrepareBlocks(nbt, pos, lighting, Exact).value;
    var p := StartPass(nbt, pending, pr);
    var es := EntitiesOf(nbt);
    var marks := MarkAll(pr.cache, ProcessedBlocks(pending, pr.sections), Exact);
    CacheUnmarked(es, Exact);
    BlockSectionsEntitiesExact(p, pr.sections, lighting);
    RetainedFilter(es, marks, Exact);
    forall be | be in es {
      CacheMarks(es, ProcessedBlocks(pending, pr.sections), Exact, be);
    }
  }

  /**
   * Two chunks where `write_blocks` as written and the exact whole-chunk
   * cache disagree. In the first, an entity at (1, 17, 1) is overwritten by
   * the pending block of the second written section, after the cache was
   * emptied, so it survives as written. In the second, an entity at
   * (1, 1, 1) of section 0 shares x, z and `y & 15` with the pending block at
   * (1, 17, 1) of section 1, so as written it is removed though nothing was
   * placed on it.
   */
  lemma EntityCacheDiscrepancies()
    ensures var sections: seq<Compound> := [map["Y" := TByte(0)], map["Y" := TByte(1)]];
      var block := Block(Id("stone"), None);
      var lower := BlockWithCoordinate(Coords(0, 0, 0), block);
      var upper := BlockWithCoordinate(Coords(1, 17, 1), block);
      var both: map<i8, seq<BlockWithCoordinate>> := map[0 := [lower], 1 := [upper]];
      var onlyUpper: map<i8, seq<BlockWithCoordinate>> := map[1 := [upper]];
      var above: Compound := map["x" := TInt(1), "y" := TInt(17), "z" := TInt(1)];
      var below: Compound := map["x" := TInt(1), "y" := TInt(1), "z" := TInt(1)];
      !PendingHits(FirstProcessed(both, sections), EntityKeyOf(above, SectionLocal).value, SectionLocal) &&
      PendingHits(ProcessedBlocks(both, sections), EntityKeyOf(above, Exact).value, Exact) &&
      PendingHits(FirstProcessed(onlyUpper, sections), EntityKeyOf(below, SectionLocal).value, SectionLocal) &&
      !PendingHits(ProcessedBlocks(onlyUpper, sections), EntityKeyOf(below, Exact).value, Exact)
  {
    var sections: seq<Compound> := [map["Y" := TByte(0)], map["Y" := TByte(1)]];
    var block := Block(Id("stone"), None);
    var lower := BlockWithCoordinate(Coords(0, 0, 0), block);
    var upper := BlockWithCoordinate(Coords(1, 17, 1), block);
    var both: map<i8, seq<BlockWithCoordinate>> := map[0 := [lower], 1 := [upper]];
    var onlyUpper: map<i8, seq<BlockWithCoordinate>> := map[1 := [upper]];
    assert ByteTag(sections[0], "Y") == Some(0) && ByteTag(sections[1], "Y") == Some(1);
    assert sections[1..][1..] == [];
    assert FirstProcessed(both, sections) == [lower];
    assert (both - {0})[1] == [upper];
    assert ProcessedBlocks(both, sections) == [lower] + ProcessedBlocks(both - {0}, sections[1..]);
    assert ProcessedBlocks(both - {0}, sections[1..]) == [upper] + ProcessedBlocks(both - {0} - {1}, []);
    var pb := ProcessedBlocks(both, sections);
    assert pb[1] == upper;
    assert FirstProcessed(onlyUpper, sections) == FirstProcessed(onlyUpper, sections[1..]) == [upper];
    assert ProcessedBlocks(onlyUpper, sections) == ProcessedBlocks(onlyUpper, sections[1..]) == [upper];
  }

  // ---- the section loop of write_biomes ----

  /** The biome section-loop state: the sections written so far, what is still pending, and the reused array. */
  datatype BiomePass = BiomePass(sections: seq<Compound>, pending: map<i8, seq<BiomeCellWithId>>, stale: seq<int>)

  /** A biome loop run that neither panics nor fails. */
  predicate BiomesComplete(c: Checked<Result<BiomePass>>)
  {
    c.Done? && c.value.Ok?
  }

  /**
   * One visit of the section loop of `write_biomes`: a section without a
   * "Y" byte fails, one whose Y has no pending entry is kept as it is, and
   * otherwise the entry is removed and the section's biomes written.
   */
  function BiomeStep(p: BiomePass, section: Compound): (r: Checked<Result<BiomePass>>)
    requires |p.stale| == BIOME_DATA_LEN
    ensures BiomesComplete(r) ==>
      ByteTag(section, "Y").Some? &&
      var y := ByteTag(section, "Y").value;
      var q := r.value.value;
      |q.stale| == BIOME_DATA_LEN && q.pending == p.pending - {y} &&
      |q.sections| == |p.sections| + 1 && q.sections[..|p.sections|] == p.sections &&
      (y !in p.pending ==> q.sections[|p.sections|] == section) &&
      (y in p.pending ==>
         var w := WriteBiomeSection(section, p.pending[y], p.stale);
         Succeeds(w) && q.sections[|p.sections|] == w.value.value.compound)
  {
    match ByteTag(section, "Y")
    case None => Done(Err(MissingNbtTag("Y")))
    case Some(y) =>
      if y !in p.pending then Done(Ok(p.(sections := p.sections + [section])))
      else
        match WriteBiomeSection(section, p.pending[y], p.stale)
        case Panics => Panics
        case Done(Err(e)) => Done(Err(e))
        case Done(Ok(w)) => Done(Ok(BiomePass(p.sections + [w.compound], p.pending - {y}, w.indexes)))
  }

  /** The section loop of `write_biomes` over the sections still to visit. */
  function WriteBiomeSectionsFrom(p: BiomePass, rest: seq<Compound>): (r: Checked<Result<BiomePass>>)
    requires |p.stale| == BIOME_DATA_LEN
    ensures BiomesComplete(r) ==> |r.value.value.stale| == BIOME_DATA_LEN
    decreases |rest|
  {
    if rest == [] then Done(Ok(p))
    else
      match BiomeStep(p, rest[0])
      case Panics => Panics
      case Done(Err(e)) => Done(Err(e))
      case Done(Ok(next)) => WriteBiomeSectionsFrom(next, rest[1..])
  }

  /** A completed biome loop removes the pending entries of exactly the Ys the sections have. */
  lemma {:induction false} BiomeSectionsPending(p: BiomePass, rest: seq<Compound>)
    requires |p.stale| == BIOME_DATA_LEN && BiomesComplete(WriteBiomeSectionsFrom(p, rest))
    ensures WriteBiomeSectionsFrom(p, rest).value.value.pending == p.pending - SectionYs(rest)
    decreases |rest|
  {
    if rest != [] {
      var next := BiomeStep(p, rest[0]).value.value;
      var y := ByteTag(rest[0], "Y").value;
      assert next.pending == p.pending - {y};
      assert WriteBiomeSectionsFrom(p, rest) == WriteBiomeSectionsFrom(next, rest[1..]);
      BiomeSectionsPending(next, rest[1..]);
      assert SectionYs(rest) == {y} + SectionYs(rest[1..]);
      MinusTwice(p.pending, {y}, SectionYs(rest[1..]));
    }
  }

  /** A completed biome loop keeps the sections written so far and adds one per visited section. */
  lemma {:induction false} BiomeSectionsPrefix(p: BiomePass, rest: seq<Compound>)
    requires |p.stale| == BIOME_DATA_LEN && BiomesComplete(WriteBiomeSectionsFrom(p, rest))
    ensures var q := WriteBiomeSectionsFrom(p, rest).value.value;
      |q.sections| == |p.sections| + |rest| && q.sections[..|p.sections|] == p.sections
    decreases |rest|
  {
    if rest != [] {
      var next := BiomeStep(p, rest[0]).value.value;
      BiomeSectionsPrefix(next, rest[1..]);
      var q := WriteBiomeSectionsFrom(p, rest).value.value;
      assert q.sections[..|next.sections|][..|p.sections|] == q.sections[..|p.sections|];
    }
  }

  /** What reading a written section's biomes back shows: the last biome aimed at a cell, or the cell's old biome. */
  predicate BiomeSectionReadsBack(section: Compound, pending: seq<BiomeCellWithId>, out: Compound, s: int)
  {
    StoredSectionBiome(out, s).Some? &&
    (LastBiomeWrite(pending, s).Some? ==> StoredSectionBiome(out, s) == Some(pending[LastBiomeWrite(pending, s).value].id)) &&
    (LastBiomeWrite(pending, s).None? && StoredSectionBiome(section, s).Some? ==>
       StoredSectionBiome(out, s) == StoredSectionBiome(section, s))
  }

  /** The first section with a given Y whose pending biomes are still there reads them back. */
  lemma {:induction false} BiomeSectionsReadBack(p: BiomePass, rest: seq<Compound>, i: int, k: int, s: int)
    requires |p.stale| == BIOME_DATA_LEN && BiomesComplete(WriteBiomeSectionsFrom(p, rest))
    requires 0 <= i < |rest| && k == |p.sections| + i && 0 <= s < BIOME_DATA_LEN
    requires ByteTag(rest[i], "Y").Some? && ByteTag(rest[i], "Y").value in p.pending
    requires ByteTag(rest[i], "Y").value !in SectionYs(rest[..i])
    requires FullBiomeSection(rest[i])
    ensures var q := WriteBiomeSectionsFrom(p, rest).value.value;
      k < |q.sections| && BiomeSectionReadsBack(rest[i], p.pending[ByteTag(rest[i], "Y").value], q.sections[k], s)
    decreases |rest|
  {
    var y := ByteTag(rest[i], "Y").value;
    BiomeSectionsPrefix(p, rest);
    var next := BiomeStep(p, rest[0]).value.value;
    var q := WriteBiomeSectionsFrom(p, rest).value.value;
    assert q == WriteBiomeSectionsFrom(next, rest[1..]).value.value;
    BiomeSectionsPrefix(next, rest[1..]);
    if i == 0 {
      assert q.sections[..|next.sections|][k] == q.sections[k];
      WriteBiomeSectionReadsBack(rest[0], p.pending[y], p.stale, s);
    } else {
      SectionYsSplit(rest, i);
      assert rest[1..][i - 1] == rest[i];
      assert next.pending[y] == p.pending[y];
      BiomeSectionsReadBack(next, rest[1..], i - 1, k, s);
    }
  }

  /** A section whose Y has no pending biomes left when the loop reaches it comes out unchanged. */
  lemma {:induction false} BiomeSectionsUnchanged(p: BiomePass, rest: seq<Compound>, i: int, k: int)
    requires |p.stale| == BIOME_DATA_LEN && BiomesComplete(WriteBiomeSectionsFrom(p, rest))
    requires 0 <= i < |rest| && k == |p.sections| + i && ByteTag(rest[i], "Y").Some?
    requires ByteTag(rest[i], "Y").value !in p.pending || ByteTag(rest[i], "Y").value in SectionYs(rest[..i])
    ensures var q := WriteBiomeSectionsFrom(p, rest).value.value;
      k < |q.sections| && q.sections[k] == rest[i]
    decreases |rest|
  {
    BiomeSectionsPrefix(p, rest);
    var next := BiomeStep(p, rest[0]).value.value;
    var q := WriteBiomeSectionsFrom(p, rest).value.value;
    assert q == WriteBiomeSectionsFrom(next, rest[1..]).value.value;
    BiomeSectionsPrefix(next, rest[1..]);
    if i == 0 {
      assert rest[..0] == [];
      assert q.sections[..|next.sections|][k] == q.sections[k];
    } else {
      SectionYsSplit(rest, i);
      assert rest[1..][i - 1] == rest[i];
      BiomeSectionsUnchanged(next, rest[1..], i - 1, k);
    }
  }

  // ---- write_biomes over the chunk ----

  /**
   * `ChunkData::write_biomes` on the chunk's NBT and its pending biomes: the
   * chunk must be valid and hold a compound list of sections; the loop's
   * sections replace the list and nothing else of the chunk changes.
   */
  function WriteChunkBiomes(nbt: Compound, pos: (int, int), pending: map<i8, seq<BiomeCellWithId>>): Checked<Result<ChunkOut<BiomeCellWithId>>>
  {
    match IsValidChunk(nbt, pos)
    case Err(e) => Done(Err(e))
    case Ok(_) =>
      match ListTag(nbt, "sections")
      case None => Done(Err(MissingNbtTag("sections")))
      case Some(list) =>
        if !list.CompoundList? then Done(Err(InvalidNbtList("sections")))
        else
          match WriteBiomeSectionsFrom(BiomePass([], pending, Zeros(BIOME_DATA_LEN)), list.compounds)
          case Panics => Panics
          case Done(Err(e)) => Done(Err(e))
          case Done(Ok(q)) => Done(Ok(ChunkOut(nbt["sections" := TList(CompoundList(q.sections))], q.pending)))
  }

  /** The checks of a biome write, and what a successful one leaves: the loop's sections, and every other tag as it was. */
  lemma ChunkBiomesOutcome(nbt: Compound, pos: (int, int), pending: map<i8, seq<BiomeCellWithId>>)
    ensures var r := WriteChunkBiomes(nbt, pos, pending);
      IsValidChunk(nbt, pos).Err? ==> r == Done(Err(IsValidChunk(nbt, pos).error))
    ensures var r := WriteChunkBiomes(nbt, pos, pending);
      IsValidChunk(nbt, pos).Ok? && ListTag(nbt, "sections").None? ==> r == Done(Err(MissingNbtTag("sections")))
    ensures var r := WriteChunkBiomes(nbt, pos, pending);
      IsValidChunk(nbt, pos).Ok? && ListTag(nbt, "sections").Some? && !SectionsListed(nbt) ==>
                r == Done(Err(InvalidNbtList("sections")))
    ensures var r := WriteChunkBiomes(nbt, pos, pending);
      ChunkSucceeds(r) ==>
        IsValidChunk(nbt, pos).Ok? && SectionsListed(nbt) &&
        var q := WriteBiomeSectionsFrom(BiomePass([], pending, Zeros(BIOME_DATA_LEN)), SectionsOf(nbt));
        BiomesComplete(q) && r.value.value.pending == q.value.value.pending &&
        ListTag(r.value.value.nbt, "sections") == Some(CompoundList(q.value.value.sections)) &&
        forall k :: k != "sections" ==> (k in r.value.value.nbt <==> k in nbt) && (k in nbt ==> r.value.value.nbt[k] == nbt[k])
  {
  }

  /** The loop's final state of a successful chunk biome write. */
  function FinalBiomePass(nbt: Compound, pos: (int, int), pending: map<i8, seq<BiomeCellWithId>>): BiomePass
    requires ChunkSucceeds(WriteChunkBiomes(nbt, pos, pending))
  {
    WriteBiomeSectionsFrom(BiomePass([], pending, Zeros(BIOME_DATA_LEN)), SectionsOf(nbt)).value.value
  }

  /** A successful biome write is its loop's final state put into the chunk. */
  lemma ChunkBiomesFinal(nbt: Compound, pos: (int, int), pending: map<i8, seq<BiomeCellWithId>>)
    requires ChunkSucceeds(WriteChunkBiomes(nbt, pos, pending))
    ensures SectionsListed(nbt)
    ensures BiomesComplete(WriteBiomeSectionsFrom(BiomePass([], pending, Zeros(BIOME_DATA_LEN)), SectionsOf(nbt)))
    ensures var out := WriteChunkBiomes(nbt, pos, pending).value.value;
      SectionsListed(out.nbt) && SectionsOf(out.nbt) == FinalBiomePass(nbt, pos, pending).sections &&
      out.pending == FinalBiomePass(nbt, pos, pending).pending
  {
  }

  /** A successful biome write leaves pending exactly the entries whose Y no section has, and keeps the section count. */
  lemma ChunkBiomesPending(nbt: Compound, pos: (int, int), pending: map<i8, seq<BiomeCellWithId>>)
    requires ChunkSucceeds(WriteChunkBiomes(nbt, pos, pending))
    ensures var out := WriteChunkBiomes(nbt, pos, pending).value.value;
      out.pending == pending - SectionYs(SectionsOf(nbt)) &&
      SectionsListed(out.nbt) && |SectionsOf(out.nbt)| == |SectionsOf(nbt)|
  {
    var p := BiomePass([], pending, Zeros(BIOME_DATA_LEN));
    ChunkBiomesFinal(nbt, pos, pending);
    BiomeSectionsPending(p, SectionsOf(nbt));
    BiomeSectionsPrefix(p, SectionsOf(nbt));
  }

  /** The first section with a pending Y reads back its pending biomes after a successful chunk biome write. */
  lemma ChunkBiomesSectionReadsBack(nbt: Compound, pos: (int, int), pending: map<i8, seq<BiomeCellWithId>>, i: int, s: int)
    requires ChunkSucceeds(WriteChunkBiomes(nbt, pos, pending))
    requires 0 <= i < |SectionsOf(nbt)| && 0 <= s < BIOME_DATA_LEN
    requires var section := SectionsOf(nbt)[i];
      ByteTag(section, "Y").Some? && ByteTag(section, "Y").value in pending &&
      ByteTag(section, "Y").value !in SectionYs(SectionsOf(nbt)[..i]) && FullBiomeSection(section)
    ensures var out := SectionsOf(WriteChunkBiomes(nbt, pos, pending).value.value.nbt);
      var section := SectionsOf(nbt)[i];
      i < |out| && BiomeSectionReadsBack(section, pending[ByteTag(section, "Y").value], out[i], s)
  {
    ChunkBiomesFinal(nbt, pos, pending);
    BiomeSectionsReadBack(BiomePass([], pending, Zeros(BIOME_DATA_LEN)), SectionsOf(nbt), i, i, s);
  }

  /** A section without pending biomes, or repeating an earlier section's Y, comes out unchanged. */
  lemma ChunkBiomesSectionUnchanged(nbt: Compound, pos: (int, int), pending: map<i8, seq<BiomeCellWithId>>, i: int)
    requires ChunkSucceeds(WriteChunkBiomes(nbt, pos, pending))
    requires 0 <= i < |SectionsOf(nbt)|
    requires var section := SectionsOf(nbt)[i];
      ByteTag(section, "Y").Some? &&
      (ByteTag(section, "Y").value !in pending || ByteTag(section, "Y").value in SectionYs(SectionsOf(nbt)[..i]))
    ensures var out := SectionsOf(WriteChunkBiomes(nbt, pos, pending).value.value.nbt);
      i < |out| && out[i] == SectionsOf(nbt)[i]
  {
    ChunkBiomesFinal(nbt, pos, pending);
    BiomeSectionsUnchanged(BiomePass([], pending, Zeros(BIOME_DATA_LEN)), SectionsOf(nbt), i, i);
  }

  // ---- the loops over block entities ----

  /** The cache loop of `write_blocks`, over the chunk's block entities. */
  method BuildEntityCache(entities: seq<Compound>, rule: EntityMatch) returns (r: Result<map<EntityKey, bool>>)
    ensures r == EntityCache(entities, rule)
  {
    var cache: map<EntityKey, bool> := map[];
    var i := 0;
    while i < |entities|
      invariant 0 <= i <= |entities|
      invariant EntityCacheFrom(entities[i..], cache, rule) == EntityCache(entities, rule)
    {
      assert entities[i..][1..] == entities[i + 1..];
      var key := EntityKeyOf(entities[i], rule);
      if key.Err? {
        return Err(key.error);
      }
      cache := cache[key.value := false];
      i := i + 1;
    }
    assert entities[i..] == [];
    return Ok(cache);
  }

  /** `block_entities.retain(..)`: keeps, in order, the entities the marks do not delete. */
  method RetainEntities(entities: seq<Compound>, marks: map<EntityKey, bool>, rule: EntityMatch) returns (kept: seq<Compound>)
    ensures kept == Retained(entities, marks, rule)
  {
    kept := [];
    var i := 0;
    while i < |entities|
      invariant 0 <= i <= |entities|
      invariant kept == Retained(entities[..i], marks, rule)
    {
      assert entities[..i + 1][..i] == entities[..i];
      var be := entities[i];
      var key := EntityKeyOf(be, rule);
      if !(key.Ok? && key.value in marks && marks[key.value]) {
        kept := kept + [be];
      }
      i := i + 1;
    }
    assert entities[..i] == entities;
  }

  // ---- the section loops over the reused arrays ----

  /** Every pending block lies in its section's 16 * 16 * 16 slots, as `set_block` queues them. */
  predicate BlocksInSections(pending: map<i8, seq<BlockWithCoordinate>>)
  {
    forall y :: y in pending ==> InSection(pending[y])
  }

  /** Every pending biome cell lies in its section's 4 * 4 * 4 cells. */
  predicate BiomesInSections(pending: map<i8, seq<BiomeCellWithId>>)
  {
    forall y :: y in pending ==> BiomesInSection(pending[y])
  }

  /** Every section's block states are full (see `FullSection`). */
  predicate FullSections(nbt: Compound)
  {
    forall i :: 0 <= i < |SectionsOf(nbt)| ==> FullSection(SectionsOf(nbt)[i])
  }

  /** Every section's block states have a long-array data tag or none (see `LongData`). */
  predicate LongDataSections(nbt: Compound)
  {
    forall i :: 0 <= i < |SectionsOf(nbt)| ==> LongDataSection(SectionsOf(nbt)[i])
  }

  /** Every section's biome states are full. */
  predicate FullBiomeSections(nbt: Compound)
  {
    forall i :: 0 <= i < |SectionsOf(nbt)| ==> FullBiomeSection(SectionsOf(nbt)[i])
  }

  /** One visit of the loop, in terms of the visited section's step. */
  lemma LoopStep(p: BlockPass, rest: seq<Compound>, lighting: bool, rule: EntityMatch)
    requires |p.stale| == BLOCK_DATA_LEN && rest != []
    ensures BlockStep(p, rest[0], lighting, rule).Done? && BlockStep(p, rest[0], lighting, rule).value.Err? ==>
              WriteBlockSectionsFrom(p, rest, lighting, rule) == BlockStep(p, rest[0], lighting, rule)
    ensures Completes(BlockStep(p, rest[0], lighting, rule)) ==>
              WriteBlockSectionsFrom(p, rest, lighting, rule) ==
              WriteBlockSectionsFrom(BlockStep(p, rest[0], lighting, rule).value.value, rest[1..], lighting, rule)
  {
  }

  /**
   * One visit of the section loop of `write_blocks` over the reused array:
   * the step's outcome, with the array holding the written indexes; the
   * pending entries left over are never more than before.
   */
  method VisitBlockSection(p: BlockPass, section: Compound, a: array<int>, lighting: bool, rule: EntityMatch)
    returns (r: Result<BlockPass>, left: map<i8, seq<BlockWithCoordinate>>)
    requires a.Length == BLOCK_DATA_LEN && a[..] == p.stale && BlocksInSections(p.pending) && LongDataSection(section)
    modifies a
    ensures BlockStep(p, section, lighting, rule) == Done(r)
    ensures r.Ok? ==> r.value.stale == a[..] && left == r.value.pending
    ensures left.Keys <= p.pending.Keys && forall y :: y in left ==> left[y] == p.pending[y]
  {
    left := p.pending;
    var y := ByteTag(section, "Y");
    if y.None? {
      return Err(MissingNbtTag("Y")), left;
    }
    if y.value !in left {
      return Ok(p.(sections := p.sections + [section])), left;
    }
    var blocks := left[y.value];
    left := left - {y.value};
    var w, marks := WriteSectionBlocks(section, blocks, a, lighting, p.marks, rule);
    if w.Err? {
      return Err(w.error), left;
    }
    var kept := RetainEntities(p.entities, marks, rule);
    r := Ok(BlockPass(p.sections + [w.value], left, a[..], if rule == SectionLocal then map[] else marks, kept));
  }

  /**
   * The section loop of `write_blocks` over one array reused by every
   * section: it computes the loop's specification, and on any outcome it
   * has only removed pending entries.
   */
  method WriteBlockSectionsLoop(pending: map<i8, seq<BlockWithCoordinate>>, cache: map<EntityKey, bool>, entities: seq<Compound>,
                               sections: seq<Compound>, lighting: bool, rule: EntityMatch)
    returns (r: Result<BlockPass>, left: map<i8, seq<BlockWithCoordinate>>)
    requires BlocksInSections(pending) && forall i :: 0 <= i < |sections| ==> LongDataSection(sections[i])
    ensures WriteBlockSectionsFrom(BlockPass([], pending, Zeros(BLOCK_DATA_LEN), cache, entities), sections, lighting, rule).Done?
    ensures r == WriteBlockSectionsFrom(BlockPass([], pending, Zeros(BLOCK_DATA_LEN), cache, entities), sections, lighting, rule).value
    ensures r.Ok? ==> left == r.value.pending
    ensures left.Keys <= pending.Keys && forall y :: y in left ==> left[y] == pending[y]
  {
    ghost var start := BlockPass([], pending, Zeros(BLOCK_DATA_LEN), cache, entities);
    var a := new int[BLOCK_DATA_LEN](_ => 0);
    assert a[..] == Zeros(BLOCK_DATA_LEN);
    left := pending;
    var p := BlockPass([], pending, a[..], cache, entities);
    var i := 0;
    while i < |sections|
      invariant 0 <= i <= |sections| && a.Length == BLOCK_DATA_LEN
      invariant a[..] == p.stale && left == p.pending && BlocksInSections(left)
      invariant left.Keys <= pending.Keys && forall y :: y in left ==> left[y] == pending[y]
      invariant WriteBlockSectionsFrom(p, sections[i..], lighting, rule) == WriteBlockSectionsFrom(start, sections, lighting, rule)
    {
      assert sections[i..][0] == sections[i] && sections[i..][1..] == sections[i + 1..];
      LoopStep(p, sections[i..], lighting, rule);
      var next;
      next, left := VisitBlockSection(p, sections[i], a, lighting, rule);
      if next.Err? {
        return Err(next.error), left;
      }
      p := next.value;
      i := i + 1;
    }
    assert sections[i..] == [];
    r := Ok(p);
  }

  /** One visit of the biome loop, in terms of the visited section's step; a loop that does not panic has a step that does not. */
  lemma BiomeLoopStep(p: BiomePass, rest: seq<Compound>)
    requires |p.stale| == BIOME_DATA_LEN && rest != []
    ensures WriteBiomeSectionsFrom(p, rest).Done? ==> BiomeStep(p, rest[0]).Done?
    ensures BiomeStep(p, rest[0]).Done? && BiomeStep(p, rest[0]).value.Err? ==>
              WriteBiomeSectionsFrom(p, rest) == BiomeStep(p, rest[0])
    ensures BiomesComplete(BiomeStep(p, rest[0])) ==>
              WriteBiomeSectionsFrom(p, rest) == WriteBiomeSectionsFrom(BiomeStep(p, rest[0]).value.value, rest[1..])
  {
  }

  /**
   * One visit of the section loop of `write_biomes` over the reused array,
   * for a step that does not panic: the step's outcome, with the array
   * holding the written indexes.
   */
  method VisitBiomeSection(p: BiomePass, section: Compound, a: array<int>)
    returns (r: Result<BiomePass>, left: map<i8, seq<BiomeCellWithId>>)
    requires a.Length == BIOME_DATA_LEN && a[..] == p.stale && BiomesInSections(p.pending)
    requires BiomeStep(p, section).Done?
    modifies a
    ensures BiomeStep(p, section) == Done(r)
    ensures r.Ok? ==> r.value.stale == a[..] && left == r.value.pending
    ensures left.Keys <= p.pending.Keys && forall y :: y in left ==> left[y] == p.pending[y]
  {
    left := p.pending;
    var y := ByteTag(section, "Y");
    if y.None? {
      return Err(MissingNbtTag("Y")), left;
    }
    if y.value !in left {
      return Ok(p.(sections := p.sections + [section])), left;
    }
    var biomes := left[y.value];
    left := left - {y.value};
    var w := WriteSectionBiomes(section, biomes, a);
    if w.Err? {
      return Err(w.error), left;
    }
    r := Ok(BiomePass(p.sections + [w.value], left, a[..]));
  }

  /**
   * The section loop of `write_biomes` over one array reused by every
   * section, for a loop that does not panic: it computes the loop's
   * specification, and on any outcome it has only removed pending entries.
   */
  method WriteBiomeSectionsLoop(pending: map<i8, seq<BiomeCellWithId>>, sections: seq<Compound>)
    returns (r: Result<BiomePass>, left: map<i8, seq<BiomeCellWithId>>)
    requires BiomesInSections(pending)
    requires WriteBiomeSectionsFrom(BiomePass([], pending, Zeros(BIOME_DATA_LEN)), sections).Done?
    ensures r == WriteBiomeSectionsFrom(BiomePass([], pending, Zeros(BIOME_DATA_LEN)), sections).value
    ensures r.Ok? ==> left == r.value.pending
    ensures left.Keys <= pending.Keys && forall y :: y in left ==> left[y] == pending[y]
  {
    ghost var start := BiomePass([], pending, Zeros(BIOME_DATA_LEN));
    var a := new int[BIOME_DATA_LEN](_ => 0);
    assert a[..] == Zeros(BIOME_DATA_LEN);
    left := pending;
    var p := BiomePass([], pending, a[..]);
    var i := 0;
    while i < |sections|
      invariant 0 <= i <= |sections| && a.Length == BIOME_DATA_LEN
      invariant a[..] == p.stale && left == p.pending && BiomesInSections(left)
      invariant left.Keys <= pending.Keys && forall y :: y in left ==> left[y] == pending[y]
      invariant WriteBiomeSectionsFrom(p, sections[i..]) == WriteBiomeSectionsFrom(start, sections)
    {
      assert sections[i..][0] == sections[i] && sections[i..][1..] == sections[i + 1..];
      BiomeLoopStep(p, sections[i..]);
      var next;
      next, left := VisitBiomeSection(p, sections[i], a);
      if next.Err? {
        return Err(next.error), left;
      }
      p := next.value;
      i := i + 1;
    }
    assert sections[i..] == [];
    r := Ok(p);
  }

  /**
   * `ChunkData::write_biomes` on the chunk's NBT and pending biomes, for a
   * write that does not panic: the checks and the section loop; whatever
   * the outcome, it only removes pending entries.
   */
  method WriteChunkBiomesChecked(nbt: Compound, pos: (int, int), pending: map<i8, seq<BiomeCellWithId>>)
    returns (r: Result<ChunkOut<BiomeCellWithId>>, left: map<i8, seq<BiomeCellWithId>>)
    requires BiomesInSections(pending)
    requires WriteChunkBiomes(nbt, pos, pending).Done?
    ensures WriteChunkBiomes(nbt, pos, pending) == Done(r)
    ensures r.Ok? ==> left == r.value.pending
    ensures left.Keys <= pending.Keys && forall y :: y in left ==> left[y] == pending[y]
  {
    left := pending;
    var valid := IsValidChunk(nbt, pos);
    if valid.Err? {
      return Err(valid.error), left;
    }
    var list := ListTag(nbt, "sections");
    if list.None? {
      return Err(MissingNbtTag("sections")), left;
    }
    if !list.value.CompoundList? {
      return Err(InvalidNbtList("sections")), left;
    }
    assert list.value.compounds == SectionsOf(nbt);
    var q;
    q, left := WriteBiomeSectionsLoop(pending, list.value.compounds);
    if q.Err? {
      return Err(q.error), left;
    }
    r := Ok(ChunkOut(nbt["sections" := TList(CompoundList(q.value.sections))], q.value.pending));
  }
}
