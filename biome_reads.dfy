/**
 * Reading biomes back from a region whose chunks are bare NBT compounds
 * (`Region::get_biomes` in biome.rs): cells are grouped by chunk slot and
 * section, each group's chunk is looked up and its sections are walked in
 * order; every section asked for has its biome indexes decoded into a fresh
 * 64-entry array and each cell reads its palette entry.
 */
module BiomeReads {
  import opened Ints
  import opened Errors
  import opened Nbt
  import opened RegionRules
  import opened PackedData
  import opened SectionWrite
  import opened BiomeCells
  import opened BiomeWrite
  import opened ChunkWrite
  import opened SectionFill
  import BlockReads

  // ---- grouping ----

  /** Per chunk slot, per section Y, the cells filed there. */
  type CellGroups = map<ChunkPos, map<i8, seq<BiomeCell>>>

  /** The list filed under `(k, y)`, empty when there is none. */
  function FiledCells(g: CellGroups, k: ChunkPos, y: i8): seq<BiomeCell>
  {
    if k in g && y in g[k] then g[k][y] else []
  }

  /** One cell pushed onto the list of its chunk and section, either created when missing. */
  function FileCell(g: CellGroups, c: BiomeCell): CellGroups
  {
    var sections: map<i8, seq<BiomeCell>> := if c.chunk in g then g[c.chunk] else map[];
    g[c.chunk := sections[c.section := FiledCells(g, c.chunk, c.section) + [c]]]
  }

  /** The nested maps `group_cells_into_chunks` fills: every cell filed in input order. */
  function GroupedCells(cs: seq<BiomeCell>): CellGroups
    decreases |cs|
  {
    if cs == [] then map[] else FileCell(GroupedCells(cs[..|cs| - 1]), cs[|cs| - 1])
  }

  /** The cells of `cs` whose chunk is `k` and whose section is `y`, in order. */
  function CellBucket(cs: seq<BiomeCell>, k: ChunkPos, y: i8): seq<BiomeCell>
    decreases |cs|
  {
    if cs == [] then []
    else
      var c := cs[|cs| - 1];
      CellBucket(cs[..|cs| - 1], k, y) + (if c.chunk == k && c.section == y then [c] else [])
  }

  /**
   * The groups hold exactly the buckets: the list filed under `(k, y)` is
   * the bucket, and the pair is present exactly when the bucket is not empty.
   */
  lemma {:induction false} GroupedCellsAreBuckets(cs: seq<BiomeCell>, k: ChunkPos, y: i8)
    ensures FiledCells(GroupedCells(cs), k, y) == CellBucket(cs, k, y)
    ensures (k in GroupedCells(cs) && y in GroupedCells(cs)[k]) <==> CellBucket(cs, k, y) != []
    decreases |cs|
  {
    if cs != [] {
      GroupedCellsAreBuckets(cs[..|cs| - 1], k, y);
    }
  }

  /** A chunk slot has a group exactly when some cell lies in it. */
  lemma {:induction false} GroupedCellSlots(cs: seq<BiomeCell>, k: ChunkPos)
    ensures k in GroupedCells(cs) <==> exists j :: 0 <= j < |cs| && cs[j].chunk == k
    decreases |cs|
  {
    if cs != [] {
      var init := cs[..|cs| - 1];
      GroupedCellSlots(init, k);
      if exists j :: 0 <= j < |init| && init[j].chunk == k {
        var j :| 0 <= j < |init| && init[j].chunk == k;
        assert cs[j] == init[j];
      }
      if exists j :: 0 <= j < |cs| && cs[j].chunk == k {
        var j :| 0 <= j < |cs| && cs[j].chunk == k;
        if j < |init| {
          assert init[j] == cs[j];
        }
      }
    }
  }

  /** Every cell lands in its own bucket as often as it occurs: none is lost, none duplicated. */
  lemma {:induction false} CellBucketCount(cs: seq<BiomeCell>, c: BiomeCell)
    ensures multiset(CellBucket(cs, c.chunk, c.section))[c] == multiset(cs)[c]
    decreases |cs|
  {
    if cs != [] {
      var init := cs[..|cs| - 1];
      CellBucketCount(init, c);
      assert cs == init + [cs[|cs| - 1]];
    }
  }

  /** Every cell of a list has chunk `k` and section `y`. */
  predicate CellsFiled(list: seq<BiomeCell>, k: ChunkPos, y: i8)
  {
    forall j :: 0 <= j < |list| ==> list[j].chunk == k && list[j].section == y
  }

  /** Only cells of chunk `k` and section `y` are in their bucket, and only cells of the input. */
  lemma {:induction false} CellBucketFiled(cs: seq<BiomeCell>, k: ChunkPos, y: i8)
    ensures CellsFiled(CellBucket(cs, k, y), k, y)
    ensures forall c :: c in CellBucket(cs, k, y) ==> c in cs
    decreases |cs|
  {
    if cs != [] {
      var init := cs[..|cs| - 1];
      CellBucketFiled(init, k, y);
      assert forall c :: c in init ==> c in cs;
    }
  }

  /** Every list of the groups holds only cells of its own chunk and section. */
  predicate CellGroupsFiled(g: CellGroups)
  {
    forall k, y :: k in g && y in g[k] ==> CellsFiled(g[k][y], k, y)
  }

  lemma GroupedCellsFiled(cs: seq<BiomeCell>)
    ensures CellGroupsFiled(GroupedCells(cs))
  {
    forall k, y | k in GroupedCells(cs) && y in GroupedCells(cs)[k]
      ensures CellsFiled(GroupedCells(cs)[k][y], k, y)
    {
      GroupedCellsAreBuckets(cs, k, y);
      CellBucketFiled(cs, k, y);
    }
  }

  /** `GetChunkGroup`: one chunk slot and its cells by section. */
  datatype ChunkGroup = ChunkGroup(coordinate: ChunkPos, sections: map<i8, seq<BiomeCell>>)

  /** The chunk slots of a list of groups, in order. */
  function Coordinates(groups: seq<ChunkGroup>): (r: seq<ChunkPos>)
    ensures |r| == |groups| && forall i :: 0 <= i < |groups| ==> r[i] == groups[i].coordinate
  {
    if groups == [] then [] else [groups[0].coordinate] + Coordinates(groups[1..])
  }

  /** The list holds every group of `g` once, in some order. */
  predicate Lists(groups: seq<ChunkGroup>, g: CellGroups)
  {
    BlockReads.Enumerates(Coordinates(groups), g.Keys) &&
    forall i :: 0 <= i < |groups| ==> groups[i].coordinate in g && groups[i].sections == g[groups[i].coordinate]
  }

  /**
   * `group_cells_into_chunks`: the cells filed one by one into nested maps,
   * which are then moved out into a list in the map's iteration order.
   */
  method GroupCellsIntoChunks(cs: seq<BiomeCell>) returns (groups: seq<ChunkGroup>)
    ensures Lists(groups, GroupedCells(cs))
  {
    var g := FileCells(cs);
    groups := ListGroups(g);
  }

  /** The filing loop: each cell pushed onto the list of its chunk and section. */
  method FileCells(cs: seq<BiomeCell>) returns (g: CellGroups)
    ensures g == GroupedCells(cs)
  {
    g := map[];
    for i := 0 to |cs|
      invariant g == GroupedCells(cs[..i])
    {
      assert cs[..i + 1][..i] == cs[..i];
      var c := cs[i];
      var sections: map<i8, seq<BiomeCell>> := if c.chunk in g then g[c.chunk] else map[];
      var list := if c.section in sections then sections[c.section] else [];
      g := g[c.chunk := sections[c.section := list + [c]]];
    }
    assert cs[..|cs|] == cs;
  }

  /** The groups moved out of the map one by one, in its iteration order. */
  method ListGroups(g: CellGroups) returns (groups: seq<ChunkGroup>)
    ensures Lists(groups, g)
  {
    groups := [];
    var todo := g.Keys;
    while todo != {}
      invariant BlockReads.Visiting(Coordinates(groups), todo, g.Keys)
      invariant forall i :: 0 <= i < |groups| ==> groups[i].coordinate in g && groups[i].sections == g[groups[i].coordinate]
      decreases todo
    {
      var k :| k in todo;
      BlockReads.VisitOne(Coordinates(groups), todo, g.Keys, k);
      assert Coordinates(groups + [ChunkGroup(k, g[k])]) == Coordinates(groups) + [k];
      groups := groups + [ChunkGroup(k, g[k])];
      todo := todo - {k};
    }
  }

  // ---- reading ----

  /** `index as usize` of a cell: x + 4z + 16y in `u8` arithmetic, which wraps. */
  function CellIndex(c: BiomeCell): (s: u8)
    ensures InRange(c) ==> s == BiomeSlot(c) && s < BIOME_DATA_LEN
  {
    TruncU8(BiomeSlot(c))
  }

  /** Found cells put in front of what the rest of a read finds; an error wins. */
  function Then(found: seq<BiomeCellWithId>, rest: Result<seq<BiomeCellWithId>>): Result<seq<BiomeCellWithId>>
  {
    match rest
    case Err(e) => Err(e)
    case Ok(more) => Ok(found + more)
  }

  lemma ThenNothing(rest: Result<seq<BiomeCellWithId>>)
    ensures Then([], rest) == rest
  {
    if rest.Ok? {
      assert [] + rest.value == rest.value;
    }
  }

  lemma ThenThen(a: seq<BiomeCellWithId>, b: seq<BiomeCellWithId>, rest: Result<seq<BiomeCellWithId>>)
    ensures Then(a, Then(b, rest)) == Then(a + b, rest)
  {
    if rest.Ok? {
      assert a + (b + rest.value) == (a + b) + rest.value;
    }
  }

  /**
   * One cell read through the palette: its index must lie in the 64-entry
   * array and the array entry there must name a palette entry, each miss
   * giving `OutOfBounds`.
   */
  function ReadCell(palette: seq<string>, indexes: seq<int>, c: BiomeCell): (r: Result<BiomeCellWithId>)
    requires |indexes| == BIOME_DATA_LEN
    ensures r.Ok? <==> CellIndex(c) < BIOME_DATA_LEN && 0 <= indexes[CellIndex(c)] < |palette|
    ensures r.Ok? ==> r.value == BiomeCellWithId(c, palette[indexes[CellIndex(c)]])
    ensures CellIndex(c) >= BIOME_DATA_LEN ==> r == Err(OutOfBounds(BIOME_DATA_LEN, CellIndex(c)))
    ensures CellIndex(c) < BIOME_DATA_LEN && !(0 <= indexes[CellIndex(c)] < |palette|) ==>
              r == Err(OutOfBounds(|palette|, BlockReads.AsUsize(indexes[CellIndex(c)])))
  {
    var s := CellIndex(c);
    if s >= BIOME_DATA_LEN then Err(OutOfBounds(BIOME_DATA_LEN, s))
    else
      var i := indexes[s];
      if i < 0 || i >= |palette| then Err(OutOfBounds(|palette|, BlockReads.AsUsize(i)))
      else Ok(BiomeCellWithId(c, palette[i]))
  }

  /** The cells of one section, read in order; the first failing one gives the error. */
  function ReadCells(palette: seq<string>, indexes: seq<int>, want: seq<BiomeCell>): Result<seq<BiomeCellWithId>>
    requires |indexes| == BIOME_DATA_LEN
  {
    if want == [] then Ok([])
    else match ReadCell(palette, indexes, want[0])
      case Err(e) => Err(e)
      case Ok(x) => Then([x], ReadCells(palette, indexes, want[1..]))
  }

  /** The cells of a list of results, in order. */
  function CellsOf(xs: seq<BiomeCellWithId>): (r: seq<BiomeCell>)
    ensures |r| == |xs| && forall j :: 0 <= j < |xs| ==> r[j] == xs[j].cell
  {
    if xs == [] then [] else [xs[0].cell] + CellsOf(xs[1..])
  }

  lemma CellsOfAppend(a: seq<BiomeCellWithId>, b: seq<BiomeCellWithId>)
    ensures CellsOf(a + b) == CellsOf(a) + CellsOf(b)
  {
    assert CellsOf(a + b) == CellsOf(a) + CellsOf(b);
  }

  /** A result names the palette entry the index at its cell's slot names. */
  predicate ReadsPaletteEntry(palette: seq<string>, indexes: seq<int>, x: BiomeCellWithId)
    requires |indexes| == BIOME_DATA_LEN
  {
    var s := CellIndex(x.cell);
    s < BIOME_DATA_LEN && 0 <= indexes[s] < |palette| && x.id == palette[indexes[s]]
  }

  /** A section read that succeeds gives one result per cell asked for, in order, each its palette entry. */
  lemma {:induction false} ReadCellsResult(palette: seq<string>, indexes: seq<int>, want: seq<BiomeCell>)
    requires |indexes| == BIOME_DATA_LEN && ReadCells(palette, indexes, want).Ok?
    ensures var xs := ReadCells(palette, indexes, want).value;
      CellsOf(xs) == want && forall j :: 0 <= j < |xs| ==> ReadsPaletteEntry(palette, indexes, xs[j])
    decreases |want|
  {
    if want != [] {
      ReadCellsResult(palette, indexes, want[1..]);
      var xs := ReadCells(palette, indexes, want).value;
      assert xs[1..] == ReadCells(palette, indexes, want[1..]).value;
    }
  }

  /** A section's biome states and their string palette, with the errors raised for them. */
  function BiomeStatesOf(section: Compound): (r: Result<(Compound, seq<string>)>)
    ensures r.Ok? ==> CompoundTag(section, "biomes") == Some(r.value.0) && BiomePalette(r.value.0) == Some(r.value.1)
    ensures CompoundTag(section, "biomes").None? ==> r == Err(MissingNbtTag("biomes"))
  {
    match CompoundTag(section, "biomes")
    case None => Err(MissingNbtTag("biomes"))
    case Some(state) =>
      match ListTag(state, "palette")
      case None => Err(MissingNbtTag("palette"))
      case Some(list) => if list.StringList? then Ok((state, list.strings)) else Err(InvalidNbtType("palette"))
  }

  /** The fresh 64-entry array once a section's biome data is decoded into it at the biome width. */
  function CellsDecoded(state: Compound, palette: seq<string>): (r: seq<int>)
    ensures |r| == BIOME_DATA_LEN
  {
    Overlay(Zeros(BIOME_DATA_LEN), BiomeIndexes(state, palette))
  }

  /**
   * The walk over a chunk's sections from `i`: every section needs a "Y";
   * a section whose Y is still asked for is decoded and its cells read, and
   * its Y is no longer asked for; the others are skipped.
   */
  function ReadBiomeSections(sections: seq<Compound>, i: nat, pending: map<i8, seq<BiomeCell>>)
    : Result<seq<BiomeCellWithId>>
    requires i <= |sections|
    decreases |sections| - i
  {
    if i == |sections| then Ok([])
    else match ByteTag(sections[i], "Y")
      case None => Err(MissingNbtTag("Y"))
      case Some(y) =>
        if y !in pending then ReadBiomeSections(sections, i + 1, pending)
        else match BiomeStatesOf(sections[i])
          case Err(e) => Err(e)
          case Ok(sp) =>
            match ReadCells(sp.1, CellsDecoded(sp.0, sp.1), pending[y])
            case Err(e) => Err(e)
            case Ok(found) => Then(found, ReadBiomeSections(sections, i + 1, pending - {y}))
  }

  /** One chunk group: its chunk must be in the region and hold a "sections" list of compounds. */
  function ReadCellGroup(chunks: map<ChunkPos, Compound>, grp: ChunkGroup): Result<seq<BiomeCellWithId>>
  {
    var k := grp.coordinate;
    if k !in chunks then Err(NoChunk(k.0, k.1))
    else if ListTag(chunks[k], "sections").None? then Err(MissingNbtTag("sections"))
    else if !SectionsListed(chunks[k]) then Err(InvalidNbtType("sections"))
    else ReadBiomeSections(SectionsOf(chunks[k]), 0, grp.sections)
  }

  /** The groups read in list order, their results concatenated; the first failing group gives the error. */
  function ReadCellGroups(chunks: map<ChunkPos, Compound>, groups: seq<ChunkGroup>): Result<seq<BiomeCellWithId>>
  {
    if groups == [] then Ok([])
    else match ReadCellGroup(chunks, groups[0])
      case Err(e) => Err(e)
      case Ok(found) => Then(found, ReadCellGroups(chunks, groups[1..]))
  }

  /** Reading the groups from `i` after what the first `i` found. */
  lemma ReadCellGroupsStep(chunks: map<ChunkPos, Compound>, groups: seq<ChunkGroup>, i: nat, found: seq<BiomeCellWithId>)
    requires i < |groups|
    requires ReadCellGroups(chunks, groups) == Then(found, ReadCellGroups(chunks, groups[i..]))
    ensures ReadCellGroup(chunks, groups[i]).Err? ==> ReadCellGroups(chunks, groups) == ReadCellGroup(chunks, groups[i])
    ensures ReadCellGroup(chunks, groups[i]).Ok? ==>
      ReadCellGroups(chunks, groups) == Then(found + ReadCellGroup(chunks, groups[i]).value, ReadCellGroups(chunks, groups[i + 1..]))
  {
    assert groups[i..][1..] == groups[i + 1..];
    if ReadCellGroup(chunks, groups[i]).Ok? {
      ThenThen(found, ReadCellGroup(chunks, groups[i]).value, ReadCellGroups(chunks, groups[i + 1..]));
    }
  }

  /** One section asked for: its biome states decoded and its cells read, or the tag error. */
  function SectionCells(section: Compound, want: seq<BiomeCell>): Result<seq<BiomeCellWithId>>
  {
    match BiomeStatesOf(section)
    case Err(e) => Err(e)
    case Ok(sp) => ReadCells(sp.1, CellsDecoded(sp.0, sp.1), want)
  }

  /** One section of the walk: decode the section asked for and read its cells. */
  method ReadSectionCells(section: Compound, want: seq<BiomeCell>) returns (r: Result<seq<BiomeCellWithId>>)
    ensures r == SectionCells(section, want)
  {
    var sp := BiomeStatesOf(section);
    if sp.Err? {
      return Err(sp.error);
    }
    var indexes := CellsDecoded(sp.value.0, sp.value.1);
    var found: seq<BiomeCellWithId> := [];
    ThenNothing(ReadCells(sp.value.1, indexes, want));
    assert want[0..] == want;
    for j := 0 to |want|
      invariant ReadCells(sp.value.1, indexes, want) == Then(found, ReadCells(sp.value.1, indexes, want[j..]))
    {
      assert want[j..][1..] == want[j + 1..];
      var x := ReadCell(sp.value.1, indexes, want[j]);
      if x.Err? {
        return Err(x.error);
      }
      ThenThen(found, [x.value], ReadCells(sp.value.1, indexes, want[j + 1..]));
      found := found + [x.value];
    }
    assert want[|want|..] == [];
    assert found + [] == found;
    return Ok(found);
  }

  /** The section walk of one group's chunk, removing every Y it reads. */
  method ReadBiomeSectionsIn(sections: seq<Compound>, pending0: map<i8, seq<BiomeCell>>) returns (r: Result<seq<BiomeCellWithId>>)
    ensures r == ReadBiomeSections(sections, 0, pending0)
  {
    var pending: map<i8, seq<BiomeCell>> := pending0;
    var found: seq<BiomeCellWithId> := [];
    ThenNothing(ReadBiomeSections(sections, 0, pending0));
    for i := 0 to |sections|
      invariant ReadBiomeSections(sections, 0, pending0) == Then(found, ReadBiomeSections(sections, i, pending))
    {
      var tag := ByteTag(sections[i], "Y");
      if tag.None? {
        return Err(MissingNbtTag("Y"));
      }
      var y: i8 := tag.value;
      if y !in pending {
        continue;
      }
      var more := ReadSectionCells(sections[i], pending[y]);
      if more.Err? {
        return Err(more.error);
      }
      ThenThen(found, more.value, ReadBiomeSections(sections, i + 1, pending - {y}));
      found := found + more.value;
      pending := pending - {y};
    }
    assert found + [] == found;
    return Ok(found);
  }

  /**
   * `get_biomes` over the region's chunk compounds: the cells are grouped,
   * and the groups read in the order `group_cells_into_chunks` lists them
   * (the hash map's), each group's results in section order.
   */
  method GetBiomesIn(chunks: map<ChunkPos, Compound>, cells: seq<BiomeCell>)
    returns (r: Result<seq<BiomeCellWithId>>, ghost groups: seq<ChunkGroup>)
    ensures Lists(groups, GroupedCells(cells)) && r == ReadCellGroups(chunks, groups)
  {
    var gs := GroupCellsIntoChunks(cells);
    groups := gs;
    r := ReadGroupsIn(chunks, gs);
  }

  /** The loop of `get_biomes` over the groups, stopping at the first error. */
  method ReadGroupsIn(chunks: map<ChunkPos, Compound>, gs: seq<ChunkGroup>) returns (r: Result<seq<BiomeCellWithId>>)
    ensures r == ReadCellGroups(chunks, gs)
  {
    var found: seq<BiomeCellWithId> := [];
    ThenNothing(ReadCellGroups(chunks, gs));
    for i := 0 to |gs|
      invariant ReadCellGroups(chunks, gs) == Then(found, ReadCellGroups(chunks, gs[i..]))
    {
      ReadCellGroupsStep(chunks, gs, i, found);
      var more := ReadGroupIn(chunks, gs[i]);
      if more.Err? {
        return Err(more.error);
      }
      found := found + more.value;
    }
    assert gs[|gs|..] == [];
    assert found + [] == found;
    return Ok(found);
  }

  /** One group: the chunk looked up, its sections list checked, its sections walked. */
  method ReadGroupIn(chunks: map<ChunkPos, Compound>, grp: ChunkGroup) returns (r: Result<seq<BiomeCellWithId>>)
    ensures r == ReadCellGroup(chunks, grp)
  {
    var k := grp.coordinate;
    if k !in chunks {
      return Err(NoChunk(k.0, k.1));
    }
    var list := ListTag(chunks[k], "sections");
    if list.None? {
      return Err(MissingNbtTag("sections"));
    }
    if !list.value.CompoundList? {
      return Err(InvalidNbtType("sections"));
    }
    r := ReadBiomeSectionsIn(list.value.compounds, grp.sections);
  }

  // ---- what a read finds ----

  /** Every list still asked for holds cells of its own section only. */
  predicate CellsOfSections(pending: map<i8, seq<BiomeCell>>)
  {
    forall y :: y in pending ==> forall j :: 0 <= j < |pending[y]| ==> pending[y][j].section == y
  }

  /**
   * A result is what the section of its cell's Y stores: the first section
   * from `i` with that Y names the result's id at the cell's slot.
   */
  predicate CellStored(sections: seq<Compound>, i: nat, x: BiomeCellWithId)
    requires i <= |sections|
  {
    var f := FindSectionFrom(sections, x.cell.section, i);
    f.Ok? && StoredSectionBiome(sections[f.value], CellIndex(x.cell)) == Some(x.id)
  }

  /** In a full section the decoded array is the stored one, so an entry read is an entry stored. */
  lemma FullSectionCellReads(section: Compound, x: BiomeCellWithId)
    requires FullBiomeSection(section) && BiomeStatesOf(section).Ok?
    requires var sp := BiomeStatesOf(section).value; ReadsPaletteEntry(sp.1, CellsDecoded(sp.0, sp.1), x)
    ensures StoredSectionBiome(section, CellIndex(x.cell)) == Some(x.id)
  {
    var sp := BiomeStatesOf(section).value;
    assert |BiomeIndexes(sp.0, sp.1)| == BIOME_DATA_LEN;
  }

  /** A cell read from section `i`, the first with Y `y`, is one asked for there and is what it stores. */
  lemma {:induction false} FoundCellStored(sections: seq<Compound>, i: nat, y: i8, want: seq<BiomeCell>, x: BiomeCellWithId)
    requires i < |sections| && ByteTag(sections[i], "Y") == Some(y) && FullBiomeSection(sections[i])
    requires forall j :: 0 <= j < |want| ==> want[j].section == y
    requires BiomeStatesOf(sections[i]).Ok?
    requires var sp := BiomeStatesOf(sections[i]).value;
      ReadCells(sp.1, CellsDecoded(sp.0, sp.1), want).Ok? && x in ReadCells(sp.1, CellsDecoded(sp.0, sp.1), want).value
    ensures x.cell.section == y && x.cell in want && CellStored(sections, i, x)
  {
    var sp := BiomeStatesOf(sections[i]).value;
    var found := ReadCells(sp.1, CellsDecoded(sp.0, sp.1), want).value;
    ReadCellsResult(sp.1, CellsDecoded(sp.0, sp.1), want);
    var j :| 0 <= j < |found| && found[j] == x;
    assert CellsOf(found)[j] == x.cell;
    FullSectionCellReads(sections[i], x);
  }

  /** Over full sections, every cell a walk finds was asked for and is what the first section of its Y stores. */
  lemma {:induction false} ReadBiomeSectionsStored(sections: seq<Compound>, i: nat, pending: map<i8, seq<BiomeCell>>)
    requires i <= |sections| && CellsOfSections(pending)
    requires forall j :: i <= j < |sections| ==> FullBiomeSection(sections[j])
    requires ReadBiomeSections(sections, i, pending).Ok?
    ensures forall x :: x in ReadBiomeSections(sections, i, pending).value ==>
      x.cell.section in pending && x.cell in pending[x.cell.section] && CellStored(sections, i, x)
    decreases |sections| - i
  {
    if i < |sections| {
      var y := ByteTag(sections[i], "Y").value;
      if y !in pending {
        ReadBiomeSectionsStored(sections, i + 1, pending);
      } else {
        var sp := BiomeStatesOf(sections[i]).value;
        var found := ReadCells(sp.1, CellsDecoded(sp.0, sp.1), pending[y]).value;
        ReadCellsResult(sp.1, CellsDecoded(sp.0, sp.1), pending[y]);
        ReadBiomeSectionsStored(sections, i + 1, pending - {y});
        forall x | x in found
          ensures x.cell.section == y && x.cell in pending[y] && CellStored(sections, i, x)
        {
          FoundCellStored(sections, i, y, pending[y], x);
        }
      }
    }
  }

  /** A found cell was asked for, and its chunk, which is in the region, stores its id at its slot. */
  predicate CellFoundIn(chunks: map<ChunkPos, Compound>, g: CellGroups, x: BiomeCellWithId)
  {
    var k := x.cell.chunk;
    k in chunks && SectionsListed(chunks[k]) &&
    x.cell in FiledCells(g, k, x.cell.section) && CellStored(SectionsOf(chunks[k]), 0, x)
  }

  /** What the groups from a list find over full chunks lies in the chunks, was asked for and is stored there. */
  lemma {:induction false} ReadCellGroupsStored(chunks: map<ChunkPos, Compound>, g: CellGroups, groups: seq<ChunkGroup>)
    requires forall i :: 0 <= i < |groups| ==> groups[i].coordinate in g && groups[i].sections == g[groups[i].coordinate]
    requires CellGroupsFiled(g) && ReadCellGroups(chunks, groups).Ok?
    requires forall k :: k in chunks ==> FullBiomeSections(chunks[k])
    ensures forall x :: x in ReadCellGroups(chunks, groups).value ==> CellFoundIn(chunks, g, x)
    decreases |groups|
  {
    if groups != [] {
      var k := groups[0].coordinate;
      var pending := groups[0].sections;
      ReadCellGroupsStored(chunks, g, groups[1..]);
      var found := ReadCellGroup(chunks, groups[0]).value;
      assert ReadCellGroups(chunks, groups).value == found + ReadCellGroups(chunks, groups[1..]).value;
      assert CellsOfSections(pending) by {
        forall y | y in pending ensures forall j :: 0 <= j < |pending[y]| ==> pending[y][j].section == y {
          assert CellsFiled(g[k][y], k, y);
        }
      }
      ReadBiomeSectionsStored(SectionsOf(chunks[k]), 0, pending);
      forall x | x in found ensures CellFoundIn(chunks, g, x) {
        assert CellsFiled(g[k][x.cell.section], k, x.cell.section);
      }
    }
  }

  /**
   * Over chunks whose biome states are all full, every biome a successful
   * `get_biomes` returns is for a cell of the input, and is the palette
   * entry its chunk's section stores at the cell's slot.
   */
  lemma GetBiomesStored(chunks: map<ChunkPos, Compound>, cells: seq<BiomeCell>, groups: seq<ChunkGroup>)
    requires Lists(groups, GroupedCells(cells)) && ReadCellGroups(chunks, groups).Ok?
    requires forall k :: k in chunks ==> FullBiomeSections(chunks[k])
    ensures forall x :: x in ReadCellGroups(chunks, groups).value ==>
      x.cell in cells && CellFoundIn(chunks, GroupedCells(cells), x)
  {
    GroupedCellsFiled(cells);
    ReadCellGroupsStored(chunks, GroupedCells(cells), groups);
    forall x | x in ReadCellGroups(chunks, groups).value ensures x.cell in cells {
      GroupedCellsAreBuckets(cells, x.cell.chunk, x.cell.section);
      CellBucketFiled(cells, x.cell.chunk, x.cell.section);
    }
  }

  /** A group whose chunk is not in the region makes the whole read fail; listed first, with `NoChunk`. */
  lemma {:induction false} MissingCellChunkFails(chunks: map<ChunkPos, Compound>, groups: seq<ChunkGroup>, i: nat)
    requires i < |groups| && groups[i].coordinate !in chunks
    ensures ReadCellGroups(chunks, groups).Err?
    ensures i == 0 ==> ReadCellGroups(chunks, groups) == Err(NoChunk(groups[0].coordinate.0, groups[0].coordinate.1))
    decreases i
  {
    if i > 0 {
      assert groups[1..][i - 1] == groups[i];
      MissingCellChunkFails(chunks, groups[1..], i - 1);
    }
  }

  // ---- nothing lost, nothing duplicated ----

  /** How often a cell is asked for in a group's lists. */
  function AskedCell(pending: map<i8, seq<BiomeCell>>, c: BiomeCell): nat
  {
    if c.section in pending then multiset(pending[c.section])[c] else 0
  }

  /** Reading one section's list and then the rest counts each cell as asked. */
  lemma AskedCellAfterRead(pending: map<i8, seq<BiomeCell>>, y: i8, found: seq<BiomeCell>, tail: seq<BiomeCell>, c: BiomeCell)
    requires y in pending && CellsOfSections(pending) && found == pending[y]
    requires multiset(tail)[c] == AskedCell(pending - {y}, c)
    ensures multiset(found + tail)[c] == AskedCell(pending, c)
  {
    if c.section != y {
      assert forall j :: 0 <= j < |found| ==> found[j] != c;
    }
  }

  /**
   * A walk in which every Y still asked for has a section from `i` on finds
   * every cell exactly as often as it was asked for.
   */
  lemma {:induction false} ReadBiomeSectionsCount(sections: seq<Compound>, i: nat, pending: map<i8, seq<BiomeCell>>, c: BiomeCell)
    requires i <= |sections| && CellsOfSections(pending)
    requires forall y :: y in pending ==> FindSectionFrom(sections, y, i).Ok?
    requires ReadBiomeSections(sections, i, pending).Ok?
    ensures multiset(CellsOf(ReadBiomeSections(sections, i, pending).value))[c] == AskedCell(pending, c)
    decreases |sections| - i
  {
    if i == |sections| {
      assert c.section !in pending;
    } else {
      var y := ByteTag(sections[i], "Y").value;
      if y !in pending {
        ReadBiomeSectionsCount(sections, i + 1, pending, c);
      } else {
        var sp := BiomeStatesOf(sections[i]).value;
        var found := ReadCells(sp.1, CellsDecoded(sp.0, sp.1), pending[y]).value;
        ReadCellsResult(sp.1, CellsDecoded(sp.0, sp.1), pending[y]);
        ReadBiomeSectionsCount(sections, i + 1, pending - {y}, c);
        var tail := ReadBiomeSections(sections, i + 1, pending - {y}).value;
        CellsOfAppend(found, tail);
        AskedCellAfterRead(pending, y, CellsOf(found), CellsOf(tail), c);
      }
    }
  }

  /** Every Y each group asks for has a section in the group's chunk. */
  predicate CellSectionsFound(chunks: map<ChunkPos, Compound>, g: CellGroups)
  {
    forall k, y :: k in g && y in g[k] ==> k in chunks && FindSection(SectionsOf(chunks[k]), y).Ok?
  }

  /** One group's read counts a cell as its own list asks for it, and a cell of another chunk not at all. */
  lemma ReadCellGroupCount(chunks: map<ChunkPos, Compound>, g: CellGroups, grp: ChunkGroup, c: BiomeCell)
    requires grp.coordinate in g && grp.sections == g[grp.coordinate]
    requires CellGroupsFiled(g) && CellSectionsFound(chunks, g)
    requires ReadCellGroup(chunks, grp).Ok?
    ensures multiset(CellsOf(ReadCellGroup(chunks, grp).value))[c] ==
      if c.chunk == grp.coordinate then multiset(FiledCells(g, c.chunk, c.section))[c] else 0
  {
    var k := grp.coordinate;
    assert forall y :: y in grp.sections ==> CellsFiled(grp.sections[y], k, y);
    ReadBiomeSectionsCount(SectionsOf(chunks[k]), 0, grp.sections, c);
    if c.chunk != k && c.section in grp.sections {
      var list := grp.sections[c.section];
      assert CellsFiled(list, k, c.section);
      assert forall j :: 0 <= j < |list| ==> list[j] != c;
    }
  }

  /** A slot is listed by a list of groups exactly when the first group or the rest list it. */
  lemma CoordinatesCons(groups: seq<ChunkGroup>, k: ChunkPos)
    requires groups != []
    ensures k in Coordinates(groups) <==> k == groups[0].coordinate || k in Coordinates(groups[1..])
    ensures BlockReads.Distinct(Coordinates(groups)) ==>
      BlockReads.Distinct(Coordinates(groups[1..])) && groups[0].coordinate !in Coordinates(groups[1..])
  {
    assert Coordinates(groups) == [groups[0].coordinate] + Coordinates(groups[1..]);
  }

  /** Over distinct groups, each cell is found as often as its own group asks for it. */
  lemma {:induction false} ReadCellGroupsCount(chunks: map<ChunkPos, Compound>, g: CellGroups, groups: seq<ChunkGroup>, c: BiomeCell)
    requires forall i :: 0 <= i < |groups| ==> groups[i].coordinate in g && groups[i].sections == g[groups[i].coordinate]
    requires BlockReads.Distinct(Coordinates(groups)) && CellGroupsFiled(g) && CellSectionsFound(chunks, g)
    requires ReadCellGroups(chunks, groups).Ok?
    ensures multiset(CellsOf(ReadCellGroups(chunks, groups).value))[c] ==
      if c.chunk in Coordinates(groups) then multiset(FiledCells(g, c.chunk, c.section))[c] else 0
    decreases |groups|
  {
    if groups != [] {
      CoordinatesCons(groups, c.chunk);
      ReadCellGroupsCount(chunks, g, groups[1..], c);
      ReadCellGroupCount(chunks, g, groups[0], c);
      CellsOfAppend(ReadCellGroup(chunks, groups[0]).value, ReadCellGroups(chunks, groups[1..]).value);
    }
  }

  /** Every cell's chunk is in the region and has a section of the cell's Y. */
  predicate AllCellSectionsFound(chunks: map<ChunkPos, Compound>, cs: seq<BiomeCell>)
  {
    forall j :: 0 <= j < |cs| ==> cs[j].chunk in chunks && FindSection(SectionsOf(chunks[cs[j].chunk]), cs[j].section).Ok?
  }

  /** The grouped cells ask only for sections the cells themselves name. */
  lemma GroupedCellsFound(chunks: map<ChunkPos, Compound>, cs: seq<BiomeCell>)
    requires AllCellSectionsFound(chunks, cs)
    ensures CellSectionsFound(chunks, GroupedCells(cs))
  {
    forall k, y | k in GroupedCells(cs) && y in GroupedCells(cs)[k]
      ensures k in chunks && FindSection(SectionsOf(chunks[k]), y).Ok?
    {
      GroupedCellsAreBuckets(cs, k, y);
      CellBucketFiled(cs, k, y);
      var b := CellBucket(cs, k, y)[0];
      assert b in CellBucket(cs, k, y);
      assert b in cs && b.chunk == k && b.section == y;
      var j :| 0 <= j < |cs| && cs[j] == b;
    }
  }

  /**
   * When every cell's section exists, a successful `get_biomes` returns
   * every cell asked for, duplicates included, and no other: the cells
   * found are a permutation of the input.
   */
  lemma GetBiomesComplete(chunks: map<ChunkPos, Compound>, cells: seq<BiomeCell>, groups: seq<ChunkGroup>)
    requires Lists(groups, GroupedCells(cells)) && AllCellSectionsFound(chunks, cells)
    requires ReadCellGroups(chunks, groups).Ok?
    ensures multiset(CellsOf(ReadCellGroups(chunks, groups).value)) == multiset(cells)
  {
    GroupedCellsFiled(cells);
    GroupedCellsFound(chunks, cells);
    forall c ensures multiset(CellsOf(ReadCellGroups(chunks, groups).value))[c] == multiset(cells)[c] {
      ReadCellGroupsCount(chunks, GroupedCells(cells), groups, c);
      GroupedCellSlots(cells, c.chunk);
      if c.chunk in GroupedCells(cells) {
        GroupedCellsAreBuckets(cells, c.chunk, c.section);
        CellBucketCount(cells, c);
      } else {
        assert forall j :: 0 <= j < |cells| ==> cells[j] != c;
      }
    }
  }

  // ---- get_biome ----

  /** The one group `get_biomes` forms for a single cell. */
  function SingleCell(c: BiomeCell): ChunkGroup
  {
    ChunkGroup(c.chunk, map[c.section := [c]])
  }

  /** Grouping one cell gives exactly its chunk's group. */
  lemma SingleCellGroup(c: BiomeCell, groups: seq<ChunkGroup>)
    requires Lists(groups, GroupedCells([c]))
    ensures groups == [SingleCell(c)]
  {
    assert [c][..0] == [];
    assert GroupedCells([c]) == FileCell(GroupedCells([]), c);
    assert FiledCells(map[], c.chunk, c.section) + [c] == [c];
    assert GroupedCells([c]) == map[c.chunk := map[c.section := [c]]];
    assert c.chunk in Coordinates(groups);
    assert forall i :: 0 <= i < |groups| ==> groups[i] == SingleCell(c);
    BlockReads.DistinctSame(Coordinates(groups), c.chunk);
  }

  /**
   * `get_biome` as written: `get_biomes` on the one cell, then
   * `swap_remove(0)` on its result, which panics when the chunk has no
   * section of the cell's Y and so nothing was found.
   */
  function BiomeAtAsWritten(chunks: map<ChunkPos, Compound>, c: BiomeCell): Checked<Result<string>>
  {
    match ReadCellGroup(chunks, SingleCell(c))
    case Err(e) => Done(Err(e))
    case Ok(found) => if found == [] then Panics else Done(Ok(found[0].id))
  }

  /** `get_biome` as evidently intended: a missing section is the error `NoSectionFound`. */
  function BiomeAt(chunks: map<ChunkPos, Compound>, c: BiomeCell): Result<string>
  {
    match ReadCellGroup(chunks, SingleCell(c))
    case Err(e) => Err(e)
    case Ok(found) => if found == [] then Err(NoSectionFound(c.section)) else Ok(found[0].id)
  }

  /** A walk finds nothing when no section has the Y asked for, and every section has a Y. */
  lemma {:induction false} ReadBiomeSectionsNone(sections: seq<Compound>, i: nat, c: BiomeCell)
    requires i <= |sections| && NoSectionAt(sections, c.section, i)
    ensures ReadBiomeSections(sections, i, map[c.section := [c]]) == Ok([])
    decreases |sections| - i
  {
    if i < |sections| {
      ReadBiomeSectionsNone(sections, i + 1, c);
    }
  }

  /**
   * A chunk with a list of sections none of which has the cell's Y: as
   * written `get_biome` panics, the intended one gives `NoSectionFound`.
   */
  lemma GetBiomeMissingSection(chunks: map<ChunkPos, Compound>, c: BiomeCell)
    requires c.chunk in chunks && SectionsListed(chunks[c.chunk])
    requires NoSectionAt(SectionsOf(chunks[c.chunk]), c.section, 0)
    ensures BiomeAtAsWritten(chunks, c) == Panics
    ensures BiomeAt(chunks, c) == Err(NoSectionFound(c.section))
  {
    ReadBiomeSectionsNone(SectionsOf(chunks[c.chunk]), 0, c);
  }

  /** The smallest such input: a chunk in slot (0, 0) whose "sections" list is empty. */
  lemma GetBiomeAsWrittenPanics()
    ensures BiomeAtAsWritten(map[(0, 0) := map["sections" := TList(CompoundList([]))]], BiomeCell((0, 0), 0, (0, 0, 0))) == Panics
  {
  }

  /** Both versions agree whenever a section of the cell's Y is found. */
  lemma BiomeAtAgrees(chunks: map<ChunkPos, Compound>, c: BiomeCell)
    requires BiomeAtAsWritten(chunks, c).Done?
    ensures BiomeAtAsWritten(chunks, c).value == BiomeAt(chunks, c)
  {
  }

  /**
   * What `get_biome` returns, over full sections, is what the first section
   * of the cell's Y stores at the cell's slot.
   */
  lemma BiomeAtStored(chunks: map<ChunkPos, Compound>, c: BiomeCell)
    requires BiomeAt(chunks, c).Ok?
    requires forall k :: k in chunks ==> FullBiomeSections(chunks[k])
    ensures c.chunk in chunks && SectionsListed(chunks[c.chunk]) &&
            CellStored(SectionsOf(chunks[c.chunk]), 0, BiomeCellWithId(c, BiomeAt(chunks, c).value))
  {
    var grp := SingleCell(c);
    SingleCellListed(c);
    ReadCellGroupsStored(chunks, map[c.chunk := grp.sections], [grp]);
    var found := ReadCellGroup(chunks, grp).value;
    assert ReadCellGroups(chunks, [grp]) == Then(found, Ok([]));
    assert found + [] == found;
    assert found[0] in ReadCellGroups(chunks, [grp]).value;
  }

  /** The single cell's group, listed and filed. */
  lemma SingleCellListed(c: BiomeCell)
    ensures Lists([SingleCell(c)], map[c.chunk := SingleCell(c).sections])
    ensures CellGroupsFiled(map[c.chunk := SingleCell(c).sections])
  {
    assert Coordinates([SingleCell(c)]) == [c.chunk];
  }

  /** `get_biome`: `get_biomes` on the one cell, then its first result. */
  method GetBiomeIn(chunks: map<ChunkPos, Compound>, c: BiomeCell) returns (r: Result<string>)
    ensures r == BiomeAt(chunks, c)
  {
    var found, groups := GetBiomesIn(chunks, [c]);
    SingleCellGroup(c, groups);
    var one := ReadCellGroup(chunks, SingleCell(c));
    if one.Ok? {
      assert one.value + [] == one.value;
    }
    if found.Err? {
      return Err(found.error);
    }
    if |found.value| == 0 {
      return Err(NoSectionFound(c.section));
    }
    return Ok(found.value[0].id);
  }
}
