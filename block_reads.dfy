/**
 * Reading blocks back from a region (get.rs): coordinates are grouped by
 * chunk slot and section, each group's chunk is looked up, and its sections
 * are walked in order, decoding the index data of every section asked for
 * into one 4096-entry array and reading each coordinate's palette entry.
 */
module BlockReads {
  import opened Ints
  import opened Errors
  import opened Nbt
  import opened LocalCoords
  import opened RegionRules
  import opened PackedData
  import opened SectionWrite
  import opened ChunkWrite
  import opened Chunk
  import opened SectionFill

  /** A region-local block coordinate as `get_blocks` takes it. */
  type Coord = (u32, i32, u32)

  // ---- grouping ----

  /** The chunk slot a coordinate is filed under: x and z over 16, floored and saturated to `u8`. */
  function ChunkOfCoord(c: Coord): ChunkPos
  {
    (SatU8(FloorDiv(c.0, WIDTH)), SatU8(FloorDiv(c.2, WIDTH)))
  }

  /** Per chunk slot, per section Y, the coordinates filed there. */
  type Groups = map<ChunkPos, map<i8, seq<Coord>>>

  /** The list filed under `(k, y)`, empty when there is none. */
  function Filed(g: Groups, k: ChunkPos, y: i8): seq<Coord>
  {
    if k in g && y in g[k] then g[k][y] else []
  }

  /** One coordinate pushed onto the list of its chunk slot and section, either created when missing. */
  function FileCoord(g: Groups, c: Coord): Groups
  {
    var k := ChunkOfCoord(c);
    var y: i8 := SectionOf(c.1);
    var sections: map<i8, seq<Coord>> := if k in g then g[k] else map[];
    g[k := sections[y := Filed(g, k, y) + [c]]]
  }

  /** The groups `group_coordinates_into_chunks` builds: every coordinate filed in input order. */
  function Grouped(cs: seq<Coord>): Groups
    decreases |cs|
  {
    if cs == [] then map[] else FileCoord(Grouped(cs[..|cs| - 1]), cs[|cs| - 1])
  }

  /** The coordinates of `cs` whose chunk slot is `k` and whose section is `y`, in order. */
  function Bucket(cs: seq<Coord>, k: ChunkPos, y: i8): seq<Coord>
    decreases |cs|
  {
    if cs == [] then []
    else
      var c := cs[|cs| - 1];
      Bucket(cs[..|cs| - 1], k, y) + (if ChunkOfCoord(c) == k && SectionOf(c.1) == y then [c] else [])
  }

  /**
   * The groups hold exactly the buckets: the list filed under `(k, y)` is
   * the bucket, and a pair is present exactly when its bucket is not empty.
   */
  lemma {:induction false} GroupedIsBuckets(cs: seq<Coord>, k: ChunkPos, y: i8)
    ensures Filed(Grouped(cs), k, y) == Bucket(cs, k, y)
    ensures (k in Grouped(cs) && y in Grouped(cs)[k]) <==> Bucket(cs, k, y) != []
    decreases |cs|
  {
    if cs != [] {
      GroupedIsBuckets(cs[..|cs| - 1], k, y);
    }
  }

  /** A chunk slot has a group exactly when some coordinate lies in it. */
  lemma {:induction false} GroupedSlots(cs: seq<Coord>, k: ChunkPos)
    ensures k in Grouped(cs) <==> exists j :: 0 <= j < |cs| && ChunkOfCoord(cs[j]) == k
    decreases |cs|
  {
    if cs != [] {
      var init := cs[..|cs| - 1];
      var c := cs[|cs| - 1];
      GroupedSlots(init, k);
      if ChunkOfCoord(c) == k {
        assert ChunkOfCoord(cs[|cs| - 1]) == k;
      }
      if exists j :: 0 <= j < |init| && ChunkOfCoord(init[j]) == k {
        var j :| 0 <= j < |init| && ChunkOfCoord(init[j]) == k;
        assert cs[j] == init[j];
      }
      if exists j :: 0 <= j < |cs| && ChunkOfCoord(cs[j]) == k {
        var j :| 0 <= j < |cs| && ChunkOfCoord(cs[j]) == k;
        if j < |init| {
          assert init[j] == cs[j];
        }
      }
    }
  }

  /** Every coordinate lands in its own bucket as often as it occurs: none is lost, none duplicated. */
  lemma {:induction false} BucketCount(cs: seq<Coord>, c: Coord)
    ensures multiset(Bucket(cs, ChunkOfCoord(c), SectionOf(c.1)))[c] == multiset(cs)[c]
    decreases |cs|
  {
    if cs != [] {
      var init := cs[..|cs| - 1];
      BucketCount(init, c);
      assert cs == init + [cs[|cs| - 1]];
    }
  }

  /** Only coordinates of slot `k` and section `y` are in their bucket. */
  lemma {:induction false} BucketFiled(cs: seq<Coord>, k: ChunkPos, y: i8)
    ensures forall j :: 0 <= j < |Bucket(cs, k, y)| ==>
      ChunkOfCoord(Bucket(cs, k, y)[j]) == k && SectionOf(Bucket(cs, k, y)[j].1) == y
    decreases |cs|
  {
    if cs != [] {
      BucketFiled(cs[..|cs| - 1], k, y);
    }
  }

  /** Every list of the groups holds only coordinates of its own slot and section. */
  predicate GroupsFiled(g: Groups)
  {
    forall k, y :: k in g && y in g[k] ==> SectionFiled(g[k][y], k, y)
  }

  /** Every coordinate of the list has slot `k` and section `y`. */
  predicate SectionFiled(list: seq<Coord>, k: ChunkPos, y: i8)
  {
    forall j :: 0 <= j < |list| ==> ChunkOfCoord(list[j]) == k && SectionOf(list[j].1) == y
  }

  /** The grouped coordinates are filed correctly. */
  lemma GroupedFiled(cs: seq<Coord>)
    ensures GroupsFiled(Grouped(cs))
  {
    var g := Grouped(cs);
    forall k, y | k in g && y in g[k]
      ensures SectionFiled(g[k][y], k, y)
    {
      GroupedIsBuckets(cs, k, y);
      BucketFiled(cs, k, y);
    }
  }

  /** `group_coordinates_into_chunks`: the coordinates filed one by one into nested maps. */
  method GroupCoordinatesIntoChunks(cs: seq<Coord>) returns (g: Groups)
    ensures g == Grouped(cs)
  {
    g := map[];
    for i := 0 to |cs|
      invariant g == Grouped(cs[..i])
    {
      assert cs[..i + 1][..i] == cs[..i];
      var k := ChunkOfCoord(cs[i]);
      var y: i8 := SectionOf(cs[i].1);
      var sections: map<i8, seq<Coord>> := if k in g then g[k] else map[];
      var list := if y in sections then sections[y] else [];
      g := g[k := sections[y := list + [cs[i]]]];
    }
    assert cs[..|cs|] == cs;
  }

  // ---- reading ----

  /** The slot a coordinate is read from: `(x & 15) + (z & 15) * 16 + (y & 15) * 256`. */
  function ReadSlot(c: Coord): (s: nat)
    ensures s < BLOCK_DATA_LEN
  {
    c.0 % WIDTH + c.2 % WIDTH * WIDTH + c.1 % WIDTH * WIDTH * WIDTH
  }

  /** `index as usize` on an `i64`: a negative value wraps around. */
  function AsUsize(i: int): nat
  {
    if i < 0 then i % 0x1_0000_0000_0000_0000 else i
  }

  /** The coordinate a result carries. */
  function CoordOf(x: BlockWithCoordinate): Coord
  {
    (x.coordinates.x, x.coordinates.y, x.coordinates.z)
  }

  /** The coordinates of a list of results, in order. */
  function CoordsOf(bs: seq<BlockWithCoordinate>): (r: seq<Coord>)
    ensures |r| == |bs| && forall j :: 0 <= j < |bs| ==> r[j] == CoordOf(bs[j])
  {
    if bs == [] then [] else [CoordOf(bs[0])] + CoordsOf(bs[1..])
  }

  lemma CoordsOfAppend(a: seq<BlockWithCoordinate>, b: seq<BlockWithCoordinate>)
    ensures CoordsOf(a + b) == CoordsOf(a) + CoordsOf(b)
  {
  }

  /** Found blocks put in front of what the rest of a read finds; an error wins. */
  function Then(found: seq<BlockWithCoordinate>, rest: Result<seq<BlockWithCoordinate>>): Result<seq<BlockWithCoordinate>>
  {
    match rest
    case Err(e) => Err(e)
    case Ok(more) => Ok(found + more)
  }

  lemma ThenNothing(rest: Result<seq<BlockWithCoordinate>>)
    ensures Then([], rest) == rest
  {
    if rest.Ok? {
      assert [] + rest.value == rest.value;
    }
  }

  lemma ThenThen(a: seq<BlockWithCoordinate>, b: seq<BlockWithCoordinate>, rest: Result<seq<BlockWithCoordinate>>)
    ensures Then(a, Then(b, rest)) == Then(a + b, rest)
  {
    if rest.Ok? {
      assert a + (b + rest.value) == (a + b) + rest.value;
    }
  }

  /**
   * One coordinate read through the palette: the index at its slot must
   * name a palette entry (`OutOfBounds` otherwise) that parses as a block.
   */
  function ReadOne(palette: seq<Compound>, indexes: seq<int>, c: Coord): (r: Result<Block>)
    requires |indexes| == BLOCK_DATA_LEN
    ensures r.Ok? ==> 0 <= indexes[ReadSlot(c)] < |palette| && FromCompound(palette[indexes[ReadSlot(c)]]) == r
    ensures !(0 <= indexes[ReadSlot(c)] < |palette|) ==> r == Err(OutOfBounds(|palette|, AsUsize(indexes[ReadSlot(c)])))
  {
    var i := indexes[ReadSlot(c)];
    if i < 0 || i >= |palette| then Err(OutOfBounds(|palette|, AsUsize(i)))
    else FromCompound(palette[i])
  }

  /** The coordinates of one section, read in order; the first failing one gives the error. */
  function ReadCoords(palette: seq<Compound>, indexes: seq<int>, want: seq<Coord>): Result<seq<BlockWithCoordinate>>
    requires |indexes| == BLOCK_DATA_LEN
  {
    if want == [] then Ok([])
    else match ReadOne(palette, indexes, want[0])
      case Err(e) => Err(e)
      case Ok(b) => Then([BlockWithCoordinate(Coords(want[0].0, want[0].1, want[0].2), b)], ReadCoords(palette, indexes, want[1..]))
  }

  /** Each result of a section read is its coordinate's palette entry. */
  predicate ReadsEntry(palette: seq<Compound>, indexes: seq<int>, x: BlockWithCoordinate)
    requires |indexes| == BLOCK_DATA_LEN
  {
    var s := ReadSlot(CoordOf(x));
    0 <= indexes[s] < |palette| && FromCompound(palette[indexes[s]]) == Ok(x.block)
  }

  /**
   * A section read that succeeds gives one result per coordinate asked for,
   * in order, each the palette entry its slot's index names.
   */
  lemma {:induction false} ReadCoordsResult(palette: seq<Compound>, indexes: seq<int>, want: seq<Coord>)
    requires |indexes| == BLOCK_DATA_LEN && ReadCoords(palette, indexes, want).Ok?
    ensures var bs := ReadCoords(palette, indexes, want).value;
      CoordsOf(bs) == want && forall j :: 0 <= j < |bs| ==> ReadsEntry(palette, indexes, bs[j])
    decreases |want|
  {
    if want != [] {
      ReadCoordsResult(palette, indexes, want[1..]);
      var bs := ReadCoords(palette, indexes, want).value;
      assert bs[1..] == ReadCoords(palette, indexes, want[1..]).value;
    }
  }

  /** A section's block states and palette compounds, with the errors raised for them. */
  function StatesOf(section: Compound): (r: Result<(Compound, seq<Compound>)>)
    ensures r.Ok? ==> CompoundTag(section, "block_states") == Some(r.value.0) && StatePalette(r.value.0) == Some(r.value.1)
  {
    match CompoundTag(section, "block_states")
    case None => Err(MissingNbtTag("block_states"))
    case Some(state) =>
      match ListTag(state, "palette")
      case None => Err(MissingNbtTag("palette"))
      case Some(list) => if list.CompoundList? then Ok((state, list.compounds)) else Err(InvalidNbtType("palette"))
  }

  /** The reused index array once a section's data is decoded into it at its palette's block width. */
  function DecodedOver(indexes: seq<int>, state: Compound, palette: seq<Compound>): (r: seq<int>)
    requires |indexes| == BLOCK_DATA_LEN
    ensures |r| == BLOCK_DATA_LEN
  {
    BlockBitCountIsLeastWidth(|palette|);
    Overlay(indexes, Decoded(BLOCK_DATA_LEN, BlockBitCount(|palette|), LongArrayTag(state, "data")))
  }

  /**
   * The walk over a chunk's sections from `i`: every section needs a "Y"; a
   * section whose Y is still asked for is decoded over the array and read,
   * and its Y is no longer asked for; the others are skipped.
   */
  function ReadSections(sections: seq<Compound>, i: nat, pending: map<i8, seq<Coord>>, indexes: seq<int>)
    : Result<seq<BlockWithCoordinate>>
    requires i <= |sections| && |indexes| == BLOCK_DATA_LEN
    decreases |sections| - i
  {
    if i == |sections| then Ok([])
    else match ByteTag(sections[i], "Y")
      case None => Err(MissingNbtTag("Y"))
      case Some(y) =>
        if y !in pending then ReadSections(sections, i + 1, pending, indexes)
        else match StatesOf(sections[i])
          case Err(e) => Err(e)
          case Ok(sp) =>
            var decoded := DecodedOver(indexes, sp.0, sp.1);
            match ReadCoords(sp.1, decoded, pending[y])
            case Err(e) => Err(e)
            case Ok(found) => Then(found, ReadSections(sections, i + 1, pending - {y}, decoded))
  }

  /**
   * One chunk group: its chunk must be in the region and hold a "sections"
   * list of compounds, which is walked with a zeroed array.
   */
  function ReadGroup(chunks: map<ChunkPos, ChunkState>, k: ChunkPos, pending: map<i8, seq<Coord>>)
    : Result<seq<BlockWithCoordinate>>
  {
    if k !in chunks then Err(NoChunk(k.0, k.1))
    else if ListTag(chunks[k].nbt, "sections").None? then Err(MissingNbtTag("sections"))
    else if !SectionsListed(chunks[k].nbt) then Err(InvalidNbtType("sections"))
    else ReadSections(SectionsOf(chunks[k].nbt), 0, pending, Zeros(BLOCK_DATA_LEN))
  }

  /** The groups read in `order`, their results concatenated; the first failing group gives the error. */
  function ReadGroups(chunks: map<ChunkPos, ChunkState>, g: Groups, order: seq<ChunkPos>): Result<seq<BlockWithCoordinate>>
    requires forall i :: 0 <= i < |order| ==> order[i] in g
  {
    if order == [] then Ok([])
    else match ReadGroup(chunks, order[0], g[order[0]])
      case Err(e) => Err(e)
      case Ok(found) => Then(found, ReadGroups(chunks, g, order[1..]))
  }

  /** Reading `a` then `b` is reading `a + b`. */
  lemma {:induction false} ReadGroupsAppend(chunks: map<ChunkPos, ChunkState>, g: Groups, a: seq<ChunkPos>, b: seq<ChunkPos>)
    requires forall i :: 0 <= i < |a| ==> a[i] in g
    requires forall i :: 0 <= i < |b| ==> b[i] in g
    ensures forall i :: 0 <= i < |a + b| ==> (a + b)[i] in g
    ensures ReadGroups(chunks, g, a + b) ==
      match ReadGroups(chunks, g, a)
      case Err(e) => Err(e)
      case Ok(found) => Then(found, ReadGroups(chunks, g, b))
    decreases |a|
  {
    if a == [] {
      assert a + b == b;
      ThenNothing(ReadGroups(chunks, g, b));
    } else {
      assert (a + b)[1..] == a[1..] + b;
      ReadGroupsAppend(chunks, g, a[1..], b);
      var first := ReadGroup(chunks, a[0], g[a[0]]);
      if first.Ok? {
        var tail := ReadGroups(chunks, g, a[1..]);
        if tail.Ok? {
          ThenThen(first.value, tail.value, ReadGroups(chunks, g, b));
        }
      }
    }
  }

  /** One more group read after the ones read so far. */
  lemma ReadGroupsPush(chunks: map<ChunkPos, ChunkState>, g: Groups, order: seq<ChunkPos>, k: ChunkPos,
                       found: seq<BlockWithCoordinate>)
    requires k in g && forall i :: 0 <= i < |order| ==> order[i] in g
    requires ReadGroups(chunks, g, order) == Ok(found) && ReadGroup(chunks, k, g[k]).Ok?
    ensures forall i :: 0 <= i < |order + [k]| ==> (order + [k])[i] in g
    ensures ReadGroups(chunks, g, order + [k]) == Ok(found + ReadGroup(chunks, k, g[k]).value)
  {
    ReadGroupsAppend(chunks, g, order, [k]);
    assert [k][1..] == [];
    var more := ReadGroup(chunks, k, g[k]).value;
    assert more + [] == more;
  }

  /** A failing group ends the read with its error, whatever follows it. */
  lemma ReadGroupsFail(chunks: map<ChunkPos, ChunkState>, g: Groups, order: seq<ChunkPos>, k: ChunkPos,
                       rest: seq<ChunkPos>, found: seq<BlockWithCoordinate>)
    requires k in g && forall i :: 0 <= i < |order| ==> order[i] in g
    requires forall i :: 0 <= i < |rest| ==> rest[i] in g
    requires ReadGroups(chunks, g, order) == Ok(found) && ReadGroup(chunks, k, g[k]).Err?
    ensures forall i :: 0 <= i < |order + ([k] + rest)| ==> (order + ([k] + rest))[i] in g
    ensures ReadGroups(chunks, g, order + ([k] + rest)) == ReadGroup(chunks, k, g[k])
  {
    assert forall i :: 0 <= i < |[k] + rest| ==> ([k] + rest)[i] in g;
    ReadGroupsAppend(chunks, g, order, [k] + rest);
  }

  /** Pairwise distinct slots. */
  predicate Distinct(order: seq<ChunkPos>)
  {
    forall i, j :: 0 <= i < j < |order| ==> order[i] != order[j]
  }

  /** `order` visits every slot of `keys` exactly once. */
  predicate Enumerates(order: seq<ChunkPos>, keys: set<ChunkPos>)
  {
    Distinct(order) && (forall i :: 0 <= i < |order| ==> order[i] in keys) && forall k :: k in keys ==> k in order
  }

  /** Some order of a set's members. */
  ghost function Enumerate(s: set<ChunkPos>): (r: seq<ChunkPos>)
    ensures Enumerates(r, s)
    decreases s
  {
    if s == {} then []
    else
      var k :| k in s;
      [k] + Enumerate(s - {k})
  }

  // ---- the loops ----

  /** The walk past a section that is read: its blocks come first, then the rest of the walk. */
  lemma ReadSectionsRead(sections: seq<Compound>, i: nat, pending: map<i8, seq<Coord>>, indexes: seq<int>,
                         found: seq<BlockWithCoordinate>, y: i8)
    requires i < |sections| && |indexes| == BLOCK_DATA_LEN
    requires ByteTag(sections[i], "Y") == Some(y) && y in pending && StatesOf(sections[i]).Ok?
    requires var sp := StatesOf(sections[i]).value;
      ReadCoords(sp.1, DecodedOver(indexes, sp.0, sp.1), pending[y]).Ok?
    ensures var sp := StatesOf(sections[i]).value;
      var decoded := DecodedOver(indexes, sp.0, sp.1);
      Then(found, ReadSections(sections, i, pending, indexes)) ==
      Then(found + ReadCoords(sp.1, decoded, pending[y]).value, ReadSections(sections, i + 1, pending - {y}, decoded))
  {
    var sp := StatesOf(sections[i]).value;
    var decoded := DecodedOver(indexes, sp.0, sp.1);
    ThenThen(found, ReadCoords(sp.1, decoded, pending[y]).value, ReadSections(sections, i + 1, pending - {y}, decoded));
  }

  /** The coordinate loop of one section, each found block pushed after `found`. */
  method ReadCoordsInto(palette: seq<Compound>, indexes: array<int>, want: seq<Coord>, found: seq<BlockWithCoordinate>)
    returns (r: Result<seq<BlockWithCoordinate>>)
    requires indexes.Length == BLOCK_DATA_LEN
    ensures r == Then(found, ReadCoords(palette, indexes[..], want))
  {
    var acc := found;
    for j := 0 to |want|
      invariant Then(found, ReadCoords(palette, indexes[..], want)) == Then(acc, ReadCoords(palette, indexes[..], want[j..]))
    {
      var c := want[j];
      var i := indexes[ReadSlot(c)];
      assert want[j..][1..] == want[j + 1..];
      if i < 0 || i >= |palette| {
        return Err(OutOfBounds(|palette|, AsUsize(i)));
      }
      var b := FromCompound(palette[i]);
      if b.Err? {
        return Err(b.error);
      }
      var x := BlockWithCoordinate(Coords(c.0, c.1, c.2), b.value);
      ThenThen(acc, [x], ReadCoords(palette, indexes[..], want[j + 1..]));
      acc := acc + [x];
    }
    assert want[|want|..] == [];
    assert acc + [] == acc;
    return Ok(acc);
  }

  /**
   * The section loop of one chunk group: a section without "Y" is an
   * error; a section whose Y is asked for is decoded into the array and its
   * coordinates read.
   */
  method ReadSectionsInto(sections: seq<Compound>, pending0: map<i8, seq<Coord>>) returns (r: Result<seq<BlockWithCoordinate>>)
    ensures r == ReadSections(sections, 0, pending0, Zeros(BLOCK_DATA_LEN))
  {
    var indexes := new int[BLOCK_DATA_LEN](_ => 0);
    assert indexes[..] == Zeros(BLOCK_DATA_LEN);
    var pending: map<i8, seq<Coord>> := pending0;
    var found: seq<BlockWithCoordinate> := [];
    ThenNothing(ReadSections(sections, 0, pending0, Zeros(BLOCK_DATA_LEN)));
    for i := 0 to |sections|
      invariant ReadSections(sections, 0, pending0, Zeros(BLOCK_DATA_LEN)) ==
                Then(found, ReadSections(sections, i, pending, indexes[..]))
    {
      var y := ByteTag(sections[i], "Y");
      if y.None? {
        return Err(MissingNbtTag("Y"));
      }
      if y.value !in pending {
        continue;
      }
      var want := pending[y.value];
      var states := StatesOf(sections[i]);
      if states.Err? {
        return Err(states.error);
      }
      var state := states.value.0;
      var palette := states.value.1;
      ghost var stale := indexes[..];
      DecodeSection(indexes, state, palette);
      var res := ReadCoordsInto(palette, indexes, want, found);
      if res.Err? {
        return res;
      }
      ReadSectionsRead(sections, i, pending, stale, found, y.value);
      pending := pending - {y.value};
      found := res.value;
    }
    assert found + [] == found;
    return Ok(found);
  }

  /** A section's data decoded over the reused array. */
  method DecodeSection(indexes: array<int>, state: Compound, palette: seq<Compound>)
    requires indexes.Length == BLOCK_DATA_LEN
    modifies indexes
    ensures indexes[..] == DecodedOver(old(indexes[..]), state, palette)
  {
    BlockBitCountIsLeastWidth(|palette|);
    var _ := DecodeInto(indexes, BlockBitCount(|palette|), LongArrayTag(state, "data"));
  }

  /** One chunk group of `get_blocks`. */
  method ReadGroupAt(chunks: map<ChunkPos, ChunkState>, k: ChunkPos, pending: map<i8, seq<Coord>>)
    returns (r: Result<seq<BlockWithCoordinate>>)
    ensures r == ReadGroup(chunks, k, pending)
  {
    if k !in chunks {
      return Err(NoChunk(k.0, k.1));
    }
    var nbt := chunks[k].nbt;
    if ListTag(nbt, "sections").None? {
      return Err(MissingNbtTag("sections"));
    }
    if !SectionsListed(nbt) {
      return Err(InvalidNbtType("sections"));
    }
    r := ReadSectionsInto(SectionsOf(nbt), pending);
  }

  /**
   * `get_blocks` on the region's chunks: the groups are visited in an order
   * of the map's choosing, named by `order`, and their results concatenated;
   * the first failing group ends the call with its error.
   */
  method GetBlocksIn(chunks: map<ChunkPos, ChunkState>, cs: seq<Coord>)
    returns (r: Result<seq<BlockWithCoordinate>>, ghost order: seq<ChunkPos>)
    ensures Enumerates(order, Grouped(cs).Keys)
    ensures r == ReadGroups(chunks, Grouped(cs), order)
  {
    var groups := GroupCoordinatesIntoChunks(cs);
    var todo := groups.Keys;
    var found: seq<BlockWithCoordinate> := [];
    order := [];
    while todo != {}
      invariant Visiting(order, todo, groups.Keys)
      invariant ReadGroups(chunks, groups, order) == Ok(found)
      decreases todo
    {
      var k :| k in todo;
      var res := ReadGroupAt(chunks, k, groups[k]);
      if res.Err? {
        ghost var rest := Enumerate(todo - {k});
        ReadGroupsFail(chunks, groups, order, k, rest, found);
        VisitAll(order, todo, groups.Keys, k, rest);
        order := order + ([k] + rest);
        return res, order;
      }
      ReadGroupsPush(chunks, groups, order, k, found);
      VisitOne(order, todo, groups.Keys, k);
      order := order + [k];
      found := found + res.value;
      todo := todo - {k};
    }
    return Ok(found), order;
  }

  /** Halfway through an enumeration: `order` visited, `todo` still to visit. */
  predicate Visiting(order: seq<ChunkPos>, todo: set<ChunkPos>, keys: set<ChunkPos>)
  {
    todo <= keys && Distinct(order) &&
    (forall i :: 0 <= i < |order| ==> order[i] in keys && order[i] !in todo) &&
    forall k :: k in keys ==> k in todo || k in order
  }

  lemma VisitOne(order: seq<ChunkPos>, todo: set<ChunkPos>, keys: set<ChunkPos>, k: ChunkPos)
    requires Visiting(order, todo, keys) && k in todo
    ensures Visiting(order + [k], todo - {k}, keys)
  {
    var o := order + [k];
    forall j | j in keys ensures j in todo - {k} || j in o {
      if j !in todo - {k} && j != k {
        assert j in order;
        var i :| 0 <= i < |order| && order[i] == j;
        assert o[i] == j;
      }
      if j == k {
        assert o[|order|] == k;
      }
    }
  }

  lemma VisitAll(order: seq<ChunkPos>, todo: set<ChunkPos>, keys: set<ChunkPos>, k: ChunkPos, rest: seq<ChunkPos>)
    requires Visiting(order, todo, keys) && k in todo && Enumerates(rest, todo - {k})
    ensures Enumerates(order + ([k] + rest), keys)
  {
    var tail := [k] + rest;
    var o := order + tail;
    assert forall i :: 0 <= i < |tail| ==> tail[i] in todo;
    forall i, j | 0 <= i < j < |o| ensures o[i] != o[j] {
      if j < |order| {
      } else if i >= |order| {
        assert o[i] == tail[i - |order|] && o[j] == tail[j - |order|];
      } else {
        assert o[j] == tail[j - |order|];
      }
    }
    forall j | j in keys ensures j in o {
      if j in todo {
        if j == k {
          assert o[|order|] == k;
        } else {
          assert j in todo - {k};
          assert j in rest;
          var i :| 0 <= i < |rest| && rest[i] == j;
          assert o[|order| + 1 + i] == j;
        }
      } else {
        var i :| 0 <= i < |order| && order[i] == j;
        assert o[i] == j;
      }
    }
  }

  // ---- what a read finds ----

  /** Every list still asked for holds coordinates of its own section only. */
  predicate PendingFiled(pending: map<i8, seq<Coord>>)
  {
    forall y :: y in pending ==> forall j :: 0 <= j < |pending[y]| ==> SectionOf(pending[y][j].1) == y
  }

  /**
   * A result is what the section of its Y holds at its slot: the first
   * section from `i` with that Y names a palette entry there that parses as
   * the result's block.
   */
  predicate ReadsStored(sections: seq<Compound>, i: nat, x: BlockWithCoordinate)
    requires i <= |sections|
  {
    var f := FindSectionFrom(sections, SectionOf(x.coordinates.y), i);
    f.Ok? && StoredBlock(sections[f.value], ReadSlot(CoordOf(x))).Some? &&
    FromCompound(StoredBlock(sections[f.value], ReadSlot(CoordOf(x))).value) == Ok(x.block)
  }

  /** In a full section the decoded array is the stored data, so an entry read is an entry stored. */
  lemma FullSectionReads(section: Compound, indexes: seq<int>, x: BlockWithCoordinate)
    requires |indexes| == BLOCK_DATA_LEN && FullSection(section) && StatesOf(section).Ok?
    requires var sp := StatesOf(section).value; ReadsEntry(sp.1, DecodedOver(indexes, sp.0, sp.1), x)
    ensures StoredBlock(section, ReadSlot(CoordOf(x))).Some?
    ensures FromCompound(StoredBlock(section, ReadSlot(CoordOf(x))).value) == Ok(x.block)
  {
    var sp := StatesOf(section).value;
    FullDecodes(sp.0, sp.1);
  }

  /**
   * Over full sections, every block a walk finds was asked for and is what
   * the first section of its Y stores at its slot.
   */
  lemma {:induction false} ReadSectionsStored(sections: seq<Compound>, i: nat, pending: map<i8, seq<Coord>>, indexes: seq<int>)
    requires i <= |sections| && |indexes| == BLOCK_DATA_LEN && PendingFiled(pending)
    requires forall j :: i <= j < |sections| ==> FullSection(sections[j])
    requires ReadSections(sections, i, pending, indexes).Ok?
    ensures forall x :: x in ReadSections(sections, i, pending, indexes).value ==>
      SectionOf(x.coordinates.y) in pending && CoordOf(x) in pending[SectionOf(x.coordinates.y)] && ReadsStored(sections, i, x)
    decreases |sections| - i
  {
    if i < |sections| {
      var y := ByteTag(sections[i], "Y").value;
      if y !in pending {
        ReadSectionsStored(sections, i + 1, pending, indexes);
      } else {
        var sp := StatesOf(sections[i]).value;
        var decoded := DecodedOver(indexes, sp.0, sp.1);
        var found := ReadCoords(sp.1, decoded, pending[y]).value;
        var rest := pending - {y};
        ReadCoordsResult(sp.1, decoded, pending[y]);
        ReadSectionsStored(sections, i + 1, rest, decoded);
        forall x | x in found
          ensures SectionOf(x.coordinates.y) == y && CoordOf(x) in pending[y] && ReadsStored(sections, i, x)
        {
          var j :| 0 <= j < |found| && found[j] == x;
          assert CoordsOf(found)[j] == CoordOf(x);
          FullSectionReads(sections[i], indexes, x);
        }
      }
    }
  }

  /** Every list of a group holds coordinates of that chunk slot only. */
  predicate GroupFiled(k: ChunkPos, pending: map<i8, seq<Coord>>)
  {
    forall y :: y in pending ==> SectionFiled(pending[y], k, y)
  }

  /** What one group finds lies in its chunk slot, was asked for and is stored there. */
  lemma GroupStored(chunks: map<ChunkPos, ChunkState>, k: ChunkPos, pending: map<i8, seq<Coord>>)
    requires GroupFiled(k, pending) && ReadGroup(chunks, k, pending).Ok?
    requires k in chunks ==> FullSections(chunks[k].nbt)
    ensures forall x :: x in ReadGroup(chunks, k, pending).value ==>
      ChunkOfCoord(CoordOf(x)) == k && k in chunks && SectionsListed(chunks[k].nbt) &&
      SectionOf(x.coordinates.y) in pending && CoordOf(x) in pending[SectionOf(x.coordinates.y)] &&
      ReadsStored(SectionsOf(chunks[k].nbt), 0, x)
  {
    assert PendingFiled(pending) by {
      forall y | y in pending ensures forall j :: 0 <= j < |pending[y]| ==> SectionOf(pending[y][j].1) == y {
        assert SectionFiled(pending[y], k, y);
      }
    }
    ReadSectionsStored(SectionsOf(chunks[k].nbt), 0, pending, Zeros(BLOCK_DATA_LEN));
    forall x | x in ReadGroup(chunks, k, pending).value
      ensures ChunkOfCoord(CoordOf(x)) == k
    {
      var y := SectionOf(x.coordinates.y);
      assert SectionFiled(pending[y], k, y);
    }
  }

  /**
   * A found block was asked for in its chunk slot and section, and its
   * chunk, which is in the region, stores it at its slot.
   */
  predicate FoundIn(chunks: map<ChunkPos, ChunkState>, g: Groups, x: BlockWithCoordinate)
  {
    var k := ChunkOfCoord(CoordOf(x));
    k in chunks && SectionsListed(chunks[k].nbt) &&
    CoordOf(x) in Filed(g, k, SectionOf(x.coordinates.y)) && ReadsStored(SectionsOf(chunks[k].nbt), 0, x)
  }

  /**
   * Over chunks whose sections are all full, every block `get_blocks` finds
   * was asked for, and its chunk holds it: the first section of its Y
   * stores its block at its slot.
   */
  lemma {:induction false} ReadGroupsStored(chunks: map<ChunkPos, ChunkState>, g: Groups, order: seq<ChunkPos>)
    requires forall i :: 0 <= i < |order| ==> order[i] in g
    requires GroupsFiled(g) && ReadGroups(chunks, g, order).Ok?
    requires forall k :: k in chunks ==> FullSections(chunks[k].nbt)
    ensures forall x :: x in ReadGroups(chunks, g, order).value ==> FoundIn(chunks, g, x)
    decreases |order|
  {
    if order != [] {
      var k := order[0];
      ReadGroupsStored(chunks, g, order[1..]);
      var found := ReadGroup(chunks, k, g[k]).value;
      var tail := ReadGroups(chunks, g, order[1..]).value;
      assert ReadGroups(chunks, g, order).value == found + tail;
      assert GroupFiled(k, g[k]);
      GroupStored(chunks, k, g[k]);
      assert forall x :: x in found ==> FoundIn(chunks, g, x);
    }
  }

  // ---- nothing lost, nothing duplicated ----

  /** How often a coordinate is asked for in a group's lists. */
  function Asked(pending: map<i8, seq<Coord>>, c: Coord): nat
  {
    if SectionOf(c.1) in pending then multiset(pending[SectionOf(c.1)])[c] else 0
  }

  /**
   * A walk in which every Y still asked for has a section from `i` on finds
   * every coordinate asked for exactly as often as it was asked for.
   */
  lemma {:induction false} ReadSectionsCount(sections: seq<Compound>, i: nat, pending: map<i8, seq<Coord>>, indexes: seq<int>, c: Coord)
    requires i <= |sections| && |indexes| == BLOCK_DATA_LEN && PendingFiled(pending)
    requires forall y :: y in pending ==> FindSectionFrom(sections, y, i).Ok?
    requires ReadSections(sections, i, pending, indexes).Ok?
    ensures multiset(CoordsOf(ReadSections(sections, i, pending, indexes).value))[c] == Asked(pending, c)
    decreases |sections| - i
  {
    if i == |sections| {
      assert SectionOf(c.1) !in pending;
    } else {
      var y := ByteTag(sections[i], "Y").value;
      if y !in pending {
        ReadSectionsCount(sections, i + 1, pending, indexes, c);
      } else {
        var sp := StatesOf(sections[i]).value;
        var decoded := DecodedOver(indexes, sp.0, sp.1);
        var found := ReadCoords(sp.1, decoded, pending[y]).value;
        var rest := pending - {y};
        ReadCoordsResult(sp.1, decoded, pending[y]);
        ReadSectionsCount(sections, i + 1, rest, decoded, c);
        var tail := ReadSections(sections, i + 1, rest, decoded).value;
        CoordsOfAppend(found, tail);
        AskedAfterRead(pending, y, CoordsOf(found), CoordsOf(tail), c);
      }
    }
  }

  /** Reading one section's list and then the rest counts each coordinate as asked. */
  lemma AskedAfterRead(pending: map<i8, seq<Coord>>, y: i8, found: seq<Coord>, tail: seq<Coord>, c: Coord)
    requires y in pending && PendingFiled(pending) && found == pending[y]
    requires multiset(tail)[c] == Asked(pending - {y}, c)
    ensures multiset(found + tail)[c] == Asked(pending, c)
  {
    if SectionOf(c.1) != y {
      assert forall j :: 0 <= j < |found| ==> found[j] != c;
    }
  }

  /** Every Y each group asks for has a section in the group's chunk. */
  predicate SectionsFound(chunks: map<ChunkPos, ChunkState>, g: Groups)
  {
    forall k, y :: k in g && y in g[k] ==> k in chunks && FindSection(SectionsOf(chunks[k].nbt), y).Ok?
  }

  /** Over distinct groups, each coordinate is found as often as its own group asks for it. */
  lemma {:induction false} ReadGroupsCount(chunks: map<ChunkPos, ChunkState>, g: Groups, order: seq<ChunkPos>, c: Coord)
    requires forall i :: 0 <= i < |order| ==> order[i] in g
    requires Distinct(order) && GroupsFiled(g) && SectionsFound(chunks, g)
    requires ReadGroups(chunks, g, order).Ok?
    ensures multiset(CoordsOf(ReadGroups(chunks, g, order).value))[c] ==
      if ChunkOfCoord(c) in order then multiset(Filed(g, ChunkOfCoord(c), SectionOf(c.1)))[c] else 0
    decreases |order|
  {
    if order != [] {
      var k := order[0];
      assert Distinct(order[1..]);
      ReadGroupsCount(chunks, g, order[1..], c);
      var found := ReadGroup(chunks, k, g[k]).value;
      var tail := ReadGroups(chunks, g, order[1..]).value;
      CoordsOfAppend(found, tail);
      var pending := g[k];
      assert forall y :: y in pending ==> SectionFiled(pending[y], k, y);
      ReadSectionsCount(SectionsOf(chunks[k].nbt), 0, pending, Zeros(BLOCK_DATA_LEN), c);
      if ChunkOfCoord(c) != k && SectionOf(c.1) in pending {
        var list := pending[SectionOf(c.1)];
        assert SectionFiled(list, k, SectionOf(c.1));
        assert forall j :: 0 <= j < |list| ==> list[j] != c;
      }
      if ChunkOfCoord(c) == k {
        assert k !in order[1..];
      } else if ChunkOfCoord(c) in order {
        var i :| 0 <= i < |order| && order[i] == ChunkOfCoord(c);
        assert order[1..][i - 1] == ChunkOfCoord(c);
      }
    }
  }

  /** Every coordinate's chunk is in the region and has a section of its Y. */
  predicate AllSectionsFound(chunks: map<ChunkPos, ChunkState>, cs: seq<Coord>)
  {
    forall j :: 0 <= j < |cs| ==>
      ChunkOfCoord(cs[j]) in chunks && FindSection(SectionsOf(chunks[ChunkOfCoord(cs[j])].nbt), SectionOf(cs[j].1)).Ok?
  }

  /** The grouped coordinates ask only for sections the coordinates themselves name. */
  lemma GroupedFound(chunks: map<ChunkPos, ChunkState>, cs: seq<Coord>)
    requires AllSectionsFound(chunks, cs)
    ensures SectionsFound(chunks, Grouped(cs))
  {
    var g := Grouped(cs);
    forall k, y | k in g && y in g[k]
      ensures k in chunks && FindSection(SectionsOf(chunks[k].nbt), y).Ok?
    {
      GroupedIsBuckets(cs, k, y);
      BucketFiled(cs, k, y);
      var b := Bucket(cs, k, y)[0];
      BucketCount(cs, b);
      assert b in multiset(cs);
      var j :| 0 <= j < |cs| && cs[j] == b;
    }
  }

  /** One coordinate's count in a complete read. */
  lemma FoundAsOften(chunks: map<ChunkPos, ChunkState>, cs: seq<Coord>, order: seq<ChunkPos>, c: Coord)
    requires Enumerates(order, Grouped(cs).Keys) && AllSectionsFound(chunks, cs)
    requires ReadGroups(chunks, Grouped(cs), order).Ok?
    ensures multiset(CoordsOf(ReadGroups(chunks, Grouped(cs), order).value))[c] == multiset(cs)[c]
  {
    GroupedFiled(cs);
    GroupedFound(chunks, cs);
    ReadGroupsCount(chunks, Grouped(cs), order, c);
    var k := ChunkOfCoord(c);
    GroupedSlots(cs, k);
    if k in order {
      GroupedIsBuckets(cs, k, SectionOf(c.1));
      BucketCount(cs, c);
    } else {
      assert forall j :: 0 <= j < |cs| ==> cs[j] != c;
    }
  }

  /**
   * When every coordinate's section exists, a successful `get_blocks`
   * returns every coordinate asked for, duplicates included, and no other:
   * the coordinates found are a permutation of the input.
   */
  lemma GetBlocksComplete(chunks: map<ChunkPos, ChunkState>, cs: seq<Coord>, order: seq<ChunkPos>)
    requires Enumerates(order, Grouped(cs).Keys) && AllSectionsFound(chunks, cs)
    requires ReadGroups(chunks, Grouped(cs), order).Ok?
    ensures multiset(CoordsOf(ReadGroups(chunks, Grouped(cs), order).value)) == multiset(cs)
  {
    forall c ensures multiset(CoordsOf(ReadGroups(chunks, Grouped(cs), order).value))[c] == multiset(cs)[c] {
      FoundAsOften(chunks, cs, order, c);
    }
  }

  /** Only coordinates of the input are in a bucket. */
  lemma {:induction false} BucketIn(cs: seq<Coord>, k: ChunkPos, y: i8)
    ensures forall c :: c in Bucket(cs, k, y) ==> c in cs
    decreases |cs|
  {
    if cs != [] {
      var init := cs[..|cs| - 1];
      BucketIn(init, k, y);
      assert forall c :: c in init ==> c in cs;
    }
  }

  /**
   * Over chunks whose sections are all full, every block a successful
   * `get_blocks` returns is at a coordinate of the input, and is what its
   * chunk stores at that coordinate.
   */
  lemma GetBlocksStored(chunks: map<ChunkPos, ChunkState>, cs: seq<Coord>, order: seq<ChunkPos>)
    requires Enumerates(order, Grouped(cs).Keys) && ReadGroups(chunks, Grouped(cs), order).Ok?
    requires forall k :: k in chunks ==> FullSections(chunks[k].nbt)
    ensures forall x :: x in ReadGroups(chunks, Grouped(cs), order).value ==> CoordOf(x) in cs && FoundIn(chunks, Grouped(cs), x)
  {
    GroupedFiled(cs);
    ReadGroupsStored(chunks, Grouped(cs), order);
    forall x | x in ReadGroups(chunks, Grouped(cs), order).value ensures CoordOf(x) in cs {
      var k := ChunkOfCoord(CoordOf(x));
      var y := SectionOf(x.coordinates.y);
      GroupedIsBuckets(cs, k, y);
      BucketIn(cs, k, y);
    }
  }

  /** A group whose chunk is not in the region makes the whole read fail, whatever the order. */
  lemma {:induction false} MissingChunkFails(chunks: map<ChunkPos, ChunkState>, g: Groups, order: seq<ChunkPos>, k: ChunkPos)
    requires forall i :: 0 <= i < |order| ==> order[i] in g
    requires k in order && k !in chunks
    ensures ReadGroups(chunks, g, order).Err?
    ensures order[0] == k ==> ReadGroups(chunks, g, order) == Err(NoChunk(k.0, k.1))
    decreases |order|
  {
    if order[0] != k {
      assert k in order[1..];
      MissingChunkFails(chunks, g, order[1..], k);
    }
  }

  // ---- get_block ----

  /** The one group `get_block` reads. */
  function Single(c: Coord): map<i8, seq<Coord>>
  {
    map[SectionOf(c.1) := [c]]
  }

  /**
   * `get_block` as the source writes it: the first result of `get_blocks`
   * on the one coordinate, which panics when that is empty, as it is when
   * the chunk has no section of the coordinate's Y.
   */
  function BlockAtAsWritten(chunks: map<ChunkPos, ChunkState>, c: Coord): Checked<Result<Block>>
  {
    match ReadGroup(chunks, ChunkOfCoord(c), Single(c))
    case Err(e) => Done(Err(e))
    case Ok(bs) => if bs == [] then Panics else Done(Ok(bs[0].block))
  }

  /** `get_block` as evidently intended: a missing section is the error `NoSectionFound`. */
  function BlockAt(chunks: map<ChunkPos, ChunkState>, c: Coord): Result<Block>
  {
    match ReadGroup(chunks, ChunkOfCoord(c), Single(c))
    case Err(e) => Err(e)
    case Ok(bs) => if bs == [] then Err(NoSectionFound(SectionOf(c.1))) else Ok(bs[0].block)
  }

  /** A walk finds nothing when no section has the Y asked for, and every section has a Y. */
  lemma {:induction false} ReadSectionsNone(sections: seq<Compound>, i: nat, y: i8, want: seq<Coord>, indexes: seq<int>)
    requires i <= |sections| && |indexes| == BLOCK_DATA_LEN && NoSectionAt(sections, y, i)
    ensures ReadSections(sections, i, map[y := want], indexes) == Ok([])
    decreases |sections| - i
  {
    if i < |sections| {
      ReadSectionsNone(sections, i + 1, y, want, indexes);
    }
  }

  /**
   * A chunk that has sections, all with a Y and none with the coordinate's,
   * makes `get_block` as written panic; the intended version reports
   * `NoSectionFound` instead.
   */
  lemma GetBlockMissingSection(chunks: map<ChunkPos, ChunkState>, c: Coord)
    requires ChunkOfCoord(c) in chunks && SectionsListed(chunks[ChunkOfCoord(c)].nbt)
    requires NoSectionAt(SectionsOf(chunks[ChunkOfCoord(c)].nbt), SectionOf(c.1), 0)
    ensures BlockAtAsWritten(chunks, c) == Panics
    ensures BlockAt(chunks, c) == Err(NoSectionFound(SectionOf(c.1)))
  {
    ReadSectionsNone(SectionsOf(chunks[ChunkOfCoord(c)].nbt), 0, SectionOf(c.1), [c], Zeros(BLOCK_DATA_LEN));
  }

  /**
   * The smallest such input: a chunk in slot (0, 0) whose "sections" list
   * is empty, read at (0, 0, 0).
   */
  lemma GetBlockAsWrittenPanics(st: ChunkState)
    requires st.nbt == map["sections" := TList(CompoundList([]))]
    ensures BlockAtAsWritten(map[(0, 0) := st], (0, 0, 0)) == Panics
  {
    assert ChunkOfCoord((0, 0, 0)) == (0, 0);
  }

  /** Both versions agree whenever a section of the coordinate's Y is found. */
  lemma BlockAtAgrees(chunks: map<ChunkPos, ChunkState>, c: Coord)
    requires BlockAtAsWritten(chunks, c).Done?
    ensures BlockAtAsWritten(chunks, c).value == BlockAt(chunks, c)
  {
  }

  /**
   * What `get_block` returns, over full sections, is what the first section
   * of the coordinate's Y stores at its slot.
   */
  lemma BlockAtStored(chunks: map<ChunkPos, ChunkState>, c: Coord)
    requires BlockAt(chunks, c).Ok?
    requires ChunkOfCoord(c) in chunks ==> FullSections(chunks[ChunkOfCoord(c)].nbt)
    ensures var k := ChunkOfCoord(c);
      var x := BlockWithCoordinate(Coords(c.0, c.1, c.2), BlockAt(chunks, c).value);
      k in chunks && ReadsStored(SectionsOf(chunks[k].nbt), 0, x)
  {
    var k := ChunkOfCoord(c);
    assert GroupFiled(k, Single(c));
    GroupStored(chunks, k, Single(c));
    var bs := ReadGroup(chunks, k, Single(c)).value;
    assert bs[0] in bs;
  }

  /** With one coordinate there is one group and one order to read it in. */
  lemma SingleGroup(c: Coord, order: seq<ChunkPos>)
    requires Enumerates(order, Grouped([c]).Keys)
    ensures Grouped([c]) == map[ChunkOfCoord(c) := Single(c)] && order == [ChunkOfCoord(c)]
  {
    var k := ChunkOfCoord(c);
    assert [c][..0] == [];
    assert Grouped([c]) == FileCoord(Grouped([]), c);
    assert Filed(map[], k, SectionOf(c.1)) + [c] == [c];
    assert Grouped([c]) == map[k := Single(c)];
    assert k in order;
    assert forall i :: 0 <= i < |order| ==> order[i] == k;
    DistinctSame(order, k);
  }

  /** A list without repeats whose every entry is `k` has at most one entry. */
  lemma DistinctSame(xs: seq<ChunkPos>, k: ChunkPos)
    requires Distinct(xs) && forall i :: 0 <= i < |xs| ==> xs[i] == k
    ensures |xs| <= 1
  {
    DistinctFirstTwo(xs);
  }

  lemma DistinctFirstTwo(xs: seq<ChunkPos>)
    requires Distinct(xs)
    ensures |xs| >= 2 ==> xs[0] != xs[1]
  {
  }

  /** `get_block`: `get_blocks` on the one coordinate, then its first result. */
  method GetBlockIn(chunks: map<ChunkPos, ChunkState>, c: Coord) returns (r: Result<Block>)
    ensures r == BlockAt(chunks, c)
  {
    var blocks, order := GetBlocksIn(chunks, [c]);
    SingleGroup(c, order);
    var found := ReadGroup(chunks, ChunkOfCoord(c), Single(c));
    if found.Ok? {
      assert found.value + [] == found.value;
    }
    if blocks.Err? {
      return Err(blocks.error);
    }
    if |blocks.value| == 0 {
      return Err(NoSectionFound(SectionOf(c.1)));
    }
    return Ok(blocks.value[0].block);
  }

  // ---- reading back a filled section ----

  /** Every section of the chunk has a "Y", so a walk over them never stops on a missing one. */
  predicate AllHaveY(nbt: Compound)
  {
    forall j :: 0 <= j < |SectionsOf(nbt)| ==> ByteTag(SectionsOf(nbt)[j], "Y").Some?
  }

  /** A walk that asks for nothing finds nothing when every section has a Y. */
  lemma {:induction false} ReadSectionsEmpty(sections: seq<Compound>, i: nat, indexes: seq<int>)
    requires i <= |sections| && |indexes| == BLOCK_DATA_LEN
    requires forall l :: i <= l < |sections| ==> ByteTag(sections[l], "Y").Some?
    ensures ReadSections(sections, i, map[], indexes) == Ok([])
    decreases |sections| - i
  {
    if i < |sections| {
      ReadSectionsEmpty(sections, i + 1, indexes);
    }
  }

  /** A section filled with one block: no data and that block's compound as the whole palette. */
  predicate FilledWith(section: Compound, block: Block)
  {
    CompoundTag(section, "block_states").Some? &&
    "data" !in CompoundTag(section, "block_states").value &&
    ListTag(CompoundTag(section, "block_states").value, "palette") == Some(CompoundList([ToCompound(block)]))
  }

  /** Any coordinate of a filled section reads as the block, in normal form. */
  lemma FilledReads(section: Compound, block: Block, indexes: seq<int>, c: Coord)
    requires |indexes| == BLOCK_DATA_LEN && FilledWith(section, block)
    ensures StatesOf(section).Ok?
    ensures var sp := StatesOf(section).value;
      ReadCoords(sp.1, DecodedOver(indexes, sp.0, sp.1), [c]) == Ok([BlockWithCoordinate(Coords(c.0, c.1, c.2), Normalized(block))])
  {
    var sp := StatesOf(section).value;
    var decoded := DecodedOver(indexes, sp.0, sp.1);
    assert sp.1 == [ToCompound(block)] && LongArrayTag(sp.0, "data") == None;
    DecodedShape(BLOCK_DATA_LEN, BlockBitCount(1), None);
    assert decoded == Zeros(BLOCK_DATA_LEN);
    FromToCompound(block);
    assert ReadOne(sp.1, decoded, c) == Ok(Normalized(block));
    assert [c][1..] == [];
    var x := BlockWithCoordinate(Coords(c.0, c.1, c.2), Normalized(block));
    assert [x] + [] == [x];
  }

  /**
   * The walk for one coordinate whose Y is first found at the filled
   * section `j` finds the filled block.
   */
  lemma {:induction false} ReadSectionsFilled(sections: seq<Compound>, i: nat, j: nat, block: Block, c: Coord, indexes: seq<int>)
    requires i <= j < |sections| && |indexes| == BLOCK_DATA_LEN
    requires forall l :: i <= l < j ==> ByteTag(sections[l], "Y").Some? && ByteTag(sections[l], "Y") != Some(SectionOf(c.1))
    requires ByteTag(sections[j], "Y") == Some(SectionOf(c.1)) && FilledWith(sections[j], block)
    requires forall l :: j < l < |sections| ==> ByteTag(sections[l], "Y").Some?
    ensures ReadSections(sections, i, Single(c), indexes) == Ok([BlockWithCoordinate(Coords(c.0, c.1, c.2), Normalized(block))])
    decreases j - i
  {
    if i < j {
      ReadSectionsFilled(sections, i + 1, j, block, c, indexes);
    } else {
      FilledReads(sections[j], block, indexes, c);
      var sp := StatesOf(sections[j]).value;
      assert Single(c) - {SectionOf(c.1)} == map[];
      ReadSectionsEmpty(sections, j + 1, DecodedOver(indexes, sp.0, sp.1));
      var x := BlockWithCoordinate(Coords(c.0, c.1, c.2), Normalized(block));
      assert [x] + [] == [x];
    }
  }

  /**
   * After `set_section` fills section `y` of a chunk whose sections all
   * have a Y, `get_block` anywhere in that section of the chunk returns the
   * block (in normal form).
   */
  lemma SetSectionReadsBack(nbt: Compound, pos: (int, int), y: i8, block: Block, lighting: bool,
                            chunks: map<ChunkPos, ChunkState>, c: Coord)
    requires TargetListed(nbt, y) && AllHaveY(nbt) && SetSectionIn(nbt, pos, y, block, lighting).Ok?
    requires SectionOf(c.1) == y && ChunkOfCoord(c) in chunks
    requires chunks[ChunkOfCoord(c)].nbt == SetSectionIn(nbt, pos, y, block, lighting).value
    ensures BlockAt(chunks, c) == Ok(Normalized(block))
  {
    var out := SetSectionIn(nbt, pos, y, block, lighting).value;
    SetSectionFills(nbt, pos, y, block, lighting);
    SetSectionKeeps(nbt, pos, y, block, lighting);
    var j := FindSection(SectionsOf(nbt), y).value;
    var sections := SectionsOf(out);
    assert forall l :: 0 <= l < |sections| && l != j ==> sections[l] == SectionsOf(nbt)[l];
    ReadSectionsFilled(sections, 0, j, block, c, Zeros(BLOCK_DATA_LEN));
  }
}
