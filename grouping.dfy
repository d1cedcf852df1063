/**
 * `group_operations`: operations are filed into nested hash maps keyed by
 * dimension, region, chunk and section index, and the maps are then turned
 * into nested group lists. Hash-map iteration order is unspecified, so the
 * loops here pick their next key arbitrarily and the contracts hold for
 * every order.
 */
module Grouping {
  import opened WorldCoordinate
  import opened Operations
  import Split

  datatype SectionGroup = SectionGroup(sectionIdx: int, operations: seq<Operation>)
  datatype ChunkGroup = ChunkGroup(chunkCoordinate: Coordinate, sectionOperations: seq<SectionGroup>)
  datatype RegionGroup = RegionGroup(dimension: Dimension, regionCoordinate: Coordinate, chunkOperations: seq<ChunkGroup>)

  type Sections = map<int, seq<Operation>>
  type Chunks = map<Coordinate, Sections>
  type Regions = map<Coordinate, Chunks>
  type Buckets = map<Dimension, Regions>

  /** The four keys an operation is filed under. */
  datatype Key = Key(dimension: Dimension, region: Coordinate, chunk: Coordinate, section: int)

  function KeyOf(d: OperationData): Key
  {
    var c := InitCoords(d.operation);
    Key(d.dimension, AsRegion(c), AsChunk(c), Split.SectionOf(c.Y()))
  }

  // ---------------------------------------------------------------------
  // Filing

  /** `entry(..).or_default()` at every level, then `push`. */
  function Push(m: Buckets, k: Key, op: Operation): Buckets
  {
    var rm := if k.dimension in m then m[k.dimension] else map[];
    var cm := if k.region in rm then rm[k.region] else map[];
    var sm := if k.chunk in cm then cm[k.chunk] else map[];
    var ops := if k.section in sm then sm[k.section] else [];
    m[k.dimension := rm[k.region := cm[k.chunk := sm[k.section := ops + [op]]]]]
  }

  /** The buckets after filing every operation of `ops`, in order. */
  function Bucketed(ops: seq<OperationData>): Buckets
  {
    if ops == [] then map[]
    else Push(Bucketed(ops[..|ops| - 1]), KeyOf(ops[|ops| - 1]), ops[|ops| - 1].operation)
  }

  /** The bucket under a key; a missing map at any level reads as empty. */
  function Lookup(m: Buckets, k: Key): seq<Operation>
  {
    if k.dimension in m && k.region in m[k.dimension] && k.chunk in m[k.dimension][k.region]
       && k.section in m[k.dimension][k.region][k.chunk]
    then m[k.dimension][k.region][k.chunk][k.section]
    else []
  }

  /** The operations of `ops` filed under `k`, in input order. */
  function Filtered(ops: seq<OperationData>, k: Key): seq<Operation>
  {
    if ops == [] then []
    else Filtered(ops[..|ops| - 1], k) + (if KeyOf(ops[|ops| - 1]) == k then [ops[|ops| - 1].operation] else [])
  }

  /** Every operation filed under `k` comes from an input whose keys are `k`, and vice versa. */
  lemma {:induction false} FilteredMembers(ops: seq<OperationData>, k: Key, op: Operation)
    ensures op in Filtered(ops, k) <==> exists n :: 0 <= n < |ops| && ops[n].operation == op && KeyOf(ops[n]) == k
  {
    if ops != [] {
      var init := ops[..|ops| - 1];
      FilteredMembers(init, k, op);
      if exists n :: 0 <= n < |ops| && ops[n].operation == op && KeyOf(ops[n]) == k {
        var n :| 0 <= n < |ops| && ops[n].operation == op && KeyOf(ops[n]) == k;
        if n < |ops| - 1 {
          assert init[n] == ops[n];
        }
      }
      if exists n :: 0 <= n < |init| && init[n].operation == op && KeyOf(init[n]) == k {
        var n :| 0 <= n < |init| && init[n].operation == op && KeyOf(init[n]) == k;
        assert ops[n] == init[n];
      }
    }
  }

  lemma PushLookup(m: Buckets, k: Key, op: Operation, j: Key)
    ensures Lookup(Push(m, k, op), j) == Lookup(m, j) + (if j == k then [op] else [])
  {
  }

  /**
   * The bucket under every key holds exactly the operations filed under that
   * key, in input order.
   */
  lemma {:induction false} BucketedFiltered(ops: seq<OperationData>, k: Key)
    ensures Lookup(Bucketed(ops), k) == Filtered(ops, k)
  {
    if ops != [] {
      BucketedFiltered(ops[..|ops| - 1], k);
      PushLookup(Bucketed(ops[..|ops| - 1]), KeyOf(ops[|ops| - 1]), ops[|ops| - 1].operation, k);
    }
  }

  /** The bucket of `k` exists at all four levels. */
  predicate Present(m: Buckets, k: Key)
  {
    k.dimension in m && k.region in m[k.dimension] && k.chunk in m[k.dimension][k.region]
    && k.section in m[k.dimension][k.region][k.chunk]
  }

  lemma PushPresent(m: Buckets, k: Key, op: Operation, j: Key)
    requires Present(Push(m, k, op), j) && j != k
    ensures Present(m, j)
  {
  }

  /** Filing never leaves an empty bucket behind. */
  lemma {:induction false} BucketsNonEmpty(ops: seq<OperationData>, k: Key)
    requires Present(Bucketed(ops), k)
    ensures Lookup(Bucketed(ops), k) != []
  {
    var last := ops[|ops| - 1];
    PushLookup(Bucketed(ops[..|ops| - 1]), KeyOf(last), last.operation, k);
    if k != KeyOf(last) {
      PushPresent(Bucketed(ops[..|ops| - 1]), KeyOf(last), last.operation, k);
      BucketsNonEmpty(ops[..|ops| - 1], k);
    }
  }

  // ---------------------------------------------------------------------
  // Sizes. A map's size is the sum of a weight over its values; the sum
  // does not depend on the order in which keys are taken (SizeRemove).

  ghost function Size<K, V>(m: map<K, V>, w: V -> nat): nat
    decreases |m|
  {
    if m == map[] then 0
    else
      assert exists k :: k in m by { assert m.Keys != {}; var k :| k in m.Keys; }
      var k :| k in m;
      w(m[k]) + Size(m - {k}, w)
  }

  lemma {:induction false} SizeRemove<K, V>(m: map<K, V>, w: V -> nat, j: K)
    requires j in m
    ensures Size(m, w) == w(m[j]) + Size(m - {j}, w)
    decreases |m|
  {
    assert exists k :: k in m by { assert j in m; }
    var k :| k in m && Size(m, w) == w(m[k]) + Size(m - {k}, w);
    if k != j {
      SizeRemove(m - {k}, w, j);
      SizeRemove(m - {j}, w, k);
      assert m - {k} - {j} == m - {j} - {k};
    }
  }

  lemma SizeUpdate<K, V>(m: map<K, V>, w: V -> nat, j: K, v: V)
    ensures Size(m[j := v], w) + (if j in m then w(m[j]) else 0) == Size(m, w) + w(v)
  {
    SizeRemove(m[j := v], w, j);
    assert m[j := v] - {j} == m - {j};
    if j in m {
      SizeRemove(m, w, j);
    } else {
      assert m - {j} == m;
    }
  }

  function OpsWeight(ops: seq<Operation>): nat
  {
    |ops|
  }

  ghost function SectionsSize(sm: Sections): nat
  {
    Size(sm, OpsWeight)
  }

  ghost function ChunksSize(cm: Chunks): nat
  {
    Size(cm, SectionsSize)
  }

  ghost function RegionsSize(rm: Regions): nat
  {
    Size(rm, ChunksSize)
  }

  ghost function BucketsSize(m: Buckets): nat
  {
    Size(m, RegionsSize)
  }

  /** Filing one more operation adds one to the total size. */
  lemma PushSize(m: Buckets, k: Key, op: Operation)
    ensures BucketsSize(Push(m, k, op)) == BucketsSize(m) + 1
  {
    var rm := if k.dimension in m then m[k.dimension] else map[];
    var cm := if k.region in rm then rm[k.region] else map[];
    var sm := if k.chunk in cm then cm[k.chunk] else map[];
    var ops := if k.section in sm then sm[k.section] else [];
    SizeUpdate(sm, OpsWeight, k.section, ops + [op]);
    SizeUpdate(cm, SectionsSize, k.chunk, sm[k.section := ops + [op]]);
    SizeUpdate(rm, ChunksSize, k.region, cm[k.chunk := sm[k.section := ops + [op]]]);
    SizeUpdate(m, RegionsSize, k.dimension, rm[k.region := cm[k.chunk := sm[k.section := ops + [op]]]]);
  }

  /** The buckets together hold as many operations as were filed. */
  lemma {:induction false} BucketedSize(ops: seq<OperationData>)
    ensures BucketsSize(Bucketed(ops)) == |ops|
  {
    if ops != [] {
      BucketedSize(ops[..|ops| - 1]);
      PushSize(Bucketed(ops[..|ops| - 1]), KeyOf(ops[|ops| - 1]), ops[|ops| - 1].operation);
    }
  }

  // ---------------------------------------------------------------------
  // Key orders

  /** Some key of a non-empty map, for the such-that choices of the loops below. */
  ghost function Pick<K, V>(m: map<K, V>): (k: K)
    requires m != map[]
    ensures k in m
  {
    assert m.Keys != {};
    var k :| k in m.Keys;
    k
  }

  ghost predicate Distinct<K>(order: seq<K>)
  {
    forall i, j :: 0 <= i < j < |order| ==> order[i] != order[j]
  }

  /** `order` lists every key of `keys` exactly once. */
  ghost predicate Enumerates<K>(order: seq<K>, keys: set<K>)
  {
    Distinct(order) && (forall i :: 0 <= i < |order| ==> order[i] in keys) && (forall k :: k in keys ==> k in order)
  }

  /** A loop over `m` has visited the keys of `order`, and the entries of `rest` are left. */
  ghost predicate Drained<K, V>(m: map<K, V>, rest: map<K, V>, order: seq<K>)
  {
    && (forall k :: k in rest ==> k in m && rest[k] == m[k])
    && (forall i :: 0 <= i < |order| ==> order[i] in m && order[i] !in rest)
    && (forall k :: k in m && k !in rest ==> k in order)
    && Distinct(order)
  }

  lemma SubmapRemove<K, V>(m: map<K, V>, rest: map<K, V>, k: K)
    requires forall x :: x in rest ==> x in m && rest[x] == m[x]
    ensures forall x :: x in rest - {k} ==> x in m && (rest - {k})[x] == m[x]
  {
  }

  lemma DrainStart<K, V>(m: map<K, V>)
    ensures Drained(m, m, [])
  {
  }

  lemma DrainStep<K, V>(m: map<K, V>, rest: map<K, V>, order: seq<K>, k: K)
    requires Drained(m, rest, order) && k in rest
    ensures Drained(m, rest - {k}, order + [k])
  {
  }

  lemma DrainEnd<K, V>(m: map<K, V>, order: seq<K>)
    requires Drained(m, map[], order)
    ensures Enumerates(order, m.Keys)
  {
  }

  // ---------------------------------------------------------------------
  // Group lists

  function SectionKeys(gs: seq<SectionGroup>): seq<int>
  {
    seq(|gs|, i requires 0 <= i < |gs| => gs[i].sectionIdx)
  }

  function ChunkKeys(cgs: seq<ChunkGroup>): seq<Coordinate>
  {
    seq(|cgs|, i requires 0 <= i < |cgs| => cgs[i].chunkCoordinate)
  }

  function RegionCoordinates(rgs: seq<RegionGroup>): seq<Coordinate>
  {
    seq(|rgs|, i requires 0 <= i < |rgs| => rgs[i].regionCoordinate)
  }

  function RegionKeys(rgs: seq<RegionGroup>): seq<(Dimension, Coordinate)>
  {
    seq(|rgs|, i requires 0 <= i < |rgs| => (rgs[i].dimension, rgs[i].regionCoordinate))
  }

  lemma SectionKeysPush(gs: seq<SectionGroup>, g: SectionGroup)
    ensures SectionKeys(gs + [g]) == SectionKeys(gs) + [g.sectionIdx]
  {
  }

  lemma ChunkKeysPush(cgs: seq<ChunkGroup>, g: ChunkGroup)
    ensures ChunkKeys(cgs + [g]) == ChunkKeys(cgs) + [g.chunkCoordinate]
  {
  }

  lemma RegionCoordinatesPush(rgs: seq<RegionGroup>, g: RegionGroup)
    ensures RegionCoordinates(rgs + [g]) == RegionCoordinates(rgs) + [g.regionCoordinate]
  {
  }

  lemma RegionKeysAppend(a: seq<RegionGroup>, b: seq<RegionGroup>)
    ensures RegionKeys(a + b) == RegionKeys(a) + RegionKeys(b)
  {
  }

  /** `gs` lists every section of `sm` exactly once, with its operations. */
  ghost predicate ListsSections(sm: Sections, gs: seq<SectionGroup>)
  {
    && Enumerates(SectionKeys(gs), sm.Keys)
    && forall i :: 0 <= i < |gs| ==> gs[i].sectionIdx in sm && gs[i].operations == sm[gs[i].sectionIdx]
  }

  /** `cgs` lists every chunk of `cm` exactly once, with its sections. */
  ghost predicate ListsChunks(cm: Chunks, cgs: seq<ChunkGroup>)
  {
    && Enumerates(ChunkKeys(cgs), cm.Keys)
    && forall i :: 0 <= i < |cgs| ==>
         cgs[i].chunkCoordinate in cm && ListsSections(cm[cgs[i].chunkCoordinate], cgs[i].sectionOperations)
  }

  /** `rgs` lists every region of the dimension `d`, whose regions are `rm`, exactly once, with its chunks. */
  ghost predicate ListsDimension(d: Dimension, rm: Regions, rgs: seq<RegionGroup>)
  {
    && Enumerates(RegionCoordinates(rgs), rm.Keys)
    && forall i :: 0 <= i < |rgs| ==>
         rgs[i].dimension == d && rgs[i].regionCoordinate in rm
         && ListsChunks(rm[rgs[i].regionCoordinate], rgs[i].chunkOperations)
  }

  /** The (dimension, region) pairs of the buckets. */
  ghost function RegionPairs(m: Buckets): set<(Dimension, Coordinate)>
  {
    set d, r | d in m && r in m[d] :: (d, r)
  }

  /** The chunk map a region group was built from. */
  ghost function ChunksOf(m: Buckets, g: RegionGroup): Chunks
  {
    if g.dimension in m && g.regionCoordinate in m[g.dimension] then m[g.dimension][g.regionCoordinate] else map[]
  }

  /** `rgs` lists every (dimension, region) pair of `m` exactly once, with its chunks. */
  ghost predicate ListsRegions(m: Buckets, rgs: seq<RegionGroup>)
  {
    && Enumerates(RegionKeys(rgs), RegionPairs(m))
    && forall i :: 0 <= i < |rgs| ==> ListsChunks(ChunksOf(m, rgs[i]), rgs[i].chunkOperations)
  }

  function SectionsTotal(gs: seq<SectionGroup>): nat
  {
    if gs == [] then 0 else SectionsTotal(gs[..|gs| - 1]) + |gs[|gs| - 1].operations|
  }

  function ChunksTotal(cgs: seq<ChunkGroup>): nat
  {
    if cgs == [] then 0 else ChunksTotal(cgs[..|cgs| - 1]) + SectionsTotal(cgs[|cgs| - 1].sectionOperations)
  }

  /** The number of operations held by a list of region groups. */
  function RegionsTotal(rgs: seq<RegionGroup>): nat
  {
    if rgs == [] then 0 else RegionsTotal(rgs[..|rgs| - 1]) + ChunksTotal(rgs[|rgs| - 1].chunkOperations)
  }

  lemma {:induction false} RegionsTotalAppend(a: seq<RegionGroup>, b: seq<RegionGroup>)
    ensures RegionsTotal(a + b) == RegionsTotal(a) + RegionsTotal(b)
    decreases |b|
  {
    if b == [] {
      assert a + b == a;
    } else {
      assert (a + b)[..|a + b| - 1] == a + b[..|b| - 1];
      RegionsTotalAppend(a, b[..|b| - 1]);
    }
  }

  // ---------------------------------------------------------------------
  // Sections of one chunk

  ghost predicate SectionsProgress(sm: Sections, rest: Sections, gs: seq<SectionGroup>)
  {
    && Drained(sm, rest, SectionKeys(gs))
    && (forall i :: 0 <= i < |gs| ==> gs[i].sectionIdx in sm && gs[i].operations == sm[gs[i].sectionIdx])
    && SectionsTotal(gs) + SectionsSize(rest) == SectionsSize(sm)
  }

  lemma SectionsStep(sm: Sections, rest: Sections, gs: seq<SectionGroup>, s: int)
    requires SectionsProgress(sm, rest, gs) && s in rest
    ensures SectionsProgress(sm, rest - {s}, gs + [SectionGroup(s, rest[s])])
  {
    SizeRemove(rest, OpsWeight, s);
    DrainStep(sm, rest, SectionKeys(gs), s);
    var gs' := gs + [SectionGroup(s, rest[s])];
    assert gs'[..|gs|] == gs;
    SectionKeysPush(gs, SectionGroup(s, rest[s]));
  }

  lemma SectionsEnd(sm: Sections, gs: seq<SectionGroup>)
    requires SectionsProgress(sm, map[], gs)
    ensures ListsSections(sm, gs) && SectionsTotal(gs) == SectionsSize(sm)
  {
    DrainEnd(sm, SectionKeys(gs));
  }

  /** `for (section_idx, operations) in section_map`. */
  method SectionGroups(sm: Sections) returns (gs: seq<SectionGroup>)
    ensures ListsSections(sm, gs)
    ensures SectionsTotal(gs) == SectionsSize(sm)
  {
    var rest := sm;
    gs := [];
    DrainStart(sm);
    while rest != map[]
      invariant SectionsProgress(sm, rest, gs)
      decreases |rest|
    {
      ghost var some := Pick(rest);
      var s :| s in rest;
      SectionsStep(sm, rest, gs, s);
      gs, rest := gs + [SectionGroup(s, rest[s])], rest - {s};
    }
    SectionsEnd(sm, gs);
  }

  // ---------------------------------------------------------------------
  // Chunks of one region

  ghost predicate ChunksProgress(cm: Chunks, rest: Chunks, cgs: seq<ChunkGroup>)
  {
    && Drained(cm, rest, ChunkKeys(cgs))
    && (forall i :: 0 <= i < |cgs| ==>
          cgs[i].chunkCoordinate in cm && ListsSections(cm[cgs[i].chunkCoordinate], cgs[i].sectionOperations))
    && ChunksTotal(cgs) + ChunksSize(rest) == ChunksSize(cm)
  }

  lemma ChunksStep(cm: Chunks, rest: Chunks, cgs: seq<ChunkGroup>, c: Coordinate, gs: seq<SectionGroup>)
    requires ChunksProgress(cm, rest, cgs) && c in rest
    requires ListsSections(rest[c], gs) && SectionsTotal(gs) == SectionsSize(rest[c])
    ensures ChunksProgress(cm, rest - {c}, cgs + [ChunkGroup(c, gs)])
  {
    SizeRemove(rest, SectionsSize, c);
    DrainStep(cm, rest, ChunkKeys(cgs), c);
    var cgs' := cgs + [ChunkGroup(c, gs)];
    assert cgs'[..|cgs|] == cgs;
    ChunkKeysPush(cgs, ChunkGroup(c, gs));
  }

  lemma ChunksEnd(cm: Chunks, cgs: seq<ChunkGroup>)
    requires ChunksProgress(cm, map[], cgs)
    ensures ListsChunks(cm, cgs) && ChunksTotal(cgs) == ChunksSize(cm)
  {
    DrainEnd(cm, ChunkKeys(cgs));
  }

  /** `for (chunk_coordinate, section_map) in chunk_map`. */
  method ChunkGroups(cm: Chunks) returns (cgs: seq<ChunkGroup>)
    ensures ListsChunks(cm, cgs)
    ensures ChunksTotal(cgs) == ChunksSize(cm)
  {
    var rest := cm;
    cgs := [];
    DrainStart(cm);
    while rest != map[]
      invariant ChunksProgress(cm, rest, cgs)
      decreases |rest|
    {
      ghost var some := Pick(rest);
      var c :| c in rest;
      var sectionGroups := SectionGroups(rest[c]);
      ChunksStep(cm, rest, cgs, c, sectionGroups);
      cgs, rest := cgs + [ChunkGroup(c, sectionGroups)], rest - {c};
    }
    ChunksEnd(cm, cgs);
  }

  // ---------------------------------------------------------------------
  // Regions of one dimension

  ghost predicate DimensionProgress(d: Dimension, rm: Regions, rest: Regions, rgs: seq<RegionGroup>)
  {
    && Drained(rm, rest, RegionCoordinates(rgs))
    && (forall i :: 0 <= i < |rgs| ==>
          rgs[i].dimension == d && rgs[i].regionCoordinate in rm
          && ListsChunks(rm[rgs[i].regionCoordinate], rgs[i].chunkOperations))
    && RegionsTotal(rgs) + RegionsSize(rest) == RegionsSize(rm)
  }

  lemma DimensionStep(d: Dimension, rm: Regions, rest: Regions, rgs: seq<RegionGroup>, r: Coordinate, cgs: seq<ChunkGroup>)
    requires DimensionProgress(d, rm, rest, rgs) && r in rest
    requires ListsChunks(rest[r], cgs) && ChunksTotal(cgs) == ChunksSize(rest[r])
    ensures DimensionProgress(d, rm, rest - {r}, rgs + [RegionGroup(d, r, cgs)])
  {
    SizeRemove(rest, ChunksSize, r);
    DrainStep(rm, rest, RegionCoordinates(rgs), r);
    var rgs' := rgs + [RegionGroup(d, r, cgs)];
    assert rgs'[..|rgs|] == rgs;
    RegionCoordinatesPush(rgs, RegionGroup(d, r, cgs));
  }

  lemma DimensionEnd(d: Dimension, rm: Regions, rgs: seq<RegionGroup>)
    requires DimensionProgress(d, rm, map[], rgs)
    ensures ListsDimension(d, rm, rgs) && RegionsTotal(rgs) == RegionsSize(rm)
  {
    DrainEnd(rm, RegionCoordinates(rgs));
  }

  /** `for (region_coordinate, chunk_map) in region_map`, for the regions of one dimension. */
  method DimensionGroups(d: Dimension, rm: Regions) returns (rgs: seq<RegionGroup>)
    ensures ListsDimension(d, rm, rgs)
    ensures RegionsTotal(rgs) == RegionsSize(rm)
  {
    var rest := rm;
    rgs := [];
    DrainStart(rm);
    while rest != map[]
      invariant DimensionProgress(d, rm, rest, rgs)
      decreases |rest|
    {
      ghost var some := Pick(rest);
      var r :| r in rest;
      var chunkGroups := ChunkGroups(rest[r]);
      DimensionStep(d, rm, rest, rgs, r, chunkGroups);
      rgs, rest := rgs + [RegionGroup(d, r, chunkGroups)], rest - {r};
    }
    DimensionEnd(d, rm, rgs);
  }

  // ---------------------------------------------------------------------
  // All dimensions

  ghost predicate RegionsProgress(m: Buckets, rest: Buckets, rgs: seq<RegionGroup>)
  {
    && (forall d :: d in rest ==> d in m && rest[d] == m[d])
    && (forall i :: 0 <= i < |rgs| ==>
          rgs[i].dimension in m && rgs[i].dimension !in rest && rgs[i].regionCoordinate in m[rgs[i].dimension]
          && ListsChunks(m[rgs[i].dimension][rgs[i].regionCoordinate], rgs[i].chunkOperations))
    && (forall d, r :: d in m && d !in rest && r in m[d] ==> (d, r) in RegionKeys(rgs))
    && Distinct(RegionKeys(rgs))
    && RegionsTotal(rgs) + BucketsSize(rest) == BucketsSize(m)
  }

  lemma RegionsStep(m: Buckets, rest: Buckets, rgs: seq<RegionGroup>, d: Dimension, groups: seq<RegionGroup>)
    requires RegionsProgress(m, rest, rgs) && d in rest
    requires ListsDimension(d, rest[d], groups) && RegionsTotal(groups) == RegionsSize(rest[d])
    ensures RegionsProgress(m, rest - {d}, rgs + groups)
  {
    AppendTotal(m, rest, rgs, d, groups);
    SubmapRemove(m, rest, d);
    AppendListed(m, rest, rgs, d, groups);
    AppendCovers(m, rest, rgs, d, groups);
    AppendDistinct(m, rest, rgs, d, groups);
  }

  lemma AppendCovers(m: Buckets, rest: Buckets, rgs: seq<RegionGroup>, d: Dimension, groups: seq<RegionGroup>)
    requires RegionsProgress(m, rest, rgs) && d in rest && ListsDimension(d, rest[d], groups)
    ensures forall d', r :: d' in m && d' !in rest - {d} && r in m[d'] ==> (d', r) in RegionKeys(rgs + groups)
  {
    RegionKeysAppend(rgs, groups);
    forall d', r | d' in m && d' !in rest - {d} && r in m[d']
      ensures (d', r) in RegionKeys(rgs + groups)
    {
      if d' == d {
        DimensionCovered(d, rest[d], rgs, groups, r);
      } else {
        assert (d', r) in RegionKeys(rgs);
      }
    }
  }

  lemma AppendTotal(m: Buckets, rest: Buckets, rgs: seq<RegionGroup>, d: Dimension, groups: seq<RegionGroup>)
    requires RegionsProgress(m, rest, rgs) && d in rest && RegionsTotal(groups) == RegionsSize(rest[d])
    ensures RegionsTotal(rgs + groups) + BucketsSize(rest - {d}) == BucketsSize(m)
  {
    SizeRemove(rest, RegionsSize, d);
    RegionsTotalAppend(rgs, groups);
  }

  lemma AppendListed(m: Buckets, rest: Buckets, rgs: seq<RegionGroup>, d: Dimension, groups: seq<RegionGroup>)
    requires RegionsProgress(m, rest, rgs) && d in rest && ListsDimension(d, rest[d], groups)
    ensures forall i :: 0 <= i < |rgs + groups| ==>
      (rgs + groups)[i].dimension in m && (rgs + groups)[i].dimension !in rest - {d}
      && (rgs + groups)[i].regionCoordinate in m[(rgs + groups)[i].dimension]
      && ListsChunks(m[(rgs + groups)[i].dimension][(rgs + groups)[i].regionCoordinate], (rgs + groups)[i].chunkOperations)
  {
    forall i | 0 <= i < |rgs + groups|
      ensures (rgs + groups)[i].dimension in m && (rgs + groups)[i].dimension !in rest - {d}
      && (rgs + groups)[i].regionCoordinate in m[(rgs + groups)[i].dimension]
      && ListsChunks(m[(rgs + groups)[i].dimension][(rgs + groups)[i].regionCoordinate], (rgs + groups)[i].chunkOperations)
    {
      if i >= |rgs| {
        assert (rgs + groups)[i] == groups[i - |rgs|];
      } else {
        assert (rgs + groups)[i] == rgs[i];
      }
    }
  }

  lemma DimensionCovered(d: Dimension, rm: Regions, rgs: seq<RegionGroup>, groups: seq<RegionGroup>, r: Coordinate)
    requires ListsDimension(d, rm, groups) && r in rm
    ensures (d, r) in RegionKeys(rgs + groups)
  {
    assert r in RegionCoordinates(groups);
    var j :| 0 <= j < |groups| && RegionCoordinates(groups)[j] == r;
    assert (rgs + groups)[|rgs| + j] == groups[j];
    assert RegionKeys(rgs + groups)[|rgs| + j] == (d, r);
  }

  lemma AppendDistinct(m: Buckets, rest: Buckets, rgs: seq<RegionGroup>, d: Dimension, groups: seq<RegionGroup>)
    requires RegionsProgress(m, rest, rgs) && d in rest && ListsDimension(d, rest[d], groups)
    ensures Distinct(RegionKeys(rgs + groups))
  {
    DistinctConcat(rgs, groups, d);
  }

  lemma DistinctConcat(rgs: seq<RegionGroup>, groups: seq<RegionGroup>, d: Dimension)
    requires Distinct(RegionKeys(rgs)) && forall i :: 0 <= i < |rgs| ==> rgs[i].dimension != d
    requires forall j :: 0 <= j < |groups| ==> groups[j].dimension == d
    requires Distinct(RegionCoordinates(groups))
    ensures Distinct(RegionKeys(rgs + groups))
  {
    var all := rgs + groups;
    forall i, j | 0 <= i < j < |all|
      ensures RegionKeys(all)[i] != RegionKeys(all)[j]
    {
      if i >= |rgs| {
        assert all[i] == groups[i - |rgs|] && all[j] == groups[j - |rgs|];
        assert RegionCoordinates(groups)[i - |rgs|] != RegionCoordinates(groups)[j - |rgs|];
      } else if j >= |rgs| {
        assert all[i] == rgs[i] && all[j] == groups[j - |rgs|];
      } else {
        assert all[i] == rgs[i] && all[j] == rgs[j];
        assert RegionKeys(rgs)[i] != RegionKeys(rgs)[j];
      }
    }
  }

  lemma RegionsEnd(m: Buckets, rgs: seq<RegionGroup>)
    requires RegionsProgress(m, map[], rgs)
    ensures ListsRegions(m, rgs) && RegionsTotal(rgs) == BucketsSize(m)
  {
    forall i | 0 <= i < |RegionKeys(rgs)|
      ensures RegionKeys(rgs)[i] in RegionPairs(m)
    {
      assert RegionKeys(rgs)[i] == (rgs[i].dimension, rgs[i].regionCoordinate);
    }
    forall k | k in RegionPairs(m)
      ensures k in RegionKeys(rgs)
    {
      var d, r :| d in m && r in m[d] && k == (d, r);
    }
    forall i | 0 <= i < |rgs|
      ensures ListsChunks(ChunksOf(m, rgs[i]), rgs[i].chunkOperations)
    {
    }
  }

  /** `for (dimension, region_map) in map`. */
  method RegionGroups(m: Buckets) returns (rgs: seq<RegionGroup>)
    ensures ListsRegions(m, rgs)
    ensures RegionsTotal(rgs) == BucketsSize(m)
  {
    var rest := m;
    rgs := [];
    while rest != map[]
      invariant RegionsProgress(m, rest, rgs)
      decreases |rest|
    {
      ghost var some := Pick(rest);
      var d :| d in rest;
      var groups := DimensionGroups(d, rest[d]);
      RegionsStep(m, rest, rgs, d, groups);
      rgs, rest := rgs + groups, rest - {d};
    }
    RegionsEnd(m, rgs);
  }

  // ---------------------------------------------------------------------
  // group_operations

  /**
   * `group_operations`: every (dimension, region), chunk and section key of
   * the filed operations is listed exactly once, each section group holds
   * the bucket of its key, and no operation is lost or duplicated.
   */
  method GroupOperations(ops: seq<OperationData>) returns (rgs: seq<RegionGroup>)
    ensures ListsRegions(Bucketed(ops), rgs)
    ensures RegionsTotal(rgs) == |ops|
  {
    var m: Buckets := map[];
    for i := 0 to |ops|
      invariant m == Bucketed(ops[..i])
    {
      assert ops[..i + 1][..i] == ops[..i];
      var data := ops[i];
      var c := InitCoords(data.operation);
      var regionCoords, chunkCoords, sectionIdx := AsRegion(c), AsChunk(c), c.Y() / 16;
      var regionMap := if data.dimension in m then m[data.dimension] else map[];
      var chunkMap := if regionCoords in regionMap then regionMap[regionCoords] else map[];
      var sectionMap := if chunkCoords in chunkMap then chunkMap[chunkCoords] else map[];
      var bucket := if sectionIdx in sectionMap then sectionMap[sectionIdx] else [];
      m := m[data.dimension := regionMap[regionCoords := chunkMap[chunkCoords := sectionMap[sectionIdx := bucket + [data.operation]]]]];
    }
    assert ops[..|ops|] == ops;
    rgs := RegionGroups(m);
    BucketedSize(ops);
  }

  /**
   * Every section group of the result holds exactly the input operations
   * filed under its dimension, region, chunk and section index, in their
   * input order.
   */
  lemma GroupsHoldFiltered(ops: seq<OperationData>, rgs: seq<RegionGroup>, i: int, j: int, l: int)
    requires ListsRegions(Bucketed(ops), rgs)
    requires 0 <= i < |rgs| && 0 <= j < |rgs[i].chunkOperations|
    requires 0 <= l < |rgs[i].chunkOperations[j].sectionOperations|
    ensures var rg := rgs[i]; var cg := rg.chunkOperations[j]; var sg := cg.sectionOperations[l];
      && sg.operations == Filtered(ops, Key(rg.dimension, rg.regionCoordinate, cg.chunkCoordinate, sg.sectionIdx))
      && sg.operations != []
  {
    var rg := rgs[i]; var cg := rg.chunkOperations[j]; var sg := cg.sectionOperations[l];
    var k := Key(rg.dimension, rg.regionCoordinate, cg.chunkCoordinate, sg.sectionIdx);
    BucketedFiltered(ops, k);
    BucketsNonEmpty(ops, k);
  }
}
