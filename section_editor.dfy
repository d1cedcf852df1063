/**
 * The standalone block editor of the second crate: it sets one block of one
 * chunk of a region file. The chunk's tag tree is parsed, the section holding
 * the block is decoded into its section types, one slot is rewritten and the
 * block states re-packed, and the section goes back to the front of the
 * chunk's section list, serialised by the editor's own `to_value` rules.
 */
module SectionEditor {
  import opened Ints
  import opened Arith
  import opened Errors
  import opened Nbt
  import opened PackedData
  import RegionRules
  import Operations
  import Worlds

  // ---- the section types ----

  /** `BlockPalette`: a palette entry; a block without properties has the empty map. */
  datatype BlockPalette = BlockPalette(name: string, properties: map<string, string>)

  /** `BlockStates`: packed palette indexes (an absent tag reads as no words) and the palette. */
  datatype BlockStates = BlockStates(data: seq<int>, palette: seq<BlockPalette>)

  datatype Biomes = Biomes(data: seq<int>, palette: seq<string>)

  /** `Section`: absent light arrays read as empty ones. */
  datatype Section = Section(skyLight: seq<int>, blockLight: seq<int>, y: i8, biomes: Biomes, blockStates: BlockStates)

  /**
   * `ModifyOperation`: the world folder, the region and the chunk to edit,
   * the block coordinates (x, z local to the chunk or not: only their
   * remainders by 16 are used) and the block to place.
   */
  datatype ModifyOperation = ModifyOperation(
    worldPath: Worlds.Path,
    region: (nat, nat),
    chunk: (nat, nat),
    coordinates: (nat, nat, nat),
    block: BlockPalette)

  // ---- the region file path ----

  function DigitChar(d: nat): (c: char)
    requires d < 10
    ensures '0' <= c <= '9' && c as int - '0' as int == d
  {
    ('0' as int + d) as char
  }

  predicate AllDigits(s: string)
  {
    forall i :: 0 <= i < |s| ==> '0' <= s[i] <= '9'
  }

  /** `format!("{}", n)` on an unsigned integer: its decimal digits, most significant first. */
  function Decimal(n: nat): (s: string)
    ensures |s| >= 1 && AllDigits(s)
    decreases n
  {
    if n < 10 then [DigitChar(n)] else Decimal(n / 10) + [DigitChar(n % 10)]
  }

  /** The number a string of decimal digits denotes. */
  function DecimalValue(s: string): nat
    requires AllDigits(s)
    decreases |s|
  {
    if s == [] then 0 else 10 * DecimalValue(s[..|s| - 1]) + (s[|s| - 1] as int - '0' as int)
  }

  lemma {:induction false} DecimalRoundTrip(n: nat)
    ensures DecimalValue(Decimal(n)) == n
    decreases n
  {
    if n >= 10 {
      DecimalRoundTrip(n / 10);
      var s := Decimal(n);
      assert s[..|s| - 1] == Decimal(n / 10);
    }
  }

  /** The file name `r.{rx}.{rz}.mca` of a region. */
  function RegionFileName(rx: nat, rz: nat): string
  {
    "r." + Decimal(rx) + "." + Decimal(rz) + ".mca"
  }

  /** `get_region_path`: the region file in the world's `region` folder; the dimension is not consulted. */
  function RegionPath(op: ModifyOperation): (p: Worlds.Path)
    ensures |p| == |op.worldPath| + 2 && p[..|op.worldPath| + 1] == Worlds.DimensionPath(Operations.Overworld, op.worldPath)
    ensures p[|p| - 1] == RegionFileName(op.region.0, op.region.1)
  {
    op.worldPath + ["region", RegionFileName(op.region.0, op.region.1)]
  }

  /** In a region file name, the first `.` after `r.` ends the x digits. */
  lemma DotIndex(digits: string, rz: string, i: nat)
    requires AllDigits(digits) && i <= |digits|
    ensures var name := "r." + digits + "." + rz + ".mca";
      2 + i < |name| && (name[2 + i] == '.' <==> i == |digits|)
  {
    var name := "r." + digits + "." + rz + ".mca";
    if i < |digits| {
      assert name[2 + i] == digits[i];
    } else {
      assert name[2 + i] == '.';
    }
  }

  /** Distinct regions have distinct file names, so the editor opens the file of the region it names. */
  lemma RegionFileNamesDistinct(a: nat, b: nat, c: nat, d: nat)
    ensures RegionFileName(a, b) == RegionFileName(c, d) <==> a == c && b == d
  {
    var n1, n2 := RegionFileName(a, b), RegionFileName(c, d);
    if n1 == n2 {
      var A, B, C, D := Decimal(a), Decimal(b), Decimal(c), Decimal(d);
      assert n1 == "r." + A + "." + B + ".mca";
      assert n2 == "r." + C + "." + D + ".mca";
      var m := if |A| < |C| then |A| else |C|;
      DotIndex(A, B, m);
      DotIndex(C, D, m);
      assert A == n1[2..2 + |A|] == n2[2..2 + |C|] == C;
      assert B == n1[3 + |A|..|n1| - 4] == n2[3 + |C|..|n2| - 4] == D;
      DecimalRoundTrip(a);
      DecimalRoundTrip(b);
      DecimalRoundTrip(c);
      DecimalRoundTrip(d);
    }
  }

  // ---- serialisation: `to_value` and the derived deserialiser ----

  function PropertiesValue(p: map<string, string>): (r: Compound)
    ensures r.Keys == p.Keys
  {
    map k | k in p :: TString(p[k])
  }

  /** `BlockPalette::to_value`: the name, and the properties only when there are any. */
  function PaletteEntryValue(p: BlockPalette): (r: Compound)
    ensures r.Keys <= {"Name", "Properties"} && "Name" in r && r["Name"] == TString(p.name)
    ensures "Properties" in r <==> p.properties != map[]
  {
    var named := map["Name" := TString(p.name)];
    if p.properties != map[] then named["Properties" := TCompound(PropertiesValue(p.properties))] else named
  }

  function PaletteValues(ps: seq<BlockPalette>): (r: seq<Compound>)
    ensures |r| == |ps|
  {
    if ps == [] then [] else [PaletteEntryValue(ps[0])] + PaletteValues(ps[1..])
  }

  /** `BlockStates::to_value`: the palette, and the data only when it holds words. */
  function BlockStatesValue(s: BlockStates): (r: Compound)
    ensures r.Keys <= {"data", "palette"} && "palette" in r
    ensures "data" in r <==> s.data != []
  {
    var listed := map["palette" := TList(CompoundList(PaletteValues(s.palette)))];
    if s.data != [] then listed["data" := TLongArray(s.data)] else listed
  }

  /** `Biomes::to_value`: the palette, and the data only when it holds words. */
  function BiomesValue(b: Biomes): (r: Compound)
    ensures r.Keys <= {"data", "palette"} && "palette" in r
    ensures "data" in r <==> b.data != []
  {
    var listed := map["palette" := TList(StringList(b.palette))];
    if b.data != [] then listed["data" := TLongArray(b.data)] else listed
  }

  /** `Section::to_value`: Y and both sub-compounds, and each light array only when it is non-empty. */
  function SectionValue(s: Section): (r: Compound)
    ensures r.Keys <= {"SkyLight", "BlockLight", "Y", "biomes", "block_states"}
    ensures "Y" in r && r["Y"] == TByte(s.y) && "biomes" in r && "block_states" in r
    ensures "SkyLight" in r <==> s.skyLight != []
    ensures "BlockLight" in r <==> s.blockLight != []
  {
    var light := if s.skyLight != [] then map["SkyLight" := TByteArray(s.skyLight)] else map[];
    var lights := if s.blockLight != [] then light["BlockLight" := TByteArray(s.blockLight)] else light;
    lights["Y" := TByte(s.y)]["biomes" := TCompound(BiomesValue(s.biomes))]["block_states" := TCompound(BlockStatesValue(s.blockStates))]
  }

  predicate AllStrings(c: Compound)
  {
    forall k :: k in c ==> c[k].TString?
  }

  /** A string map read from a compound of strings. */
  function PropertiesFrom(c: Compound): Option<map<string, string>>
  {
    if AllStrings(c) then Some(map k | k in c :: c[k].s) else None
  }

  /** Deserialising a `BlockPalette`: `Name` is required, absent `Properties` read as none. */
  function PaletteEntryFrom(c: Compound): Option<BlockPalette>
  {
    if "Name" !in c || !c["Name"].TString? then None
    else if "Properties" !in c then Some(BlockPalette(c["Name"].s, map[]))
    else if !c["Properties"].TCompound? then None
    else match PropertiesFrom(c["Properties"].fields)
      case None => None
      case Some(p) => Some(BlockPalette(c["Name"].s, p))
  }

  function PaletteFrom(cs: seq<Compound>): Option<seq<BlockPalette>>
  {
    if cs == [] then Some([])
    else match (PaletteEntryFrom(cs[0]), PaletteFrom(cs[1..]))
      case (Some(p), Some(ps)) => Some([p] + ps)
      case _ => None
  }

  /** A `#[serde(default)]` long array: absent reads as no words. */
  function LongsFrom(c: Compound, key: string): Option<seq<int>>
  {
    if key !in c then Some([]) else if c[key].TLongArray? then Some(c[key].longs) else None
  }

  /** A `#[serde(default)]` byte array: absent reads as empty. */
  function BytesFrom(c: Compound, key: string): Option<seq<int>>
  {
    if key !in c then Some([]) else if c[key].TByteArray? then Some(c[key].bytes) else None
  }

  function BlockStatesFrom(c: Compound): Option<BlockStates>
  {
    var palette :=
      if "palette" !in c then Some([])
      else match c["palette"]
        case TList(EmptyList) => Some([])
        case TList(CompoundList(cs)) => PaletteFrom(cs)
        case _ => None;
    match (LongsFrom(c, "data"), palette)
    case (Some(data), Some(ps)) => Some(BlockStates(data, ps))
    case _ => None
  }

  function BiomesFrom(c: Compound): Option<Biomes>
  {
    var palette :=
      if "palette" !in c then Some([])
      else match c["palette"]
        case TList(EmptyList) => Some([])
        case TList(StringList(ss)) => Some(ss)
        case _ => None;
    match (LongsFrom(c, "data"), palette)
    case (Some(data), Some(ps)) => Some(Biomes(data, ps))
    case _ => None
  }

  /** `from_value::<Section>`: Y, `biomes` and `block_states` are required, other keys are ignored. */
  function SectionFrom(c: Compound): Option<Section>
  {
    if "Y" !in c || !c["Y"].TByte? || "biomes" !in c || !c["biomes"].TCompound?
       || "block_states" !in c || !c["block_states"].TCompound? then None
    else match (BytesFrom(c, "SkyLight"), BytesFrom(c, "BlockLight"),
                BiomesFrom(c["biomes"].fields), BlockStatesFrom(c["block_states"].fields))
      case (Some(sky), Some(blockLight), Some(biomes), Some(states)) =>
        Some(Section(sky, blockLight, c["Y"].b, biomes, states))
      case _ => None
  }

  lemma PaletteEntryRoundTrip(p: BlockPalette)
    ensures PaletteEntryFrom(PaletteEntryValue(p)) == Some(p)
  {
    if p.properties != map[] {
      var c := PaletteEntryValue(p);
      assert c["Properties"] == TCompound(PropertiesValue(p.properties));
      assert (map k | k in PropertiesValue(p.properties) :: PropertiesValue(p.properties)[k].s) == p.properties;
    }
  }

  lemma {:induction false} PaletteRoundTrip(ps: seq<BlockPalette>)
    ensures PaletteFrom(PaletteValues(ps)) == Some(ps)
  {
    if ps != [] {
      PaletteEntryRoundTrip(ps[0]);
      PaletteRoundTrip(ps[1..]);
      assert PaletteValues(ps)[1..] == PaletteValues(ps[1..]);
      assert [ps[0]] + ps[1..] == ps;
    }
  }

  lemma BlockStatesRoundTrip(s: BlockStates)
    ensures BlockStatesFrom(BlockStatesValue(s)) == Some(s)
  {
    PaletteRoundTrip(s.palette);
  }

  lemma BiomesRoundTrip(b: Biomes)
    ensures BiomesFrom(BiomesValue(b)) == Some(b)
  {
  }

  /** The tags of a section value, as the deserialiser looks them up. */
  lemma SectionValueTags(s: Section)
    ensures var v := SectionValue(s);
      v["biomes"] == TCompound(BiomesValue(s.biomes)) &&
      v["block_states"] == TCompound(BlockStatesValue(s.blockStates)) &&
      BytesFrom(v, "SkyLight") == Some(s.skyLight) && BytesFrom(v, "BlockLight") == Some(s.blockLight)
  {
  }

  /**
   * The omission rules lose nothing: every field `to_value` leaves out is one
   * the deserialiser fills in with its default, so a section read back from
   * its value is the section written.
   */
  lemma SectionRoundTrip(s: Section)
    ensures SectionFrom(SectionValue(s)) == Some(s)
  {
    BlockStatesRoundTrip(s.blockStates);
    BiomesRoundTrip(s.biomes);
    SectionValueTags(s);
  }

  // ---- the bit width of the block states ----

  /** `n.next_power_of_two().trailing_zeros()`: the exponent of the least power of two that is at least `n`. */
  function CeilLog2(n: nat): nat
    decreases n
  {
    if n <= 1 then 0 else 1 + CeilLog2((n + 1) / 2)
  }

  lemma {:induction false} CeilLog2IsLeast(n: nat)
    ensures n <= Pow2(CeilLog2(n))
    ensures CeilLog2(n) > 0 ==> Pow2(CeilLog2(n) - 1) < n
    decreases n
  {
    if n > 1 {
      CeilLog2IsLeast((n + 1) / 2);
    }
  }

  /** `palette.len().next_power_of_two().trailing_zeros().max(4)`. */
  function SectionBitCount(len: nat): nat
  {
    var k := CeilLog2(len);
    if k < 4 then 4 else k
  }

  /** The width is at least 4 and otherwise the least `b` with `len <= 2^b`. */
  lemma SectionBitCountIsLeastWidth(len: nat)
    ensures 4 <= SectionBitCount(len) && len <= Pow2(SectionBitCount(len))
    ensures SectionBitCount(len) > 4 ==> Pow2(SectionBitCount(len) - 1) < len
  {
    CeilLog2IsLeast(len);
    if CeilLog2(len) < 4 {
      Pow2Monotone(CeilLog2(len), 4);
    }
  }

  /** Two widths meeting the least-width characterisation are equal. */
  lemma LeastWidthUnique(len: nat, b: nat, c: nat)
    requires 4 <= b && len <= Pow2(b) && (b > 4 ==> Pow2(b - 1) < len)
    requires 4 <= c && len <= Pow2(c) && (c > 4 ==> Pow2(c - 1) < len)
    ensures b == c
  {
    if b < c {
      Pow2Monotone(b, c - 1);
    } else if c < b {
      Pow2Monotone(c, b - 1);
    }
  }

  lemma SectionBitCountMonotone(a: nat, b: nat)
    requires a <= b
    ensures SectionBitCount(a) <= SectionBitCount(b)
  {
    SectionBitCountIsLeastWidth(a);
    SectionBitCountIsLeastWidth(b);
    if SectionBitCount(b) < SectionBitCount(a) {
      Pow2Monotone(SectionBitCount(b), SectionBitCount(a) - 1);
    }
  }

  /**
   * The editor's width is the block table of the region code up to 8192
   * entries, which covers every section palette; longer palettes get wider
   * than the table's 13 bits.
   */
  lemma SectionBitCountIsBlockTable(len: nat)
    ensures SectionBitCount(len) == RegionRules.BlockBitCount(len) <==> len <= 8192
  {
    RegionRules.PowersUpTo12();
    SectionBitCountIsLeastWidth(len);
    RegionRules.BlockBitCountIsLeastWidth(len);
    assert Pow2(13) == 8192;
    if len <= 4096 {
      LeastWidthUnique(len, SectionBitCount(len), RegionRules.BlockBitCount(len));
    } else if len <= 8192 {
      LeastWidthUnique(len, SectionBitCount(len), 13);
    } else if SectionBitCount(len) <= 13 {
      Pow2Monotone(SectionBitCount(len), 13);
    }
  }

  /** The block table's test values hold for the editor's width too, and a 8193-entry palette takes 14 bits. */
  lemma SectionBitCountExamples()
    ensures SectionBitCount(0) == 4 && SectionBitCount(58) == 6 && SectionBitCount(1754) == 11
    ensures SectionBitCount(8193) == 14
  {
    RegionRules.BitCountExamples();
    SectionBitCountIsBlockTable(0);
    SectionBitCountIsBlockTable(58);
    SectionBitCountIsBlockTable(1754);
    RegionRules.PowersUpTo12();
    assert Pow2(14) == 16384 && Pow2(13) == 8192;
    SectionBitCountIsLeastWidth(8193);
    LeastWidthUnique(8193, SectionBitCount(8193), 14);
  }

  /** Palettes shorter than 2^62 entries, which every vector of palette entries is. */
  const MAX_PALETTE: nat := 0x4000_0000_0000_0000

  lemma SectionBitCountBound(len: nat)
    requires len <= MAX_PALETTE
    ensures SectionBitCount(len) <= 62
  {
    SectionBitCountIsLeastWidth(len);
    Two64();
    assert Pow2(63) == 2 * Pow2(62);
    if SectionBitCount(len) > 62 {
      Pow2Monotone(62, SectionBitCount(len) - 1);
    }
  }

  // ---- modify_section ----

  const SECTION_VOLUME: nat := RegionRules.BLOCK_DATA_LEN

  /**
   * The decode step as written: every field of every word of `data` at the
   * width of the current palette, the first 4096 kept. A section stored
   * without `data` (a palette of one block) yields no entries at all.
   */
  function OldIndexesAsWritten(s: BlockStates): (xs: seq<int>)
    requires |s.palette| <= MAX_PALETTE
    ensures |xs| <= SECTION_VOLUME
  {
    SectionBitCountBound(|s.palette|);
    Decoded(SECTION_VOLUME, SectionBitCount(|s.palette|), Some(s.data))
  }

  /**
   * The decode step as intended: a section without `data` has palette index
   * 0 in every slot, which is how `decode_data` reads an absent array.
   */
  function OldIndexes(s: BlockStates): (xs: seq<int>)
    requires |s.palette| <= MAX_PALETTE
    ensures |xs| <= SECTION_VOLUME
  {
    SectionBitCountBound(|s.palette|);
    Decoded(SECTION_VOLUME, SectionBitCount(|s.palette|), if s.data == [] then None else Some(s.data))
  }

  /**
   * The block's slot as written: `x % 16 + (z % 16) * 16 + y * 256` with the
   * local `y = coordinates.1 - section.y * 16`, where the product is an i8
   * product (wrapping, as a release build computes it).
   */
  function SlotAsWritten(c: (nat, nat, nat), sectionY: i8): int
  {
    c.0 % 16 + (c.2 % 16) * 16 + (c.1 - RegionRules.WrapI8(sectionY * 16)) * 256
  }

  /** The block's slot with the section's base height computed without overflow. */
  function Slot(c: (nat, nat, nat), sectionY: i8): int
  {
    c.0 % 16 + (c.2 % 16) * 16 + (c.1 - sectionY * 16) * 256
  }

  /**
   * For a coordinate inside the section, the slot is the usual
   * `x + 16z + 256y` of the local coordinates, a slot of the section, and
   * different coordinates of the section have different slots.
   */
  lemma SlotInSection(c: (nat, nat, nat), d: (nat, nat, nat), sectionY: i8)
    requires 16 * sectionY <= c.1 < 16 * sectionY + 16 && 16 * sectionY <= d.1 < 16 * sectionY + 16
    ensures 0 <= Slot(c, sectionY) < SECTION_VOLUME && Slot(c, sectionY) == c.0 % 16 + 16 * (c.2 % 16) + 256 * (c.1 % 16)
    ensures Slot(c, sectionY) == Slot(d, sectionY) <==> c.0 % 16 == d.0 % 16 && c.1 == d.1 && c.2 % 16 == d.2 % 16
  {
    DivModUnique(c.1, 16, sectionY, c.1 - 16 * sectionY);
    var l1, l2 := c.1 - 16 * sectionY, d.1 - 16 * sectionY;
    if Slot(c, sectionY) == Slot(d, sectionY) {
      DivModUnique(Slot(c, sectionY), 16, (c.2 % 16) + 16 * l1, c.0 % 16);
      DivModUnique(Slot(d, sectionY), 16, (d.2 % 16) + 16 * l2, d.0 % 16);
      DivModUnique((c.2 % 16) + 16 * l1, 16, l1, c.2 % 16);
      DivModUnique((d.2 % 16) + 16 * l2, 16, l2, d.2 % 16);
    }
  }

  /** Below section 8 and from section -8 up, the i8 product does not wrap and both slots agree. */
  lemma SlotsAgree(c: (nat, nat, nat), sectionY: i8)
    requires -8 <= sectionY < 8
    ensures SlotAsWritten(c, sectionY) == Slot(c, sectionY)
  {
  }

  /** The palette after interning: the block is appended exactly when it is not already listed. */
  function Interned(palette: seq<BlockPalette>, block: BlockPalette): (r: seq<BlockPalette>)
    ensures block in r && palette <= r && |palette| <= |r| <= |palette| + 1
    ensures |r| == |palette| + 1 <==> block !in palette
  {
    if block in palette then palette else palette + [block]
  }

  /** `iter().position(|b| b == block)`: the first index holding the block. */
  function Position(ps: seq<BlockPalette>, block: BlockPalette): (i: nat)
    requires block in ps
    ensures i < |ps| && ps[i] == block && forall j :: 0 <= j < i ==> ps[j] != block
  {
    if ps[0] == block then 0 else 1 + Position(ps[1..], block)
  }

  /** What the corrected `modify_section` demands: a palette a vector can hold and the block's slot among the decoded ones. */
  predicate Modifiable(op: ModifyOperation, s: Section)
  {
    |s.blockStates.palette| < MAX_PALETTE && 0 <= Slot(op.coordinates, s.y) < |OldIndexes(s.blockStates)|
  }

  /** The palette indexes to re-encode: the decoded ones with the block's slot pointing at the block. */
  function NewIndexes(op: ModifyOperation, s: Section): seq<int>
    requires Modifiable(op, s)
  {
    var palette := Interned(s.blockStates.palette, op.block);
    OldIndexes(s.blockStates)[Slot(op.coordinates, s.y) := Position(palette, op.block)]
  }

  /** The block states `modify_section` writes back: the interned palette and the new indexes packed at its width. */
  function ModifiedStates(op: ModifyOperation, s: Section): BlockStates
    requires Modifiable(op, s)
  {
    var palette := Interned(s.blockStates.palette, op.block);
    SectionBitCountBound(|palette|);
    BlockStates(Pack(NewIndexes(op, s), SectionBitCount(|palette|)), palette)
  }

  function Modified(op: ModifyOperation, s: Section): Section
    requires Modifiable(op, s)
  {
    s.(blockStates := ModifiedStates(op, s))
  }

  /** The new indexes fit the new width: decoded ones fit the old, narrower width and the block's position is below the palette length. */
  lemma NewIndexesFit(op: ModifyOperation, s: Section)
    requires Modifiable(op, s)
    ensures Fits(NewIndexes(op, s), SectionBitCount(|Interned(s.blockStates.palette, op.block)|))
  {
    var st := s.blockStates;
    var palette := Interned(st.palette, op.block);
    var b, b' := SectionBitCount(|st.palette|), SectionBitCount(|palette|);
    SectionBitCountBound(|st.palette|);
    DecodedShape(SECTION_VOLUME, b, if st.data == [] then None else Some(st.data));
    SectionBitCountMonotone(|st.palette|, |palette|);
    Pow2Monotone(b, b');
    SectionBitCountIsLeastWidth(|palette|);
    var xs, zs := OldIndexes(st), NewIndexes(op, s);
    forall i | 0 <= i < |zs|
      ensures 0 <= zs[i] < Pow2(b')
    {
      if i != Slot(op.coordinates, s.y) {
        assert zs[i] == xs[i] && 0 <= xs[i] < Pow2(b);
      }
    }
  }

  /**
   * `modify_section`, corrected: decodes the block states, interns the block,
   * points the block's slot at it, re-packs the indexes at the width of the
   * new palette and serialises the section.
   */
  method ModifySection(op: ModifyOperation, s: Section) returns (v: Compound)
    requires Modifiable(op, s)
    ensures v == SectionValue(Modified(op, s))
  {
    var state := s.blockStates;
    var bitCount := SectionBitCount(|state.palette|);
    SectionBitCountBound(|state.palette|);
    var oldIndexes := DecodeData(SECTION_VOLUME, bitCount, if state.data == [] then None else Some(state.data));
    var palette := state.palette;
    if op.block !in palette {
      palette := palette + [op.block];
    }
    var index := Slot(op.coordinates, s.y);
    oldIndexes := oldIndexes[index := Position(palette, op.block)];
    var newBitCount := SectionBitCount(|palette|);
    SectionBitCountBound(|palette|);
    NewIndexesFit(op, s);
    var newBlockdata := PackWords(oldIndexes, newBitCount);
    v := SectionValue(s.(blockStates := BlockStates(newBlockdata, palette)));
  }

  /**
   * Reading the modified section back with the same decoding: the block's
   * slot names the block, every other decoded slot keeps its index, and the
   * entries the old palette had are where they were, so each other slot
   * still names the block it named.
   */
  lemma ModifiedReadsBack(op: ModifyOperation, s: Section)
    requires Modifiable(op, s)
    ensures var t := ModifiedStates(op, s);
      var xs, slot := OldIndexes(s.blockStates), Slot(op.coordinates, s.y);
      |t.palette| <= MAX_PALETTE && |OldIndexes(t)| >= |xs| &&
      0 <= OldIndexes(t)[slot] < |t.palette| && t.palette[OldIndexes(t)[slot]] == op.block &&
      (forall j :: 0 <= j < |xs| && j != slot ==> OldIndexes(t)[j] == xs[j]) &&
      (forall i :: 0 <= i < |s.blockStates.palette| ==> t.palette[i] == s.blockStates.palette[i])
  {
    var t := ModifiedStates(op, s);
    var zs := NewIndexes(op, s);
    var b' := SectionBitCount(|t.palette|);
    SectionBitCountBound(|t.palette|);
    NewIndexesFit(op, s);
    assert Pack(zs, b') != [];
    DecodeEncodePadded(zs, b', SECTION_VOLUME);
    assert OldIndexes(t) == Decoded(SECTION_VOLUME, b', Some(Pack(zs, b')));
    assert forall j :: 0 <= j < |zs| ==> OldIndexes(t)[j] == zs[j];
  }

  /**
   * The re-encoded data holds one word per `64 / b` indexes, the last word
   * kept when partly filled, and each word is an i64 whose bits above its
   * last whole entry are zero: no entry crosses a word.
   */
  lemma ModifiedDataPacked(op: ModifyOperation, s: Section)
    requires Modifiable(op, s)
    ensures var t := ModifiedStates(op, s);
      var b' := SectionBitCount(|t.palette|);
      1 <= b' <= 64 && |NewIndexes(op, s)| == |OldIndexes(s.blockStates)| &&
      |t.data| == (|NewIndexes(op, s)| + PerWord(b') - 1) / PerWord(b') &&
      forall i :: 0 <= i < |t.data| ==> -TWO_63 <= t.data[i] < TWO_63 && t.data[i] % TWO_64 < PowB(b', PerWord(b'))
  {
    var t := ModifiedStates(op, s);
    var b' := SectionBitCount(|t.palette|);
    SectionBitCountBound(|t.palette|);
    NewIndexesFit(op, s);
    PackLength(NewIndexes(op, s), b');
    forall i | 0 <= i < |t.data|
      ensures -TWO_63 <= t.data[i] < TWO_63 && t.data[i] % TWO_64 < PowB(b', PerWord(b'))
    {
      PackedWordsPadded(NewIndexes(op, s), b', i);
    }
  }

  /** `modify_section` as written: no slot to write when the decoded indexes do not reach the computed slot, a panic. */
  function ModifyAsWritten(op: ModifyOperation, s: Section): Checked<Section>
    requires |s.blockStates.palette| < MAX_PALETTE
  {
    var xs := OldIndexesAsWritten(s.blockStates);
    var slot := SlotAsWritten(op.coordinates, s.y);
    if !(0 <= slot < |xs|) then Panics
    else
      var palette := Interned(s.blockStates.palette, op.block);
      SectionBitCountBound(|palette|);
      Done(s.(blockStates := BlockStates(Pack(xs[slot := Position(palette, op.block)], SectionBitCount(|palette|)), palette)))
  }

  /** As written, a section stored as one block without `data` cannot be edited at all. */
  lemma UniformSectionPanicsAsWritten(op: ModifyOperation, s: Section)
    requires |s.blockStates.palette| < MAX_PALETTE && s.blockStates.data == []
    ensures ModifyAsWritten(op, s) == Panics
  {
    SectionBitCountBound(|s.blockStates.palette|);
    DecodedShape(SECTION_VOLUME, SectionBitCount(|s.blockStates.palette|), Some([]));
  }

  /** As written, section 8 (y 128 to 143) wraps `8 * 16` to -128, and the slot lands past the section. */
  lemma HighSectionPanicsAsWritten(op: ModifyOperation, s: Section)
    requires |s.blockStates.palette| < MAX_PALETTE && s.y == 8 && 128 <= op.coordinates.1 < 144
    ensures ModifyAsWritten(op, s) == Panics
  {
    assert RegionRules.WrapI8(128) == -128;
  }

  /** The corrected version edits both: a section without data, and any section the coordinate lies in. */
  lemma CorrectedModifiable(op: ModifyOperation, s: Section)
    requires |s.blockStates.palette| < MAX_PALETTE
    requires 16 * s.y <= op.coordinates.1 < 16 * s.y + 16
    requires s.blockStates.data == [] || |OldIndexes(s.blockStates)| == SECTION_VOLUME
    ensures Modifiable(op, s)
  {
    SlotInSection(op.coordinates, op.coordinates, s.y);
    SectionBitCountBound(|s.blockStates.palette|);
    DecodedShape(SECTION_VOLUME, SectionBitCount(|s.blockStates.palette|), None);
  }

  /** Wherever the source does not panic for these two reasons, the corrected version computes what it does. */
  lemma AsWrittenAgrees(op: ModifyOperation, s: Section)
    requires |s.blockStates.palette| < MAX_PALETTE && s.blockStates.data != [] && -8 <= s.y < 8
    ensures ModifyAsWritten(op, s) == if Modifiable(op, s) then Done(Modified(op, s)) else Panics
  {
    SlotsAgree(op.coordinates, s.y);
  }

  // ---- handle_chunk ----

  /** `(y as f64 / 16).floor() as i8`: the section of a height, saturated to the i8 range. */
  function SectionIndex(y: nat): i8
  {
    SatI8(y / 16)
  }

  /** Every element of the section list has a `Y`, which the scan unwraps. */
  predicate AllHaveY(cs: seq<Compound>)
  {
    forall i :: 0 <= i < |cs| ==> "Y" in cs[i]
  }

  predicate IsSection(c: Compound, idx: i8)
    requires "Y" in c
  {
    c["Y"] == TByte(idx)
  }

  /** The scan of the section list: the last section whose Y is `idx`. */
  function LastSection(cs: seq<Compound>, idx: i8): Option<Compound>
    requires AllHaveY(cs)
  {
    if cs == [] then None
    else if IsSection(cs[|cs| - 1], idx) then Some(cs[|cs| - 1])
    else LastSection(cs[..|cs| - 1], idx)
  }

  /** The sections the rebuilt list keeps: every one whose Y is not `idx`, in order. */
  function OtherSections(cs: seq<Compound>, idx: i8): seq<Compound>
    requires AllHaveY(cs)
  {
    if cs == [] then []
    else OtherSections(cs[..|cs| - 1], idx) + (if IsSection(cs[|cs| - 1], idx) then [] else [cs[|cs| - 1]])
  }

  /** The position of the last section whose Y is `idx`, or -1 when there is none. */
  function LastIndex(cs: seq<Compound>, idx: i8): (k: int)
    requires AllHaveY(cs)
    ensures -1 <= k < |cs|
  {
    if cs == [] then -1
    else if IsSection(cs[|cs| - 1], idx) then |cs| - 1
    else LastIndex(cs[..|cs| - 1], idx)
  }

  /** The scan's result is the section at `LastIndex`, which has the Y, and no later one has it. */
  lemma {:induction false} LastIndexSection(cs: seq<Compound>, idx: i8)
    requires AllHaveY(cs)
    ensures LastSection(cs, idx) == if LastIndex(cs, idx) < 0 then None else Some(cs[LastIndex(cs, idx)])
    ensures LastIndex(cs, idx) >= 0 ==> IsSection(cs[LastIndex(cs, idx)], idx)
    ensures forall j :: LastIndex(cs, idx) < j < |cs| ==> !IsSection(cs[j], idx)
  {
    if cs != [] && !IsSection(cs[|cs| - 1], idx) {
      var init := cs[..|cs| - 1];
      LastIndexSection(init, idx);
      assert forall i :: 0 <= i < |init| ==> cs[i] == init[i];
    }
  }

  /** The scan finds a section exactly when one has the Y, and then the last one. */
  lemma LastSectionIsLast(cs: seq<Compound>, idx: i8)
    requires AllHaveY(cs)
    ensures LastSection(cs, idx).None? <==> forall i :: 0 <= i < |cs| ==> !IsSection(cs[i], idx)
    ensures LastSection(cs, idx).Some? ==>
              (exists i :: 0 <= i < |cs| && cs[i] == LastSection(cs, idx).value &&
                 IsSection(cs[i], idx) && forall j :: i < j < |cs| ==> !IsSection(cs[j], idx))
  {
    LastIndexSection(cs, idx);
    var k := LastIndex(cs, idx);
    if k >= 0 {
      assert cs[k] == LastSection(cs, idx).value;
    }
  }

  /** Keeping the other sections is a filter: it distributes over concatenation and keeps a section iff its Y differs. */
  lemma {:induction false} OtherSectionsFilter(a: seq<Compound>, b: seq<Compound>, idx: i8)
    requires AllHaveY(a) && AllHaveY(b)
    ensures AllHaveY(a + b) && OtherSections(a + b, idx) == OtherSections(a, idx) + OtherSections(b, idx)
    ensures forall c :: c in OtherSections(a, idx) <==> c in a && !IsSection(c, idx)
    decreases |b|
  {
    if b != [] {
      var b0 := b[..|b| - 1];
      OtherSectionsFilter(a, b0, idx);
      assert (a + b)[..|a + b| - 1] == a + b0;
    } else {
      assert a + b == a;
      OtherSectionsMembers(a, idx);
    }
  }

  lemma {:induction false} OtherSectionsMembers(cs: seq<Compound>, idx: i8)
    requires AllHaveY(cs)
    ensures forall c :: c in OtherSections(cs, idx) <==> c in cs && !IsSection(c, idx)
  {
    if cs != [] {
      var init := cs[..|cs| - 1];
      OtherSectionsMembers(init, idx);
      assert cs == init + [cs[|cs| - 1]];
    }
  }

  /** The first loop of `handle_chunk`: remembers every section whose Y matches, so the last one. */
  method FindSection(cs: seq<Compound>, idx: i8) returns (section: Option<Compound>)
    requires AllHaveY(cs)
    ensures section == LastSection(cs, idx)
  {
    section := None;
    for i := 0 to |cs|
      invariant section == LastSection(cs[..i], idx)
    {
      assert cs[..i + 1][..i] == cs[..i];
      if IsSection(cs[i], idx) {
        section := Some(cs[i]);
      }
    }
    assert cs[..|cs|] == cs;
  }

  /** The second loop of `handle_chunk`: the modified section first, then every section with another Y. */
  method RebuildSections(cs: seq<Compound>, modified: Compound, idx: i8) returns (newSections: seq<Compound>)
    requires AllHaveY(cs)
    ensures newSections == [modified] + OtherSections(cs, idx)
  {
    newSections := [modified];
    for i := 0 to |cs|
      invariant newSections == [modified] + OtherSections(cs[..i], idx)
    {
      assert cs[..i + 1][..i] == cs[..i];
      if !IsSection(cs[i], idx) {
        newSections := newSections + [cs[i]];
      }
    }
    assert cs[..|cs|] == cs;
  }

  predicate HasSectionList(root: Compound)
  {
    "sections" in root && root["sections"].TList? && root["sections"].list.CompoundList?
  }

  function SectionList(root: Compound): seq<Compound>
    requires HasSectionList(root)
  {
    root["sections"].list.compounds
  }

  /**
   * What `handle_chunk` needs not to panic: a list of compound sections, each
   * with a `Y`, one of them the block's section, which deserialises and which
   * the corrected `modify_section` can edit.
   */
  predicate Editable(op: ModifyOperation, root: Compound)
  {
    HasSectionList(root) && AllHaveY(SectionList(root)) &&
    var found := LastSection(SectionList(root), SectionIndex(op.coordinates.1));
    found.Some? && SectionFrom(found.value).Some? && Modifiable(op, SectionFrom(found.value).value)
  }

  /** The section `handle_chunk` edits. */
  function EditedSection(op: ModifyOperation, root: Compound): Section
    requires Editable(op, root)
  {
    SectionFrom(LastSection(SectionList(root), SectionIndex(op.coordinates.1)).value).value
  }

  /** The chunk `handle_chunk` produces: the modified section first, then the sections of other heights. */
  function HandledChunk(op: ModifyOperation, root: Compound): Compound
    requires Editable(op, root)
  {
    var others := OtherSections(SectionList(root), SectionIndex(op.coordinates.1));
    root["sections" := TList(CompoundList([SectionValue(Modified(op, EditedSection(op, root)))] + others))]
  }

  /** `handle_chunk` on the parsed chunk: find the section, modify it, rebuild the list. */
  method HandleChunk(op: ModifyOperation, root: Compound) returns (newRoot: Compound)
    requires Editable(op, root)
    ensures newRoot == HandledChunk(op, root)
  {
    var sectionIdx := SectionIndex(op.coordinates.1);
    var sections := root["sections"].list.compounds;
    var found := FindSection(sections, sectionIdx);
    var section := SectionFrom(found.value).value;
    var modifiedSection := ModifySection(op, section);
    var newSections := RebuildSections(sections, modifiedSection, sectionIdx);
    newRoot := root["sections" := TList(CompoundList(newSections))];
  }

  /** A deserialised section has the `Y` of its compound. */
  lemma SectionFromY(c: Compound)
    requires SectionFrom(c).Some?
    ensures "Y" in c && c["Y"] == TByte(SectionFrom(c).value.y)
  {
  }

  /** `handle_chunk` replaces the section list and no other tag of the chunk. */
  lemma HandledChunkTags(op: ModifyOperation, root: Compound)
    requires Editable(op, root)
    ensures var r := HandledChunk(op, root);
      r.Keys == root.Keys && HasSectionList(r) && forall k :: k in root && k != "sections" ==> r[k] == root[k]
  {
  }

  /**
   * After `handle_chunk` the chunk's section list starts with the modified section, which reads back as the
   * edited section with the block set, followed by exactly the sections of
   * other heights: the list has one section of the block's height.
   */
  lemma HandledChunkSections(op: ModifyOperation, root: Compound)
    requires Editable(op, root)
    ensures var r := HandledChunk(op, root);
      var idx := SectionIndex(op.coordinates.1);
      HasSectionList(r) && AllHaveY(SectionList(r)) && |SectionList(r)| >= 1 &&
      SectionFrom(SectionList(r)[0]) == Some(Modified(op, EditedSection(op, root))) &&
      IsSection(SectionList(r)[0], idx) &&
      (forall i :: 1 <= i < |SectionList(r)| ==> !IsSection(SectionList(r)[i], idx)) &&
      (forall c :: c in SectionList(r)[1..] <==> c in SectionList(root) && !IsSection(c, idx))
  {
    var idx := SectionIndex(op.coordinates.1);
    var cs := SectionList(root);
    var s := EditedSection(op, root);
    LastSectionIsLast(cs, idx);
    SectionFromY(LastSection(cs, idx).value);
    SectionRoundTrip(Modified(op, s));
    OtherSectionsMembers(cs, idx);
    var others := OtherSections(cs, idx);
    var list := [SectionValue(Modified(op, s))] + others;
    assert list[1..] == others;
    forall i | 1 <= i < |list|
      ensures "Y" in list[i] && !IsSection(list[i], idx)
    {
      assert list[i] in others;
    }
  }

  /** Below height 2048 the edited section is the block's own, so the written slot is its local `x + 16z + 256y`. */
  lemma HandledChunkSlot(op: ModifyOperation, root: Compound)
    requires Editable(op, root) && op.coordinates.1 < 2048
    ensures var c := op.coordinates;
      Slot(c, EditedSection(op, root).y) == c.0 % 16 + 16 * (c.2 % 16) + 256 * (c.1 % 16)
  {
    var cs := SectionList(root);
    var idx := SectionIndex(op.coordinates.1);
    LastSectionIsLast(cs, idx);
    SectionFromY(LastSection(cs, idx).value);
    SlotInSection(op.coordinates, op.coordinates, EditedSection(op, root).y);
  }
}
