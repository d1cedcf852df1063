/**
 * `PalettedBlocks`: blocks collected from a region, held lazily as references into the
 * palettes they came from. Each cell of a `width × height × width` area holds a `u32`
 * packing a position in the list of referenced palettes (low half) and an index within
 * that palette (high half), or `u32::MAX` when vacant; a bitset marks the occupied cells,
 * and every referenced palette carries a reference count.
 */
module Paletted {
  import opened Ints
  import opened Errors
  import opened Nbt
  import opened LocalCoords
  import opened FixedBits
  import opened Arith
  import RegionRules

  /** `u32::MAX`: the value of a vacant cell. */
  const VACANT: u32 := 0xFFFF_FFFF

  // ---- cell indexes ----

  /** `to_index`: layer above the bottom, then row, then column, in wrapping u32 arithmetic. */
  function ToIndex(bottomY: i32, width: u32, c: Coords): u32
  {
    WrapU32((c.y - bottomY) * width * width + c.z * width + c.x)
  }

  /** The three digits of `n` in the mixed radix `(·, width, width)`. */
  lemma Digits(n: int, w: int)
    requires n >= 0 && w > 0
    ensures n / w / w >= 0
    ensures 0 <= n / w / w * w * w <= n
    ensures 0 <= (n - n / w / w * w * w) / w < w
    ensures 0 <= n - n / w / w * w * w - (n - n / w / w * w * w) / w * w < w
    ensures n == n / w / w * w * w + (n - n / w / w * w * w) / w * w + (n - n / w / w * w * w - (n - n / w / w * w * w) / w * w)
  {
    var y := n / w / w;
    DivDiv(n, w, w);
    MulNonNeg(w, w);
    assert y == n / (w * w);
    var r := n % (w * w);
    assert n == (w * w) * y + r;
    MulAssoc(y, w, w);
    assert y * w * w == (w * w) * y;
    assert n - y * w * w == r;
    var z := r / w;
    assert r == w * z + r % w;
    MulNonNeg(w, r % w);
    Distrib(w, w, -z);
    MulSign(w, w - z);
  }

  lemma MulSign(w: int, d: int)
    requires w > 0
    ensures d <= 0 ==> w * d <= 0
  {
    if d <= 0 {
      MulNonNeg(w, -d);
      MulNegRight(w, d);
    }
  }

  /** `to_coords`: the inverse digit split; the layer is cast back to `i32`. */
  function ToCoords(bottomY: i32, width: u32, index: u32): (c: Coords)
    requires width > 0
  {
    Digits(index, width);
    var y := index / width / width;
    var z := (index - y * width * width) / width;
    var x := index - y * width * width - z * width;
    Coords(x, WrapI32(y + bottomY), z)
  }

  /** A cell inside the area, with its index below `2^32`, comes back from its index. */
  lemma IndexRoundTrip(bottomY: i32, width: u32, c: Coords)
    requires width > 0 && c.x < width && c.z < width && c.y >= bottomY
    requires (c.y - bottomY) * width * width + c.z * width + c.x <= U32_MAX
    ensures ToCoords(bottomY, width, ToIndex(bottomY, width, c)) == c
  {
    var w := width as int;
    var layer := c.y - bottomY;
    var rest := c.z * w + c.x;
    var n := layer * w * w + rest;
    MulNonNeg(layer, w);
    MulNonNeg(layer * w, w);
    MulNonNeg(c.z, w);
    assert ToIndex(bottomY, width, c) == n;
    MulAddBound(c.x, w, c.z, w);
    assert 0 <= rest < w * w;
    MulAssoc(layer, w, w);
    DivModUnique(n, w * w, layer, rest);
    DivDiv(n, w, w);
    assert n / w / w == layer;
    assert n - layer * w * w == rest;
    DivModUnique(rest, w, c.z, c.x);
  }

  /** Adding a multiple of `2^32` to the layer does not change a wrapped index. */
  lemma LayerWrap(y: int, m: int, w: int, rest: int)
    ensures WrapU32((y - 0x1_0000_0000 * m) * w * w + rest) == WrapU32(y * w * w + rest)
  {
    var k := -(m * w * w);
    MulAssoc(0x1_0000_0000, m, w);
    MulAssoc(0x1_0000_0000, m * w, w);
    assert (y - 0x1_0000_0000 * m) * w == y * w - 0x1_0000_0000 * (m * w);
    assert (y * w - 0x1_0000_0000 * (m * w)) * w == y * w * w - 0x1_0000_0000 * (m * w * w);
    DivModAddMultiple(y * w * w + rest, 0x1_0000_0000, k);
  }

  /** Every index comes back from its coordinates: the `i32` cast of the layer is undone modulo `2^32`. */
  lemma CoordsRoundTrip(bottomY: i32, width: u32, index: u32)
    requires width > 0
    ensures ToIndex(bottomY, width, ToCoords(bottomY, width, index)) == index
  {
    var w := width as int;
    Digits(index, w);
    var y := index / w / w;
    var z := (index - y * w * w) / w;
    var x := index - y * w * w - z * w;
    var c := ToCoords(bottomY, width, index);
    assert c == Coords(x, WrapI32(y + bottomY), z);
    var t := y + bottomY + 0x8000_0000;
    var m := t / 0x1_0000_0000;
    assert c.y - bottomY == y - 0x1_0000_0000 * m;
    LayerWrap(y, m, w, z * w + x);
    assert index == y * w * w + (z * w + x);
  }

  /** The two coordinates the index test of the source checks (height `-64..320`, width 16). */
  lemma IndexExamples()
    ensures ToIndex(-64, 16, Coords(5, 5, 5)) == 17749
    ensures ToIndex(-64, 16, Coords(0, -58, 15)) == 1776
  {
  }

  // ---- packed cell values ----

  /** The packing itself, for arguments inside its limits. */
  function Pack(palette: int, paletteIndex: int): (v: u32)
    requires 0 <= palette < 0xFFFF && 0 <= paletteIndex < 4096
  {
    paletteIndex * 0x1_0000 + palette
  }

  /** `construct_block_val`: asserts `palette_index < 4096 && palette < u16::MAX`, then packs. */
  function ConstructBlockVal(palette: u16, paletteIndex: u16): Checked<u32>
  {
    if paletteIndex < 4096 && palette < 0xFFFF then Done(Pack(palette, paletteIndex)) else Panics
  }

  /** `deconstruct_block_val`: the low half is the palette position, the high half the index in it. */
  function DeconstructBlockVal(v: u32): (u16, u16)
  {
    (v % 0x1_0000, (v / 0x1_0000) % 0x1_0000)
  }

  function Slot(v: u32): u16 { DeconstructBlockVal(v).0 }

  function Within(v: u32): u16 { DeconstructBlockVal(v).1 }

  /** A value `construct_block_val` can produce. */
  predicate Encoded(v: u32)
  {
    v / 0x1_0000 < 4096 && v % 0x1_0000 < 0xFFFF
  }

  /** Packing succeeds exactly inside the asserted limits, and unpacking recovers both halves. */
  lemma BlockValRoundTrip(palette: u16, paletteIndex: u16)
    ensures ConstructBlockVal(palette, paletteIndex).Done? <==> paletteIndex < 4096 && palette < 0xFFFF
    ensures ConstructBlockVal(palette, paletteIndex).Done? ==>
              var v := ConstructBlockVal(palette, paletteIndex).value;
              DeconstructBlockVal(v) == (palette, paletteIndex) && Encoded(v) && v != VACANT
  {
    if paletteIndex < 4096 && palette < 0xFFFF {
      PackParts(palette, paletteIndex);
    }
  }

  lemma PackParts(palette: int, paletteIndex: int)
    requires 0 <= palette < 0xFFFF && 0 <= paletteIndex < 4096
    ensures Slot(Pack(palette, paletteIndex)) == palette && Within(Pack(palette, paletteIndex)) == paletteIndex
    ensures Encoded(Pack(palette, paletteIndex)) && Pack(palette, paletteIndex) != VACANT
  {
    DivModUnique(Pack(palette, paletteIndex), 0x1_0000, paletteIndex, palette);
  }

  /** Every packed value is the packing of its own halves. */
  lemma EncodedRoundTrip(v: u32)
    requires Encoded(v)
    ensures ConstructBlockVal(Slot(v), Within(v)) == Done(v)
  {
    assert v == 0x1_0000 * (v / 0x1_0000) + v % 0x1_0000;
  }

  /** The values of the source's block-value tests, and the panic on a palette index past 4095. */
  lemma BlockValExamples()
    ensures ConstructBlockVal(12, 81) == Done(5_308_428) && DeconstructBlockVal(5_308_428) == (12, 81)
    ensures ConstructBlockVal(24575, 4095) == Done(268_394_495)
    ensures ConstructBlockVal(0, 0) == Done(0) && ConstructBlockVal(0, 1) == Done(0x1_0000)
    ensures ConstructBlockVal(58282, 8418) == Panics
  {
  }

  // ---- the store as a value ----

  /** A referenced palette (a slice of block compounds) and its reference count. */
  datatype PaletteRef = PaletteRef(slice: seq<Compound>, refs: nat)

  /** The fields of a `PalettedBlocks`. */
  datatype Store = Store(palette: seq<PaletteRef>, blocks: seq<u32>, placed: BitSet, bottomY: i32, width: u32)

  /** What every operation keeps: the bitset marks exactly the non-vacant cells, and those hold packed values. */
  predicate WellFormed(s: Store)
  {
    |s.blocks| == s.placed.len && s.placed.Valid() && (s.width == 0 ==> |s.blocks| == 0) &&
    forall i :: 0 <= i < |s.blocks| ==>
      (i in s.placed.ones <==> s.blocks[i] != VACANT) && (s.blocks[i] == VACANT || Encoded(s.blocks[i]))
  }

  /** Cell value `v` points at palette position `p`. */
  predicate Refers(v: u32, p: int)
  {
    v != VACANT && Slot(v) == p
  }

  /** How many cells point at palette position `p`. */
  function CountRefs(cells: seq<u32>, p: int): nat
  {
    if cells == [] then 0
    else CountRefs(cells[..|cells| - 1], p) + (if Refers(cells[|cells| - 1], p) then 1 else 0)
  }

  predicate UniqueSlices(palette: seq<PaletteRef>)
  {
    forall i, j :: 0 <= i < j < |palette| ==> palette[i].slice != palette[j].slice
  }

  /**
   * The invariant behind the reference counting: no slice is listed twice, at most
   * 65535 palettes are listed (positions must stay below `u16::MAX`), every occupied
   * cell points at a listed palette, and no palette has more pointing cells than its
   * count. The count can exceed the cells: overwriting a cell does not release the
   * palette it pointed at, and `insert_palette_only` lists a palette with count 0.
   */
  predicate Consistent(s: Store)
  {
    WellFormed(s) && |s.palette| <= 0xFFFF && UniqueSlices(s.palette) &&
    (forall i :: 0 <= i < |s.blocks| && s.blocks[i] != VACANT ==> Slot(s.blocks[i]) < |s.palette|) &&
    (forall p :: 0 <= p < |s.palette| ==> CountRefs(s.blocks, p) <= s.palette[p].refs)
  }

  /** The set of occupied cells. */
  function Occupied(s: Store): set<nat>
  {
    set i: nat | i < |s.blocks| && s.blocks[i] != VACANT
  }

  /** `len`: the number of set bits is the number of occupied cells. */
  lemma LenCountsOccupied(s: Store)
    requires WellFormed(s)
    ensures s.placed.CountOnes() == |Occupied(s)|
  {
    assert s.placed.ones == Occupied(s);
  }

  /** What cell `i` resolves to: the palette slice it points at and the index within it. */
  function Resolve(s: Store, i: nat): Option<(seq<Compound>, u16)>
    requires i < |s.blocks|
  {
    var v := s.blocks[i];
    if v == VACANT || Slot(v) >= |s.palette| then None else Some((s.palette[Slot(v)].slice, Within(v)))
  }

  // ---- finding a palette ----

  /** The last listed position of `slice`: what `insert`'s search keeps, since it does not stop at a match. */
  function LastMatch(palette: seq<PaletteRef>, slice: seq<Compound>): (r: Option<nat>)
    ensures r.Some? ==> r.value < |palette| && palette[r.value].slice == slice
    ensures r.Some? ==> forall j :: r.value < j < |palette| ==> palette[j].slice != slice
    ensures r.None? ==> forall j :: 0 <= j < |palette| ==> palette[j].slice != slice
  {
    if palette == [] then None
    else if palette[|palette| - 1].slice == slice then Some(|palette| - 1)
    else LastMatch(palette[..|palette| - 1], slice)
  }

  /** The first listed position of `slice` at or after `i`: what `insert_palette_only` returns. */
  function FirstMatchFrom(palette: seq<PaletteRef>, slice: seq<Compound>, i: nat): (r: Option<nat>)
    ensures r.Some? ==> i <= r.value < |palette| && palette[r.value].slice == slice
    ensures r.Some? ==> forall j :: i <= j < r.value ==> palette[j].slice != slice
    ensures r.None? ==> forall j :: i <= j < |palette| ==> palette[j].slice != slice
    decreases |palette| - i
  {
    if i >= |palette| then None
    else if palette[i].slice == slice then Some(i)
    else FirstMatchFrom(palette, slice, i + 1)
  }

  function FirstMatch(palette: seq<PaletteRef>, slice: seq<Compound>): Option<nat>
  {
    FirstMatchFrom(palette, slice, 0)
  }

  /** With every slice listed once, both searches find the same position. */
  lemma {:induction false} MatchesAgree(palette: seq<PaletteRef>, slice: seq<Compound>)
    requires UniqueSlices(palette)
    ensures FirstMatch(palette, slice) == LastMatch(palette, slice)
  {
    var f, l := FirstMatch(palette, slice), LastMatch(palette, slice);
    if f.Some? && l.Some? {
      assert palette[f.value].slice == slice == palette[l.value].slice;
    }
  }

  // ---- insert, insert_at, insert_palette_only ----

  /** The palette list after `insert`'s search, and the position the block will point at. */
  function InsertTarget(palette: seq<PaletteRef>, slice: seq<Compound>): (seq<PaletteRef>, nat)
  {
    match LastMatch(palette, slice)
    case Some(i) => (palette[i := palette[i].(refs := palette[i].refs + 1)], i)
    case None => (palette + [PaletteRef(slice, 1)], |palette|)
  }

  /** What `insert` demands: the cell lies inside the area, and both halves pass `construct_block_val`'s assertion. */
  predicate CanInsert(s: Store, c: Coords, slice: seq<Compound>, paletteIndex: nat)
  {
    ToIndex(s.bottomY, s.width, c) < |s.blocks| && TruncU16(paletteIndex) < 4096 &&
    TruncU16(InsertTarget(s.palette, slice).1) < 0xFFFF
  }

  /** `insert`: count a use of `slice` (listing it if new) and point the cell at it. */
  function Inserted(s: Store, c: Coords, slice: seq<Compound>, paletteIndex: nat): (Store, u32)
    requires WellFormed(s) && CanInsert(s, c, slice, paletteIndex)
  {
    var (pal, idx) := InsertTarget(s.palette, slice);
    var bi := ToIndex(s.bottomY, s.width, c);
    (s.(palette := pal, blocks := s.blocks[bi := Pack(TruncU16(idx), TruncU16(paletteIndex))], placed := s.placed.Insert(bi)),
     WrapU32(idx))
  }

  /** What `insert_at` demands: a listed palette position, the cell inside the area, and both halves in limits. */
  predicate CanInsertAt(s: Store, c: Coords, palette: u32, paletteIndex: u32)
  {
    palette < |s.palette| && ToIndex(s.bottomY, s.width, c) < |s.blocks| &&
    TruncU16(palette) < 0xFFFF && TruncU16(paletteIndex) < 4096
  }

  /** `insert` keeps the cells and the bitset in agreement. */
  lemma InsertWellFormed(s: Store, c: Coords, slice: seq<Compound>, paletteIndex: nat)
    requires WellFormed(s) && CanInsert(s, c, slice, paletteIndex)
    ensures WellFormed(Inserted(s, c, slice, paletteIndex).0)
  {
    PackParts(TruncU16(InsertTarget(s.palette, slice).1), TruncU16(paletteIndex));
  }

  /** `insert_at`: count a use of an already listed palette and point the cell at it. */
  function InsertedAt(s: Store, c: Coords, palette: u32, paletteIndex: u32): Store
    requires WellFormed(s) && CanInsertAt(s, c, palette, paletteIndex)
  {
    var bi := ToIndex(s.bottomY, s.width, c);
    s.(palette := s.palette[palette := s.palette[palette].(refs := s.palette[palette].refs + 1)],
       blocks := s.blocks[bi := Pack(TruncU16(palette), TruncU16(paletteIndex))],
       placed := s.placed.Insert(bi))
  }

  /** `insert_palette_only`: the first listed position of `slice`, or list it with count 0. */
  function PaletteOnly(s: Store, slice: seq<Compound>): (Store, u32)
  {
    match FirstMatch(s.palette, slice)
    case Some(i) => (s, WrapU32(i))
    case None => (s.(palette := s.palette + [PaletteRef(slice, 0)]), WrapU32(|s.palette|))
  }

  // ---- get_raw, get ----

  /** `get_raw`: nothing for a cell outside the area or vacant; otherwise the compound it points at (panicking past the slice). */
  function RawAt(s: Store, c: Coords): Checked<Option<Compound>>
  {
    var bi := ToIndex(s.bottomY, s.width, c);
    if bi >= |s.blocks| || s.blocks[bi] == VACANT then Done(None)
    else
      var v := s.blocks[bi];
      if Slot(v) < |s.palette| && Within(v) < |s.palette[Slot(v)].slice| then Done(Some(s.palette[Slot(v)].slice[Within(v)]))
      else Panics
  }

  /** `get`: the raw compound read as a block. */
  function GetAt(s: Store, c: Coords): Checked<Result<Option<Block>>>
  {
    match RawAt(s, c)
    case Panics => Panics
    case Done(None) => Done(Ok(None))
    case Done(Some(raw)) =>
      match FromCompound(raw)
      case Ok(b) => Done(Ok(Some(b)))
      case Err(e) => Done(Err(e))
  }

  // ---- remove_block, shift_indexes ----

  /** `shift_indexes` on one cell: an occupied cell pointing past `p` points one position lower. */
  function ShiftCell(v: u32, placed: bool, p: u16): u32
    requires placed ==> Encoded(v)
  {
    if placed && Slot(v) > p then Pack(Slot(v) - 1, Within(v)) else v
  }

  /** `shift_indexes` on every occupied cell. */
  function Shifted(cells: seq<u32>, ones: set<nat>, p: u16): (r: seq<u32>)
    requires forall i :: 0 <= i < |cells| && i in ones ==> Encoded(cells[i])
  {
    seq(|cells|, i requires 0 <= i < |cells| => ShiftCell(cells[i], i in ones, p))
  }

  /** The cell vacated and its bit unset: `remove_block`'s first change. */
  function Cleared(s: Store, bi: nat): Store
    requires bi < |s.blocks| && bi < s.placed.len
  {
    s.(blocks := s.blocks[bi := VACANT], placed := s.placed.Remove(bi))
  }

  /**
   * Releasing one reference to position `p`: at the last reference the palette is
   * unlisted and the occupied cells past it shift down (`shift_indexes`); otherwise the
   * count drops, wrapping at zero as a release build's `usize` does.
   */
  function Release(s: Store, p: u16): Store
    requires WellFormed(s) && p < |s.palette|
  {
    var entry := s.palette[p];
    if entry.refs == 1 then
      s.(palette := s.palette[..p] + s.palette[p + 1..], blocks := Shifted(s.blocks, s.placed.ones, p))
    else
      s.(palette := s.palette[p := entry.(refs := if entry.refs == 0 then USIZE_MAX else entry.refs - 1)])
  }

  /** The block at index `pi` of a slice, or the out-of-bounds error past its end. */
  function EntryBlock(slice: seq<Compound>, pi: u16): Result<Block>
  {
    if pi < |slice| then FromCompound(slice[pi]) else Err(OutOfBounds(|slice|, pi))
  }

  /**
   * `remove_block`: an index outside the area or a vacant cell is an error and changes
   * nothing. Otherwise the cell is vacated first; a position past the palette list is
   * then an error; else one reference to the palette is released. The result is the
   * block the cell pointed at.
   */
  function Removed(s: Store, c: Coords): (Store, Result<Block>)
    requires WellFormed(s)
  {
    var bi := ToIndex(s.bottomY, s.width, c);
    if bi >= |s.blocks| then (s, Err(OutOfBounds(|s.blocks|, bi)))
    else if s.blocks[bi] == VACANT then (s, Err(UnsetPaletteBlock(bi)))
    else
      var v := s.blocks[bi];
      var p := Slot(v);
      if p >= |s.palette| then (Cleared(s, bi), Err(InvalidPaletteIndex(p)))
      else
        ClearCell(s, bi);
        (Release(Cleared(s, bi), p), EntryBlock(s.palette[p].slice, Within(v)))
  }

  // ---- iteration ----

  /**
   * The iterator from cell `i` on: occupied cells in index order, each as its coordinates
   * and its block. A cell whose palette or index does not resolve, or whose compound does
   * not read as a block, ends the iteration. The reading of a compound is a parameter
   * (`Block::from_compound` in `Items`), so that the walk is reasoned about apart from it.
   */
  function ItemsFrom(s: Store, i: nat, read: Compound -> Result<Block>): seq<(Coords, Block)>
    requires WellFormed(s)
    decreases |s.blocks| - i
  {
    if i >= |s.blocks| then []
    else if i !in s.placed.ones then ItemsFrom(s, i + 1, read)
    else
      match CellItem(s, i, read)
      case Some(x) => [x] + ItemsFrom(s, i + 1, read)
      case None => []
  }

  /** The iterator at an occupied cell that yields `x`. */
  lemma ItemsFromYield(s: Store, i: nat, read: Compound -> Result<Block>, x: (Coords, Block))
    requires WellFormed(s) && i < |s.blocks| && i in s.placed.ones && CellItem(s, i, read) == Some(x)
    ensures ItemsFrom(s, i, read) == [x] + ItemsFrom(s, i + 1, read)
  {
  }

  /** The iterator at an occupied cell that does not resolve or read. */
  lemma ItemsFromStop(s: Store, i: nat, read: Compound -> Result<Block>)
    requires WellFormed(s) && i < |s.blocks| && i in s.placed.ones && CellItem(s, i, read).None?
    ensures ItemsFrom(s, i, read) == []
  {
  }

  /** What the iterator makes of occupied cell `i`: its coordinates and block, if its entry resolves and reads. */
  function CellItem(s: Store, i: nat, read: Compound -> Result<Block>): Option<(Coords, Block)>
    requires WellFormed(s) && i < |s.blocks|
  {
    var v := s.blocks[i];
    if Slot(v) < |s.palette| && Within(v) < |s.palette[Slot(v)].slice| then
      match read(s.palette[Slot(v)].slice[Within(v)])
      case Ok(b) => Some((ToCoords(s.bottomY, s.width, WrapU32(i)), b))
      case Err(_) => None
    else None
  }

  function Items(s: Store): seq<(Coords, Block)>
    requires WellFormed(s)
  {
    ItemsFrom(s, 0, FromCompound)
  }

  /** `contains`: some block the iterator yields equals `b`. */
  predicate ContainsBlock(s: Store, b: Block)
    requires WellFormed(s)
  {
    Yields(Items(s), b)
  }

  /** Some item's block equals `b`. */
  predicate Yields(items: seq<(Coords, Block)>, b: Block)
  {
    exists k :: 0 <= k < |items| && BlockEq(items[k].1, b)
  }

  lemma YieldsCons(x: (Coords, Block), items: seq<(Coords, Block)>, b: Block)
    ensures Yields([x] + items, b) <==> BlockEq(x.1, b) || Yields(items, b)
  {
    assert ([x] + items)[0] == x;
    if Yields(items, b) {
      var k :| 0 <= k < |items| && BlockEq(items[k].1, b);
      assert ([x] + items)[k + 1] == items[k];
    }
    if Yields([x] + items, b) && !BlockEq(x.1, b) {
      var k :| 0 <= k < |[x] + items| && BlockEq(([x] + items)[k].1, b);
      assert items[k - 1] == ([x] + items)[k];
    }
  }

  /** `get_all`: the iterator's items as blocks with coordinates. */
  function AllWithCoordinates(s: Store): seq<RegionRules.BlockWithCoordinate>
    requires WellFormed(s)
  {
    WithCoordinates(Items(s))
  }

  /** Items as blocks with coordinates, in order. */
  function WithCoordinates(items: seq<(Coords, Block)>): (r: seq<RegionRules.BlockWithCoordinate>)
  {
    seq(|items|, k requires 0 <= k < |items| => RegionRules.BlockWithCoordinate(items[k].0, items[k].1))
  }

  // ---- reference counts ----

  /** Overwriting one cell changes the count of `p` by what the old and new values point at. */
  lemma {:induction false} CountRefsUpdate(cells: seq<u32>, i: nat, v: u32, p: int)
    requires i < |cells|
    ensures CountRefs(cells[i := v], p) ==
              CountRefs(cells, p) - (if Refers(cells[i], p) then 1 else 0) + (if Refers(v, p) then 1 else 0)
    decreases |cells|
  {
    var n := |cells| - 1;
    if i < n {
      assert cells[i := v][..n] == cells[..n][i := v];
      CountRefsUpdate(cells[..n], i, v, p);
    } else {
      assert cells[i := v][..n] == cells[..n];
    }
  }

  /** A cell pointing at `p` is counted. */
  lemma {:induction false} CountRefsPositive(cells: seq<u32>, i: nat, p: int)
    requires i < |cells|
    ensures Refers(cells[i], p) ==> CountRefs(cells, p) >= 1
    decreases |cells|
  {
    var n := |cells| - 1;
    if i < n {
      assert cells[..n][i] == cells[i];
      CountRefsPositive(cells[..n], i, p);
    }
  }

  /** With no cell pointing at `p`, the count is zero. */
  lemma {:induction false} CountRefsNone(cells: seq<u32>, p: int)
    requires forall i :: 0 <= i < |cells| ==> !Refers(cells[i], p)
    ensures CountRefs(cells, p) == 0
    decreases |cells|
  {
    if cells != [] {
      var n := |cells| - 1;
      assert forall i :: 0 <= i < n ==> cells[..n][i] == cells[i];
      CountRefsNone(cells[..n], p);
    }
  }

  /** The cells and the bitset agree, and the occupied cells hold packed values. */
  predicate Marks(cells: seq<u32>, ones: set<nat>)
  {
    forall i :: 0 <= i < |cells| ==> (i in ones <==> cells[i] != VACANT) && (cells[i] == VACANT || Encoded(cells[i]))
  }

  /** The position that position `q` had before position `p` was unlisted. */
  function Unlisted(q: int, p: int): int
  {
    if q < p then q else q + 1
  }

  lemma ShiftCellRefers(v: u32, placed: bool, p: u16, q: int)
    requires (placed <==> v != VACANT) && (placed ==> Encoded(v)) && !Refers(v, p)
    ensures Refers(ShiftCell(v, placed, p), q) <==> Refers(v, Unlisted(q, p))
    ensures placed ==> Within(ShiftCell(v, placed, p)) == Within(v) && Encoded(ShiftCell(v, placed, p))
    ensures placed ==> Slot(ShiftCell(v, placed, p)) == if Slot(v) > p then Slot(v) - 1 else Slot(v)
    ensures placed ==> ShiftCell(v, placed, p) != VACANT
    ensures !placed ==> ShiftCell(v, placed, p) == v
  {
    if placed && Slot(v) > p {
      PackParts(Slot(v) - 1, Within(v));
    }
  }

  /** After unlisting a palette nothing points at, each position counts what the next-higher one counted. */
  lemma {:induction false} CountRefsShifted(cells: seq<u32>, ones: set<nat>, p: u16, q: int)
    requires Marks(cells, ones) && CountRefs(cells, p) == 0
    ensures CountRefs(Shifted(cells, ones, p), q) == CountRefs(cells, Unlisted(q, p))
    decreases |cells|
  {
    if cells != [] {
      var n := |cells| - 1;
      assert Shifted(cells, ones, p)[..n] == Shifted(cells[..n], ones, p);
      assert Marks(cells[..n], ones);
      CountRefsShifted(cells[..n], ones, p, q);
      ShiftCellRefers(cells[n], n in ones, p, q);
    }
  }

  // ---- what insert, insert_at and insert_palette_only keep ----

  /** A position no cell points at has count zero. */
  lemma CountPastPalette(s: Store, q: int)
    requires Consistent(s) && q >= |s.palette|
    ensures CountRefs(s.blocks, q) == 0
  {
    CountRefsNone(s.blocks, q);
  }

  /** `insert` keeps the invariant. */
  lemma InsertConsistent(s: Store, c: Coords, slice: seq<Compound>, paletteIndex: nat)
    requires Consistent(s) && CanInsert(s, c, slice, paletteIndex)
    ensures Consistent(Inserted(s, c, slice, paletteIndex).0)
  {
    var (pal, idx) := InsertTarget(s.palette, slice);
    var bi := ToIndex(s.bottomY, s.width, c);
    var v := Pack(TruncU16(idx), TruncU16(paletteIndex));
    var t := Inserted(s, c, slice, paletteIndex).0;
    assert idx < 0xFFFF;
    PackParts(idx, TruncU16(paletteIndex));
    assert t.blocks == s.blocks[bi := v];
    assert forall j :: 0 <= j < |pal| ==> pal[j].slice == if j < |s.palette| then s.palette[j].slice else slice;
    forall q | 0 <= q < |pal|
      ensures CountRefs(t.blocks, q) <= pal[q].refs
    {
      CountRefsUpdate(s.blocks, bi, v, q);
      if q == |s.palette| {
        CountPastPalette(s, q);
      }
    }
  }

  /** `insert` reuses the listed position of the slice and bumps its count, or lists it with count 1; it returns that position. */
  lemma InsertPosition(s: Store, c: Coords, slice: seq<Compound>, paletteIndex: nat)
    requires Consistent(s) && CanInsert(s, c, slice, paletteIndex)
    ensures var (t, r) := Inserted(s, c, slice, paletteIndex);
            match FirstMatch(s.palette, slice)
            case Some(i) => r == i && t.palette == s.palette[i := PaletteRef(slice, s.palette[i].refs + 1)]
            case None => r == |s.palette| && t.palette == s.palette + [PaletteRef(slice, 1)]
  {
    MatchesAgree(s.palette, slice);
  }

  /** `insert` at a vacant cell adds one to `len`; at an occupied cell it leaves `len` alone. */
  lemma InsertLen(s: Store, c: Coords, slice: seq<Compound>, paletteIndex: nat)
    requires WellFormed(s) && CanInsert(s, c, slice, paletteIndex)
    ensures var bi := ToIndex(s.bottomY, s.width, c);
            Inserted(s, c, slice, paletteIndex).0.placed.CountOnes() ==
              s.placed.CountOnes() + (if s.blocks[bi] == VACANT then 1 else 0)
  {
    InsertCount(s.placed, ToIndex(s.bottomY, s.width, c));
  }

  /** After `insert`, `get_raw` at the cell gives the slice's entry at the (truncated) index, or panics past the slice. */
  lemma InsertReadsBack(s: Store, c: Coords, slice: seq<Compound>, paletteIndex: nat)
    requires Consistent(s) && CanInsert(s, c, slice, paletteIndex)
    ensures var pi := TruncU16(paletteIndex);
            RawAt(Inserted(s, c, slice, paletteIndex).0, c) == if pi < |slice| then Done(Some(slice[pi])) else Panics
  {
    var idx := InsertTarget(s.palette, slice).1;
    assert idx < 0xFFFF;
    PackParts(idx, TruncU16(paletteIndex));
  }

  /** `insert` leaves what every other cell resolves to unchanged. */
  lemma InsertKeepsOthers(s: Store, c: Coords, slice: seq<Compound>, paletteIndex: nat, j: nat)
    requires Consistent(s) && CanInsert(s, c, slice, paletteIndex)
    requires j < |s.blocks| && j != ToIndex(s.bottomY, s.width, c)
    ensures Resolve(Inserted(s, c, slice, paletteIndex).0, j) == Resolve(s, j)
  {
  }

  /** `insert_at` keeps the invariant. */
  lemma InsertAtConsistent(s: Store, c: Coords, palette: u32, paletteIndex: u32)
    requires Consistent(s) && CanInsertAt(s, c, palette, paletteIndex)
    ensures Consistent(InsertedAt(s, c, palette, paletteIndex))
  {
    var bi := ToIndex(s.bottomY, s.width, c);
    var v := Pack(palette, TruncU16(paletteIndex));
    var t := InsertedAt(s, c, palette, paletteIndex);
    PackParts(palette, TruncU16(paletteIndex));
    assert t.blocks == s.blocks[bi := v];
    forall q | 0 <= q < |t.palette|
      ensures CountRefs(t.blocks, q) <= t.palette[q].refs
    {
      CountRefsUpdate(s.blocks, bi, v, q);
    }
  }

  /** After `insert_at`, `get_raw` at the cell gives the listed slice's entry, or panics past the slice. */
  lemma InsertAtReadsBack(s: Store, c: Coords, palette: u32, paletteIndex: u32)
    requires Consistent(s) && CanInsertAt(s, c, palette, paletteIndex)
    ensures var pi := TruncU16(paletteIndex);
            var slice := s.palette[palette].slice;
            RawAt(InsertedAt(s, c, palette, paletteIndex), c) == if pi < |slice| then Done(Some(slice[pi])) else Panics
  {
    PackParts(palette, TruncU16(paletteIndex));
  }

  /** `insert_palette_only` returns the listed position, or lists the slice with count 0; it keeps the invariant. */
  lemma InsertPaletteOnlyConsistent(s: Store, slice: seq<Compound>)
    requires Consistent(s) && (FirstMatch(s.palette, slice).Some? || |s.palette| < 0xFFFF)
    ensures var (t, r) := PaletteOnly(s, slice);
            Consistent(t) && t.blocks == s.blocks && t.placed == s.placed &&
            match FirstMatch(s.palette, slice)
            case Some(i) => t == s && r == i
            case None => t.palette == s.palette + [PaletteRef(slice, 0)] && r == |s.palette|
  {
    if FirstMatch(s.palette, slice).None? {
      CountPastPalette(s, |s.palette|);
    }
  }

  /** A second `insert_palette_only` of the same slice changes nothing and returns the same position. */
  lemma InsertPaletteOnlyIdempotent(s: Store, slice: seq<Compound>)
    ensures var (t, r) := PaletteOnly(s, slice);
            PaletteOnly(t, slice) == (t, r)
  {
    var (t, r) := PaletteOnly(s, slice);
    if FirstMatch(s.palette, slice).None? {
      assert t.palette[|s.palette|].slice == slice;
    }
  }

  // ---- what remove_block keeps ----

  /** `remove` changes nothing exactly when `get_raw` finds nothing, and then reports which of the two errors. */
  lemma RemoveVacant(s: Store, c: Coords)
    requires WellFormed(s)
    ensures var bi := ToIndex(s.bottomY, s.width, c);
            (Removed(s, c).0 == s <==> RawAt(s, c) == Done(None)) &&
            (RawAt(s, c) == Done(None) ==>
               Removed(s, c).1 == Err(if bi >= |s.blocks| then OutOfBounds(|s.blocks|, bi) else UnsetPaletteBlock(bi)))
  {
    var bi := ToIndex(s.bottomY, s.width, c);
    if bi < |s.blocks| && s.blocks[bi] != VACANT {
      var t := Removed(s, c).0;
      assert t.blocks[bi] == VACANT;
    }
  }

  /** `remove` returns the block `get` reads there; where `get_raw` would panic, `remove` reports an error instead. */
  lemma RemoveReturns(s: Store, c: Coords)
    requires WellFormed(s)
    ensures RawAt(s, c).Done? && RawAt(s, c).value.Some? ==> Removed(s, c).1 == FromCompound(RawAt(s, c).value.value)
    ensures RawAt(s, c) == Panics ==> Removed(s, c).1.Err?
  {
  }

  /** `remove` of an occupied cell takes one from `len`. */
  lemma RemoveLen(s: Store, c: Coords)
    requires WellFormed(s)
    ensures var bi := ToIndex(s.bottomY, s.width, c);
            Removed(s, c).0.placed.CountOnes() ==
              s.placed.CountOnes() - (if bi < |s.blocks| && s.blocks[bi] != VACANT then 1 else 0)
  {
    var bi := ToIndex(s.bottomY, s.width, c);
    if bi < |s.blocks| && s.blocks[bi] != VACANT {
      RemoveCount(s.placed, bi);
    }
  }

  /** Vacating the cell keeps the cells and the bitset in agreement, and takes one reference from its palette. */
  lemma ClearCell(s: Store, bi: nat)
    requires WellFormed(s) && bi < |s.blocks| && s.blocks[bi] != VACANT
    ensures Marks(s.blocks[bi := VACANT], s.placed.Remove(bi).ones) && WellFormed(Cleared(s, bi))
    ensures forall q :: CountRefs(s.blocks[bi := VACANT], q) == CountRefs(s.blocks, q) - (if Refers(s.blocks[bi], q) then 1 else 0)
    ensures CountRefs(s.blocks, Slot(s.blocks[bi])) >= 1
  {
    forall q {
      CountRefsUpdate(s.blocks, bi, VACANT, q);
    }
    CountRefsPositive(s.blocks, bi, Slot(s.blocks[bi]));
  }

  /** The store `remove` leaves when it drops a palette's last reference. */
  function Unlisting(s: Store, bi: nat): Store
    requires WellFormed(s) && bi < |s.blocks| && s.blocks[bi] != VACANT && Slot(s.blocks[bi]) < |s.palette|
  {
    ClearCell(s, bi);
    Release(Cleared(s, bi), Slot(s.blocks[bi]))
  }

  /** What unlisting does to one cell: a vacant cell stays vacant, an occupied one points at its palette's new position. */
  lemma UnlistingCell(s: Store, bi: nat, j: nat)
    requires Consistent(s) && bi < |s.blocks| && s.blocks[bi] != VACANT && s.palette[Slot(s.blocks[bi])].refs == 1
    requires j < |s.blocks|
    ensures var t := Unlisting(s, bi);
            var cells := s.blocks[bi := VACANT];
            (cells[j] == VACANT ==> t.blocks[j] == VACANT) &&
            (cells[j] != VACANT ==>
               t.blocks[j] != VACANT && Encoded(t.blocks[j]) && Within(t.blocks[j]) == Within(cells[j]) &&
               Slot(t.blocks[j]) < |t.palette| && Unlisted(Slot(t.blocks[j]), Slot(s.blocks[bi])) == Slot(cells[j]))
  {
    var p := Slot(s.blocks[bi]);
    var cells := s.blocks[bi := VACANT];
    ClearCell(s, bi);
    CountRefsPositive(cells, j, p);
    ShiftCellRefers(cells[j], j in s.placed.Remove(bi).ones, p, 0);
  }

  /** Positions in the palette list after unlisting `p`. */
  lemma UnlistedPositions(palette: seq<PaletteRef>, p: nat)
    requires p < |palette|
    ensures |palette[..p] + palette[p + 1..]| == |palette| - 1
    ensures forall q :: 0 <= q < |palette| - 1 ==> (palette[..p] + palette[p + 1..])[q] == palette[Unlisted(q, p)]
  {
  }

  /** Dropping a palette's last reference keeps the invariant. */
  lemma UnlistingConsistent(s: Store, bi: nat)
    requires Consistent(s) && bi < |s.blocks| && s.blocks[bi] != VACANT && s.palette[Slot(s.blocks[bi])].refs == 1
    ensures Consistent(Unlisting(s, bi))
  {
    var p := Slot(s.blocks[bi]);
    var cells := s.blocks[bi := VACANT];
    var ones := s.placed.Remove(bi).ones;
    var t := Unlisting(s, bi);
    UnlistedPositions(s.palette, p);
    forall j | 0 <= j < |s.blocks| {
      UnlistingCell(s, bi, j);
    }
    UnlistingCounts(s, bi);
  }

  lemma UnlistingCounts(s: Store, bi: nat)
    requires Consistent(s) && bi < |s.blocks| && s.blocks[bi] != VACANT && s.palette[Slot(s.blocks[bi])].refs == 1
    ensures forall q :: 0 <= q < |Unlisting(s, bi).palette| ==> CountRefs(Unlisting(s, bi).blocks, q) <= Unlisting(s, bi).palette[q].refs
  {
    var p := Slot(s.blocks[bi]);
    var cells := s.blocks[bi := VACANT];
    var ones := s.placed.Remove(bi).ones;
    var t := Unlisting(s, bi);
    ClearCell(s, bi);
    UnlistedPositions(s.palette, p);
    forall q | 0 <= q < |t.palette|
      ensures CountRefs(t.blocks, q) <= t.palette[q].refs
    {
      CountRefsShifted(cells, ones, p, q);
    }
  }

  /** `remove` keeps the invariant. */
  lemma RemoveConsistent(s: Store, c: Coords)
    requires Consistent(s)
    ensures Consistent(Removed(s, c).0)
  {
    var bi := ToIndex(s.bottomY, s.width, c);
    if bi < |s.blocks| && s.blocks[bi] != VACANT {
      ClearCell(s, bi);
      if s.palette[Slot(s.blocks[bi])].refs == 1 {
        UnlistingConsistent(s, bi);
        assert Removed(s, c).0 == Unlisting(s, bi);
      }
    }
  }

  /** `remove` vacates its cell and leaves what every other cell resolves to unchanged, shifted positions included. */
  lemma RemoveKeepsOthers(s: Store, c: Coords, j: nat)
    requires Consistent(s) && j < |s.blocks|
    ensures var bi := ToIndex(s.bottomY, s.width, c);
            bi < |s.blocks| ==> Resolve(Removed(s, c).0, j) == if j == bi then None else Resolve(s, j)
  {
    var bi := ToIndex(s.bottomY, s.width, c);
    if bi < |s.blocks| && s.blocks[bi] != VACANT && s.palette[Slot(s.blocks[bi])].refs == 1 {
      UnlistingCell(s, bi, j);
      UnlistedPositions(s.palette, Slot(s.blocks[bi]));
      assert Removed(s, c).0 == Unlisting(s, bi);
    }
  }

  /** Vacating the cell `insert` filled at a vacant cell restores the cells and the bitset. */
  lemma InsertVacated(s: Store, c: Coords, slice: seq<Compound>, paletteIndex: nat)
    requires WellFormed(s) && CanInsert(s, c, slice, paletteIndex)
    requires s.blocks[ToIndex(s.bottomY, s.width, c)] == VACANT
    ensures var bi := ToIndex(s.bottomY, s.width, c);
            var t := Inserted(s, c, slice, paletteIndex).0;
            t.blocks[bi := VACANT] == s.blocks && t.placed.Remove(bi) == s.placed
  {
    var bi := ToIndex(s.bottomY, s.width, c);
    var t := Inserted(s, c, slice, paletteIndex).0;
    assert t.blocks[bi := VACANT] == s.blocks;
    assert t.placed.Remove(bi).ones == s.placed.ones;
  }

  /** Shifting positions past the end of the palette list changes no cell. */
  lemma ShiftedPastPalette(s: Store, p: u16)
    requires Consistent(s) && p >= |s.palette|
    ensures Shifted(s.blocks, s.placed.ones, p) == s.blocks
  {
  }

  /** `remove` undoes `insert` at a vacant cell, unless the slice was listed with count 0, and returns the inserted block. */
  lemma InsertRemoveRoundTrip(s: Store, c: Coords, slice: seq<Compound>, paletteIndex: nat)
    requires Consistent(s) && CanInsert(s, c, slice, paletteIndex)
    requires s.blocks[ToIndex(s.bottomY, s.width, c)] == VACANT
    requires FirstMatch(s.palette, slice).Some? ==> s.palette[FirstMatch(s.palette, slice).value].refs >= 1
    ensures (InsertWellFormed(s, c, slice, paletteIndex);
             Removed(Inserted(s, c, slice, paletteIndex).0, c) == (s, EntryBlock(slice, TruncU16(paletteIndex))))
  {
    InsertWellFormed(s, c, slice, paletteIndex);
    MatchesAgree(s.palette, slice);
    var bi := ToIndex(s.bottomY, s.width, c);
    var idx := InsertTarget(s.palette, slice).1;
    assert idx < 0xFFFF;
    PackParts(idx, TruncU16(paletteIndex));
    InsertVacated(s, c, slice, paletteIndex);
    var t := Inserted(s, c, slice, paletteIndex).0;
    var u := Cleared(t, bi);
    assert u == s.(palette := t.palette);
    if FirstMatch(s.palette, slice).None? {
      assert t.palette[..idx] + t.palette[idx + 1..] == s.palette;
      ShiftedPastPalette(s, idx);
    } else {
      assert t.palette[idx := t.palette[idx].(refs := t.palette[idx].refs - 1)] == s.palette;
    }
    assert Release(u, idx) == s;
  }

  // ---- what iteration yields ----

  /** Every item the iterator yields is what `get_raw` finds at its coordinates, read as a block. */
  lemma {:induction false} ItemsFromSound(s: Store, i: nat, read: Compound -> Result<Block>, k: nat)
    requires WellFormed(s) && |s.blocks| <= 0x1_0000_0000 && k < |ItemsFrom(s, i, read)|
    ensures var item := ItemsFrom(s, i, read)[k];
            var raw := RawAt(s, item.0);
            raw.Done? && raw.value.Some? && read(raw.value.value) == Ok(item.1)
    decreases |s.blocks| - i
  {
    if i !in s.placed.ones {
      ItemsFromSound(s, i + 1, read, k);
    } else if k == 0 {
      CoordsRoundTrip(s.bottomY, s.width, i);
    } else {
      ItemsFromSound(s, i + 1, read, k - 1);
    }
  }

  /** Every occupied cell points at a listed slice, within it, at a compound that reads as a block. */
  predicate AllReadable(s: Store, read: Compound -> Result<Block>)
  {
    forall i :: 0 <= i < |s.blocks| && s.blocks[i] != VACANT ==>
      Slot(s.blocks[i]) < |s.palette| && Within(s.blocks[i]) < |s.palette[Slot(s.blocks[i])].slice| &&
      read(s.palette[Slot(s.blocks[i])].slice[Within(s.blocks[i])]).Ok?
  }

  /** The set positions at or after `i`. */
  function OnesFrom(ones: set<nat>, i: nat): set<nat>
  {
    set j | j in ones && i <= j
  }

  lemma OnesFromStep(ones: set<nat>, i: nat)
    ensures OnesFrom(ones, i) == OnesFrom(ones, i + 1) + (if i in ones then {i} else {})
    ensures i !in OnesFrom(ones, i + 1)
  {
  }

  lemma OnesFromPast(b: BitSet, i: nat)
    requires b.Valid() && i >= b.len
    ensures OnesFrom(b.ones, i) == {}
  {
  }

  lemma {:induction false} ItemsFromCount(s: Store, i: nat, read: Compound -> Result<Block>)
    requires WellFormed(s) && AllReadable(s, read)
    ensures |ItemsFrom(s, i, read)| == |OnesFrom(s.placed.ones, i)|
    decreases |s.blocks| - i
  {
    if i >= |s.blocks| {
      OnesFromPast(s.placed, i);
    } else {
      ItemsFromCount(s, i + 1, read);
      OnesFromStep(s.placed.ones, i);
    }
  }

  /** When every occupied cell reads, the iterator (and so `get_all`) yields `len` items. */
  lemma ItemsCount(s: Store)
    requires WellFormed(s) && AllReadable(s, FromCompound)
    ensures |Items(s)| == s.placed.CountOnes() && |AllWithCoordinates(s)| == s.placed.CountOnes()
  {
    ItemsFromCount(s, 0, FromCompound);
    assert OnesFrom(s.placed.ones, 0) == s.placed.ones;
  }

  /** Every item `get_all` lists is a block `get` reads at those coordinates. */
  lemma GetAllSound(s: Store, k: nat)
    requires WellFormed(s) && |s.blocks| <= 0x1_0000_0000 && k < |AllWithCoordinates(s)|
    ensures GetAt(s, AllWithCoordinates(s)[k].coordinates) == Done(Ok(Some(AllWithCoordinates(s)[k].block)))
  {
    ItemsFromSound(s, 0, FromCompound, k);
  }

  /** `generate_palette`: each block as its compound. */
  function GeneratePalette(bs: seq<Block>): (r: seq<Compound>)
  {
    seq(|bs|, i requires 0 <= i < |bs| => ToCompound(bs[i]))
  }

  /** A generated palette reads back as the blocks' normal forms. */
  lemma GeneratePaletteReadsBack(bs: seq<Block>)
    ensures |GeneratePalette(bs)| == |bs|
    ensures forall i :: 0 <= i < |bs| ==> FromCompound(GeneratePalette(bs)[i]) == Ok(Normalized(bs[i]))
  {
    forall i | 0 <= i < |bs| {
      FromToCompound(bs[i]);
    }
  }

  // ---- the object ----

  /** A width that truncates to zero as a `u32` leaves no room for any layer within `usize`. */
  lemma TruncatedWidth(width: nat, count: nat)
    ensures width > 0 && count > 0 && WrapU32(width) == 0 ==> width * count * width > USIZE_MAX
  {
    if width > 0 && count > 0 && WrapU32(width) == 0 {
      assert width >= 0x1_0000_0000;
      MulLeMono(1, count, width);
      MulLeMono(width, width * count, width);
      MulLeMono(0x1_0000_0000, width, 0x1_0000_0000);
      MulLeMono(0x1_0000_0000, width, width);
      MulNonNeg(width, width);
    }
  }

  /** A `PalettedBlocks`: the cells are a fixed-size buffer, the palette list and the bitset are reassigned. */
  class PalettedBlocks {
    var palette: seq<PaletteRef>
    const blocks: array<u32>
    var placed: BitSet
    const bottomY: i32
    const width: u32

    /** The fields as a `Store` value. */
    function State(): Store
      reads this, blocks
    {
      Store(palette, blocks[..], placed, bottomY, width)
    }

    predicate Valid()
      reads this, blocks
    {
      Consistent(State())
    }

    /**
     * `new`: every one of the `width × height × width` cells vacant, no bit set and no
     * palette listed; the bottom and the width are truncated to `i32` and `u32`.
     */
    constructor (worldHeight: RegionRules.Height, width: nat)
      requires worldHeight.Count() < 1024
      requires width * worldHeight.Count() * width <= USIZE_MAX
      ensures Valid() && placed.CountOnes() == 0
      ensures State() == Store([], seq(width * worldHeight.Count() * width, _ => VACANT),
                               WithCapacity(width * worldHeight.Count() * width),
                               WrapI32(worldHeight.start), WrapU32(width))
    {
      MulNonNeg(width, worldHeight.Count());
      MulNonNeg(width * worldHeight.Count(), width);
      var n := width * worldHeight.Count() * width;
      TruncatedWidth(width, worldHeight.Count());
      palette := [];
      blocks := new u32[n](_ => VACANT);
      placed := WithCapacity(n);
      bottomY := WrapI32(worldHeight.start);
      this.width := WrapU32(width);
    }

    /** `len`: the number of occupied cells. */
    function Len(): (n: nat)
      reads this, blocks
      requires WellFormed(State())
      ensures n == |Occupied(State())|
    {
      LenCountsOccupied(State());
      placed.CountOnes()
    }

    /** `insert`, searching the palette list for the last listing of the slice. */
    method Insert(c: Coords, slice: seq<Compound>, paletteIndex: nat) returns (r: u32)
      requires WellFormed(State()) && CanInsert(State(), c, slice, paletteIndex)
      modifies this, blocks
      ensures (State(), r) == Inserted(old(State()), c, slice, paletteIndex)
      ensures old(Valid()) ==> Valid()
    {
      ghost var s := State();
      if Valid() {
        InsertConsistent(s, c, slice, paletteIndex);
      }
      var index;
      palette, index := CountUse(palette, slice);
      var bi := ToIndex(bottomY, width, c);
      PackParts(TruncU16(index), TruncU16(paletteIndex));
      blocks[bi] := Pack(TruncU16(index), TruncU16(paletteIndex));
      placed := placed.Insert(bi);
      r := WrapU32(index);
      assert blocks[..] == s.blocks[bi := Pack(TruncU16(index), TruncU16(paletteIndex))];
    }

    /** `insert_at`: an already listed palette position, counted once more. */
    method InsertAt(c: Coords, palette: u32, paletteIndex: u32)
      requires WellFormed(State()) && CanInsertAt(State(), c, palette, paletteIndex)
      modifies this, blocks
      ensures State() == InsertedAt(old(State()), c, palette, paletteIndex)
      ensures old(Valid()) ==> Valid()
    {
      if Valid() {
        InsertAtConsistent(State(), c, palette, paletteIndex);
      }
      this.palette := this.palette[palette := this.palette[palette].(refs := this.palette[palette].refs + 1)];
      var bi := ToIndex(bottomY, width, c);
      blocks[bi] := Pack(TruncU16(palette), TruncU16(paletteIndex));
      placed := placed.Insert(bi);
    }

    /** `insert_palette_only`, returning at the first listing of the slice. */
    method InsertPaletteOnly(slice: seq<Compound>) returns (r: u32)
      modifies this
      ensures (State(), r) == PaletteOnly(old(State()), slice)
      ensures old(Valid()) && (FirstMatch(old(palette), slice).Some? || |old(palette)| < 0xFFFF) ==> Valid()
    {
      if Valid() && (FirstMatch(palette, slice).Some? || |palette| < 0xFFFF) {
        InsertPaletteOnlyConsistent(State(), slice);
      }
      var i := 0;
      while i < |palette|
        invariant i <= |palette|
        invariant FirstMatch(palette, slice) == FirstMatchFrom(palette, slice, i)
      {
        if palette[i].slice == slice {
          return WrapU32(i);
        }
        i := i + 1;
      }
      palette := palette + [PaletteRef(slice, 0)];
      r := WrapU32(|palette| - 1);
    }

    /** `get_raw`: the compound a cell points at, if any. */
    method GetRaw(c: Coords) returns (r: Option<Compound>)
      requires RawAt(State(), c).Done?
      ensures r == RawAt(State(), c).value
    {
      var bi := ToIndex(bottomY, width, c);
      if bi >= blocks.Length || blocks[bi] == VACANT {
        return None;
      }
      var (p, pi) := DeconstructBlockVal(blocks[bi]);
      r := Some(palette[p].slice[pi]);
    }

    /** `get`: the raw compound read as a block. */
    method Get(c: Coords) returns (r: Result<Option<Block>>)
      requires GetAt(State(), c).Done?
      ensures r == GetAt(State(), c).value
    {
      var raw := GetRaw(c);
      match raw {
        case None => r := Ok(None);
        case Some(compound) =>
          var b := FromCompound(compound);
          r := if b.Ok? then Ok(Some(b.value)) else Err(b.error);
      }
    }

    /** `shift_indexes`: every occupied cell pointing past `index` points one position lower. */
    method ShiftIndexes(index: u16)
      requires WellFormed(State())
      modifies blocks
      ensures blocks[..] == Shifted(old(blocks[..]), placed.ones, index)
    {
      for i := 0 to blocks.Length
        invariant forall j :: 0 <= j < i ==> blocks[j] == ShiftCell(old(blocks[j]), j in placed.ones, index)
        invariant forall j :: i <= j < blocks.Length ==> blocks[j] == old(blocks[j])
      {
        if i in placed.ones {
          var (p, pi) := DeconstructBlockVal(blocks[i]);
          if p > index {
            blocks[i] := Pack(p - 1, pi);
          }
        }
      }
    }

    /** `remove` and `remove_block`: vacate the cell, release its palette, and return its block. */
    method Remove(c: Coords) returns (r: Result<Block>)
      requires WellFormed(State())
      modifies this, blocks
      ensures (State(), r) == Removed(old(State()), c)
      ensures old(Valid()) ==> Valid()
    {
      ghost var s := State();
      if Valid() {
        RemoveConsistent(s, c);
      }
      var bi := ToIndex(bottomY, width, c);
      if bi >= blocks.Length {
        return Err(OutOfBounds(blocks.Length, bi));
      }
      var v := blocks[bi];
      blocks[bi] := VACANT;
      if v == VACANT {
        assert blocks[..] == s.blocks;
        return Err(UnsetPaletteBlock(bi));
      }
      placed := placed.Remove(bi);
      var (p, pi) := DeconstructBlockVal(v);
      if p >= |palette| {
        return Err(InvalidPaletteIndex(p));
      }
      ClearCell(s, bi);
      var entry := palette[p];
      if entry.refs == 1 {
        palette := palette[..p] + palette[p + 1..];
        ShiftIndexes(p);
      } else {
        palette := palette[p := entry.(refs := if entry.refs == 0 then USIZE_MAX else entry.refs - 1)];
      }
      r := if pi < |entry.slice| then FromCompound(entry.slice[pi]) else Err(OutOfBounds(|entry.slice|, pi));
    }

    /** `contains`: iterate until a yielded block equals `b`. */
    method Contains(b: Block) returns (r: bool)
      requires WellFormed(State())
      ensures r == ContainsBlock(State(), b)
    {
      ghost var s := State();
      var it := new BlocksIter(this);
      while true
        invariant it.of == this && it.Valid() && State() == s
        invariant ContainsBlock(s, b) == Yields(it.rest, b)
        decreases |it.rest|
      {
        var n := it.Next();
        if n.None? {
          return false;
        }
        YieldsCons(n.value, it.rest, b);
        if BlockEq(n.value.1, b) {
          return true;
        }
      }
    }

    /** `get_all`: collect what the iterator yields. */
    method GetAll() returns (r: seq<RegionRules.BlockWithCoordinate>)
      requires WellFormed(State())
      ensures r == AllWithCoordinates(State())
    {
      ghost var s := State();
      var it := new BlocksIter(this);
      r := [];
      while true
        invariant it.of == this && it.Valid() && State() == s
        invariant AllWithCoordinates(s) == r + WithCoordinates(it.rest)
        decreases |it.rest|
      {
        var n := it.Next();
        if n.None? {
          return;
        }
        WithCoordinatesCons(r, n.value, it.rest);
        r := r + [RegionRules.BlockWithCoordinate(n.value.0, n.value.1)];
      }
    }
  }

  /** Taking one item off the front moves its block with coordinates to the collected list. */
  lemma WithCoordinatesCons(r: seq<RegionRules.BlockWithCoordinate>, x: (Coords, Block), items: seq<(Coords, Block)>)
    ensures r + WithCoordinates([x] + items) == r + [RegionRules.BlockWithCoordinate(x.0, x.1)] + WithCoordinates(items)
  {
    assert WithCoordinates([x] + items) == [RegionRules.BlockWithCoordinate(x.0, x.1)] + WithCoordinates(items);
  }

  /** `insert`'s palette update: bump the count of the slice's last listing, or list it with count 1. */
  method CountUse(palette: seq<PaletteRef>, slice: seq<Compound>) returns (pal: seq<PaletteRef>, index: nat)
    ensures (pal, index) == InsertTarget(palette, slice)
  {
    var found := FindLast(palette, slice);
    match found {
      case Some(j) =>
        pal := palette[j := palette[j].(refs := palette[j].refs + 1)];
        index := j;
      case None =>
        pal := palette + [PaletteRef(slice, 1)];
        index := |pal| - 1;
    }
  }

  /** `insert`'s search: every listing is compared, and the last match is kept. */
  method FindLast(palette: seq<PaletteRef>, slice: seq<Compound>) returns (found: Option<nat>)
    ensures found == LastMatch(palette, slice)
  {
    found := None;
    for i := 0 to |palette|
      invariant found == LastMatch(palette[..i], slice)
    {
      assert palette[..i + 1][..i] == palette[..i];
      if palette[i].slice == slice {
        found := Some(i);
      }
    }
    assert palette[..|palette|] == palette;
  }

  /** The iterator over a `PalettedBlocks`: the set bits from `pos` on, in order; `rest` is what it has left to yield. */
  class BlocksIter {
    const of: PalettedBlocks
    ghost const snapshot: Store
    var pos: nat
    ghost var rest: seq<(Coords, Block)>

    /** The store is not changed while it is iterated over (it is borrowed). */
    ghost predicate Valid()
      reads this, of, of.blocks
    {
      of.State() == snapshot && WellFormed(snapshot) && pos <= |snapshot.blocks| &&
      rest == ItemsFrom(snapshot, pos, FromCompound)
    }

    /** `into_iter`: from the first cell. */
    constructor (of: PalettedBlocks)
      requires WellFormed(of.State())
      ensures this.of == of && Valid() && rest == Items(of.State())
    {
      this.of := of;
      snapshot := of.State();
      pos := 0;
      rest := Items(of.State());
    }

    /** `next`: the next occupied cell as its coordinates and block; nothing once a cell does not resolve or read. */
    method Next() returns (r: Option<(Coords, Block)>)
      requires Valid()
      modifies this
      ensures Valid()
      ensures r.None? <==> old(rest) == []
      ensures r.Some? ==> old(rest) == [r.value] + rest
    {
      ghost var s := snapshot;
      while pos < of.blocks.Length && pos !in of.placed.ones
        invariant pos <= of.blocks.Length
        invariant ItemsFrom(s, pos, FromCompound) == rest == old(rest)
        decreases of.blocks.Length - pos
      {
        pos := pos + 1;
      }
      if pos == of.blocks.Length {
        return None;
      }
      var i := pos;
      assert ItemsFrom(s, i, FromCompound) == old(rest);
      pos := pos + 1;
      rest := ItemsFrom(s, pos, FromCompound);
      var (p, pi) := DeconstructBlockVal(of.blocks[i]);
      if p >= |of.palette| || pi >= |of.palette[p].slice| {
        ItemsFromStop(s, i, FromCompound);
        return None;
      }
      var b := FromCompound(of.palette[p].slice[pi]);
      if b.Err? {
        ItemsFromStop(s, i, FromCompound);
        return None;
      }
      r := Some((ToCoords(of.bottomY, of.width, WrapU32(i)), b.value));
      ItemsFromYield(s, i, FromCompound, r.value);
    }
  }

}
