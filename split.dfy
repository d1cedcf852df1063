/**
 * Splitting a fill operation along the section grid (`split_fill_into_sections`)
 * and the short-circuit paths of the general `split_fill_into`.
 *
 * A section is 16 blocks tall and a Y belongs to section floor(Y / 16). In
 * two's complement `y & 15` is the non-negative remainder of y modulo 16,
 * which is Dafny's `y % 16` for every sign of y.
 */
module Split {
  import opened WorldCoordinate
  import opened Operations
  import opened Errors
  import Nbt
  import opened Arith

  datatype SplitUnit = Section | Chunk | Region

  const NON_FILL := "Tried to map a non-fill operation into unit areas"

  /** The section index of a Y: floor(y / 16). */
  function SectionOf(y: int): int
  {
    y / 16
  }

  /** A fill from the upper corner (at `top`'s x/z and height `hi`) down to the lower one. */
  function Piece(top: Coordinate, bottom: Coordinate, hi: int, lo: int, block: Nbt.Block): Operation
  {
    Fill(At(top.X(), hi, top.Z()), At(bottom.X(), lo, bottom.Z()), block)
  }

  function TopPiece(top: Coordinate, bottom: Coordinate, block: Nbt.Block): Operation
  {
    Piece(top, bottom, top.Y(), top.Y() - top.Y() % 16, block)
  }

  function MiddlePiece(top: Coordinate, bottom: Coordinate, idx: int, block: Nbt.Block): Operation
  {
    Piece(top, bottom, idx * 16 + 15, idx * 16, block)
  }

  function BottomPiece(top: Coordinate, bottom: Coordinate, block: Nbt.Block): Operation
  {
    Piece(top, bottom, bottom.Y() + (15 - bottom.Y() % 16), bottom.Y(), block)
  }

  /** The full-section pieces for sections low+1 .. upto-1, in ascending order. */
  function Middles(top: Coordinate, bottom: Coordinate, low: int, upto: int, block: Nbt.Block): (ms: seq<Operation>)
    requires low < upto
    ensures |ms| == upto - low - 1
  {
    seq(upto - low - 1, k => MiddlePiece(top, bottom, low + 1 + k, block))
  }

  lemma MiddlesPush(top: Coordinate, bottom: Coordinate, low: int, upto: int, block: Nbt.Block)
    requires low < upto
    ensures Middles(top, bottom, low, upto + 1, block)
      == Middles(top, bottom, low, upto, block) + [MiddlePiece(top, bottom, upto, block)]
  {
  }

  /** The corner with the larger Y and the other one (the second when the Ys tie). */
  function Upper(from: Coordinate, to: Coordinate): Coordinate
  {
    if from.Y() > to.Y() then from else to
  }

  function Lower(from: Coordinate, to: Coordinate): Coordinate
  {
    if from.Y() > to.Y() then to else from
  }

  /** `split_fill_into_sections`, as a value. */
  function SectionSplit(op: Operation): Result<seq<Operation>>
  {
    if !op.Fill? then Err(InvalidOperation(NON_FILL))
    else if SectionOf(op.from.Y()) == SectionOf(op.to.Y()) then Ok([op])
    else
      var top, bottom := Upper(op.from, op.to), Lower(op.from, op.to);
      var low, high := SectionOf(bottom.Y()), SectionOf(top.Y());
      Ok([TopPiece(top, bottom, op.block)] + Middles(top, bottom, low, high, op.block)
         + [BottomPiece(top, bottom, op.block)])
  }

  /** `split_fill_into_sections`: pushes the top piece, the full sections in between and the bottom piece. */
  method SplitFillIntoSections(op: Operation) returns (r: Result<seq<Operation>>)
    ensures r == SectionSplit(op)
  {
    if !op.Fill? {
      return Err(InvalidOperation(NON_FILL));
    }
    var from, to, block := op.from, op.to, op.block;
    var sectFrom, sectTo := from.Y() / 16, to.Y() / 16;
    if sectFrom == sectTo {
      return Ok([op]);
    }
    var top, bottom := to, from;
    if from.Y() > to.Y() {
      top, bottom := from, to;
    }
    var ops := [Fill(At(top.X(), top.Y(), top.Z()), At(bottom.X(), top.Y() - top.Y() % 16, bottom.Z()), block)];
    var high, low := sectTo, sectFrom;
    if sectFrom > sectTo {
      high, low := sectFrom, sectTo;
    }
    if from.Y() > to.Y() { DivMonotone(to.Y(), from.Y(), 16); } else { DivMonotone(from.Y(), to.Y(), 16); }
    for idx := low + 1 to high
      invariant ops == [TopPiece(top, bottom, block)] + Middles(top, bottom, low, idx, block)
    {
      MiddlesPush(top, bottom, low, idx, block);
      ops := ops + [Fill(At(top.X(), idx * 16 + 15, top.Z()), At(bottom.X(), idx * 16, bottom.Z()), block)];
    }
    ops := ops + [Fill(At(top.X(), bottom.Y() + (15 - bottom.Y() % 16), top.Z()), At(bottom.X(), bottom.Y(), bottom.Z()), block)];
    return Ok(ops);
  }

  /** A piece covers height y when y lies between its lower and its upper corner. */
  predicate Covers(p: Operation, y: int)
  {
    p.Fill? && p.to.Y() <= y <= p.from.Y()
  }

  /** Some piece of `ps` covers height y. */
  predicate CoveredBy(ps: seq<Operation>, y: int)
  {
    exists k :: 0 <= k < |ps| && Covers(ps[k], y)
  }

  /** The section a piece of a split from section `low` up to section `high` lies in: top, ascending middles, bottom. */
  function PieceSection(k: int, low: int, high: int): int
  {
    if k == 0 then high else if k == high - low then low else low + k
  }

  lemma SectionBounds(y: int)
    ensures 16 * SectionOf(y) <= y < 16 * SectionOf(y) + 16
    ensures y - y % 16 == 16 * SectionOf(y)
  {
  }

  /**
   * Piece k of a cross-section split lies in section PieceSection(k) and
   * covers exactly the heights of that section that lie between the corners;
   * it spans the x/z extent of the corners and carries the fill's block.
   */
  lemma {:induction false} PieceShape(op: Operation, k: int, y: int)
    requires op.Fill? && SectionOf(op.from.Y()) != SectionOf(op.to.Y())
    requires 0 <= k < |SectionSplit(op).value|
    ensures var top, bottom := Upper(op.from, op.to), Lower(op.from, op.to);
      var p := SectionSplit(op).value[k];
      && p.Fill? && p.block == op.block
      && p.from == At(top.X(), p.from.Y(), top.Z()) && p.to == At(bottom.X(), p.to.Y(), bottom.Z())
      && SectionOf(p.from.Y()) == SectionOf(p.to.Y()) == PieceSection(k, SectionOf(bottom.Y()), SectionOf(top.Y()))
      && (Covers(p, y) <==> bottom.Y() <= y <= top.Y()
                            && SectionOf(y) == PieceSection(k, SectionOf(bottom.Y()), SectionOf(top.Y())))
  {
    var top, bottom := Upper(op.from, op.to), Lower(op.from, op.to);
    var low, high := SectionOf(bottom.Y()), SectionOf(top.Y());
    var ps := SectionSplit(op).value;
    assert |ps| == high - low + 1;
    SectionBounds(top.Y());
    SectionBounds(bottom.Y());
    SectionBounds(y);
    if k == 0 {
      assert ps[k] == TopPiece(top, bottom, op.block);
    } else if k == high - low {
      assert ps[k] == BottomPiece(top, bottom, op.block);
    } else {
      assert ps[k] == MiddlePiece(top, bottom, low + k, op.block);
      SectionBounds(16 * (low + k));
      SectionBounds(16 * (low + k) + 15);
    }
  }

  /** A cross-section split gives high - low + 1 pieces. */
  lemma PieceCount(op: Operation)
    requires op.Fill? && SectionOf(op.from.Y()) != SectionOf(op.to.Y())
    ensures SectionSplit(op).Ok?
    ensures |SectionSplit(op).value| == SectionOf(Upper(op.from, op.to).Y()) - SectionOf(Lower(op.from, op.to).Y()) + 1
  {
  }

  /**
   * The pieces tile the fill's height range: every height between the
   * corners is covered by exactly one piece, and no piece reaches outside.
   */
  lemma {:induction false} PiecesTile(op: Operation)
    requires op.Fill? && SectionOf(op.from.Y()) != SectionOf(op.to.Y())
    ensures var ps := SectionSplit(op).value;
      var top, bottom := Upper(op.from, op.to), Lower(op.from, op.to);
      && (forall y :: bottom.Y() <= y <= top.Y() ==> CoveredBy(ps, y))
      && (forall k, y :: 0 <= k < |ps| && Covers(ps[k], y) ==> bottom.Y() <= y <= top.Y())
      && (forall k1, k2, y :: 0 <= k1 < |ps| && 0 <= k2 < |ps| && Covers(ps[k1], y) && Covers(ps[k2], y) ==> k1 == k2)
  {
    var ps := SectionSplit(op).value;
    var top, bottom := Upper(op.from, op.to), Lower(op.from, op.to);
    var low, high := SectionOf(bottom.Y()), SectionOf(top.Y());
    forall y | bottom.Y() <= y <= top.Y()
      ensures CoveredBy(ps, y)
    {
      var s := SectionOf(y);
      var k := if s == high then 0 else if s == low then high - low else s - low;
      PieceShape(op, k, y);
      assert Covers(ps[k], y);
    }
    forall k, y | 0 <= k < |ps| && Covers(ps[k], y)
      ensures bottom.Y() <= y <= top.Y()
    {
      PieceShape(op, k, y);
    }
    forall k1, k2, y | 0 <= k1 < |ps| && 0 <= k2 < |ps| && Covers(ps[k1], y) && Covers(ps[k2], y)
      ensures k1 == k2
    {
      PieceShape(op, k1, y);
      PieceShape(op, k2, y);
    }
  }

  /** A fill within one section is returned as it is, and a non-fill is refused. */
  lemma SectionSplitShortCircuits(op: Operation)
    ensures !op.Fill? ==> SectionSplit(op) == Err(InvalidOperation(NON_FILL))
    ensures op.Fill? && SectionOf(op.from.Y()) == SectionOf(op.to.Y()) ==> SectionSplit(op) == Ok([op])
    ensures op.Fill? && SectionOf(op.from.Y()) != SectionOf(op.to.Y()) ==> |SectionSplit(op).value| >= 2
  {
  }

  /** The unit-grid cell of a coordinate that `split_fill_into` compares. */
  function Cell(c: Coordinate, unit: SplitUnit): Coordinate
    requires !unit.Section?
  {
    if unit.Chunk? then AsChunk(c) else AsRegion(c)
  }

  /**
   * `split_fill_into` up to its tiling loop: a section split is delegated,
   * a non-fill is refused and a fill within one chunk (region) is returned
   * as it is. None stands for the chunk/region tiling loop, which is not
   * modelled.
   */
  function SplitFillInto(op: Operation, unit: SplitUnit): Option<Result<seq<Operation>>>
  {
    if unit.Section? then Some(SectionSplit(op))
    else if !op.Fill? then Some(Err(InvalidOperation(NON_FILL)))
    else if Cell(op.from, unit) == Cell(op.to, unit) then Some(Ok([op]))
    else None
  }

  /** Both split functions refuse a non-fill with InvalidOperation. */
  lemma NonFillRefused(op: Operation, unit: SplitUnit)
    requires !op.Fill?
    ensures SplitFillInto(op, unit) == Some(Err(InvalidOperation(NON_FILL)))
  {
  }

  /** The cases in which `split_fill_into` returns the operation as its only piece. */
  lemma SingleCellKept(op: Operation, unit: SplitUnit)
    requires op.Fill?
    ensures SplitFillInto(op, unit) == Some(Ok([op])) <==>
      (if unit.Section? then SectionOf(op.from.Y()) == SectionOf(op.to.Y())
       else Cell(op.from, unit) == Cell(op.to, unit))
  {
    if unit.Section? && SectionOf(op.from.Y()) != SectionOf(op.to.Y()) {
      PieceCount(op);
    }
  }

  predicate Between(v: int, a: int, b: int)
  {
    (a <= v <= b) || (b <= v <= a)
  }

  /** A block lies in the box spanned by two block coordinates. */
  predicate InBox(p: Coordinate, a: Coordinate, b: Coordinate)
  {
    Between(p.X(), a.X(), b.X()) && Between(p.Y(), a.Y(), b.Y()) && Between(p.Z(), a.Z(), b.Z())
  }

  lemma FloorBetween(v: int, a: int, b: int, m: nat)
    requires m > 0 && Between(v, a, b) && a / m == b / m
    ensures v / m == a / m
  {
    if a <= v {
      DivMonotone(a, v, m);
      if v <= b { DivMonotone(v, b, m); } else { DivMonotone(b, v, m); DivMonotone(v, a, m); }
    } else {
      DivMonotone(v, a, m);
      DivMonotone(b, v, m);
    }
  }

  lemma DivMonotone(a: int, b: int, m: nat)
    requires m > 0 && a <= b
    ensures a / m <= b / m
  {
    MulOrder(a / m, b / m, m);
  }

  lemma MulOrder(x: int, y: int, m: nat)
    ensures x >= y + 1 ==> x * m >= y * m + m
  {
    if x >= y + 1 {
      MulLeMono(y + 1, x, m);
    }
  }

  /**
   * Why no mapping is needed: when both corners of a block fill lie in one
   * chunk, every block of the fill does.
   */
  lemma {:induction false} SameChunkFillInside(a: Coordinate, b: Coordinate, p: Coordinate)
    requires a.kind == Default && b.kind == Default && p.kind == Default
    requires AsChunk(a) == AsChunk(b) && InBox(p, a, b)
    ensures AsChunk(p) == AsChunk(a)
  {
    FloorBetween(p.X(), a.X(), b.X(), 16);
    FloorBetween(p.Y(), a.Y(), b.Y(), 16);
    FloorBetween(p.Z(), a.Z(), b.Z(), 16);
  }

  /** The same for a fill whose corners lie in one region. */
  lemma {:induction false} SameRegionFillInside(a: Coordinate, b: Coordinate, p: Coordinate)
    requires a.kind == Default && b.kind == Default && p.kind == Default
    requires AsRegion(a) == AsRegion(b) && InBox(p, a, b)
    ensures AsRegion(p) == AsRegion(a)
  {
    FloorBetween(p.X(), a.X(), b.X(), 512);
    FloorBetween(p.Y(), a.Y(), b.Y(), 512);
    FloorBetween(p.Z(), a.Z(), b.Z(), 512);
  }
}
