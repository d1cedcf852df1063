/**
 * World coordinates tagged with the grid they are measured in (blocks,
 * nether blocks, chunks, regions) and the conversions between grids.
 * The source converts through f64 and floors; on integers that is exact
 * floor division (Dafny's `/` floors for a positive divisor) and plain
 * multiplication.
 */
module WorldCoordinate {
  import opened Arith

  datatype CoordinateType = Default | Nether | Chunk | Region

  datatype Coordinate = Coordinate(value: (int, int, int), kind: CoordinateType)
  {
    function X(): int { value.0 }
    function Y(): int { value.1 }
    function Z(): int { value.2 }
  }

  /** `Coordinate::mc`: floor(v * m) for an integral factor. */
  function Mc(v: int, m: nat): int
  {
    v * m
  }

  /** `Coordinate::dc`: floor(v / m). */
  function Dc(v: int, m: nat): (r: int)
    requires m > 0
    ensures r * m <= v < r * m + m
  {
    v / m
  }

  /** How many overworld blocks one unit of each grid spans along an axis. */
  function Scale(t: CoordinateType): nat
  {
    match t
    case Default => 1
    case Nether => 8
    case Chunk => 16
    case Region => 512
  }

  function Triple(v: (int, int, int), f: int -> int): (int, int, int)
  {
    (f(v.0), f(v.1), f(v.2))
  }

  /** `Coordinate::normalize`: back to overworld block coordinates. */
  function Normalize(c: Coordinate): (r: Coordinate)
    ensures r.kind == Default
    ensures r.value == (c.value.0 * Scale(c.kind), c.value.1 * Scale(c.kind), c.value.2 * Scale(c.kind))
  {
    match c.kind
    case Default => c
    case Nether => Coordinate(Triple(c.value, v => Mc(v, 8)), Default)
    case Chunk => Coordinate(Triple(c.value, v => Mc(v, 16)), Default)
    case Region => Coordinate(Triple(c.value, v => Mc(Mc(v, 32), 16)), Default)
  }

  /** `Coordinate::as_overworld` returns the coordinate unchanged (it does not normalize). */
  function AsOverworld(c: Coordinate): (r: Coordinate)
    ensures r == c
  {
    c
  }

  function AsNether(c: Coordinate): (r: Coordinate)
    ensures r.kind == Nether
    ensures r.value == (Normalize(c).value.0 / 8, Normalize(c).value.1 / 8, Normalize(c).value.2 / 8)
  {
    var n := Normalize(c);
    Coordinate(Triple(n.value, v => Dc(v, 8)), Nether)
  }

  function AsChunk(c: Coordinate): (r: Coordinate)
    ensures r.kind == Chunk
    ensures r.value == (Normalize(c).value.0 / 16, Normalize(c).value.1 / 16, Normalize(c).value.2 / 16)
  {
    var n := Normalize(c);
    Coordinate(Triple(n.value, v => Dc(v, 16)), Chunk)
  }

  /**
   * `Coordinate::as_region`: goes through the chunk grid, dividing by 16 and
   * then by 32, which is the overworld position divided by 512, rounded down.
   */
  function AsRegion(c: Coordinate): (r: Coordinate)
    ensures r.kind == Region
    ensures r.value == (Normalize(c).value.0 / 512, Normalize(c).value.1 / 512, Normalize(c).value.2 / 512)
  {
    var n := Normalize(c).value;
    DivDiv(n.0, 16, 32);
    DivDiv(n.1, 16, 32);
    DivDiv(n.2, 16, 32);
    var chunk := AsChunk(Normalize(c)).value;
    Coordinate(Triple(chunk, v => Dc(v, 32)), Region)
  }

  lemma NormalizeIdempotent(c: Coordinate)
    ensures Normalize(Normalize(c)) == Normalize(c)
  {
  }

  /** Converting to the chunk or region grid a second time changes nothing. */
  lemma {:induction false} GridConversionsIdempotent(c: Coordinate)
    ensures AsChunk(AsChunk(c)) == AsChunk(c)
    ensures AsRegion(AsRegion(c)) == AsRegion(c)
    ensures AsRegion(AsChunk(c)) == AsRegion(c)
  {
    var n := Normalize(c).value;
    var ch := AsChunk(c).value;
    MulDivCancel(ch.0, 16);
    MulDivCancel(ch.1, 16);
    MulDivCancel(ch.2, 16);
    var rg := AsRegion(c).value;
    MulDivCancel(rg.0, 512);
    MulDivCancel(rg.1, 512);
    MulDivCancel(rg.2, 512);
    DivDiv(n.0, 16, 512);
    DivDiv(n.1, 16, 512);
    DivDiv(n.2, 16, 512);
  }

  /** A coordinate lies inside the chunk (and region) it converts to, along each axis. */
  lemma {:induction false} InsideOwnChunk(c: Coordinate)
    ensures Normalize(AsChunk(c)).value.0 <= Normalize(c).value.0 < Normalize(AsChunk(c)).value.0 + 16
    ensures Normalize(AsChunk(c)).value.1 <= Normalize(c).value.1 < Normalize(AsChunk(c)).value.1 + 16
    ensures Normalize(AsChunk(c)).value.2 <= Normalize(c).value.2 < Normalize(AsChunk(c)).value.2 + 16
    ensures Normalize(AsRegion(c)).value.0 <= Normalize(c).value.0 < Normalize(AsRegion(c)).value.0 + 512
    ensures Normalize(AsRegion(c)).value.1 <= Normalize(c).value.1 < Normalize(AsRegion(c)).value.1 + 512
    ensures Normalize(AsRegion(c)).value.2 <= Normalize(c).value.2 < Normalize(AsRegion(c)).value.2 + 512
  {
  }
}
