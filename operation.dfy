/**
 * The edit requests of the world editor: a dimension, the operations that
 * target it, and the coordinate an operation is filed under.
 */
module Operations {
  import opened WorldCoordinate
  import Nbt

  /** `Dimension`; Overworld is the default. */
  datatype Dimension = Overworld | Nether | End | Custom(folder: string)

  datatype Operation =
    | Setblock(coordinate: Coordinate, block: Nbt.Block)
    | Fill(from: Coordinate, to: Coordinate, block: Nbt.Block)

  datatype OperationData = OperationData(dimension: Dimension, operation: Operation)

  /**
   * `Operation::get_init_coords`, whose body is not part of this model: a
   * set-block is filed under its coordinate, a fill under its `from` corner.
   */
  function InitCoords(op: Operation): (c: Coordinate)
    ensures op.Setblock? ==> c == op.coordinate
    ensures op.Fill? ==> c == op.from
  {
    match op
    case Setblock(coordinate, _) => coordinate
    case Fill(from, _, _) => from
  }

  /** The three-argument `Coordinate::new` used when splitting builds block coordinates. */
  function At(x: int, y: int, z: int): (c: Coordinate)
    ensures c.kind == Default && c.X() == x && c.Y() == y && c.Z() == z
  {
    Coordinate((x, y, z), Default)
  }
}
