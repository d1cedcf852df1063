/**
 * A world on disk and the queue of operations to apply to it. A path is the
 * sequence of its components; joining a relative component appends it.
 */
module Worlds {
  import opened Errors
  import opened Operations

  type Path = seq<string>

  /**
   * `Dimension::path`: the folder holding a dimension's region files. The
   * vanilla dimensions end in a `region` folder (the Nether and the End under
   * `DIM-1` and `DIM1`); a custom dimension names that folder itself.
   */
  function DimensionPath(d: Dimension, world: Path): (p: Path)
    ensures |world| < |p| <= |world| + 2 && p[..|world|] == world
    ensures d.Custom? ==> |p| == |world| + 1 && p[|world|] == d.folder
    ensures !d.Custom? ==> p[|p| - 1] == "region" && (|p| == |world| + 1 <==> d.Overworld?)
  {
    var base := match d
      case Overworld => world
      case Nether => world + ["DIM-1"]
      case End => world + ["DIM1"]
      case Custom(dim) => world + [dim];
    if d.Custom? then base else base + ["region"]
  }

  /**
   * Two dimensions of one world share a folder only when a custom dimension
   * is named `region`: it is then the Overworld's folder.
   */
  lemma DimensionPathsDistinct(d1: Dimension, d2: Dimension, world: Path)
    ensures DimensionPath(d1, world) == DimensionPath(d2, world) <==>
              d1 == d2 || {d1, d2} == {Overworld, Custom("region")}
  {
    var p1, p2 := DimensionPath(d1, world), DimensionPath(d2, world);
    if p1 == p2 {
      assert p1[|world|] == p2[|world|] && p1[|p1| - 1] == p2[|p2| - 1];
    }
  }

  /** `World`: the world folder and the operations pushed so far, in order. */
  class World {
    var path: Path
    var operations: seq<OperationData>

    /** `World::new` starts with no operations. */
    constructor (worldPath: Path)
      ensures path == worldPath && operations == []
    {
      path := worldPath;
      operations := [];
    }

    /** `push_op`: queues the operation for the default dimension, the Overworld. */
    method PushOp(operation: Operation)
      modifies this`operations
      ensures operations == old(operations) + [OperationData(Overworld, operation)]
    {
      PushOperationData(OperationData(Overworld, operation));
    }

    /** `push_operation_data`: queues `data` unchanged after the earlier operations. */
    method PushOperationData(data: OperationData)
      modifies this`operations
      ensures operations == old(operations) + [data]
    {
      operations := operations + [data];
    }

    /** `flush` applies nothing yet: it succeeds and leaves the world as it was. */
    method Flush() returns (r: Result<()>)
      ensures r == Ok(())
    {
      r := Ok(());
    }
  }
}
