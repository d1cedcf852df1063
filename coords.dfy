/** Region-local block coordinates: x and z are unsigned, y is signed. */
module LocalCoords {
  import opened Ints

  datatype Coords = Coords(x: u32, y: i32, z: u32)

  /** `From<(u32, i32, u32)> for Coords` and `Coords::new`. */
  function FromTuple(t: (u32, i32, u32)): (r: Coords)
    ensures r.x == t.0 && r.y == t.1 && r.z == t.2
  {
    Coords(t.0, t.1, t.2)
  }

  /** `Coords::as_tuple` and `From<Coords> for (u32, i32, u32)`. */
  function AsTuple(c: Coords): (r: (u32, i32, u32))
    ensures FromTuple(r) == c
  {
    (c.x, c.y, c.z)
  }

  /** `Coords == (u32, i32, u32)`, in either order of the operands. */
  predicate EqTuple(c: Coords, t: (u32, i32, u32))
  {
    AsTuple(c) == t
  }

  lemma TupleRoundTrip(t: (u32, i32, u32), c: Coords)
    ensures AsTuple(FromTuple(t)) == t
    ensures EqTuple(c, t) <==> c == FromTuple(t)
  {
  }
}
