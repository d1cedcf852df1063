/**
 * Biome cells: biomes are stored per 4 x 4 x 4 cell of a section, so a cell
 * is named by its chunk in the region, its section Y and its position inside
 * the section.
 */
module BiomeCells {
  import opened Ints
  import opened Errors
  import opened LocalCoords
  import opened RegionRules

  const CELL_SIZE: nat := 4

  datatype BiomeCell = BiomeCell(chunk: (u8, u8), section: i8, cell: (u8, u8, u8))

  datatype BiomeCellWithId = BiomeCellWithId(cell: BiomeCell, id: string)

  /** The cell is inside the region and inside its section. */
  predicate InRange(c: BiomeCell)
  {
    c.chunk.0 < 32 && c.chunk.1 < 32 && c.cell.0 < 4 && c.cell.1 < 4 && c.cell.2 < 4
  }

  /** `BiomeCell::new` (and `Into<BiomeCell>` for the tuple form): asserts that the cell is in range. */
  function NewBiomeCell(chunk: (u8, u8), section: i8, cell: (u8, u8, u8)): (r: Checked<BiomeCell>)
    ensures r.Panics? <==> !(chunk.0 < 32 && chunk.1 < 32 && cell.0 < 4 && cell.1 < 4 && cell.2 < 4)
    ensures r.Done? ==> r.value == BiomeCell(chunk, section, cell) && InRange(r.value)
  {
    if chunk.0 < 32 && chunk.1 < 32 && cell.0 < 4 && cell.1 < 4 && cell.2 < 4
    then Done(BiomeCell(chunk, section, cell))
    else Panics
  }

  /**
   * `coordinates_to_biome_cell` (and `BiomeCell::from_coordinates`,
   * `Into<BiomeCell>` for coordinates): asserts x, z < 512; the chunk is
   * (x / 16, z / 16), the section floor(y / 16) and the cell
   * ((x & 15) / 4, (y & 15) / 4, (z & 15) / 4).
   */
  function CoordinatesToBiomeCell(x: u32, y: i32, z: u32): Checked<BiomeCell>
  {
    if x < 512 && z < 512 then
      NewBiomeCell((SatU8(FloorDiv(x, 16)), SatU8(FloorDiv(z, 16))), SatI8(FloorDiv(y, 16)),
                   ((x % 16) / 4, (y % 16) / 4, (z % 16) / 4))
    else Panics
  }

  /** `Into<BiomeCell>` for a block with coordinates: the cell holding its coordinates. */
  function BlockToBiomeCell(b: BlockWithCoordinate): Checked<BiomeCell>
  {
    CoordinatesToBiomeCell(b.coordinates.x, b.coordinates.y, b.coordinates.z)
  }

  /**
   * The cell of region-local coordinates panics exactly outside the region,
   * and otherwise is in range and contains the coordinates: x lies in the
   * cell's 4 blocks of its chunk's 16, likewise z, and y lies in the cell's
   * 4 blocks of its section (for the sections an i8 can name).
   */
  lemma CoordinatesToBiomeCellContains(x: u32, y: i32, z: u32)
    ensures CoordinatesToBiomeCell(x, y, z).Panics? <==> !(x < 512 && z < 512)
    ensures CoordinatesToBiomeCell(x, y, z).Done? ==>
              var c := CoordinatesToBiomeCell(x, y, z).value;
              InRange(c) &&
              16 * c.chunk.0 + 4 * c.cell.0 <= x < 16 * c.chunk.0 + 4 * c.cell.0 + 4 &&
              16 * c.chunk.1 + 4 * c.cell.2 <= z < 16 * c.chunk.1 + 4 * c.cell.2 + 4 &&
              (-2048 <= y < 2048 ==> 16 * c.section + 4 * c.cell.1 <= y < 16 * c.section + 4 * c.cell.1 + 4)
  {
  }

  lemma CoordinatesToBiomeCellExample()
    ensures CoordinatesToBiomeCell(5, 17, 148) == Done(BiomeCell((0, 9), 1, (1, 0, 1)))
    ensures CoordinatesToBiomeCell(248, -42, 21) == Done(BiomeCell((15, 1), -3, (2, 1, 1)))
    ensures CoordinatesToBiomeCell(852, 14, 5212) == Panics
  {
  }

  /** Position of a cell inside its section's 64-entry biome index array: x + 4z + 16y. */
  function BiomeSlot(c: BiomeCell): int
  {
    c.cell.0 + c.cell.2 * 4 + c.cell.1 * 16
  }

  /** Distinct in-range cells of one section occupy distinct slots, all below 64. */
  lemma BiomeSlotInjective(a: BiomeCell, b: BiomeCell)
    requires InRange(a) && InRange(b)
    ensures 0 <= BiomeSlot(a) < BIOME_DATA_LEN
    ensures BiomeSlot(a) == BiomeSlot(b) <==> a.cell == b.cell
  {
  }
}
