/**
 * Mapping between screen coordinates and logical board cells.
 *
 * Cells are CellW x CellH pixels with a gap of Gap pixels, so one cell step is
 * a stride of CellW + Gap horizontally and CellH + Gap vertically. The board is
 * centred on the camera centre (cx, cy): horizontally on a fixed nominal width
 * of MapWidth cells, vertically on the board's live row count. Coordinates are
 * exact reals.
 */
module Geometry {

  const CellW := 20
  const CellH := 20
  const Gap := 2
  /** Nominal board width in cells, used only for horizontal centring. */
  const MapWidth := 3

  const StrideX: real := (CellW + Gap) as real
  const StrideY: real := (CellH + Gap) as real
  /** Half a vertical stride: the camera step that keeps cells still when one row is added. */
  const HalfStrideY: real := StrideY / 2.0

  /** Screen position of the top-left corner of cell (0, 0). */
  function MapStart(cx: real, cy: real, rows: nat): (real, real) {
    (cx - (MapWidth as real * StrideX) / 2.0, cy - (rows as real * StrideY) / 2.0)
  }

  /** Screen position (x, y) of the top-left corner of cell (r, c), as the board is drawn. */
  function CellScreen(cx: real, cy: real, rows: nat, r: int, c: int): (real, real) {
    var (mapX, mapY) := MapStart(cx, cy, rows);
    (mapX + c as real * StrideX, mapY + r as real * StrideY)
  }

  /** The cell (row, col) under screen point (x, y): floor division by the stride. */
  function MapCell(cx: real, cy: real, rows: nat, x: real, y: real): (int, int) {
    var (mapX, mapY) := MapStart(cx, cy, rows);
    (((y - mapY) / StrideY).Floor, ((x - mapX) / StrideX).Floor)
  }

  /** Point (x, y) lies in the box whose top-left corner is `corner`, gap included, right and bottom edges excluded. */
  predicate InBox(corner: (real, real), x: real, y: real) {
    corner.0 <= x < corner.0 + StrideX && corner.1 <= y < corner.1 + StrideY
  }

  /** Point (x, y) lies in the drawn box of cell (r, c). */
  predicate InCell(cx: real, cy: real, rows: nat, r: int, c: int, x: real, y: real) {
    InBox(CellScreen(cx, cy, rows, r, c), x, y)
  }

  lemma FloorIs(q: real, k: int)
    ensures q.Floor == k <==> k as real <= q < k as real + 1.0
  {
  }

  /** Screen-to-cell inverts cell-to-screen: a point maps to (r, c) exactly when it lies in that cell's box. */
  lemma MapCellIffInCell(cx: real, cy: real, rows: nat, r: int, c: int, x: real, y: real)
    ensures MapCell(cx, cy, rows, x, y) == (r, c) <==> InCell(cx, cy, rows, r, c, x, y)
  {
    var (mapX, mapY) := MapStart(cx, cy, rows);
    FloorIs((y - mapY) / StrideY, r);
    FloorIs((x - mapX) / StrideX, c);
  }

  /** Every point lies in the box of the cell it maps to. */
  lemma MapCellInCell(cx: real, cy: real, rows: nat, x: real, y: real)
    ensures var (r, c) := MapCell(cx, cy, rows, x, y); InCell(cx, cy, rows, r, c, x, y)
  {
    var (r, c) := MapCell(cx, cy, rows, x, y);
    MapCellIffInCell(cx, cy, rows, r, c, x, y);
  }
}
