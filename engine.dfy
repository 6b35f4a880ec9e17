/**
 * The turn engine of CrossZero as functions on a snapshot of the game state:
 * the initial state after a restart, whose turn it is, how a click grows the
 * board and moves the camera, and the whole effect of one turn. The class in
 * module Game performs these steps in place and is proved against them.
 */
module Engine {
  import opened Board
  import opened Geometry
  import opened Win

  datatype Phase = Play | End

  /** The game state: the board, the camera centre, the move counter and the phase. */
  datatype Snapshot = Snapshot(board: Grid, centerX: real, centerY: real, currentMove: nat, state: Phase)

  /** The state a restart produces on a canvas of the given size: player 1 pre-seeded at (0, 0). */
  function Initial(width: nat, height: nat): Snapshot {
    Snapshot([[1]], width as real / 2.0, height as real / 2.0, 0, Play)
  }

  /** The player who makes the next move, from the parity of the move counter. */
  function CurrentPlayer(currentMove: nat): (p: int)
    ensures IsPlayer(p)
    ensures p == 2 <==> currentMove % 2 == 0
  {
    (currentMove + 1) % 2 + 1
  }

  /** Each accepted move hands the turn to the other player. */
  lemma PlayerAlternates(currentMove: nat)
    ensures CurrentPlayer(currentMove + 1) == 3 - CurrentPlayer(currentMove)
  {
  }

  /** After a restart the game is playing, only (0, 0) is taken (by player 1), the camera is at the canvas midpoint and player 2 moves first. */
  lemma InitialState(width: nat, height: nat, r: int, c: int)
    ensures var s := Initial(width, height);
      && s.state == Play && s.currentMove == 0
      && 2.0 * s.centerX == width as real && 2.0 * s.centerY == height as real
      && Get(s.board, r, c) == (if r == 0 && c == 0 then 1 else Empty)
      && CurrentPlayer(s.currentMove) == 2
  {
  }

  /** The cell under screen point (x, y) in state s. */
  function Clicked(s: Snapshot, x: real, y: real): (int, int) {
    MapCell(s.centerX, s.centerY, |s.board|, x, y)
  }

  /** Screen position of cell (r, c) in state s. */
  function Screen(s: Snapshot, r: int, c: int): (real, real) {
    CellScreen(s.centerX, s.centerY, |s.board|, r, c)
  }

  // ---------------------------------------------------------------------------
  // Growth

  /** How far indices move when a click lands at a negative index i. */
  function Shift(i: int): nat {
    if i < 0 then -i else 0
  }

  /** Rows added above when the target row is negative. */
  function RowsAbove(b: Grid, row: int): (g: Grid)
    ensures |g| == |b| + Shift(row)
  {
    if row < 0 then PrependRows(b, -row) else b
  }

  /** Columns added on the left when the target column is negative. */
  function ColumnsLeft(b: Grid, col: int): (g: Grid)
    ensures |g| == |b|
  {
    if col < 0 then PadRows(b, -col) else b
  }

  /** Rows added below when target row r is past the last row. */
  function RowsBelow(b: Grid, r: nat): (g: Grid)
    ensures r < |g| && (r < |b| ==> |g| == |b|)
  {
    if r >= |b| then ExtendRows(b, r + 1) else b
  }

  /** The board after growth, the target cell's new indices and the camera adjustment. */
  datatype Growth = Growth(board: Grid, row: nat, col: nat, moveX: real, moveY: real)

  /**
   * Grow board b so that cell (row, col) exists: prepend -row empty rows when
   * row < 0, pad every row with -col zeros when col < 0, add rows below when the
   * target row is past the end, and move the camera so cells keep their place.
   */
  function Grow(b: Grid, row: int, col: int): Growth {
    var b2 := ColumnsLeft(RowsAbove(b, row), col);
    var r: nat := row + Shift(row);
    var moveY1 := if row < 0 then row as real * HalfStrideY else 0.0;
    var moveY2 := if r >= |b2| then (r - |b2| + 1) as real * HalfStrideY else 0.0;
    var moveX := if col < 0 then col as real * StrideX else 0.0;
    Growth(RowsBelow(b2, r), r, col + Shift(col), moveX, moveY1 + moveY2)
  }

  lemma RowsAboveGet(b: Grid, row: int, r: int, c: int)
    ensures Get(RowsAbove(b, row), r + Shift(row), c) == Get(b, r, c)
  {
    if row < 0 {
      PrependRowsGet(b, -row, r + Shift(row), c);
    }
  }

  lemma ColumnsLeftGet(b: Grid, col: int, r: int, c: int)
    ensures Get(ColumnsLeft(b, col), r, c + Shift(col)) == Get(b, r, c)
  {
    if col < 0 {
      PadRowsGet(b, -col, r, c + Shift(col));
    }
  }

  lemma RowsBelowGet(b: Grid, r': nat, r: int, c: int)
    ensures Get(RowsBelow(b, r'), r, c) == Get(b, r, c)
  {
    if r' >= |b| {
      ExtendRowsGet(b, r' + 1, r, c);
    }
  }

  /** Growth re-indexes every cell by the fixed offset (Shift(row), Shift(col)), and the target becomes a real row. */
  lemma GrowReindexes(b: Grid, row: int, col: int, r: int, c: int)
    ensures var g := Grow(b, row, col);
      && g.row == row + Shift(row) && g.col == col + Shift(col) && g.row < |g.board|
      && Get(g.board, r + Shift(row), c + Shift(col)) == Get(b, r, c)
  {
    var b1 := RowsAbove(b, row);
    var b2 := ColumnsLeft(b1, col);
    RowsAboveGet(b, row, r, c);
    ColumnsLeftGet(b1, col, r + Shift(row), c);
    RowsBelowGet(b2, row + Shift(row), r + Shift(row), c + Shift(col));
  }

  /** Row count after growth: -row more rows above, or enough rows to reach the target below. */
  lemma GrowRows(b: Grid, row: int, col: int)
    ensures var g := Grow(b, row, col);
      && |g.board| == (if row < 0 then |b| - row else if row < |b| then |b| else row + 1)
      && g.moveY == (if row < 0 then row as real * HalfStrideY
                     else if row < |b| then 0.0
                     else (row - |b| + 1) as real * HalfStrideY)
      && g.moveX == (if col < 0 then col as real * StrideX else 0.0)
  {
  }

  /** Growth with its camera adjustment leaves every cell, under its new indices, at the same place on screen. */
  lemma GrowKeepsScreen(b: Grid, row: int, col: int, cx: real, cy: real, r: int, c: int)
    ensures var g := Grow(b, row, col);
      CellScreen(cx + g.moveX, cy + g.moveY, |g.board|, r + Shift(row), c + Shift(col))
      == CellScreen(cx, cy, |b|, r, c)
  {
    GrowRows(b, row, col);
  }

  lemma GrowWellFormed(b: Grid, row: int, col: int)
    requires WellFormed(b)
    ensures WellFormed(Grow(b, row, col).board)
  {
    if row < 0 {
      PrependRowsWellFormed(b, -row);
    }
    if col < 0 {
      PadRowsWellFormed(RowsAbove(b, row), -col);
    }
  }

  // ---------------------------------------------------------------------------
  // One turn

  /**
   * A move on cell (row, col): nothing if the cell is occupied; otherwise grow
   * the board, write the current player into the target cell, and either end
   * the game (a win) or advance the move counter.
   */
  function Move(s: Snapshot, row: int, col: int): Snapshot {
    if Occupied(s.board, row, col) then s
    else
      var g := Grow(s.board, row, col);
      var b := SetCell(g.board, g.row, g.col, CurrentPlayer(s.currentMove));
      var won := HasWin(b, g.row, g.col);
      Snapshot(b, s.centerX + g.moveX, s.centerY + g.moveY,
               if won then s.currentMove else s.currentMove + 1,
               if won then End else s.state)
  }

  /** The effect of a click at (x, y) during play: a move on the cell under the pointer. */
  function Turn(s: Snapshot, x: real, y: real): Snapshot {
    var (row, col) := Clicked(s, x, y);
    Move(s, row, col)
  }

  /** A move on an occupied cell changes nothing. */
  lemma MoveOnOccupied(s: Snapshot, row: int, col: int)
    requires Occupied(s.board, row, col)
    ensures Move(s, row, col) == s
  {
  }

  /**
   * A move on an empty cell re-indexes the board by (Shift(row), Shift(col)),
   * writes the mover into the target cell and changes no other cell.
   */
  lemma MovePlaces(s: Snapshot, row: int, col: int, r: int, c: int)
    requires !Occupied(s.board, row, col)
    ensures Get(Move(s, row, col).board, r + Shift(row), c + Shift(col))
            == if r == row && c == col then CurrentPlayer(s.currentMove) else Get(s.board, r, c)
  {
    var g := Grow(s.board, row, col);
    var b := SetCell(g.board, g.row, g.col, CurrentPlayer(s.currentMove));
    assert Move(s, row, col).board == b;
    GrowReindexes(s.board, row, col, r, c);
    SetCellGet(g.board, g.row, g.col, CurrentPlayer(s.currentMove), r + Shift(row), c + Shift(col));
  }

  /** Every cell, under its new indices, stays where it was on screen across a move. */
  lemma MoveKeepsScreen(s: Snapshot, row: int, col: int, r: int, c: int)
    ensures Screen(Move(s, row, col), r + Shift(row), c + Shift(col)) == Screen(s, r, c)
  {
    if !Occupied(s.board, row, col) {
      var g := Grow(s.board, row, col);
      var t := Move(s, row, col);
      GrowKeepsScreen(s.board, row, col, s.centerX, s.centerY, r, c);
      assert |t.board| == |g.board| && t.centerX == s.centerX + g.moveX && t.centerY == s.centerY + g.moveY;
    }
  }

  /**
   * During play, a move on an empty cell ends the game exactly when five or
   * more of the mover's marks now line up through it; the move counter
   * advances by one exactly when the game goes on, and stays put when it ends.
   */
  lemma MoveOutcome(s: Snapshot, row: int, col: int)
    requires s.state == Play && !Occupied(s.board, row, col)
    ensures var t := Move(s, row, col);
      && (t.state == End <==>
          exists d :: 0 <= d < |Dirs| &&
            FiveThrough(t.board, row + Shift(row), col + Shift(col), Dirs[d].0, Dirs[d].1, CurrentPlayer(s.currentMove)))
      && (t.state == Play <==> t.currentMove == s.currentMove + 1)
      && (t.state == End <==> t.currentMove == s.currentMove)
  {
    var g := Grow(s.board, row, col);
    var t := Move(s, row, col);
    GrowReindexes(s.board, row, col, row, col);
    assert t.state == (if HasWin(t.board, g.row, g.col) then End else Play);
    MovePlaces(s, row, col, row, col);
    HasWinIffFiveThrough(t.board, g.row, g.col);
  }

  /** A move keeps every cell empty or a player's. */
  lemma MoveWellFormed(s: Snapshot, row: int, col: int)
    requires WellFormed(s.board)
    ensures WellFormed(Move(s, row, col).board)
  {
    if !Occupied(s.board, row, col) {
      var g := Grow(s.board, row, col);
      GrowReindexes(s.board, row, col, row, col);
      GrowWellFormed(s.board, row, col);
      SetCellWellFormed(g.board, g.row, g.col, CurrentPlayer(s.currentMove));
    }
  }

  /** After a turn, the clicked point lies on the target cell under its new indices. */
  lemma TurnClickLandsOnTarget(s: Snapshot, x: real, y: real)
    ensures var (row, col) := Clicked(s, x, y);
      Clicked(Turn(s, x, y), x, y) == (row + Shift(row), col + Shift(col))
  {
    var (row, col) := Clicked(s, x, y);
    var t := Move(s, row, col);
    assert Turn(s, x, y) == t;
    MapCellInCell(s.centerX, s.centerY, |s.board|, x, y);
    assert InBox(Screen(s, row, col), x, y);
    MoveKeepsScreen(s, row, col, row, col);
    assert InBox(Screen(t, row + Shift(row), col + Shift(col)), x, y);
    MapCellIffInCell(t.centerX, t.centerY, |t.board|, row + Shift(row), col + Shift(col), x, y);
  }

  /** After a turn on an empty cell, the clicked point lies on the cell that now holds the mover's mark. */
  lemma TurnMarksClickedCell(s: Snapshot, x: real, y: real)
    requires !Occupied(s.board, Clicked(s, x, y).0, Clicked(s, x, y).1)
    ensures var t := Turn(s, x, y);
      Get(t.board, Clicked(t, x, y).0, Clicked(t, x, y).1) == CurrentPlayer(s.currentMove)
  {
    var (row, col) := Clicked(s, x, y);
    TurnClickLandsOnTarget(s, x, y);
    MovePlaces(s, row, col, row, col);
  }
}
