/**
 * The CrossZero game object: its fields are updated in place by restart, the
 * turn, the win check and the pointer handlers. Each method is proved against
 * a function: the turn and restart against module Engine, the scans against
 * module Win, the row and column insertions against module Board, and the
 * pointer handlers against module Drag.
 *
 * The pointer position and movement are parameters; the drag timer's callback
 * is an explicit event, DragTimerFires. The pointer handlers are proved
 * against module Drag's handlers as written, whose press does not cancel the
 * timer it replaces.
 */
module Game {
  import opened Board
  import opened Geometry
  import opened Win
  import opened Engine
  import opened Drag

  class CrossZero {
    /** Canvas size, read by restart to centre the camera. */
    const width: nat
    const height: nat

    var board: Grid
    var centerX: real
    var centerY: real
    var currentMove: nat
    var state: Phase

    /** Drag state: dragging is set by the timer callback; timerPending says the handle refers to a timer that has not fired. */
    var dragging: bool
    var timerPending: bool
    /** Timers that have not fired and whose handle a later press overwrote, so no release can cancel them. */
    var orphanTimers: nat

    function Snap(): Snapshot
      reads this
    {
      Snapshot(board, centerX, centerY, currentMove, state)
    }

    /** The drag state. */
    function Gesture(): Pointer
      reads this
    {
      Pointer(dragging, timerPending, orphanTimers)
    }

    ghost predicate Valid()
      reads this
    {
      WellFormed(board)
    }

    constructor (width: nat, height: nat)
      ensures Valid() && Snap() == Initial(width, height)
      ensures this.width == width && this.height == height
      ensures Gesture() == Idle
    {
      this.width := width;
      this.height := height;
      dragging := false;
      timerPending := false;
      orphanTimers := 0;
      new;
      Restart();
    }

    method Restart()
      modifies this`board, this`centerX, this`centerY, this`currentMove, this`state
      ensures Valid() && Snap() == Initial(width, height)
    {
      state := Play;
      board := [[1]];
      centerX := width as real / 2.0;
      centerY := height as real / 2.0;
      currentMove := 0;
    }

    /** Length of the run of the value at (row, col), starting at its neighbour in direction (dy, dx), scanning at most ScanLimit - 1 cells. */
    method CheckCellsDir(row: int, col: int, dy: int, dx: int) returns (count: nat)
      requires IsPlayer(Get(board, row, col))
      ensures count == Run(board, row, col, dy, dx, Get(board, row, col), ScanLimit - 1)
    {
      count := 0;
      var player := board[row][col];
      var y, x := row + dy, col + dx;
      var i := 1;
      while i < ScanLimit && 0 <= y < |board| && 0 <= x < |board[y]| && board[y][x] == player
        invariant 1 <= i <= ScanLimit && count == i - 1
        invariant Run(board, row, col, dy, dx, player, ScanLimit - 1)
                  == count + Run(board, y - dy, x - dx, dy, dx, player, ScanLimit - i)
      {
        count := count + 1;
        i, x, y := i + 1, x + dx, y + dy;
      }
    }

    /** Scan the four directions through (row, col), stopping at the first that measures five; a win ends the game. */
    method CheckGameEnd(row: int, col: int) returns (won: bool)
      requires IsPlayer(Get(board, row, col))
      modifies this`state
      ensures won == HasWin(board, row, col)
      ensures state == if won then End else old(state)
    {
      var count := 0;
      var dir := 0;
      while dir < |Dirs| && count < WinLength
        invariant 0 <= dir <= |Dirs|
        invariant count < WinLength ==> forall d :: 0 <= d < dir ==> Total(board, row, col, d) < WinLength
        invariant count >= WinLength ==> 0 < dir && Total(board, row, col, dir - 1) == count
        invariant state == old(state)
      {
        var (dy, dx) := Dirs[dir];
        var forward := CheckCellsDir(row, col, dy, dx);
        var backward := CheckCellsDir(row, col, -dy, -dx);
        count := 1 + forward + backward;
        dir := dir + 1;
      }
      won := count >= WinLength;
      if won {
        state := End;
      }
    }

    /** `map.unshift([])`, n times: n empty rows above the board. */
    method UnshiftRows(n: nat)
      modifies this`board
      ensures board == PrependRows(old(board), n)
    {
      var i := 0;
      while i < n
        invariant 0 <= i <= n
        invariant board == PrependRows(old(board), i)
      {
        board := [[]] + board;
        i := i + 1;
      }
    }

    /** `map[i].unshift(0)`, n times for every row i: n empty columns left of the board. */
    method UnshiftColumns(n: nat)
      modifies this`board
      ensures board == PadRows(old(board), n)
    {
      ghost var b := board;
      var i := 0;
      while i < |board|
        invariant 0 <= i <= |board| == |b|
        invariant forall k :: 0 <= k < i ==> board[k] == PadRow(b[k], n)
        invariant forall k :: i <= k < |board| ==> board[k] == b[k]
      {
        // A missing row would be materialised as [] first; in this model it already is.
        var j := 0;
        while j < n
          invariant 0 <= j <= n && |board| == |b|
          invariant board[i] == PadRow(b[i], j)
          invariant forall k :: 0 <= k < |board| && k != i ==>
                      board[k] == if k < i then PadRow(b[k], n) else b[k]
        {
          board := board[i := [0] + board[i]];
          j := j + 1;
        }
        i := i + 1;
      }
    }

    /**
     * Make cell (row, col) exist, as a move on it requires: rows above, columns
     * to the left and rows below are added, and the camera follows so that no
     * cell moves on screen. Returns the target's new indices.
     */
    method GrowToCell(row: int, col: int) returns (cellRow: nat, cellCol: nat)
      modifies this`board, this`centerX, this`centerY
      ensures var g := Grow(old(board), row, col);
        && board == g.board && cellRow == g.row && cellCol == g.col
        && centerX == old(centerX) + g.moveX && centerY == old(centerY) + g.moveY
    {
      ghost var b0 := board;
      cellRow := if row < 0 then 0 else row;
      cellCol := if col < 0 then 0 else col;
      if row < 0 {
        UnshiftRows(-row);
        centerY := centerY + row as real * HalfStrideY;
      }
      assert board == RowsAbove(b0, row);
      if col < 0 {
        UnshiftColumns(-col);
        centerX := centerX + col as real * StrideX;
      }
      assert board == ColumnsLeft(RowsAbove(b0, row), col);
      if cellRow >= |board| {
        // the target row does not exist yet: it is created below the last row
        centerY := centerY + (cellRow - |board| + 1) as real * HalfStrideY;
        board := ExtendRows(board, cellRow + 1);
      }
    }

    /** A click at (x, y) during play: see Engine.Turn. */
    method DoTurn(x: real, y: real)
      requires Valid()
      modifies this`board, this`centerX, this`centerY, this`currentMove, this`state
      ensures Valid()
      ensures Snap() == Turn(old(Snap()), x, y)
    {
      var (row, col) := MapCell(centerX, centerY, |board|, x, y);
      if Occupied(board, row, col) {
        return;
      }
      ghost var s0 := Snap();
      var cellRow, cellCol := GrowToCell(row, col);
      ghost var g := Grow(s0.board, row, col);
      var player := CurrentPlayer(currentMove);
      board := SetCell(board, cellRow, cellCol, player);
      SetCellGet(g.board, g.row, g.col, player, cellRow, cellCol);
      MoveWellFormed(s0, row, col);
      var isEnd := CheckGameEnd(cellRow, cellCol);
      if !isEnd {
        currentMove := currentMove + 1;
      }
      assert Snap() == Move(s0, row, col);
    }

    /** Pointer movement pans the camera while a drag is in progress. */
    method OnMouseMove(movementX: real, movementY: real)
      modifies this`centerX, this`centerY
      ensures centerX == old(centerX) + (if dragging then movementX else 0.0)
      ensures centerY == old(centerY) + (if dragging then movementY else 0.0)
    {
      if dragging {
        centerX := centerX + movementX;
        centerY := centerY + movementY;
      }
    }

    /** A press schedules a new drag timer; a timer still pending is not cancelled and becomes an orphan. */
    method OnMouseDown()
      modifies this`timerPending, this`orphanTimers
      ensures Gesture() == Step(old(Gesture()), Press, false)
    {
      if timerPending {
        orphanTimers := orphanTimers + 1;
      }
      timerPending := true;
    }

    /** A timer callback runs, the handle's own when latest, an orphan's otherwise: a drag starts. */
    method DragTimerFires(latest: bool)
      requires CanFire(Gesture(), latest)
      modifies this`dragging, this`timerPending, this`orphanTimers
      ensures Gesture() == Step(old(Gesture()), Fire(latest), false)
    {
      dragging := true;
      if latest {
        timerPending := false;
      } else {
        orphanTimers := orphanTimers - 1;
      }
    }

    /**
     * A release without a drag is a click: it restarts an ended game or plays a
     * turn. A release ending a drag changes no game state. Either way the drag
     * ends and the pending timer is cancelled.
     */
    method OnMouseUp(x: real, y: real)
      requires Valid()
      modifies this
      ensures Valid()
      ensures old(dragging) ==> Snap() == old(Snap())
      ensures !old(dragging) && old(state) == End ==> Snap() == Initial(width, height)
      ensures !old(dragging) && old(state) == Play ==> Snap() == Turn(old(Snap()), x, y)
      ensures Gesture() == Step(old(Gesture()), Release, false)
    {
      if !dragging {
        if state == End {
          Restart();
        } else {
          DoTurn(x, y);
        }
      }
      dragging := false;
      timerPending := false;
    }
  }
}
