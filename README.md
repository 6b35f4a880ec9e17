# CrossZero game engine in Dafny

A model of the game engine of CrossZero (`crosszero.mjs`). CrossZero is a
two-player five-in-a-row game on a board with no fixed size, played by
clicking on a canvas.

## What the model covers

- **The board** (`board.dfy`, module `Board`). The board is a jagged
  sequence of rows. A cell holds 0 (empty) or a player, 1 or 2. Reading a
  cell that does not exist yields empty.
- **Board growth.** A click left of or above the board prepends rows
  (`map.unshift([])`) or pads every row with zeros (`row.unshift(0)`). A
  click below the board appends rows. The module also defines the
  single-cell write.
- **Screen mapping** (`geometry.dfy`, module `Geometry`). The top-left
  corner of the board is computed from the camera centre, a nominal width
  of 3 cells and the live row count. Cells are 20×20 with a gap of 2. A
  screen point maps to a cell by floor division.
- **Win detection** (`win.dfy`, module `Win`):
  - The four directions are scanned in both senses. Each side looks at no
    more than 4 cells.
  - A direction wins when 1 + forward + backward ≥ 5.
  - Beside the game's own measure sits an independent definition: five
    equal cells lie in a line through the cell.
- **The turn** (`engine.dfy`, module `Engine`). Pure functions over a
  `Snapshot` of the game state (board, camera centre, move counter, phase)
  give:
  - the state a restart produces;
  - the player to move;
  - board growth and the camera compensation;
  - the whole effect of a click.
- **Drag or click** (`drag.dfy`, module `Drag`). The pointer is a small
  state machine: a press schedules a timer, the timer's firing starts a
  drag, and a release ends it.
- **The game object** (`game.dfy`, class `Game.CrossZero`). The object's
  fields are updated in place by the constructor, `Restart`, `DoTurn`,
  `CheckGameEnd` and the pointer handlers; `CheckCellsDir` only reads the
  board. The methods keep the loops of the source, and each is proved
  against a function:
  - `Restart` and `DoTurn` against `Engine`;
  - `CheckCellsDir` and `CheckGameEnd` against `Win.Run` and `Win.HasWin`;
  - `UnshiftRows` and `UnshiftColumns` against `Board.PrependRows` and
    `Board.PadRows`;
  - the pointer handlers against `Drag.Step`.
- **Inputs as parameters.** The pointer position, its movement and the
  canvas size are parameters. The timer's callback is the explicit event
  `DragTimerFires`.

Three behaviours of the source that the model keeps:

- After a restart the new board is `[[1]]`, with player 1 at cell (0, 0),
  not an empty board (crosszero.mjs:25-27).
- Player 2 makes the first move, since the player is
  `(currentMove + 1) % 2 + 1` (crosszero.mjs:286).
- Each scan side of the win check looks at up to 4 cells
  (crosszero.mjs:178), so a measured line can reach 9. It is not capped
  at 5.

## Model

| member | source | states |
|---|---|---|
| Board.Occupied | crosszero.mjs:98 | the occupancy test: the cell reads non-zero; its use is stated by Engine.MoveOnOccupied and Engine.MovePlaces |
| Board.SetCell | crosszero.mjs:139 | the write `map[cellRow][cellCol] = player`; its effect is stated by Board.SetCellGet and Board.SetCellWellFormed |
| Board.PrependRows | crosszero.mjs:104-107 | prepending n empty rows adds exactly n rows |
| Board.PrependRowsGet | crosszero.mjs:104-111 | after n rows are prepended, every cell is found n rows lower; the new rows read as empty |
| Board.PrependRowsWellFormed | crosszero.mjs:104-107 | prepending rows keeps every cell empty or a player's |
| Board.PadRows | crosszero.mjs:113-122 | padding keeps the row count; each row grows by n, holds 0 in its first n places and its old contents after them |
| Board.PadRowAt | crosszero.mjs:116-121 | a padded row holds 0 in its first n places and the old row after them |
| Board.PadRowsGet | crosszero.mjs:113-126 | after every row is padded with n zeros, every cell is found n columns further right; the new columns read as empty |
| Board.PadRowsWellFormed | crosszero.mjs:113-122 | padding keeps every cell empty or a player's |
| Board.ExtendRows | crosszero.mjs:129-137 | creating row `len - 1` below the board gives `len` rows and keeps the old rows as a prefix |
| Board.ExtendRowsGet | crosszero.mjs:129-137 | creating a row below the board changes no cell |
| Board.WriteAt | crosszero.mjs:139 | writing column c of a row: c holds v, earlier missing places read 0, every other place keeps its value |
| Board.SetCellGet | crosszero.mjs:139 | writing a cell changes exactly that cell |
| Board.SetCellWellFormed | crosszero.mjs:139 | writing a player keeps every cell empty or a player's |
| Geometry.MapStart | crosszero.mjs:272-282 | `getMapStart`, the screen position of cell (0, 0); with Geometry.CellScreen it is the partner of MapCell in Geometry.MapCellIffInCell |
| Geometry.MapCell | crosszero.mjs:260-270 | `getMapCell`; its meaning is stated by Geometry.MapCellIffInCell and Geometry.MapCellInCell |
| Geometry.MapCellIffInCell | crosszero.mjs:260-282 | a point maps to cell (r, c) exactly when it lies in that cell's drawn box (gap included) |
| Geometry.MapCellInCell | crosszero.mjs:260-270 | every point lies in the box of the cell it maps to |
| Win.Run | crosszero.mjs:170-182 | a one-sided scan counts at most the limit |
| Win.RunIsLongestPrefix | crosszero.mjs:170-182 | a one-sided scan counts exactly the longest run of the player next to the cell: every counted cell holds the player; below the limit, the next cell does not |
| Win.Total | crosszero.mjs:156-159 | one direction measures between 1 and 9 |
| Win.RunsCover | crosszero.mjs:156-159 | the two scans cover a contiguous stretch of the player's cells; a scan below the limit stops at a cell that is not the player's |
| Win.WindowBoundsRuns | crosszero.mjs:156-162 | five equal cells in a line through the cell force the two scans to sum to at least 4 |
| Win.LineIffFiveThrough | crosszero.mjs:156-162 | 1 + both scans ≥ 5 exactly when five equal cells lie in a line through the cell in that direction |
| Win.TotalIffFiveThrough | crosszero.mjs:150-162 | the same for each of the four scan directions |
| Win.HasWin | crosszero.mjs:148-168 | `checkGameEnd`'s verdict; stated against five-in-a-line by Win.HasWinIffFiveThrough, and computed by Game.CrossZero.CheckGameEnd |
| Win.HasWinIffFiveThrough | crosszero.mjs:148-168 | the game's verdict holds exactly when five or more equal cells line up through the cell in some direction |
| Engine.Initial | crosszero.mjs:21-36 | the state `restart` produces; stated by Engine.InitialState and reached by Game.CrossZero.Restart |
| Engine.CurrentPlayer | crosszero.mjs:284-287 | the player to move is 1 or 2, and it is 2 exactly when the move counter is even |
| Engine.PlayerAlternates | crosszero.mjs:284-287 | advancing the counter hands the move to the other player |
| Engine.InitialState | crosszero.mjs:21-36 | after a restart: phase is play, counter is 0, the camera is at the canvas midpoint, only (0, 0) is occupied (by player 1), and player 2 moves first |
| Engine.Grow | crosszero.mjs:104-137 | growth and camera compensation; stated by Engine.GrowReindexes, Engine.GrowRows, Engine.GrowKeepsScreen and Engine.GrowWellFormed, performed by Game.CrossZero.GrowToCell |
| Engine.RowsAbove | crosszero.mjs:104-111 | rows prepended for a negative target row number exactly -row |
| Engine.RowsAboveGet | crosszero.mjs:104-111 | prepending rows for a negative target row shifts every cell down by -row |
| Engine.ColumnsLeft | crosszero.mjs:113-126 | padding for a negative target column keeps the row count |
| Engine.ColumnsLeftGet | crosszero.mjs:113-126 | padding for a negative target column shifts every cell right by -col |
| Engine.RowsBelow | crosszero.mjs:129-137 | after growth downwards the target row exists, and no row is added when it already did |
| Engine.RowsBelowGet | crosszero.mjs:129-137 | growth downwards changes no cell |
| Engine.GrowReindexes | crosszero.mjs:104-137 | growth moves the target to (row + Shift(row), col + Shift(col)) and makes its row exist; every cell moves by the same offset and keeps its value |
| Engine.GrowRows | crosszero.mjs:96-137 | row count after growth; camera moves by row·11 for a negative row, by (row − rows + 1)·11 past the last row, and by col·22 for a negative column |
| Engine.GrowKeepsScreen | crosszero.mjs:96-137 | growth with its camera compensation leaves every cell, under its new indices, at the same screen position |
| Engine.GrowWellFormed | crosszero.mjs:104-137 | growth keeps every cell empty or a player's |
| Engine.Move | crosszero.mjs:98-143 | the move on cell (row, col); its effect is stated by Engine.MoveOnOccupied, Engine.MovePlaces, Engine.MoveOutcome, Engine.MoveKeepsScreen and Engine.MoveWellFormed |
| Engine.Turn | crosszero.mjs:88-146 | `doTurn`: the move on the cell under the click; stated by Engine.TurnClickLandsOnTarget and Engine.TurnMarksClickedCell, performed by Game.CrossZero.DoTurn |
| Engine.MoveOnOccupied | crosszero.mjs:98-101 | a move on an occupied cell changes nothing: board, camera, counter and phase |
| Engine.MovePlaces | crosszero.mjs:98-139 | a move on an empty cell writes the mover into the target and changes no other cell (under the growth re-indexing) |
| Engine.MoveKeepsScreen | crosszero.mjs:96-143 | across a move, every cell stays where it was on screen |
| Engine.MoveOutcome | crosszero.mjs:139-167 | during play, a move on an empty cell ends the game exactly when five of the mover's marks line up through it; the counter advances by one exactly when play goes on and stays put exactly when the game ends |
| Engine.MoveWellFormed | crosszero.mjs:98-143 | a move keeps every cell empty or a player's |
| Engine.TurnClickLandsOnTarget | crosszero.mjs:88-139 | after a turn, the clicked point maps to the target cell's new indices |
| Engine.TurnMarksClickedCell | crosszero.mjs:88-139 | after a turn on an empty cell, the cell under the clicked point holds the mover's mark |
| Drag.Step | crosszero.mjs:60-86 | the pointer handlers, as written (`cancelling` false) and corrected (true); stated by Drag.StepDrags, Drag.CancellingKeepsNoOrphans, Drag.ReleasedStaysIdle, Drag.NoDragAfterRelease and Drag.StaleDragAfterRelease |
| Drag.ReplayAppend | crosszero.mjs:60-86 | replaying two event sequences one after the other is replaying their concatenation |
| Drag.StepDrags | crosszero.mjs:60-86 | a press leaves a timer pending; a drag is in progress after an event exactly when it was before and the event is not a release, or the event is a timer that can fire |
| Drag.CancellingKeepsNoOrphans | crosszero.mjs:60-69 | with the press cancelling the pending timer, no timer is ever left that no handle refers to |
| Drag.ReleasedStaysIdle | crosszero.mjs:71-86 | with cancelling presses, after a release nothing but a new press changes the pointer state |
| Drag.NoDragAfterRelease | crosszero.mjs:60-86 | with cancelling presses, no drag is in progress after a release until the next press |
| Drag.StaleDragAfterRelease | crosszero.mjs:60-69 | as written, press, press, release then the first timer's callback leaves a drag in progress after the release |
| Game.CrossZero.constructor | crosszero.mjs:5-19 | a new game is in the restart state with no drag and no timer |
| Game.CrossZero.Restart | crosszero.mjs:21-36 | the state becomes `Engine.Initial` for the canvas size |
| Game.CrossZero.CheckCellsDir | crosszero.mjs:170-182 | the loop counts the run of the player at (row, col) in one direction, as `Win.Run` with limit 4 |
| Game.CrossZero.CheckGameEnd | crosszero.mjs:148-168 | the short-circuiting loop over the four directions returns `Win.HasWin`; the phase becomes End on a win and is unchanged otherwise |
| Game.CrossZero.UnshiftRows | crosszero.mjs:104-107 | the loop prepends n empty rows |
| Game.CrossZero.UnshiftColumns | crosszero.mjs:113-122 | the nested loops pad every row with n zeros |
| Game.CrossZero.GrowToCell | crosszero.mjs:104-137 | growth in place and the camera moves match `Engine.Grow`, and the target's new indices are returned |
| Game.CrossZero.DoTurn | crosszero.mjs:88-146 | the click's effect is `Engine.Turn` of the old state, and every cell stays empty or a player's |
| Game.CrossZero.OnMouseMove | crosszero.mjs:46-58 | the camera pans by the movement while dragging and stays put otherwise |
| Game.CrossZero.OnMouseDown | crosszero.mjs:60-69 | a press schedules a new drag timer and overwrites the handle; a timer still pending becomes an orphan that no release can cancel (`Drag.Step` as written) |
| Game.CrossZero.DragTimerFires | crosszero.mjs:64-68 | the callback of a timer that can still run (the handle's own or an orphan) starts a drag |
| Game.CrossZero.OnMouseUp | crosszero.mjs:71-86 | a release ending a drag changes no game state; otherwise it restarts an ended game or plays a turn; afterwards there is no drag and the handle's timer is cancelled; orphans stay |

## Left out

- Rendering is not modelled: `render`, `clearScreen`, `renderWin`, `renderCursor`, `renderCurrentPlayer` and `renderMap`. They only read game state.
- The cursor record, colours, console messages and `run`'s event wiring are not modelled.
- `mouse.mjs` is not part of this model. The pointer position and movement it supplies are method parameters.
- The canvas is not looked up. Its width and height are constructor parameters.
- The timer's 200 ms delay is not modelled. Its firing is the explicit event `DragTimerFires`.
- IEEE floating point is not modelled. Coordinates are exact reals, so rounding in the camera and mapping arithmetic is not captured.
- Holes and `undefined` entries of the JavaScript arrays are not modelled. They are 0 cells and `[]` rows, and every read in the engine treats them like an empty cell.
- Game.CrossZero.CheckCellsDir: requires that the start cell holds a player. Its only caller passes the cell just written. On an empty start cell the source would compare against `undefined`, which holes match and zeros do not.
- Game.CrossZero.CheckCellsDir: the `limit` parameter of `checkCellsDir` is fixed at its default 5, which is the only value the game passes.
- Engine.Initial: `mapWidth` is the constant `Geometry.MapWidth`, because restart always sets it to 3.

## Findings

| source | as written | input that shows it | evidently intended | confidence | as-written member | corrected member |
|---|---|---|---|---|---|---|
| crosszero.mjs:60-69 | a press overwrites `drag.timeout` without cancelling the timer it held, so the release cancels only the latest timer | press, release outside the canvas (not delivered), press, release, all within 200 ms, then the first press's timer fires: a drag is in progress with no button held, and the next click only ends that drag | the release cancels every pending drag start, so no drag begins after the gesture ended | medium, not executed | Drag.StaleDragAfterRelease | Drag.NoDragAfterRelease |

The class keeps the press as written (`Game.CrossZero.OnMouseDown`, proved
against `Drag.Step(p, Press, false)`). The corrected press is
`Drag.Step(p, Press, true)`, and `Drag.NoDragAfterRelease` proves the
intended property about it.
