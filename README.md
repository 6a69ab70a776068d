# Five or More, modelled in Dafny

A model of the game engine of `FiveOrMore.py`, a "five or more" puzzle.
The game is played on a 9 x 9 board. Each cell is empty or holds a ball of
one of seven colours.

A turn has two clicks. The first click selects a ball. The second click
names a destination. The move is legal when the ball can travel there
through empty cells, one up/down/left/right step at a time. After a legal
move, every ball lying in a straight line of five or more balls of one
colour is removed, and the score grows by a table lookup on the number
removed. When nothing is removed, one to three new balls appear on empty
cells. The game is over when no ball can move anywhere.

The project has four modules:

- `Board` (`board.dfy`): the board as rows of cells, `g[y][x]`, and the
  cell sets used throughout (`Pieces`, `EmptyCells`).
- `Reachability` (`reachability.dfy`): `is_valid_move`, a breadth-first
  search. It is proved sound and complete against a declarative path
  predicate (`IsPath`, `Reachable`).
- `Matching` (`matching.dfy`): `check_matches` with its inner `dfs` and
  `is_valid_match`, and `SCORE_MAP`.
- `FiveOrMore` (`game.dfy`): `perform_move`, `fill_empty_spots`,
  `is_game_over`, `initialize_board` and the click-to-turn logic.
  - The program's global `board`, `score` and `selected_ball` are the
    fields of class `Game`. Its methods update them in place.
  - The read-only algorithms (`IsValidMove`, `FindMatches`, `EmptySpots`,
    `IsGameOver`) take the board as a value.
  - A whole turn is specified on board values by `TurnOutcome`.

### What the scan in `check_matches` really computes

`MIN_BALLS_TO_REMOVE` is 4 and `is_valid_match` tests `length >= 4`. Runs of
four are still never removed.

- For each ball and direction, the forward `dfs` and the backward `dfs`
  share one `visited` set.
- The backward call starts on the centre ball, which the forward call has
  already visited, so it returns 0 at once.
- The computed `length` is therefore the forward run minus one. The test
  passes exactly when five or more balls of the colour run forward from the
  start ball.
- Over all start balls, the removed set is exactly the set of balls lying in
  a maximal line of five or more in one of the four directions
  (`ScanFindsLines`, `FindMatches`).
- So the overall behaviour is the usual "five or more" rule, although the
  per-ball length is not the full line length.
- Any non-empty matched set has at least five cells (`LinesHaveFive`). The
  return value `len(matched) >= 4` therefore means "something was removed".

### Randomness

`random.randint` and `random.choice` become nondeterministic choices (`:|`)
in `InitializeBoard` and `FillEmptySpots`. The contracts state where balls
may land and how many, not which cells are drawn.

## Model

| member | source | states |
|---|---|---|
| `Board.EmptyGrid` | FiveOrMore.py:29 | the board is created 9 x 9 with every cell empty |
| `Board.SetCell` | FiveOrMore.py:119-120 | assigning one cell yields a 9 x 9 board that differs from the old one at that cell only |
| `Reachability.IsValidMove` | FiveOrMore.py:84-114 | the answer is false whenever the destination is off the board or occupied, whatever the source; otherwise it is true exactly when an orthogonal route of in-bounds empty cells leads from the source to the destination |
| `Reachability.ExtendPath` | FiveOrMore.py:104-111 | a route to a dequeued cell, extended by a step to an empty neighbour, is a route to that neighbour |
| `Reachability.VisitNeighbor` | FiveOrMore.py:108-111 | enqueuing an empty neighbour keeps every visited cell reachable from the source (soundness of the search) |
| `Reachability.ClosedContainsPath` | FiveOrMore.py:96-114 | a cell set that holds the source and every empty neighbour of its cells contains the end of every route |
| `Reachability.ClosedContainsConnected` | FiveOrMore.py:113-114 | when the queue runs dry, every cell connected to the source has been visited, so answering false is right (completeness) |
| `Matching.Bonus` | FiveOrMore.py:13-19 | `SCORE_MAP.get(n, 0)`: removals of 5 to 9 balls earn at least 10 points, every other count earns 0 |
| `Matching.Dfs` | FiveOrMore.py:127-135 | started on a visited cell it returns 0 and marks nothing; started with no cell of the run marked, it returns the run length and adds exactly the run's cells to `visited` |
| `Matching.DfsStop` | FiveOrMore.py:129-132 | the early returns of `dfs`, on a visited cell, an off-board cell or a cell of another colour, are the run's count and marks |
| `Matching.DfsCount` | FiveOrMore.py:134-135 | marking a ball and counting the rest of the run from the next cell counts and marks the whole run |
| `Matching.RunCellsCount` | FiveOrMore.py:134-135 | a run marks as many distinct cells as its length |
| `Matching.RunCellsWithin` | FiveOrMore.py:129-135 | every marked cell is an in-bounds ball of the run's colour, never behind the start cell |
| `Matching.RunStart` | FiveOrMore.py:149-155 | from any ball, walking back along an axis reaches a start ball whose forward run covers the whole line through it |
| `Matching.TotalAlongRun` | FiveOrMore.py:153-155 | all balls of one run lie on a line of the same total length |
| `Matching.ValidMatchNeedsFive` | FiveOrMore.py:137-139 | `is_valid_match` (`length >= MIN_BALLS_TO_REMOVE`, that is 4) applied to the length the scan computes accepts a start ball in a direction exactly when five or more balls of its colour run forward from it; it then contributes that whole run, at least five cells, so a run of four is never accepted |
| `Matching.CheckDirection` | FiveOrMore.py:153-158 | one direction at one start ball adds the forward run exactly when that run minus one passes `is_valid_match`, and adds nothing otherwise |
| `Matching.HitsInLine` | FiveOrMore.py:155-158 | every cell a scan step adds lies in a line of five or more |
| `Matching.LineHit` | FiveOrMore.py:149-158 | every ball in a line of five or more is added by the scan step at the line's first ball |
| `Matching.ScannedNext` | FiveOrMore.py:150-153 | advancing the scan by one cell adds that cell's four directions to what has been collected |
| `Matching.ScanFindsLines` | FiveOrMore.py:149-158 | the union over all start balls and directions is exactly the set of balls lying in a line of five or more |
| `Matching.FindMatches` | FiveOrMore.py:125-158 | the matched set computed by the nested scan equals `Lines(board)`, the balls lying in a maximal line of five or more |
| `Matching.Lines` | FiveOrMore.py:149-158 | a cell is matched exactly when it holds a ball whose line in one of the four directions has five or more balls |
| `Matching.LinesHaveFive` | FiveOrMore.py:161-168 | a non-empty matched set has at least five cells, so `len >= MIN_BALLS_TO_REMOVE` holds exactly when something was matched |
| `Matching.Cleared` | FiveOrMore.py:165-166 | matched cells become empty; all other cells keep their contents |
| `FiveOrMore.Moved` | FiveOrMore.py:117-120 | the source becomes empty, the destination takes the source's ball, and no other cell changes |
| `FiveOrMore.MovedPieces` | FiveOrMore.py:117-120 | a move to an empty cell keeps the number of balls and trades the source cell for the destination |
| `FiveOrMore.ClearedPieces` | FiveOrMore.py:165-166 | clearing matched balls removes exactly those balls |
| `FiveOrMore.EmptySpots` | FiveOrMore.py:173 | `empty_spots` lists exactly the empty cells, each once, in row-by-row order |
| `FiveOrMore.FillOne` | FiveOrMore.py:176-177 | placing a ball on a cell drawn from `empty_spots` keeps the balls already there and fills at most one more cell |
| `FiveOrMore.FillingDone` | FiveOrMore.py:174-177 | at most three placements, with at least one when there was an empty cell, make a refill |
| `FiveOrMore.RefillFull` | FiveOrMore.py:174-175 | refilling a full board leaves it untouched |
| `FiveOrMore.RefillCount` | FiveOrMore.py:174-177 | refilling a board with an empty cell adds between one and three balls |
| `FiveOrMore.IsGameOver` | FiveOrMore.py:180-189 | the answer is true exactly when no ball on the board has a legal move to any cell |
| `FiveOrMore.GameOverIffBlocked` | FiveOrMore.py:180-189 | no legal move exists exactly when no ball has an empty up/down/left/right neighbour |
| `FiveOrMore.FullOrEmptyIsOver` | FiveOrMore.py:184-189 | a full board, or one without balls, ends the game |
| `FiveOrMore.LegalTurn` | FiveOrMore.py:222-229 | a legal move, then the match check, then a refill only when nothing matched, is a turn |
| `FiveOrMore.TurnPieces` | FiveOrMore.py:222-231 | in a turn the score never decreases. A rejected move leaves the board as it was. A turn with matches removes at least five balls. Any other legal turn adds one to three balls |
| `FiveOrMore.Game.constructor` | FiveOrMore.py:192-194 | a new game has score 0, nothing selected, and one to three balls placed by `initialize_board` |
| `FiveOrMore.Game.InitializeBoard` | FiveOrMore.py:33-37 | the ghost result `placed` holds the one to three cells written, each now holding a ball (a placement may land on an occupied cell and recolour its ball); every cell outside `placed` keeps its contents and colour; cells that held a ball still hold one, and at most three cells gain a ball |
| `FiveOrMore.Game.PerformMove` | FiveOrMore.py:117-120 | the board becomes `Moved(old board, source, destination)` |
| `FiveOrMore.Game.CheckMatches` | FiveOrMore.py:123-168 | every match is collected from the board before any clear. The matched balls are then cleared and the score grows by `Bonus` of their number. The result is true exactly when something matched; when nothing matched, board and score are unchanged |
| `FiveOrMore.Game.RemoveMatched` | FiveOrMore.py:165-166 | the clearing loop, in any set order, empties exactly the matched cells |
| `FiveOrMore.Game.FillEmptySpots` | FiveOrMore.py:171-177 | the new board is a refill of the old one: balls stay, at most `min(3, empty cells)` cells are filled, and at least one is filled when there was room |
| `FiveOrMore.Game.Play` | FiveOrMore.py:218-229 | the second click's turn satisfies `TurnOutcome`. An illegal move changes nothing. A legal move clears and scores the lines of the moved board if it has any, and otherwise refills it |
| `FiveOrMore.Game.Click` | FiveOrMore.py:206-235 | a click off the board changes nothing. With nothing selected, the click selects the clicked ball, or nothing on an empty cell, and board and score stay. With a ball selected, it plays the turn and always clears the selection |

## Left out

- Rendering is not modelled: pygame set-up, `draw_board`, the colour-to-RGB map, the score bar and fonts (FiveOrMore.py:21-26, 40-81).
- The event loop is not modelled: event polling, QUIT handling, the end of the loop once `is_game_over` answers true, and `clock.tick` (FiveOrMore.py:197-201, 237-246). `Game.Click` takes grid coordinates, and `IsGameOver` is the test the loop runs.
- Pixel-to-cell conversion is not modelled (FiveOrMore.py:202-204), because `Click` receives the cell directly.
- `print` messages are console output only (FiveOrMore.py:231, 241).
- The random number generator is not modelled. Its draws are nondeterministic choices, and the contracts state only where balls may land, how many, and that the colour is one of the seven.
- `target_position` is not modelled, because it always equals the clicked cell and is reset at once (FiveOrMore.py:195, 214, 219, 235).
- `FiveOrMore.Game.PerformMove` requires both cells to be on the board. The program only calls it after `is_valid_move` has accepted the destination and with a selected ball as the source. Python's negative-index wrap-around for other inputs is not modelled.
- `Matching.Bonus` states only the range of each score (at least 10 for 5 to 9 removed, 0 otherwise), not each table entry. `Bonus` itself returns the exact `SCORE_MAP` values. As in the program, one removal of ten or more balls scores 0, because `SCORE_MAP` has no entry for it. A single move can cause this: a line of six and a line of five crossing at the moved ball make ten distinct cells.
- The order in which the program iterates Python sets is not modelled. The clearing loop takes matched cells in any order, which cannot change its result.
