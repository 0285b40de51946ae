# Shrinking-grid minesweeper: the game-state engine

A model of the game logic in `mines_js_package/game.js`, a browser minigame
with three levels. Level 1 is a 5-by-5 grid with 5 bombs. Revealing three
distinct safe cells clears a level. The next level has a side one shorter,
never below 2, and as many bombs as its side. Clearing the third level wins.
Revealing a bomb is a loss.

Two modules:

- `RandomDraws` (`draws.dfy`) abstracts `Math.random`. The indices the
  rejection loop of `placeBombs` would draw are a finite sequence given by
  the caller. `Fill` is that loop run on the sequence. `DrawsSuffice` says
  every draw is a cell index and the sequence holds at least `count`
  distinct cells, so the loop stops. Two lemmas show this precondition is
  exactly `count <= gridSize`, up to the choice of stream:
  `SufficeFits` gives one direction and `EnumerationSuffices` the other.
- `Mines` (`mines.dfy`) holds the state and its operations.
  - `Game` is a snapshot of the module-level variables `level`, `n`,
    `gridSize`, `successPresses`, `bombs` and `revealed`.
  - `Game.Valid` is the invariant: n >= 2, `gridSize == n*n`, n bombs, all
    bombs and revealed cells inside the grid, and
    `successPresses == |revealed - bombs|`.
  - `LevelStart`, `NewGame`, `AdvanceStep`, `ResetStep` and `ClickStep` say
    what each event does to a snapshot.
  - The class `MinesGame` is the engine itself. Its methods update the fields
    step by step, as the script does. Each method is proved to produce the
    state of the matching function.

A click yields an `Outcome`:

- `AlreadyRevealed` when the cell was already revealed;
- `BombHit(index)` when the cell is a bomb;
- `SafeReveal(remaining, progress)` when the cell is safe. `progress` is
  `KeepPlaying`, `AdvancePending` (the script then schedules the advance
  callback) or `GameWon`.

The source has no game phase. After a loss or a win, nothing stops further
clicks: `onCellClick` only rejects cells already revealed. The model keeps
that behaviour, and `PlayContinuesAfterBomb` states it. The counter is not
capped either. Clicks after a level is cleared keep raising it, and each one
at or above 3 reports the level finished again.

`Click` requires `0 <= idx < gridSize`. The handler can only be called from
the buttons `renderGrid` creates, and those carry exactly the indices
`0 .. gridSize-1` (game.js:60-65).

## Model

| member | source | states |
|---|---|---|
| RandomDraws.Fill | mines_js_package/game.js:50-53 | the rejection loop on a stream of draws: it keeps the cells it starts with, adds only drawn cells, never goes past `count` when started below it, and stops short of `count` only after taking every drawn cell |
| RandomDraws.Placement | mines_js_package/game.js:47-54 | `placeBombs(count)` from the cleared set: at most `count` cells, all of them drawn, and every drawn cell when fewer than `count` are reached |
| RandomDraws.FillLayout | mines_js_package/game.js:50-53 | the rejection loop, started from at most `count` in-grid cells on draws that can still supply enough cells, stops with exactly `count` distinct cells, all in the grid, keeps its start and adds only drawn cells |
| RandomDraws.PlacementLayout | mines_js_package/game.js:47-54 | on a sufficient stream, `placeBombs(count)` yields exactly `count` distinct bombs, each in `[0, gridSize)`, all of them drawn; the old bombs play no part |
| RandomDraws.SufficeFits | mines_js_package/game.js:49-51 | a stream of in-grid draws can only supply `count` distinct cells when `count <= gridSize` |
| RandomDraws.EnumerationSuffices | mines_js_package/game.js:49-51 | for every `count <= gridSize` some stream of draws makes the loop stop |
| RandomDraws.InGridBound | mines_js_package/game.js:49 | a set of indices in `[0, gridSize)` has at most `gridSize` elements |
| RandomDraws.Cells | mines_js_package/game.js:60 | the grid's cells are exactly the indices `0 .. gridSize-1`, `gridSize` of them |
| Mines.Game.Valid | mines_js_package/game.js:5-12 | the state invariant over the module-level variables: level >= 1, `n >= 2`, `gridSize == n*n`, `n` bombs, bombs and revealed cells inside the grid, `successPresses == |revealed - bombs|`; a valid state always has a safe cell (`n < gridSize`) |
| Mines.NextSide | mines_js_package/game.js:113 | `Math.max(2, n - 1)`: one shorter when `n > 2`, otherwise 2, and never below 2 |
| Mines.LevelStart | mines_js_package/game.js:35-40 | `startLevel` gives a valid state: `gridSize == n*n`, counter 0, nothing revealed, `n` drawn bombs in the grid, level and side kept |
| Mines.NewGame | mines_js_package/game.js:28-31 | a new game is a valid level-1 state with `n == 5`, `gridSize == 25`, 5 bombs, counter 0 and nothing revealed |
| Mines.AdvanceStep | mines_js_package/game.js:111-114 | the advance callback gives a valid state with `level + 1`, side `max(2, n-1)`, that many bombs, all drawn from the new stream, on a `side*side` grid, counter 0 and nothing revealed |
| Mines.ResetStep | mines_js_package/game.js:154-156 | the reset action keeps level, side and grid size and only renews the level state: fresh bombs, counter 0, nothing revealed; validity is kept |
| Mines.ClickStep | mines_js_package/game.js:84-118 | a click keeps validity, level, side, grid and bombs, and adds the cell to `revealed`; it reports `AlreadyRevealed` exactly when the cell was revealed, and then nothing changes; it reports `BombHit` with that cell exactly for an unrevealed bomb, and the counter stays; it reports `SafeReveal` exactly for an unrevealed safe cell, with the counter up by one, `remaining == max(0, 3 - #revealed safe cells)`, and progress `KeepPlaying` below 3 safe cells, otherwise `GameWon` at level >= 3 and `AdvancePending` below it |
| Mines.Clicks | mines_js_package/game.js:84-99 | any run of in-grid clicks keeps validity, level, side, grid and bombs, and reveals exactly the clicked cells |
| Mines.ClicksSafeCount | mines_js_package/game.js:85-99 | over a run of clicks the counter rises by the number of distinct, previously unrevealed safe cells clicked; re-clicks and bombs add nothing |
| Mines.SafeRevealCount | mines_js_package/game.js:87-99 | revealing an unrevealed safe cell adds one to the revealed safe cells |
| Mines.ValidBounds | mines_js_package/game.js:39-40 | in a valid state the `n` bombs fit the grid (`n <= gridSize`) and the counter lies in `[0, gridSize - n]` |
| Mines.ThreeSafeClicksFinishLevel | mines_js_package/game.js:99-117 | on a fresh level, three distinct safe clicks report 2 and 1 remaining, then 0 with `GameWon` on level >= 3 and `AdvancePending` below |
| Mines.ClickTwice | mines_js_package/game.js:84-85 | clicking the same cell again reports `AlreadyRevealed` and changes nothing |
| Mines.PlayContinuesAfterBomb | mines_js_package/game.js:85-94 | after a bomb hit, a click on an unrevealed safe cell is still a safe reveal |
| Mines.FinishedLevelReportsAgain | mines_js_package/game.js:99-117 | once three safe cells are revealed, each further safe click reports 0 remaining and the level done again: `GameWon` at level >= 3, another `AdvancePending` below it |
| Mines.SideSchedule | mines_js_package/game.js:113 | from any valid state the next side is at least 2 and no larger |
| Mines.LevelScheduleFromNewGame | mines_js_package/game.js:28-40 | a new game is level 1 on 25 cells; two advances give level 2 on 16 cells with 4 bombs, then level 3 on 9 cells with 3 bombs |
| Mines.MinesGame.constructor | mines_js_package/game.js:5-12 | the initial variable values of lines 5-12, then the start-up call `startNewGame()` of line 168: the state is that of `NewGame` |
| Mines.MinesGame.StartNewGame | mines_js_package/game.js:28-33 | sets level 1 and side 5, then starts the level; the new state is `NewGame` of the draws |
| Mines.MinesGame.StartLevel | mines_js_package/game.js:35-45 | zeroes the counter, clears both sets, sets `gridSize = n*n` and places `n` bombs; the new state is `LevelStart` of the old level and side |
| Mines.MinesGame.PlaceBombs | mines_js_package/game.js:47-54 | the `while` loop leaves `bombs` equal to the loop's specification `Placement`: exactly `count` distinct drawn cells in `[0, gridSize)`; it modifies only `bombs` |
| Mines.MinesGame.Click | mines_js_package/game.js:80-120 | the click handler's state logic: outcome and new state are those of `ClickStep` on the old state |
| Mines.MinesGame.Advance | mines_js_package/game.js:111-116 | the advance callback body: new state is `AdvanceStep` of the old state |
| Mines.MinesGame.ResetLevel | mines_js_package/game.js:154-158 | the reset handler body: new state is `ResetStep` of the old state |

## Left out

- DOM output is not modelled: `renderGrid`, `revealAllBombs`, `updateMeta`,
  `gameOver`, `logSet`, and the status, message and log texts. They change
  no game state.
- The 900 ms `setTimeout` in `revealBombsTemporary` is browser timing. Its
  callback body is the method `Advance`, which the caller invokes. The case
  where a reset or a new game happens while an advance is pending is not
  modelled. `Advance` is not guarded against running twice, and neither is
  the source.
- `Math.random`, and the uniform distribution of bomb layouts, are out of
  scope. The draws are a finite sequence given by the caller. The rejection
  loop ends only with probability 1. Here, termination is proved for
  sequences that hold enough distinct cells.
- The event-listener wiring and the debug export `window._minesGame` are
  not modelled.
- A phase field (Playing, LevelCleared, Lost, Won) is not modelled. The code
  keeps no phase and accepts clicks after a loss or a win. The model follows
  the code.
- The success counter is not bounded by 3. The code still counts safe reveals
  after a level is cleared, so the model bounds it only by `gridSize - n`.
- JavaScript numbers are modelled as unbounded integers. `n`, `gridSize`,
  the counter and the cell indices stay below 26. `level` goes up by one per
  advance callback and nothing caps it, because extra safe clicks schedule
  extra callbacks; it still stays far below 2^53, so no overflow or rounding
  can occur.
