# Tic-Tac-Toe game rules in Dafny

This project models the rules layer of a single-page Tic-Tac-Toe app. It has two parts.

- `game_logic.dfy` (module `GameLogic`) covers the board evaluator. It holds the fixed catalogue of eight winning lines and `calculateWinner`, which reports the first complete line in catalogue order. It also holds `isDraw` (a full board with no winner) and `getGameStatus`, which classifies a board as `win`, `draw` or `turn` and builds its status text. These are pure functions over nine-cell boards. Each is stated against an independent reference predicate: `HasWinningLine`, `FirstWin`, `IsFull` and `Straight`.
- `game.dfy` (module `GameComponent`) covers the round and score state machine of the `Game` component. It has four pieces of state:
  - the board;
  - whether X moves next;
  - the tally `{X, O, draws}`;
  - the once-per-round scoring latch (`scoredRef`).

  Each handler is a pure step on a `RoundState` snapshot: `PlayStep`, `RestartStep` and `ResetStep`. The scoring effect is `SettleStep`, and `Apply` runs it after every event. The class `Game` holds the same four fields and updates them in place. Its methods `HandlePlay`, `RestartRound` and `ResetScores` each call `Settle` after changing state, and each is proved equal to the matching step. On a finished round `HandlePlay` returns at once and changes nothing, as `Game.js:65` does. `Valid()` says that the latch agrees with the game-over status. Every method keeps it.

A reader might expect a click on an occupied cell to be ignored. In `handlePlay` it still passes the turn to the other player while the board stays unchanged, because the handler guards only the board write (`Game.js:67`) and flips `xIsNext` unconditionally (`Game.js:72`). The board component disables filled cells, but that is outside the handler. `PlayStep` and `OccupiedClickOnlyPassesTurn` state the behaviour as written.

The scoring latch `scoredRef` is cleared while a round is in progress and set when the effect first sees the round over, at which point the result is credited. `RoundScoredOnce` and `OverRoundIsFrozen` prove that the latch credits each round exactly once, however often the effect runs.

## Model

| member | source | states |
|---|---|---|
| `GameLogic.WinLines` | frontend_ui/src/utils/gameLogic.js:14-25 | exactly 8 lines, all cells within 0..8, pairwise distinct; every line is a row, column or diagonal, and every row, column and diagonal is in the catalogue |
| `GameLogic.MarkName` | frontend_ui/src/utils/gameLogic.js:65-70 | a mark is written as the single letter "X" or "O" in the win and turn texts |
| `GameLogic.FindFrom` | frontend_ui/src/utils/gameLogic.js:34-39 | the loop over the catalogue from line `i`: winner and line are present together, and a reported line lies on the board with all three of its cells holding the winner |
| `GameLogic.FindFromFindsFirst` | frontend_ui/src/utils/gameLogic.js:34-40 | the search from line `i` returns a winner iff some line at or after `i` is complete; the line returned is the first complete one, all three of its cells hold the winner, and winner and line are both present or both null |
| `GameLogic.CalculateWinner` | frontend_ui/src/utils/gameLogic.js:33-41 | winner is non-null iff some catalogue line holds three equal marks; winner and line are null together; the reported line's cells all hold the winner |
| `GameLogic.CalculateWinnerReportsFirst` | frontend_ui/src/utils/gameLogic.js:34-38 | when line `k` is the first complete line in list order, the result is exactly that line and the mark in its cells, so the tie-break between two complete lines is the list order |
| `GameLogic.AllFilled` | frontend_ui/src/utils/gameLogic.js:52 | `every(s => s !== null)` holds iff no cell is empty |
| `GameLogic.IsDraw` | frontend_ui/src/utils/gameLogic.js:49-53 | draw iff no line is complete and every cell is filled; a board with a complete line is never a draw |
| `GameLogic.GetGameStatus` | frontend_ui/src/utils/gameLogic.js:62-71 | kind is `win` iff a line is complete, `draw` iff none is and the board is full, `turn` otherwise; a win carries `calculateWinner`'s winner and line and the text "<winner> wins!"; draw and turn carry null winner and line; the turn text is "Turn: " followed by the next player |
| `GameLogic.SampleLeftColumnWin` | frontend_ui/src/utils/gameLogic.js:33-41 | a sample round: with X on cells 0, 3 and 6, O on cells 1 and 2, and cells 4 and 7 empty, the search passes the three rows and reports X on line (0,3,6), and the status is a win for X on that line |
| `GameLogic.StatusIgnoresNextPlayer` | frontend_ui/src/utils/gameLogic.js:62-70 | kind, winner and line do not depend on the next player; for a finished round the whole status does not |
| `GameComponent.EmptyBoard` | frontend_ui/src/components/Game.js:7 | nine cells, all empty |
| `GameComponent.NextPlayer` | frontend_ui/src/components/Game.js:22 | the player to move is X exactly when `xIsNext` |
| `GameComponent.StatusOf` | frontend_ui/src/components/Game.js:22-26 | the status is `turn` iff no line is complete and the board is not full, and the turn text names the player given by `xIsNext` |
| `GameComponent.GameOverMeansWonOrFull` | frontend_ui/src/components/Game.js:28 | `gameOver` (status `win` or `draw`) holds iff some line is complete or the board is full, and does not depend on who is to move |
| `GameComponent.PlayStep` | frontend_ui/src/components/Game.js:64-73 | a finished round is left unchanged; otherwise an empty target cell gets the mover's mark, an occupied one keeps its mark, no other cell changes, the turn passes to the other player, and tally and latch are untouched |
| `GameComponent.OccupiedClickOnlyPassesTurn` | frontend_ui/src/components/Game.js:64-73 | during a settled round, a click on an occupied cell followed by the effect only flips the mover |
| `GameComponent.Credit` | frontend_ui/src/components/Game.js:53-61 | a win adds one to the winner's counter, a draw adds one to `draws`, and the other counters are unchanged |
| `GameComponent.SettleStep` | frontend_ui/src/components/Game.js:44-62 | board and mover unchanged; afterwards the latch equals game-over; a settled state is a fixed point (so settling twice is settling once); with the round in progress or already scored the tally is unchanged; the first settle after the round ends credits the result and adds exactly one to the total; no counter decreases |
| `GameComponent.RestartStep` | frontend_ui/src/components/Game.js:75-78 | empty board, X to move, tally and latch untouched, round not over |
| `GameComponent.ResetStep` | frontend_ui/src/components/Game.js:80-84 | empty board, X to move, all three counters zero, round not over |
| `GameComponent.PlayEventScoresOnEdge` | frontend_ui/src/components/Game.js:44-73 | from a settled round in progress, one click or re-render keeps the state settled; when it ends the round the tally is credited with that round's result (one point to the winner or to draws), otherwise the tally is unchanged |
| `GameComponent.OverRoundIsFrozen` | frontend_ui/src/components/Game.js:44-73 | once a round is over and scored, any clicks and re-renders leave the whole state unchanged, including board, mover and tally |
| `GameComponent.RoundScoredOnce` | frontend_ui/src/components/Game.js:44-62 | from a settled round in progress, any sequence of clicks and re-renders leaves the tally credited exactly once with the final result (one point to the winner's counter or to draws) if the round ends, and unchanged otherwise; the total rises by one or by zero accordingly |
| `GameComponent.EventKeepsCounters` | frontend_ui/src/components/Game.js:53-78 | a click, a restart or a re-render never lowers a counter |
| `GameComponent.CountersNeverDecrease` | frontend_ui/src/components/Game.js:44-84 | over any sequence of events without a reset, no counter decreases |
| `GameComponent.Game.constructor` | frontend_ui/src/components/Game.js:18-20 | board of nine empty cells, X to move, tally zero, latch clear, status `turn` |
| `GameComponent.Game.CurrentStatus` | frontend_ui/src/components/Game.js:22-26 | the status rendered from the component's fields is `StatusOf` of its current snapshot, so every fact proved about `StatusOf` holds for it |
| `GameComponent.Game.Settle` | frontend_ui/src/components/Game.js:44-62 | the new state is `SettleStep` of the old one, and the latch agrees with the status |
| `GameComponent.Game.HandlePlay` | frontend_ui/src/components/Game.js:64-73 | the new state is the old state played at `index` and then settled (a finished round is left as it is), and `Valid` is kept |
| `GameComponent.Game.RestartRound` | frontend_ui/src/components/Game.js:75-78 | the new state is the old state restarted and then settled |
| `GameComponent.Game.ResetScores` | frontend_ui/src/components/Game.js:80-84 | the new state is the old state reset and then settled |

## Left out

- Rendering of the board, status, scoreboard and controls, including the `disableRestart` hint (`Game.js:86-141`). These are presentation, not rules.
- The screen-reader announcement effect (`Game.js:29-41`). It uses a DOM node and a 30 ms timer.
- React's render and effect scheduling. The scoring effect is the explicit step `Settle`, run after every change. Running it when its dependencies have not changed is harmless, because a settled state is a fixed point of `SettleStep`.
- `frontend_ui/src/utils/confetti.js` is not part of this model. It is a canvas animation with floating-point physics and randomness.
- `frontend_ui/src/utils/sound.js` is not part of this model. It covers browser storage and audio playback.
- `Board.js`, `Square.js`, `Scoreboard.js`, `Controls.js` and `App.js` are not part of this model. They are presentational components. `Board.js` disables filled cells; that guard is not part of `handlePlay`, so the model leaves it out.
- Click indices outside 0..8 are excluded by a precondition. The board only ever passes indices 0 to 8. In JavaScript, an out-of-range index would grow the array instead.
- Cells hold only `null`, "X" or "O", and boards always have length 9. The model does not cover other JavaScript values or lengths.
