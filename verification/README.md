# Newspaper tic-tac-toe: the game-state machine

A Dafny model of the game logic of `script.js`, the 3×3 "Newspaper
Tik-Tak-Toe" page, with the DOM wiring taken away. What remains is the state
the page keeps between events and the handlers that change it:

- `currentPlayer` (X or O), `gameState` (nine cells, each free or holding a
  mark), `gameActive`, `matchCount` and the score sheet `scores` with its
  X, O and Draw counters, held as the fields of the class `GameState.Game`;
- the fixed table of eight winning lines (rows, then columns, then diagonals);
- a click on a cell (refused on a taken cell, on a cell that does not exist,
  or once the game has stopped; otherwise the mark is placed and the result
  is checked), the result check with its win, draw and change-of-turn
  branches, the "new game" button and the confirmed "reset match" button.

The module `Board` (`board.dfy`) holds the pure part: marks, the line table,
"line k is won", "the first won line in table order", "the board is full" and
mark counts. The module `GameState` (`game.dfy`) holds the class and the
invariant of reachable states: while a game runs, the player to move is X
exactly when both players have as many marks, no line is won and a cell is
free; once it has stopped, `currentPlayer` is the player who moved last and
every won line carries that player's mark (or, with no line won, the board
is full); and the score sheet never counts more games than `matchCount`
minus the running one. A click, a new game and a confirmed reset each keep
this invariant (`Click`, `ResetGame` and `ResetMatch` ensure `Valid()`, and
the constructor establishes it); the steps inside a click (`UpdateCell`,
`CheckResult`, `HandleWin`, `HandleDraw`, `ChangePlayer`) only state what
they change, since the invariant does not hold between placing the mark and
checking the result. The invariant is what makes it right for `handleWin` to
credit `currentPlayer` rather than the mark found on the line, and it shows
that a drawn game always ends with X having made the last move (five X marks
against four O marks).

A click on a taken cell, on a cell that does not exist or after the game has
ended is silently ignored, and no error is reported. The board is always 3×3
with the fixed table of eight lines.

## Model

| member | source | states |
|---|---|---|
| `Board.Other` | script.js:54-55 | the turn always passes to the other player: the result differs from the given player |
| `Board.WinningConditionsLayout` | script.js:27-31 | the table of winning lines has eight entries: the three rows top to bottom, the three columns left to right, then the diagonals 0-4-8 and 2-4-6; each entry is three distinct cells in a straight line with an equal step between them |
| `Board.LineWon` | script.js:69-71 | a line is won exactly when its first cell holds some player's mark and all three cells hold that same mark; a line with a free cell is never won |
| `Board.FirstWinningLine` | script.js:68-76 | the result is the first line, in table order, whose three cells hold the same mark; None exactly when no line of the table is won |
| `Board.Full` | script.js:83 | the board is full exactly when no cell is free |
| `Board.CountAfterMove` | script.js:43-44 | placing a mark on a free cell adds one to that player's count, takes one from the free count and leaves the other player's count unchanged |
| `Board.NewWinIsMovers` | script.js:37-44 | on a board with no won line, a move can only win lines through the cell just marked, and every line it wins carries the mover's mark |
| `GameState.Scores.Credit` | script.js:98 | a win raises the winner's counter by exactly one and leaves the other player's counter and the draw counter unchanged |
| `GameState.NewGameConsistent` | script.js:138-141 | an empty board with X to move and the game running is a reachable state |
| `GameState.MovePreservesConsistency` | script.js:64-90 | a legal move from a reachable running state leads to a reachable state: stopped with the mover as current player after a win or a full board, running with the other player to move otherwise |
| `GameState.DrawLeavesXToMove` | script.js:83-86 | a game stopped without a won line ended on a full board with X having moved last: five X marks, four O marks, X as current player |
| `GameState.Game.constructor` | script.js:21-25 | the page starts at match 1 with X to move on an empty board, the game running and all scores zero, in a reachable state |
| `GameState.Game.Click` | script.js:33-44 | a click on a taken or non-existent cell, or on a stopped game, changes no state at all; otherwise exactly the clicked cell takes the current player's mark, then a won line stops the game and credits the current player, who owns the line, else a full board stops it as a draw with X as current player, else the turn passes and the game keeps running; the invariant is kept and the match counter does not move |
| `GameState.Game.UpdateCell` | script.js:43-44 | the clicked cell takes the current player's mark and every other cell keeps its content |
| `GameState.Game.FindWinningLine` | script.js:64-76 | the loop over the table skips lines with a free cell and stops at the first line of three equal marks; the line it returns is won, no earlier one is, and it returns nothing exactly when no line is won |
| `GameState.Game.CheckResult` | script.js:64-90 | a won line leads to a win for the current player; failing that a full board leads to a draw; failing that the turn passes to the other player, with scores unchanged |
| `GameState.Game.HandleWin` | script.js:92-98 | the game stops, the current player's score rises by one and the current player, the board and the match counter stay |
| `GameState.Game.HandleDraw` | script.js:110-113 | the game stops, the draw counter rises by one and the X and O counters stay |
| `GameState.Game.ChangePlayer` | script.js:54-55 | the current player flips between X and O |
| `GameState.Game.ResetGame` | script.js:138-142 | a fresh empty board, X to move, the game running, the match counter one higher and the scores untouched; the invariant is kept |
| `GameState.Game.ResetMatch` | script.js:157-163 | when confirmed, all three scores are zero, the match counter ends at 1 and a new game starts; when not confirmed nothing changes |

## Left out

- The DOM: element lookups, CSS classes and styles, `innerText` and `innerHTML` updates, the score labels and the event-listener wiring. They only present the state.
- The random tilt of a newly drawn mark (`Math.random`, `toFixed`): floating point and randomness, with no effect on the game state.
- The match log and its clock time stamps (`addLogEntry`, `Date`): clock I/O and text rendering.
- Player names (`getPlayerName` and the two name inputs): they only change the messages shown.
- The confirmation dialog of "reset match" is the parameter `confirmed` of `ResetMatch`; the print button is not modelled.
- The winning sequence handed to the win handler is used only to highlight cells; the model returns that line in the `Won` outcome of `Click` instead.
- Reading the clicked cell's index from its `data-index` attribute: `Click` takes the index as an integer, and any index outside 0 to 8 is refused like a taken cell, as the lookup of a missing cell is never the empty string.
- `matchCount` and the score counters are unbounded naturals; JavaScript numbers could only lose precision after far more games than any page sees.
