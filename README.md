# Tic-tac-toe, "3 marks max, oldest removed": a Dafny model of the game state

This project models the game-state core of `script.js` and proves properties of it. The game is tic-tac-toe against a heuristic computer opponent. Each player keeps at most three marks on the board. A player who places a fourth mark loses the oldest one. The cell just vacated is then blocked for that player until their next move.

The project has two modules.

- `rules.dfy`, module `Rules`, holds the pure parts:
  - the board cells and the eight winning lines;
  - the position, which is the board plus each player's move queue (oldest first) and blocked list;
  - `Place`, what `makeMove` does to the position;
  - `Judge`, the verdict of `checkGameEnd`;
  - `FirstWinningCell`, `Available` and `AIChoice`, the AI's choice;
  - the lemmas about all of these.
- `game.dfy`, module `Game`, holds the class `TicTacDecay`:
  - its fields are the script's global variables, with `gameBoard` as an `array<Cell>`;
  - each game function of the script is a method proved against the `Rules` definitions;
  - the browser's callbacks are events delivered to the object: the AI's delayed move, the countdown's ticks and a change of mode.

Invariants:
- `Valid()` holds for every reachable state, and every method preserves it.
- Each queue holds at most three distinct cells, and those are exactly the cells holding that player's mark.
- A blocked list holds at most one cell, and the blocked player does not hold it.
- The game runs exactly while no result has been announced.
- The AI thinks only while the game runs.
- The countdown runs only in a timed game that runs.
- No line is complete while the game runs.

Three behaviours of the code worth noting:
- A blocked cell is not always empty. The opponent may take it, for example by the AI's random step.
- X is always kept off X's blocked cell. O is kept off its own blocked cell only in the win and random steps; the block step may play there.
- The AI's block step looks for X's winning cells while skipping X's blocked cell, not O's. The win simulation ignores the eviction that playing there would cause. This is how `findWinningMove` is called and written (script.js:69, 122-127).
- When the AI has no move (-1), the code re-evaluates nothing. It only hands the turn back.

## Model

| member | source | states |
|---|---|---|
| Rules.Place | script.js:97-109 | a move keeps the nine-cell board; what it does in full is PlaceSpec |
| Rules.Judge | script.js:135-152 | a win goes to a player who holds a line; the full verdict is JudgeSpec |
| Rules.FirstCompleteLine | script.js:137-142 | the index found lies between the start of the scan and the end of the list; which line it is is FirstCompleteLineSpec |
| Rules.FirstWinningCell | script.js:120-133 | the result is -1 or a cell from the start of the scan on; which cell it is is FirstWinningCellSpec |
| Rules.Available | script.js:70-76 | the list has at most as many entries as cells scanned; its contents and order are AvailableSpec |
| Rules.LineOwner | script.js:139 | a line has an owner p exactly when all three of its cells hold p's mark |
| Rules.FirstCompleteLineSpec | script.js:137-142 | the index found holds a complete line and no earlier line (in list order) is complete; the end of the list when none is |
| Rules.LinesDistinct | script.js:23-27 | the three cells of every winning line are distinct |
| Rules.Start | script.js:2-4 | the initial position is empty, satisfies the position invariant and has no complete line |
| Rules.PlaceSpec | script.js:97-109 | after a move, p's mark is at i and i is the newest entry of p's queue. With three marks, exactly the oldest cell is dropped from the queue, emptied and made p's only blocked cell; otherwise p's blocked list is emptied. No other cell changes, and the other player's queue and blocked list are untouched |
| Rules.PlaceKeepsMoverQueue | script.js:97-109 | after a legal move the mover's queue is still at most three distinct cells and names exactly the cells holding the mover's mark |
| Rules.PlaceKeepsOtherQueue | script.js:97-109 | a move leaves the other player's marks exactly where that player's queue says |
| Rules.PlacePreservesValid | script.js:97-109 | a move into an empty cell keeps the whole position invariant (queues, board agreement, single blocked cell) |
| Rules.OnlyMoverCanWin | script.js:97-109 | a move never completes a line for the player who did not move |
| Rules.FewMarksNoWin | script.js:125-127 | a player with fewer than three marks holds no line |
| Rules.JudgeSpec | script.js:135-152 | the winner is the owner of the first complete line in list order; there is no winner exactly when no line is complete for X or O; a draw exactly when, besides, neither player has an empty cell outside their own blocked list |
| Rules.PlayableCellExists | script.js:146-147 | on every reachable position each player has an empty cell outside their blocked list |
| Rules.NeverDrawn | script.js:144-151 | the draw branch of checkGameEnd is never taken on a reachable position |
| Rules.FirstWinningCellSpec | script.js:120-133 | the result is -1 exactly when no empty cell outside the blocked list completes a line for p by a trial mark; otherwise it is such a cell and no lower cell is |
| Rules.AvailableSpec | script.js:70-76 | availableMoves holds exactly the empty cells not blocked for O, each once, in increasing order |
| Rules.AIChoice | script.js:67-80 | the AI's choice is -1 or an empty cell |
| Rules.AIChoiceSpec | script.js:67-79 | the AI plays the lowest cell that wins for O when there is one; else the lowest cell where X would win (scanned against X's blocked list); else an empty cell not blocked for O, giving up only when there is none |
| Rules.AIAlwaysMoves | script.js:74-79 | the AI's -1 fallback is never taken on a reachable position |
| Game.TicTacDecay.constructor | script.js:2-10 | the initial globals: empty board, queues and blocked lists, the player to move in a running normal game, 30 seconds, no countdown, AI not thinking |
| Game.TicTacDecay.StartTimer | script.js:218-227 | a fresh countdown of 30 seconds is running and the invariant holds |
| Game.TicTacDecay.EndGame | script.js:154-157 | the game stops, the AI stops thinking, the countdown is cleared and the given result is announced |
| Game.TicTacDecay.CheckGameEnd | script.js:135-152 | the announced result is Judge of the position; AI and countdown are stopped exactly when the game ends; afterwards no line is complete in a running game |
| Game.TicTacDecay.PlaceMark | script.js:97-109 | the position becomes Place of the old one, the position invariant still holds, and the verdict on it is neither a win for the other player nor a draw |
| Game.TicTacDecay.FinishMove | script.js:115-116 | the result is Judge of the position, and a new 30-second countdown runs exactly when a timed game goes on |
| Game.TicTacDecay.RestartTimer | script.js:116 | a new 30-second countdown runs exactly when a timed game runs; otherwise the clock is untouched |
| Game.TicTacDecay.MakeMove | script.js:92-117 | the position becomes Place of the old one; the announced result is Judge of it and is never a win for the other player or a draw; the AI stops thinking if the game ended; the countdown restarts at 30 exactly when a timed game goes on; the invariant is kept |
| Game.TicTacDecay.FindWinningMove | script.js:120-133 | returns FirstWinningCell of the board (see FirstWinningCellSpec) and leaves the board as it was |
| Game.TicTacDecay.AvailableMoves | script.js:70-76 | returns Available of the board for O (see AvailableSpec) |
| Game.TicTacDecay.ChooseAIMove | script.js:67-79 | returns AIChoice of the position and leaves the board as it was |
| Game.TicTacDecay.MakeAIMove | script.js:65-89 | nothing changes unless the game runs and it is the AI's turn. Otherwise O plays AIChoice and the turn returns to the player with the AI not thinking (AiMoved): the position becomes Place of the old one, the result is Judge of it and never a win for X, the mode is kept, and a new 30-second countdown runs exactly when a timed game goes on; when the choice is -1 nothing else changes |
| Game.TicTacDecay.PlayerClick | script.js:44-53 | a click is ignored (no state changes) unless the game runs, it is the player's turn, the AI is not thinking and the cell is empty and not blocked for X. Otherwise X plays there, the result is Judge of the new position and never a win for O or a draw, and if the game goes on the turn passes to the AI and one AI callback is scheduled; a new 30-second countdown runs exactly when a timed game goes on, and otherwise the clock is untouched |
| Game.TicTacDecay.AiDelayElapsed | script.js:54-60 | the scheduled callback as written: nothing in a finished game; when it is the player's turn it only sets aiThinking; otherwise the new state is as MakeAIMove states it (AiMoved), with the mode, countdown and clock included |
| Game.TicTacDecay.AiDelayElapsedGuarded | script.js:54-60 | the callback with makeAIMove's own guard: nothing changes unless the game runs and it is the AI's turn; otherwise the new state is as MakeAIMove states it (AiMoved), with the AI no longer thinking; it never leaves aiThinking set when it was clear |
| Game.TicTacDecay.HandleTimeOut | script.js:234-239 | the countdown stops; in a running game whoever holds the turn loses, otherwise the result is unchanged |
| Game.TicTacDecay.Tick | script.js:222-226 | one second passes; at zero the game ends with the side holding the turn losing, otherwise countdown, game and AI go on |
| Game.TicTacDecay.Reset | script.js:246-271 | empty board, queues and blocked lists; the player to move in a running game; AI not thinking; 30 seconds; the countdown runs exactly in timed mode |
| Game.TicTacDecay.ChangeMode | script.js:35-38 | the mode is set and the game reset as Reset states |
| Game.FirstMoveGoesOn | script.js:97-109 | the first move of a game never ends it |
| Game.StaleCallbackSetup | script.js:35-60 | after a move and a change to timed mode, the game is new and running, the player is to move, the countdown runs and one AI callback is still scheduled |
| Game.StaleAiCallbackLocksPlayer | script.js:54-66 | after StaleCallbackSetup, the callback as written leaves a running game in which it is the player's turn, the AI is marked thinking and no click is accepted |
| Game.LockedPlayerLosesOnTime | script.js:222-239 | a game locked this way refuses every click at every tick, its board never changes, and it ends with O winning on time |
| Game.StaleAiCallbackIgnored | script.js:54-66 | after StaleCallbackSetup, the guarded callback leaves a running game in which the player may click any cell |

## Left out

- The DOM: updateDisplay, updateTimerDisplay (with its ten-second warning), clearEffects, and the text and class updates in makeMove, endGame and resetGame. They only display the state. The model keeps the result endGame announces as the field `outcome`.
- startGame and the click listeners are left out. A click is the event PlayerClick. The mode selector's listener is the event ChangeMode.
- The AI's one-second `setTimeout` is left out. The model counts scheduled callbacks in `pendingAiMoves`, and the callback is the event AiDelayElapsed. The delay itself and the order of events in real time are not modelled: any event may come next.
- The countdown's `setInterval` is left out. The model keeps a flag `timerRunning` for a live interval, and each second is the event Tick. It does not model the handle stored in `timer`, which keeps its value after clearInterval. Every path clears the countdown before starting a new one, so at most one interval is ever live.
- `Math.random` is an injected number `pick`. The AI plays the available cell at index `pick % |availableMoves|`, so every available cell can be chosen.
- Game.TicTacDecay.MakeMove requires a running game and a cell in range that is empty. The source does not check these, and every caller guarantees them.
- makeMove tests for timed mode before clearing the countdown. The model's MakeMove clears it unconditionally. By the invariant, a countdown runs only in timed mode, so the two agree.
- Game.TicTacDecay.Tick requires a running countdown. A tick of a cleared interval cannot happen.
- JavaScript numbers are doubles. Nothing here leaves the small integers (cells 0-8, a countdown from 30), so the model uses `int`.
- The source contains no minimax search, and there is none in the model.

## Findings

| source | as written | input that shows it | evidently intended | confidence | as-written member | corrected member |
|---|---|---|---|---|---|---|
| script.js:54-60 | the AI callback checks only that a game runs, then sets `aiThinking = true` and calls makeAIMove. makeAIMove returns at once when it is the player's turn, without clearing `aiThinking` | click a cell in normal mode, then switch to timed mode within one second. The callback fires on the new game, and from then on every click is refused while the countdown runs out, so the player loses on time | a callback scheduled for an earlier game or turn has no effect: it runs only when it is the AI's turn, and it never leaves the AI marked thinking | not executed | Game.StaleAiCallbackLocksPlayer | Game.TicTacDecay.AiDelayElapsedGuarded |
