/** The controller of script.js: its global variables as the fields of one
    object, each of its game functions as a method, and the browser's
    callbacks (the AI's one-second delay, the countdown's ticks, a change of
    mode) as events delivered to that object. */
module Game {
  import opened Rules

  datatype Mode = Normal | Timed

  /** Seconds on the clock each time the countdown (re)starts. */
  const TurnSeconds := 30

  /** Everything the game functions read and write, except the count of
      scheduled AI callbacks. */
  datatype GameState = GameState(pos: Position, gameActive: bool, isPlayerTurn: bool,
                                 aiThinking: bool, gameMode: Mode, timeLeft: int,
                                 timerRunning: bool, outcome: Outcome)

  class TicTacDecay {
    var board: array<Cell>
    var playerMoves: ByPlayer<seq<int>>
    var blockedCells: ByPlayer<seq<int>>
    var gameActive: bool
    var isPlayerTurn: bool
    var gameMode: Mode
    var timeLeft: int
    /** A countdown interval is live (`timer` set and not cleared). */
    var timerRunning: bool
    var aiThinking: bool
    /** The result endGame last announced; Pending while the game runs. */
    var outcome: Outcome
    /** AI callbacks scheduled by playerClick that have not fired yet. */
    var pendingAiMoves: nat

    ghost function Pos(): Position
      reads this`board, this`playerMoves, this`blockedCells, board
    {
      Position(board[..], playerMoves, blockedCells)
    }

    ghost function State(): GameState
      reads this, board
    {
      GameState(Pos(), gameActive, isPlayerTurn, aiThinking, gameMode, timeLeft, timerRunning, outcome)
    }

    /** The board has nine cells and the position invariant holds. */
    ghost predicate PositionOk()
      reads this`board, this`playerMoves, this`blockedCells, board
    {
      board.Length == Size && PosValid(Pos())
    }

    /** No winning line is complete on the board. */
    ghost predicate NoLine()
      reads this`board, board
      requires board.Length == Size
    {
      !Wins(board[..], X) && !Wins(board[..], O)
    }

    /** How the flags relate: the game runs exactly while no result is
        announced, the AI thinks and the countdown runs only in a running
        game, and the countdown only in timed mode. */
    ghost predicate FlagsOk()
      reads this`gameActive, this`outcome, this`aiThinking, this`timerRunning, this`gameMode
    {
      (gameActive <==> outcome == Pending) &&
      (aiThinking ==> gameActive) &&
      (timerRunning ==> gameActive && gameMode == Timed)
    }

    /** The invariant, except that no line is complete while the game runs
        (makeMove breaks that for a moment, until checkGameEnd). */
    ghost predicate Consistent()
      reads this`board, this`playerMoves, this`blockedCells, board,
            this`gameActive, this`outcome, this`aiThinking, this`timerRunning, this`gameMode
    {
      PositionOk() && FlagsOk()
    }

    ghost predicate Valid()
      reads this`board, this`playerMoves, this`blockedCells, board,
            this`gameActive, this`outcome, this`aiThinking, this`timerRunning, this`gameMode
    {
      Consistent() && (gameActive ==> NoLine())
    }

    /** The initial values of the globals. */
    constructor ()
      ensures Valid() && fresh(board)
      ensures Pos() == Start()
      ensures gameActive && isPlayerTurn && !aiThinking && outcome == Pending
      ensures gameMode == Normal && timeLeft == TurnSeconds && !timerRunning && pendingAiMoves == 0
    {
      board := new Cell[Size](_ => Empty);
      playerMoves := ByPlayer([], []);
      blockedCells := ByPlayer([], []);
      gameActive := true;
      isPlayerTurn := true;
      gameMode := Normal;
      timeLeft := TurnSeconds;
      timerRunning := false;
      aiThinking := false;
      outcome := Pending;
      pendingAiMoves := 0;
      new;
      assert board[..] == Start().board;
    }

    /** startTimer: a fresh countdown from 30 seconds. */
    method StartTimer()
      requires Valid() && gameActive && gameMode == Timed
      modifies this`timeLeft, this`timerRunning
      ensures Valid() && timeLeft == TurnSeconds && timerRunning
    {
      timeLeft := TurnSeconds;
      timerRunning := true;
    }

    /** The last step of makeMove: a new countdown while a timed game runs. */
    method RestartTimer()
      requires Valid() && !timerRunning
      modifies this`timeLeft, this`timerRunning
      ensures Valid()
      ensures timerRunning == (gameActive && gameMode == Timed)
      ensures timeLeft == if timerRunning then TurnSeconds else old(timeLeft)
    {
      if gameActive && gameMode == Timed {
        StartTimer();
      }
    }

    /** endGame, state part: the game stops, the AI stops thinking, the
        countdown is cleared, and the result is announced. */
    method EndGame(w: Outcome)
      requires Consistent() && w != Pending
      modifies this`gameActive, this`aiThinking, this`timerRunning, this`outcome
      ensures Valid() && !gameActive && !aiThinking && !timerRunning && outcome == w
    {
      gameActive := false;
      aiThinking := false;
      timerRunning := false;
      outcome := w;
    }

    /** checkGameEnd: the first complete line in list order wins; with none,
        a draw when neither player has an open cell; otherwise nothing. */
    method CheckGameEnd()
      requires Consistent() && gameActive
      modifies this`gameActive, this`aiThinking, this`timerRunning, this`outcome
      ensures Valid()
      ensures outcome == Judge(Pos())
      ensures aiThinking == (old(aiThinking) && gameActive)
      ensures timerRunning == (old(timerRunning) && gameActive)
    {
      for k := 0 to |Lines|
        invariant forall j :: 0 <= j < k ==> LineOwner(board[..], Lines[j]) == None
      {
        var line := Lines[k];
        var a, b, c := line[0], line[1], line[2];
        if board[a] != Empty && board[a] == board[b] && board[a] == board[c] {
          FirstCompleteLineSpec(board[..], 0);
          EndGame(Won(board[a].owner));
          return;
        }
      }
      JudgeSpec(Pos());
      var canPlayerMove := CanPlay(board[..], blockedCells.At(X));
      var canAIMove := CanPlay(board[..], blockedCells.At(O));
      if !canPlayerMove && !canAIMove {
        EndGame(Draw);
      }
    }

    /** The mark-limit and placement steps of makeMove. */
    method PlaceMark(i: int, p: Player)
      requires Valid() && gameActive && 0 <= i < Size && board[i] == Empty
      modifies this`playerMoves, this`blockedCells, board
      ensures Consistent() && Pos() == Place(old(Pos()), i, p)
      ensures Judge(Pos()) != Won(Other(p)) && Judge(Pos()) != Draw
    {
      ghost var before := Pos();
      var q := playerMoves.At(p);
      if |q| >= MaxMarks {
        var oldest := q[0];
        playerMoves := playerMoves.With(p, q[1..]);
        board[oldest] := Empty;
        blockedCells := blockedCells.With(p, [oldest]);
      } else {
        blockedCells := blockedCells.With(p, []);
      }
      board[i] := Mark(p);
      playerMoves := playerMoves.With(p, playerMoves.At(p) + [i]);
      assert Pos() == Place(before, i, p);
      PlacePreservesValid(before, i, p);
      OnlyMoverCanWin(before, i, p);
      JudgeSpec(Pos());
      NeverDrawn(Pos());
    }

    /** makeMove: evict p's oldest mark when p already has three (blocking
        that cell for p), place p's mark at i, check for the end of the
        game, and restart the countdown in timed mode while the game runs.
        The countdown is cleared first; the source's test for timed mode
        before clearing it is implied by the invariant. */
    method MakeMove(i: int, p: Player)
      requires Valid() && gameActive && 0 <= i < Size && board[i] == Empty
      modifies this`playerMoves, this`blockedCells, this`gameActive, this`aiThinking,
               this`timerRunning, this`timeLeft, this`outcome, board
      ensures Valid()
      ensures Pos() == Place(old(Pos()), i, p)
      ensures outcome == Judge(Pos()) && outcome != Won(Other(p)) && outcome != Draw
      ensures aiThinking == (old(aiThinking) && gameActive)
      ensures timerRunning == (gameActive && gameMode == Timed)
      ensures timeLeft == if timerRunning then TurnSeconds else old(timeLeft)
    {
      timerRunning := false;
      PlaceMark(i, p);
      ghost var placed := Pos();
      FinishMove();
      assert Pos() == placed;
    }

    /** The last steps of makeMove: checkGameEnd, then a new countdown while
        a timed game runs. */
    method FinishMove()
      requires Consistent() && gameActive && !timerRunning
      modifies this`gameActive, this`aiThinking, this`timerRunning, this`timeLeft, this`outcome
      ensures Valid() && outcome == Judge(Pos())
      ensures aiThinking == (old(aiThinking) && gameActive)
      ensures timerRunning == (gameActive && gameMode == Timed)
      ensures timeLeft == if timerRunning then TurnSeconds else old(timeLeft)
    {
      CheckGameEnd();
      RestartTimer();
    }

    /** findWinningMove: scan the cells in order, try p's mark in each empty
        cell not blocked for p, undo it, and report the first that completes
        a line; -1 when none does. The board is as it was afterwards. */
    method FindWinningMove(p: Player) returns (r: int)
      requires Valid()
      modifies board
      ensures Valid() && board[..] == old(board[..])
      ensures r == FirstWinningCell(old(board[..]), blockedCells.At(p), p, 0)
    {
      ghost var b := board[..];
      for i := 0 to Size
        invariant board[..] == b
        invariant FirstWinningCell(b, blockedCells.At(p), p, 0) == FirstWinningCell(b, blockedCells.At(p), p, i)
      {
        if board[i] != Empty || i in blockedCells.At(p) {
          continue;
        }
        board[i] := Mark(p);
        assert board[..] == b[i := Mark(p)];
        var isWin := Wins(board[..], p);
        board[i] := Empty;
        assert board[..] == b;
        if isWin {
          return i;
        }
      }
      return -1;
    }

    /** The `availableMoves` loop of makeAIMove: the empty cells not blocked
        for O, in increasing order. */
    method AvailableMoves() returns (av: seq<int>)
      requires Valid()
      ensures av == Available(board[..], blockedCells.At(O), Size)
    {
      av := [];
      for i := 0 to Size
        invariant av == Available(board[..], blockedCells.At(O), i)
      {
        if board[i] == Empty && i !in blockedCells.At(O) {
          av := av + [i];
        }
      }
    }

    /** The choosing steps of makeAIMove: findWinningMove for O, then for X,
        then the `pick`-th cell of availableMoves, else -1. */
    method ChooseAIMove(pick: nat) returns (move: int)
      requires Valid()
      modifies board
      ensures Valid() && board[..] == old(board[..])
      ensures move == AIChoice(old(Pos()), pick)
    {
      ghost var before := Pos();
      move := FindWinningMove(O);
      if move == -1 {
        move := FindWinningMove(X);
      }
      if move == -1 {
        var availableMoves := AvailableMoves();
        move := if |availableMoves| > 0 then availableMoves[pick % |availableMoves|] else -1;
      }
    }

    /** The state after makeAIMove has run on `before`, a running game on the
        AI's turn: O played AIChoice (nothing else changed when that is -1),
        the turn is back with the player and the AI no longer thinks. */
    ghost predicate AiMoved(before: GameState, pick: nat, move: int)
      requires |before.pos.board| == Size && PosValid(before.pos)
      reads this, board
    {
      move == AIChoice(before.pos, pick) &&
      (move == -1 ==> State() == before.(isPlayerTurn := true, aiThinking := false)) &&
      (move != -1 ==>
         Pos() == Place(before.pos, move, O) && outcome == Judge(Pos()) && outcome != Won(X) &&
         gameMode == before.gameMode && isPlayerTurn && !aiThinking &&
         timerRunning == (gameActive && gameMode == Timed) &&
         timeLeft == if timerRunning then TurnSeconds else before.timeLeft)
    }

    /** makeAIMove: ignored unless the game runs and it is the AI's turn;
        otherwise O plays AIChoice (win, else block, else the `pick`-th open
        cell), and the turn passes back to the player. */
    method MakeAIMove(pick: nat) returns (move: int)
      requires Valid()
      modifies this`playerMoves, this`blockedCells, this`gameActive, this`aiThinking,
               this`isPlayerTurn, this`timerRunning, this`timeLeft, this`outcome, board
      ensures Valid()
      ensures old(!gameActive || isPlayerTurn) ==> move == -1 && State() == old(State())
      ensures old(gameActive && !isPlayerTurn) ==> AiMoved(old(State()), pick, move)
    {
      move := -1;
      if !gameActive || isPlayerTurn {
        return;
      }
      move := ChooseAIMove(pick);
      if move != -1 {
        MakeMove(move, O);
      }
      aiThinking := false;
      isPlayerTurn := true;
    }

    /** The guard of playerClick. */
    ghost predicate ClickAccepted(i: int)
      requires 0 <= i < board.Length
      reads this`board, this`blockedCells, this`gameActive, this`isPlayerTurn, this`aiThinking, board
    {
      gameActive && isPlayerTurn && !aiThinking && board[i] == Empty && i !in blockedCells.At(X)
    }

    /** playerClick: a click is ignored unless the game runs, it is the
        player's turn, the AI is not thinking and cell i is empty and not
        blocked for X. Otherwise X plays i and, if the game goes on, the turn
        passes to the AI and its move is scheduled. */
    method PlayerClick(i: int)
      requires Valid() && 0 <= i < Size
      modifies this`playerMoves, this`blockedCells, this`gameActive, this`aiThinking,
               this`isPlayerTurn, this`timerRunning, this`timeLeft, this`outcome,
               this`pendingAiMoves, board
      ensures Valid()
      ensures !old(ClickAccepted(i)) ==> State() == old(State()) && pendingAiMoves == old(pendingAiMoves)
      ensures old(ClickAccepted(i)) ==>
                Pos() == Place(old(Pos()), i, X) &&
                outcome == Judge(Pos()) && outcome != Won(O) && outcome != Draw &&
                isPlayerTurn == !gameActive && !aiThinking &&
                pendingAiMoves == old(pendingAiMoves) + (if gameActive then 1 else 0) &&
                timerRunning == (gameActive && gameMode == Timed) &&
                timeLeft == if timerRunning then TurnSeconds else old(timeLeft)
    {
      if !gameActive || !isPlayerTurn || aiThinking {
        return;
      }
      if board[i] != Empty || i in blockedCells.At(X) {
        return;
      }
      MakeMove(i, X);
      if gameActive {
        isPlayerTurn := false;
        pendingAiMoves := pendingAiMoves + 1;
      }
    }

    /** The AI callback that playerClick schedules, as written: when the game
        runs it sets aiThinking and calls makeAIMove, even if the turn is no
        longer the AI's. */
    method AiDelayElapsed(pick: nat) returns (move: int)
      requires Valid() && pendingAiMoves > 0
      modifies this`playerMoves, this`blockedCells, this`gameActive, this`aiThinking,
               this`isPlayerTurn, this`timerRunning, this`timeLeft, this`outcome,
               this`pendingAiMoves, board
      ensures Valid()
      ensures pendingAiMoves == old(pendingAiMoves) - 1
      ensures !old(gameActive) ==> move == -1 && State() == old(State())
      ensures old(gameActive && isPlayerTurn) ==>
                move == -1 && State() == old(State()).(aiThinking := true)
      ensures old(gameActive && !isPlayerTurn) ==> AiMoved(old(State()), pick, move)
    {
      pendingAiMoves := pendingAiMoves - 1;
      move := -1;
      if gameActive {
        aiThinking := true;
        move := MakeAIMove(pick);
      }
    }

    /** The AI callback with the guard makeAIMove itself uses: a callback that
        fires when the turn is no longer the AI's leaves the game as it is. */
    method AiDelayElapsedGuarded(pick: nat) returns (move: int)
      requires Valid() && pendingAiMoves > 0
      modifies this`playerMoves, this`blockedCells, this`gameActive, this`aiThinking,
               this`isPlayerTurn, this`timerRunning, this`timeLeft, this`outcome,
               this`pendingAiMoves, board
      ensures Valid()
      ensures pendingAiMoves == old(pendingAiMoves) - 1
      ensures !old(gameActive && !isPlayerTurn) ==> move == -1 && State() == old(State())
      ensures old(gameActive && !isPlayerTurn) ==> AiMoved(old(State()), pick, move)
      ensures !old(aiThinking) ==> !aiThinking
    {
      pendingAiMoves := pendingAiMoves - 1;
      move := -1;
      if gameActive && !isPlayerTurn {
        aiThinking := true;
        move := MakeAIMove(pick);
      }
    }

    /** handleTimeOut: the countdown stops; if the game runs, whoever holds
        the turn loses. */
    method HandleTimeOut()
      requires Valid()
      modifies this`timerRunning, this`gameActive, this`aiThinking, this`outcome
      ensures Valid() && !timerRunning && !gameActive
      ensures outcome == if old(gameActive) then (if isPlayerTurn then Won(O) else Won(X)) else old(outcome)
    {
      timerRunning := false;
      if !gameActive {
        return;
      }
      EndGame(if isPlayerTurn then Won(O) else Won(X));
    }

    /** One second of the countdown: on reaching zero the game times out. */
    method Tick()
      requires Valid() && timerRunning
      modifies this`timeLeft, this`timerRunning, this`gameActive, this`aiThinking, this`outcome
      ensures Valid() && timeLeft == old(timeLeft) - 1
      ensures timeLeft > 0 ==> timerRunning && gameActive && aiThinking == old(aiThinking)
      ensures timeLeft <= 0 ==> !timerRunning && !gameActive &&
                                outcome == (if isPlayerTurn then Won(O) else Won(X))
    {
      timeLeft := timeLeft - 1;
      if timeLeft <= 0 {
        HandleTimeOut();
      }
    }

    /** resetGame, state part: a new board, empty queues and blocked lists,
        the player to move, and a fresh countdown in timed mode. Scheduled AI
        callbacks are not cancelled. */
    method Reset()
      modifies this`board, this`playerMoves, this`blockedCells, this`gameActive, this`isPlayerTurn,
               this`timeLeft, this`aiThinking, this`timerRunning, this`outcome
      ensures Valid() && fresh(board)
      ensures Pos() == Start()
      ensures gameActive && isPlayerTurn && !aiThinking && outcome == Pending && timeLeft == TurnSeconds
      ensures timerRunning == (gameMode == Timed)
    {
      board := new Cell[Size](_ => Empty);
      assert board[..] == Start().board;
      playerMoves := ByPlayer([], []);
      blockedCells := ByPlayer([], []);
      gameActive := true;
      isPlayerTurn := true;
      timeLeft := TurnSeconds;
      aiThinking := false;
      timerRunning := false;
      outcome := Pending;
      if gameMode == Timed {
        StartTimer();
      }
    }

    /** The mode selector's change handler: set the mode and reset. */
    method ChangeMode(m: Mode)
      modifies this`gameMode, this`board, this`playerMoves, this`blockedCells, this`gameActive,
               this`isPlayerTurn, this`timeLeft, this`aiThinking, this`timerRunning, this`outcome
      ensures Valid() && fresh(board)
      ensures gameMode == m && Pos() == Start()
      ensures gameActive && isPlayerTurn && !aiThinking && outcome == Pending && timeLeft == TurnSeconds
      ensures timerRunning == (m == Timed)
    {
      gameMode := m;
      Reset();
    }
  }

  /** The first move of a game never ends it: one mark completes no line. */
  lemma FirstMoveGoesOn(i: int)
    requires 0 <= i < Size
    ensures Judge(Place(Start(), i, X)) == Pending
  {
    var pos := Place(Start(), i, X);
    PlacePreservesValid(Start(), i, X);
    FewMarksNoWin(pos, X);
    FewMarksNoWin(pos, O);
    JudgeSpec(pos);
    NeverDrawn(pos);
  }

  /** The events before a stale AI callback: the player moves in a new
      normal game, which schedules the AI, then switches to timed mode before
      the AI's delay has elapsed. The mode change resets the game and starts
      the countdown; the callback is still scheduled. */
  method StaleCallbackSetup() returns (g: TicTacDecay)
    ensures fresh(g) && fresh(g.board) && g.Valid() && g.Pos() == Start() && g.pendingAiMoves == 1
    ensures g.gameActive && g.isPlayerTurn && !g.aiThinking
    ensures g.gameMode == Timed && g.timerRunning && g.timeLeft == TurnSeconds
  {
    g := new TicTacDecay();
    FirstMoveGoesOn(4);
    g.PlayerClick(4);
    g.ChangeMode(Timed);
  }

  /** The AI callback as written, fired after StaleCallbackSetup: it sets
      aiThinking on the new game, where it is the player's turn, and
      makeAIMove returns at once. The game runs, yet no click is accepted. */
  method StaleAiCallbackLocksPlayer() returns (g: TicTacDecay)
    ensures g.Valid() && g.Pos() == Start() && g.pendingAiMoves == 0
    ensures g.gameActive && g.isPlayerTurn && g.aiThinking
    ensures g.timerRunning && g.timeLeft == TurnSeconds
    ensures forall i :: 0 <= i < Size ==> !g.ClickAccepted(i)
  {
    g := StaleCallbackSetup();
    var move := g.AiDelayElapsed(0);
  }

  /** A locked game runs until the countdown ends it, and the player loses
      on time: clicks are refused at every tick, the board never changes. */
  method LockedPlayerLosesOnTime(g: TicTacDecay)
    requires g.Valid() && g.gameActive && g.isPlayerTurn && g.aiThinking
    requires g.timerRunning && 0 < g.timeLeft
    modifies g
    ensures g.Valid() && g.Pos() == old(g.Pos()) && !g.gameActive && g.outcome == Won(O)
  {
    while g.gameActive
      invariant g.Valid() && g.Pos() == old(g.Pos()) && g.isPlayerTurn
      invariant g.gameActive ==> g.timerRunning && g.aiThinking && 0 < g.timeLeft
      invariant g.gameActive ==> forall i :: 0 <= i < Size ==> !g.ClickAccepted(i)
      invariant !g.gameActive ==> g.outcome == Won(O)
      decreases g.timeLeft
    {
      g.Tick();
    }
  }

  /** The same events with the guarded callback: the stale callback changes
      nothing, and the player can move in any cell of the new game. */
  method StaleAiCallbackIgnored() returns (g: TicTacDecay)
    ensures g.Valid() && g.Pos() == Start() && g.pendingAiMoves == 0
    ensures g.gameActive && g.isPlayerTurn && !g.aiThinking
    ensures forall i :: 0 <= i < Size ==> g.ClickAccepted(i)
  {
    g := StaleCallbackSetup();
    var move := g.AiDelayElapsedGuarded(0);
  }
}
