/** The rules of "3 marks max, oldest removed" tic-tac-toe as pure functions:
    the board, the eight winning lines, placing a mark with eviction and
    blocking, the end-of-game verdict, and the heuristic AI's choice.
    The class in module Game is proved against these definitions. */
module Rules {

  datatype Player = X | O

  function Other(p: Player): Player { if p == X then O else X }

  /** A board cell: '' in the source, or the mark of a player. */
  datatype Cell = Empty | Mark(owner: Player)

  datatype Option<T> = None | Some(value: T)

  /** A value kept per player, like the `{ X: ..., O: ... }` records. */
  datatype ByPlayer<T> = ByPlayer(forX: T, forO: T) {
    function At(p: Player): T { if p == X then forX else forO }

    function With(p: Player, v: T): (r: ByPlayer<T>)
      ensures r.At(p) == v && r.At(Other(p)) == At(Other(p))
    {
      if p == X then ByPlayer(v, forO) else ByPlayer(forX, v)
    }
  }

  /** What endGame announces: nothing yet, a winner, or a draw (`endGame(null)`). */
  datatype Outcome = Pending | Won(winner: Player) | Draw

  const Size := 9
  const MaxMarks := 3

  /** A line of three cell indices on the 3x3 board. */
  type Line = l: seq<int> | |l| == 3 && 0 <= l[0] < 9 && 0 <= l[1] < 9 && 0 <= l[2] < 9
    witness [0, 1, 2]

  /** Rows, columns, diagonals, in the source's order. */
  const Lines: seq<Line> := [[0, 1, 2], [3, 4, 5], [6, 7, 8],
                             [0, 3, 6], [1, 4, 7], [2, 5, 8],
                             [0, 4, 8], [2, 4, 6]]

  /** Every cell of `line` holds p's mark (`line.every(...)`). */
  predicate Holds(b: seq<Cell>, line: Line, p: Player)
    requires |b| == Size
  {
    b[line[0]] == Mark(p) && b[line[1]] == Mark(p) && b[line[2]] == Mark(p)
  }

  /** Some winning line is held by p (`winningLines.some(...)`). */
  predicate Wins(b: seq<Cell>, p: Player)
    requires |b| == Size
  {
    exists k :: 0 <= k < |Lines| && Holds(b, Lines[k], p)
  }

  /** The owner of a complete line: the first cell is non-empty and equal to the other two. */
  function LineOwner(b: seq<Cell>, line: Line): (r: Option<Player>)
    requires |b| == Size
    ensures forall p :: r == Some(p) <==> Holds(b, line, p)
  {
    var a := b[line[0]];
    if a != Empty && a == b[line[1]] && a == b[line[2]] then Some(a.owner) else None
  }

  /** Index of the first complete line at or after k, or |Lines| when there
      is none (see FirstCompleteLineSpec). */
  function FirstCompleteLine(b: seq<Cell>, k: nat): (j: nat)
    requires |b| == Size && k <= |Lines|
    ensures k <= j <= |Lines|
    decreases |Lines| - k
  {
    if k == |Lines| then k
    else if LineOwner(b, Lines[k]).Some? then k
    else FirstCompleteLine(b, k + 1)
  }

  /** The line FirstCompleteLine finds is complete, and no line before it
      (from k on) is. */
  lemma {:induction false} FirstCompleteLineSpec(b: seq<Cell>, k: nat)
    requires |b| == Size && k <= |Lines|
    ensures var j := FirstCompleteLine(b, k);
            (j < |Lines| ==> LineOwner(b, Lines[j]).Some?) &&
            forall i :: k <= i < j ==> LineOwner(b, Lines[i]) == None
    decreases |Lines| - k
  {
    if k < |Lines| && LineOwner(b, Lines[k]).None? {
      FirstCompleteLineSpec(b, k + 1);
    }
  }

  /** Some cell is empty and not in `blocked` (the `gameBoard.some(...)` draw tests). */
  predicate CanPlay(b: seq<Cell>, blocked: seq<int>)
  {
    exists i :: 0 <= i < |b| && b[i] == Empty && i !in blocked
  }

  /** The state the rules look at: board, move queues (oldest first), blocked cells. */
  datatype Position = Position(board: seq<Cell>, moves: ByPlayer<seq<int>>, blocked: ByPlayer<seq<int>>)

  /** The position of a new game. */
  function Start(): (pos: Position)
    ensures PosValid(pos) && !Wins(pos.board, X) && !Wins(pos.board, O)
    ensures forall c :: 0 <= c < Size ==> pos.board[c] == Empty
  {
    Position([Empty, Empty, Empty, Empty, Empty, Empty, Empty, Empty, Empty],
             ByPlayer([], []), ByPlayer([], []))
  }

  predicate InBoard(q: seq<int>)
  {
    forall j :: 0 <= j < |q| ==> 0 <= q[j] < Size
  }

  /** A move queue: at most three distinct cells. */
  predicate QueueValid(q: seq<int>)
  {
    |q| <= MaxMarks && InBoard(q) &&
    forall j, k :: 0 <= j < k < |q| ==> q[j] != q[k]
  }

  /** The cells holding p's mark are exactly the entries of p's queue. */
  predicate Agrees(pos: Position, p: Player)
    requires |pos.board| == Size
  {
    forall c :: 0 <= c < Size ==> (pos.board[c] == Mark(p) <==> c in pos.moves.At(p))
  }

  /** p's blocked list holds at most the one cell p vacated, which p does not hold. */
  predicate BlockedValid(pos: Position, p: Player)
    requires |pos.board| == Size
  {
    var bl := pos.blocked.At(p);
    |bl| <= 1 && InBoard(bl) && forall c :: c in bl ==> pos.board[c] != Mark(p)
  }

  /** The invariant of every position the game reaches. */
  predicate PosValid(pos: Position)
  {
    |pos.board| == Size &&
    QueueValid(pos.moves.At(X)) && QueueValid(pos.moves.At(O)) &&
    Agrees(pos, X) && Agrees(pos, O) &&
    BlockedValid(pos, X) && BlockedValid(pos, O)
  }

  /** makeMove on the rules' state (see PlaceSpec). */
  function Place(pos: Position, i: int, p: Player): (r: Position)
    requires |pos.board| == Size && 0 <= i < Size && InBoard(pos.moves.At(p))
    ensures |r.board| == Size
  {
    var q := pos.moves.At(p);
    if |q| >= MaxMarks then
      var oldest := q[0];
      Position(pos.board[oldest := Empty][i := Mark(p)],
               pos.moves.With(p, q[1..] + [i]),
               pos.blocked.With(p, [oldest]))
    else
      Position(pos.board[i := Mark(p)],
               pos.moves.With(p, q + [i]),
               pos.blocked.With(p, []))
  }

  /** What a move does: p's mark is at i and i is the newest entry of p's
      queue. When p already had three marks, exactly the oldest one is taken
      off the board and out of the queue, and that cell becomes p's only
      blocked cell; otherwise p's blocked list is emptied. No other cell
      changes, and the other player's queue and blocked list are untouched. */
  lemma PlaceSpec(pos: Position, i: int, p: Player)
    requires |pos.board| == Size && 0 <= i < Size && InBoard(pos.moves.At(p))
    ensures var r := Place(pos, i, p);
            var q := pos.moves.At(p);
            r.board[i] == Mark(p) &&
            |r.moves.At(p)| > 0 && r.moves.At(p)[|r.moves.At(p)| - 1] == i &&
            r.moves.At(Other(p)) == pos.moves.At(Other(p)) &&
            r.blocked.At(Other(p)) == pos.blocked.At(Other(p)) &&
            (|q| < MaxMarks ==>
               r.moves.At(p) == q + [i] && r.blocked.At(p) == [] &&
               forall c :: 0 <= c < Size && c != i ==> r.board[c] == pos.board[c]) &&
            (|q| >= MaxMarks ==>
               r.moves.At(p) == q[1..] + [i] && r.blocked.At(p) == [q[0]] &&
               (q[0] != i ==> r.board[q[0]] == Empty) &&
               forall c :: 0 <= c < Size && c != i && c != q[0] ==> r.board[c] == pos.board[c])
  {
  }

  /** checkGameEnd's verdict: the owner of the first complete line in list
      order wins; with no complete line, it is a draw when no empty cell is
      open to X and none is open to O; otherwise the game goes on. */
  function Judge(pos: Position): (r: Outcome)
    requires |pos.board| == Size
    ensures r.Won? ==> Wins(pos.board, r.winner)
  {
    var k := FirstCompleteLine(pos.board, 0);
    if k < |Lines| then
      FirstCompleteLineSpec(pos.board, 0);
      Won(LineOwner(pos.board, Lines[k]).value)
    else if !CanPlay(pos.board, pos.blocked.At(X)) && !CanPlay(pos.board, pos.blocked.At(O)) then
      Draw
    else
      Pending
  }

  /** The verdict in full: a win goes to the owner of the first complete line
      in list order; there is no winner exactly when no line is complete; a
      draw exactly when, besides, neither player has an open cell. */
  lemma JudgeSpec(pos: Position)
    requires |pos.board| == Size
    ensures Judge(pos).Won? ==> Wins(pos.board, Judge(pos).winner)
    ensures Judge(pos).Won? ==>
              exists k :: 0 <= k < |Lines| && Holds(pos.board, Lines[k], Judge(pos).winner) &&
                          forall j :: 0 <= j < k ==> LineOwner(pos.board, Lines[j]) == None
    ensures !Judge(pos).Won? <==> !Wins(pos.board, X) && !Wins(pos.board, O)
    ensures Judge(pos) == Draw <==>
              !Judge(pos).Won? && !CanPlay(pos.board, pos.blocked.At(X)) && !CanPlay(pos.board, pos.blocked.At(O))
  {
    FirstCompleteLineSpec(pos.board, 0);
    var k := FirstCompleteLine(pos.board, 0);
    if k < |Lines| {
      var w := LineOwner(pos.board, Lines[k]).value;
      assert Holds(pos.board, Lines[k], w);
      assert Wins(pos.board, X) || Wins(pos.board, O) by { if w == X {} else {} }
    } else {
      forall q: Player, j | 0 <= j < |Lines|
        ensures !Holds(pos.board, Lines[j], q)
      {
        assert LineOwner(pos.board, Lines[j]) == None;
      }
    }
  }

  // ---------------------------------------------------------------------
  // The heuristic AI

  /** findWinningMove's test of one cell: it is empty, not in `blocked`, and a
      trial mark of p there completes a line for p. The trial ignores the
      eviction that playing there would cause. */
  predicate WinningCell(b: seq<Cell>, blocked: seq<int>, p: Player, i: int)
    requires |b| == Size && 0 <= i < Size
  {
    b[i] == Empty && i !in blocked && Wins(b[i := Mark(p)], p)
  }

  /** The lowest winning cell at or after `from`, or -1 when there is none
      (see FirstWinningCellSpec). */
  function FirstWinningCell(b: seq<Cell>, blocked: seq<int>, p: Player, from: nat): (r: int)
    requires |b| == Size && from <= Size
    ensures r == -1 || from <= r < Size
    decreases Size - from
  {
    if from == Size then -1
    else if WinningCell(b, blocked, p, from) then from
    else FirstWinningCell(b, blocked, p, from + 1)
  }

  /** findWinningMove's result: -1 exactly when no cell at or after `from`
      wins; otherwise a winning cell with no winning cell before it. */
  lemma {:induction false} FirstWinningCellSpec(b: seq<Cell>, blocked: seq<int>, p: Player, from: nat)
    requires |b| == Size && from <= Size
    ensures var r := FirstWinningCell(b, blocked, p, from);
            (r == -1 <==> forall i :: from <= i < Size ==> !WinningCell(b, blocked, p, i)) &&
            (r != -1 ==> WinningCell(b, blocked, p, r) &&
                         forall i :: from <= i < r ==> !WinningCell(b, blocked, p, i))
    decreases Size - from
  {
    if from < Size && !WinningCell(b, blocked, p, from) {
      FirstWinningCellSpec(b, blocked, p, from + 1);
    }
  }

  /** The cells below n that are empty and not in `blocked`, in increasing
      order (the `availableMoves` list; see AvailableSpec). */
  function Available(b: seq<Cell>, blocked: seq<int>, n: nat): (av: seq<int>)
    requires n <= |b|
    ensures |av| <= n
    decreases n
  {
    if n == 0 then []
    else
      var prev := Available(b, blocked, n - 1);
      if b[n - 1] == Empty && n - 1 !in blocked then prev + [n - 1] else prev
  }

  /** availableMoves holds every empty cell below n that is not blocked,
      nothing else, each once and in increasing order. */
  lemma {:induction false} AvailableSpec(b: seq<Cell>, blocked: seq<int>, n: nat)
    requires n <= |b|
    ensures var av := Available(b, blocked, n);
            (forall c :: c in av <==> 0 <= c < n && b[c] == Empty && c !in blocked) &&
            (forall j, k :: 0 <= j < k < |av| ==> av[j] < av[k])
    decreases n
  {
    if n > 0 {
      AvailableSpec(b, blocked, n - 1);
      var prev := Available(b, blocked, n - 1);
      forall j | 0 <= j < |prev|
        ensures prev[j] < n - 1
      {
        assert prev[j] in prev;
      }
    }
  }

  /** Some cell wins for p (findWinningMove(p) would not return -1). */
  predicate HasWinningCell(b: seq<Cell>, blocked: seq<int>, p: Player)
    requires |b| == Size
  {
    exists i :: 0 <= i < Size && WinningCell(b, blocked, p, i)
  }

  /** r is the lowest winning cell for p. */
  predicate LowestWinningCell(b: seq<Cell>, blocked: seq<int>, p: Player, r: int)
    requires |b| == Size
  {
    0 <= r < Size && WinningCell(b, blocked, p, r) &&
    forall i :: 0 <= i < r ==> !WinningCell(b, blocked, p, i)
  }

  /** makeAIMove's choice: the lowest cell that wins for O; else the lowest
      cell that would win for X, scanned against X's blocked list as the
      source does; else the available cell that `pick` selects (Math.random in
      the source); else -1. Whatever it picks is an empty cell. */
  function AIChoice(pos: Position, pick: nat): (r: int)
    requires |pos.board| == Size
    ensures r == -1 || (0 <= r < Size && pos.board[r] == Empty)
  {
    var win := FirstWinningCell(pos.board, pos.blocked.At(O), O, 0);
    FirstWinningCellSpec(pos.board, pos.blocked.At(O), O, 0);
    if win != -1 then win
    else
      var block := FirstWinningCell(pos.board, pos.blocked.At(X), X, 0);
      FirstWinningCellSpec(pos.board, pos.blocked.At(X), X, 0);
      if block != -1 then block
      else
        var av := Available(pos.board, pos.blocked.At(O), Size);
        AvailableSpec(pos.board, pos.blocked.At(O), Size);
        if |av| > 0 then
          assert av[pick % |av|] in av;
          av[pick % |av|]
        else -1
  }

  /** The AI's priorities: it wins when it can (at the lowest such cell);
      else it blocks the lowest cell where X would win; else it plays an
      open cell, and gives up (-1) only when it has none. */
  lemma AIChoiceSpec(pos: Position, pick: nat)
    requires |pos.board| == Size
    ensures var r := AIChoice(pos, pick);
            (HasWinningCell(pos.board, pos.blocked.At(O), O) ==>
               LowestWinningCell(pos.board, pos.blocked.At(O), O, r)) &&
            (!HasWinningCell(pos.board, pos.blocked.At(O), O) &&
             HasWinningCell(pos.board, pos.blocked.At(X), X) ==>
               LowestWinningCell(pos.board, pos.blocked.At(X), X, r)) &&
            (!HasWinningCell(pos.board, pos.blocked.At(O), O) &&
             !HasWinningCell(pos.board, pos.blocked.At(X), X) ==>
               (r == -1 <==> !CanPlay(pos.board, pos.blocked.At(O))) &&
               (r != -1 ==> r !in pos.blocked.At(O)))
  {
    var b := pos.board;
    FirstWinningCellSpec(b, pos.blocked.At(O), O, 0);
    FirstWinningCellSpec(b, pos.blocked.At(X), X, 0);
    var av := Available(b, pos.blocked.At(O), Size);
    AvailableSpec(b, pos.blocked.At(O), Size);
    if CanPlay(b, pos.blocked.At(O)) {
      var i :| 0 <= i < Size && b[i] == Empty && i !in pos.blocked.At(O);
      assert i in av;
    }
    if |av| > 0 {
      assert av[pick % |av|] in av;
    }
  }

  // ---------------------------------------------------------------------
  // Lemmas

  /** After a legal move, the mover's queue is still at most three distinct
      cells and names exactly the cells holding the mover's mark. */
  lemma PlaceKeepsMoverQueue(pos: Position, i: int, p: Player)
    requires PosValid(pos) && 0 <= i < Size && pos.board[i] == Empty
    ensures QueueValid(Place(pos, i, p).moves.At(p)) && Agrees(Place(pos, i, p), p)
  {
    PlaceSpec(pos, i, p);
    var r := Place(pos, i, p);
    var q := pos.moves.At(p);
    var q' := r.moves.At(p);
    assert i !in q;
    if |q| >= MaxMarks {
      forall c | 0 <= c < Size
        ensures r.board[c] == Mark(p) <==> c in q'
      {
        if c == q[0] {
          assert c !in q[1..];
        } else if c != i {
          assert c in q' <==> c in q;
        }
      }
    } else {
      forall c | 0 <= c < Size
        ensures r.board[c] == Mark(p) <==> c in q'
      {
        if c != i {
          assert c in q' <==> c in q;
        }
      }
    }
  }

  /** A move leaves the other player's marks exactly where its queue says. */
  lemma PlaceKeepsOtherQueue(pos: Position, i: int, p: Player)
    requires PosValid(pos) && 0 <= i < Size && pos.board[i] == Empty
    ensures Agrees(Place(pos, i, p), Other(p))
  {
    PlaceSpec(pos, i, p);
    var r := Place(pos, i, p);
    var q := pos.moves.At(p);
    var o := Other(p);
    forall c | 0 <= c < Size
      ensures r.board[c] == Mark(o) <==> c in r.moves.At(o)
    {
      if c != i && (|q| < MaxMarks || c != q[0]) {
        assert r.board[c] == pos.board[c];
      } else if c == i {
        assert i !in pos.moves.At(o);
      } else {
        assert pos.board[c] == Mark(p);
      }
    }
  }

  /** A legal move (into an empty cell) keeps the position invariant: queues of
      at most three distinct cells that agree with the board, and blocked lists
      of at most one cell that the blocked player does not hold. */
  lemma PlacePreservesValid(pos: Position, i: int, p: Player)
    requires PosValid(pos) && 0 <= i < Size && pos.board[i] == Empty
    ensures PosValid(Place(pos, i, p))
  {
    PlaceSpec(pos, i, p);
    PlaceKeepsMoverQueue(pos, i, p);
    PlaceKeepsOtherQueue(pos, i, p);
    var r := Place(pos, i, p);
    var o := Other(p);
    assert Agrees(r, X) && Agrees(r, O);
    forall c | c in r.blocked.At(o)
      ensures r.board[c] != Mark(o)
    {
      assert pos.board[c] != Mark(o);
    }
  }

  /** A move never completes a line for the player who did not move: the
      mover's placement and eviction leave the other player's marks as they
      were. Hence on any board the game reaches, X and O do not both win. */
  lemma OnlyMoverCanWin(pos: Position, i: int, p: Player)
    requires PosValid(pos) && 0 <= i < Size && pos.board[i] == Empty
    requires !Wins(pos.board, Other(p))
    ensures !Wins(Place(pos, i, p).board, Other(p))
  {
    PlaceSpec(pos, i, p);
    var r := Place(pos, i, p);
    var o := Other(p);
    forall c | 0 <= c < Size
      ensures r.board[c] == Mark(o) ==> pos.board[c] == Mark(o)
    {
      if c != i && (|pos.moves.At(p)| < MaxMarks || c != pos.moves.At(p)[0]) {
      }
    }
    forall k | 0 <= k < |Lines|
      ensures !Holds(r.board, Lines[k], o)
    {
      assert !Holds(pos.board, Lines[k], o);
    }
  }

  /** The three cells of every winning line are distinct. */
  lemma LinesDistinct(k: int)
    requires 0 <= k < |Lines|
    ensures Lines[k][0] != Lines[k][1] && Lines[k][0] != Lines[k][2] && Lines[k][1] != Lines[k][2]
  {
    if k < 4 {
      assert k == 0 || k == 1 || k == 2 || k == 3;
    } else {
      assert k == 4 || k == 5 || k == 6 || k == 7;
    }
  }

  /** Two entries cannot hold three distinct values. */
  lemma OneOfThreeMissing(q: seq<int>, a: int, b: int, c: int)
    requires |q| < 3 && a != b && a != c && b != c
    ensures a !in q || b !in q || c !in q
  {
    if a in q && b in q {
      assert |q| == 2;
      assert forall j :: 0 <= j < |q| ==> q[j] == a || q[j] == b by {
        assert q[0] == a || q[1] == a;
      }
    }
  }

  /** It takes three marks to win: on a position the game reaches, a player
      with fewer than three marks holds no line. */
  lemma FewMarksNoWin(pos: Position, p: Player)
    requires PosValid(pos) && |pos.moves.At(p)| < MaxMarks
    ensures !Wins(pos.board, p)
  {
    forall k | 0 <= k < |Lines|
      ensures !Holds(pos.board, Lines[k], p)
    {
      LinesDistinct(k);
      var a, b, c := Lines[k][0], Lines[k][1], Lines[k][2];
      OneOfThreeMissing(pos.moves.At(p), a, b, c);
      assert pos.board[a] != Mark(p) || pos.board[b] != Mark(p) || pos.board[c] != Mark(p);
    }
  }

  /** Fewer than n entries cannot name every cell below n. */
  lemma {:induction false} MissingCell(s: seq<int>, n: nat)
    requires |s| < n
    ensures exists c :: 0 <= c < n && c !in s
  {
    if n - 1 !in s {
      assert 0 <= n - 1 < n;
    } else {
      var k :| 0 <= k < |s| && s[k] == n - 1;
      var rest := s[..k] + s[k + 1..];
      MissingCell(rest, n - 1);
      var c :| 0 <= c < n - 1 && c !in rest;
      forall j | 0 <= j < |s|
        ensures s[j] != c
      {
        if j < k {
          assert s[j] == rest[j];
        } else if j > k {
          assert s[j] == rest[j - 1];
        }
      }
      assert 0 <= c < n && c !in s;
    }
  }

  /** With at most three marks each, at least three cells are empty, and a
      blocked list of one cell cannot close all of them: each player always
      has an open cell. */
  lemma PlayableCellExists(pos: Position, p: Player)
    requires PosValid(pos)
    ensures CanPlay(pos.board, pos.blocked.At(p))
  {
    var taken := pos.moves.At(X) + pos.moves.At(O) + pos.blocked.At(p);
    MissingCell(taken, Size);
    var c :| 0 <= c < Size && c !in taken;
    assert pos.board[c] != Mark(X) && pos.board[c] != Mark(O);
    assert pos.board[c] == Empty && c !in pos.blocked.At(p);
  }

  /** The draw branch of checkGameEnd is never taken on a reachable position. */
  lemma NeverDrawn(pos: Position)
    requires PosValid(pos)
    ensures Judge(pos) != Draw
  {
    PlayableCellExists(pos, X);
  }

  /** makeAIMove's -1 fallback is never taken on a reachable position. */
  lemma AIAlwaysMoves(pos: Position, pick: nat)
    requires PosValid(pos)
    ensures AIChoice(pos, pick) != -1
  {
    PlayableCellExists(pos, O);
    AIChoiceSpec(pos, pick);
  }
}
