/**
  The game-state machine of script.js, without its DOM wiring: whose turn it
  is, the nine cells, whether the game is still running, the match counter
  and the score sheet, with the click, new-game and reset-match handlers that
  change them.
 */
module GameState {
  import opened Board

  /** The score sheet: games won by X, games won by O, and drawn games. */
  datatype Scores = Scores(x: nat, o: nat, draw: nat) {

    /** The games won by p. */
    function Of(p: Player): nat
    {
      if p == X then x else o
    }

    /** The number of games the sheet accounts for. */
    function Total(): nat
    {
      x + o + draw
    }

    /** The sheet after p wins a game: p's counter goes up by one, nothing else moves. */
    function Credit(p: Player): (s: Scores)
      ensures s.Of(p) == Of(p) + 1 && s.Of(Other(p)) == Of(Other(p)) && s.draw == draw
      ensures s.Total() == Total() + 1
    {
      if p == X then this.(x := x + 1) else this.(o := o + 1)
    }
  }

  /** The sheet at the start and after a confirmed reset of the match. */
  const NoScores := Scores(0, 0, 0)

  /** What a click led to: refused, a win on a line, a draw, or the turn passing on. */
  datatype Outcome = Ignored | Won(line: Line) | Drawn | Continued

  /**
    X and O have placed their marks alternately, X first, so next is the
    player to move: X when both have as many marks, O when X has one more.
   */
  predicate MarksBalanced(board: Board, next: Player)
  {
    CountOf(board, Taken(X)) == CountOf(board, Taken(O)) + (if next == O then 1 else 0)
  }

  /**
    The states the game can reach. While the game runs, current is the player
    to move, no line is won and a cell is free. Once it has stopped, current
    is the player who moved last, and either every won line holds that
    player's mark or, when no line is won, the board is full.
   */
  predicate Consistent(board: Board, current: Player, active: bool)
  {
    if active then
      MarksBalanced(board, current) && NoWin(board) && !Full(board)
    else
      MarksBalanced(board, Other(current)) &&
      (NoWin(board) ==> Full(board)) &&
      forall k | 0 <= k < |WinningConditions| :: LineWon(board, k) ==>
        board[WinningConditions[k].0] == Taken(current)
  }

  /** A new game, with an empty board and X to move, is a reachable state. */
  lemma NewGameConsistent()
    ensures Consistent(EmptyBoard, X, true)
  {
    CountOfAbsent(EmptyBoard, Taken(X));
    CountOfAbsent(EmptyBoard, Taken(O));
    assert EmptyBoard[0] == Empty;
  }

  /**
    From a running game, current marking the free cell i leads to a reachable
    state: a stopped game with current as last mover when a line is won or the
    board fills, otherwise a running game with the other player to move.
   */
  lemma MovePreservesConsistency(board: Board, current: Player, i: Cell)
    requires Consistent(board, current, true) && board[i] == Empty
    ensures var after := board[i := Taken(current)];
      if !NoWin(after) || Full(after) then Consistent(after, current, false)
      else Consistent(after, Other(current), true)
  {
    var after := board[i := Taken(current)];
    CountAfterMove(board, i, current, Taken(X));
    CountAfterMove(board, i, current, Taken(O));
    assert MarksBalanced(after, Other(current));
    forall k | 0 <= k < |WinningConditions| && LineWon(after, k)
      ensures after[WinningConditions[k].0] == Taken(current)
    {
      NewWinIsMovers(board, i, current, k);
    }
  }

  /**
    A game that stopped without a won line was drawn on a full board, and X
    made the last move: X holds five cells and O four, so the draw leaves X
    as the current player.
   */
  lemma DrawLeavesXToMove(board: Board, current: Player)
    requires Consistent(board, current, false) && NoWin(board)
    ensures current == X
    ensures CountOf(board, Taken(X)) == 5 && CountOf(board, Taken(O)) == 4
  {
    CountsPartition(board);
    CountOfAbsent(board, Empty);
  }

  /** The state of one page of the game: the board, the turn, the match and the scores. */
  class Game {
    var currentPlayer: Player
    var gameState: array<Mark>
    var gameActive: bool
    var matchCount: nat
    var scores: Scores

    /**
      The object invariant: nine cells in a reachable state, and every game
      that has ended is scored at most once, the running one not at all.
     */
    ghost predicate Valid()
      reads this, gameState
    {
      gameState.Length == 9 &&
      Consistent(gameState[..], currentPlayer, gameActive) &&
      scores.Total() + (if gameActive then 1 else 0) <= matchCount
    }

    /** The state when the page loads: match 1, X to move on an empty board, no scores. */
    constructor ()
      ensures Valid() && fresh(gameState)
      ensures currentPlayer == X && gameState[..] == EmptyBoard && gameActive
      ensures matchCount == 1 && scores == NoScores
    {
      currentPlayer := X;
      gameState := new Mark[9](_ => Empty);
      gameActive := true;
      matchCount := 1;
      scores := NoScores;
      new;
      assert gameState[..] == EmptyBoard;
      NewGameConsistent();
    }

    /** The click on cell `index` can be played: the cell exists, is free, and the game runs. */
    predicate Playable(index: int)
      reads this, gameState
    {
      0 <= index < gameState.Length && gameState[index] == Empty && gameActive
    }

    /**
      A click on cell `index`. A click on a cell that does not exist or is
      taken, or any click once the game has stopped, changes nothing.
      Otherwise the cell takes the current player's mark and the result check
      decides between a win, a draw and the other player's turn.
     */
    method Click(index: int) returns (outcome: Outcome)
      requires Valid()
      modifies this, gameState
      ensures Valid() && gameState == old(gameState) && matchCount == old(matchCount)
      ensures outcome == Ignored <==> !old(Playable(index))
      ensures outcome == Ignored ==> unchanged(this) && unchanged(gameState)
      ensures outcome != Ignored ==>
        0 <= index < 9 && gameState[..] == old(gameState[..])[index := Taken(old(currentPlayer))]
      ensures outcome != Ignored ==>
        match FirstWinningLine(gameState[..])
        case Some(k) =>
          outcome == Won(WinningConditions[k]) && !gameActive &&
          currentPlayer == old(currentPlayer) && scores == old(scores).Credit(currentPlayer) &&
          gameState[WinningConditions[k].0] == Taken(currentPlayer)
        case None =>
          if Full(gameState[..]) then
            outcome == Drawn && !gameActive && currentPlayer == old(currentPlayer) == X &&
            scores == old(scores).(draw := old(scores).draw + 1)
          else
            outcome == Continued && gameActive &&
            currentPlayer == Other(old(currentPlayer)) && scores == old(scores)
    {
      if !Playable(index) {
        return Ignored;
      }
      MovePreservesConsistency(gameState[..], currentPlayer, index);
      UpdateCell(index);
      outcome := CheckResult();
      if outcome == Drawn {
        DrawLeavesXToMove(gameState[..], currentPlayer);
      }
    }

    /** The current player's mark goes into cell `index`; no other cell changes. */
    method UpdateCell(index: Cell)
      requires gameState.Length == 9
      modifies gameState
      ensures gameState[..] == old(gameState[..])[index := Taken(currentPlayer)]
    {
      gameState[index] := Taken(currentPlayer);
    }

    /**
      The scan of the winning lines in table order, stopping at the first line
      whose three cells are taken by the same mark.
     */
    method FindWinningLine() returns (found: Option<nat>)
      requires gameState.Length == 9
      ensures found.Some? ==> found.value < |WinningConditions| && LineWon(gameState[..], found.value)
      ensures found.Some? ==> forall j | 0 <= j < found.value :: !LineWon(gameState[..], j)
      ensures found.None? <==> NoWin(gameState[..])
      ensures found == FirstWinningLine(gameState[..])
    {
      found := None;
      for i := 0 to |WinningConditions|
        invariant forall j | 0 <= j < i :: !LineWon(gameState[..], j)
      {
        var line := WinningConditions[i];
        if gameState[line.0] == Empty || gameState[line.1] == Empty || gameState[line.2] == Empty {
          continue;
        }
        if gameState[line.0] == gameState[line.1] && gameState[line.1] == gameState[line.2] {
          found := Some(i);
          break;
        }
      }
      if found.Some? {
        assert LineWon(gameState[..], found.value);
      }
    }

    /**
      The result check after a move: a won line stops the game in the current
      player's favour; failing that, a full board stops it as a draw; failing
      that, the turn passes to the other player.
     */
    method CheckResult() returns (outcome: Outcome)
      requires gameState.Length == 9
      modifies this
      ensures gameState == old(gameState) && matchCount == old(matchCount)
      ensures outcome != Ignored
      ensures match FirstWinningLine(gameState[..])
        case Some(k) =>
          outcome == Won(WinningConditions[k]) && !gameActive &&
          currentPlayer == old(currentPlayer) && scores == old(scores).Credit(currentPlayer)
        case None =>
          if Full(gameState[..]) then
            outcome == Drawn && !gameActive && currentPlayer == old(currentPlayer) &&
            scores == old(scores).(draw := old(scores).draw + 1)
          else
            outcome == Continued && gameActive == old(gameActive) &&
            currentPlayer == Other(old(currentPlayer)) && scores == old(scores)
    {
      var found := FindWinningLine();
      if found.Some? {
        HandleWin();
        return Won(WinningConditions[found.value]);
      }
      var roundDraw := Full(gameState[..]);
      if roundDraw {
        HandleDraw();
        return Drawn;
      }
      ChangePlayer();
      outcome := Continued;
    }

    /** A win: the game stops and the current player's score goes up by one. */
    method HandleWin()
      modifies this
      ensures !gameActive && scores == old(scores).Credit(currentPlayer)
      ensures currentPlayer == old(currentPlayer) && gameState == old(gameState)
      ensures matchCount == old(matchCount)
    {
      gameActive := false;
      scores := scores.Credit(currentPlayer);
    }

    /** A draw: the game stops and the draw counter goes up by one. */
    method HandleDraw()
      modifies this
      ensures !gameActive && scores == old(scores).(draw := old(scores).draw + 1)
      ensures currentPlayer == old(currentPlayer) && gameState == old(gameState)
      ensures matchCount == old(matchCount)
    {
      gameActive := false;
      scores := scores.(draw := scores.draw + 1);
    }

    /** The turn passes from X to O or from O to X. */
    method ChangePlayer()
      modifies this`currentPlayer
      ensures currentPlayer == Other(old(currentPlayer))
    {
      currentPlayer := Other(currentPlayer);
    }

    /**
      A new game: an empty board, X to move, the game running and the match
      counter one higher; the scores stay.
     */
    method ResetGame()
      modifies this
      ensures fresh(gameState) && gameState[..] == EmptyBoard
      ensures currentPlayer == X && gameActive
      ensures matchCount == old(matchCount) + 1 && scores == old(scores)
      ensures old(Valid()) ==> Valid()
    {
      currentPlayer := X;
      gameState := new Mark[9](_ => Empty);
      gameActive := true;
      matchCount := matchCount + 1;
      assert gameState[..] == EmptyBoard;
      NewGameConsistent();
    }

    /**
      A reset of the whole match, once confirmed: the scores go back to zero
      and a new game starts as match 1. Without confirmation nothing changes.
     */
    method ResetMatch(confirmed: bool)
      requires Valid()
      modifies this
      ensures Valid()
      ensures !confirmed ==> unchanged(this)
      ensures confirmed ==>
        scores == NoScores && matchCount == 1 && fresh(gameState) &&
        gameState[..] == EmptyBoard && currentPlayer == X && gameActive
    {
      if confirmed {
        scores := NoScores;
        matchCount := 0;
        ResetGame();
        NewGameConsistent();
      }
    }
  }
}
