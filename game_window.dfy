/**
 * The game state a 2048 GameWindow keeps between key presses (Game/Game/GameWindow.cpp and
 * Game/GameWindow.h), over the board rules of module Game2048. Labels, colours, message boxes
 * and the saved settings are not modelled; the random draws are parameters.
 */
module GameState {
  import opened Game2048

  /** QMap::value(size, 0): the best score saved for a board size, 0 when there is none. */
  function Best(maxScores: map<int, int>, size: int): int
  {
    if size in maxScores then maxScores[size] else 0
  }

  /**
   * The best scores after updateMaxScore with score `s`: the size's best becomes the larger of
   * `s` and the saved best, and every other size keeps its entry.
   */
  function Recorded(maxScores: map<int, int>, size: int, s: int): (r: map<int, int>)
    ensures Best(r, size) >= s && Best(r, size) >= Best(maxScores, size)
    ensures Best(r, size) == s || Best(r, size) == Best(maxScores, size)
    ensures forall k :: k != size ==> (k in r <==> k in maxScores) && (k in r ==> r[k] == maxScores[k])
  {
    if s > Best(maxScores, size) then maxScores[size := s] else maxScores
  }

  /** The nested loops of addRandomTile that collect the empty cells in row-major order. */
  method CollectEmpty(b: seq<seq<int>>, n: nat) returns (emptyTiles: seq<(int, int)>)
    requires IsBoard(b, n)
    ensures emptyTiles == EmptyCells(b, n)
  {
    emptyTiles := [];
    for i := 0 to n
      invariant emptyTiles == EmptyBefore(b, n, i)
    {
      emptyTiles := CollectRow(b[i], i, emptyTiles);
    }
  }

  /** The inner loop of addRandomTile over row i: appends its empty cells, left to right. */
  method CollectRow(row: seq<int>, i: int, found: seq<(int, int)>) returns (emptyTiles: seq<(int, int)>)
    ensures emptyTiles == found + EmptyInRow(row, i, |row|)
  {
    emptyTiles := found;
    for j := 0 to |row|
      invariant emptyTiles == found + EmptyInRow(row, i, j)
    {
      if row[j] == 0 {
        emptyTiles := emptyTiles + [(i, j)];
      }
    }
  }

  /**
   * The board state of a GameWindow: the board, the score, the one-deep undo history of
   * (board, score) pairs, the canUndo and reached2048 flags and the best score per board size.
   */
  class GameWindow {
    const boardSize: nat
    var board: seq<seq<int>>
    var score: int
    /** The undo std::stack as a sequence whose last element is the top. */
    var moveHistory: seq<(seq<seq<int>>, int)>
    var reached2048: bool
    var canUndo: bool
    var maxScores: map<int, int>

    predicate Valid()
      reads this
    {
      IsBoard(board, boardSize) &&
      // moveTiles clears the history before pushing, so it never holds more than one entry
      |moveHistory| <= 1 && (|moveHistory| == 1 ==> IsBoard(moveHistory[0].0, boardSize))
    }

    /** The best score recorded for this board size (QMap::value with default 0). */
    function CurrentMax(): int
      reads this`maxScores
    {
      Best(maxScores, boardSize)
    }

    /** The constructor's game state: the saved best scores, then a fresh board. */
    constructor (size: nat, savedMaxScores: map<int, int>, pick1: nat, roll1: nat, pick2: nat, roll2: nat)
      ensures Valid() && boardSize == size && score == 0 && moveHistory == []
      ensures board == WithRandomTile(WithRandomTile(EmptyBoard(size), size, pick1, roll1), size, pick2, roll2)
      ensures !canUndo && !reached2048
      ensures maxScores == Recorded(savedMaxScores, size, 0)
    {
      boardSize := size;
      board := EmptyBoard(size);
      score := 0;
      moveHistory := [];
      reached2048 := false;
      canUndo := false;
      maxScores := savedMaxScores;
      new;
      InitializeBoard(pick1, roll1, pick2, roll2);
    }

    /** updateMaxScore: records the score as this size's best when it beats the saved one. */
    method UpdateMaxScore()
      requires Valid()
      modifies this`maxScores
      ensures Valid()
      ensures maxScores == Recorded(old(maxScores), boardSize, score)
      ensures CurrentMax() >= score && CurrentMax() >= old(CurrentMax())
    {
      var currentMax := if boardSize in maxScores then maxScores[boardSize] else 0;
      if score > currentMax {
        maxScores := maxScores[boardSize := score];
      }
    }

    /** addRandomTile: one random empty cell becomes a 2 or a 4; a full board is left alone. */
    method AddRandomTile(pick: nat, roll: nat)
      requires Valid()
      modifies this`board
      ensures Valid()
      ensures board == WithRandomTile(old(board), boardSize, pick, roll)
    {
      var n := boardSize;
      var b := board;
      var emptyTiles := CollectEmpty(b, n);
      if |emptyTiles| > 0 {
        var t := RandomTile(emptyTiles, pick, roll);
        EmptyCellsExact(b, n, t.0.0, t.0.1);
        board := Put(b, n, t.0.0, t.0.1, t.1);
      }
    }

    /** initializeBoard: an empty board with two random tiles, score 0, no history. */
    method InitializeBoard(pick1: nat, roll1: nat, pick2: nat, roll2: nat)
      requires Valid()
      modifies this`board, this`score, this`moveHistory, this`reached2048, this`canUndo, this`maxScores
      ensures Valid() && score == 0 && moveHistory == []
      ensures board == WithRandomTile(WithRandomTile(EmptyBoard(boardSize), boardSize, pick1, roll1), boardSize, pick2, roll2)
      ensures !canUndo && !reached2048
      ensures maxScores == Recorded(old(maxScores), boardSize, 0)
    {
      ghost var first := WithRandomTile(EmptyBoard(boardSize), boardSize, pick1, roll1);
      ghost var second := WithRandomTile(first, boardSize, pick2, roll2);
      ClearState();
      AddRandomTile(pick1, roll1);
      assert board == first;
      AddRandomTile(pick2, roll2);
      assert board == second;
      UpdateMaxScore();
    }

    /** The first steps of initializeBoard: an empty board, score 0, no history, no flags. */
    method ClearState()
      modifies this`board, this`score, this`moveHistory, this`reached2048, this`canUndo
      ensures Valid() && board == EmptyBoard(boardSize) && score == 0 && moveHistory == []
      ensures !reached2048 && !canUndo
    {
      board := EmptyBoard(boardSize);
      score := 0;
      moveHistory := [];
      reached2048 := false;
      canUndo := false;
    }

    /**
     * moveTiles: slides every line in direction `dir`. If some line changed, the moved board
     * and the score with every merge's gain are taken, the state before the move becomes the
     * only undo entry and a random tile is added; otherwise nothing changes and undo is off.
     */
    method MoveTiles(dir: Direction, pick: nat, roll: nat) returns (moved: bool)
      requires Valid()
      modifies this`board, this`score, this`moveHistory, this`canUndo, this`maxScores, this`reached2048
      ensures Valid()
      ensures moved <==> Moved(old(board), boardSize, dir) != old(board)
      ensures moved ==> board == WithRandomTile(Moved(old(board), boardSize, dir), boardSize, pick, roll)
      ensures moved ==> score == old(score) + TotalGain(old(board), boardSize, dir, boardSize)
      ensures moved ==> moveHistory == [(old(board), old(score))] && canUndo
      ensures moved ==> maxScores == Recorded(old(maxScores), boardSize, score)
      ensures moved ==> reached2048 == (old(reached2048) || Has2048(board, boardSize))
      ensures !moved ==> board == old(board) && score == old(score) && moveHistory == [] && !canUndo
      ensures !moved ==> maxScores == old(maxScores) && reached2048 == old(reached2048)
    {
      moveHistory := [(board, score)];
      var newBoard, gain;
      newBoard, gain, moved := MoveBoard(board, boardSize, dir);
      if moved {
        CommitMove(newBoard, score + gain, pick, roll);
      } else {
        DiscardSaved();
      }
    }

    /** The failed-move branch of moveTiles: pop the state just saved and disable undo. */
    method DiscardSaved()
      requires |moveHistory| == 1
      modifies this`moveHistory, this`canUndo
      ensures moveHistory == [] && !canUndo
    {
      moveHistory := moveHistory[..|moveHistory| - 1];
      canUndo := false;
    }

    /** The successful-move branch of moveTiles: take the new board and score, then add a tile. */
    method CommitMove(newBoard: seq<seq<int>>, newScore: int, pick: nat, roll: nat)
      requires Valid() && IsBoard(newBoard, boardSize)
      modifies this`board, this`score, this`canUndo, this`maxScores, this`reached2048
      ensures Valid()
      ensures board == WithRandomTile(newBoard, boardSize, pick, roll) && score == newScore && canUndo
      ensures maxScores == Recorded(old(maxScores), boardSize, newScore)
      ensures reached2048 == (old(reached2048) || Has2048(board, boardSize))
    {
      board := newBoard;
      score := newScore;
      canUndo := true;
      AddRandomTile(pick, roll);
      UpdateMaxScore();
      CheckFor2048();
    }

    /** isGameOver: the scan stops at the first empty cell or equal neighbour pair. */
    method IsGameOver() returns (over: bool)
      requires Valid()
      ensures over == GameOver(board, boardSize)
    {
      var n := boardSize;
      for i := 0 to n
        invariant forall p, q :: 0 <= p < i && 0 <= q < n ==> CellSettled(board, n, p, q)
      {
        for j := 0 to n
          invariant forall p, q :: 0 <= p < i && 0 <= q < n ==> CellSettled(board, n, p, q)
          invariant forall q :: 0 <= q < j ==> CellSettled(board, n, i, q)
        {
          if board[i][j] == 0 {
            return false;
          }
          if i < n - 1 && board[i][j] == board[i + 1][j] {
            assert !DiffersBelow(board, i, j);
            return false;
          }
          if j < n - 1 && board[i][j] == board[i][j + 1] {
            assert !DiffersRight(board, i, j);
            return false;
          }
          assert CellSettled(board, n, i, j);
        }
      }
      SettledGameOver(board, n);
      return true;
    }

    /** checkFor2048: sets reached2048 once some tile is 2048 (the dialog is not modelled). */
    method CheckFor2048()
      requires Valid()
      modifies this`reached2048
      ensures reached2048 == (old(reached2048) || Has2048(board, boardSize))
    {
      if reached2048 {
        return;
      }
      var n := boardSize;
      for i := 0 to n
        invariant forall p, q :: 0 <= p < i && 0 <= q < n ==> board[p][q] != 2048
      {
        for j := 0 to n
          invariant forall p, q :: 0 <= p < i && 0 <= q < n ==> board[p][q] != 2048
          invariant forall q :: 0 <= q < j ==> board[i][q] != 2048
        {
          if board[i][j] == 2048 {
            reached2048 := true;
            return;
          }
        }
      }
    }

    /** undoLastMove: restores the board and score saved by the last successful move, once. */
    method UndoLastMove()
      requires Valid()
      modifies this
      ensures Valid() && reached2048 == old(reached2048)
      ensures old(canUndo && moveHistory != []) ==>
        board == old(moveHistory[|moveHistory| - 1].0) && score == old(moveHistory[|moveHistory| - 1].1) &&
        moveHistory == old(moveHistory[..|moveHistory| - 1]) && !canUndo &&
        maxScores == Recorded(old(maxScores), boardSize, score)
      ensures !old(canUndo && moveHistory != []) ==>
        board == old(board) && score == old(score) && moveHistory == old(moveHistory) &&
        canUndo == old(canUndo) && maxScores == old(maxScores)
    {
      if canUndo && |moveHistory| > 0 {
        var top := moveHistory[|moveHistory| - 1];
        moveHistory := moveHistory[..|moveHistory| - 1];
        board := top.0;
        score := top.1;
        UpdateMaxScore();
        canUndo := false;
      }
    }

    /**
     * keyPressEvent's game part: a move key moves the tiles, or starts a new game once the game
     * is over; U undoes. The draws of the random tiles are parameters.
     */
    method KeyPress(key: Key, pick1: nat, roll1: nat, pick2: nat, roll2: nat)
      requires Valid()
      modifies this
      ensures Valid()
      // a move key once the game is over: a new game
      ensures DirectionOf(key).Some? && old(GameOver(board, boardSize)) ==>
        board == WithRandomTile(WithRandomTile(EmptyBoard(boardSize), boardSize, pick1, roll1), boardSize, pick2, roll2) &&
        score == 0 && moveHistory == [] && !canUndo && !reached2048 &&
        maxScores == Recorded(old(maxScores), boardSize, 0)
      // a move key that changes some line
      ensures (DirectionOf(key).Some? && !old(GameOver(board, boardSize)) &&
               Moved(old(board), boardSize, DirectionOf(key).value) != old(board)) ==>
        board == WithRandomTile(Moved(old(board), boardSize, DirectionOf(key).value), boardSize, pick1, roll1) &&
        score == old(score) + TotalGain(old(board), boardSize, DirectionOf(key).value, boardSize) &&
        moveHistory == [(old(board), old(score))] && canUndo &&
        maxScores == Recorded(old(maxScores), boardSize, score) &&
        reached2048 == (old(reached2048) || Has2048(board, boardSize))
      // a move key that changes nothing
      ensures (DirectionOf(key).Some? && !old(GameOver(board, boardSize)) &&
               Moved(old(board), boardSize, DirectionOf(key).value) == old(board)) ==>
        board == old(board) && score == old(score) && moveHistory == [] && !canUndo &&
        maxScores == old(maxScores) && reached2048 == old(reached2048)
      // U with an undo available
      ensures key == KeyU && old(canUndo && moveHistory != []) ==>
        board == old(moveHistory[|moveHistory| - 1].0) && score == old(moveHistory[|moveHistory| - 1].1) &&
        moveHistory == old(moveHistory[..|moveHistory| - 1]) && !canUndo &&
        maxScores == Recorded(old(maxScores), boardSize, score) && reached2048 == old(reached2048)
      // U without one, and every other key
      ensures (key == Other || (key == KeyU && !old(canUndo && moveHistory != []))) ==>
        board == old(board) && score == old(score) && moveHistory == old(moveHistory) &&
        canUndo == old(canUndo) && maxScores == old(maxScores) && reached2048 == old(reached2048)
    {
      var dir := DirectionOf(key);
      if dir.Some? {
        var over := IsGameOver();
        if !over {
          var _ := MoveTiles(dir.value, pick1, roll1);
        } else {
          InitializeBoard(pick1, roll1, pick2, roll2);
        }
      } else if key == KeyU {
        UndoLastMove();
      }
    }
  }
}
