/** MnkBoardGameModel: the m,n,k board state machine, a class over a 2-D
    array updated in place. Its abstract state Snapshot() follows the functions
    of MnkRules: ResetState and TryMoveState. */
module MnkBoard {
  import opened Common
  import opened Moves
  import opened MnkRules

  class MnkBoardGameModel {
    /** The game's m, n and k. */
    const rowCount: int
    const columnCount: int
    const winningNumberOfPiecesInARow: int
    const playerNames: seq<string>
    const board: array2<Cell>

    var previousMove: Option<SquareMove>
    var previousMoveProbabilities: Option<Probabilities>
    /** 1-based number of the player to move next; -1 once the game is over. */
    var numberOfPlayerToMoveNext: int
    var indexOfPlayerThatMadeAnIllegalMove: int
    var indexOfWinner: int
    var gameOver: bool

    /** How many times observers have been notified. */
    ghost var notifications: nat

    function Cfg(): Config {
      Config(rowCount, columnCount, winningNumberOfPiecesInARow, |playerNames|)
    }

    /** The geometry fixed at construction. */
    predicate Shaped() {
      Cfg().Valid() && board.Length0 == rowCount && board.Length1 == columnCount
    }

    /** The board contents as a value, kept equal to the array. */
    ghost var cells: Grid

    ghost predicate Tied()
      reads this`cells, board
    {
      && IsGrid(cells, rowCount, columnCount)
      && board.Length0 == rowCount && board.Length1 == columnCount
      && forall r, c :: 0 <= r < rowCount && 0 <= c < columnCount ==> board[r, c] == cells[r][c]
    }

    ghost function Snapshot(): State
      reads this
    {
      State(cells, previousMove, previousMoveProbabilities, numberOfPlayerToMoveNext,
            indexOfPlayerThatMadeAnIllegalMove, indexOfWinner, gameOver)
    }

    ghost predicate Valid()
      reads this, board
    {
      Shaped() && Tied() && Invariant(Cfg(), Snapshot())
    }

    /** The Java constructor: rejects bad arguments, in the order the source
        checks them, then creates an empty board. */
    static method Create(rowCount: int, columnCount: int, winningNumberOfPiecesInARow: int, playerNames: seq<string>)
      returns (r: Result<MnkBoardGameModel>)
      ensures rowCount <= 0 ==> r == Failure(IllegalArgument("rowCount <= 0"))
      ensures rowCount > 0 && columnCount <= 0 ==> r == Failure(IllegalArgument("columnCount <= 0"))
      ensures rowCount > 0 && columnCount > 0 && winningNumberOfPiecesInARow <= 0 ==>
        r == Failure(IllegalArgument("winningNumberOfPiecesInARow <= 0"))
      ensures rowCount > 0 && columnCount > 0 && winningNumberOfPiecesInARow > 0 && |playerNames| == 0 ==>
        r == Failure(IllegalArgument("playerNames is empty"))
      ensures r.Success? ==>
        && fresh(r.value) && fresh(r.value.board) && r.value.Valid()
        && r.value.Cfg() == Config(rowCount, columnCount, winningNumberOfPiecesInARow, |playerNames|)
        && r.value.playerNames == playerNames
        && r.value.Snapshot() == ResetState(r.value.Cfg())
    {
      if rowCount <= 0 { return Failure(IllegalArgument("rowCount <= 0")); }
      if columnCount <= 0 { return Failure(IllegalArgument("columnCount <= 0")); }
      if winningNumberOfPiecesInARow <= 0 { return Failure(IllegalArgument("winningNumberOfPiecesInARow <= 0")); }
      if |playerNames| <= 0 { return Failure(IllegalArgument("playerNames is empty")); }
      var model := new MnkBoardGameModel(rowCount, columnCount, winningNumberOfPiecesInARow, playerNames);
      r := Success(model);
    }

    constructor (rowCount: int, columnCount: int, winningNumberOfPiecesInARow: int, playerNames: seq<string>)
      requires rowCount > 0 && columnCount > 0 && winningNumberOfPiecesInARow > 0 && |playerNames| > 0
      ensures fresh(board) && Valid()
      ensures Cfg() == Config(rowCount, columnCount, winningNumberOfPiecesInARow, |playerNames|)
      ensures this.playerNames == playerNames
      ensures Snapshot() == ResetState(Cfg())
      ensures notifications == 1
    {
      this.rowCount := rowCount;
      this.columnCount := columnCount;
      this.winningNumberOfPiecesInARow := winningNumberOfPiecesInARow;
      this.playerNames := playerNames;
      board := new Cell[rowCount, columnCount];
      notifications := 0;
      new;
      Reset();
    }

    /** Empties the board and starts a new game with player 1 to move. */
    method Reset()
      requires Shaped()
      modifies this, board
      ensures Valid()
      ensures Snapshot() == ResetState(Cfg())
      ensures notifications == old(notifications) + 1
    {
      for row := 0 to rowCount
        modifies board
        invariant forall r, c :: 0 <= r < row && 0 <= c < columnCount ==> board[r, c] == Empty
      {
        for column := 0 to columnCount
          modifies board
          invariant forall r, c :: 0 <= r < row && 0 <= c < columnCount ==> board[r, c] == Empty
          invariant forall c :: 0 <= c < column ==> board[row, c] == Empty
        {
          board[row, column] := Empty;
        }
      }

      previousMove := None;
      previousMoveProbabilities := None;

      numberOfPlayerToMoveNext := 1;
      indexOfPlayerThatMadeAnIllegalMove := -1;
      indexOfWinner := -1;
      gameOver := false;

      notifications := notifications + 1;

      cells := EmptyGrid(rowCount, columnCount);
      ResetEstablishesInvariant(Cfg());
    }

    /** The 0-based index of the player to move. */
    method GetIndexOfCurrentPlayer() returns (r: Result<int>)
      requires !gameOver ==> 1 <= numberOfPlayerToMoveNext <= |playerNames|
      ensures gameOver ==> r == Failure(GameAlreadyOver)
      ensures !gameOver ==> r.Success? && r.value == numberOfPlayerToMoveNext - 1 && 0 <= r.value < |playerNames|
    {
      if gameOver { return Failure(GameAlreadyOver); }
      return Success(numberOfPlayerToMoveNext - 1);
    }

    /** True exactly for a move onto an empty square of the board. */
    method IsLegalMove(move: SquareMove) returns (r: Result<bool>)
      requires Shaped() && Tied()
      ensures gameOver ==> r == Failure(GameAlreadyOver)
      ensures !gameOver ==> r.Success? && (r.value <==> OnBoard(Cfg(), move) && cells[move.row][move.column] == Empty)
      ensures !gameOver ==> (r.value <==> move in LegalMoves(cells))
    {
      if gameOver { return Failure(GameAlreadyOver); }
      LegalMovesAreLegal(Cfg(), cells, move);
      if move.row < 0 || move.row >= rowCount || move.column < 0 || move.column >= columnCount { return Success(false); }
      if board[move.row, move.column] != Empty { return Success(false); }
      return Success(true);
    }

    /** Every empty square, once each, in row-major order. */
    method GetLegalMoves() returns (r: Result<seq<SquareMove>>)
      requires Shaped() && Tied()
      ensures gameOver ==> r == Failure(GameAlreadyOver)
      ensures !gameOver ==> r == Success(LegalMoves(cells))
    {
      if gameOver { return Failure(GameAlreadyOver); }
      ghost var g := cells;

      var moves := new SquareMove[rowCount * columnCount];

      var legalMoveCount := 0;
      for row := 0 to rowCount
        invariant legalMoveCount == |MovesUpTo(g, row)| <= moves.Length
        invariant moves[..legalMoveCount] == MovesUpTo(g, row)
      {
        for column := 0 to columnCount
          invariant legalMoveCount == |MovesUpTo(g, row)| + |RowMoves(g[row], row, column)| <= moves.Length
          invariant moves[..legalMoveCount] == MovesUpTo(g, row) + RowMoves(g[row], row, column)
        {
          if board[row, column] == Empty {
            MovesBeforeSquareBound(g, rowCount, columnCount, row, column);
            moves[legalMoveCount] := SquareMove(row, column);
            legalMoveCount := legalMoveCount + 1;
          }
        }
      }

      r := Success(moves[..legalMoveCount]);
    }

    /** Puts the current player's piece on the square of the move. */
    method MakeMove(move: SquareMove)
      requires Shaped() && Tied() && OnBoard(Cfg(), move)
      modifies this`cells, board
      ensures Tied()
      ensures cells == Place(old(cells), move, Piece(numberOfPlayerToMoveNext))
    {
      board[move.row, move.column] := Piece(numberOfPlayerToMoveNext);
      cells := Place(cells, move, Piece(numberOfPlayerToMoveNext));
    }

    /** Whether (row, column) starts k pieces of its owner in direction d. */
    method KInARow(row: int, column: int, d: Direction) returns (kInARow: bool)
      requires Shaped() && Tied() && 0 <= row < rowCount && 0 <= column < columnCount && board[row, column].Piece?
      ensures kInARow == RunFrom(Cfg(), cells, row, column, d)
    {
      if !FarEnoughFromEdge(Cfg(), row, column, d) { return false; }
      var requiredK := winningNumberOfPiecesInARow;
      var firstPiece := board[row, column];
      kInARow := true;
      var k := 1;
      while k < requiredK
        invariant 1 <= k <= requiredK
        invariant forall i :: 0 <= i < k ==> board[row + RowStep(d, i), column + ColumnStep(d, i)] == firstPiece
      {
        var currentPiece := board[row + RowStep(d, k), column + ColumnStep(d, k)];
        if currentPiece == Empty || currentPiece.player != firstPiece.player {
          kInARow := false;
          break;
        }
        k := k + 1;
      }
    }

    /** The 0-based index of a player with k in a row, or -1 if there is none. */
    method DetermineWinner() returns (winner: int)
      requires Shaped() && Tied() && PiecesValid(Cfg(), cells)
      ensures -1 <= winner < |playerNames|
      ensures winner == -1 <==> NoRun(Cfg(), cells)
      ensures winner != -1 ==> HasRunOf(Cfg(), cells, winner + 1)
    {
      for row := 0 to rowCount
        invariant forall r, c, d :: r < row ==> !RunFrom(Cfg(), cells, r, c, d)
      {
        for column := 0 to columnCount
          invariant forall r, c, d :: (r < row || (r == row && c < column)) ==> !RunFrom(Cfg(), cells, r, c, d)
        {
          var firstPiece := board[row, column];
          if firstPiece != Empty {
            var horizontal := KInARow(row, column, Horizontal);
            if horizontal { return firstPiece.player - 1; }
            var vertical := KInARow(row, column, Vertical);
            if vertical { return firstPiece.player - 1; }
            var diagonal := KInARow(row, column, Diagonal);
            if diagonal { return firstPiece.player - 1; }
            var antiDiagonal := KInARow(row, column, AntiDiagonal);
            if antiDiagonal { return firstPiece.player - 1; }
          }
        }
      }
      return -1;
    }

    /** Makes the move for the current player: an illegal move loses at
        once, a legal one places the piece and ends the game on a win or
        when no square is left. */
    method TryMove(move: SquareMove, moveProbabilities: Option<Probabilities>) returns (r: Outcome)
      requires Valid()
      modifies this, board
      ensures Valid()
      ensures old(gameOver) ==> r == Fail(GameAlreadyOver) && Snapshot() == old(Snapshot()) && notifications == old(notifications)
      ensures !old(gameOver) ==>
        && r == Pass
        && Snapshot() == TryMoveState(Cfg(), old(Snapshot()), move, moveProbabilities).value
        && notifications == old(notifications) + 1
    {
      if gameOver { return Fail(GameAlreadyOver); }
      ghost var s := Snapshot();

      // the move is recorded whether or not it is legal
      previousMove := Some(move);
      previousMoveProbabilities := moveProbabilities;
      var legal := IsLegalMove(move);
      if !legal.value {
        // an illegal move ends the game, with the mover as the loser
        var current := GetIndexOfCurrentPlayer();
        indexOfPlayerThatMadeAnIllegalMove := current.value;
        numberOfPlayerToMoveNext := -1;
        gameOver := true;
        notifications := notifications + 1;
        TryMoveIllegalCase(Cfg(), s, move, moveProbabilities);
        assert Snapshot() == TryMoveState(Cfg(), s, move, moveProbabilities).value;
        TryMovePreservesInvariant(Cfg(), s, move, moveProbabilities);
        return Pass;
      }

      PlayLegalMove(s, move, moveProbabilities);
      TryMovePreservesInvariant(Cfg(), s, move, moveProbabilities);
      return Pass;
    }

    /** The legal-move part of tryMove, once the move has been recorded:
        place the piece, then end the game on a win or a full board, or pass
        the turn on. s is the state before the call to tryMove. */
    method PlayLegalMove(ghost s: State, move: SquareMove, moveProbabilities: Option<Probabilities>)
      requires Shaped() && Tied() && Invariant(Cfg(), s) && !s.gameOver && IsLegal(Cfg(), s.board, move)
      requires Snapshot() == s.(previousMove := Some(move), previousMoveProbabilities := moveProbabilities)
      modifies this, board
      ensures Shaped() && Tied()
      ensures Snapshot() == TryMoveState(Cfg(), s, move, moveProbabilities).value
      ensures notifications == old(notifications) + 1
    {
      MakeMove(move);
      var winner := DetermineWinner();
      if winner != -1 {
        WinnerIsMover(Cfg(), s.board, move, s.numberOfPlayerToMoveNext, winner + 1);
        indexOfWinner := winner;
        numberOfPlayerToMoveNext := -1;
        gameOver := true;
        notifications := notifications + 1;
        TryMoveWinCase(Cfg(), s, move, moveProbabilities);
        return;
      }

      // no winner: the turn passes round robin
      numberOfPlayerToMoveNext := numberOfPlayerToMoveNext % |playerNames| + 1;
      var legalMoves := GetLegalMoves();
      if |legalMoves.value| <= 0 {
        // no square left for the next player: a draw
        numberOfPlayerToMoveNext := -1;
        gameOver := true;
        notifications := notifications + 1;
        TryMoveDrawCase(Cfg(), s, move, moveProbabilities);
        return;
      }

      notifications := notifications + 1;
      TryMoveContinueCase(Cfg(), s, move, moveProbabilities);
    }

    /** Undo is not supported by this model. */
    method UndoMove() returns (r: Outcome)
      ensures r == Fail(UnsupportedOperation("MnkBoardGameModel does not support undoMove."))
    {
      return Fail(UnsupportedOperation("MnkBoardGameModel does not support undoMove."));
    }

    /** The game is over exactly when no player is to move; while it runs,
        a move is left and nobody has k in a row. */
    function IsGameOver(): (over: bool)
      reads this, board
      ensures Valid() ==> (over <==> numberOfPlayerToMoveNext == -1)
      ensures Valid() && !over ==> |LegalMoves(cells)| > 0 && NoRun(Cfg(), cells)
    {
      gameOver
    }

    /** The winner's 0-based index, -1 for none; a game with a winner is
        over and nobody lost by an illegal move. */
    function GetIndexOfWinner(): (w: int)
      reads this, board
      ensures Valid() ==> -1 <= w < |playerNames|
      ensures Valid() && w != -1 ==> gameOver && indexOfPlayerThatMadeAnIllegalMove == -1
    {
      indexOfWinner
    }

    /** The 0-based index of the player that lost by an illegal move, -1 for
        none; such a game is over and has no winner. */
    function GetIndexOfPlayerThatMadeAnIllegalMove(): (i: int)
      reads this, board
      ensures Valid() ==> -1 <= i < |playerNames|
      ensures Valid() && i != -1 ==> gameOver && indexOfWinner == -1
    {
      indexOfPlayerThatMadeAnIllegalMove
    }

    /** The board's dimensions and k, as given at construction. */
    function GetRowCount(): (m: int)
      ensures Shaped() ==> m > 0 && m == board.Length0
    {
      rowCount
    }

    function GetColumnCount(): (n: int)
      ensures Shaped() ==> n > 0 && n == board.Length1
    {
      columnCount
    }

    function GetWinningNumberOfPiecesInARow(): (k: int)
      ensures Shaped() ==> k > 0
    {
      winningNumberOfPiecesInARow
    }

    /** The move of the last tryMove, whether or not it was legal; none
        after reset. */
    function GetPreviousMove(): (m: Option<SquareMove>)
      reads this
      ensures m == Snapshot().previousMove
    {
      previousMove
    }

    function GetPreviousMoveProbabilities(): (p: Option<Probabilities>)
      reads this
      ensures p == Snapshot().previousMoveProbabilities
    {
      previousMoveProbabilities
    }

    /** One name per player, at least one. */
    function GetPlayerNames(): (names: seq<string>)
      ensures |names| == Cfg().playerCount
      ensures Shaped() ==> |names| > 0
    {
      playerNames
    }
  }
}
