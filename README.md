# m,n,k board games: model and engine

This project models the core of a Java collection of turn-based board games
(tic-tac-toe and other m,n,k games). It covers:

- **the m,n,k game model** (`MnkBoardGameModel`). The board has `rowCount` × `columnCount` squares. Players take turns putting a piece on an empty square. The first player with `k` pieces in a row, column or diagonal wins. A move onto an occupied or off-board square loses the game at once. A full board without a winner is a draw.
- **the turn-based game engine** (`TurnBasedGameEngine`). It starts a game and asks the player to move for a candidate move, up to 2147483647 tries for a human and 1000 for a computer player, until a candidate is legal. It tells the player about every illegal candidate and paces computer players to a minimum time. It makes the move, and at the end it tells every player how the game ended.
- **the random legal move player** (`RandomLegalMovePlayer`).
- **the pixel-to-square translation of the board view** (`SquaresPanelView`).
- **the player factory** (`BoardGameUtils`): player types, default player names and player creation.

Modules, following the program's structure:

| module | file | what it is |
|---|---|---|
| `Common` | common.dfy | `Option`, `Result`, `Outcome`, and the Java exceptions as `Error` values |
| `Moves` | moves.dfy | `SquareMove`, board cells, move probabilities |
| `MnkRules` | mnk_rules.dfy | the rules as functions on values: legal moves, k-in-a-row runs, the game `State`, `ResetState`, `TryMoveState`, the invariant it keeps |
| `MnkBoard` | mnk_board.dfy | class `MnkBoardGameModel` over an `array2` board, proved equal to `MnkRules` through a ghost mirror of the board |
| `EngineRules` | engine_rules.dfy | what the engine does, as functions: the retry loop (`ChoiceFor`), one turn (`TakeTurn`), a whole game (`PlayFrom`), and the calls made on players (an `Event` log) |
| `TurnEngine` | turn_engine.dfy | class `TurnBasedGameEngine`, whose methods are proved to follow `EngineRules` |
| `RandomPlayer` | random_player.dfy | class `RandomLegalMovePlayer` |
| `SquaresPanel` | squares_panel_view.dfy | `SquaresPanelView.GetRow`/`GetColumn` |
| `Decimal` | decimal.dfy | Java's rendering of a number in a string, with its parser |
| `BoardGameUtils` | board_game_utils.dfy | `PlayerType`, `CreatePlayerNames`, `CreatePlayers` |

Java exceptions are modelled as `Failure(error)` / `Fail(error)` results that carry the exception's class and, where the source gives one, its message. An `ArrayIndexOutOfBoundsException` carries the offending index and a `NegativeArraySizeException` the offending size instead. A `null` drawer, model, name or view is modelled as `None`.

Players reach the engine in two parts:

- a `Seat`, holding the player's name and whether it is human;
- a `Strategy`, a function from (player, turn, attempt) to the candidate move, the time spent thinking and the move probabilities.

The engine's state-changing calls and notifications are recorded in a ghost event log: reset, notifyNewGame, calculateMove, notifyTriedIllegalMove, the computer player's wait, tryMove, and the end notifications. Queries that change nothing are not logged. `PlayGame` is proved to leave the model in `PlayFrom(...).next` and to append exactly `PlayFrom(...).events` to that log.

## Model

Paths are relative to the repository root.

| member | source | states |
|---|---|---|
| MnkRules.EmptyGrid | BoardGameUtils/src/main/java/boardgame/model/MnkBoardGameModel.java:76 | an m×n board with every square empty |
| MnkRules.Place | BoardGameUtils/src/main/java/boardgame/model/MnkBoardGameModel.java:189-194 | the target square holds the new piece; every other square is unchanged |
| MnkRules.IsLegal | BoardGameUtils/src/main/java/boardgame/model/MnkBoardGameModel.java:117-119 | a move is legal iff its square is on the board and empty |
| MnkRules.RowMoves | BoardGameUtils/src/main/java/boardgame/model/MnkBoardGameModel.java:130-134 | the inner loop of getLegalMoves over one row: its empty squares in column order (contract in RowMovesMembership, RowMovesOrdered) |
| MnkRules.MovesUpTo | BoardGameUtils/src/main/java/boardgame/model/MnkBoardGameModel.java:129-135 | the outer loop of getLegalMoves over the first r rows (contract in MovesUpToMembership, MovesUpToOrdered) |
| MnkRules.LegalMoves | BoardGameUtils/src/main/java/boardgame/model/MnkBoardGameModel.java:123-139 | the legal moves of a board (contract in LegalMovesAreLegal, LegalMovesRowMajor) |
| MnkRules.RowMovesLength | BoardGameUtils/src/main/java/boardgame/model/MnkBoardGameModel.java:130-133 | scanning one row yields at most one move per remaining column |
| MnkRules.RowMovesMembership | BoardGameUtils/src/main/java/boardgame/model/MnkBoardGameModel.java:130-133 | the scan of a row lists a move iff it is an empty square of that row at or after the start column |
| MnkRules.RowMovesOrdered | BoardGameUtils/src/main/java/boardgame/model/MnkBoardGameModel.java:130-133 | the scan of a row lists its moves in increasing column order |
| MnkRules.MovesUpToMembership | BoardGameUtils/src/main/java/boardgame/model/MnkBoardGameModel.java:129-135 | the scan of the first r rows lists exactly the empty squares of those rows |
| MnkRules.MovesUpToOrdered | BoardGameUtils/src/main/java/boardgame/model/MnkBoardGameModel.java:129-135 | the scan of the first r rows is in strict row-major order |
| MnkRules.MovesUpToLength | BoardGameUtils/src/main/java/boardgame/model/MnkBoardGameModel.java:126-135 | the first r rows of n columns give at most r·n moves, so the rowCount·columnCount buffer is large enough |
| MnkRules.MovesBeforeSquareBound | BoardGameUtils/src/main/java/boardgame/model/MnkBoardGameModel.java:126-132 | the write index `legalMoveCount` stays below rowCount·columnCount when a square is stored |
| MnkRules.LegalMovesAreLegal | BoardGameUtils/src/main/java/boardgame/model/MnkBoardGameModel.java:117-139 | a move is in getLegalMoves iff isLegalMove holds for it (on the board and empty) |
| MnkRules.LegalMovesRowMajor | BoardGameUtils/src/main/java/boardgame/model/MnkBoardGameModel.java:129-135 | the legal moves come in strict row-major order, hence without duplicates |
| MnkRules.RowMovesAllEmpty | BoardGameUtils/src/main/java/boardgame/model/MnkBoardGameModel.java:130-133 | on an empty row every remaining column is listed |
| MnkRules.MovesUpToEmpty | BoardGameUtils/src/main/java/boardgame/model/MnkBoardGameModel.java:129-135 | on an empty board the first r rows give r·n moves |
| MnkRules.LegalMovesOfEmptyGrid | BoardGameUtils/src/main/java/boardgame/model/MnkBoardGameModel.java:87-91 | an emptied board has exactly rowCount·columnCount legal moves |
| MnkRules.RowMovesPlace | BoardGameUtils/src/main/java/boardgame/model/MnkBoardGameModel.java:193 | filling an empty square of a row removes exactly that square from the row's scan |
| MnkRules.MovesUpToPlace | BoardGameUtils/src/main/java/boardgame/model/MnkBoardGameModel.java:193 | filling an empty square removes exactly one move from the scan of the rows containing it |
| MnkRules.PlaceRemovesOneLegalMove | BoardGameUtils/src/main/java/boardgame/model/MnkBoardGameModel.java:164 | making a legal move removes that move, and only it, from the legal moves |
| MnkRules.RunAfterPlaceIsMovers | BoardGameUtils/src/main/java/boardgame/model/MnkBoardGameModel.java:204-282 | on a board with no k-in-a-row, every run created by placing player p's piece is made of p's pieces |
| MnkRules.WinnerIsMover | BoardGameUtils/src/main/java/boardgame/model/MnkBoardGameModel.java:164-167 | the only player who can own a run right after a legal move is the mover |
| MnkRules.NextPlayerNumber | BoardGameUtils/src/main/java/boardgame/model/MnkBoardGameModel.java:176 | round robin: the next number is in 1..playerCount and wraps from the last player to the first |
| MnkRules.TryMoveState | BoardGameUtils/src/main/java/boardgame/model/MnkBoardGameModel.java:146-187 | tryMove fails iff the game is already over, with IllegalStateException "Game is already over." |
| MnkRules.ResetState | BoardGameUtils/src/main/java/boardgame/model/MnkBoardGameModel.java:85-99 | every square empty, player 1 to move, no winner and no illegal mover, no previous move or probabilities, and the game running |
| MnkRules.TryMoveIllegalCase | BoardGameUtils/src/main/java/boardgame/model/MnkBoardGameModel.java:152-161 | an illegal move records the move, makes the current player the illegal mover and ends the game; the board is unchanged |
| MnkRules.TryMoveWinCase | BoardGameUtils/src/main/java/boardgame/model/MnkBoardGameModel.java:164-172 | a legal move that completes a run places the piece and makes the mover the winner |
| MnkRules.TryMoveDrawCase | BoardGameUtils/src/main/java/boardgame/model/MnkBoardGameModel.java:174-183 | a legal move with no run that leaves no empty square ends the game as a draw |
| MnkRules.TryMoveContinueCase | BoardGameUtils/src/main/java/boardgame/model/MnkBoardGameModel.java:174-186 | otherwise the piece is placed and the turn passes to the next player |
| MnkRules.ResetEstablishesInvariant | BoardGameUtils/src/main/java/boardgame/model/MnkBoardGameModel.java:85-102 | the reset state satisfies the invariant, has rowCount·columnCount legal moves, and a move is legal iff it is on the board |
| MnkRules.TryMovePreservesInvariant | BoardGameUtils/src/main/java/boardgame/model/MnkBoardGameModel.java:146-187 | tryMove on a running game succeeds and keeps the invariant: pieces belong to players, no run while running, winner and illegal mover in range and never both set, player to move valid |
| MnkRules.TryMoveOutcome | BoardGameUtils/src/main/java/boardgame/model/MnkBoardGameModel.java:154-183 | after a move on a running game the move and probabilities are recorded; an illegal move leaves the board, ends the game and names the mover; a legal one places the mover's piece, and the game is then over iff there is a winner or no legal move left; a winner is the mover and owns a k-in-a-row; otherwise the turn passes round robin |
| MnkRules.TryMoveKeepsPieces | BoardGameUtils/src/main/java/boardgame/model/MnkBoardGameModel.java:189-194 | a piece already on the board is never removed or replaced |
| MnkRules.TryMoveProgress | BoardGameUtils/src/main/java/boardgame/model/MnkBoardGameModel.java:154-183 | every tryMove on a running game lowers the measure (empty squares, plus one while running), so every game ends |
| MnkBoard.MnkBoardGameModel.Create | BoardGameUtils/src/main/java/boardgame/model/MnkBoardGameModel.java:57-79 | the four IllegalArgumentExceptions in the source's order; otherwise a fresh model in the reset state |
| MnkBoard.MnkBoardGameModel.constructor | BoardGameUtils/src/main/java/boardgame/model/MnkBoardGameModel.java:63-78 | a fresh board of the given shape in the reset state, with one observer notification |
| MnkBoard.MnkBoardGameModel.Reset | BoardGameUtils/src/main/java/boardgame/model/MnkBoardGameModel.java:85-102 | the board is emptied and the state is ResetState; observers are notified once |
| MnkBoard.MnkBoardGameModel.GetIndexOfCurrentPlayer | BoardGameUtils/src/main/java/boardgame/model/MnkBoardGameModel.java:105-108 | fails when the game is over; otherwise the 0-based index of the player to move, a valid player index |
| MnkBoard.MnkBoardGameModel.IsLegalMove | BoardGameUtils/src/main/java/boardgame/model/MnkBoardGameModel.java:111-120 | fails when the game is over; otherwise true iff the square is on the board and empty, iff the move is among the legal moves |
| MnkBoard.MnkBoardGameModel.GetLegalMoves | BoardGameUtils/src/main/java/boardgame/model/MnkBoardGameModel.java:123-140 | fails when the game is over; otherwise exactly the empty squares in row-major order |
| MnkBoard.MnkBoardGameModel.MakeMove | BoardGameUtils/src/main/java/boardgame/model/MnkBoardGameModel.java:189-194 | the target square gets the piece of the player to move; nothing else on the board changes |
| MnkBoard.MnkBoardGameModel.KInARow | BoardGameUtils/src/main/java/boardgame/model/MnkBoardGameModel.java:212-276 | the inner loop in each direction reports exactly whether k pieces equal to the first lie in a row from that square |
| MnkBoard.MnkBoardGameModel.DetermineWinner | BoardGameUtils/src/main/java/boardgame/model/MnkBoardGameModel.java:204-282 | -1 iff the board has no k-in-a-row; otherwise the 0-based index of a player who owns one |
| MnkBoard.MnkBoardGameModel.TryMove | BoardGameUtils/src/main/java/boardgame/model/MnkBoardGameModel.java:146-187 | when the game is over: the exception, and the state unchanged; otherwise the new state is TryMoveState of the old one, observers are notified once, and the invariant is kept |
| MnkBoard.MnkBoardGameModel.PlayLegalMove | BoardGameUtils/src/main/java/boardgame/model/MnkBoardGameModel.java:163-186 | the legal-move part of tryMove ends in TryMoveState's state |
| MnkBoard.MnkBoardGameModel.UndoMove | BoardGameUtils/src/main/java/boardgame/model/MnkBoardGameModel.java:197-199 | always UnsupportedOperationException "MnkBoardGameModel does not support undoMove." |
| MnkBoard.MnkBoardGameModel.IsGameOver | BoardGameUtils/src/main/java/boardgame/model/MnkBoardGameModel.java:285-287 | over iff no player is to move; while the game runs a legal move is left and nobody has k in a row |
| MnkBoard.MnkBoardGameModel.GetIndexOfWinner | BoardGameUtils/src/main/java/boardgame/model/MnkBoardGameModel.java:290-292 | -1 or a valid player index; a winner means the game is over and nobody made an illegal move |
| MnkBoard.MnkBoardGameModel.GetIndexOfPlayerThatMadeAnIllegalMove | BoardGameUtils/src/main/java/boardgame/model/MnkBoardGameModel.java:295-297 | -1 or a valid player index; an illegal mover means the game is over and there is no winner |
| MnkBoard.MnkBoardGameModel.GetRowCount | BoardGameUtils/src/main/java/boardgame/model/MnkBoardGameModel.java:300-302 | the positive number of rows of the board array |
| MnkBoard.MnkBoardGameModel.GetColumnCount | BoardGameUtils/src/main/java/boardgame/model/MnkBoardGameModel.java:305-307 | the positive number of columns of the board array |
| MnkBoard.MnkBoardGameModel.GetWinningNumberOfPiecesInARow | BoardGameUtils/src/main/java/boardgame/model/MnkBoardGameModel.java:309-311 | the positive k |
| MnkBoard.MnkBoardGameModel.GetPreviousMove | BoardGameUtils/src/main/java/boardgame/model/MnkBoardGameModel.java:323-325 | the move recorded in the abstract state: that of the last tryMove (TryMoveOutcome), none after reset |
| MnkBoard.MnkBoardGameModel.GetPreviousMoveProbabilities | BoardGameUtils/src/main/java/boardgame/model/MnkBoardGameModel.java:328-330 | the probabilities recorded with the last tryMove in the abstract state |
| MnkBoard.MnkBoardGameModel.GetPlayerNames | BoardGameUtils/src/main/java/boardgame/model/MnkBoardGameModel.java:333-335 | one name per player, at least one |
| EngineRules.MaxTries | Utils/src/main/java/util/controller/TurnBasedGameEngine.java:58 | a human gets Integer.MAX_VALUE tries, a computer player 1000 |
| EngineRules.TriesFrom | Utils/src/main/java/util/controller/TurnBasedGameEngine.java:60-66 | the retry loop stops after the first legal candidate, or when the cap is reached; every earlier candidate was illegal |
| EngineRules.TriesFromUnique | Utils/src/main/java/util/controller/TurnBasedGameEngine.java:60-66 | any count with that stopping property is the retry loop's count |
| EngineRules.ChoiceFor | Utils/src/main/java/util/controller/TurnBasedGameEngine.java:55-66 | a turn makes between 1 and maxTries attempts |
| EngineRules.ChoiceIsFirstLegal | Utils/src/main/java/util/controller/TurnBasedGameEngine.java:60-66 | the chosen move is the last candidate; it is legal unless the cap was exhausted, and all candidates before it were illegal |
| EngineRules.AttemptEventCounts | Utils/src/main/java/util/controller/TurnBasedGameEngine.java:60-66 | n attempts call calculateMove n times and notifyTriedIllegalMove once per illegal candidate |
| EngineRules.TriedIllegalMoveOncePerIllegalCandidate | Utils/src/main/java/util/controller/TurnBasedGameEngine.java:60-66 | in one turn the player is told about tries − 1 illegal candidates, plus one if the last one is illegal too |
| EngineRules.ThinkingTime | Utils/src/main/java/util/controller/TurnBasedGameEngine.java:56-61 | the thinking time summed over the first n attempts of a turn |
| EngineRules.WaitingTime | Utils/src/main/java/util/controller/TurnBasedGameEngine.java:72 | max(minimum − thinkingTime, 0): never negative, zero once the player thought long enough |
| EngineRules.PacingEvents | Utils/src/main/java/util/controller/TurnBasedGameEngine.java:68-74 | only a computer player is made to wait, once per turn, for WaitingTime |
| EngineRules.OthersCount | Utils/src/main/java/util/controller/TurnBasedGameEngine.java:94-96 | the loop over the other players notifies each of them exactly once and skips the excluded one |
| EngineRules.EndEvents | Utils/src/main/java/util/controller/TurnBasedGameEngine.java:87-110 | the end notifications of notifyPlayersOfGameEndStatus (contract in EachPlayerNotifiedOnce) |
| EngineRules.EachPlayerNotifiedOnce | Utils/src/main/java/util/controller/TurnBasedGameEngine.java:87-110 | at the end every player is told exactly once: made-illegal-move/other-made-illegal-move, else won/lost, else draw |
| EngineRules.NewGameEvents | Utils/src/main/java/util/controller/TurnBasedGameEngine.java:40-46 | the model is reset first, then every player is told of the new game, in order |
| EngineRules.TakeTurn | Utils/src/main/java/util/controller/TurnBasedGameEngine.java:52-80 | one turn keeps the model's invariant and lowers its measure |
| EngineRules.TurnEventsShape | Utils/src/main/java/util/controller/TurnBasedGameEngine.java:54-77 | a turn makes exactly one tryMove, as its last call, and no end notification |
| EngineRules.EndEventsInNoMoves | Utils/src/main/java/util/controller/TurnBasedGameEngine.java:87-110 | the end notifications make no move |
| EngineRules.PlayFrom | Utils/src/main/java/util/controller/TurnBasedGameEngine.java:49-82 | playGame ends with the game over and the invariant kept; it does nothing on a finished game, and otherwise it ends with the end notifications of the final state |
| EngineRules.JoinEnd | Utils/src/main/java/util/controller/TurnBasedGameEngine.java:78-79 | the end notifications come once, after the turn that ended the game |
| EngineRules.OneMovePerTurn | Utils/src/main/java/util/controller/TurnBasedGameEngine.java:77 | every turn calls tryMove exactly once |
| EngineRules.PlayFromMoveBound | Utils/src/main/java/util/controller/TurnBasedGameEngine.java:49-82 | a game makes at most as many moves as there are legal moves when it starts |
| EngineRules.GameFromResetMoveBound | Utils/src/main/java/util/controller/TurnBasedGameEngine.java:40-82 | a game from a new board makes at most rowCount·columnCount moves |
| EngineRules.PlayAdvance | Utils/src/main/java/util/controller/TurnBasedGameEngine.java:52-81 | one iteration of playGame's outer loop moves from PlayFrom at turn t to PlayFrom at turn t+1 |
| TurnEngine.TurnBasedGameEngine.Create | Utils/src/main/java/util/controller/TurnBasedGameEngine.java:29-37 | the three IllegalArgumentExceptions in the source's order; otherwise an engine holding the arguments |
| TurnEngine.TurnBasedGameEngine.constructor | Utils/src/main/java/util/controller/TurnBasedGameEngine.java:34-36 | stores model, players and minimum time |
| TurnEngine.TurnBasedGameEngine.NewGame | Utils/src/main/java/util/controller/TurnBasedGameEngine.java:40-46 | the model is in the reset state; the calls are NewGameEvents |
| TurnEngine.TurnBasedGameEngine.RetryUntilLegal | Utils/src/main/java/util/controller/TurnBasedGameEngine.java:55-66 | the loop's result is ChoiceFor with the player's maxTries, and its calls are AttemptEvents of that many tries |
| TurnEngine.TurnBasedGameEngine.Attempt | Utils/src/main/java/util/controller/TurnBasedGameEngine.java:61-64 | one pass: the candidate, its legality on the model, and the calls it makes |
| TurnEngine.TurnBasedGameEngine.NotifyPlayersOfGameEndStatus | Utils/src/main/java/util/controller/TurnBasedGameEngine.java:87-110 | the calls are EndEvents of the model's illegal mover and winner |
| TurnEngine.TurnBasedGameEngine.PlayGame | Utils/src/main/java/util/controller/TurnBasedGameEngine.java:49-82 | the game ends; the model's final state and the calls made are those of PlayFrom from the starting state |
| TurnEngine.TurnBasedGameEngine.PlayTurn | Utils/src/main/java/util/controller/TurnBasedGameEngine.java:53-80 | the model moves to TryMoveState of the chosen move; the calls are the turn's calls, then the end notifications if the game ended |
| TurnEngine.TurnBasedGameEngine.ChooseMove | Utils/src/main/java/util/controller/TurnBasedGameEngine.java:54-74 | the current player's choice as ChoiceIn, with the retry and pacing calls; the model is not changed |
| RandomPlayer.Draw | Utils/src/main/java/util/controller/player/RandomLegalMovePlayer.java:41 | the drawn move is one of the given moves |
| RandomPlayer.DrawIsLegal | Utils/src/main/java/util/controller/player/RandomLegalMovePlayer.java:38-41 | a move drawn from the model's legal moves is legal on its board |
| RandomPlayer.DrawnCandidateNeedsNoRetry | Utils/src/main/java/util/controller/player/RandomLegalMovePlayer.java:38-41 | when a turn's first candidate is drawn from the legal moves, the engine's retry loop stops after one attempt with that legal move and never calls notifyTriedIllegalMove |
| RandomPlayer.RandomLegalMovePlayer.Create | Utils/src/main/java/util/controller/player/RandomLegalMovePlayer.java:22-29 | a null name gives IllegalArgumentException "name == null"; otherwise a fresh player with that name and no move |
| RandomPlayer.RandomLegalMovePlayer.constructor | Utils/src/main/java/util/controller/player/RandomLegalMovePlayer.java:22-25 | stores the name; no move is calculated yet |
| RandomPlayer.RandomLegalMovePlayer.CalculateMove | Utils/src/main/java/util/controller/player/RandomLegalMovePlayer.java:35-42 | the errors for a null model, a finished game and no legal moves, each leaving nextMove alone; otherwise nextMove is the drawn legal move |
| RandomPlayer.RandomLegalMovePlayer.GetCalculatedMove | Utils/src/main/java/util/controller/player/RandomLegalMovePlayer.java:45-48 | the stored move, or IllegalStateException when none is stored |
| RandomPlayer.RandomLegalMovePlayer.GetCalculatedMoveProbabilities | Utils/src/main/java/util/controller/player/RandomLegalMovePlayer.java:51-53 | always null |
| RandomPlayer.RandomLegalMovePlayer.NotifyNewGame | Utils/src/main/java/util/controller/player/RandomLegalMovePlayer.java:56-59 | the stored move is forgotten |
| RandomPlayer.RandomLegalMovePlayer.NotifyTriedIllegalMove | Utils/src/main/java/util/controller/player/RandomLegalMovePlayer.java:74-76 | always IllegalStateException "RandomLegalMovePlayer tried an illegal move." |
| RandomPlayer.RandomLegalMovePlayer.NotifyMadeIllegalMove | Utils/src/main/java/util/controller/player/RandomLegalMovePlayer.java:79-81 | always IllegalStateException "RandomLegalMovePlayer made an illegal move." |
| RandomPlayer.RandomLegalMovePlayer.GetName | Utils/src/main/java/util/controller/player/RandomLegalMovePlayer.java:88-90 | the name given at construction |
| RandomPlayer.RandomLegalMovePlayer.IsHumanPlayer | Utils/src/main/java/util/controller/player/RandomLegalMovePlayer.java:93-95 | never human |
| SquaresPanel.Create | BoardGameUtils/src/main/java/boardgame/view/SquaresPanelView.java:27-35 | a null drawer gives IllegalArgumentException "squaresDrawer == null"; then a panel width `columnCount*squareSize + 2*borderSize` that is not positive gives "width <= 0" and a height `rowCount*squareSize + 2*borderSize` that is not positive gives "height <= 0", the checks of the BasicPanelView constructor (Utils/src/main/java/util/view/BasicPanelView.java:29-30); otherwise a view holding the drawer's four sizes |
| SquaresPanel.CreateOfDrawableSucceeds | Utils/src/main/java/util/view/BasicPanelView.java:28-30 | positive square and border sizes with a row and column count that are not negative always pass the width and height checks, and the view is drawable |
| SquaresPanel.SquaresPanelView.GetRow | BoardGameUtils/src/main/java/boardgame/view/SquaresPanelView.java:40-44 | -1 above or below the board; with squares of positive size, -1 only there, and otherwise a row in [0, rowCount) whose strip of squareSize pixels holds y |
| SquaresPanel.SquaresPanelView.GetColumn | BoardGameUtils/src/main/java/boardgame/view/SquaresPanelView.java:49-53 | -1 left or right of the board; with squares of positive size, -1 only there, and otherwise a column in [0, columnCount) whose strip of squareSize pixels holds x |
| SquaresPanel.SquaresPanelView.Width | BoardGameUtils/src/main/java/boardgame/view/SquaresPanelView.java:34 | the panel width: columnCount·squareSize plus a border on both sides (contract in BorderFramesBoard) |
| SquaresPanel.SquaresPanelView.Height | BoardGameUtils/src/main/java/boardgame/view/SquaresPanelView.java:34 | the panel height: rowCount·squareSize plus a border on both sides (contract in BorderFramesBoard) |
| SquaresPanel.ToIndex | BoardGameUtils/src/main/java/boardgame/view/SquaresPanelView.java:40-53 | the shared guard and division of getRow and getColumn (contract in ToIndexRange, ToIndexRoundTrip, ToIndexMonotone) |
| SquaresPanel.JavaDiv | BoardGameUtils/src/main/java/boardgame/view/SquaresPanelView.java:43 | Java's truncating division agrees with Euclidean division on non-negative operands |
| SquaresPanel.ToIndexRange | BoardGameUtils/src/main/java/boardgame/view/SquaresPanelView.java:40-44 | -1 exactly outside the board, otherwise the index in [0, count) of the square whose pixels hold p |
| SquaresPanel.ToIndexRoundTrip | BoardGameUtils/src/main/java/boardgame/view/SquaresPanelView.java:40-44 | every pixel of square i maps back to i |
| SquaresPanel.ToIndexMonotone | BoardGameUtils/src/main/java/boardgame/view/SquaresPanelView.java:40-44 | a pixel further along never maps to a smaller index |
| SquaresPanel.RowRoundTrip | BoardGameUtils/src/main/java/boardgame/view/SquaresPanelView.java:40-44 | every pixel of a row's square strip maps back to that row |
| SquaresPanel.ColumnRoundTrip | BoardGameUtils/src/main/java/boardgame/view/SquaresPanelView.java:49-53 | every pixel of a column's square strip maps back to that column |
| SquaresPanel.RowMonotone | BoardGameUtils/src/main/java/boardgame/view/SquaresPanelView.java:40-44 | lower on the board never gives a smaller row |
| SquaresPanel.ColumnMonotone | BoardGameUtils/src/main/java/boardgame/view/SquaresPanelView.java:49-53 | further right never gives a smaller column |
| SquaresPanel.BorderFramesBoard | BoardGameUtils/src/main/java/boardgame/view/SquaresPanelView.java:34-53 | inside the panel of size columnCount·squareSize + 2·borderSize (and likewise for rows), the pixels that map to -1 are exactly the border of borderSize on each side |
| Decimal.NatToString | BoardGameUtils/src/main/java/boardgame/BoardGameUtils.java:58 | a number's rendering: non-empty, all decimal digits, and no leading zero |
| Decimal.StringToNatOfNatToString | BoardGameUtils/src/main/java/boardgame/BoardGameUtils.java:58 | parsing a rendered number gives the number back |
| Decimal.NatToStringInjective | BoardGameUtils/src/main/java/boardgame/BoardGameUtils.java:58 | different numbers render differently |
| BoardGameUtils.DisplayName | BoardGameUtils/src/main/java/boardgame/BoardGameUtils.java:18-34 | the display names of the four player types are non-empty |
| BoardGameUtils.DisplayNamesDistinct | BoardGameUtils/src/main/java/boardgame/BoardGameUtils.java:19-22 | two player types have the same display name iff they are the same type |
| BoardGameUtils.CreatePlayerNames | BoardGameUtils/src/main/java/boardgame/BoardGameUtils.java:55-61 | a negative count gives NegativeArraySizeException; otherwise one name per player, name n being "Player " followed by n+1 |
| BoardGameUtils.PlayerName | BoardGameUtils/src/main/java/boardgame/BoardGameUtils.java:58 | "Player " followed by the one-based number (contract in PlayerNameParses, PlayerNamesDistinct) |
| BoardGameUtils.PlayerNameParses | BoardGameUtils/src/main/java/boardgame/BoardGameUtils.java:58 | a default name is "Player " followed by digits that denote the one-based player number |
| BoardGameUtils.PlayerNamesDistinct | BoardGameUtils/src/main/java/boardgame/BoardGameUtils.java:55-61 | two players get the same default name iff they are the same player |
| BoardGameUtils.CreateOne | BoardGameUtils/src/main/java/boardgame/BoardGameUtils.java:71-89 | a missing name gives ArrayIndexOutOfBoundsException; a human without a view gives "view == null"; brute force and neural network give UnsupportedOperationException "<type> not supported yet."; human and random move players get the name at their index |
| BoardGameUtils.CreatePlayers | BoardGameUtils/src/main/java/boardgame/BoardGameUtils.java:67-95 | success iff every player can be created; on failure, the exception of the first player that cannot; on success, one player per type in order, with random players fresh and with no move |

## Left out

- Observers (`setChangedAndNotifyObservers`) are modelled as a ghost counter of notifications; the observers themselves are not modelled.
- MnkBoard.MnkBoardGameModel.IsLegalMove: the null-move and `instanceof SquareMove` checks at MnkBoardGameModel.java:113-114 and 148 are not modelled. Every move in the model is a `SquareMove` value.
- MnkBoard.MnkBoardGameModel.GetLegalMoves: the 32-bit overflow of `rowCount*columnCount` in the buffer size is not modelled. Integers are unbounded.
- The piece-type objects shared between squares are modelled as `Piece(player)` values. `getBoard` hands out the board array itself; this aliasing is not modelled.
- Move probabilities (`float[][]`) are passed through unchanged; floating point is not modelled.
- TurnEngine.TurnBasedGameEngine.PlayGame: the engine is modelled on the m,n,k model and on seats with one strategy function, because the game model and player interfaces are Java interfaces. Players are identified by their index, so two equal entries in `players` are treated as two players. The engine requires `|players| == |playerNames|`: the source indexes `players` by the model's player index without a check.
- TurnEngine.TurnBasedGameEngine.PlayGame: exceptions thrown by a player (for example RandomLegalMovePlayer.notifyTriedIllegalMove) are not propagated. Each call into a player is recorded in the event log and assumed to return normally.
- TurnEngine.TurnBasedGameEngine.PlayGame: thread interruption, `InterruptedException` and `synchronizedWait` are not modelled. The wait is recorded as a `Waited(duration)` event. Clock readings in `calculateMove` become the strategy's thinking time.
- EngineRules.ThinkingTime: it is the unbounded sum of the strategy's thinking times; the `long` overflow is not modelled.
- RandomPlayer.RandomLegalMovePlayer.CalculateMove: `java.util.Random` seeded from `System.nanoTime` becomes a `nextInt` parameter that returns an index below its bound. The model argument is the m,n,k model, not any game model.
- RandomLegalMovePlayer.notifyWon, notifyLost, notifyDraw and notifyOtherPlayerMadeIllegalMove have empty bodies, so they are not modelled as members. The engine's calls to them are recorded as events.
- SquaresPanel.Create: the 32-bit overflow of the panel width and height is not modelled; the sizes are checked as unbounded integers.
- SquaresPanel.SquaresPanelView.GetRow: the 32-bit overflow of `borderSize + rowCount*squareSize` is not modelled, and the same holds for GetColumn. The lemmas about them assume positive square and border sizes, which the TicTacToe drawer guarantees (TicTacToe/src/main/java/tictactoe/TicTacToeBoardDrawer.java:39-40).
- SquaresPanelView's delegation to its `BasicPanelView` (`update`, `getPanel`) is Swing UI and is not modelled; only the panel size it is given is.
- HumanBoardGamePlayer is modelled only by its name and its constructor's `view == null` check (HumanBoardGamePlayer.java:30-35). Its mouse input and the registration of the mouse listener at BoardGameUtils.java:77 are left out as UI.
- BoardGameUtils.choosePlayerTypes is a Swing dialog and is left out.
- BoardGameUtils.CreatePlayers: the `default` branch at BoardGameUtils.java:87-88 is unreachable, because the model's `PlayerType` has exactly four values. Null entries in the type and name arrays are not representable.
- TurnEngine.TurnBasedGameEngine.PlayGame: the queries the engine makes are not entries of the event log. They are isHumanPlayer, getCalculatedMove, getCalculatedMoveProbabilities, isLegalMove, getIndexOfCurrentPlayer, isGameOver, getIndexOfWinner and getIndexOfPlayerThatMadeAnIllegalMove. Their results are used: the log and the final state depend on them.
- Null references are not representable in general. `Option` models `null` only for the drawer, the model, a player's name and the human player's view. The `playerNames == null` check (BoardGameUtils/src/main/java/boardgame/model/MnkBoardGameModel.java:61) and the `players == null` check (Utils/src/main/java/util/controller/TurnBasedGameEngine.java:31) are not modelled, because a Dafny sequence cannot be null; only the empty case, which throws the same exception, is.
