/** The rules of an m,n,k-game as functions on board values: legality, the
    row-major list of legal moves, k-in-a-row runs, and the state transitions
    of reset and tryMove. The class MnkBoard.MnkBoardGameModel is proved to
    follow these functions. */
module MnkRules {
  import opened Common
  import opened Moves

  /** A board as a sequence of rows. */
  type Grid = seq<seq<Cell>>

  /** The fixed parameters of a game: m, n, k and the number of players. */
  datatype Config = Config(rowCount: int, columnCount: int, winningNumberOfPiecesInARow: int, playerCount: int)
  {
    /** What the model's constructor accepts. */
    predicate Valid() {
      rowCount > 0 && columnCount > 0 && winningNumberOfPiecesInARow > 0 && playerCount > 0
    }
  }

  predicate IsGrid(g: Grid, m: int, n: int) {
    |g| == m && forall r :: 0 <= r < |g| ==> |g[r]| == n
  }

  predicate Fits(cfg: Config, g: Grid) {
    IsGrid(g, cfg.rowCount, cfg.columnCount)
  }

  predicate OnBoard(cfg: Config, mv: SquareMove) {
    0 <= mv.row < cfg.rowCount && 0 <= mv.column < cfg.columnCount
  }

  /** A move is legal when it targets an empty square on the board. */
  predicate IsLegal(cfg: Config, g: Grid, mv: SquareMove)
    requires Fits(cfg, g)
  {
    OnBoard(cfg, mv) && g[mv.row][mv.column] == Empty
  }

  /** The board of m rows of n empty squares. */
  function EmptyGrid(m: nat, n: nat): (g: Grid)
    ensures IsGrid(g, m, n)
    ensures forall r, c :: 0 <= r < m && 0 <= c < n ==> g[r][c] == Empty
  {
    seq(m, _ => seq(n, _ => Empty))
  }

  /** The board with square mv set to x. */
  function Place(g: Grid, mv: SquareMove, x: Cell): (g': Grid)
    requires 0 <= mv.row < |g| && 0 <= mv.column < |g[mv.row]|
    ensures |g'| == |g| && forall r :: 0 <= r < |g| ==> |g'[r]| == |g[r]|
    ensures g'[mv.row][mv.column] == x
    ensures forall r, c :: 0 <= r < |g| && 0 <= c < |g[r]| && (r != mv.row || c != mv.column) ==> g'[r][c] == g[r][c]
  {
    g[mv.row := g[mv.row][mv.column := x]]
  }

  /** Every piece on the board belongs to one of the players 1..playerCount. */
  predicate PiecesValid(cfg: Config, g: Grid)
    requires Fits(cfg, g)
  {
    forall r, c :: 0 <= r < cfg.rowCount && 0 <= c < cfg.columnCount && g[r][c].Piece? ==>
      1 <= g[r][c].player <= cfg.playerCount
  }

  // ---------------------------------------------------------------------------
  // Legal moves in row-major order

  /** The empty squares among the first c squares of row r, left to right. */
  function RowMoves(row: seq<Cell>, r: int, c: nat): seq<SquareMove>
    requires c <= |row|
  {
    if c == 0 then []
    else RowMoves(row, r, c - 1) + (if row[c - 1] == Empty then [SquareMove(r, c - 1)] else [])
  }

  /** The empty squares of the first r rows, in row-major order. */
  function MovesUpTo(g: Grid, r: nat): seq<SquareMove>
    requires r <= |g|
  {
    if r == 0 then [] else MovesUpTo(g, r - 1) + RowMoves(g[r - 1], r - 1, |g[r - 1]|)
  }

  /** All empty squares of the board, in row-major order. */
  function LegalMoves(g: Grid): seq<SquareMove> {
    MovesUpTo(g, |g|)
  }

  /** Strict row-major order on squares. */
  predicate Before(a: SquareMove, b: SquareMove) {
    a.row < b.row || (a.row == b.row && a.column < b.column)
  }

  predicate RowMajor(s: seq<SquareMove>) {
    forall i, j :: 0 <= i < j < |s| ==> Before(s[i], s[j])
  }

  lemma {:induction false} RowMovesLength(row: seq<Cell>, r: int, c: nat)
    requires c <= |row|
    ensures |RowMoves(row, r, c)| <= c
  {
    if c > 0 { RowMovesLength(row, r, c - 1); }
  }

  lemma {:induction false} RowMovesMembership(row: seq<Cell>, r: int, c: nat, mv: SquareMove)
    requires c <= |row|
    ensures mv in RowMoves(row, r, c) <==> mv.row == r && 0 <= mv.column < c && row[mv.column] == Empty
  {
    if c > 0 { RowMovesMembership(row, r, c - 1, mv); }
  }

  lemma {:induction false} RowMovesOrdered(row: seq<Cell>, r: int, c: nat)
    requires c <= |row|
    ensures RowMajor(RowMoves(row, r, c))
    ensures forall i :: 0 <= i < |RowMoves(row, r, c)| ==> RowMoves(row, r, c)[i].row == r && 0 <= RowMoves(row, r, c)[i].column < c
  {
    if c > 0 {
      RowMovesOrdered(row, r, c - 1);
    }
  }

  lemma {:induction false} MovesUpToMembership(g: Grid, r: nat, mv: SquareMove)
    requires r <= |g|
    ensures mv in MovesUpTo(g, r) <==> 0 <= mv.row < r && 0 <= mv.column < |g[mv.row]| && g[mv.row][mv.column] == Empty
  {
    if r > 0 {
      MovesUpToMembership(g, r - 1, mv);
      RowMovesMembership(g[r - 1], r - 1, |g[r - 1]|, mv);
    }
  }

  lemma {:induction false} MovesUpToOrdered(g: Grid, r: nat)
    requires r <= |g|
    ensures RowMajor(MovesUpTo(g, r))
    ensures forall i :: 0 <= i < |MovesUpTo(g, r)| ==> 0 <= MovesUpTo(g, r)[i].row < r
  {
    if r > 0 {
      MovesUpToOrdered(g, r - 1);
      RowMovesOrdered(g[r - 1], r - 1, |g[r - 1]|);
      var a, b := MovesUpTo(g, r - 1), RowMoves(g[r - 1], r - 1, |g[r - 1]|);
      assert MovesUpTo(g, r) == a + b;
      forall i, j | 0 <= i < j < |a + b| ensures Before((a + b)[i], (a + b)[j]) {
        if j < |a| {
        } else if i >= |a| {
          assert (a + b)[i] == b[i - |a|] && (a + b)[j] == b[j - |a|];
        } else {
          assert (a + b)[i] == a[i] && (a + b)[j] == b[j - |a|];
        }
      }
    }
  }

  /** The legal-move list holds exactly the legal moves. */
  lemma LegalMovesAreLegal(cfg: Config, g: Grid, mv: SquareMove)
    requires Fits(cfg, g)
    ensures mv in LegalMoves(g) <==> IsLegal(cfg, g, mv)
  {
    MovesUpToMembership(g, |g|, mv);
  }

  /** The legal-move list is strictly increasing in row-major order, so it
      lists every empty square exactly once. */
  lemma LegalMovesRowMajor(g: Grid)
    ensures RowMajor(LegalMoves(g))
    ensures forall i, j :: 0 <= i < j < |LegalMoves(g)| ==> LegalMoves(g)[i] != LegalMoves(g)[j]
  {
    MovesUpToOrdered(g, |g|);
  }

  lemma {:induction false} MovesUpToLength(g: Grid, r: nat, n: nat)
    requires r <= |g|
    requires forall i :: 0 <= i < |g| ==> |g[i]| == n
    ensures |MovesUpTo(g, r)| <= r * n
  {
    if r > 0 {
      MovesUpToLength(g, r - 1, n);
      RowMovesLength(g[r - 1], r - 1, n);
      assert r * n == (r - 1) * n + n;
    }
  }

  /** The legal moves found before square (row, column) leave room for one
      more in an array of m*n moves. */
  lemma MovesBeforeSquareBound(g: Grid, m: nat, n: nat, row: nat, column: nat)
    requires IsGrid(g, m, n) && row < m && column < n
    ensures |MovesUpTo(g, row)| + |RowMoves(g[row], row, column)| < m * n
  {
    MovesUpToLength(g, row, n);
    RowMovesLength(g[row], row, column);
    RowsBeforeLastFit(row, m, n);
  }

  lemma RowsBeforeLastFit(row: nat, m: nat, n: nat)
    requires row < m
    ensures row * n + n <= m * n
  {
    var rest: nat := m - row - 1;
    assert m * n == row * n + n + rest * n;
  }

  lemma {:induction false} RowMovesAllEmpty(row: seq<Cell>, r: int, c: nat)
    requires c <= |row|
    requires forall i :: 0 <= i < |row| ==> row[i] == Empty
    ensures |RowMoves(row, r, c)| == c
  {
    if c > 0 { RowMovesAllEmpty(row, r, c - 1); }
  }

  lemma {:induction false} MovesUpToEmpty(m: nat, n: nat, r: nat)
    requires r <= m
    ensures |MovesUpTo(EmptyGrid(m, n), r)| == r * n
  {
    if r > 0 {
      var g := EmptyGrid(m, n);
      MovesUpToEmpty(m, n, r - 1);
      RowMovesAllEmpty(g[r - 1], r - 1, n);
      assert MovesUpTo(g, r) == MovesUpTo(g, r - 1) + RowMoves(g[r - 1], r - 1, n);
      assert r * n == (r - 1) * n + n;
    }
  }

  /** Right after a reset every one of the m*n squares is a legal move. */
  lemma LegalMovesOfEmptyGrid(m: nat, n: nat)
    ensures |LegalMoves(EmptyGrid(m, n))| == m * n
  {
    MovesUpToEmpty(m, n, m);
  }

  lemma {:induction false} RowMovesPlace(row: seq<Cell>, r: int, c: nat, col: int, x: Cell)
    requires c <= |row| && 0 <= col < |row|
    requires row[col] == Empty && x != Empty
    ensures |RowMoves(row[col := x], r, c)| == |RowMoves(row, r, c)| - (if col < c then 1 else 0)
    ensures forall mv :: mv in RowMoves(row[col := x], r, c) <==> mv in RowMoves(row, r, c) && mv != SquareMove(r, col)
  {
    if c > 0 { RowMovesPlace(row, r, c - 1, col, x); }
    forall mv: SquareMove
      ensures mv in RowMoves(row[col := x], r, c) <==> mv in RowMoves(row, r, c) && mv != SquareMove(r, col)
    {
      RowMovesMembership(row, r, c, mv);
      RowMovesMembership(row[col := x], r, c, mv);
    }
  }

  lemma {:induction false} MovesUpToPlace(g: Grid, r: nat, mv: SquareMove, x: Cell)
    requires r <= |g| && 0 <= mv.row < |g| && 0 <= mv.column < |g[mv.row]|
    requires g[mv.row][mv.column] == Empty && x != Empty
    ensures |MovesUpTo(Place(g, mv, x), r)| == |MovesUpTo(g, r)| - (if mv.row < r then 1 else 0)
  {
    if r > 0 {
      MovesUpToPlace(g, r - 1, mv, x);
      var g' := Place(g, mv, x);
      if r - 1 == mv.row {
        assert g'[r - 1] == g[r - 1][mv.column := x];
        RowMovesPlace(g[r - 1], r - 1, |g[r - 1]|, mv.column, x);
      } else {
        assert g'[r - 1] == g[r - 1];
      }
    }
  }

  /** Placing a piece on an empty square removes exactly that square from
      the legal moves, and no other. */
  lemma PlaceRemovesOneLegalMove(cfg: Config, g: Grid, mv: SquareMove, x: Cell)
    requires Fits(cfg, g) && IsLegal(cfg, g, mv) && x != Empty
    ensures |LegalMoves(Place(g, mv, x))| == |LegalMoves(g)| - 1
    ensures forall m :: m in LegalMoves(Place(g, mv, x)) <==> m in LegalMoves(g) && m != mv
  {
    MovesUpToPlace(g, |g|, mv, x);
    forall m: SquareMove
      ensures m in LegalMoves(Place(g, mv, x)) <==> m in LegalMoves(g) && m != mv
    {
      LegalMovesAreLegal(cfg, g, m);
      LegalMovesAreLegal(cfg, Place(g, mv, x), m);
    }
  }

  // ---------------------------------------------------------------------------
  // Runs of k pieces

  /** The four directions determineWinner scans, each extending forward from
      the run's first square: to the right, down, down-right (NW-SE) and
      down-left (NE-SW). */
  datatype Direction = Horizontal | Vertical | Diagonal | AntiDiagonal

  function RowStep(d: Direction, i: int): int {
    match d
    case Horizontal => 0
    case _ => i
  }

  function ColumnStep(d: Direction, i: int): int {
    match d
    case Horizontal => i
    case Vertical => 0
    case Diagonal => i
    case AntiDiagonal => -i
  }

  /** The edge test determineWinner makes before scanning direction d from
      square (r, c): the k-th square of the line must still be on the board. */
  predicate FarEnoughFromEdge(cfg: Config, r: int, c: int, d: Direction) {
    var k := cfg.winningNumberOfPiecesInARow;
    match d
    case Horizontal => c <= cfg.columnCount - k
    case Vertical => r <= cfg.rowCount - k
    case Diagonal => c <= cfg.columnCount - k && r <= cfg.rowCount - k
    case AntiDiagonal => c >= k - 1 && r <= cfg.rowCount - k
  }

  /** Square (r, c) holds a piece and starts k consecutive squares in
      direction d that all hold a piece of the same player. */
  predicate RunFrom(cfg: Config, g: Grid, r: int, c: int, d: Direction)
    requires Fits(cfg, g)
  {
    && 0 <= r < cfg.rowCount && 0 <= c < cfg.columnCount
    && g[r][c].Piece?
    && FarEnoughFromEdge(cfg, r, c, d)
    && forall i :: 0 <= i < cfg.winningNumberOfPiecesInARow ==> g[r + RowStep(d, i)][c + ColumnStep(d, i)] == g[r][c]
  }

  /** No k-in-a-row run exists anywhere on the board. */
  ghost predicate NoRun(cfg: Config, g: Grid)
    requires Fits(cfg, g)
  {
    forall r, c, d :: !RunFrom(cfg, g, r, c, d)
  }

  /** On a board without runs, every run that appears once one empty square
      receives player p's piece is a run of p: the winner is the mover. */
  lemma RunAfterPlaceIsMovers(cfg: Config, g: Grid, mv: SquareMove, p: int, r: int, c: int, d: Direction)
    requires Fits(cfg, g) && IsLegal(cfg, g, mv) && NoRun(cfg, g)
    requires RunFrom(cfg, Place(g, mv, Piece(p)), r, c, d)
    ensures Place(g, mv, Piece(p))[r][c] == Piece(p)
  {
    var g' := Place(g, mv, Piece(p));
    var k := cfg.winningNumberOfPiecesInARow;
    if r == mv.row && c == mv.column {
    } else if exists i :: 0 <= i < k && r + RowStep(d, i) == mv.row && c + ColumnStep(d, i) == mv.column {
      var i :| 0 <= i < k && r + RowStep(d, i) == mv.row && c + ColumnStep(d, i) == mv.column;
      assert g'[r + RowStep(d, i)][c + ColumnStep(d, i)] == g'[r][c];
    } else {
      assert g[r][c] == g'[r][c];
      forall i | 0 <= i < k ensures g[r + RowStep(d, i)][c + ColumnStep(d, i)] == g[r][c] {
        assert g'[r + RowStep(d, i)][c + ColumnStep(d, i)] == g'[r][c];
      }
      assert RunFrom(cfg, g, r, c, d);
      assert false;
    }
  }

  // ---------------------------------------------------------------------------
  // Game states and transitions

  /** The mutable state of MnkBoardGameModel. numberOfPlayerToMoveNext is
      1-based (-1 once the game is over); the winner and illegal-mover
      indices are 0-based, -1 meaning none. */
  datatype State = State(
    board: Grid,
    previousMove: Option<SquareMove>,
    previousMoveProbabilities: Option<Probabilities>,
    numberOfPlayerToMoveNext: int,
    indexOfPlayerThatMadeAnIllegalMove: int,
    indexOfWinner: int,
    gameOver: bool)

  const GameAlreadyOver: Error := IllegalState("Game is already over.")

  /** What holds of every state the model can reach. */
  ghost predicate Invariant(cfg: Config, s: State) {
    && cfg.Valid()
    && Fits(cfg, s.board)
    && PiecesValid(cfg, s.board)
    && -1 <= s.indexOfWinner < cfg.playerCount
    && -1 <= s.indexOfPlayerThatMadeAnIllegalMove < cfg.playerCount
    // at most one of "winner" and "illegal mover" is ever set
    && (s.indexOfWinner == -1 || s.indexOfPlayerThatMadeAnIllegalMove == -1)
    && (s.gameOver ==> s.numberOfPlayerToMoveNext == -1)
    && (!s.gameOver ==>
          && 1 <= s.numberOfPlayerToMoveNext <= cfg.playerCount
          && s.indexOfWinner == -1 && s.indexOfPlayerThatMadeAnIllegalMove == -1
          && NoRun(cfg, s.board)
          && |LegalMoves(s.board)| > 0)
  }

  /** The state reset() produces. */
  function ResetState(cfg: Config): (s: State)
    requires cfg.Valid()
    ensures Fits(cfg, s.board) && forall r, c :: 0 <= r < cfg.rowCount && 0 <= c < cfg.columnCount ==> s.board[r][c] == Empty
    ensures !s.gameOver && s.numberOfPlayerToMoveNext == 1
    ensures s.indexOfWinner == -1 && s.indexOfPlayerThatMadeAnIllegalMove == -1
    ensures s.previousMove.None? && s.previousMoveProbabilities.None?
  {
    State(EmptyGrid(cfg.rowCount, cfg.columnCount), None, None, 1, -1, -1, false)
  }

  /** 0-based index of the player to move, 1-based number minus one. */
  function CurrentPlayerIndex(s: State): int {
    s.numberOfPlayerToMoveNext - 1
  }

  /** The round-robin successor of a 1-based player number. */
  function NextPlayerNumber(cfg: Config, number: int): (next: int)
    requires cfg.playerCount > 0 && 1 <= number <= cfg.playerCount
    ensures 1 <= next <= cfg.playerCount
    ensures next == if number == cfg.playerCount then 1 else number + 1
  {
    number % cfg.playerCount + 1
  }

  /** The state tryMove(mv, probabilities) produces, or the exception it
      throws once the game is over. A winning move sets the winner to the
      mover: on a board reachable in play, RunAfterPlaceIsMovers shows that
      every run then belongs to the mover. */
  ghost function TryMoveState(cfg: Config, s: State, mv: SquareMove, probabilities: Option<Probabilities>): (r: Result<State>)
    requires Invariant(cfg, s)
    ensures r.Failure? <==> s.gameOver
    ensures r.Failure? ==> r.error == GameAlreadyOver
  {
    if s.gameOver then Failure(GameAlreadyOver)
    else
      var recorded := s.(previousMove := Some(mv), previousMoveProbabilities := probabilities);
      if !IsLegal(cfg, s.board, mv) then
        Success(recorded.(indexOfPlayerThatMadeAnIllegalMove := CurrentPlayerIndex(s),
                          numberOfPlayerToMoveNext := -1, gameOver := true))
      else
        var g := Place(s.board, mv, Piece(s.numberOfPlayerToMoveNext));
        if !NoRun(cfg, g) then
          Success(recorded.(board := g, indexOfWinner := CurrentPlayerIndex(s),
                            numberOfPlayerToMoveNext := -1, gameOver := true))
        else if |LegalMoves(g)| <= 0 then
          Success(recorded.(board := g, numberOfPlayerToMoveNext := -1, gameOver := true))
        else
          Success(recorded.(board := g, numberOfPlayerToMoveNext := NextPlayerNumber(cfg, s.numberOfPlayerToMoveNext)))
  }

  /** Player p has k in a row somewhere on the board. */
  ghost predicate HasRunOf(cfg: Config, g: Grid, p: int)
    requires Fits(cfg, g)
  {
    exists r, c, d :: RunFrom(cfg, g, r, c, d) && g[r][c] == Piece(p)
  }

  /** The winner determineWinner finds after a legal move is the mover. */
  lemma WinnerIsMover(cfg: Config, g: Grid, mv: SquareMove, p: int, w: int)
    requires Fits(cfg, g) && IsLegal(cfg, g, mv) && NoRun(cfg, g)
    requires HasRunOf(cfg, Place(g, mv, Piece(p)), w)
    ensures w == p
  {
    var g' := Place(g, mv, Piece(p));
    var r, c, d :| RunFrom(cfg, g', r, c, d) && g'[r][c] == Piece(w);
    RunAfterPlaceIsMovers(cfg, g, mv, p, r, c, d);
  }

  // The four cases of TryMoveState, one lemma each, so that callers need
  // not unfold the whole definition.

  lemma TryMoveIllegalCase(cfg: Config, s: State, mv: SquareMove, probabilities: Option<Probabilities>)
    requires Invariant(cfg, s) && !s.gameOver && !IsLegal(cfg, s.board, mv)
    ensures TryMoveState(cfg, s, mv, probabilities) ==
      Success(s.(previousMove := Some(mv), previousMoveProbabilities := probabilities,
                 indexOfPlayerThatMadeAnIllegalMove := s.numberOfPlayerToMoveNext - 1,
                 numberOfPlayerToMoveNext := -1, gameOver := true))
  {
  }

  lemma TryMoveWinCase(cfg: Config, s: State, mv: SquareMove, probabilities: Option<Probabilities>)
    requires Invariant(cfg, s) && !s.gameOver && IsLegal(cfg, s.board, mv)
    requires !NoRun(cfg, Place(s.board, mv, Piece(s.numberOfPlayerToMoveNext)))
    ensures TryMoveState(cfg, s, mv, probabilities) ==
      Success(s.(board := Place(s.board, mv, Piece(s.numberOfPlayerToMoveNext)),
                 previousMove := Some(mv), previousMoveProbabilities := probabilities,
                 indexOfWinner := s.numberOfPlayerToMoveNext - 1,
                 numberOfPlayerToMoveNext := -1, gameOver := true))
  {
  }

  lemma TryMoveDrawCase(cfg: Config, s: State, mv: SquareMove, probabilities: Option<Probabilities>)
    requires Invariant(cfg, s) && !s.gameOver && IsLegal(cfg, s.board, mv)
    requires NoRun(cfg, Place(s.board, mv, Piece(s.numberOfPlayerToMoveNext)))
    requires |LegalMoves(Place(s.board, mv, Piece(s.numberOfPlayerToMoveNext)))| <= 0
    ensures TryMoveState(cfg, s, mv, probabilities) ==
      Success(s.(board := Place(s.board, mv, Piece(s.numberOfPlayerToMoveNext)),
                 previousMove := Some(mv), previousMoveProbabilities := probabilities,
                 numberOfPlayerToMoveNext := -1, gameOver := true))
  {
  }

  lemma TryMoveContinueCase(cfg: Config, s: State, mv: SquareMove, probabilities: Option<Probabilities>)
    requires Invariant(cfg, s) && !s.gameOver && IsLegal(cfg, s.board, mv)
    requires NoRun(cfg, Place(s.board, mv, Piece(s.numberOfPlayerToMoveNext)))
    requires |LegalMoves(Place(s.board, mv, Piece(s.numberOfPlayerToMoveNext)))| > 0
    ensures TryMoveState(cfg, s, mv, probabilities) ==
      Success(s.(board := Place(s.board, mv, Piece(s.numberOfPlayerToMoveNext)),
                 previousMove := Some(mv), previousMoveProbabilities := probabilities,
                 numberOfPlayerToMoveNext := NextPlayerNumber(cfg, s.numberOfPlayerToMoveNext)))
  {
  }

  /** Cells still empty plus one while the game goes on: every tryMove
      decreases it, so a game ends within m*n moves. */
  function Measure(s: State): nat {
    |LegalMoves(s.board)| + (if s.gameOver then 0 else 1)
  }

  /** A freshly reset game satisfies the invariant, is not over and offers
      all m*n squares as legal moves. */
  lemma ResetEstablishesInvariant(cfg: Config)
    requires cfg.Valid()
    ensures Invariant(cfg, ResetState(cfg))
    ensures |LegalMoves(ResetState(cfg).board)| == cfg.rowCount * cfg.columnCount
    ensures forall mv :: IsLegal(cfg, ResetState(cfg).board, mv) <==> OnBoard(cfg, mv)
  {
    var s := ResetState(cfg);
    LegalMovesOfEmptyGrid(cfg.rowCount, cfg.columnCount);
    assert cfg.rowCount * cfg.columnCount > 0;
    forall r, c, d ensures !RunFrom(cfg, s.board, r, c, d) {
    }
  }

  /** tryMove keeps the invariant. */
  lemma TryMovePreservesInvariant(cfg: Config, s: State, mv: SquareMove, probabilities: Option<Probabilities>)
    requires Invariant(cfg, s) && !s.gameOver
    ensures TryMoveState(cfg, s, mv, probabilities).Success?
    ensures Invariant(cfg, TryMoveState(cfg, s, mv, probabilities).value)
  {
    if IsLegal(cfg, s.board, mv) {
      var g := Place(s.board, mv, Piece(s.numberOfPlayerToMoveNext));
      assert PiecesValid(cfg, g);
    }
  }

  /** The outcome of a tryMove on an ongoing game, case by case. */
  lemma TryMoveOutcome(cfg: Config, s: State, mv: SquareMove, probabilities: Option<Probabilities>)
    requires Invariant(cfg, s) && !s.gameOver
    ensures var s' := TryMoveState(cfg, s, mv, probabilities).value;
      && s'.previousMove == Some(mv) && s'.previousMoveProbabilities == probabilities
      && (!IsLegal(cfg, s.board, mv) ==>
            s'.board == s.board && s'.gameOver && s'.indexOfWinner == -1
            && s'.indexOfPlayerThatMadeAnIllegalMove == s.numberOfPlayerToMoveNext - 1)
      && (IsLegal(cfg, s.board, mv) ==>
            s'.board == Place(s.board, mv, Piece(s.numberOfPlayerToMoveNext))
            && s'.indexOfPlayerThatMadeAnIllegalMove == -1
            && (s'.indexOfWinner != -1 ==> s'.indexOfWinner == s.numberOfPlayerToMoveNext - 1)
            && (!s'.gameOver ==> s'.numberOfPlayerToMoveNext == NextPlayerNumber(cfg, s.numberOfPlayerToMoveNext))
            && (s'.gameOver && s'.indexOfWinner == -1 ==> |LegalMoves(s'.board)| == 0)
            && (s'.gameOver <==> s'.indexOfWinner != -1 || |LegalMoves(s'.board)| == 0))
      && (s'.indexOfWinner != -1 ==> HasRunOf(cfg, s'.board, s'.indexOfWinner + 1))
  {
    if IsLegal(cfg, s.board, mv) {
      var p := s.numberOfPlayerToMoveNext;
      var g := Place(s.board, mv, Piece(p));
      if !NoRun(cfg, g) {
        var r, c, d :| RunFrom(cfg, g, r, c, d);
        RunAfterPlaceIsMovers(cfg, s.board, mv, p, r, c, d);
      }
    }
  }

  /** Within a game no occupied square is ever cleared or changed. */
  lemma TryMoveKeepsPieces(cfg: Config, s: State, mv: SquareMove, probabilities: Option<Probabilities>, r: int, c: int)
    requires Invariant(cfg, s) && !s.gameOver
    requires 0 <= r < cfg.rowCount && 0 <= c < cfg.columnCount && s.board[r][c].Piece?
    ensures TryMoveState(cfg, s, mv, probabilities).value.board[r][c] == s.board[r][c]
  {
  }

  /** Every tryMove on an ongoing game strictly decreases Measure. */
  lemma TryMoveProgress(cfg: Config, s: State, mv: SquareMove, probabilities: Option<Probabilities>)
    requires Invariant(cfg, s) && !s.gameOver
    ensures Measure(TryMoveState(cfg, s, mv, probabilities).value) < Measure(s)
  {
    if IsLegal(cfg, s.board, mv) {
      PlaceRemovesOneLegalMove(cfg, s.board, mv, Piece(s.numberOfPlayerToMoveNext));
    }
  }
}
