/** The board primitives: a move is a (row, column) pair and a square either
    is empty or holds the piece of one player. */
module Moves {

  /** A move on a board: zero-based row and column, not necessarily on the board. */
  datatype SquareMove = SquareMove(row: int, column: int)

  /** A square of the board: empty (null in Java) or a piece whose owner is the
      1-based player number. */
  datatype Cell = Empty | Piece(player: int)

  /** Per-square move probabilities reported by some computer players; only
      passed through, never inspected. */
  type Probabilities = seq<seq<real>>
}
