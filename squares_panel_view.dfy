/** SquaresPanelView: translates pixel coordinates of the panel that shows the
    board to the row and column of the square under them. The panel is the
    board of rowCount x columnCount squares of squareSize pixels, framed by a
    border of borderSize pixels on every side. */
module SquaresPanel {
  import opened Common

  /** What the view reads from its drawer when it is constructed. */
  datatype SquaresDrawer = SquaresDrawer(rowCount: int, columnCount: int, squareSize: int, borderSize: int)

  datatype SquaresPanelView = SquaresPanelView(squareSize: int, borderSize: int, rowCount: int, columnCount: int)
  {
    /** The panel's size in pixels: the board plus a border on both sides. */
    function Width(): int {
      columnCount * squareSize + 2 * borderSize
    }

    function Height(): int {
      rowCount * squareSize + 2 * borderSize
    }

    /** The row under pixel y, or -1 outside the board. With squares of
        positive size, a row it returns is the one whose strip holds y. */
    function GetRow(y: int): (r: int)
      ensures (y < borderSize || y >= borderSize + rowCount * squareSize) ==> r == -1
      ensures squareSize > 0 ==>
        (r == -1 <==> y < borderSize || y >= borderSize + rowCount * squareSize)
      ensures squareSize > 0 && r != -1 ==>
        0 <= r < rowCount && borderSize + r * squareSize <= y < borderSize + (r + 1) * squareSize
    {
      if squareSize <= 0 then ToIndex(y, borderSize, rowCount, squareSize)
      else
        ToIndexRange(y, borderSize, rowCount, squareSize);
        ToIndex(y, borderSize, rowCount, squareSize)
    }

    /** The column under pixel x, or -1 outside the board. With squares of
        positive size, a column it returns is the one whose strip holds x. */
    function GetColumn(x: int): (c: int)
      ensures (x < borderSize || x >= borderSize + columnCount * squareSize) ==> c == -1
      ensures squareSize > 0 ==>
        (c == -1 <==> x < borderSize || x >= borderSize + columnCount * squareSize)
      ensures squareSize > 0 && c != -1 ==>
        0 <= c < columnCount && borderSize + c * squareSize <= x < borderSize + (c + 1) * squareSize
    {
      if squareSize <= 0 then ToIndex(x, borderSize, columnCount, squareSize)
      else
        ToIndexRange(x, borderSize, columnCount, squareSize);
        ToIndex(x, borderSize, columnCount, squareSize)
    }
  }

  /** The Java constructor: a drawer must be given (None stands for null),
      and the panel it sizes must have a positive width and height, which
      the BasicPanelView it is built on checks in that order. */
  function Create(drawer: Option<SquaresDrawer>): (r: Result<SquaresPanelView>)
    ensures drawer.None? ==> r == Failure(IllegalArgument("squaresDrawer == null"))
    ensures drawer.Some? ==>
      var v := SquaresPanelView(drawer.value.squareSize, drawer.value.borderSize,
                                drawer.value.rowCount, drawer.value.columnCount);
      && (v.Width() <= 0 ==> r == Failure(IllegalArgument("width <= 0")))
      && (v.Width() > 0 && v.Height() <= 0 ==> r == Failure(IllegalArgument("height <= 0")))
      && (v.Width() > 0 && v.Height() > 0 ==> r == Success(v))
  {
    if drawer.None? then Failure(IllegalArgument("squaresDrawer == null"))
    else
      var d := drawer.value;
      var v := SquaresPanelView(d.squareSize, d.borderSize, d.rowCount, d.columnCount);
      if v.Width() <= 0 then Failure(IllegalArgument("width <= 0"))
      else if v.Height() <= 0 then Failure(IllegalArgument("height <= 0"))
      else Success(v)
  }

  /** Every drawer with positive square and border sizes and a board that
      is not negative in size gives a view. */
  lemma CreateOfDrawableSucceeds(d: SquaresDrawer)
    requires d.squareSize > 0 && d.borderSize > 0 && d.rowCount >= 0 && d.columnCount >= 0
    ensures Create(Some(d)).Success?
    ensures Drawable(Create(Some(d)).value)
  {
    MulMonotone(0, d.columnCount, d.squareSize);
    MulMonotone(0, d.rowCount, d.squareSize);
  }

  /** Java's integer division, which rounds toward zero. */
  function JavaDiv(a: int, b: int): (q: int)
    requires b != 0
    ensures a >= 0 && b > 0 ==> q == a / b
  {
    var magnitude := (if a < 0 then -a else a) / (if b < 0 then -b else b);
    if (a < 0) != (b < 0) then -magnitude else magnitude
  }

  /** The index, along one axis, of the square under pixel p: -1 in the
      border before the board and from its far edge on. */
  function ToIndex(p: int, border: int, count: int, size: int): int {
    if p < border || p >= border + count * size then -1
    else
      JavaDiv(p - border, size)
  }

  // ---------------------------------------------------------------------------
  // One axis

  /** -1 exactly outside the board; inside it, the index of the square
      whose strip holds p. */
  lemma ToIndexRange(p: int, border: int, count: int, size: int)
    requires size > 0
    ensures ToIndex(p, border, count, size) == -1 <==> p < border || p >= border + count * size
    ensures var i := ToIndex(p, border, count, size);
      i != -1 ==> 0 <= i < count && border + i * size <= p < border + (i + 1) * size
  {
    if border <= p < border + count * size {
      var q := (p - border) / size;
      assert p - border == q * size + (p - border) % size;
      assert (q + 1) * size == q * size + size;
      assert q < count by {
        if q >= count {
          MulMonotone(count, q, size);
        }
      }
    }
  }

  /** Every pixel of square i, at offset d inside it, maps back to i. */
  lemma ToIndexRoundTrip(border: int, count: int, size: int, i: int, d: int)
    requires size > 0 && 0 <= i < count && 0 <= d < size
    ensures ToIndex(border + i * size + d, border, count, size) == i
  {
    MulMonotone(0, i, size);
    MulMonotone(i + 1, count, size);
    assert border + i * size + d < border + count * size by {
      assert (i + 1) * size == i * size + size;
    }
    DivUnique(i * size + d, size, i, d);
  }

  /** Further right (or down) on the board never gives a smaller index. */
  lemma ToIndexMonotone(p: int, p': int, border: int, count: int, size: int)
    requires size > 0 && border <= p <= p' < border + count * size
    ensures ToIndex(p, border, count, size) <= ToIndex(p', border, count, size)
  {
    var q, q' := (p - border) / size, (p' - border) / size;
    if q > q' {
      MulMonotone(q' + 1, q, size);
      assert false;
    }
  }

  /** Multiplying by a positive size keeps the order: the step the range,
      round-trip and monotonicity proofs above use to compare pixel offsets. */
  lemma MulMonotone(a: int, b: int, size: int)
    requires a <= b && size > 0
    ensures a * size <= b * size
  {
    assert b * size - a * size == (b - a) * size;
  }

  /** Euclidean division has a unique quotient. */
  lemma DivUnique(a: int, size: int, q: int, r: int)
    requires size > 0 && 0 <= r < size && a == q * size + r
    ensures a / size == q
  {
    var q', r' := a / size, a % size;
    assert a == q' * size + r';
    if q' < q {
      MulMonotone(q' + 1, q, size);
      assert false;
    } else if q' > q {
      MulMonotone(q + 1, q', size);
      assert false;
    }
  }

  // ---------------------------------------------------------------------------
  // Rows and columns

  /** A view whose squares have a size, as the drawers ensure. */
  predicate Drawable(v: SquaresPanelView) {
    v.squareSize > 0 && v.borderSize > 0
  }

  lemma RowRoundTrip(v: SquaresPanelView, row: int, d: int)
    requires Drawable(v) && 0 <= row < v.rowCount && 0 <= d < v.squareSize
    ensures v.GetRow(v.borderSize + row * v.squareSize + d) == row
  {
    ToIndexRoundTrip(v.borderSize, v.rowCount, v.squareSize, row, d);
  }

  lemma ColumnRoundTrip(v: SquaresPanelView, column: int, d: int)
    requires Drawable(v) && 0 <= column < v.columnCount && 0 <= d < v.squareSize
    ensures v.GetColumn(v.borderSize + column * v.squareSize + d) == column
  {
    ToIndexRoundTrip(v.borderSize, v.columnCount, v.squareSize, column, d);
  }

  lemma RowMonotone(v: SquaresPanelView, y: int, y': int)
    requires Drawable(v) && v.borderSize <= y <= y' < v.borderSize + v.rowCount * v.squareSize
    ensures v.GetRow(y) <= v.GetRow(y')
  {
    ToIndexMonotone(y, y', v.borderSize, v.rowCount, v.squareSize);
  }

  lemma ColumnMonotone(v: SquaresPanelView, x: int, x': int)
    requires Drawable(v) && v.borderSize <= x <= x' < v.borderSize + v.columnCount * v.squareSize
    ensures v.GetColumn(x) <= v.GetColumn(x')
  {
    ToIndexMonotone(x, x', v.borderSize, v.columnCount, v.squareSize);
  }

  /** Inside the panel, the pixels that map to no square are exactly the
      border on each side: the panel is the board plus two borders. */
  lemma BorderFramesBoard(v: SquaresPanelView, x: int, y: int)
    requires Drawable(v) && 0 <= x < v.Width() && 0 <= y < v.Height()
    ensures v.GetColumn(x) == -1 <==> x < v.borderSize || x >= v.Width() - v.borderSize
    ensures v.GetRow(y) == -1 <==> y < v.borderSize || y >= v.Height() - v.borderSize
  {
  }
}
