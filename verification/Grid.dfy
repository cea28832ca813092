/**
 * The 3×3 tic-tac-toe grid as a value: its cells, the eight lines, the
 * terminal-state query `IsFinished` and the row-major list of empty cells.
 * The class in Board.dfy holds one of these grids and updates it in place.
 */
module Grid {

  datatype Option<T> = None | Some(value: T)

  /** The content of one cell: the empty string, "X" or "O". */
  datatype Mark = Empty | X | O

  /** A coordinate pair `[row, column]`, zero-based. */
  datatype Move = Move(row: int, col: int)

  predicate InRange(m: Move) {
    0 <= m.row < 3 && 0 <= m.col < 3
  }

  /** A list of three rows of three cells each. */
  predicate IsGrid(g: seq<seq<Mark>>) {
    |g| == 3 && forall r :: 0 <= r < 3 ==> |g[r]| == 3
  }

  function EmptyGrid(): (g: seq<seq<Mark>>)
    ensures IsGrid(g)
  {
    [[Empty, Empty, Empty], [Empty, Empty, Empty], [Empty, Empty, Empty]]
  }

  function At(g: seq<seq<Mark>>, m: Move): Mark
    requires IsGrid(g) && InRange(m)
  {
    g[m.row][m.col]
  }

  /** The grid with `p` written into cell `m`. */
  function Placed(g: seq<seq<Mark>>, m: Move, p: Mark): (h: seq<seq<Mark>>)
    requires IsGrid(g) && InRange(m)
    ensures IsGrid(h)
    ensures At(h, m) == p
    ensures forall q :: InRange(q) && q != m ==> At(h, q) == At(g, q)
  {
    g[m.row := g[m.row][m.col := p]]
  }

  // ---------------------------------------------------------------------
  // Lines and the terminal-state query
  // ---------------------------------------------------------------------

  datatype Line = Line(a: Move, b: Move, c: Move)

  /**
   * The eight lines in the order they are examined: rows 0..2, columns 0..2,
   * the main diagonal, then the anti-diagonal.
   */
  function LineAt(k: int): (l: Line)
    requires 0 <= k < 8
    ensures InRange(l.a) && InRange(l.b) && InRange(l.c)
  {
    if k < 3 then Line(Move(k, 0), Move(k, 1), Move(k, 2))
    else if k < 6 then Line(Move(0, k - 3), Move(1, k - 3), Move(2, k - 3))
    else if k == 6 then Line(Move(0, 0), Move(1, 1), Move(2, 2))
    else Line(Move(0, 2), Move(1, 1), Move(2, 0))
  }

  /** Three equal marks on line `k`, the first of which is not empty. */
  predicate Complete(g: seq<seq<Mark>>, k: int)
    requires IsGrid(g) && 0 <= k < 8
  {
    var l := LineAt(k);
    At(g, l.a) == At(g, l.b) == At(g, l.c) && At(g, l.a) != Empty
  }

  /** The mark standing on line `k`. */
  function Owner(g: seq<seq<Mark>>, k: int): Mark
    requires IsGrid(g) && 0 <= k < 8
  {
    At(g, LineAt(k).a)
  }

  predicate NoLine(g: seq<seq<Mark>>)
    requires IsGrid(g)
  {
    forall k :: 0 <= k < 8 ==> !Complete(g, k)
  }

  /** Line `k` is complete and no line examined before it is. */
  predicate IsFirstLine(g: seq<seq<Mark>>, k: int)
    requires IsGrid(g)
  {
    0 <= k < 8 && Complete(g, k) && forall j :: 0 <= j < k ==> !Complete(g, j)
  }

  /** Some line holds three copies of `m`. */
  predicate HasLine(g: seq<seq<Mark>>, m: Mark)
    requires IsGrid(g)
  {
    exists k :: 0 <= k < 8 && Complete(g, k) && Owner(g, k) == m
  }

  predicate HasEmpty(g: seq<seq<Mark>>)
    requires IsGrid(g)
  {
    exists r, c :: 0 <= r < 3 && 0 <= c < 3 && g[r][c] == Empty
  }

  /** The index of the first complete line from `k` on, if any. */
  function FirstLine(g: seq<seq<Mark>>, k: int): (r: Option<int>)
    requires IsGrid(g) && 0 <= k <= 8
    ensures r.Some? ==> k <= r.value < 8 && Complete(g, r.value)
    ensures r.Some? ==> forall j :: k <= j < r.value ==> !Complete(g, j)
    ensures r.None? ==> forall j :: k <= j < 8 ==> !Complete(g, j)
    decreases 8 - k
  {
    if k == 8 then None
    else if Complete(g, k) then Some(k)
    else FirstLine(g, k + 1)
  }

  /**
   * `(finished, winner)`: the mark of the first complete line found, or else
   * `(false, None)` while a cell is empty and `(true, None)` for a draw.
   */
  function IsFinished(g: seq<seq<Mark>>): (r: (bool, Option<Mark>))
    requires IsGrid(g)
    ensures r.1.Some? ==> r.0 && r.1.value != Empty
    ensures r.1.Some? ==> exists k :: IsFirstLine(g, k) && Owner(g, k) == r.1.value
    ensures r.1.None? <==> NoLine(g)
    ensures r.1.None? ==> (r.0 <==> !HasEmpty(g))
  {
    match FirstLine(g, 0)
    case Some(k) => (true, Some(Owner(g, k)))
    case None => if HasEmpty(g) then (false, None) else (true, None)
  }

  /** Two first lines are the same line. */
  lemma FirstLineUnique(g: seq<seq<Mark>>, k: int, k': int)
    requires IsGrid(g) && IsFirstLine(g, k) && IsFirstLine(g, k')
    ensures k == k'
  {
  }

  /**
   * Writing `p` into an empty cell of a grid without a line: every complete
   * line of the result passes through that cell, so its owner is `p`.
   */
  lemma PlacedLinesOwnedByMover(g: seq<seq<Mark>>, m: Move, p: Mark, k: int)
    requires IsGrid(g) && InRange(m) && NoLine(g)
    requires 0 <= k < 8 && Complete(Placed(g, m, p), k)
    ensures Owner(Placed(g, m, p), k) == p
  {
    var h := Placed(g, m, p);
    var l := LineAt(k);
    assert !Complete(g, k);
    assert At(h, l.a) != At(g, l.a) || At(h, l.b) != At(g, l.b) || At(h, l.c) != At(g, l.c);
  }

  // ---------------------------------------------------------------------
  // Empty cells in row-major order
  // ---------------------------------------------------------------------

  /** `p` comes before `q` in row-major order. */
  predicate Precedes(p: Move, q: Move) {
    p.row < q.row || (p.row == q.row && p.col < q.col)
  }

  predicate RowMajor(s: seq<Move>) {
    forall a, b :: 0 <= a < b < |s| ==> Precedes(s[a], s[b])
  }

  /** The empty cells of row `i` in columns `0..j-1`, left to right. */
  function EmptyInRow(g: seq<seq<Mark>>, i: int, j: int): (r: seq<Move>)
    requires IsGrid(g) && 0 <= i < 3 && 0 <= j <= 3
    ensures forall m :: m in r <==> m.row == i && 0 <= m.col < j && g[i][m.col] == Empty
    decreases j
  {
    if j == 0 then []
    else EmptyInRow(g, i, j - 1) + if g[i][j - 1] == Empty then [Move(i, j - 1)] else []
  }

  /** The empty cells of rows `0..i-1`, in row-major order. */
  function EmptyBefore(g: seq<seq<Mark>>, i: int): (r: seq<Move>)
    requires IsGrid(g) && 0 <= i <= 3
    ensures forall m :: m in r <==> InRange(m) && m.row < i && At(g, m) == Empty
    decreases i
  {
    if i == 0 then []
    else EmptyBefore(g, i - 1) + EmptyInRow(g, i - 1, 3)
  }

  /**
   * The empty cells, row by row: exactly the in-range coordinates whose cell
   * is empty, each once, in row-major order.
   */
  function EmptySpots(g: seq<seq<Mark>>): (r: seq<Move>)
    requires IsGrid(g)
    ensures forall m :: m in r <==> InRange(m) && At(g, m) == Empty
    ensures r == [] <==> !HasEmpty(g)
  {
    EmptyBeforeNonEmpty(g);
    EmptyBefore(g, 3)
  }

  lemma EmptyBeforeNonEmpty(g: seq<seq<Mark>>)
    requires IsGrid(g)
    ensures EmptyBefore(g, 3) == [] <==> !HasEmpty(g)
  {
    var r := EmptyBefore(g, 3);
    if HasEmpty(g) {
      var i, j :| 0 <= i < 3 && 0 <= j < 3 && g[i][j] == Empty;
      assert At(g, Move(i, j)) == Empty;
      assert Move(i, j) in r;
    }
    if r != [] {
      assert r[0] in r;
    }
  }

  lemma {:induction false} EmptyInRowOrdered(g: seq<seq<Mark>>, i: int, j: int)
    requires IsGrid(g) && 0 <= i < 3 && 0 <= j <= 3
    ensures RowMajor(EmptyInRow(g, i, j))
    decreases j
  {
    if j > 0 {
      EmptyInRowOrdered(g, i, j - 1);
      var prefix := EmptyInRow(g, i, j - 1);
      assert forall a :: 0 <= a < |prefix| ==> prefix[a] in prefix;
    }
  }

  lemma {:induction false} EmptyBeforeOrdered(g: seq<seq<Mark>>, i: int)
    requires IsGrid(g) && 0 <= i <= 3
    ensures RowMajor(EmptyBefore(g, i))
    decreases i
  {
    if i > 0 {
      EmptyBeforeOrdered(g, i - 1);
      EmptyInRowOrdered(g, i - 1, 3);
      var prefix := EmptyBefore(g, i - 1);
      var row := EmptyInRow(g, i - 1, 3);
      assert forall a :: 0 <= a < |prefix| ==> prefix[a] in prefix;
      assert forall b :: 0 <= b < |row| ==> row[b] in row;
    }
  }

  /** The empty cells are listed in row-major order, each once. */
  lemma EmptySpotsOrdered(g: seq<seq<Mark>>)
    requires IsGrid(g)
    ensures RowMajor(EmptySpots(g))
    ensures forall a, b :: 0 <= a < b < |EmptySpots(g)| ==> EmptySpots(g)[a] != EmptySpots(g)[b]
  {
    EmptyBeforeOrdered(g, 3);
  }

  /** Cell `(r, c)` as an entry of the empty-cell list: itself when empty, nothing otherwise. */
  function CellSpot(g: seq<seq<Mark>>, r: int, c: int): (s: seq<Move>)
    requires IsGrid(g) && 0 <= r < 3 && 0 <= c < 3
    ensures s == [] <==> g[r][c] != Empty
  {
    if g[r][c] == Empty then [Move(r, c)] else []
  }

  function RowCells(g: seq<seq<Mark>>, r: int): seq<Move>
    requires IsGrid(g) && 0 <= r < 3
  {
    CellSpot(g, r, 0) + CellSpot(g, r, 1) + CellSpot(g, r, 2)
  }

  lemma RowSpots(g: seq<seq<Mark>>, i: int)
    requires IsGrid(g) && 0 <= i < 3
    ensures EmptyInRow(g, i, 3) == RowCells(g, i)
  {
    assert EmptyInRow(g, i, 1) == CellSpot(g, i, 0);
  }

  /** The empty cells are row 0's, then row 1's, then row 2's, each row left to right. */
  lemma SpotsByCell(g: seq<seq<Mark>>)
    requires IsGrid(g)
    ensures EmptySpots(g) == RowCells(g, 0) + RowCells(g, 1) + RowCells(g, 2)
  {
    RowSpots(g, 0);
    RowSpots(g, 1);
    RowSpots(g, 2);
    assert EmptyBefore(g, 1) == RowCells(g, 0);
  }

  function EmptyCount(g: seq<seq<Mark>>): nat
    requires IsGrid(g)
  {
    |EmptySpots(g)|
  }

  lemma {:induction false} PlacedInRow(g: seq<seq<Mark>>, m: Move, p: Mark, i: int, j: int)
    requires IsGrid(g) && InRange(m) && At(g, m) == Empty && p != Empty
    requires 0 <= i < 3 && 0 <= j <= 3
    ensures |EmptyInRow(Placed(g, m, p), i, j)|
         == |EmptyInRow(g, i, j)| - (if i == m.row && m.col < j then 1 else 0)
    decreases j
  {
    if j > 0 {
      PlacedInRow(g, m, p, i, j - 1);
      var h := Placed(g, m, p);
      assert h[i][j - 1] == At(h, Move(i, j - 1));
      assert g[i][j - 1] == At(g, Move(i, j - 1));
    }
  }

  lemma {:induction false} PlacedBefore(g: seq<seq<Mark>>, m: Move, p: Mark, i: int)
    requires IsGrid(g) && InRange(m) && At(g, m) == Empty && p != Empty
    requires 0 <= i <= 3
    ensures |EmptyBefore(Placed(g, m, p), i)| == |EmptyBefore(g, i)| - (if m.row < i then 1 else 0)
    decreases i
  {
    if i > 0 {
      PlacedBefore(g, m, p, i - 1);
      PlacedInRow(g, m, p, i - 1, 3);
    }
  }

  /**
   * Filling an empty cell with a mark leaves exactly one empty cell fewer:
   * the measure under which the search terminates.
   */
  lemma PlacedShrinks(g: seq<seq<Mark>>, m: Move, p: Mark)
    requires IsGrid(g) && InRange(m) && At(g, m) == Empty && p != Empty
    ensures EmptyCount(Placed(g, m, p)) == EmptyCount(g) - 1
  {
    PlacedBefore(g, m, p, 3);
  }

  // ---------------------------------------------------------------------
  // Counting marks
  // ---------------------------------------------------------------------

  /** The number of cells of `row` holding `m`. */
  function CountRow(row: seq<Mark>, m: Mark): nat {
    if row == [] then 0 else (if row[0] == m then 1 else 0) + CountRow(row[1..], m)
  }

  /** The number of cells of the grid holding `m`. */
  function Count(g: seq<seq<Mark>>, m: Mark): nat
    requires IsGrid(g)
  {
    CountRow(g[0], m) + CountRow(g[1], m) + CountRow(g[2], m)
  }

  lemma {:induction false} CountRowUpdate(row: seq<Mark>, j: int, p: Mark, m: Mark)
    requires 0 <= j < |row|
    ensures CountRow(row[j := p], m)
         == CountRow(row, m) - (if row[j] == m then 1 else 0) + (if p == m then 1 else 0)
    decreases |row|
  {
    if j > 0 {
      CountRowUpdate(row[1..], j - 1, p, m);
      assert row[j := p][1..] == row[1..][j - 1 := p];
    } else {
      assert row[j := p][1..] == row[1..];
    }
  }

  /**
   * Writing `p` into cell `mv` takes that cell from the count of the mark it
   * held and adds it to the count of `p`; every other count is unchanged.
   */
  lemma PlacedCount(g: seq<seq<Mark>>, mv: Move, p: Mark, m: Mark)
    requires IsGrid(g) && InRange(mv)
    ensures Count(Placed(g, mv, p), m)
         == Count(g, m) - (if At(g, mv) == m then 1 else 0) + (if p == m then 1 else 0)
  {
    CountRowUpdate(g[mv.row], mv.col, p, m);
  }
}
