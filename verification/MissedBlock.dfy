/**
 * A position where the search does not block the opponent's winning line.
 *
 *     X O X
 *     X O _
 *     O _ _
 *
 * X is to move and O threatens column 1 at (2,1). Searching (2,2) as the
 * third candidate, the MIN child gets the bound 0 and stops after its first
 * grandchild scores 0; that 0 then ties the best so far and, since an equal
 * score replaces the best move, (2,2) is returned. O then wins at (2,1).
 * The lemmas below evaluate the search tree node by node.
 */
module MissedBlock {
  import opened Grid
  import opened Search

  /** The position with X to move. */
  function Start(): (g: seq<seq<Mark>>)
    ensures IsGrid(g)
  {
    [[X, O, X], [X, O, Empty], [O, Empty, Empty]]
  }

  // The children of the root: X plays one of the three empty cells.
  function After12(): (g: seq<seq<Mark>>) ensures IsGrid(g) { Placed(Start(), Move(1, 2), X) }
  function After21(): (g: seq<seq<Mark>>) ensures IsGrid(g) { Placed(Start(), Move(2, 1), X) }
  function After22(): (g: seq<seq<Mark>>) ensures IsGrid(g) { Placed(Start(), Move(2, 2), X) }

  // O's replies that the search examines, and O's win after (2,2).
  function After12Then21(): (g: seq<seq<Mark>>) ensures IsGrid(g) { Placed(After12(), Move(2, 1), O) }
  function After12Then22(): (g: seq<seq<Mark>>) ensures IsGrid(g) { Placed(After12(), Move(2, 2), O) }
  function After21Then12(): (g: seq<seq<Mark>>) ensures IsGrid(g) { Placed(After21(), Move(1, 2), O) }
  function After21Then22(): (g: seq<seq<Mark>>) ensures IsGrid(g) { Placed(After21(), Move(2, 2), O) }
  function After22Then12(): (g: seq<seq<Mark>>) ensures IsGrid(g) { Placed(After22(), Move(1, 2), O) }
  function After22Then21(): (g: seq<seq<Mark>>) ensures IsGrid(g) { Placed(After22(), Move(2, 1), O) }

  // ---------------------------------------------------------------------
  // Scores
  // ---------------------------------------------------------------------

  /** A grid without a line and with an empty cell has no score yet. */
  lemma Open(g: seq<seq<Mark>>, m: Move)
    requires IsGrid(g) && InRange(m) && At(g, m) == Empty
    requires !Complete(g, 0) && !Complete(g, 1) && !Complete(g, 2) && !Complete(g, 3)
    requires !Complete(g, 4) && !Complete(g, 5) && !Complete(g, 6) && !Complete(g, 7)
    ensures Score(g, X).None?
  {
    assert g[m.row][m.col] == Empty;
  }

  /** A full grid without a line is a draw. */
  lemma FullDraw(g: seq<seq<Mark>>)
    requires IsGrid(g)
    requires g[0][0] != Empty && g[0][1] != Empty && g[0][2] != Empty
    requires g[1][0] != Empty && g[1][1] != Empty && g[1][2] != Empty
    requires g[2][0] != Empty && g[2][1] != Empty && g[2][2] != Empty
    requires !Complete(g, 0) && !Complete(g, 1) && !Complete(g, 2) && !Complete(g, 3)
    requires !Complete(g, 4) && !Complete(g, 5) && !Complete(g, 6) && !Complete(g, 7)
    ensures Score(g, X) == Some(0)
  {
    ScoreMeaning(g, X);
  }

  /** O completing column 1, with no row complete, scores -1 for X. */
  lemma ColumnOneLost(g: seq<seq<Mark>>)
    requires IsGrid(g) && g[0][1] == O && g[1][1] == O && g[2][1] == O
    requires !Complete(g, 0) && !Complete(g, 1) && !Complete(g, 2) && !Complete(g, 3)
    ensures Score(g, X) == Some(-1)
  {
    assert Complete(g, 4) && IsFirstLine(g, 4) && Owner(g, 4) == O;
    ScoreMeaning(g, X);
  }

  lemma After12Open() ensures Score(After12(), X).None? {
    var g := After12();
    Open(g, Move(2, 1));
  }

  lemma After21Open() ensures Score(After21(), X).None? {
    var g := After21();
    Open(g, Move(2, 2));
  }

  lemma After22Open() ensures Score(After22(), X).None? {
    var g := After22();
    Open(g, Move(2, 1));
  }

  lemma After12Then21Lost() ensures Score(After12Then21(), X) == Some(-1) {
    var g := After12Then21();
    ColumnOneLost(g);
  }

  lemma After12Then22Open() ensures Score(After12Then22(), X).None? {
    var g := After12Then22();
    Open(g, Move(2, 1));
  }

  lemma After21Then12Open() ensures Score(After21Then12(), X).None? {
    var g := After21Then12();
    Open(g, Move(2, 2));
  }

  lemma After21Then22Open() ensures Score(After21Then22(), X).None? {
    var g := After21Then22();
    Open(g, Move(1, 2));
  }

  lemma After22Then12Open() ensures Score(After22Then12(), X).None? {
    var g := After22Then12();
    Open(g, Move(2, 1));
  }

  /** After the computer's (2,2), O's reply at (2,1) completes column 1. */
  lemma After22Then21Lost() ensures Score(After22Then21(), X) == Some(-1) {
    var g := After22Then21();
    ColumnOneLost(g);
  }

  // ---------------------------------------------------------------------
  // One step of the search loop, for a concrete candidate
  // ---------------------------------------------------------------------

  /** Candidate `i` ends the game with score `s`: the loop goes on with the replacement. */
  lemma StepTerminal(g: seq<seq<Mark>>, role: Role, parentBest: Option<int>, i: nat, best: int,
                     bestMove: Option<Move>, move: Move, s: int)
    requires IsGrid(g) && i < |EmptySpots(g)| && EmptySpots(g)[i] == move
    requires Tracked(g, role, best, bestMove) && InRange(move) && At(g, move) == Empty && -1 <= s <= 1
    requires Score(Placed(g, move, Mover(role, X, O)), X) == Some(s)
    ensures var t := Replace(role, best, bestMove, s, move);
            && Tracked(g, role, t.0, t.1)
            && SearchMoves(g, role, X, O, parentBest, i, best, bestMove)
               == SearchMoves(g, role, X, O, parentBest, i + 1, t.0, t.1)
  {
    SearchStep(g, role, X, O, parentBest, i, best, bestMove);
    ExamineTerminal(g, role, X, O, parentBest, move, best, bestMove);
    ReplaceTracked(g, role, best, bestMove, s, move);
  }

  /**
   * Candidate `i` is searched and scores `c`: the loop stops with the
   * replacement when it reaches the bound, and goes on with it otherwise.
   */
  lemma StepSearched(g: seq<seq<Mark>>, role: Role, parentBest: Option<int>, i: nat, best: int,
                     bestMove: Option<Move>, move: Move, c: int)
    requires IsGrid(g) && i < |EmptySpots(g)| && EmptySpots(g)[i] == move
    requires Tracked(g, role, best, bestMove) && InRange(move) && At(g, move) == Empty && -1 <= c <= 1
    requires Score(Placed(g, move, Mover(role, X, O)), X).None?
    requires Minimax(Placed(g, move, Mover(role, X, O)), Flip(role), X, O, Some(best)).0 == c
    ensures var t := Replace(role, best, bestMove, c, move);
            && Tracked(g, role, t.0, t.1)
            && SearchMoves(g, role, X, O, parentBest, i, best, bestMove)
               == if ReachesBound(role, t.0, parentBest) then t
                  else SearchMoves(g, role, X, O, parentBest, i + 1, t.0, t.1)
  {
    SearchStep(g, role, X, O, parentBest, i, best, bestMove);
    ExamineSearched(g, role, X, O, parentBest, move, best, bestMove);
    ReplaceTracked(g, role, best, bestMove, c, move);
  }

  // ---------------------------------------------------------------------
  // Empty cells of the searched nodes
  // ---------------------------------------------------------------------

  lemma StartRows()
    ensures RowCells(Start(), 0) == [] && RowCells(Start(), 1) == [Move(1, 2)]
    ensures RowCells(Start(), 2) == [Move(2, 1), Move(2, 2)]
  {
  }

  lemma StartSpots() ensures EmptySpots(Start()) == [Move(1, 2), Move(2, 1), Move(2, 2)] {
    SpotsByCell(Start());
    StartRows();
  }

  lemma After12Rows()
    ensures RowCells(After12(), 0) == [] && RowCells(After12(), 1) == []
    ensures RowCells(After12(), 2) == [Move(2, 1), Move(2, 2)]
  {
  }

  lemma After12Spots() ensures EmptySpots(After12()) == [Move(2, 1), Move(2, 2)] {
    SpotsByCell(After12());
    After12Rows();
  }

  lemma After21Rows()
    ensures RowCells(After21(), 0) == [] && RowCells(After21(), 1) == [Move(1, 2)]
    ensures RowCells(After21(), 2) == [Move(2, 2)]
  {
  }

  lemma After21Spots() ensures EmptySpots(After21()) == [Move(1, 2), Move(2, 2)] {
    SpotsByCell(After21());
    After21Rows();
  }

  lemma After22Rows()
    ensures RowCells(After22(), 0) == [] && RowCells(After22(), 1) == [Move(1, 2)]
    ensures RowCells(After22(), 2) == [Move(2, 1)]
  {
  }

  lemma After22Spots() ensures EmptySpots(After22()) == [Move(1, 2), Move(2, 1)] {
    SpotsByCell(After22());
    After22Rows();
  }

  lemma After12Then22Rows()
    ensures RowCells(After12Then22(), 0) == [] && RowCells(After12Then22(), 1) == []
    ensures RowCells(After12Then22(), 2) == [Move(2, 1)]
  {
  }

  lemma After12Then22Spots() ensures EmptySpots(After12Then22()) == [Move(2, 1)] {
    SpotsByCell(After12Then22());
    After12Then22Rows();
  }

  lemma After21Then12Rows()
    ensures RowCells(After21Then12(), 0) == [] && RowCells(After21Then12(), 1) == []
    ensures RowCells(After21Then12(), 2) == [Move(2, 2)]
  {
  }

  lemma After21Then12Spots() ensures EmptySpots(After21Then12()) == [Move(2, 2)] {
    SpotsByCell(After21Then12());
    After21Then12Rows();
  }

  lemma After21Then22Rows()
    ensures RowCells(After21Then22(), 0) == [] && RowCells(After21Then22(), 1) == [Move(1, 2)]
    ensures RowCells(After21Then22(), 2) == []
  {
  }

  lemma After21Then22Spots() ensures EmptySpots(After21Then22()) == [Move(1, 2)] {
    SpotsByCell(After21Then22());
    After21Then22Rows();
  }

  lemma After22Then12Rows()
    ensures RowCells(After22Then12(), 0) == [] && RowCells(After22Then12(), 1) == []
    ensures RowCells(After22Then12(), 2) == [Move(2, 1)]
  {
  }

  lemma After22Then12Spots() ensures EmptySpots(After22Then12()) == [Move(2, 1)] {
    SpotsByCell(After22Then12());
    After22Then12Rows();
  }

  // ---------------------------------------------------------------------
  // Nodes with one cell left: X fills it and the game is drawn
  // ---------------------------------------------------------------------

  /** A MAX node whose single candidate draws returns score 0 and that candidate. */
  lemma LastCellDraw(g: seq<seq<Mark>>, parentBest: Option<int>, m: Move)
    requires IsGrid(g) && EmptySpots(g) == [m] && InRange(m) && At(g, m) == Empty
    requires Score(Placed(g, m, X), X) == Some(0)
    ensures Minimax(g, Max, X, O, parentBest) == (0, Some(m))
  {
    SearchStart(g, Max, X, O, parentBest);
    StepTerminal(g, Max, parentBest, 0, -2, None, m, 0);
    SearchDone(g, Max, X, O, parentBest, 0, Some(m));
  }

  lemma After12Then22Draw() ensures Score(Placed(After12Then22(), Move(2, 1), X), X) == Some(0) {
    FullDraw(Placed(After12Then22(), Move(2, 1), X));
  }

  lemma After21Then12Draw() ensures Score(Placed(After21Then12(), Move(2, 2), X), X) == Some(0) {
    FullDraw(Placed(After21Then12(), Move(2, 2), X));
  }

  lemma After21Then22Draw() ensures Score(Placed(After21Then22(), Move(1, 2), X), X) == Some(0) {
    FullDraw(Placed(After21Then22(), Move(1, 2), X));
  }

  lemma After22Then12Draw() ensures Score(Placed(After22Then12(), Move(2, 1), X), X) == Some(0) {
    FullDraw(Placed(After22Then12(), Move(2, 1), X));
  }

  lemma After12Then22Value(parentBest: Option<int>)
    ensures Minimax(After12Then22(), Max, X, O, parentBest) == (0, Some(Move(2, 1)))
  {
    After12Then22Spots();
    After12Then22Draw();
    LastCellDraw(After12Then22(), parentBest, Move(2, 1));
  }

  lemma After21Then12Value(parentBest: Option<int>)
    ensures Minimax(After21Then12(), Max, X, O, parentBest) == (0, Some(Move(2, 2)))
  {
    After21Then12Spots();
    After21Then12Draw();
    LastCellDraw(After21Then12(), parentBest, Move(2, 2));
  }

  lemma After21Then22Value(parentBest: Option<int>)
    ensures Minimax(After21Then22(), Max, X, O, parentBest) == (0, Some(Move(1, 2)))
  {
    After21Then22Spots();
    After21Then22Draw();
    LastCellDraw(After21Then22(), parentBest, Move(1, 2));
  }

  lemma After22Then12Value(parentBest: Option<int>)
    ensures Minimax(After22Then12(), Max, X, O, parentBest) == (0, Some(Move(2, 1)))
  {
    After22Then12Spots();
    After22Then12Draw();
    LastCellDraw(After22Then12(), parentBest, Move(2, 1));
  }

  // ---------------------------------------------------------------------
  // The MIN children of the root
  // ---------------------------------------------------------------------

  /** O wins at once at (2,1), and (2,2) only draws: MIN keeps -1. */
  lemma After12Value()
    ensures Minimax(After12(), Min, X, O, Some(-2)) == (-1, Some(Move(2, 1)))
  {
    var g := After12();
    After12Spots();
    After12Then21Lost();
    After12Then22Open();
    After12Then22Value(Some(-1));
    SearchStart(g, Min, X, O, Some(-2));
    StepTerminal(g, Min, Some(-2), 0, 2, None, Move(2, 1), -1);
    StepSearched(g, Min, Some(-2), 1, -1, Some(Move(2, 1)), Move(2, 2), 0);
    SearchDone(g, Min, X, O, Some(-2), -1, Some(Move(2, 1)));
  }

  /** Both of O's replies draw; the later one is kept. */
  lemma After21Value()
    ensures Minimax(After21(), Min, X, O, Some(-1)) == (0, Some(Move(2, 2)))
  {
    var g := After21();
    After21Spots();
    After21Then12Open();
    After21Then12Value(Some(2));
    After21Then22Open();
    After21Then22Value(Some(0));
    SearchStart(g, Min, X, O, Some(-1));
    StepSearched(g, Min, Some(-1), 0, 2, None, Move(1, 2), 0);
    StepSearched(g, Min, Some(-1), 1, 0, Some(Move(1, 2)), Move(2, 2), 0);
    SearchDone(g, Min, X, O, Some(-1), 0, Some(Move(2, 2)));
  }

  /**
   * The bound 0 is reached after the first reply, so O's win at (2,1) is
   * never examined.
   */
  lemma After22Value()
    ensures Minimax(After22(), Min, X, O, Some(0)) == (0, Some(Move(1, 2)))
  {
    var g := After22();
    After22Spots();
    After22Then12Open();
    After22Then12Value(Some(2));
    SearchStart(g, Min, X, O, Some(0));
    StepSearched(g, Min, Some(0), 0, 2, None, Move(1, 2), 0);
  }

  // ---------------------------------------------------------------------
  // The root
  // ---------------------------------------------------------------------

  /** First candidate (1,2): its MIN child scores -1, which replaces the sentinel. */
  lemma StartFirst()
    ensures SearchMoves(Start(), Max, X, O, None, 0, -2, None)
         == SearchMoves(Start(), Max, X, O, None, 1, -1, Some(Move(1, 2)))
  {
    StartSpots();
    After12Open();
    After12Value();
    StepSearched(Start(), Max, None, 0, -2, None, Move(1, 2), -1);
  }

  /** Second candidate (2,1), the block: its MIN child scores 0, which replaces -1. */
  lemma StartSecond()
    ensures SearchMoves(Start(), Max, X, O, None, 1, -1, Some(Move(1, 2)))
         == SearchMoves(Start(), Max, X, O, None, 2, 0, Some(Move(2, 1)))
  {
    StartSpots();
    After21Open();
    After21Value();
    StepSearched(Start(), Max, None, 1, -1, Some(Move(1, 2)), Move(2, 1), 0);
  }

  /** Third candidate (2,2): its cut-off MIN child also scores 0, and the tie replaces (2,1). */
  lemma StartThird()
    ensures SearchMoves(Start(), Max, X, O, None, 2, 0, Some(Move(2, 1))) == (0, Some(Move(2, 2)))
  {
    StartSpots();
    After22Open();
    After22Value();
    StepSearched(Start(), Max, None, 2, 0, Some(Move(2, 1)), Move(2, 2), 0);
    SearchDone(Start(), Max, X, O, None, 0, Some(Move(2, 2)));
  }

  /** The search from the start returns (2,2) with score 0. */
  lemma SearchPicksCorner()
    ensures Minimax(Start(), Max, X, O, None) == (0, Some(Move(2, 2)))
  {
    SearchStart(Start(), Max, X, O, None);
    StartFirst();
    StartSecond();
    StartThird();
  }

  /**
   * The computer's move from the start leaves O a winning cell: after X at
   * (2,2), O at (2,1) completes column 1, which X's other candidate (2,1)
   * would have blocked.
   */
  lemma SearchMissesBlock()
    ensures var m := Minimax(Start(), Max, X, O, None).1;
            && m == Some(Move(2, 2))
            && Score(Placed(Placed(Start(), m.value, X), Move(2, 1), O), X) == Some(-1)
  {
    SearchPicksCorner();
    After22Then21Lost();
  }
}
