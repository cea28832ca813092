/**
 * What the search promises beyond the shape of its result: every child that
 * ends the game is accounted for unless a cutoff ended the loop, the
 * searching side takes a winning move when it has one, and among equal
 * scores the later candidate is kept.
 */
module SearchFacts {
  import opened Grid
  import opened Search

  /** The grid after candidate `move` is played from a node of role `role`. */
  function Child(g: seq<seq<Mark>>, role: Role, me: Mark, opponent: Mark, move: Move): (h: seq<seq<Mark>>)
    requires IsGrid(g) && move in EmptySpots(g)
    ensures IsGrid(h) && At(h, move) == Mover(role, me, opponent)
  {
    Placed(g, move, Mover(role, me, opponent))
  }

  /**
   * One examined candidate: a child that ends the game is scored directly
   * and never stops the loop; a child that does not is searched with the
   * current best as its bound, and its result replaces the best when it is
   * at least as good. The loop stops after a searched child exactly when the
   * best score then reaches the parent's bound.
   */
  lemma ExamineOutcome(g: seq<seq<Mark>>, role: Role, me: Mark, opponent: Mark, parentBest: Option<int>,
                       move: Move, best: int, bestMove: Option<Move>)
    requires IsGrid(g) && me != Empty && opponent != Empty
    requires move in EmptySpots(g) && Tracked(g, role, best, bestMove)
    ensures var e := Examine(g, role, me, opponent, parentBest, move, best, bestMove);
            var s := Score(Child(g, role, me, opponent, move), me);
            && (s.Some? ==> !e.2 && Improves(role, s.value, e.0))
            && (s.Some? && Improves(role, best, s.value) ==> e.0 == s.value && e.1 == Some(move))
            && (e.2 ==> ReachesBound(role, e.0, parentBest))
            && (s.None? ==> (e.2 <==> ReachesBound(role, e.0, parentBest)))
            && (s.None? ==>
                  var c := Minimax(Child(g, role, me, opponent, move), Flip(role), me, opponent, Some(best)).0;
                  && Improves(role, c, e.0)
                  && (Improves(role, best, c) ==> e.0 == c && e.1 == Some(move)))
  {
    if Score(Child(g, role, me, opponent, move), me).Some? {
      ExamineTerminal(g, role, me, opponent, parentBest, move, best, bestMove);
    } else {
      ExamineSearched(g, role, me, opponent, parentBest, move, best, bestMove);
    }
  }

  /**
   * Without a bound, as at the top level of the computer's move, no
   * candidate stops the loop: each step goes on to the next candidate.
   */
  lemma NoBoundNoCutoff(g: seq<seq<Mark>>, role: Role, me: Mark, opponent: Mark, i: nat, best: int,
                        bestMove: Option<Move>)
    requires IsGrid(g) && me != Empty && opponent != Empty
    requires i < |EmptySpots(g)| && Tracked(g, role, best, bestMove)
    ensures var e := Examine(g, role, me, opponent, None, EmptySpots(g)[i], best, bestMove);
            && !e.2
            && SearchMoves(g, role, me, opponent, None, i, best, bestMove)
               == SearchMoves(g, role, me, opponent, None, i + 1, e.0, e.1)
  {
    SearchStep(g, role, me, opponent, None, i, best, bestMove);
    ExamineOutcome(g, role, me, opponent, None, EmptySpots(g)[i], best, bestMove);
  }

  /**
   * Every candidate from index `k` on whose child ends the game is matched or
   * beaten by the result, unless the result reached the parent's bound (a
   * cutoff, which may have ended the loop before candidate `k`). With no
   * bound, as at the top level, the loop therefore examines every candidate.
   */
  lemma {:induction false} TerminalChildrenCounted(g: seq<seq<Mark>>, role: Role, me: Mark, opponent: Mark,
                                                   parentBest: Option<int>, i: nat, best: int,
                                                   bestMove: Option<Move>, k: int)
    requires IsGrid(g) && me != Empty && opponent != Empty
    requires i <= k < |EmptySpots(g)| && Tracked(g, role, best, bestMove)
    requires Score(Child(g, role, me, opponent, EmptySpots(g)[k]), me).Some?
    ensures var r := SearchMoves(g, role, me, opponent, parentBest, i, best, bestMove);
            || Improves(role, Score(Child(g, role, me, opponent, EmptySpots(g)[k]), me).value, r.0)
            || ReachesBound(role, r.0, parentBest)
    decreases |EmptySpots(g)| - i
  {
    var spots := EmptySpots(g);
    var e := Examine(g, role, me, opponent, parentBest, spots[i], best, bestMove);
    SearchStep(g, role, me, opponent, parentBest, i, best, bestMove);
    ExamineOutcome(g, role, me, opponent, parentBest, spots[i], best, bestMove);
    if !e.2 {
      if k == i {
        var r := SearchMoves(g, role, me, opponent, parentBest, i + 1, e.0, e.1);
        assert Improves(role, e.0, r.0);
      } else {
        TerminalChildrenCounted(g, role, me, opponent, parentBest, i + 1, e.0, e.1, k);
      }
    }
  }

  /**
   * The tie-break: when a candidate whose child ends the game scores exactly
   * the result, the returned move is that candidate or a later one, unless a
   * cutoff was reached. A later equal score replaces an earlier one.
   */
  lemma {:induction false} LaterTieKept(g: seq<seq<Mark>>, role: Role, me: Mark, opponent: Mark,
                                        parentBest: Option<int>, i: nat, best: int,
                                        bestMove: Option<Move>, k: int)
    requires IsGrid(g) && me != Empty && opponent != Empty
    requires i <= k < |EmptySpots(g)| && Tracked(g, role, best, bestMove)
    requires Score(Child(g, role, me, opponent, EmptySpots(g)[k]), me)
          == Some(SearchMoves(g, role, me, opponent, parentBest, i, best, bestMove).0)
    ensures var r := SearchMoves(g, role, me, opponent, parentBest, i, best, bestMove);
            || (r.1.Some? && r.1.value in EmptySpots(g)[k..])
            || ReachesBound(role, r.0, parentBest)
    decreases |EmptySpots(g)| - i
  {
    var spots := EmptySpots(g);
    var e := Examine(g, role, me, opponent, parentBest, spots[i], best, bestMove);
    SearchStep(g, role, me, opponent, parentBest, i, best, bestMove);
    ExamineOutcome(g, role, me, opponent, parentBest, spots[i], best, bestMove);
    if !e.2 {
      var r := SearchMoves(g, role, me, opponent, parentBest, i + 1, e.0, e.1);
      if k == i {
        assert Improves(role, best, e.0) && Improves(role, e.0, r.0);
        assert e.1 == Some(spots[i]);
        assert r.1 == e.1 || r.1.value in spots[i + 1..];
      } else {
        LaterTieKept(g, role, me, opponent, parentBest, i + 1, e.0, e.1, k);
      }
    }
  }

  /**
   * On a grid without a line, a move that completes a line for the mover
   * ends the game in the mover's favour.
   */
  lemma WinningMoveScores(g: seq<seq<Mark>>, move: Move, me: Mark)
    requires IsGrid(g) && NoLine(g) && move in EmptySpots(g) && me != Empty
    requires HasLine(Placed(g, move, me), me)
    ensures Score(Placed(g, move, me), me) == Some(1)
  {
    var h := Placed(g, move, me);
    var w := IsFinished(h).1;
    var k0 :| 0 <= k0 < 8 && Complete(h, k0) && Owner(h, k0) == me;
    assert !NoLine(h);
    var k :| IsFirstLine(h, k) && Owner(h, k) == w.value;
    PlacedLinesOwnedByMover(g, move, me, k);
  }

  /**
   * At a MAX node searched without a bound, as at the top level of the
   * computer's move, a cell that completes a line of the searching side's
   * mark makes the returned score 1, the best there is.
   */
  lemma MaxTakesWin(g: seq<seq<Mark>>, me: Mark, opponent: Mark, move: Move)
    requires IsGrid(g) && me != Empty && opponent != Empty && NoLine(g)
    requires move in EmptySpots(g) && HasLine(Placed(g, move, me), me)
    ensures Minimax(g, Max, me, opponent, None).0 == 1
  {
    var spots := EmptySpots(g);
    var k :| 0 <= k < |spots| && spots[k] == move;
    WinningMoveScores(g, move, me);
    SearchStart(g, Max, me, opponent, None);
    TerminalChildrenCounted(g, Max, me, opponent, None, 0, Sentinel(Max), None, k);
  }

  /**
   * A position with two winning cells for X, (0,2) and (2,0): the search
   * returns the later of the two.
   */
  function TwoWins(): (g: seq<seq<Mark>>)
    ensures IsGrid(g)
  {
    [[X, X, Empty], [X, O, O], [Empty, O, O]]
  }

  lemma TwoWinsSpots()
    ensures EmptySpots(TwoWins()) == [Move(0, 2), Move(2, 0)]
  {
    var g := TwoWins();
    assert EmptyInRow(g, 0, 3) == [Move(0, 2)];
    assert EmptyInRow(g, 1, 3) == [];
    assert EmptyInRow(g, 2, 3) == [Move(2, 0)];
  }

  lemma TwoWinsOpen()
    ensures NoLine(TwoWins())
  {
    var g := TwoWins();
    assert !Complete(g, 0) && !Complete(g, 1) && !Complete(g, 2) && !Complete(g, 3);
    assert !Complete(g, 4) && !Complete(g, 5) && !Complete(g, 6) && !Complete(g, 7);
  }

  lemma TwoWinsColumn()
    ensures HasLine(Placed(TwoWins(), Move(2, 0), X), X)
  {
    assert Complete(Placed(TwoWins(), Move(2, 0), X), 3);
  }

  lemma TwoWinsLaterMove()
    ensures Minimax(TwoWins(), Max, X, O, None) == (1, Some(Move(2, 0)))
  {
    var g := TwoWins();
    TwoWinsSpots();
    TwoWinsOpen();
    TwoWinsColumn();
    MaxTakesWin(g, X, O, Move(2, 0));
    WinningMoveScores(g, Move(2, 0), X);
    SearchStart(g, Max, X, O, None);
    assert Child(g, Max, X, O, EmptySpots(g)[1]) == Placed(g, Move(2, 0), X);
    LaterTieKept(g, Max, X, O, None, 0, Sentinel(Max), None, 1);
  }

  /** X to move with (0,2) completing the top row; O threatens the middle row. */
  function TopRowOpen(): (g: seq<seq<Mark>>)
    ensures IsGrid(g)
  {
    [[X, X, Empty], [O, O, Empty], [Empty, Empty, Empty]]
  }

  lemma TopRowOpenNoLine()
    ensures NoLine(TopRowOpen())
  {
    var g := TopRowOpen();
    assert !Complete(g, 0) && !Complete(g, 1) && !Complete(g, 2) && !Complete(g, 3);
    assert !Complete(g, 4) && !Complete(g, 5) && !Complete(g, 6) && !Complete(g, 7);
  }

  lemma TopRowOpenWins()
    ensures Minimax(TopRowOpen(), Max, X, O, None).0 == 1
  {
    var g := TopRowOpen();
    TopRowOpenNoLine();
    assert Complete(Placed(g, Move(0, 2), X), 0);
    assert At(g, Move(0, 2)) == Empty;
    MaxTakesWin(g, X, O, Move(0, 2));
  }
}
