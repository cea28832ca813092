/**
 * The game object: the shared board, the two players and the mark of the
 * winner, with one turn of the game loop and the loop itself. Where a move
 * comes from is the player's business: the computer searches, a human's
 * moves are given in order.
 */
module Game {
  import opened Grid
  import opened Boards
  import opened Search

  /** Two players with different marks, neither of them empty (X and O). */
  predicate Seated(players: seq<Player>) {
    && |players| == 2
    && players[0].peace != Empty && players[1].peace != Empty
    && players[0].peace != players[1].peace
  }

  lemma SeatedMark(players: seq<Player>, p: Player)
    requires Seated(players) && p in players
    ensures p.peace != Empty
  {
    assert p == players[0] || p == players[1];
  }

  /** The player other than `current`: `players[1 - players.index(current)]`. */
  function Opponent(players: seq<Player>, current: Player): (p: Player)
    requires Seated(players) && current in players
    ensures p in players && p.peace != current.peace && p.peace != Empty
    ensures p == players[0] || current == players[0]
  {
    if players[0] == current then players[1] else players[0]
  }

  /**
   * The marks on the board show strict alternation from `first`: `first`
   * has as many marks as the other player when it is `first`'s turn, and one
   * more otherwise.
   */
  predicate Alternating(players: seq<Player>, first: Player, g: seq<seq<Mark>>, current: Player)
    requires Seated(players) && first in players && IsGrid(g)
  {
    Count(g, first.peace) == Count(g, Opponent(players, first).peace) + (if current == first then 0 else 1)
  }

  /**
   * An accepted move keeps the players alternating: after `current` moves,
   * `first` is ahead by one exactly when the other player is to move.
   */
  lemma TurnsAlternate(players: seq<Player>, first: Player, g: seq<seq<Mark>>, move: Move, current: Player)
    requires Seated(players) && first in players && current in players
    requires IsGrid(g) && InRange(move) && At(g, move) == Empty
    requires Alternating(players, first, g, current)
    ensures Alternating(players, first, Placed(g, move, current.peace), Opponent(players, current))
  {
    PlacedCount(g, move, current.peace, first.peace);
    PlacedCount(g, move, current.peace, Opponent(players, first).peace);
  }

  /**
   * What one turn does to the alternation and to the number of empty cells:
   * an accepted move passes the turn and fills a cell, a rejected one changes
   * nothing.
   */
  lemma TurnOutcome(players: seq<Player>, first: Player, before: seq<seq<Mark>>, after: seq<seq<Mark>>,
                    move: Move, mover: Player, next: Player)
    requires Seated(players) && first in players && mover in players && IsGrid(before) && InRange(move)
    requires Alternating(players, first, before, mover)
    requires At(before, move) == Empty ==> after == Placed(before, move, mover.peace) && next == Opponent(players, mover)
    requires At(before, move) != Empty ==> after == before && next == mover
    ensures IsGrid(after) && next in players && Alternating(players, first, after, next)
    ensures At(before, move) == Empty ==> Count(after, Empty) < Count(before, Empty)
  {
    if At(before, move) == Empty {
      SeatedMark(players, mover);
      PlacedCount(before, move, mover.peace, Empty);
      TurnsAlternate(players, first, before, move, mover);
    }
  }

  class TicTacToe {
    const board: Board
    const players: seq<Player>
    var winnerPeace: Option<Mark>

    ghost predicate Valid()
      reads board
    {
      board.Valid() && Seated(players)
    }

    /** A game on an empty board; nobody has won yet. */
    constructor (players: seq<Player>)
      requires Seated(players)
      ensures Valid() && fresh(board)
      ensures board.values == EmptyGrid() && this.players == players && winnerPeace == None
    {
      board := new Board(EmptyGrid());
      this.players := players;
      winnerPeace := None;
    }

    /** Asks the board whether the game is over and records the winner's mark. */
    method IsFinished() returns (finished: bool)
      requires Valid()
      modifies this`winnerPeace
      ensures (finished, winnerPeace) == Grid.IsFinished(board.values)
    {
      var (f, w) := Grid.IsFinished(board.values);
      finished, winnerPeace := f, w;
    }

    /**
     * One turn: `current` plays `move`. A move onto an occupied cell is
     * rejected and the same player moves again; otherwise the mark is written
     * and the turn passes to the other player.
     */
    method Turn(current: Player, move: Move) returns (next: Player)
      requires Valid() && current in players && InRange(move)
      modifies board
      ensures Valid()
      ensures At(old(board.values), move) == Empty
          ==> board.values == Placed(old(board.values), move, current.peace) && next == Opponent(players, current)
      ensures At(old(board.values), move) != Empty ==> board.values == old(board.values) && next == current
    {
      var ok := board.UpdateBoard(move, current.peace);
      if !ok {
        next := current;
        return;
      }
      next := Opponent(players, current);
    }

    /**
     * The move of the player to move on a game that is not over: the human's
     * input as given, or the computer's search result, which is then one of
     * the empty cells.
     */
    method NextMove(current: Player, input: Option<Move>) returns (move: Option<Move>)
      requires Valid() && current in players && !Grid.IsFinished(board.values).0
      requires input.Some? ==> InRange(input.value)
      ensures current.kind == Human ==> move == input
      ensures current.kind == AI ==> move.Some? && InRange(move.value) && At(board.values, move.value) == Empty
      ensures move.Some? ==> InRange(move.value)
    {
      SeatedMark(players, current);
      move := MakeMove(current, board, Opponent(players, current), input);
    }

    /**
     * The game loop from an empty board with `first` to move. The computer
     * moves by searching; human moves are taken from `humanMoves` in order,
     * and the loop also ends when a human is to move and none are left.
     * Players alternate: `first` has made as many moves as the other player,
     * or one more when the other player is to move.
     */
    method Run(first: Player, humanMoves: seq<Move>) returns (finished: bool, current: Player)
      requires Valid() && first in players && board.values == EmptyGrid()
      requires forall m :: m in humanMoves ==> InRange(m)
      modifies this`winnerPeace, board
      ensures Valid() && current in players
      ensures finished ==> Grid.IsFinished(board.values) == (true, winnerPeace)
      ensures !finished ==> current.kind == Human
      ensures Alternating(players, first, board.values, current)
    {
      current := first;
      var next := 0;
      assert Count(EmptyGrid(), first.peace) == 0 == Count(EmptyGrid(), Opponent(players, first).peace);
      finished := IsFinished();
      while !finished
        invariant Valid() && current in players && 0 <= next <= |humanMoves|
        invariant (finished, winnerPeace) == Grid.IsFinished(board.values)
        invariant Alternating(players, first, board.values, current)
        decreases Count(board.values, Empty), |humanMoves| - next
      {
        var input := if next < |humanMoves| then Some(humanMoves[next]) else None;
        assert input.Some? ==> input.value in humanMoves;
        var move := NextMove(current, input);
        if move.None? {
          return;
        }
        if current.kind == Human {
          next := next + 1;
        }
        ghost var before, mover := board.values, current;
        current := Turn(current, move.value);
        TurnOutcome(players, first, before, board.values, move.value, mover, current);
        finished := IsFinished();
      }
    }
  }
}
