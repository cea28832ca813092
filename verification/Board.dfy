/**
 * The board object: a grid that `UpdateBoard` changes in place. Creating a
 * board copies the grid it is given, so two boards never share cells.
 */
module Boards {
  import opened Grid

  class Board {
    var values: seq<seq<Mark>>

    ghost predicate Valid()
      reads this
    {
      IsGrid(values)
    }

    /** A new board holding a copy of `board`. */
    constructor (board: seq<seq<Mark>>)
      requires IsGrid(board)
      ensures Valid() && values == board
    {
      values := board;
    }

    /**
     * Writes `peace` into the cell `move` when that cell is empty; otherwise
     * reports the occupied cell (`ok` is false) and changes nothing.
     */
    method UpdateBoard(move: Move, peace: Mark) returns (ok: bool)
      requires Valid() && InRange(move)
      modifies this
      ensures Valid()
      ensures ok <==> At(old(values), move) == Empty
      ensures ok ==> values == Placed(old(values), move, peace)
      ensures !ok ==> values == old(values)
    {
      if values[move.row][move.col] == Empty {
        values := values[move.row := values[move.row][move.col := peace]];
        ok := true;
      } else {
        ok := false;
      }
    }

    /** The empty cells, collected row by row and left to right. */
    method GetEmptySpots() returns (lst: seq<Move>)
      requires Valid()
      ensures lst == EmptySpots(values)
    {
      lst := [];
      var i := 0;
      while i < 3
        invariant 0 <= i <= 3
        invariant lst == EmptyBefore(values, i)
      {
        var j := 0;
        while j < 3
          invariant 0 <= j <= 3
          invariant lst == EmptyBefore(values, i) + EmptyInRow(values, i, j)
        {
          ghost var row := EmptyInRow(values, i, j + 1);
          assert row == EmptyInRow(values, i, j) + if values[i][j] == Empty then [Move(i, j)] else [];
          if values[i][j] == Empty {
            lst := lst + [Move(i, j)];
          }
          j := j + 1;
        }
        assert EmptyBefore(values, i + 1) == EmptyBefore(values, i) + EmptyInRow(values, i, 3);
        i := i + 1;
      }
    }
  }
}
