/**
 * Players, game-tree nodes and the minimax search with cutoffs.
 *
 * `Minimax` and `SearchMoves` define, as functions over grid values, what the
 * search computes: `SearchMoves` is the loop over the candidate moves, one
 * call per iteration. `Think` is the search as the program runs it, on board
 * objects, and is proved to return exactly what `Minimax` defines.
 */
module Search {
  import opened Grid
  import opened Boards

  datatype Kind = Human | AI

  /** A player: its kind, its name and the mark it plays ("peace"). */
  datatype Player = Player(kind: Kind, name: string, peace: Mark)

  /** Max: the searching player moves next from the node; Min: the opponent does. */
  datatype Role = Min | Max

  /**
   * The score of a grid from the point of view of the player with mark
   * `peace`: 1 when that mark owns the first complete line, -1 when another
   * mark does, 0 for a draw, and no score while the game is on.
   */
  function Score(g: seq<seq<Mark>>, peace: Mark): (r: Option<int>)
    requires IsGrid(g)
    ensures r.Some? ==> -1 <= r.value <= 1
    ensures r.None? <==> NoLine(g) && HasEmpty(g)
  {
    var (finished, winner) := IsFinished(g);
    if finished then
      if winner.None? then Some(0)
      else if winner.value == peace then Some(1)
      else Some(-1)
    else
      None
  }

  /**
   * What each score means: a draw is a full grid without a line, and 1 or
   * -1 say whether `peace` owns the first complete line.
   */
  lemma ScoreMeaning(g: seq<seq<Mark>>, peace: Mark)
    requires IsGrid(g)
    ensures Score(g, peace) == Some(0) <==> NoLine(g) && !HasEmpty(g)
    ensures Score(g, peace) == Some(1) <==> exists k :: IsFirstLine(g, k) && Owner(g, k) == peace
    ensures Score(g, peace) == Some(-1) <==> exists k :: IsFirstLine(g, k) && Owner(g, k) != peace
  {
    var w := IsFinished(g).1;
    if w.Some? {
      var k :| IsFirstLine(g, k) && Owner(g, k) == w.value;
      forall k' | IsFirstLine(g, k') ensures Owner(g, k') == w.value {
        FirstLineUnique(g, k, k');
      }
    }
  }

  /** A searched position: a board, its role, and its score once computed. */
  class GameNode {
    const board: Board
    const minOrMax: Role
    var score: Option<int>

    ghost predicate Valid()
      reads board
    {
      board.Valid()
    }

    constructor (boardState: Board, role: Role)
      ensures board == boardState && minOrMax == role && score == None
    {
      board := boardState;
      minOrMax := role;
      score := None;
    }

    method CalculateScore(player: Player)
      requires Valid()
      modifies this`score
      ensures score == Score(board.values, player.peace)
    {
      var (boardResult, winnerPeace) := IsFinished(board.values);
      if boardResult {
        if winnerPeace.None? {
          score := Some(0);
        } else if winnerPeace.value == player.peace {
          score := Some(1);
        } else {
          score := Some(-1);
        }
      } else {
        score := None;
      }
    }
  }

  // ---------------------------------------------------------------------
  // The search, as functions
  // ---------------------------------------------------------------------

  /** The starting best score: worse than any real score for the role. */
  function Sentinel(role: Role): int {
    if role == Min then 2 else -2
  }

  function Flip(role: Role): Role {
    if role == Max then Min else Max
  }

  /** The mark played from a node of this role. */
  function Mover(role: Role, me: Mark, opponent: Mark): Mark {
    if role == Max then me else opponent
  }

  /**
   * The replacement rule: at a MAX node a score replaces `best` when it is
   * at least `best`, at a MIN node when it is at most `best`.
   */
  predicate Improves(role: Role, best: int, s: int) {
    if role == Max then best <= s else best >= s
  }

  /** The cutoff rule: a bound is given and `best` has reached it. */
  predicate ReachesBound(role: Role, best: int, bound: Option<int>) {
    bound.Some? && Improves(role, bound.value, best)
  }

  /**
   * The state of the search loop: still the sentinel and no move, or a real
   * score and one of the grid's empty cells.
   */
  predicate Tracked(g: seq<seq<Mark>>, role: Role, best: int, bestMove: Option<Move>)
    requires IsGrid(g)
  {
    || (bestMove.None? && best == Sentinel(role))
    || (bestMove.Some? && bestMove.value in EmptySpots(g) && -1 <= best <= 1)
  }

  /**
   * The `(best score, best move)` the search returns for a node with grid
   * `g` and role `role`, searching for mark `me` against `opponent`, under
   * the parent's bound `parentBest`.
   */
  function Minimax(g: seq<seq<Mark>>, role: Role, me: Mark, opponent: Mark, parentBest: Option<int>)
    : (r: (int, Option<Move>))
    requires IsGrid(g) && me != Empty && opponent != Empty
    ensures EmptySpots(g) == [] ==> r == (Sentinel(role), None)
    ensures EmptySpots(g) != [] ==> -1 <= r.0 <= 1 && r.1.Some? && r.1.value in EmptySpots(g)
    decreases EmptyCount(g), 1
  {
    SearchMoves(g, role, me, opponent, parentBest, 0, Sentinel(role), None)
  }

  /** The replacement rule applied to the score `s` of candidate `move`. */
  function Replace(role: Role, best: int, bestMove: Option<Move>, s: int, move: Move): (r: (int, Option<Move>))
    ensures Improves(role, best, r.0) && Improves(role, s, r.0)
    ensures r.1 == bestMove || r.1 == Some(move)
  {
    if Improves(role, best, s) then (s, Some(move)) else (best, bestMove)
  }

  /**
   * What a replacement yields: the new best is the larger score at a MAX
   * node and the smaller at a MIN node; the candidate's move is taken when
   * its score is strictly better and also when it ties, so of equal scores
   * the later candidate wins; a strictly worse score keeps the old move.
   */
  lemma ReplaceRule(role: Role, best: int, bestMove: Option<Move>, s: int, move: Move)
    ensures var r := Replace(role, best, bestMove, s, move);
            && r.0 == (if role == Max then (if s > best then s else best) else (if s < best then s else best))
            && (s == best ==> r == (s, Some(move)))
            && ((role == Max && s > best) || (role == Min && s < best) ==> r.1 == Some(move))
            && ((role == Max && s < best) || (role == Min && s > best) ==> r.1 == bestMove)
  {
  }

  /** Replacing by a real score keeps the loop state well formed. */
  lemma ReplaceTracked(g: seq<seq<Mark>>, role: Role, best: int, bestMove: Option<Move>, s: int, move: Move)
    requires IsGrid(g) && Tracked(g, role, best, bestMove) && move in EmptySpots(g) && -1 <= s <= 1
    ensures Tracked(g, role, Replace(role, best, bestMove, s, move).0, Replace(role, best, bestMove, s, move).1)
    ensures Replace(role, best, bestMove, s, move).1.Some?
  {
  }

  /**
   * One iteration of the loop: play `move` on a copy of `g`, score the child,
   * search it when it is not terminal, and say whether to stop (the cutoff).
   */
  function Examine(g: seq<seq<Mark>>, role: Role, me: Mark, opponent: Mark, parentBest: Option<int>,
                   move: Move, best: int, bestMove: Option<Move>): (r: (int, Option<Move>, bool))
    requires IsGrid(g) && me != Empty && opponent != Empty
    requires move in EmptySpots(g) && Tracked(g, role, best, bestMove)
    ensures Tracked(g, role, r.0, r.1) && r.1.Some?
    ensures Improves(role, best, r.0)
    ensures r.1 == bestMove || r.1 == Some(move)
    decreases EmptyCount(g), 0, 0
  {
    ChildFacts(g, move, Mover(role, me, opponent), me);
    var child := Placed(g, move, Mover(role, me, opponent));
    var s := Score(child, me);
    if s.Some? then
      ReplaceTracked(g, role, best, bestMove, s.value, move);
      var t := Replace(role, best, bestMove, s.value, move);
      (t.0, t.1, false)
    else
      var childScore := Minimax(child, Flip(role), me, opponent, Some(best)).0;
      ReplaceTracked(g, role, best, bestMove, childScore, move);
      var t := Replace(role, best, bestMove, childScore, move);
      (t.0, t.1, ReachesBound(role, t.0, parentBest))
  }

  /**
   * Playing a candidate move: the child has one empty cell fewer, and a
   * child with no score yet still has a cell to play.
   */
  lemma ChildFacts(g: seq<seq<Mark>>, move: Move, p: Mark, me: Mark)
    requires IsGrid(g) && move in EmptySpots(g) && p != Empty
    ensures InRange(move) && At(g, move) == Empty
    ensures EmptyCount(Placed(g, move, p)) == EmptyCount(g) - 1
    ensures Score(Placed(g, move, p), me).None? ==> EmptySpots(Placed(g, move, p)) != []
  {
    PlacedShrinks(g, move, p);
  }

  /**
   * The loop over the candidate moves from index `i` on, with the best score
   * and move found so far.
   */
  function SearchMoves(g: seq<seq<Mark>>, role: Role, me: Mark, opponent: Mark, parentBest: Option<int>,
                       i: nat, best: int, bestMove: Option<Move>): (r: (int, Option<Move>))
    requires IsGrid(g) && me != Empty && opponent != Empty
    requires i <= |EmptySpots(g)| && Tracked(g, role, best, bestMove)
    ensures Tracked(g, role, r.0, r.1)
    ensures i < |EmptySpots(g)| ==> r.1.Some?
    ensures Improves(role, best, r.0)
    ensures r.1 == bestMove || (r.1.Some? && r.1.value in EmptySpots(g)[i..])
    decreases EmptyCount(g), 0, |EmptySpots(g)| - i
  {
    var spots := EmptySpots(g);
    if i == |spots| then (best, bestMove)
    else
      var (b, m, stop) := Examine(g, role, me, opponent, parentBest, spots[i], best, bestMove);
      if stop then (b, m)
      else SearchMoves(g, role, me, opponent, parentBest, i + 1, b, m)
  }

  // ---------------------------------------------------------------------
  // The search, as the program runs it
  // ---------------------------------------------------------------------

  /**
   * The minimax search from `currentNode` on behalf of `self`. Every
   * candidate is played on a fresh copy of the node's board, so the method
   * changes no object that existed before the call.
   */
  method Think(self: Player, currentNode: GameNode, opponent: Player, parentBest: Option<int>)
    returns (bestScore: int, bestMove: Option<Move>)
    requires currentNode.Valid()
    requires self.peace != Empty && opponent.peace != Empty
    ensures (bestScore, bestMove)
         == Minimax(currentNode.board.values, currentNode.minOrMax, self.peace, opponent.peace, parentBest)
    decreases EmptyCount(currentNode.board.values), 1
  {
    ghost var g := currentNode.board.values;
    ghost var role := currentNode.minOrMax;
    ghost var result := Minimax(g, role, self.peace, opponent.peace, parentBest);
    bestMove := None;
    bestScore := Sentinel(currentNode.minOrMax);
    var possibleMoves := currentNode.board.GetEmptySpots();
    SearchStart(g, role, self.peace, opponent.peace, parentBest);
    var i := 0;
    while i < |possibleMoves|
      invariant 0 <= i <= |possibleMoves| && possibleMoves == EmptySpots(g)
      invariant currentNode.board.values == g
      invariant Tracked(g, role, bestScore, bestMove)
      invariant SearchMoves(g, role, self.peace, opponent.peace, parentBest, i, bestScore, bestMove) == result
    {
      ghost var b0, m0 := bestScore, bestMove;
      var stop;
      bestScore, bestMove, stop := TryMove(self, currentNode, opponent, parentBest, possibleMoves[i], bestScore, bestMove);
      SearchStep(g, role, self.peace, opponent.peace, parentBest, i, b0, m0);
      if stop {
        return;
      }
      i := i + 1;
    }
    if i == |possibleMoves| {
      SearchDone(g, role, self.peace, opponent.peace, parentBest, bestScore, bestMove);
    }
  }

  lemma SearchStart(g: seq<seq<Mark>>, role: Role, me: Mark, opponent: Mark, parentBest: Option<int>)
    requires IsGrid(g) && me != Empty && opponent != Empty
    ensures Tracked(g, role, Sentinel(role), None)
    ensures Minimax(g, role, me, opponent, parentBest)
         == SearchMoves(g, role, me, opponent, parentBest, 0, Sentinel(role), None)
  {
  }

  lemma SearchDone(g: seq<seq<Mark>>, role: Role, me: Mark, opponent: Mark, parentBest: Option<int>,
                   best: int, bestMove: Option<Move>)
    requires IsGrid(g) && me != Empty && opponent != Empty && Tracked(g, role, best, bestMove)
    ensures SearchMoves(g, role, me, opponent, parentBest, |EmptySpots(g)|, best, bestMove) == (best, bestMove)
  {
  }

  /** One step of the loop `SearchMoves` describes. */
  lemma SearchStep(g: seq<seq<Mark>>, role: Role, me: Mark, opponent: Mark, parentBest: Option<int>,
                   i: nat, best: int, bestMove: Option<Move>)
    requires IsGrid(g) && me != Empty && opponent != Empty
    requires i < |EmptySpots(g)| && Tracked(g, role, best, bestMove)
    ensures var e := Examine(g, role, me, opponent, parentBest, EmptySpots(g)[i], best, bestMove);
            SearchMoves(g, role, me, opponent, parentBest, i, best, bestMove)
            == if e.2 then (e.0, e.1) else SearchMoves(g, role, me, opponent, parentBest, i + 1, e.0, e.1)
  {
  }

  /**
   * The body of the search loop for one candidate `move`: play it on a new
   * board, score the child node, search the child when it has no score, and
   * report whether the cutoff ends the loop.
   */
  method TryMove(self: Player, currentNode: GameNode, opponent: Player, parentBest: Option<int>,
                 move: Move, bestScore: int, bestMove: Option<Move>)
    returns (newBestScore: int, newBestMove: Option<Move>, stop: bool)
    requires currentNode.Valid()
    requires self.peace != Empty && opponent.peace != Empty
    requires move in EmptySpots(currentNode.board.values)
    requires Tracked(currentNode.board.values, currentNode.minOrMax, bestScore, bestMove)
    ensures (newBestScore, newBestMove, stop)
         == Examine(currentNode.board.values, currentNode.minOrMax, self.peace, opponent.peace, parentBest,
                    move, bestScore, bestMove)
    decreases EmptyCount(currentNode.board.values), 0
  {
    ghost var g := currentNode.board.values;
    ghost var role := currentNode.minOrMax;
    newBestScore, newBestMove, stop := bestScore, bestMove, false;
    ChildFacts(g, move, Mover(role, self.peace, opponent.peace), self.peace);
    var newNode := PlayMove(self, currentNode, opponent, move);
    ghost var child := newNode.board.values;
    assert child == Placed(g, move, Mover(role, self.peace, opponent.peace));
    assert newNode.score == Score(child, self.peace);
    if newNode.score.Some? {
      newBestScore, newBestMove := Update(currentNode.minOrMax, bestScore, bestMove, newNode.score.value, move);
      ExamineTerminal(g, role, self.peace, opponent.peace, parentBest, move, bestScore, bestMove);
    } else {
      var possibleBestScore, possibleBestMove := Think(self, newNode, opponent, Some(newBestScore));
      newBestScore, newBestMove := Update(currentNode.minOrMax, bestScore, bestMove, possibleBestScore, move);
      if currentNode.minOrMax == Max {
        stop := parentBest.Some? && newBestScore >= parentBest.value;
      } else {
        stop := parentBest.Some? && newBestScore <= parentBest.value;
      }
      ExamineSearched(g, role, self.peace, opponent.peace, parentBest, move, bestScore, bestMove);
      assert possibleBestScore == Minimax(child, Flip(role), self.peace, opponent.peace, Some(bestScore)).0;
    }
    assert currentNode.board.values == g;
  }

  /**
   * The replacement step of the loop as the program writes it: a MAX node
   * takes a score at least its best, a MIN node one at most its best.
   */
  method Update(role: Role, bestScore: int, bestMove: Option<Move>, score: int, move: Move)
    returns (newBestScore: int, newBestMove: Option<Move>)
    ensures (newBestScore, newBestMove) == Replace(role, bestScore, bestMove, score, move)
  {
    newBestScore, newBestMove := bestScore, bestMove;
    if role == Max {
      if newBestScore <= score {
        newBestScore := score;
        newBestMove := Some(move);
      }
    } else {
      if newBestScore >= score {
        newBestScore := score;
        newBestMove := Some(move);
      }
    }
  }

  lemma ExamineTerminal(g: seq<seq<Mark>>, role: Role, me: Mark, opponent: Mark, parentBest: Option<int>,
                        move: Move, best: int, bestMove: Option<Move>)
    requires IsGrid(g) && me != Empty && opponent != Empty
    requires move in EmptySpots(g) && Tracked(g, role, best, bestMove)
    requires InRange(move) && Score(Placed(g, move, Mover(role, me, opponent)), me).Some?
    ensures Examine(g, role, me, opponent, parentBest, move, best, bestMove)
         == var t := Replace(role, best, bestMove, Score(Placed(g, move, Mover(role, me, opponent)), me).value, move);
            (t.0, t.1, false)
  {
  }

  lemma ExamineSearched(g: seq<seq<Mark>>, role: Role, me: Mark, opponent: Mark, parentBest: Option<int>,
                        move: Move, best: int, bestMove: Option<Move>)
    requires IsGrid(g) && me != Empty && opponent != Empty
    requires move in EmptySpots(g) && Tracked(g, role, best, bestMove)
    requires InRange(move) && Score(Placed(g, move, Mover(role, me, opponent)), me).None?
    ensures EmptySpots(Placed(g, move, Mover(role, me, opponent))) != []
    ensures Examine(g, role, me, opponent, parentBest, move, best, bestMove)
         == var t := Replace(role, best, bestMove,
                             Minimax(Placed(g, move, Mover(role, me, opponent)), Flip(role), me, opponent, Some(best)).0, move);
            (t.0, t.1, ReachesBound(role, t.0, parentBest))
  {
    ChildFacts(g, move, Mover(role, me, opponent), me);
  }

  /**
   * A child of `currentNode`: a new board holding a copy of the node's grid
   * with `move` played by the side to move, the opposite role, and its score.
   */
  method PlayMove(self: Player, currentNode: GameNode, opponent: Player, move: Move) returns (newNode: GameNode)
    requires currentNode.Valid()
    requires self.peace != Empty && opponent.peace != Empty
    requires move in EmptySpots(currentNode.board.values)
    ensures fresh(newNode) && fresh(newNode.board) && newNode.Valid()
    ensures newNode.board.values
         == Placed(currentNode.board.values, move, Mover(currentNode.minOrMax, self.peace, opponent.peace))
    ensures newNode.minOrMax == Flip(currentNode.minOrMax)
    ensures newNode.score == Score(newNode.board.values, self.peace)
  {
    var newBoard := CopyAndPlay(currentNode.board.values, move, Mover(currentNode.minOrMax, self.peace, opponent.peace));
    if currentNode.minOrMax == Max {
      newNode := new GameNode(newBoard, Min);
    } else {
      newNode := new GameNode(newBoard, Max);
    }
    newNode.CalculateScore(self);
  }

  method CopyAndPlay(values: seq<seq<Mark>>, move: Move, p: Mark) returns (newBoard: Board)
    requires IsGrid(values) && move in EmptySpots(values)
    ensures fresh(newBoard) && newBoard.Valid()
    ensures newBoard.values == Placed(values, move, p)
  {
    newBoard := new Board(values);
    var placed := newBoard.UpdateBoard(move, p);
  }

  /**
   * A player's move on the current board. A human's move is the one read
   * from the input, `input` here (`None` once there is no more input); the
   * computer searches a copy of the board as a MAX node with no bound.
   */
  method MakeMove(self: Player, currentBoard: Board, opponent: Player, input: Option<Move>) returns (move: Option<Move>)
    requires currentBoard.Valid()
    requires self.peace != Empty && opponent.peace != Empty
    ensures self.kind == Human ==> move == input
    ensures self.kind == AI ==> move == Minimax(currentBoard.values, Max, self.peace, opponent.peace, None).1
    ensures self.kind == AI && HasEmpty(currentBoard.values) ==> move.Some? && move.value in EmptySpots(currentBoard.values)
  {
    if self.kind == Human {
      move := input;
    } else {
      var currentBoardCopy := new Board(currentBoard.values);
      var initialNode := new GameNode(currentBoardCopy, Max);
      var bestScore, bestMove := Think(self, initialNode, opponent, None);
      move := bestMove;
    }
  }
}
