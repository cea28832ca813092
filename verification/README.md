# Tic-tac-toe with a minimax player, in Dafny

This project models the game logic of `tick_tac_toe.py`, a console game of
tic-tac-toe for two players. Each player is a human or the computer. The
model covers:

- **the board**: a 3×3 grid of `""`, `"X"` and `"O"`. Here it is `Mark` =
  `Empty | X | O`.
- **the terminal-state query**: rows, then columns, then the main diagonal,
  then the anti-diagonal. After that come "ongoing" and "draw".
- **the in-place update of one cell**: it is refused when the cell is taken.
- **the row-major list of empty cells.**
- **the score of a finished node**: seen from one player.
- **the computer's minimax search**: it starts from the sentinels ±2. It
  replaces on `<=` / `>=`. After a searched (non-terminal) child, it stops
  the loop when the best score has reached the parent's bound; a child that
  ends the game never stops it.
- **the game loop**: it asks the player to move, applies the move and passes
  the turn.

Layout, one module per file:

- `Grid.dfy` (module `Grid`): the grid as a value.
  - It defines the eight lines and `IsFinished` as a function, since the
    source only reads the grid there.
  - It defines the empty-cell list `EmptySpots` and `Placed`, which writes
    one cell.
  - It also counts marks.
- `Board.dfy` (module `Boards`): class `Board`.
  - It has a `values` field that `UpdateBoard` reassigns in place, and a
    copying constructor.
  - `GetEmptySpots` uses the source's nested loops. It is proved equal to
    `EmptySpots`.
- `Search.dfy` (module `Search`): the `Player` value and class `GameNode`,
  with its `score` field set by `CalculateScore`.
  - The search is given twice. `Minimax` and `SearchMoves` are functions
    over grids, one call per loop iteration. `Think` is the recursive
    method over board objects, and its loop calls `TryMove`.
  - `Think` is proved to return exactly `Minimax`'s result.
  - `MakeMove` is a player's move: the human's input, or the computer's
    search from a copy of the board.
- `SearchFacts.dfy` (module `SearchFacts`): what the search promises.
  - The cutoff rule.
  - Terminal children are accounted for.
  - A winning cell gives score 1.
  - The later of two equal scores is kept.
  - Two concrete positions.
- `MissedBlock.dfy` (module `MissedBlock`): the search evaluated node by
  node on one position, `X O X / X O _ / O _ _` with X to move.
  - It returns (2,2) with score 0, although O then wins at (2,1).
  - This shows that the search is not optimal.
- `Game.dfy` (module `Game`): class `TicTacToe`.
  - It has the shared board, the two players and `winnerPeace`.
  - `Turn` is one move. `Run` is the game loop.
  - `Run` is proved to keep the players alternating and to end with
    `winnerPeace` set from the board.

Python's `best_move = []` and `parent_best = None` become `Option` values.
`NotEmptySpotException` becomes the `ok` result of `UpdateBoard`. The
search's termination measure is the number of empty cells, which every
candidate move lowers by one (`PlacedShrinks`).

`Think` has no `modifies` clause. That is the proof that the search changes
no board or node that existed before the call: each candidate is played on
a fresh copy (`CopyAndPlay`).

On ties, the code (lines 125, 133, 141 and 148) replaces on `<=` / `>=`,
so the latest of several equally good moves is kept:

- `ReplaceRule` states it for one replacement: an equal score takes the
  candidate's move.
- `LaterTieKept` states it for the whole loop.
- `TwoWinsLaterMove` shows it on a position with two winning cells, where
  the search returns the second one, (2,0).

## Model

| member | source | states |
|---|---|---|
| Grid.EmptyGrid | tick_tac_toe.py:163 | the starting board is a 3×3 grid of empty cells |
| Grid.Placed | tick_tac_toe.py:39-40 | writing a mark sets exactly that cell and leaves the other eight cells as they were |
| Grid.FirstLine | tick_tac_toe.py:14-29 | the index found is a complete line and no line examined earlier is complete; no result means no complete line from there on |
| Grid.IsFinished | tick_tac_toe.py:13-36 | a reported winner is a non-empty mark owning the first complete line in the order rows, columns, main diagonal, anti-diagonal; no winner exactly when no line is complete, and then finished exactly when no cell is empty |
| Grid.FirstLineUnique | tick_tac_toe.py:14-29 | the first complete line is unique, so the winner is determined by the examination order |
| Grid.PlacedLinesOwnedByMover | tick_tac_toe.py:14-29 | after a mark is written on a grid without a line, every complete line belongs to that mark |
| Grid.EmptySpots | tick_tac_toe.py:44-50 | the list holds exactly the in-range cells that are empty, and is empty exactly when the grid has no empty cell |
| Grid.EmptySpotsOrdered | tick_tac_toe.py:44-50 | the empty cells are listed in row-major order, with no duplicates |
| Grid.SpotsByCell | tick_tac_toe.py:44-50 | the list is row 0's empty cells, then row 1's, then row 2's, each row scanned left to right |
| Grid.PlacedShrinks | tick_tac_toe.py:39-40 | filling an empty cell leaves exactly one empty cell fewer |
| Grid.PlacedCount | tick_tac_toe.py:39-40 | writing a mark moves one cell from the count of its old content to the count of the new mark |
| Boards.Board.constructor | tick_tac_toe.py:10-11 | a new board holds the given grid as its own value, shared with no other board |
| Boards.Board.UpdateBoard | tick_tac_toe.py:38-42 | on an empty cell the mark is written and nothing else changes; on a taken cell the move is refused (`ok` false) and the board is unchanged |
| Boards.Board.GetEmptySpots | tick_tac_toe.py:44-50 | the nested loops return exactly `EmptySpots` of the board |
| Search.Score | tick_tac_toe.py:72-82 | a score is -1, 0 or 1, and there is none exactly while no line is complete and a cell is empty |
| Search.ScoreMeaning | tick_tac_toe.py:72-82 | 0 means a full grid without a line; 1 means the player's mark owns the first complete line; -1 means another mark does |
| Search.GameNode.constructor | tick_tac_toe.py:67-70 | a node holds the given board and role and has no score yet |
| Search.GameNode.CalculateScore | tick_tac_toe.py:72-82 | sets the node's score to the board's score for the given player |
| Search.Replace | tick_tac_toe.py:125-150 | the new best is at least as good for the role as both the old best and the candidate's score, and its move is the old one or the candidate |
| Search.ReplaceRule | tick_tac_toe.py:125-150 | the new best is the larger of the two scores at MAX and the smaller at MIN; an equal or better score takes the candidate's move (so a tie goes to the later candidate), a worse one keeps the old move |
| Search.ReplaceTracked | tick_tac_toe.py:125-150 | replacing by a real score leaves a score in -1..1 and a move that is one of the grid's empty cells |
| Search.Update | tick_tac_toe.py:125-150 | the replacement step on the loop's variables computes `Replace`, whose value and tie rule `ReplaceRule` states |
| Search.Minimax | tick_tac_toe.py:111-155 | with no empty cell the result is the sentinel (2 for MIN, -2 for MAX) and no move; otherwise the score is in -1..1 and the move is an empty cell |
| Search.SearchMoves | tick_tac_toe.py:118-155 | the loop from candidate `i` never makes the best worse for the role, keeps a well-formed best, and ends with the previous best move or a candidate from `i` on |
| Search.Examine | tick_tac_toe.py:120-153 | one iteration never makes the best worse for the role and returns the previous best move or the candidate |
| Search.ChildFacts | tick_tac_toe.py:120-138 | a played candidate leaves one empty cell fewer, and a child with no score still has a cell to play, so the recursion terminates |
| Search.Think | tick_tac_toe.py:111-155 | the search on board objects returns exactly `Minimax` of the node's grid, role and bound |
| Search.TryMove | tick_tac_toe.py:120-153 | one loop iteration on objects (copy, play, score, recurse, replace, decide the cutoff) computes `Examine` |
| Search.PlayMove | tick_tac_toe.py:120-132 | the child is a new node on a new board holding the parent's grid with the side to move's mark written, the opposite role, and its score for the searching player |
| Search.CopyAndPlay | tick_tac_toe.py:120-122 | a fresh board holding the grid with the candidate played |
| Search.MakeMove | tick_tac_toe.py:97-109 | a human's move is the input; the computer's is `Minimax`'s move for a MAX node with no bound, an empty cell whenever one exists |
| SearchFacts.ExamineOutcome | tick_tac_toe.py:121-153 | a terminal child never stops the loop and its score replaces the best when it is at least as good; a searched child's result, searched with the current best as bound, replaces the best (score and move) when it is at least as good; the loop stops after a searched child exactly when the best then reaches the parent's bound |
| SearchFacts.NoBoundNoCutoff | tick_tac_toe.py:145-153 | with no bound, as at the top level, no candidate stops the loop |
| SearchFacts.TerminalChildrenCounted | tick_tac_toe.py:119-153 | every terminal child from candidate `k` on is matched or beaten by the result, unless the result reached the bound |
| SearchFacts.LaterTieKept | tick_tac_toe.py:125-150 | when a terminal child's score equals the result, the returned move is that candidate or a later one, unless a cutoff was reached |
| SearchFacts.WinningMoveScores | tick_tac_toe.py:72-82 | completing a line of one's own mark on a grid without a line scores 1 |
| SearchFacts.MaxTakesWin | tick_tac_toe.py:121-143 | at a MAX node with no bound, a cell that completes the searching mark's line makes the result 1 |
| SearchFacts.TwoWinsLaterMove | tick_tac_toe.py:119-155 | with winning cells (0,2) and (2,0), the search returns (1, (2,0)), the later one |
| SearchFacts.TopRowOpenWins | tick_tac_toe.py:119-155 | X to move with X X _ on top and O O _ in the middle: the search scores 1 |
| MissedBlock.After12Value | tick_tac_toe.py:129-153 | the MIN node after X's (1,2): O's reply (2,1) wins at once and (2,2) only draws, so the result is (-1, (2,1)) |
| MissedBlock.After21Value | tick_tac_toe.py:129-153 | the MIN node after X's block (2,1): both of O's replies draw, and the later one is kept, giving (0, (2,2)) |
| MissedBlock.After22Value | tick_tac_toe.py:129-153 | the MIN node after X's (2,2), searched with bound 0: its first reply (1,2) draws and reaches the bound, so the loop stops with (0, (1,2)) before O's winning reply (2,1) is examined |
| MissedBlock.SearchPicksCorner | tick_tac_toe.py:111-155 | from `X O X / X O _ / O _ _` with X to move and no bound, the search returns (0, (2,2)): the cut-off child's 0 ties the block (2,1) and the later candidate wins |
| MissedBlock.SearchMissesBlock | tick_tac_toe.py:97-155 | the computer's move from that position is (2,2), after which O's reply (2,1) completes column 1 and scores -1 for X |
| Game.Opponent | tick_tac_toe.py:171-178 | the other of the two players, whose mark differs from the current player's and is not empty |
| Game.TurnsAlternate | tick_tac_toe.py:173-178 | after an accepted move, the mark counts show strict alternation with the other player to move |
| Game.TurnOutcome | tick_tac_toe.py:172-178 | an accepted move passes the turn, keeps the alternation and fills a cell; a refused one changes nothing |
| Game.TicTacToe.constructor | tick_tac_toe.py:162-165 | a new game has an empty board, the given players and no winner |
| Game.TicTacToe.IsFinished | tick_tac_toe.py:189-191 | returns the board's finished flag and records the board's winner in `winnerPeace` |
| Game.TicTacToe.Turn | tick_tac_toe.py:172-178 | a move onto a taken cell leaves the board and the player unchanged; otherwise the mark is written and the turn passes to the opponent |
| Game.TicTacToe.NextMove | tick_tac_toe.py:171 | a human's move is the input; the computer's move is an empty cell of the unfinished board |
| Game.TicTacToe.Run | tick_tac_toe.py:167-178 | the loop ends only on a finished board, with `winnerPeace` from `Board.is_finished`, or when a human has no move left; the players alternate throughout |

## Left out

- Printing and reading: `Board.print`, the prompts, the end-of-game messages
  and the `__main__` replay loop.
- Human input parsing (`input().split(',')`): human moves are a sequence
  given to `Run`, required to be in 0..2. The source subtracts one from each
  typed number (`tick_tac_toe.py:101`). Typed 0, -1 and -2 become -1, -2 and
  -3, which Python's negative indexing wraps silently to another cell. Typed
  4 or more gives an index of 3 or more, which raises `IndexError` at
  line 39; the `except NotEmptySpotException` at line 174 does not catch it,
  so the game crashes. Neither behaviour is modelled.
- Randomness: the starting player (`choice`) is the parameter `first` of
  `Run`. The computer's random name is not modelled.
- `NotEmptySpotException` (`exceptions.py` is not part of this model): a
  refused update is the `ok` result of `UpdateBoard`.
- Boards.Board.UpdateBoard: takes the mark to write rather than the player
  object, which is all the source reads from the player.
- Game.TicTacToe.Run: stops when a human is to move and no input is left.
  The source blocks on input there instead.
- Game.TicTacToe.Run: players are compared by value and their marks are
  required to be distinct and non-empty. The source compares objects.
- Search.Think: requires both marks non-empty, which every caller meets:
  the source seats only X and O (`tick_tac_toe.py:202-212`). With one empty
  mark the number of empty cells would not drop at every level of the
  search, which is the model's termination measure; with both marks empty
  the source's recursion would not end.
- Search.Minimax: it is not claimed optimal, and two computer players are
  not claimed to draw. The non-strict cutoff combined with the non-strict
  tie replacement can let a pruned child's bound displace a better move.
  `MissedBlock.SearchMissesBlock` proves that this happens on a concrete
  position.
- SearchFacts.TopRowOpenWins: proves the score 1 but not which winning move
  is returned.
