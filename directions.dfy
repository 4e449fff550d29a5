/**
 * The direction tables of the move generator (src/index_model/move_gen.h)
 * and the walk along one direction on the padded grid.
 *
 * Rows of the tables are indexed by piece type minus one, so the first
 * row (all zeros, no directions) is the one a pawn would use; knights and
 * kings step once per direction, bishops, rooks and queens slide.
 */
module Directions {
  import opened Pieces
  import opened Mailboxes

  const PIECE_OFFSET: seq<seq<int>> :=
    [[0, 0, 0, 0, 0, 0, 0, 0],
     [-21, -19, -12, -8, 8, 12, 19, 21],
     [-11, -9, 9, 11, 0, 0, 0, 0],
     [-10, -1, 1, 10, 0, 0, 0, 0],
     [-11, -10, -9, -1, 1, 9, 10, 11],
     [-11, -10, -9, -1, 1, 9, 10, 11]]

  const PIECE_OFFSETS: seq<int> := [0, 8, 4, 4, 8, 8]

  const SLIDING: seq<bool> := [false, false, true, true, true, false]

  /** The table entry for direction `i` of piece type `t`. */
  function Offset(t: int, i: int): (offset: int)
    requires PAWN <= t <= KING && 0 <= i < 8
    ensures -21 <= offset <= 21 && -2 <= FileStep(offset) <= 2
    ensures t != PAWN && i < PIECE_OFFSETS[t - 1] ==> offset != 0
  {
    OffsetFacts(t, i);
    PIECE_OFFSET[t - 1][i]
  }

  /** Number of directions of piece type `t`. */
  function DirectionCount(t: int): (n: int)
    requires PAWN <= t <= KING
    ensures 0 <= n <= 8 && (n == 0 <==> t == PAWN)
  {
    PIECE_OFFSETS[t - 1]
  }

  /** Whether piece type `t` slides. */
  predicate Sliding(t: int)
    requires PAWN <= t <= KING
  {
    SLIDING[t - 1]
  }

  lemma OffsetFacts(t: int, i: int)
    requires PAWN <= t <= KING && 0 <= i < 8
    ensures -21 <= PIECE_OFFSET[t - 1][i] <= 21 && -2 <= FileStep(PIECE_OFFSET[t - 1][i]) <= 2
    ensures t != PAWN && i < PIECE_OFFSETS[t - 1] ==> PIECE_OFFSET[t - 1][i] != 0
  {
    var row := PIECE_OFFSET[t - 1];
    assert row[0] == PIECE_OFFSET[t - 1][0];
    match t
    case 1 =>
    case 2 =>
      assert row == [-21, -19, -12, -8, 8, 12, 19, 21];
    case 3 =>
      assert row == [-11, -9, 9, 11, 0, 0, 0, 0];
    case 4 =>
      assert row == [-10, -1, 1, 10, 0, 0, 0, 0];
    case 5 =>
      assert row == [-11, -10, -9, -1, 1, 9, 10, 11];
    case _ =>
      assert row == [-11, -10, -9, -1, 1, 9, 10, 11];
  }

  /** The padded-grid cell of a board square, as a measure for walks. */
  function Cell(square: int): (c: int)
    requires 0 <= square < 64
    ensures 21 <= c <= 98 && c == Cell64(square)
  {
    Cell64(square)
  }

  /** What is left of a walk from `square` in direction `offset`: the grid cells before the edge. */
  function Remaining(square: int, offset: int): nat
    requires 0 <= square < 64 && offset != 0
  {
    if offset > 0 then 120 - Cell(square) else Cell(square)
  }

  /** One step from `square` that stays on the board makes progress towards the edge. */
  lemma StepProgress(square: int, offset: int)
    requires 0 <= square < 64 && -21 <= offset <= 21 && offset != 0
    ensures GetSquareWithOffset(square, offset) != -1 ==>
      Remaining(GetSquareWithOffset(square, offset), offset) < Remaining(square, offset)
  {
  }

  /** The square `k` steps from `square` in direction `offset`, or -1 once the walk has left the board. */
  function Walk(square: int, offset: int, k: nat): (r: int)
    requires 0 <= square < 64 && -21 <= offset <= 21
    ensures r == -1 || 0 <= r < 64
    ensures k == 0 ==> r == square
    ensures k == 1 ==> r == GetSquareWithOffset(square, offset)
    decreases k
  {
    if k == 0 then square
    else
      var next := GetSquareWithOffset(square, offset);
      if next == -1 then -1 else Walk(next, offset, k - 1)
  }

  /** A walk that is still on the board after `k` steps was on the board at every earlier step. */
  lemma {:induction false} WalkPrefix(square: int, offset: int, k: nat, j: nat)
    requires 0 <= square < 64 && -21 <= offset <= 21
    requires j <= k && Walk(square, offset, k) != -1
    ensures Walk(square, offset, j) != -1
    decreases k
  {
    if j > 0 {
      var next := GetSquareWithOffset(square, offset);
      WalkPrefix(next, offset, k - 1, j - 1);
    }
  }

  /**
   * The `k`-th square in direction `offset` is on the board and every
   * square before it (after the start) is empty: it is the `k`-th square a
   * sliding piece on `square` can see.
   */
  ghost predicate Reaches(board: seq<Piece>, square: int, offset: int, k: nat)
    requires |board| == 64 && 0 <= square < 64 && -21 <= offset <= 21
  {
    1 <= k && Walk(square, offset, k) != -1
    && forall j | 1 <= j < k :: Walk(square, offset, j) != -1 && board[Walk(square, offset, j)].Type() == EMPTY
  }

  /**
   * Reaching `k + 1` squares from `square` is taking the first step onto
   * an empty square and then reaching `k` squares from there.
   */
  lemma ReachesStep(board: seq<Piece>, square: int, offset: int, k: nat)
    requires |board| == 64 && 0 <= square < 64 && -21 <= offset <= 21 && 1 <= k
    ensures var next := GetSquareWithOffset(square, offset);
      Reaches(board, square, offset, k + 1) <==>
        next != -1 && board[next].Type() == EMPTY && Reaches(board, next, offset, k)
  {
    var next := GetSquareWithOffset(square, offset);
    if Reaches(board, square, offset, k + 1) {
      ReachesTail(board, square, offset, k);
    }
    if next != -1 && board[next].Type() == EMPTY && Reaches(board, next, offset, k) {
      ReachesCons(board, square, offset, k);
    }
  }

  lemma ReachesTail(board: seq<Piece>, square: int, offset: int, k: nat)
    requires |board| == 64 && 0 <= square < 64 && -21 <= offset <= 21 && 1 <= k
    requires Reaches(board, square, offset, k + 1)
    ensures var next := GetSquareWithOffset(square, offset);
      next != -1 && board[next].Type() == EMPTY && Reaches(board, next, offset, k)
  {
    WalkPrefix(square, offset, k + 1, 1);
    var next := GetSquareWithOffset(square, offset);
    assert Walk(square, offset, 1) == next;
    assert Walk(square, offset, k + 1) == Walk(next, offset, k);
    forall j | 1 <= j < k
      ensures Walk(next, offset, j) != -1 && board[Walk(next, offset, j)].Type() == EMPTY
    {
      assert Walk(square, offset, j + 1) == Walk(next, offset, j);
    }
  }

  lemma ReachesCons(board: seq<Piece>, square: int, offset: int, k: nat)
    requires |board| == 64 && 0 <= square < 64 && -21 <= offset <= 21 && 1 <= k
    requires var next := GetSquareWithOffset(square, offset);
      next != -1 && board[next].Type() == EMPTY && Reaches(board, next, offset, k)
    ensures Reaches(board, square, offset, k + 1)
  {
    var next := GetSquareWithOffset(square, offset);
    assert Walk(square, offset, k + 1) == Walk(next, offset, k);
    forall j | 1 <= j < k + 1
      ensures Walk(square, offset, j) != -1 && board[Walk(square, offset, j)].Type() == EMPTY
    {
      if j > 1 {
        assert Walk(square, offset, j) == Walk(next, offset, j - 1);
      }
    }
  }
}
