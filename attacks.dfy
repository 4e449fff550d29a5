/**
 * `squareIsAttacked` of the move generator (src/index_model/move_gen.h),
 * as a read-only query on the board, together with a reference statement
 * of what "attacked" means: some piece of the other colour sees the
 * square along one of its own directions with nothing in between, or an
 * enemy pawn stands diagonally in front of it (Article 3 of the FIDE Laws
 * of Chess).
 *
 * The source reads `mailbox[-1]` when a pawn probe leaves the board; the
 * model reads that probe as "no piece".
 */
module Attacks {
  import opened Pieces
  import opened Mailboxes
  import opened Directions

  /** Square `square` holds a piece of type `piece` whose colour is not `color`. */
  predicate Hit(board: seq<Piece>, square: int, piece: int, color: int)
    requires |board| == 64 && 0 <= square < 64
  {
    board[square].Type() == piece && board[square].Color() != color
  }

  /**
   * One direction of the attack loop: the first occupied square from
   * `square` along `offset` (only the first square for a stepping piece)
   * holds a `piece` not of colour `color`.
   */
  predicate RayAttack(board: seq<Piece>, square: int, offset: int, piece: int, sliding: bool, color: int)
    requires |board| == 64 && 0 <= square < 64 && -21 <= offset <= 21 && offset != 0
    decreases Remaining(square, offset)
  {
    var to := GetSquareWithOffset(square, offset);
    if to == -1 then false
    else if board[to].Type() != EMPTY then Hit(board, to, piece, color)
    else sliding && (StepProgress(square, offset); RayAttack(board, to, offset, piece, sliding, color))
  }

  /** Some of the first `j` directions of piece type `piece` finds an attacker of that type. */
  predicate DirectionsAttack(board: seq<Piece>, square: int, piece: int, j: int, color: int)
    requires |board| == 64 && 0 <= square < 64 && KNIGHT <= piece <= KING && 0 <= j <= DirectionCount(piece)
  {
    j > 0
    && (DirectionsAttack(board, square, piece, j - 1, color)
        || RayAttack(board, square, Offset(piece, j - 1), piece, Sliding(piece), color))
  }

  /** The outer loop over piece types `piece` .. KING. */
  predicate PiecesAttack(board: seq<Piece>, square: int, piece: int, color: int)
    requires |board| == 64 && 0 <= square < 64 && KNIGHT <= piece <= KING + 1
    decreases KING + 1 - piece
  {
    piece <= KING
    && (DirectionsAttack(board, square, piece, DirectionCount(piece), color)
        || PiecesAttack(board, square, piece + 1, color))
  }

  /** The row step towards the pawns that could attack a piece of colour `color`: up for WHITE, down otherwise. */
  function OpposingPawnOffset(color: int): (offset: int)
    ensures offset == -10 || offset == 10
  {
    if color == WHITE then -10 else 10
  }

  /** A pawn probe: the square at `offset` is on the board and holds a pawn not of colour `color`. */
  predicate PawnProbe(board: seq<Piece>, square: int, offset: int, color: int)
    requires |board| == 64 && 0 <= square < 64 && -21 <= offset <= 21
  {
    var p := GetSquareWithOffset(square, offset);
    p != -1 && Hit(board, p, PAWN, color)
  }

  /** `squareIsAttacked(square, mailbox, color)`. */
  predicate SquareIsAttacked(square: int, board: seq<Piece>, color: int)
    requires |board| == 64 && 0 <= square < 64
  {
    PiecesAttack(board, square, KNIGHT, color)
    || PawnProbe(board, square, OpposingPawnOffset(color) + 1, color)
    || PawnProbe(board, square, OpposingPawnOffset(color) - 1, color)
  }

  // ---------------------------------------------------------------------
  // What "attacked" means

  /** The `k`-th square seen from `square` along direction `i` of type `t` holds an attacker of type `t`. */
  ghost predicate AttackAlong(board: seq<Piece>, square: int, t: int, i: int, k: nat, color: int)
    requires |board| == 64 && 0 <= square < 64
  {
    KNIGHT <= t <= KING && 0 <= i < DirectionCount(t)
    && Reaches(board, square, Offset(t, i), k) && (k == 1 || Sliding(t))
    && Hit(board, Walk(square, Offset(t, i), k), t, color)
  }

  /** A pawn not of colour `color` stands on `a`, one row towards the enemy side and one file to either side of `square`. */
  ghost predicate PawnAttacker(board: seq<Piece>, square: int, a: int, color: int)
    requires |board| == 64 && 0 <= square < 64
  {
    0 <= a < 64 && Hit(board, a, PAWN, color)
    && GetRow(a) == GetRow(square) + PawnRank(color)
    && (GetColumn(a) == GetColumn(square) + 1 || GetColumn(a) == GetColumn(square) - 1)
  }

  /** A piece not of colour `color` attacks `square`. */
  ghost predicate Attacked(board: seq<Piece>, square: int, color: int)
    requires |board| == 64 && 0 <= square < 64
  {
    (exists t, i, k: nat :: AttackAlong(board, square, t, i, k, color))
    || (exists a :: PawnAttacker(board, square, a, color))
  }

  /** The `k`-th square seen from `square` along `offset` holds the attacker. */
  ghost predicate SeenAttacker(board: seq<Piece>, square: int, offset: int, piece: int, sliding: bool, k: nat, color: int)
    requires |board| == 64 && 0 <= square < 64 && -21 <= offset <= 21
  {
    Reaches(board, square, offset, k) && (k == 1 || sliding) && Hit(board, Walk(square, offset, k), piece, color)
  }

  /** The query along one direction finds exactly the attackers the piece would see. */
  lemma {:induction false} RayAttackReach(board: seq<Piece>, square: int, offset: int, piece: int, sliding: bool, color: int)
    requires |board| == 64 && 0 <= square < 64 && -21 <= offset <= 21 && offset != 0 && piece != EMPTY
    ensures RayAttack(board, square, offset, piece, sliding, color) <==>
      exists k: nat :: SeenAttacker(board, square, offset, piece, sliding, k, color)
    decreases Remaining(square, offset)
  {
    var to := GetSquareWithOffset(square, offset);
    if to == -1 {
    } else if board[to].Type() != EMPTY {
      RayAttackBlocked(board, square, offset, piece, sliding, color);
    } else {
      StepProgress(square, offset);
      if sliding {
        RayAttackReach(board, to, offset, piece, sliding, color);
      }
      RayAttackOpen(board, square, offset, piece, sliding, color);
    }
  }

  lemma RayAttackBlocked(board: seq<Piece>, square: int, offset: int, piece: int, sliding: bool, color: int)
    requires |board| == 64 && 0 <= square < 64 && -21 <= offset <= 21 && offset != 0
    requires var to := GetSquareWithOffset(square, offset); to != -1 && board[to].Type() != EMPTY
    ensures RayAttack(board, square, offset, piece, sliding, color) <==>
      exists k: nat :: SeenAttacker(board, square, offset, piece, sliding, k, color)
  {
    if RayAttack(board, square, offset, piece, sliding, color) {
      assert SeenAttacker(board, square, offset, piece, sliding, 1, color);
    }
    if exists k: nat :: SeenAttacker(board, square, offset, piece, sliding, k, color) {
      var k: nat :| SeenAttacker(board, square, offset, piece, sliding, k, color);
      if k > 1 {
        assert false;
      }
    }
  }

  lemma RayAttackOpen(board: seq<Piece>, square: int, offset: int, piece: int, sliding: bool, color: int)
    requires |board| == 64 && 0 <= square < 64 && -21 <= offset <= 21 && offset != 0 && piece != EMPTY
    requires var to := GetSquareWithOffset(square, offset); to != -1 && board[to].Type() == EMPTY
    requires var to := GetSquareWithOffset(square, offset);
      sliding ==> (RayAttack(board, to, offset, piece, sliding, color) <==>
        exists k: nat :: SeenAttacker(board, to, offset, piece, sliding, k, color))
    ensures RayAttack(board, square, offset, piece, sliding, color) <==>
      exists k: nat :: SeenAttacker(board, square, offset, piece, sliding, k, color)
  {
    if RayAttack(board, square, offset, piece, sliding, color) {
      RayAttackOpenSeen(board, square, offset, piece, sliding, color);
    }
    if exists k: nat :: SeenAttacker(board, square, offset, piece, sliding, k, color) {
      RayAttackOpenFound(board, square, offset, piece, sliding, color);
    }
  }

  lemma RayAttackOpenSeen(board: seq<Piece>, square: int, offset: int, piece: int, sliding: bool, color: int)
    requires |board| == 64 && 0 <= square < 64 && -21 <= offset <= 21 && offset != 0 && piece != EMPTY
    requires var to := GetSquareWithOffset(square, offset); to != -1 && board[to].Type() == EMPTY
    requires var to := GetSquareWithOffset(square, offset);
      sliding ==> (RayAttack(board, to, offset, piece, sliding, color) <==>
        exists k: nat :: SeenAttacker(board, to, offset, piece, sliding, k, color))
    requires RayAttack(board, square, offset, piece, sliding, color)
    ensures exists k: nat :: SeenAttacker(board, square, offset, piece, sliding, k, color)
  {
    var to := GetSquareWithOffset(square, offset);
    var k: nat :| SeenAttacker(board, to, offset, piece, sliding, k, color);
    ReachesCons(board, square, offset, k);
    assert Walk(square, offset, k + 1) == Walk(to, offset, k);
    assert SeenAttacker(board, square, offset, piece, sliding, k + 1, color);
  }

  lemma RayAttackOpenFound(board: seq<Piece>, square: int, offset: int, piece: int, sliding: bool, color: int)
    requires |board| == 64 && 0 <= square < 64 && -21 <= offset <= 21 && offset != 0 && piece != EMPTY
    requires var to := GetSquareWithOffset(square, offset); to != -1 && board[to].Type() == EMPTY
    requires var to := GetSquareWithOffset(square, offset);
      sliding ==> (RayAttack(board, to, offset, piece, sliding, color) <==>
        exists k: nat :: SeenAttacker(board, to, offset, piece, sliding, k, color))
    requires exists k: nat :: SeenAttacker(board, square, offset, piece, sliding, k, color)
    ensures RayAttack(board, square, offset, piece, sliding, color)
  {
    var to := GetSquareWithOffset(square, offset);
    var k: nat :| SeenAttacker(board, square, offset, piece, sliding, k, color);
    if k == 1 {
      assert false;
    }
    ReachesTail(board, square, offset, k - 1);
    assert Walk(square, offset, k) == Walk(to, offset, k - 1);
    assert SeenAttacker(board, to, offset, piece, sliding, k - 1, color);
  }

  /** The first `j` directions find an attacker exactly when one is seen along one of them. */
  lemma {:induction false} DirectionsAttackReach(board: seq<Piece>, square: int, piece: int, j: int, color: int)
    requires |board| == 64 && 0 <= square < 64 && KNIGHT <= piece <= KING && 0 <= j <= DirectionCount(piece)
    ensures DirectionsAttack(board, square, piece, j, color) <==>
      exists i, k: nat :: i < j && AttackAlong(board, square, piece, i, k, color)
  {
    if j > 0 {
      DirectionsAttackReach(board, square, piece, j - 1, color);
      var offset := Offset(piece, j - 1);
      RayAttackReach(board, square, offset, piece, Sliding(piece), color);
      if RayAttack(board, square, offset, piece, Sliding(piece), color) {
        var k: nat :| SeenAttacker(board, square, offset, piece, Sliding(piece), k, color);
        assert AttackAlong(board, square, piece, j - 1, k, color);
      }
      if exists i, k: nat :: i < j && AttackAlong(board, square, piece, i, k, color) {
        var i, k: nat :| i < j && AttackAlong(board, square, piece, i, k, color);
        if i == j - 1 {
          assert SeenAttacker(board, square, offset, piece, Sliding(piece), k, color);
        } else {
          assert i < j - 1 && AttackAlong(board, square, piece, i, k, color);
        }
      }
    }
  }

  /** The loop over types `piece` .. KING finds an attacker exactly when a piece of one of those types sees the square. */
  lemma {:induction false} PiecesAttackReach(board: seq<Piece>, square: int, piece: int, color: int)
    requires |board| == 64 && 0 <= square < 64 && KNIGHT <= piece <= KING + 1
    ensures PiecesAttack(board, square, piece, color) <==>
      exists t, i, k: nat :: piece <= t && AttackAlong(board, square, t, i, k, color)
    decreases KING + 1 - piece
  {
    if piece <= KING {
      PiecesAttackReach(board, square, piece + 1, color);
      DirectionsAttackReach(board, square, piece, DirectionCount(piece), color);
      if exists t, i, k: nat :: piece <= t && AttackAlong(board, square, t, i, k, color) {
        var t, i, k: nat :| piece <= t && AttackAlong(board, square, t, i, k, color);
        if t == piece {
          assert i < DirectionCount(piece) && AttackAlong(board, square, piece, i, k, color);
        } else {
          assert piece + 1 <= t && AttackAlong(board, square, t, i, k, color);
        }
      }
    }
  }

  /** A pawn probe at a diagonal offset finds the pawn on the diagonal square, if that square is on the board. */
  lemma PawnProbeAt(board: seq<Piece>, square: int, offset: int, color: int)
    requires |board| == 64 && 0 <= square < 64
    requires offset in {-11, -9, 9, 11}
    ensures var row, col := GetRow(square) + RankStep(offset), GetColumn(square) + FileStep(offset);
      PawnProbe(board, square, offset, color) <==>
        0 <= row < 8 && 0 <= col < 8 && Hit(board, 8 * row + col, PAWN, color)
  {
    OffsetGeometry(square, offset);
  }

  /** The rank a pawn attacking a square of `color` stands on, relative to that square. */
  function PawnRank(color: int): int
  {
    if color == WHITE then -1 else 1
  }

  /** The probe `df` files across finds a pawn exactly when that pawn, on the square it looks at, attacks. */
  lemma PawnProbeAttacker(board: seq<Piece>, square: int, color: int, df: int)
    requires |board| == 64 && 0 <= square < 64 && (df == 1 || df == -1)
    ensures var row, col := GetRow(square) + PawnRank(color), GetColumn(square) + df;
      PawnProbe(board, square, OpposingPawnOffset(color) + df, color)
      <==> 0 <= row < 8 && 0 <= col < 8 && PawnAttacker(board, square, 8 * row + col, color)
  {
    var offset := OpposingPawnOffset(color) + df;
    assert RankStep(offset) == PawnRank(color) && FileStep(offset) == df;
    PawnProbeAt(board, square, offset, color);
    hide RankStep, FileStep, GetSquareWithOffset, PawnProbe, Hit, OpposingPawnOffset;
    var row, col := GetRow(square) + PawnRank(color), GetColumn(square) + df;
    if 0 <= row < 8 && 0 <= col < 8 {
      assert GetRow(8 * row + col) == row;
    }
  }

  /** The two pawn probes find exactly the enemy pawns that attack the square. */
  lemma PawnProbesReach(board: seq<Piece>, square: int, color: int)
    requires |board| == 64 && 0 <= square < 64
    ensures PawnProbe(board, square, OpposingPawnOffset(color) + 1, color)
      || PawnProbe(board, square, OpposingPawnOffset(color) - 1, color)
      <==> exists a :: PawnAttacker(board, square, a, color)
  {
    PawnProbeAttacker(board, square, color, 1);
    PawnProbeAttacker(board, square, color, -1);
    hide PawnProbe, Hit, OpposingPawnOffset;
    if exists a :: PawnAttacker(board, square, a, color) {
      var a :| PawnAttacker(board, square, a, color);
      assert a == 8 * GetRow(a) + GetColumn(a);
    }
  }

  /**
   * `squareIsAttacked` answers exactly whether some piece not of colour
   * `color` attacks `square`.
   */
  lemma SquareIsAttackedIff(square: int, board: seq<Piece>, color: int)
    requires |board| == 64 && 0 <= square < 64
    ensures SquareIsAttacked(square, board, color) <==> Attacked(board, square, color)
  {
    PiecesAttackReach(board, square, KNIGHT, color);
    PawnProbesReach(board, square, color);
    if exists t, i, k: nat :: AttackAlong(board, square, t, i, k, color) {
      var t, i, k: nat :| AttackAlong(board, square, t, i, k, color);
      assert KNIGHT <= t && AttackAlong(board, square, t, i, k, color);
    }
  }
}
