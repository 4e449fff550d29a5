/**
 * Pseudo-legal move generation of the index model
 * (src/index_model/move_gen.h), as functions of the board and the piece
 * lists: what `updatePossibleMoves` appends, in the order it appends it.
 *
 * Non-pawn pieces walk each of their directions (knights and kings one
 * step, bishops, rooks and queens until blocked), an unmoved king adds
 * its castles, and pawns add their pushes and their captures, en passant
 * included, following Article 3 of the FIDE Laws of Chess (3.7 and 3.8).
 * Attacked squares are not looked at here.
 */
module MoveGen {
  import opened Pieces
  import opened Moves
  import opened Mailboxes
  import opened PieceLists
  import opened Directions

  /** Square `square` holds a piece that is not of colour `side`. */
  predicate Enemy(board: seq<Piece>, square: int, side: int)
    requires |board| == 64 && 0 <= square < 64
  {
    board[square].Type() != EMPTY && board[square].Color() != side
  }

  /**
   * The destination fits the kind of the move: every non-capturing kind
   * lands on an empty square, every capture other than en passant on a
   * piece of the other colour.
   */
  ghost predicate TargetFits(board: seq<Piece>, side: int, m: Move)
    requires |board| == 64
  {
    (!m.IsCapture() ==> board[m.To()].Type() == EMPTY)
    && (m.IsCapture() && !m.IsEpCapture() ==> Enemy(board, m.To(), side))
  }

  /** What a ray may add on square `to`: a quiet move onto an empty square or a capture of the other colour. */
  ghost predicate RayTarget(board: seq<Piece>, fromSquare: int, to: int, side: int, m: Move)
    requires |board| == 64 && 0 <= fromSquare < 64 && 0 <= to < 64
  {
    (board[to].Type() == EMPTY && m == NewMove(fromSquare, to, QUIET_MOVE))
    || (Enemy(board, to, side) && m == NewMove(fromSquare, to, CAPTURE))
  }

  /**
   * The moves along one direction from `square` for the piece on
   * `fromSquare`: quiet moves onto the empty squares, then a capture if
   * the first occupied square holds the other colour; a stepping piece
   * stops after the first square.
   */
  function RayMoves(board: seq<Piece>, fromSquare: int, square: int, offset: int, sliding: bool, side: int): (r: seq<Move>)
    requires |board| == 64 && 0 <= fromSquare < 64 && 0 <= square < 64 && -21 <= offset <= 21 && offset != 0
    decreases Remaining(square, offset)
  {
    var to := GetSquareWithOffset(square, offset);
    if to == -1 then []
    else if board[to].Type() != EMPTY then
      if board[to].Color() != side then [NewMove(fromSquare, to, CAPTURE)] else []
    else
      [NewMove(fromSquare, to, QUIET_MOVE)]
      + if sliding then StepProgress(square, offset); RayMoves(board, fromSquare, to, offset, sliding, side) else []
  }

  /** Move `m` is a quiet move or capture onto the `k`-th square seen from `square` along `offset`. */
  ghost predicate SeenAlong(board: seq<Piece>, fromSquare: int, square: int, offset: int, sliding: bool, side: int, k: nat, m: Move)
    requires |board| == 64 && 0 <= fromSquare < 64 && 0 <= square < 64 && -21 <= offset <= 21
  {
    Reaches(board, square, offset, k) && (k == 1 || sliding) && RayTarget(board, fromSquare, Walk(square, offset, k), side, m)
  }

  /**
   * A ray adds move `m` exactly when `m` is a quiet move or a capture onto
   * some square the piece sees along the direction: the `k`-th square,
   * with the squares before it empty, and `k` is 1 for a stepping piece.
   */
  lemma {:induction false} RayMovesReach(board: seq<Piece>, fromSquare: int, square: int, offset: int, sliding: bool, side: int, m: Move)
    requires |board| == 64 && 0 <= fromSquare < 64 && 0 <= square < 64 && -21 <= offset <= 21 && offset != 0
    ensures m in RayMoves(board, fromSquare, square, offset, sliding, side) <==>
      exists k: nat :: SeenAlong(board, fromSquare, square, offset, sliding, side, k, m)
    decreases Remaining(square, offset)
  {
    var to := GetSquareWithOffset(square, offset);
    if to == -1 {
    } else if board[to].Type() != EMPTY {
      RayBlocked(board, fromSquare, square, offset, sliding, side, m);
    } else {
      StepProgress(square, offset);
      if sliding {
        RayMovesReach(board, fromSquare, to, offset, sliding, side, m);
      }
      RayOpen(board, fromSquare, square, offset, sliding, side, m);
    }
  }

  lemma RayBlocked(board: seq<Piece>, fromSquare: int, square: int, offset: int, sliding: bool, side: int, m: Move)
    requires |board| == 64 && 0 <= fromSquare < 64 && 0 <= square < 64 && -21 <= offset <= 21 && offset != 0
    requires var to := GetSquareWithOffset(square, offset); to != -1 && board[to].Type() != EMPTY
    ensures m in RayMoves(board, fromSquare, square, offset, sliding, side) <==>
      exists k: nat :: SeenAlong(board, fromSquare, square, offset, sliding, side, k, m)
  {
    var to := GetSquareWithOffset(square, offset);
    if m in RayMoves(board, fromSquare, square, offset, sliding, side) {
      assert SeenAlong(board, fromSquare, square, offset, sliding, side, 1, m);
    }
    if exists k: nat :: SeenAlong(board, fromSquare, square, offset, sliding, side, k, m) {
      var k: nat :| SeenAlong(board, fromSquare, square, offset, sliding, side, k, m);
      if k > 1 {
        assert false;
      }
    }
  }

  lemma RayOpen(board: seq<Piece>, fromSquare: int, square: int, offset: int, sliding: bool, side: int, m: Move)
    requires |board| == 64 && 0 <= fromSquare < 64 && 0 <= square < 64 && -21 <= offset <= 21 && offset != 0
    requires var to := GetSquareWithOffset(square, offset); to != -1 && board[to].Type() == EMPTY
    requires var to := GetSquareWithOffset(square, offset);
      sliding ==> (m in RayMoves(board, fromSquare, to, offset, sliding, side) <==>
        exists k: nat :: SeenAlong(board, fromSquare, to, offset, sliding, side, k, m))
    ensures m in RayMoves(board, fromSquare, square, offset, sliding, side) <==>
      exists k: nat :: SeenAlong(board, fromSquare, square, offset, sliding, side, k, m)
  {
    if m in RayMoves(board, fromSquare, square, offset, sliding, side) {
      RayOpenSeen(board, fromSquare, square, offset, sliding, side, m);
    }
    if exists k: nat :: SeenAlong(board, fromSquare, square, offset, sliding, side, k, m) {
      RayOpenFound(board, fromSquare, square, offset, sliding, side, m);
    }
  }

  lemma RayOpenSeen(board: seq<Piece>, fromSquare: int, square: int, offset: int, sliding: bool, side: int, m: Move)
    requires |board| == 64 && 0 <= fromSquare < 64 && 0 <= square < 64 && -21 <= offset <= 21 && offset != 0
    requires var to := GetSquareWithOffset(square, offset); to != -1 && board[to].Type() == EMPTY
    requires var to := GetSquareWithOffset(square, offset);
      sliding ==> (m in RayMoves(board, fromSquare, to, offset, sliding, side) <==>
        exists k: nat :: SeenAlong(board, fromSquare, to, offset, sliding, side, k, m))
    requires m in RayMoves(board, fromSquare, square, offset, sliding, side)
    ensures exists k: nat :: SeenAlong(board, fromSquare, square, offset, sliding, side, k, m)
  {
    var to := GetSquareWithOffset(square, offset);
    if m == NewMove(fromSquare, to, QUIET_MOVE) {
      assert SeenAlong(board, fromSquare, square, offset, sliding, side, 1, m);
    } else {
      var k: nat :| SeenAlong(board, fromSquare, to, offset, sliding, side, k, m);
      ReachesCons(board, square, offset, k);
      assert Walk(square, offset, k + 1) == Walk(to, offset, k);
      assert SeenAlong(board, fromSquare, square, offset, sliding, side, k + 1, m);
    }
  }

  lemma RayOpenFound(board: seq<Piece>, fromSquare: int, square: int, offset: int, sliding: bool, side: int, m: Move)
    requires |board| == 64 && 0 <= fromSquare < 64 && 0 <= square < 64 && -21 <= offset <= 21 && offset != 0
    requires var to := GetSquareWithOffset(square, offset); to != -1 && board[to].Type() == EMPTY
    requires var to := GetSquareWithOffset(square, offset);
      sliding ==> (m in RayMoves(board, fromSquare, to, offset, sliding, side) <==>
        exists k: nat :: SeenAlong(board, fromSquare, to, offset, sliding, side, k, m))
    requires exists k: nat :: SeenAlong(board, fromSquare, square, offset, sliding, side, k, m)
    ensures m in RayMoves(board, fromSquare, square, offset, sliding, side)
  {
    var to := GetSquareWithOffset(square, offset);
    var quiet := NewMove(fromSquare, to, QUIET_MOVE);
    assert RayMoves(board, fromSquare, square, offset, sliding, side)
      == [quiet] + if sliding then RayMoves(board, fromSquare, to, offset, sliding, side) else [];
    hide RayMoves;
    var k: nat :| SeenAlong(board, fromSquare, square, offset, sliding, side, k, m);
    if k > 1 {
      ReachesTail(board, square, offset, k - 1);
      assert Walk(square, offset, k) == Walk(to, offset, k - 1);
      assert SeenAlong(board, fromSquare, to, offset, sliding, side, k - 1, m);
    } else {
      assert m == quiet;
    }
  }

  /** Every move of a ray starts on `fromSquare` and is a quiet move onto an empty square or a capture of the other colour. */
  lemma {:induction false} RayMovesFit(board: seq<Piece>, fromSquare: int, square: int, offset: int, sliding: bool, side: int)
    requires |board| == 64 && 0 <= fromSquare < 64 && 0 <= square < 64 && -21 <= offset <= 21 && offset != 0
    ensures forall m | m in RayMoves(board, fromSquare, square, offset, sliding, side) ::
      m.From() == fromSquare && TargetFits(board, side, m) && (m.Flags() == QUIET_MOVE || m.Flags() == CAPTURE)
    decreases Remaining(square, offset)
  {
    var to := GetSquareWithOffset(square, offset);
    if to != -1 && board[to].Type() == EMPTY && sliding {
      StepProgress(square, offset);
      RayMovesFit(board, fromSquare, to, offset, sliding, side);
    }
  }

  /** The moves of directions `j` onwards of a piece of type `t` on `fromSquare`, direction by direction in table order. */
  function DirectionMoves(board: seq<Piece>, fromSquare: int, t: int, j: int, side: int): seq<Move>
    requires |board| == 64 && 0 <= fromSquare < 64 && KNIGHT <= t <= KING && 0 <= j <= DirectionCount(t)
    decreases DirectionCount(t) - j
  {
    if j == DirectionCount(t) then []
    else RayMoves(board, fromSquare, fromSquare, Offset(t, j), Sliding(t), side) + DirectionMoves(board, fromSquare, t, j + 1, side)
  }

  /** Move `m` is a quiet move or capture onto the `k`-th square seen in direction `i` by a piece of type `t`. */
  ghost predicate SeenMove(board: seq<Piece>, fromSquare: int, t: int, i: int, k: nat, side: int, m: Move)
    requires |board| == 64 && 0 <= fromSquare < 64 && KNIGHT <= t <= KING && 0 <= i < 8
  {
    SeenAlong(board, fromSquare, fromSquare, Offset(t, i), Sliding(t), side, k, m)
  }

  /** Directions `j` onwards add exactly the moves seen along one of them. */
  lemma DirectionMovesReach(board: seq<Piece>, fromSquare: int, t: int, j: int, side: int, m: Move)
    requires |board| == 64 && 0 <= fromSquare < 64 && KNIGHT <= t <= KING && 0 <= j <= DirectionCount(t)
    ensures m in DirectionMoves(board, fromSquare, t, j, side) <==>
      exists i, k: nat :: j <= i < DirectionCount(t) && SeenMove(board, fromSquare, t, i, k, side, m)
  {
    if m in DirectionMoves(board, fromSquare, t, j, side) {
      DirectionMovesSeen(board, fromSquare, t, j, side, m);
    }
    if exists i, k: nat :: j <= i < DirectionCount(t) && SeenMove(board, fromSquare, t, i, k, side, m) {
      SeenDirectionMoves(board, fromSquare, t, j, side, m);
    }
  }

  lemma {:induction false} DirectionMovesSeen(board: seq<Piece>, fromSquare: int, t: int, j: int, side: int, m: Move)
    requires |board| == 64 && 0 <= fromSquare < 64 && KNIGHT <= t <= KING && 0 <= j <= DirectionCount(t)
    requires m in DirectionMoves(board, fromSquare, t, j, side)
    ensures exists i, k: nat :: j <= i < DirectionCount(t) && SeenMove(board, fromSquare, t, i, k, side, m)
    decreases DirectionCount(t) - j
  {
    var ray := RayMoves(board, fromSquare, fromSquare, Offset(t, j), Sliding(t), side);
    var rest := DirectionMoves(board, fromSquare, t, j + 1, side);
    assert DirectionMoves(board, fromSquare, t, j, side) == ray + rest;
    if m in rest {
      DirectionMovesSeen(board, fromSquare, t, j + 1, side, m);
      var i, k: nat :| j + 1 <= i < DirectionCount(t) && SeenMove(board, fromSquare, t, i, k, side, m);
      assert j <= i;
    } else {
      RayMovesReach(board, fromSquare, fromSquare, Offset(t, j), Sliding(t), side, m);
      var k: nat :| SeenAlong(board, fromSquare, fromSquare, Offset(t, j), Sliding(t), side, k, m);
      assert SeenMove(board, fromSquare, t, j, k, side, m);
    }
  }

  lemma {:induction false} SeenDirectionMoves(board: seq<Piece>, fromSquare: int, t: int, j: int, side: int, m: Move)
    requires |board| == 64 && 0 <= fromSquare < 64 && KNIGHT <= t <= KING && 0 <= j <= DirectionCount(t)
    requires exists i, k: nat :: j <= i < DirectionCount(t) && SeenMove(board, fromSquare, t, i, k, side, m)
    ensures m in DirectionMoves(board, fromSquare, t, j, side)
    decreases DirectionCount(t) - j
  {
    var i, k: nat :| j <= i < DirectionCount(t) && SeenMove(board, fromSquare, t, i, k, side, m);
    var ray := RayMoves(board, fromSquare, fromSquare, Offset(t, j), Sliding(t), side);
    var rest := DirectionMoves(board, fromSquare, t, j + 1, side);
    assert DirectionMoves(board, fromSquare, t, j, side) == ray + rest;
    if i > j {
      SeenDirectionMoves(board, fromSquare, t, j + 1, side, m);
    } else {
      assert SeenAlong(board, fromSquare, fromSquare, Offset(t, j), Sliding(t), side, k, m);
      RayMovesReach(board, fromSquare, fromSquare, Offset(t, j), Sliding(t), side, m);
    }
  }

  /** Every move of directions `j` onwards starts on `fromSquare` and is a quiet move or a capture that fits its target. */
  lemma {:induction false} DirectionMovesFit(board: seq<Piece>, fromSquare: int, t: int, j: int, side: int)
    requires |board| == 64 && 0 <= fromSquare < 64 && KNIGHT <= t <= KING && 0 <= j <= DirectionCount(t)
    ensures forall m | m in DirectionMoves(board, fromSquare, t, j, side) ::
      m.From() == fromSquare && TargetFits(board, side, m) && (m.Flags() == QUIET_MOVE || m.Flags() == CAPTURE)
    decreases DirectionCount(t) - j
  {
    if j < DirectionCount(t) {
      DirectionMovesFit(board, fromSquare, t, j + 1, side);
      RayMovesFit(board, fromSquare, fromSquare, Offset(t, j), Sliding(t), side);
    }
  }

  /** The castling row of a side: 7 for WHITE, 0 otherwise. */
  function HomeRow(side: int): (row: int)
    ensures row == 0 || row == 7
  {
    if side == WHITE then 7 else 0
  }

  /** `count` squares from `start` on are empty. */
  predicate EmptyRun(board: seq<Piece>, start: int, count: int)
    requires |board| == 64 && 0 <= start && start + count <= 64
  {
    forall sq | start <= sq < start + count :: board[sq].Type() == EMPTY
  }

  /**
   * The castles of an unmoved king: queen-side when the a-file corner of
   * its home row holds an unmoved rook and the three squares between are
   * empty, king-side likewise with the h-file corner and two squares.
   */
  function CastleMoves(board: seq<Piece>, fromSquare: int, side: int): (r: seq<Move>)
    requires |board| == 64 && 0 <= fromSquare < 64
    ensures |r| <= 2
    ensures r != [] ==> board[fromSquare].Type() == KING && !board[fromSquare].HasMoved()
  {
    var piece := board[fromSquare];
    if piece.Type() == KING && !piece.HasMoved() then
      var row := HomeRow(side);
      CastleSide(board, fromSquare, row * 8, row * 8 + 1, 3, row * 8 + 2, QUEEN_CASTLE)
      + CastleSide(board, fromSquare, row * 8 + 7, row * 8 + 5, 2, row * 8 + 6, KING_CASTLE)
    else
      []
  }

  /**
   * One side of `addCastles`: the castle onto `to` when the corner
   * `rookSquare` holds an unmoved rook and the `count` squares from
   * `start` are empty.
   */
  function CastleSide(board: seq<Piece>, fromSquare: int, rookSquare: int, start: int, count: int, to: int, flags: int): (r: seq<Move>)
    requires |board| == 64 && 0 <= fromSquare < 64 && 0 <= rookSquare < 64 && 0 <= start && 0 <= count && start + count <= 64
  {
    var rook := board[rookSquare];
    if rook.Type() == ROOK && !rook.HasMoved() && EmptyRun(board, start, count) then [NewMove(fromSquare, to, flags)] else []
  }

  /**
   * A castle is generated only for an unmoved king, only onto the c- or
   * g-file of its home row, only with an unmoved rook in the matching
   * corner and the squares between empty; and when all that holds it is
   * generated.
   */
  lemma CastleMovesSpec(board: seq<Piece>, fromSquare: int, side: int)
    requires |board| == 64 && 0 <= fromSquare < 64
    ensures forall m | m in CastleMoves(board, fromSquare, side) :: m.From() == fromSquare && m.IsCastle() && TargetFits(board, side, m)
    ensures var row := HomeRow(side);
      NewMove(fromSquare, row * 8 + 2, QUEEN_CASTLE) in CastleMoves(board, fromSquare, side) <==>
        board[fromSquare].Type() == KING && !board[fromSquare].HasMoved()
        && board[row * 8].Type() == ROOK && !board[row * 8].HasMoved() && EmptyRun(board, row * 8 + 1, 3)
    ensures var row := HomeRow(side);
      NewMove(fromSquare, row * 8 + 6, KING_CASTLE) in CastleMoves(board, fromSquare, side) <==>
        board[fromSquare].Type() == KING && !board[fromSquare].HasMoved()
        && board[row * 8 + 7].Type() == ROOK && !board[row * 8 + 7].HasMoved() && EmptyRun(board, row * 8 + 5, 2)
    ensures forall m | m in CastleMoves(board, fromSquare, side) ::
      m == NewMove(fromSquare, HomeRow(side) * 8 + 2, QUEEN_CASTLE) || m == NewMove(fromSquare, HomeRow(side) * 8 + 6, KING_CASTLE)
  {
    var row := HomeRow(side);
    var q := NewMove(fromSquare, row * 8 + 2, QUEEN_CASTLE);
    var k := NewMove(fromSquare, row * 8 + 6, KING_CASTLE);
    assert q != k by {
      assert q.To() != k.To();
    }
    assert board[row * 8 + 2].Type() == EMPTY <== EmptyRun(board, row * 8 + 1, 3);
    assert board[row * 8 + 6].Type() == EMPTY <== EmptyRun(board, row * 8 + 5, 2);
  }

  /** The push direction of a side's pawns: up the board (-8) for WHITE, down (+8) otherwise. */
  function Forward(side: int): (f: int)
    ensures f == -8 || f == 8
  {
    if side == WHITE then -8 else 8
  }

  /** The pawn stands on the row before its promotion row. */
  predicate BeforePromotion(fromSquare: int, side: int)
    requires 0 <= fromSquare < 64
  {
    (side == WHITE && GetRow(fromSquare) == 1) || (side == BLACK && GetRow(fromSquare) == 6)
  }

  /** The pawn stands on its starting row. */
  predicate InStartingSquare(fromSquare: int, side: int)
    requires 0 <= fromSquare < 64
  {
    (side == BLACK && GetRow(fromSquare) == 1) || (side == WHITE && GetRow(fromSquare) == 6)
  }

  /** The four promotions onto `to`, knight first, as the source adds them. */
  function Promotions(fromSquare: int, to: int, capture: bool): (r: seq<Move>)
    requires 0 <= fromSquare < 64 && 0 <= to < 64
    ensures |r| == 4
    ensures forall p | 0 <= p < 4 ::
      r[p].From() == fromSquare && r[p].To() == to
      && r[p].Flags() == (if capture then KNIGHT_PROMOTION_CAPTURE else KNIGHT_PROMOTION) + p
  {
    if capture then
      [NewMove(fromSquare, to, KNIGHT_PROMOTION_CAPTURE), NewMove(fromSquare, to, BISHOP_PROMOTION_CAPTURE),
       NewMove(fromSquare, to, ROOK_PROMOTION_CAPTURE), NewMove(fromSquare, to, QUEEN_PROMOTION_CAPTURE)]
    else
      [NewMove(fromSquare, to, KNIGHT_PROMOTION), NewMove(fromSquare, to, BISHOP_PROMOTION),
       NewMove(fromSquare, to, ROOK_PROMOTION), NewMove(fromSquare, to, QUEEN_PROMOTION)]
  }

  /** Each of the four is a promotion, a capture exactly when asked for, onto `to`. */
  lemma PromotionsSpec(fromSquare: int, to: int, capture: bool)
    requires 0 <= fromSquare < 64 && 0 <= to < 64
    ensures forall m | m in Promotions(fromSquare, to, capture) ::
      m.From() == fromSquare && m.To() == to && m.IsPromotion() && m.IsCapture() == capture && !m.IsEpCapture()
  {
    var r := Promotions(fromSquare, to, capture);
    forall m | m in r
      ensures m.From() == fromSquare && m.To() == to && m.IsPromotion() && m.IsCapture() == capture && !m.IsEpCapture()
    {
      var p :| 0 <= p < 4 && r[p] == m;
      KindPredicates(m);
    }
  }

  /**
   * The pushes of the pawn on `fromSquare`: onto an empty square ahead,
   * as four promotions from the row before promotion, otherwise as a
   * quiet move followed, from the starting row, by a double push when the
   * second square is empty too.
   */
  function PawnPushes(board: seq<Piece>, fromSquare: int, side: int): (r: seq<Move>)
    requires |board| == 64 && 0 <= fromSquare < 64 && 0 <= fromSquare + Forward(side) < 64
    ensures r != [] <==> board[fromSquare + Forward(side)].Type() == EMPTY
  {
    var forwardOffset := Forward(side);
    var to := fromSquare + forwardOffset;
    if board[to].Type() == EMPTY then
      if BeforePromotion(fromSquare, side) then
        Promotions(fromSquare, to, false)
      else
        [NewMove(fromSquare, to, QUIET_MOVE)]
        + if InStartingSquare(fromSquare, side) && board[fromSquare + 2 * forwardOffset].Type() == EMPTY
          then [NewMove(fromSquare, fromSquare + 2 * forwardOffset, DOUBLE_PAWN_PUSH)] else []
    else
      []
  }

  /**
   * Pushes never capture and land on empty squares; they are promotions
   * exactly from the row before promotion; a double push comes only from
   * the starting row, over an empty square onto an empty square.
   */
  lemma PawnPushesSpec(board: seq<Piece>, fromSquare: int, side: int)
    requires |board| == 64 && 0 <= fromSquare < 64 && 0 <= fromSquare + Forward(side) < 64
    ensures forall m | m in PawnPushes(board, fromSquare, side) ::
      m.From() == fromSquare && TargetFits(board, side, m) && !m.IsCapture()
      && (m.IsPromotion() <==> BeforePromotion(fromSquare, side))
      && (m.IsDoublePawnPush() <==> m.To() != fromSquare + Forward(side))
      && (m.IsDoublePawnPush() ==>
            InStartingSquare(fromSquare, side) && m.To() == fromSquare + 2 * Forward(side)
            && board[fromSquare + Forward(side)].Type() == EMPTY)
  {
    var to := fromSquare + Forward(side);
    if board[to].Type() == EMPTY && BeforePromotion(fromSquare, side) {
      PromotionsSpec(fromSquare, to, false);
    }
    forall m | m in PawnPushes(board, fromSquare, side)
      ensures !m.IsCapture() && (m.IsPromotion() <==> BeforePromotion(fromSquare, side)) && (m.IsDoublePawnPush() <==> m.To() != to)
    {
      KindPredicates(m);
    }
  }

  /**
   * The moves a pawn's push may add, described square by square: with the
   * square ahead empty, the four non-capturing promotions onto it from the
   * row before promotion; otherwise the quiet step onto it and, from the
   * starting row with the second square empty too, the double push.
   */
  ghost predicate PushTarget(board: seq<Piece>, fromSquare: int, side: int, m: Move)
    requires |board| == 64 && 0 <= fromSquare < 64 && 0 <= fromSquare + Forward(side) < 64
  {
    var to := fromSquare + Forward(side);
    board[to].Type() == EMPTY && m.From() == fromSquare
    && if BeforePromotion(fromSquare, side) then
         m.To() == to && KNIGHT_PROMOTION <= m.Flags() <= QUEEN_PROMOTION
       else
         (m.To() == to && m.Flags() == QUIET_MOVE)
         || (InStartingSquare(fromSquare, side) && board[fromSquare + 2 * Forward(side)].Type() == EMPTY
             && m.To() == fromSquare + 2 * Forward(side) && m.Flags() == DOUBLE_PAWN_PUSH)
  }

  /** A move is one of the four promotions onto `to` iff it goes from `fromSquare` to `to` with one of their kinds. */
  lemma PromotionsReach(fromSquare: int, to: int, capture: bool, m: Move)
    requires 0 <= fromSquare < 64 && 0 <= to < 64
    ensures var first := if capture then KNIGHT_PROMOTION_CAPTURE else KNIGHT_PROMOTION;
      m in Promotions(fromSquare, to, capture) <==>
      m.From() == fromSquare && m.To() == to && first <= m.Flags() <= first + 3
  {
    var r := Promotions(fromSquare, to, capture);
    var first := if capture then KNIGHT_PROMOTION_CAPTURE else KNIGHT_PROMOTION;
    if m.From() == fromSquare && m.To() == to && first <= m.Flags() <= first + 3 {
      assert r[m.Flags() - first] == m;
    }
  }

  /**
   * `addPawnMoves`' pushes add exactly the moves `PushTarget` describes:
   * the quiet step, the four promotions and the double push are each
   * generated when, and only when, their squares are empty.
   */
  lemma PawnPushesReach(board: seq<Piece>, fromSquare: int, side: int)
    requires |board| == 64 && 0 <= fromSquare < 64 && 0 <= fromSquare + Forward(side) < 64
    ensures forall m :: m in PawnPushes(board, fromSquare, side) <==> PushTarget(board, fromSquare, side, m)
  {
    var to := fromSquare + Forward(side);
    forall m
      ensures m in PawnPushes(board, fromSquare, side) <==> PushTarget(board, fromSquare, side, m)
    {
      if board[to].Type() == EMPTY && BeforePromotion(fromSquare, side) {
        PromotionsReach(fromSquare, to, false, m);
      }
    }
  }

  /**
   * `addPawnCaptures` on one side (`sideOffset` 1 or -1): an en passant
   * capture when the neighbouring square holds a pawn flagged EN_PASSANT,
   * otherwise a capture (four promotion captures from the row before
   * promotion) onto the diagonal square when it holds the other colour.
   */
  function PawnCaptures(board: seq<Piece>, fromSquare: int, forwardOffset: int, sideOffset: int, side: int, beforePromotion: bool): (r: seq<Move>)
    requires |board| == 64 && 0 <= fromSquare < 64 && (forwardOffset == 8 || forwardOffset == -8)
    requires sideOffset == 1 || sideOffset == -1
    ensures |r| <= 4
  {
    var forward := if forwardOffset < 0 then forwardOffset - 2 else forwardOffset + 2;
    var sideSquare := GetSquareWithOffset(fromSquare, sideOffset);
    if sideSquare != -1 && board[sideSquare].Type() == PAWN && board[sideSquare].CanBeCapturedEP() then
      [NewMove(fromSquare, GetSquareWithOffset(sideSquare, forward), EP_CAPTURE)]
    else
      DiagonalCaptures(board, fromSquare, GetSquareWithOffset(fromSquare, forward + sideOffset), side, beforePromotion)
  }

  /**
   * The non en passant part of `addPawnCaptures`: a capture (four
   * promotion captures from the row before promotion) onto `diagonal` when
   * it is on the board and holds the other colour.
   */
  function DiagonalCaptures(board: seq<Piece>, fromSquare: int, diagonal: int, side: int, beforePromotion: bool): (r: seq<Move>)
    requires |board| == 64 && 0 <= fromSquare < 64 && -1 <= diagonal < 64
  {
    if diagonal != -1 && Enemy(board, diagonal, side) then
      if beforePromotion then Promotions(fromSquare, diagonal, true)
      else [NewMove(fromSquare, diagonal, CAPTURE)]
    else
      []
  }

  /** The facts `PawnCapturesSpec` states, about any list `r` of moves from `fromSquare`. */
  ghost predicate PawnCapturesFit(board: seq<Piece>, fromSquare: int, forwardOffset: int, sideOffset: int, side: int,
                                  beforePromotion: bool, r: seq<Move>)
    requires |board| == 64 && 0 <= fromSquare < 64 && (forwardOffset == 8 || forwardOffset == -8)
    requires sideOffset == 1 || sideOffset == -1
  {
    var sideSquare := GetSquareWithOffset(fromSquare, sideOffset);
    var forward := if forwardOffset < 0 then forwardOffset - 2 else forwardOffset + 2;
    forall m | m in r ::
      m.From() == fromSquare && m.IsCapture() && TargetFits(board, side, m)
      && (m.IsEpCapture() <==> sideSquare != -1 && board[sideSquare].Type() == PAWN && board[sideSquare].CanBeCapturedEP())
      && (!m.IsEpCapture() ==> m.To() == GetSquareWithOffset(fromSquare, forward + sideOffset) && (m.IsPromotion() <==> beforePromotion))
  }

  /**
   * Pawn captures are all captures. An en passant capture needs a pawn
   * flagged EN_PASSANT beside the mover and is then the only move on that
   * side; any other capture lands on the diagonal square, on a piece of
   * the other colour, and is a promotion exactly from the row before
   * promotion.
   */
  lemma PawnCapturesSpec(board: seq<Piece>, fromSquare: int, forwardOffset: int, sideOffset: int, side: int, beforePromotion: bool)
    requires |board| == 64 && 0 <= fromSquare < 64 && (forwardOffset == 8 || forwardOffset == -8)
    requires sideOffset == 1 || sideOffset == -1
    ensures PawnCapturesFit(board, fromSquare, forwardOffset, sideOffset, side, beforePromotion,
                            PawnCaptures(board, fromSquare, forwardOffset, sideOffset, side, beforePromotion))
  {
    var forward := if forwardOffset < 0 then forwardOffset - 2 else forwardOffset + 2;
    var sideSquare := GetSquareWithOffset(fromSquare, sideOffset);
    if sideSquare != -1 && board[sideSquare].Type() == PAWN && board[sideSquare].CanBeCapturedEP() {
      PawnEnPassantFit(board, fromSquare, forwardOffset, sideOffset, side, beforePromotion);
    } else {
      PawnDiagonalFit(board, fromSquare, forwardOffset, sideOffset, side, beforePromotion);
    }
  }

  lemma PawnEnPassantFit(board: seq<Piece>, fromSquare: int, forwardOffset: int, sideOffset: int, side: int, beforePromotion: bool)
    requires |board| == 64 && 0 <= fromSquare < 64 && (forwardOffset == 8 || forwardOffset == -8)
    requires sideOffset == 1 || sideOffset == -1
    requires var sideSquare := GetSquareWithOffset(fromSquare, sideOffset);
      sideSquare != -1 && board[sideSquare].Type() == PAWN && board[sideSquare].CanBeCapturedEP()
    ensures PawnCapturesFit(board, fromSquare, forwardOffset, sideOffset, side, beforePromotion,
                            PawnCaptures(board, fromSquare, forwardOffset, sideOffset, side, beforePromotion))
  {
    var forward := if forwardOffset < 0 then forwardOffset - 2 else forwardOffset + 2;
    var sideSquare := GetSquareWithOffset(fromSquare, sideOffset);
    var m := NewMove(fromSquare, GetSquareWithOffset(sideSquare, forward), EP_CAPTURE);
    NewMoveKeeps(fromSquare, GetSquareWithOffset(sideSquare, forward), EP_CAPTURE);
    hide GetSquareWithOffset, Enemy, NewMove, DiagonalCaptures;
    assert m.IsCapture() && m.IsEpCapture() && TargetFits(board, side, m);
    assert PawnCaptures(board, fromSquare, forwardOffset, sideOffset, side, beforePromotion) == [m];
  }

  lemma PawnDiagonalFit(board: seq<Piece>, fromSquare: int, forwardOffset: int, sideOffset: int, side: int, beforePromotion: bool)
    requires |board| == 64 && 0 <= fromSquare < 64 && (forwardOffset == 8 || forwardOffset == -8)
    requires sideOffset == 1 || sideOffset == -1
    requires var sideSquare := GetSquareWithOffset(fromSquare, sideOffset);
      !(sideSquare != -1 && board[sideSquare].Type() == PAWN && board[sideSquare].CanBeCapturedEP())
    ensures PawnCapturesFit(board, fromSquare, forwardOffset, sideOffset, side, beforePromotion,
                            PawnCaptures(board, fromSquare, forwardOffset, sideOffset, side, beforePromotion))
  {
    var r := PawnCaptures(board, fromSquare, forwardOffset, sideOffset, side, beforePromotion);
    var forward := if forwardOffset < 0 then forwardOffset - 2 else forwardOffset + 2;
    var diagonal := GetSquareWithOffset(fromSquare, forward + sideOffset);
    if diagonal != -1 && Enemy(board, diagonal, side) {
      if beforePromotion {
        assert r == Promotions(fromSquare, diagonal, true);
        PromotionsSpec(fromSquare, diagonal, true);
      } else {
        var m := NewMove(fromSquare, diagonal, CAPTURE);
        assert r == [m];
        KindPredicates(m);
      }
    } else {
      assert r == [];
    }
  }

  /**
   * The moves `addPawnCaptures` may add on one side, described square by
   * square: with a pawn flagged EN_PASSANT beside the mover, only the en
   * passant capture onto the square behind that pawn; otherwise, with a
   * piece of the other colour on the diagonal, the capture onto it, or the
   * four promotion captures from the row before promotion.
   */
  ghost predicate CaptureTarget(board: seq<Piece>, fromSquare: int, forwardOffset: int, sideOffset: int, side: int,
                                beforePromotion: bool, m: Move)
    requires |board| == 64 && 0 <= fromSquare < 64 && (forwardOffset == 8 || forwardOffset == -8)
    requires sideOffset == 1 || sideOffset == -1
  {
    var forward := if forwardOffset < 0 then forwardOffset - 2 else forwardOffset + 2;
    var sideSquare := GetSquareWithOffset(fromSquare, sideOffset);
    var diagonal := GetSquareWithOffset(fromSquare, forward + sideOffset);
    if sideSquare != -1 && board[sideSquare].Type() == PAWN && board[sideSquare].CanBeCapturedEP() then
      m == NewMove(fromSquare, GetSquareWithOffset(sideSquare, forward), EP_CAPTURE)
    else
      diagonal != -1 && Enemy(board, diagonal, side) && m.From() == fromSquare && m.To() == diagonal
      && if beforePromotion then KNIGHT_PROMOTION_CAPTURE <= m.Flags() <= QUEEN_PROMOTION_CAPTURE
         else m.Flags() == CAPTURE
  }

  /**
   * `addPawnCaptures` adds exactly the moves `CaptureTarget` describes: the
   * en passant capture beside a flagged pawn, and otherwise the capture (or
   * the four promotion captures) of an enemy on the diagonal.
   */
  lemma PawnCapturesReach(board: seq<Piece>, fromSquare: int, forwardOffset: int, sideOffset: int, side: int, beforePromotion: bool)
    requires |board| == 64 && 0 <= fromSquare < 64 && (forwardOffset == 8 || forwardOffset == -8)
    requires sideOffset == 1 || sideOffset == -1
    ensures forall m ::
      (m in PawnCaptures(board, fromSquare, forwardOffset, sideOffset, side, beforePromotion)
       <==> CaptureTarget(board, fromSquare, forwardOffset, sideOffset, side, beforePromotion, m))
  {
    var forward := if forwardOffset < 0 then forwardOffset - 2 else forwardOffset + 2;
    var diagonal := GetSquareWithOffset(fromSquare, forward + sideOffset);
    forall m
      ensures m in PawnCaptures(board, fromSquare, forwardOffset, sideOffset, side, beforePromotion)
        <==> CaptureTarget(board, fromSquare, forwardOffset, sideOffset, side, beforePromotion, m)
    {
      if diagonal != -1 && beforePromotion {
        PromotionsReach(fromSquare, diagonal, true, m);
      }
    }
  }

  /**
   * A pawn's moves are exactly its pushes and its captures on either side:
   * nothing the source's branches promise is missing and nothing else is
   * added.
   */
  lemma PawnMovesReach(board: seq<Piece>, fromSquare: int, side: int)
    requires |board| == 64 && Movable(board, fromSquare, side) && board[fromSquare].Type() == PAWN
    ensures forall m :: m in PieceMoves(board, fromSquare, side) <==>
      PushTarget(board, fromSquare, side, m)
      || CaptureTarget(board, fromSquare, Forward(side), 1, side, BeforePromotion(fromSquare, side), m)
      || CaptureTarget(board, fromSquare, Forward(side), -1, side, BeforePromotion(fromSquare, side), m)
  {
    var beforePromotion := BeforePromotion(fromSquare, side);
    PawnPushesReach(board, fromSquare, side);
    PawnCapturesReach(board, fromSquare, Forward(side), 1, side, beforePromotion);
    PawnCapturesReach(board, fromSquare, Forward(side), -1, side, beforePromotion);
  }

  /** The generator can handle the piece on `square`: a real piece type, and a pawn's push stays on the board. */
  predicate Movable(board: seq<Piece>, square: int, side: int)
    requires |board| == 64
  {
    0 <= square < 64 && PAWN <= board[square].Type() <= KING
    && (board[square].Type() == PAWN ==> 0 <= square + Forward(side) < 64)
  }

  /** All moves of the piece on `fromSquare`, in the order the source adds them. */
  function PieceMoves(board: seq<Piece>, fromSquare: int, side: int): seq<Move>
    requires |board| == 64 && Movable(board, fromSquare, side)
  {
    var t := board[fromSquare].Type();
    if t != PAWN then
      DirectionMoves(board, fromSquare, t, 0, side) + CastleMoves(board, fromSquare, side)
    else
      var forwardOffset := Forward(side);
      var beforePromotion := BeforePromotion(fromSquare, side);
      PawnPushes(board, fromSquare, side)
      + PawnCaptures(board, fromSquare, forwardOffset, 1, side, beforePromotion)
      + PawnCaptures(board, fromSquare, forwardOffset, -1, side, beforePromotion)
  }

  /** Every move of a piece starts on its square and lands where its kind says it may. */
  lemma PieceMovesFit(board: seq<Piece>, fromSquare: int, side: int)
    requires |board| == 64 && Movable(board, fromSquare, side)
    ensures forall m | m in PieceMoves(board, fromSquare, side) :: m.From() == fromSquare && TargetFits(board, side, m)
  {
    var t := board[fromSquare].Type();
    if t != PAWN {
      DirectionMovesFit(board, fromSquare, t, 0, side);
      CastleMovesSpec(board, fromSquare, side);
    } else {
      var beforePromotion := BeforePromotion(fromSquare, side);
      PawnPushesSpec(board, fromSquare, side);
      PawnCapturesSpec(board, fromSquare, Forward(side), 1, side, beforePromotion);
      PawnCapturesSpec(board, fromSquare, Forward(side), -1, side, beforePromotion);
    }
  }

  /** What `updatePossibleMoves` needs of the side's list: every listed square holds a piece it can move. */
  ghost predicate Generable(board: seq<Piece>, s: Slots, side: int)
  {
    |board| == 64 && Shaped(s) && 0 <= side < 2 && 0 <= s.count[side] <= MAX_PIECES
    && forall i | 0 <= i < s.count[side] :: Movable(board, s.pieces[side][i], side)
  }

  /** The moves of the listed pieces of `side` from slot `i` on, piece by piece in list order. */
  ghost function GenFrom(board: seq<Piece>, s: Slots, side: int, i: int): seq<Move>
    requires Generable(board, s, side) && 0 <= i <= s.count[side]
    decreases s.count[side] - i
  {
    if i == s.count[side] then []
    else PieceMoves(board, s.pieces[side][i], side) + GenFrom(board, s, side, i + 1)
  }

  /** `updatePossibleMoves`: the moves of every listed piece of the side to move, piece by piece in list order. */
  ghost function GenMoves(board: seq<Piece>, s: Slots, side: int): seq<Move>
    requires Generable(board, s, side)
  {
    GenFrom(board, s, side, 0)
  }

  /** The moves of the pieces from slot `i` on start on one of their squares and fit their targets. */
  lemma {:induction false} GenFromFit(board: seq<Piece>, s: Slots, side: int, i: int)
    requires Generable(board, s, side) && 0 <= i <= s.count[side]
    ensures var listed := s.pieces[side][i..s.count[side]];
      forall m | m in GenFrom(board, s, side, i) :: TargetFits(board, side, m) && m.From() in listed
    decreases s.count[side] - i
  {
    if i < s.count[side] {
      var listed, n := s.pieces[side], s.count[side];
      GenFromFit(board, s, side, i + 1);
      var here := PieceMoves(board, listed[i], side);
      var rest := GenFrom(board, s, side, i + 1);
      assert GenFrom(board, s, side, i) == here + rest;
      PieceMovesFit(board, listed[i], side);
      hide PieceMoves, GenFrom, TargetFits, Generable;
      forall m | m in here + rest
        ensures TargetFits(board, side, m) && m.From() in listed[i..n]
      {
        if m in here {
          assert listed[i] == listed[i..n][0];
        } else {
          assert m.From() in listed[i + 1..n];
          assert listed[i + 1..n] == listed[i..n][1..];
        }
      }
    }
  }


}
