/**
 * `MoveGenerator::updatePossibleMoves` and `addPawnCaptures`
 * (src/index_model/move_gen.h) as methods that append to the shared
 * `ChessMoves` buffer inside the same nested loops as the source; each is
 * proved to append exactly what the functions of module MoveGen describe.
 *
 * The direction tables, the only state of the source's class, are the
 * constants of module Directions, so the methods stand at module level.
 * The 300-move capacity is not checked by the source; here it is a
 * precondition on the number of moves the position produces.
 */
module MoveGenerator {
  import opened Pieces
  import opened Moves
  import opened Mailboxes
  import opened PieceLists
  import opened Directions
  import opened MoveGen

  /** Appending in two steps is appending the two parts at once. */
  lemma AppendTwice<T>(a: seq<T>, b: seq<T>, c: seq<T>)
    ensures a + (b + c) == (a + b) + c
  {
  }

  /** The inner ray loop: walk one direction from `fromSquare`, adding quiet moves and at most one capture. */
  method AddRay(moves: ChessMoves, mailbox: Mailbox, fromSquare: int, offset: int, sliding: bool, side: int)
    requires moves.Valid() && mailbox.Valid() && 0 <= fromSquare < 64 && -21 <= offset <= 21 && offset != 0
    requires moves.nMoves + |RayMoves(mailbox.Board(), fromSquare, fromSquare, offset, sliding, side)| <= MAX_AVAILABLE_MOVES
    modifies moves, moves.moves
    ensures moves.Valid()
    ensures moves.Contents() == old(moves.Contents()) + RayMoves(mailbox.Board(), fromSquare, fromSquare, offset, sliding, side)
  {
    ghost var board := mailbox.Board();
    ghost var total := old(moves.Contents()) + RayMoves(board, fromSquare, fromSquare, offset, sliding, side);
    var toSquare := fromSquare;
    var done := false;
    while !done
      invariant moves.Valid() && 0 <= toSquare < 64 && mailbox.Board() == board
      invariant done ==> moves.Contents() == total
      invariant !done ==> moves.Contents() + RayMoves(board, fromSquare, toSquare, offset, sliding, side) == total
      invariant !done ==> moves.nMoves + |RayMoves(board, fromSquare, toSquare, offset, sliding, side)| <= MAX_AVAILABLE_MOVES
      decreases !done, Remaining(toSquare, offset)
    {
      ghost var before := moves.Contents();
      var next;
      next, done := AddRayStep(moves, mailbox, fromSquare, toSquare, offset, sliding, side);
      if !done {
        var added := moves.Contents()[|before|..];
        assert moves.Contents() == before + added;
        AppendTwice(before, added, RayMoves(board, fromSquare, next, offset, sliding, side));
        toSquare := next;
      }
    }
  }

  /**
   * One square of the ray loop: the square after `toSquare` is looked at;
   * the walk ends at the edge, at an occupied square (after adding the
   * capture of a piece of the other colour) or after one step of a piece
   * that does not slide, and otherwise goes on from that square.
   */
  method AddRayStep(moves: ChessMoves, mailbox: Mailbox, fromSquare: int, toSquare: int, offset: int, sliding: bool, side: int)
    returns (next: int, done: bool)
    requires moves.Valid() && mailbox.Valid() && 0 <= fromSquare < 64 && 0 <= toSquare < 64 && -21 <= offset <= 21 && offset != 0
    requires moves.nMoves + |RayMoves(mailbox.Board(), fromSquare, toSquare, offset, sliding, side)| <= MAX_AVAILABLE_MOVES
    modifies moves, moves.moves
    ensures moves.Valid() && 0 <= old(moves.nMoves) <= moves.nMoves
    ensures moves.Contents()[..old(moves.nMoves)] == old(moves.Contents())
    ensures done ==> moves.Contents() == old(moves.Contents()) + RayMoves(mailbox.Board(), fromSquare, toSquare, offset, sliding, side)
    ensures !done ==> 0 <= next < 64 && Remaining(next, offset) < Remaining(toSquare, offset)
    ensures !done ==>
      RayMoves(mailbox.Board(), fromSquare, toSquare, offset, sliding, side)
      == moves.Contents()[old(moves.nMoves)..] + RayMoves(mailbox.Board(), fromSquare, next, offset, sliding, side)
  {
    next := GetSquareWithOffset(toSquare, offset);
    if next == -1 {
      return next, true;
    }
    var capturedPiece := mailbox.chessBoard[next];
    if capturedPiece.Type() != EMPTY {
      if capturedPiece.Color() != side {
        moves.AddMove(fromSquare, next, CAPTURE);
      }
      return next, true;
    }
    moves.AddMove(fromSquare, next, QUIET_MOVE);
    StepProgress(toSquare, offset);
    done := !sliding;
  }

  /** All directions of the non-pawn piece on `fromSquare`, in table order. */
  method AddDirections(moves: ChessMoves, mailbox: Mailbox, fromSquare: int, t: int, side: int)
    requires moves.Valid() && mailbox.Valid() && 0 <= fromSquare < 64 && KNIGHT <= t <= KING
    requires moves.nMoves + |DirectionMoves(mailbox.Board(), fromSquare, t, 0, side)| <= MAX_AVAILABLE_MOVES
    modifies moves, moves.moves
    ensures moves.Valid()
    ensures moves.Contents() == old(moves.Contents()) + DirectionMoves(mailbox.Board(), fromSquare, t, 0, side)
  {
    ghost var board := mailbox.Board();
    var j := 0;
    while j < DirectionCount(t)
      invariant 0 <= j <= DirectionCount(t) && moves.Valid() && mailbox.Board() == board
      invariant moves.Contents() + DirectionMoves(board, fromSquare, t, j, side)
        == old(moves.Contents()) + DirectionMoves(board, fromSquare, t, 0, side)
      invariant moves.nMoves + |DirectionMoves(board, fromSquare, t, j, side)| <= MAX_AVAILABLE_MOVES
      decreases DirectionCount(t) - j
    {
      ghost var before := moves.Contents();
      ghost var ray := RayMoves(board, fromSquare, fromSquare, Offset(t, j), Sliding(t), side);
      ghost var rest := DirectionMoves(board, fromSquare, t, j + 1, side);
      assert DirectionMoves(board, fromSquare, t, j, side) == ray + rest;
      hide DirectionMoves, RayMoves;
      AddRay(moves, mailbox, fromSquare, Offset(t, j), Sliding(t), side);
      AppendTwice(before, ray, rest);
      j := j + 1;
    }
  }

  /** `count` squares from `start` on are empty, checked square by square with an early exit. */
  method CheckEmptyRun(mailbox: Mailbox, start: int, count: int) returns (empty: bool)
    requires mailbox.Valid() && 0 <= start && 0 <= count && start + count <= 64
    ensures empty == EmptyRun(mailbox.Board(), start, count)
  {
    empty := true;
    var j := 0;
    while j < count && empty
      invariant 0 <= j <= count
      invariant empty <==> forall sq | start <= sq < start + j :: mailbox.chessBoard[sq].Type() == EMPTY
      invariant !empty ==> mailbox.chessBoard[start + j - 1].Type() != EMPTY
    {
      if mailbox.chessBoard[start + j].Type() != EMPTY {
        empty := false;
      }
      j := j + 1;
    }
  }

  /** The castling block of an unmoved king. */
  method AddCastles(moves: ChessMoves, mailbox: Mailbox, fromSquare: int, side: int)
    requires moves.Valid() && mailbox.Valid() && 0 <= fromSquare < 64
    requires moves.nMoves + |CastleMoves(mailbox.Board(), fromSquare, side)| <= MAX_AVAILABLE_MOVES
    modifies moves, moves.moves
    ensures moves.Valid()
    ensures moves.Contents() == old(moves.Contents()) + CastleMoves(mailbox.Board(), fromSquare, side)
  {
    ghost var board, before := mailbox.Board(), moves.Contents();
    var piece := mailbox.chessBoard[fromSquare];
    if piece.Type() == KING && !piece.HasMoved() {
      var row := if side == WHITE then 7 else 0;
      ghost var queenSide := CastleSide(board, fromSquare, row * 8, row * 8 + 1, 3, row * 8 + 2, QUEEN_CASTLE);
      ghost var kingSide := CastleSide(board, fromSquare, row * 8 + 7, row * 8 + 5, 2, row * 8 + 6, KING_CASTLE);
      assert CastleMoves(board, fromSquare, side) == queenSide + kingSide;
      hide CastleMoves;
      AddCastleSide(moves, mailbox, fromSquare, row * 8, row * 8 + 1, 3, row * 8 + 2, QUEEN_CASTLE);
      AddCastleSide(moves, mailbox, fromSquare, row * 8 + 7, row * 8 + 5, 2, row * 8 + 6, KING_CASTLE);
      AppendTwice(before, queenSide, kingSide);
    }
  }

  /** One of the two symmetric blocks of `addCastles`: the rook in its corner, then the squares between. */
  method AddCastleSide(moves: ChessMoves, mailbox: Mailbox, fromSquare: int, rookSquare: int, start: int, count: int,
                       to: int, flags: int)
    requires moves.Valid() && mailbox.Valid() && 0 <= fromSquare < 64 && 0 <= rookSquare < 64
    requires 0 <= start && 0 <= count && start + count <= 64
    requires moves.nMoves + |CastleSide(mailbox.Board(), fromSquare, rookSquare, start, count, to, flags)| <= MAX_AVAILABLE_MOVES
    modifies moves, moves.moves
    ensures moves.Valid()
    ensures moves.Contents() == old(moves.Contents()) + CastleSide(mailbox.Board(), fromSquare, rookSquare, start, count, to, flags)
  {
    var rook := mailbox.chessBoard[rookSquare];
    if rook.Type() == ROOK && !rook.HasMoved() {
      var empty := CheckEmptyRun(mailbox, start, count);
      if empty {
        moves.AddMove(fromSquare, to, flags);
      }
    }
  }

  /** The four promotions, knight first. */
  method AddPromotions(moves: ChessMoves, fromSquare: int, to: int, capture: bool)
    requires moves.Valid() && 0 <= fromSquare < 64 && 0 <= to < 64 && moves.nMoves + 4 <= MAX_AVAILABLE_MOVES
    modifies moves, moves.moves
    ensures moves.Valid() && moves.Contents() == old(moves.Contents()) + Promotions(fromSquare, to, capture)
  {
    if capture {
      moves.AddMove(fromSquare, to, KNIGHT_PROMOTION_CAPTURE);
      moves.AddMove(fromSquare, to, BISHOP_PROMOTION_CAPTURE);
      moves.AddMove(fromSquare, to, ROOK_PROMOTION_CAPTURE);
      moves.AddMove(fromSquare, to, QUEEN_PROMOTION_CAPTURE);
    } else {
      moves.AddMove(fromSquare, to, KNIGHT_PROMOTION);
      moves.AddMove(fromSquare, to, BISHOP_PROMOTION);
      moves.AddMove(fromSquare, to, ROOK_PROMOTION);
      moves.AddMove(fromSquare, to, QUEEN_PROMOTION);
    }
  }

  /** The pushes of the pawn on `fromSquare`. */
  method AddPawnPushes(moves: ChessMoves, mailbox: Mailbox, fromSquare: int, side: int)
    requires moves.Valid() && mailbox.Valid() && 0 <= fromSquare < 64 && 0 <= fromSquare + Forward(side) < 64
    requires moves.nMoves + |PawnPushes(mailbox.Board(), fromSquare, side)| <= MAX_AVAILABLE_MOVES
    modifies moves, moves.moves
    ensures moves.Valid()
    ensures moves.Contents() == old(moves.Contents()) + PawnPushes(mailbox.Board(), fromSquare, side)
  {
    var forwardOffset := if side == WHITE then -8 else 8;
    var row := GetRow(fromSquare);
    var squareBeforePromotion := (side == WHITE && row == 1) || (side == BLACK && row == 6);
    var inStartingSquare := (side == BLACK && row == 1) || (side == WHITE && row == 6);
    if mailbox.chessBoard[fromSquare + forwardOffset].Type() == EMPTY {
      if squareBeforePromotion {
        AddPromotions(moves, fromSquare, fromSquare + forwardOffset, false);
      } else {
        moves.AddMove(fromSquare, fromSquare + forwardOffset, QUIET_MOVE);
        if inStartingSquare && mailbox.chessBoard[fromSquare + 2 * forwardOffset].Type() == EMPTY {
          moves.AddMove(fromSquare, fromSquare + 2 * forwardOffset, DOUBLE_PAWN_PUSH);
        }
      }
    }
  }

  /** `addPawnCaptures`: the captures of the pawn on `fromSquare` towards side `sideOffset`. */
  method AddPawnCaptures(moves: ChessMoves, mailbox: Mailbox, fromSquare: int, forwardOffset: int, sideOffset: int,
                         sideToMove: int, squareBeforePromotion: bool)
    requires moves.Valid() && mailbox.Valid() && 0 <= fromSquare < 64
    requires (forwardOffset == 8 || forwardOffset == -8) && (sideOffset == 1 || sideOffset == -1)
    requires moves.nMoves + |PawnCaptures(mailbox.Board(), fromSquare, forwardOffset, sideOffset, sideToMove, squareBeforePromotion)|
      <= MAX_AVAILABLE_MOVES
    modifies moves, moves.moves
    ensures moves.Valid()
    ensures moves.Contents() == old(moves.Contents())
      + PawnCaptures(mailbox.Board(), fromSquare, forwardOffset, sideOffset, sideToMove, squareBeforePromotion)
  {
    var forward := if forwardOffset < 0 then forwardOffset - 2 else forwardOffset + 2;
    var sideSquare := GetSquareWithOffset(fromSquare, sideOffset);
    if sideSquare != -1 && mailbox.chessBoard[sideSquare].Type() == PAWN && mailbox.chessBoard[sideSquare].CanBeCapturedEP() {
      moves.AddMove(fromSquare, GetSquareWithOffset(sideSquare, forward), EP_CAPTURE);
    } else {
      var diagonalSquare := GetSquareWithOffset(fromSquare, forward + sideOffset);
      AddDiagonalCaptures(moves, mailbox, fromSquare, diagonalSquare, sideToMove, squareBeforePromotion);
    }
  }

  /** The capture onto the diagonal square, when the neighbour is no en passant victim. */
  method AddDiagonalCaptures(moves: ChessMoves, mailbox: Mailbox, fromSquare: int, diagonalSquare: int,
                             sideToMove: int, squareBeforePromotion: bool)
    requires moves.Valid() && mailbox.Valid() && 0 <= fromSquare < 64 && -1 <= diagonalSquare < 64
    requires moves.nMoves + |DiagonalCaptures(mailbox.Board(), fromSquare, diagonalSquare, sideToMove, squareBeforePromotion)|
      <= MAX_AVAILABLE_MOVES
    modifies moves, moves.moves
    ensures moves.Valid()
    ensures moves.Contents() == old(moves.Contents())
      + DiagonalCaptures(mailbox.Board(), fromSquare, diagonalSquare, sideToMove, squareBeforePromotion)
  {
    if diagonalSquare != -1 {
      var capturePiece := mailbox.chessBoard[diagonalSquare];
      if capturePiece.Type() != EMPTY && capturePiece.Color() != sideToMove {
        if squareBeforePromotion {
          AddPromotions(moves, fromSquare, diagonalSquare, true);
        } else {
          moves.AddMove(fromSquare, diagonalSquare, CAPTURE);
        }
      }
    }
  }

  /** The body of the loop of `updatePossibleMoves`: every move of the piece on `fromSquare`. */
  method AddPieceMoves(moves: ChessMoves, mailbox: Mailbox, fromSquare: int, side: int)
    requires moves.Valid() && mailbox.Valid() && Movable(mailbox.Board(), fromSquare, side)
    requires moves.nMoves + |PieceMoves(mailbox.Board(), fromSquare, side)| <= MAX_AVAILABLE_MOVES
    modifies moves, moves.moves
    ensures moves.Valid()
    ensures moves.Contents() == old(moves.Contents()) + PieceMoves(mailbox.Board(), fromSquare, side)
  {
    ghost var before := moves.Contents();
    ghost var board := mailbox.Board();
    var piece := mailbox.chessBoard[fromSquare];
    if piece.Type() != PAWN {
      AddDirections(moves, mailbox, fromSquare, piece.Type(), side);
      AddCastles(moves, mailbox, fromSquare, side);
      ghost var directions, castles := DirectionMoves(board, fromSquare, piece.Type(), 0, side), CastleMoves(board, fromSquare, side);
      AppendTwice(before, directions, castles);
    } else {
      var forwardOffset := if side == WHITE then -8 else 8;
      var row := GetRow(fromSquare);
      var squareBeforePromotion := (side == WHITE && row == 1) || (side == BLACK && row == 6);
      AddPawnPushes(moves, mailbox, fromSquare, side);
      AddPawnCaptures(moves, mailbox, fromSquare, forwardOffset, 1, side, squareBeforePromotion);
      AddPawnCaptures(moves, mailbox, fromSquare, forwardOffset, -1, side, squareBeforePromotion);
      ghost var pushes := PawnPushes(board, fromSquare, side);
      ghost var right := PawnCaptures(board, fromSquare, forwardOffset, 1, side, squareBeforePromotion);
      ghost var left := PawnCaptures(board, fromSquare, forwardOffset, -1, side, squareBeforePromotion);
      AppendTwice(before, pushes + right, left);
      AppendTwice(before, pushes, right);
    }
  }

  /**
   * `updatePossibleMoves`: empty the buffer, then add the moves of every
   * listed piece of the side to move, in list order.
   */
  method UpdatePossibleMoves(mailbox: Mailbox, pieceList: PieceList, moves: ChessMoves, sideToMove: int)
    requires moves.Valid() && mailbox.Valid() && pieceList.Valid()
    requires Generable(mailbox.Board(), pieceList.Model().slots, sideToMove)
    requires |GenMoves(mailbox.Board(), pieceList.Model().slots, sideToMove)| <= MAX_AVAILABLE_MOVES
    modifies moves, moves.moves
    ensures moves.Valid()
    ensures moves.Contents() == GenMoves(mailbox.Board(), pieceList.Model().slots, sideToMove)
  {
    moves.ResetMoves();
    ghost var board, s := mailbox.Board(), pieceList.Model().slots;
    var nPieces := pieceList.nPieces[sideToMove];
    var i := 0;
    hide PieceMoves, Movable;
    while i < nPieces
      invariant 0 <= i <= nPieces && nPieces == s.count[sideToMove] && moves.Valid()
      invariant moves.Contents() + GenFrom(board, s, sideToMove, i) == GenMoves(board, s, sideToMove)
      invariant moves.nMoves + |GenFrom(board, s, sideToMove, i)| <= MAX_AVAILABLE_MOVES
      decreases nPieces - i
    {
      var fromSquare := pieceList.pieces[sideToMove, i];
      assert fromSquare == s.pieces[sideToMove][i];
      assert Movable(board, fromSquare, sideToMove);
      ghost var before := moves.Contents();
      ghost var here := PieceMoves(board, fromSquare, sideToMove);
      ghost var rest := GenFrom(board, s, sideToMove, i + 1);
      AddPieceMoves(moves, mailbox, fromSquare, sideToMove);
      AppendTwice(before, here, rest);
      i := i + 1;
    }
  }
}
