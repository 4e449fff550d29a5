/**
 * Which pseudo-legal moves `filterPseudoLegalMoves` (src/index_model/board.h)
 * throws away, stated on positions: a castle out of check or across an
 * attacked square, and any move after which the mover's own king is
 * attacked (Article 3.9 of the FIDE Laws of Chess, and 3.8.2 for castling).
 *
 * The filter decides every move on the position it happens to be in after
 * the previous moves were made and taken back. The round trip only gives
 * back an equivalent position, so the lemmas here show that equivalent
 * positions accept the same moves and reject the same moves.
 */
module Legality {
  import opened Pieces
  import opened Moves
  import opened Mailboxes
  import opened PieceLists
  import opened Attacks
  import Directions
  import opened Positions

  /** Both king squares are cached and on the board. */
  ghost predicate KingsPlaced(p: Position)
    requires Shape(p)
  {
    0 <= p.lists.kingSquare[BLACK] < 64 && 0 <= p.lists.kingSquare[WHITE] < 64
  }

  /** The square beside the king towards the castling rook, which the king crosses. */
  function Crossed(kingSquare: int, m: Move): (sq: int)
    ensures sq == kingSquare - 1 || sq == kingSquare + 1
  {
    if m.IsQueenCastle() then kingSquare - 1 else kingSquare + 1
  }

  /** For a ready castle the crossed square is where the rook lands, so it is on the board. */
  lemma CrossedIsRookSquare(p: Position, m: Move)
    requires Shape(p) && Ready(p, m) && m.IsCastle()
    ensures Crossed(p.lists.kingSquare[p.side], m) == GetRookMoveFromCastle(m).1
    ensures 0 <= Crossed(p.lists.kingSquare[p.side], m) < 64
  {
    assert CastleReady(p, m);
  }

  /** A castle the filter drops before trying it: the king is attacked, or the square it crosses is. */
  ghost predicate CastleThroughCheck(p: Position, m: Move)
    requires Shape(p) && KingsPlaced(p) && Ready(p, m)
  {
    var k := p.lists.kingSquare[p.side];
    m.IsCastle()
    && (CrossedIsRookSquare(p, m);
        SquareIsAttacked(k, p.board, p.side) || SquareIsAttacked(Crossed(k, m), p.board, p.side))
  }

  /** The king cache after a move: the mover (and a castling rook) carried along. */
  function KingAfter(kingSquare: seq<int>, m: Move): (r: seq<int>)
    requires |kingSquare| == 2
    ensures |r| == 2
  {
    var moved := KingMoved(kingSquare, m.From(), m.To());
    if m.IsCastle() then
      var (rookFrom, rookTo) := GetRookMoveFromCastle(m);
      KingMoved(moved, rookFrom, rookTo)
    else
      moved
  }

  /** `makeMove` moves the king cache as `KingAfter` says, whether or not a promotion waits. */
  lemma MadeKing(p: Position, m: Move, waitForSelection: bool)
    requires Sound(p) && Ready(p, m)
    ensures Make(p, m, waitForSelection).lists.kingSquare == KingAfter(p.lists.kingSquare, m)
  {
    KindPredicates(m);
    var l1, l2 := MakeLists(p, m);
    if m.IsCastle() {
      RookListed(p, m);
    }
  }

  /** A king cache on the board stays on the board when squares on the board move. */
  lemma KingAfterPlaced(kingSquare: seq<int>, m: Move)
    requires |kingSquare| == 2 && 0 <= kingSquare[0] < 64 && 0 <= kingSquare[1] < 64
    requires m.IsCastle() ==> 0 <= GetRookMoveFromCastle(m).1 < 64
    ensures 0 <= KingAfter(kingSquare, m)[0] < 64 && 0 <= KingAfter(kingSquare, m)[1] < 64
  {
  }

  /** After a ready move both kings are still on the board. */
  lemma MadeKingsPlaced(p: Position, m: Move, waitForSelection: bool)
    requires Sound(p) && KingsPlaced(p) && Ready(p, m)
    ensures KingsPlaced(Make(p, m, waitForSelection))
  {
    MadeKing(p, m, waitForSelection);
    if m.IsCastle() {
      assert CastleReady(p, m);
    }
    KingAfterPlaced(p.lists.kingSquare, m);
  }

  /** The move, completed with its own promotion choice, leaves the mover's king attacked. */
  ghost predicate LeavesKingAttacked(p: Position, m: Move)
    requires Sound(p) && KingsPlaced(p) && Ready(p, m)
  {
    MadeKingsPlaced(p, m, false);
    var q := Make(p, m, false);
    SquareIsAttacked(q.lists.kingSquare[p.side], q.board, p.side)
  }

  /** The moves `filterPseudoLegalMoves` removes. */
  ghost predicate Rejected(p: Position, m: Move)
    requires Sound(p) && KingsPlaced(p) && Ready(p, m)
  {
    CastleThroughCheck(p, m) || LeavesKingAttacked(p, m)
  }

  // ---------------------------------------------------------------------
  // Equivalent positions play alike

  /** A move ready in a position is ready in every equivalent position. */
  lemma ReadyEquiv(u: Position, p: Position, m: Move)
    requires Shape(u) && Shape(p) && Equiv(u, p) && Ready(p, m)
    ensures Ready(u, m)
  {
    var from, to, cap := m.From(), m.To(), CapturedSquare(m);
    assert Owned(p, from, p.side);
    assert u.board[from] == p.board[from];
    assert u.board[to].Type() == p.board[to].Type();
    if m.IsCapture() {
      assert u.board[cap] == p.board[cap];
    }
    if m.IsCastle() {
      assert CastleReady(p, m);
      var (rookFrom, rookTo) := GetRookMoveFromCastle(m);
      assert u.board[rookFrom] == p.board[rookFrom];
      assert u.board[rookTo].Type() == p.board[rookTo].Type();
    }
  }

  /** Writing pieces that agree onto boards with the same occupants keeps the occupants the same. */
  lemma SameSet(a: seq<Piece>, b: seq<Piece>, sq: int, x: Piece, y: Piece)
    requires |a| == 64 && |b| == 64 && SameOccupants(a, b) && 0 <= sq < 64
    requires x.Type() == EMPTY <==> y.Type() == EMPTY
    requires x.Type() != EMPTY ==> x == y
    ensures SameOccupants(a[sq := x], b[sq := y])
  {
  }

  /** Moving the same square on boards with the same occupants keeps the occupants the same. */
  lemma SameMovePiece(a: seq<Piece>, b: seq<Piece>, fromSquare: int, toSquare: int)
    requires |a| == 64 && |b| == 64 && SameOccupants(a, b) && 0 <= fromSquare < 64 && 0 <= toSquare < 64
    ensures SameOccupants(MovePieceOn(a, fromSquare, toSquare), MovePieceOn(b, fromSquare, toSquare))
  {
    var a1, b1 := a[toSquare := a[fromSquare]], b[toSquare := b[fromSquare]];
    SameSet(a, b, toSquare, a[fromSquare], b[fromSquare]);
    SameSet(a1, b1, fromSquare, a1[fromSquare].WithType(EMPTY), b1[fromSquare].WithType(EMPTY));
  }

  /** The board steps of `makeMove` on boards with the same occupants end on boards with the same occupants. */
  lemma SameMadeBoards(a0: seq<Piece>, a1: seq<Piece>, a2: seq<Piece>, a3: seq<Piece>, a4: seq<Piece>, fa: int,
                       b0: seq<Piece>, b1: seq<Piece>, b2: seq<Piece>, b3: seq<Piece>, b4: seq<Piece>, fb: int,
                       from: int, to: int, cap: int, capture: bool, ep: int, doublePush: bool)
    requires |a0| == 64 && |b0| == 64 && SameOccupants(a0, b0)
    requires 0 <= from < 64 && 0 <= to < 64 && 0 <= cap < 64 && -1 <= ep < 64 && cap != from
    requires a0[from].Type() != EMPTY && (capture ==> a0[cap].Type() != EMPTY)
    requires a1 == (if capture then a0[cap := a0[cap].WithType(EMPTY)] else a0)
    requires b1 == (if capture then b0[cap := b0[cap].WithType(EMPTY)] else b0)
    requires a2 == (if ep != -1 then a1[ep := a1[ep].WithFlags(MOVED)] else a1)
    requires b2 == (if ep != -1 then b1[ep := b1[ep].WithFlags(MOVED)] else b1)
    requires fa == (if doublePush then EN_PASSANT else if !a2[from].HasMoved() then MOVED else a2[from].Flags())
    requires fb == (if doublePush then EN_PASSANT else if !b2[from].HasMoved() then MOVED else b2[from].Flags())
    requires a3 == a2[from := a2[from].WithFlags(fa)] && b3 == b2[from := b2[from].WithFlags(fb)]
    requires a4 == MovePieceOn(a3, from, to) && b4 == MovePieceOn(b3, from, to)
    ensures SameOccupants(a4, b4)
  {
    if capture {
      SameSet(a0, b0, cap, a0[cap].WithType(EMPTY), b0[cap].WithType(EMPTY));
    }
    if ep != -1 {
      SameSet(a1, b1, ep, a1[ep].WithFlags(MOVED), b1[ep].WithFlags(MOVED));
    }
    assert a2[from].Type() == a0[from].Type();
    assert a2[from] == b2[from];
    SameSet(a2, b2, from, a2[from].WithFlags(fa), b2[from].WithFlags(fb));
    SameMovePiece(a3, b3, from, to);
  }

  /** Making a ready move in equivalent positions gives boards with the same occupants and the same king cache. */
  lemma MakeCongruent(u: Position, p: Position, m: Move)
    requires Sound(u) && Sound(p) && Equiv(u, p) && Ready(p, m)
    ensures Ready(u, m)
    ensures SameOccupants(Make(u, m, false).board, Make(p, m, false).board)
    ensures Make(u, m, false).lists.kingSquare == Make(p, m, false).lists.kingSquare
  {
    ReadyEquiv(u, p, m);
    MovedCongruent(u, p, m);
    KindPredicates(m);
    var to := m.To();
    var a4, b4 := Moved(u, m).board, Moved(p, m).board;
    MadeBoard(u, m);
    MadeBoard(p, m);
    if m.IsCastle() {
      var (rookFrom, rookTo) := GetRookMoveFromCastle(m);
      SameMovePiece(a4, b4, rookFrom, rookTo);
    } else if m.IsPromotion() {
      SameSet(a4, b4, to, a4[to].WithType(KNIGHT + PromotionChoice(m)), b4[to].WithType(KNIGHT + PromotionChoice(m)));
    }
    MadeKing(u, m, false);
    MadeKing(p, m, false);
  }

  /** The mover's own steps (capture, en passant flag, mark, move) keep equivalent boards alike. */
  lemma MovedCongruent(u: Position, p: Position, m: Move)
    requires Sound(u) && Sound(p) && Equiv(u, p) && Ready(p, m) && Ready(u, m)
    ensures |Moved(u, m).board| == 64 && |Moved(p, m).board| == 64
    ensures SameOccupants(Moved(u, m).board, Moved(p, m).board)
  {
    KindPredicates(m);
    var from, to, cap := m.From(), m.To(), CapturedSquare(m);
    var a1, a2, a3, a4, fa := MakeBoards(u, m);
    var b1, b2, b3, b4, fb := MakeBoards(p, m);
    assert Owned(p, from, p.side);
    assert m.IsCapture() ==> Owned(p, cap, 1 - p.side);
    SameMadeBoards(u.board, a1, a2, a3, a4, fa, p.board, b1, b2, b3, b4, fb, from, to, cap, m.IsCapture(), p.ep, m.IsDoublePawnPush());
  }

  lemma {:induction false} RaySame(a: seq<Piece>, b: seq<Piece>, square: int, offset: int, piece: int, sliding: bool, color: int)
    requires |a| == 64 && |b| == 64 && SameOccupants(a, b)
    requires 0 <= square < 64 && -21 <= offset <= 21 && offset != 0
    ensures RayAttack(a, square, offset, piece, sliding, color) == RayAttack(b, square, offset, piece, sliding, color)
    decreases Directions.Remaining(square, offset)
  {
    var to := GetSquareWithOffset(square, offset);
    if to != -1 && a[to].Type() == EMPTY && sliding {
      Directions.StepProgress(square, offset);
      RaySame(a, b, to, offset, piece, sliding, color);
    }
  }

  lemma {:induction false} DirectionsSame(a: seq<Piece>, b: seq<Piece>, square: int, piece: int, j: int, color: int)
    requires |a| == 64 && |b| == 64 && SameOccupants(a, b)
    requires 0 <= square < 64 && KNIGHT <= piece <= KING && 0 <= j <= Directions.DirectionCount(piece)
    ensures DirectionsAttack(a, square, piece, j, color) == DirectionsAttack(b, square, piece, j, color)
  {
    if j > 0 {
      DirectionsSame(a, b, square, piece, j - 1, color);
      RaySame(a, b, square, Directions.Offset(piece, j - 1), piece, Directions.Sliding(piece), color);
    }
  }

  lemma {:induction false} PiecesSame(a: seq<Piece>, b: seq<Piece>, square: int, piece: int, color: int)
    requires |a| == 64 && |b| == 64 && SameOccupants(a, b)
    requires 0 <= square < 64 && KNIGHT <= piece <= KING + 1
    ensures PiecesAttack(a, square, piece, color) == PiecesAttack(b, square, piece, color)
    decreases KING + 1 - piece
  {
    if piece <= KING {
      DirectionsSame(a, b, square, piece, Directions.DirectionCount(piece), color);
      PiecesSame(a, b, square, piece + 1, color);
    }
  }

  /** Whether a square is attacked depends only on the occupied squares. */
  lemma AttackSame(a: seq<Piece>, b: seq<Piece>, square: int, color: int)
    requires |a| == 64 && |b| == 64 && SameOccupants(a, b) && 0 <= square < 64
    ensures SquareIsAttacked(square, a, color) == SquareIsAttacked(square, b, color)
  {
    PiecesSame(a, b, square, KNIGHT, color);
  }

  /** Equivalent positions reject the same moves. */
  lemma RejectedEquiv(u: Position, p: Position, m: Move)
    requires Sound(u) && Sound(p) && KingsPlaced(p) && Equiv(u, p) && Ready(p, m)
    ensures KingsPlaced(u) && Ready(u, m)
    ensures Rejected(u, m) <==> Rejected(p, m)
  {
    hide Make, Ready, Sound, SquareIsAttacked, SameOccupants, InList, Crossed, GetRookMoveFromCastle;
    MakeCongruent(u, p, m);
    var k := p.lists.kingSquare[p.side];
    if m.IsCastle() {
      CrossedIsRookSquare(p, m);
      AttackSame(u.board, p.board, k, p.side);
      AttackSame(u.board, p.board, Crossed(k, m), p.side);
    }
    MadeKingsPlaced(p, m, false);
    var qu, qp := Make(u, m, false), Make(p, m, false);
    AttackSame(qu.board, qp.board, qp.lists.kingSquare[p.side], p.side);
  }

  /**
   * The castle check of the filter: a castle is rejected up front exactly
   * when the king's square or the square it crosses is attacked; any other
   * move never is.
   */
  lemma TrialCastle(u: Position, m: Move)
    requires Sound(u) && KingsPlaced(u) && Ready(u, m)
    ensures var k := u.lists.kingSquare[u.side];
      m.IsCastle() ==>
        (0 <= Crossed(k, m) < 64
         && (CastleThroughCheck(u, m) <==>
               SquareIsAttacked(k, u.board, u.side) || SquareIsAttacked(Crossed(k, m), u.board, u.side)))
    ensures !m.IsCastle() ==> !CastleThroughCheck(u, m)
  {
    if m.IsCastle() {
      CrossedIsRookSquare(u, m);
    }
  }

  /**
   * Once the move is made the kings are still on the board and the other
   * side is to move, so the mover's king is the king of the side not to
   * move, and it is attacked exactly when the move leaves the king
   * attacked.
   */
  lemma TrialMade(u: Position, m: Move)
    requires Sound(u) && KingsPlaced(u) && Ready(u, m)
    ensures var q := Make(u, m, false);
      KingsPlaced(q) && q.side == 1 - u.side && 0 <= q.lists.kingSquare[1 - q.side] < 64
      && (LeavesKingAttacked(u, m) <==> SquareIsAttacked(q.lists.kingSquare[1 - q.side], q.board, 1 - q.side))
  {
    MadeKingsPlaced(u, m, false);
  }

  /**
   * Taking the move back with its record gives a sound position, with the
   * kings on the board, equivalent to the first.
   */
  lemma TrialBack(u: Position, m: Move)
    requires Sound(u) && Ready(u, m)
    ensures var q, r := Make(u, m, false), GetMadeMove(u, m);
      UnmakeReady(q, r) && Sound(Unmake(q, r)) && (KingsPlaced(u) ==> KingsPlaced(Unmake(q, r))) && Equiv(Unmake(q, r), u)
  {
    MakeUnmake(u, m);
    hide Make, Unmake, Ready, Sound, UnmakeReady;
  }
}
