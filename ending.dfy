/**
 * How a game ends (`checkGameEnded`, src/index_model/board.h): with no
 * legal move the side to move is checkmated when its king is attacked and
 * stalemated otherwise; else the game is drawn when neither side keeps
 * material the engine considers able to mate, or when the half-move clock
 * equals 100 (the fifty-move rule of Article 9.3 of the FIDE Laws of
 * Chess). Repetition is declared but never reported.
 */
module Endings {
  import opened Pieces
  import opened PieceLists
  import opened Attacks
  import opened Positions
  import opened Legality

  const CHECKMATE := 1
  const STALEMATE := 2
  const INSUFFICIENT_MATERIAL := 3
  const REPETITION := 4
  const MOVE_RULE := 5

  /**
   * The material test of one side, on its piece count and its per-type
   * counts: a lone king, a king with one bishop or one knight, or a king
   * with two knights.
   */
  predicate CannotMate(total: int, spec: seq<int>)
    requires |spec| == 6
  {
    total == 1
    || (total == 2 && (spec[BISHOP - 1] == 1 || spec[KNIGHT - 1] == 1))
    || (total == 3 && spec[KNIGHT - 1] == 2)
  }

  /** The number of pieces a per-type count row adds up to. */
  function Total(spec: seq<int>): (n: int)
    requires |spec| == 6
  {
    spec[0] + spec[1] + spec[2] + spec[3] + spec[4] + spec[5]
  }

  /**
   * What the material test means, stated on the pieces besides the king:
   * no pawn, rook or queen, and at most one minor piece or exactly two
   * knights.
   */
  predicate OnlyMinorPieces(spec: seq<int>)
    requires |spec| == 6
  {
    spec[PAWN - 1] == 0 && spec[ROOK - 1] == 0 && spec[QUEEN - 1] == 0
    && (spec[KNIGHT - 1] + spec[BISHOP - 1] <= 1 || (spec[KNIGHT - 1] == 2 && spec[BISHOP - 1] == 0))
  }

  /**
   * For a side with exactly one king whose piece count is the sum of its
   * per-type counts, the count-based test of `checkGameEnded` holds exactly
   * when the side keeps nothing but a lone minor piece or two knights.
   */
  lemma CannotMateIff(total: int, spec: seq<int>)
    requires |spec| == 6 && (forall t | 0 <= t < 6 :: spec[t] >= 0)
    requires spec[KING - 1] == 1 && total == Total(spec)
    ensures CannotMate(total, spec) <==> OnlyMinorPieces(spec)
  {
    assert spec[0] >= 0 && spec[1] >= 0 && spec[2] >= 0 && spec[3] >= 0 && spec[4] >= 0;
  }

  /** Whether both sides fail the material test, as `checkGameEnded` asks it. */
  ghost predicate BothCannotMate(p: Position)
    requires Shape(p)
  {
    var count, spec := p.lists.slots.count, p.lists.nSpecPieces;
    count[WHITE] <= 3 && count[BLACK] <= 3
    && CannotMate(count[WHITE], spec[WHITE]) && CannotMate(count[BLACK], spec[BLACK])
  }

  /**
   * `checkGameEnded` on a position whose side to move has `nMoves` legal
   * moves: CHECKMATE, STALEMATE, INSUFFICIENT_MATERIAL, MOVE_RULE or 0 for
   * a game that goes on. The king square is read only when there is no
   * move.
   */
  ghost function GameEnding(p: Position, nMoves: int): (r: int)
    requires Shape(p) && (nMoves == 0 ==> 0 <= p.lists.kingSquare[p.side] < 64)
    ensures r == CHECKMATE <==> nMoves == 0 && Attacked(p.board, p.lists.kingSquare[p.side], p.side)
    ensures r == STALEMATE <==> nMoves == 0 && !Attacked(p.board, p.lists.kingSquare[p.side], p.side)
    ensures r == INSUFFICIENT_MATERIAL <==> nMoves != 0 && BothCannotMate(p)
    ensures r == MOVE_RULE <==> nMoves != 0 && !BothCannotMate(p) && p.clock == 100
    ensures r == 0 <==> nMoves != 0 && !BothCannotMate(p) && p.clock != 100
    ensures r != REPETITION
  {
    if nMoves == 0 then
      var k := p.lists.kingSquare[p.side];
      SquareIsAttackedIff(k, p.board, p.side);
      if !SquareIsAttacked(k, p.board, p.side) then STALEMATE else CHECKMATE
    else if BothCannotMate(p) then INSUFFICIENT_MATERIAL
    else if p.clock == 100 then MOVE_RULE
    else 0
  }

  /** Equivalent positions end the same way: the verdict reads nothing the equivalence lets differ. */
  lemma GameEndingEquiv(u: Position, p: Position, nMoves: int)
    requires Shape(u) && Shape(p) && Equiv(u, p)
    requires nMoves == 0 ==> 0 <= p.lists.kingSquare[p.side] < 64
    ensures nMoves == 0 ==> 0 <= u.lists.kingSquare[u.side] < 64
    ensures GameEnding(u, nMoves) == GameEnding(p, nMoves)
  {
    if nMoves == 0 {
      var k := p.lists.kingSquare[p.side];
      AttackSame(u.board, p.board, k, p.side);
      SquareIsAttackedIff(k, u.board, p.side);
      SquareIsAttackedIff(k, p.board, p.side);
    }
  }
}
