/**
 * The invariant `makeMove` and `updatePromotion` keep (src/index_model/board.h):
 * in a sound position, a ready move leaves the mailbox, the piece lists
 * and the king cache agreeing and the en passant pawn flagged, whether
 * the promotion completes at once or waits for its choice; completing a
 * waiting promotion keeps the position sound too. With these, a move can
 * follow a move.
 *
 * The list side is `ListedAfter` (module Positions); the board side is
 * `OccupiedAfter` below, built up over the same steps `makeMove` takes.
 */
module Soundness {
  import opened Pieces
  import opened Moves
  import opened Mailboxes
  import opened PieceLists
  import opened Positions
  import opened Legality

  /**
   * The occupants after a move, square by square: the mover's and the
   * rook's new squares hold a piece of the side that moved; the squares
   * they left and the captured square are empty; every other square keeps
   * its type and colour.
   */
  ghost predicate OccupiedAfter(b0: seq<Piece>, b: seq<Piece>, side: int, from: int, to: int, cap: int,
                                capture: bool, castle: bool, rookFrom: int, rookTo: int)
    requires |b0| == 64 && |b| == 64
  {
    forall sq | 0 <= sq < 64 ::
      if sq == to || (castle && sq == rookTo) then PAWN <= b[sq].Type() <= KING && b[sq].Color() == side
      else if sq == from || (capture && sq == cap) || (castle && sq == rookFrom) then b[sq].Type() == EMPTY
      else b[sq].Type() == b0[sq].Type() && b[sq].Color() == b0[sq].Color()
  }

  /** The board steps of `makeMove` up to the mover's arrival: capture, en passant flag, mover's flags, mover moved. */
  lemma MovedOccupants(b0: seq<Piece>, b1: seq<Piece>, b2: seq<Piece>, b3: seq<Piece>, b4: seq<Piece>,
                       side: int, from: int, to: int, cap: int, capture: bool, ep: int, markFlags: int)
    requires |b0| == 64 && 0 <= from < 64 && 0 <= to < 64 && 0 <= cap < 64 && -1 <= ep < 64
    requires from != to && cap != from
    requires PAWN <= b0[from].Type() <= KING && b0[from].Color() == side
    requires b1 == if capture then b0[cap := b0[cap].WithType(EMPTY)] else b0
    requires b2 == if ep != -1 then b1[ep := b1[ep].WithFlags(MOVED)] else b1
    requires b3 == b2[from := b2[from].WithFlags(markFlags)]
    requires b4 == MovePieceOn(b3, from, to)
    ensures |b4| == 64 && OccupiedAfter(b0, b4, side, from, to, cap, capture, false, 0, 0)
    ensures b4[to].Type() == b0[from].Type() && b4[to].Flags() == markFlags % 4
  {
    forall sq | 0 <= sq < 64
      ensures sq != from && sq != to ==> b4[sq].Type() == b3[sq].Type() && b4[sq].Color() == b3[sq].Color()
      ensures b3[sq].Type() == b1[sq].Type() && b3[sq].Color() == b1[sq].Color()
    {
    }
  }

  /** A castle's rook move on top: the rook's corner empties and its new square holds it. */
  lemma CastleOccupants(b0: seq<Piece>, b4: seq<Piece>, b5: seq<Piece>, side: int, from: int, to: int, cap: int,
                        rookFrom: int, rookTo: int)
    requires |b0| == 64 && |b4| == 64 && 0 <= rookFrom < 64 && 0 <= rookTo < 64 && 0 <= to < 64
    requires OccupiedAfter(b0, b4, side, from, to, cap, false, false, 0, 0)
    requires rookFrom != from && rookFrom != to && rookTo != from && rookTo != to && rookFrom != rookTo
    requires PAWN <= b0[rookFrom].Type() <= KING && b0[rookFrom].Color() == side
    requires b5 == MovePieceOn(b4, rookFrom, rookTo)
    ensures |b5| == 64 && OccupiedAfter(b0, b5, side, from, to, cap, false, true, rookFrom, rookTo)
    ensures b5[to] == b4[to]
  {
  }

  /** A completed promotion on top: the destination changes type and stays a piece of the side that moved. */
  lemma PromotedOccupants(b0: seq<Piece>, b4: seq<Piece>, b5: seq<Piece>, side: int, from: int, to: int, cap: int,
                          capture: bool, t: int)
    requires |b0| == 64 && |b4| == 64 && 0 <= to < 64 && PAWN <= t <= KING
    requires OccupiedAfter(b0, b4, side, from, to, cap, capture, false, 0, 0)
    requires b5 == b4[to := b4[to].WithType(t)]
    ensures |b5| == 64 && OccupiedAfter(b0, b5, side, from, to, cap, capture, false, 0, 0)
    ensures b5[to].Type() == t
  {
  }

  /** The rook squares of a castle, `(0, 0)` for any other move. */
  function RookSquares(m: Move): (int, int)
  {
    if m.IsCastle() then GetRookMoveFromCastle(m) else (0, 0)
  }

  /** The squares a ready castle touches are five distinct squares on the board. */
  lemma CastleSquares(p: Position, m: Move)
    requires Sound(p) && Ready(p, m) && m.IsCastle()
    ensures var (rookFrom, rookTo) := GetRookMoveFromCastle(m);
      0 <= rookFrom < 64 && 0 <= rookTo < 64
      && rookFrom != m.From() && rookFrom != m.To() && rookTo != m.From() && rookTo != m.To() && rookFrom != rookTo
      && Owned(p, rookFrom, p.side) && Vacant(p, rookTo) && !m.IsCapture() && !m.IsPromotion()
  {
    KindPredicates(m);
    ReadyRook(p, m);
    assert CastleReady(p, m);
  }

  /**
   * The occupants after `makeMove`, waiting for the promotion choice or
   * not: as `OccupiedAfter` says, with the mover on its destination (as
   * its promoted type when the choice is made at once) and, after a double
   * push, flagged EN_PASSANT.
   */
  lemma MadeOccupants(p: Position, m: Move, waitForSelection: bool)
    requires Sound(p) && Ready(p, m)
    ensures var q := Make(p, m, waitForSelection);
      OccupiedAfter(p.board, q.board, p.side, m.From(), m.To(), CapturedSquare(m), m.IsCapture(), m.IsCastle(),
                    RookSquares(m).0, RookSquares(m).1)
      && q.board[m.To()].Type() == (if m.IsPromotion() && !waitForSelection then KNIGHT + PromotionChoice(m) else p.board[m.From()].Type())
      && (m.IsDoublePawnPush() ==> q.board[m.To()].Flags() == EN_PASSANT)
  {
    KindPredicates(m);
    var from, to, cap := m.From(), m.To(), CapturedSquare(m);
    assert Agrees(p, from);
    var b1, b2, b3, b4, markFlags := MakeBoards(p, m);
    MovedOccupants(p.board, b1, b2, b3, b4, p.side, from, to, cap, m.IsCapture(), p.ep, markFlags);
    MadeBoard(p, m);
    var q := Make(p, m, waitForSelection);
    if m.IsCastle() {
      CastleSquares(p, m);
      var (rookFrom, rookTo) := GetRookMoveFromCastle(m);
      assert Agrees(p, rookFrom);
      CastleOccupants(p.board, b4, q.board, p.side, from, to, cap, rookFrom, rookTo);
    } else if m.IsPromotion() {
      if waitForSelection {
        assert q.board == Moved(p, m).board;
      } else {
        PromotedOccupants(p.board, b4, q.board, p.side, from, to, cap, m.IsCapture(), KNIGHT + PromotionChoice(m));
      }
    } else {
      assert q == Make(p, m, false);
    }
  }

  /** The en passant square after `makeMove`: the destination of a double push, otherwise none. */
  lemma MadeEp(p: Position, m: Move, waitForSelection: bool)
    requires Sound(p) && Ready(p, m)
    ensures Make(p, m, waitForSelection).ep == if m.IsDoublePawnPush() then m.To() else -1
  {
    KindPredicates(m);
    CaptureFits(p, m);
    MoverListed(p, m);
    if m.IsCastle() {
      RookListed(p, m);
    }
  }

  /** Waiting for the promotion choice changes neither the listed squares nor the king cache. */
  lemma MadeSlotsWaiting(p: Position, m: Move, waitForSelection: bool)
    requires Sound(p) && Ready(p, m)
    ensures Make(p, m, waitForSelection).lists.slots == Make(p, m, false).lists.slots
  {
    KindPredicates(m);
    MoverListed(p, m);
  }

  /**
   * Board and lists agree on every square after a move whose lists change
   * as `ListedAfter` says and whose occupants change as `OccupiedAfter`
   * says.
   */
  lemma AgreesAfter(p: Position, q: Position, m: Move)
    requires Sound(p) && Ready(p, m) && Shape(q) && Consistent(q.lists.slots)
    requires ListedAfter(p.lists.slots, q.lists.slots, p.side, m.From(), m.To(), CapturedSquare(m), m.IsCapture(), m.IsCastle(),
                         RookSquares(m).0, RookSquares(m).1)
    requires OccupiedAfter(p.board, q.board, p.side, m.From(), m.To(), CapturedSquare(m), m.IsCapture(), m.IsCastle(),
                           RookSquares(m).0, RookSquares(m).1)
    ensures forall sq | 0 <= sq < 64 :: Agrees(q, sq)
  {
    var (rookFrom, rookTo) := RookSquares(m);
    var from, to, cap, side := m.From(), m.To(), CapturedSquare(m), p.side;
    if m.IsCastle() {
      CastleSquares(p, m);
    }
    KindPredicates(m);
    assert Agrees(p, cap) && Agrees(p, from);
    ListedOnce(p.lists.slots, cap);
    hide OccupiedAfter, ListedAfter;
    forall sq | 0 <= sq < 64
      ensures Agrees(q, sq)
    {
      assert Agrees(p, sq);
      ListedOnce(p.lists.slots, sq);
      SquareAgrees(p, q, m, sq);
    }
  }

  /** One square of `AgreesAfter`. */
  lemma SquareAgrees(p: Position, q: Position, m: Move, sq: int)
    requires Sound(p) && Ready(p, m) && Shape(q) && 0 <= sq < 64
    requires m.IsCastle() ==> var (rookFrom, rookTo) := GetRookMoveFromCastle(m);
      rookFrom != m.From() && rookFrom != m.To() && rookTo != m.From() && rookTo != m.To() && rookFrom != rookTo && !m.IsCapture()
    requires Agrees(p, sq) && Agrees(p, CapturedSquare(m)) && !(InList(p.lists.slots, BLACK, sq) && InList(p.lists.slots, WHITE, sq))
    requires !(InList(p.lists.slots, BLACK, CapturedSquare(m)) && InList(p.lists.slots, WHITE, CapturedSquare(m)))
    requires ListedAfter(p.lists.slots, q.lists.slots, p.side, m.From(), m.To(), CapturedSquare(m), m.IsCapture(), m.IsCastle(),
                         RookSquares(m).0, RookSquares(m).1)
    requires OccupiedAfter(p.board, q.board, p.side, m.From(), m.To(), CapturedSquare(m), m.IsCapture(), m.IsCastle(),
                           RookSquares(m).0, RookSquares(m).1)
    ensures Agrees(q, sq)
  {
    var (rookFrom, rookTo) := RookSquares(m);
    assert forall d | 0 <= d < 2 :: InList(q.lists.slots, d, sq) <==>
      (InList(p.lists.slots, d, sq) && sq != m.From() && !(m.IsCapture() && d == 1 - p.side && sq == CapturedSquare(m))
       && !(m.IsCastle() && sq == rookFrom))
      || (d == p.side && (sq == m.To() || (m.IsCastle() && sq == rookTo)));
  }

  /**
   * The king cache after `makeMove` names each colour's king: the moving
   * king takes its cache along, and no other move touches a square a
   * cache names.
   */
  lemma KingsKnownAfter(p: Position, m: Move, waitForSelection: bool)
    requires Sound(p) && Ready(p, m)
    ensures var q := Make(p, m, waitForSelection); KingKnown(q, BLACK) && KingKnown(q, WHITE)
  {
    var q := Make(p, m, waitForSelection);
    KindPredicates(m);
    CacheFollowsMover(p, m, waitForSelection);
    MadeOccupants(p, m, waitForSelection);
    if m.IsCastle() {
      CastleSquares(p, m);
      assert CastleReady(p, m);
    }
    assert KingKnown(p, BLACK) && KingKnown(p, WHITE);
    assert Agrees(p, m.To()) && Agrees(p, CapturedSquare(m));
    hide Make, Sound, Ready, OccupiedAfter;
    forall c | 0 <= c < 2
      ensures KingKnown(q, c)
    {
      KingKnownAfter(p, q, m, c);
    }
  }

  /** The king cache after `makeMove` follows the moving king and nothing else, the rook of a castle included. */
  lemma CacheFollowsMover(p: Position, m: Move, waitForSelection: bool)
    requires Sound(p) && Ready(p, m)
    ensures var k0, k := p.lists.kingSquare, Make(p, m, waitForSelection).lists.kingSquare;
      forall c | 0 <= c < 2 :: k[c] == if k0[c] == m.From() then m.To() else k0[c]
  {
    var (rookFrom, rookTo) := RookSquares(m);
    var from, to := m.From(), m.To();
    KindPredicates(m);
    MadeKing(p, m, waitForSelection);
    if m.IsCastle() {
      CastleSquares(p, m);
      assert CastleReady(p, m);
    }
    assert KingKnown(p, BLACK) && KingKnown(p, WHITE);
    var k0 := p.lists.kingSquare;
    var k1 := KingMoved(k0, from, to);
    hide Make, Sound, Ready;
    assert forall c | 0 <= c < 2 :: k1[c] == if k0[c] == from then to else k0[c];
    assert m.IsCastle() ==> KingMoved(k1, rookFrom, rookTo) == k1;
  }

  /** One colour of `KingsKnownAfter`, once the cache is known to follow the mover only. */
  lemma KingKnownAfter(p: Position, q: Position, m: Move, c: int)
    requires Sound(p) && Ready(p, m) && Shape(q) && 0 <= c < 2
    requires KingKnown(p, c) && Agrees(p, m.To()) && Agrees(p, CapturedSquare(m))
    requires q.lists.kingSquare[c] == if p.lists.kingSquare[c] == m.From() then m.To() else p.lists.kingSquare[c]
    requires m.IsCastle() ==> var (rookFrom, rookTo) := GetRookMoveFromCastle(m);
      rookTo != m.From() && rookTo != m.To() && Vacant(p, rookTo) && !m.IsCapture() && !m.IsPromotion()
      && (rookFrom == m.From() || p.board[rookFrom].Type() != KING || p.board[rookFrom].Color() != c
          || p.lists.kingSquare[c] != rookFrom)
    requires OccupiedAfter(p.board, q.board, p.side, m.From(), m.To(), CapturedSquare(m), m.IsCapture(), m.IsCastle(),
                           RookSquares(m).0, RookSquares(m).1)
    requires q.board[m.To()].Type() == p.board[m.From()].Type() || m.IsPromotion()
    requires m.IsPromotion() ==> p.board[m.From()].Type() == PAWN
    ensures KingKnown(q, c)
  {
    var k := p.lists.kingSquare[c];
    if k != -1 && k != m.From() {
      assert k != m.To();
      assert q.board[k].Type() == p.board[k].Type() && q.board[k].Color() == p.board[k].Color();
    }
  }

  /**
   * A ready move keeps a sound position sound, whether a promotion waits
   * for its choice or not: board, lists and king cache still agree, and the
   * en passant square is the pawn that just pushed two squares, flagged
   * EN_PASSANT, or none.
   */
  lemma MakeSound(p: Position, m: Move, waitForSelection: bool)
    requires Sound(p) && Ready(p, m)
    ensures Sound(Make(p, m, waitForSelection))
    ensures m.IsPromotion() && waitForSelection ==> PromotionWaits(Make(p, m, waitForSelection))
  {
    var q := Make(p, m, waitForSelection);
    var (rookFrom, rookTo) := RookSquares(m);
    KindPredicates(m);
    MadeSlots(p, m, rookFrom, rookTo);
    MadeSlotsWaiting(p, m, waitForSelection);
    MadeOccupants(p, m, waitForSelection);
    MadeEp(p, m, waitForSelection);
    KingsKnownAfter(p, m, waitForSelection);
    hide Make;
    AgreesAfter(p, q, m);
    assert Agreeing(q);
    if m.IsDoublePawnPush() {
      assert p.board[m.From()].Type() == PAWN;
    }
  }

  /** A promotion waits for its choice: its pawn of the side to move stands on the waiting square, and no pawn may be taken en passant. */
  ghost predicate PromotionWaits(p: Position)
    requires Shape(p)
  {
    0 <= p.promoted < 64 && Owned(p, p.promoted, p.side) && p.board[p.promoted].Type() == PAWN && p.ep == -1
  }

  /**
   * Completing a waiting promotion keeps a sound position sound. Stated
   * for any position, since `updatePromotion` is called whether or not a
   * promotion waits.
   */
  lemma PromoteSound(p: Position, promotion: int)
    requires Shape(p) && 0 <= promotion < 4
    ensures Sound(p) && PromotionWaits(p) ==> Sound(Promote(p, promotion))
  {
    if Sound(p) && PromotionWaits(p) {
      var q := Promote(p, promotion);
      forall sq | 0 <= sq < 64
        ensures Agrees(q, sq)
      {
        assert Agrees(p, sq);
      }
      assert KingKnown(p, BLACK) && KingKnown(p, WHITE);
    }
  }
}
