/**
 * The state of the board class (src/index_model/board.h) as a value: the
 * 64 squares, the piece lists, the side to move, the half-move clock, the
 * square of the pawn that may be taken en passant (-1 for none) and the
 * square of the pawn waiting for its promotion choice (-1 for none).
 *
 * `makeMove`, `updatePromotion` and `unmakeMove` are written here as
 * functions on such values, step by step in the order the source performs
 * them; the class in board.dfy performs the same steps in place and is
 * proved to end in the state these functions compute. The main property
 * is the round trip: making a move and taking it back with the record
 * `getMadeMove` wrote gives back an equivalent position.
 */
module Positions {
  import opened Pieces
  import opened Moves
  import opened Mailboxes
  import opened PieceLists

  datatype Position = Position(board: seq<Piece>, lists: Lists, side: int, clock: int, ep: int, promoted: int)

  ghost predicate Shape(p: Position)
  {
    |p.board| == 64 && ListsShaped(p.lists) && 0 <= p.side < 2
  }

  /** Square `sq` holds a piece of colour `c`. */
  predicate Owned(p: Position, sq: int, c: int)
    requires |p.board| == 64
  {
    0 <= sq < 64 && p.board[sq].Type() != EMPTY && p.board[sq].Color() == c
  }

  /** Square `sq` is empty (whatever stale colour and flag bits it keeps). */
  predicate Vacant(p: Position, sq: int)
    requires |p.board| == 64
  {
    0 <= sq < 64 && p.board[sq].Type() == EMPTY
  }

  /** The board and the lists agree on square `sq`: an empty square is listed for no colour, a piece for its own. */
  ghost predicate Agrees(p: Position, sq: int)
    requires Shape(p) && 0 <= sq < 64
  {
    if p.board[sq].Type() == EMPTY then Unlisted(p.lists.slots, sq)
    else p.board[sq].Type() <= KING && InList(p.lists.slots, p.board[sq].Color(), sq)
  }

  /** The king cache of colour `c` is unset or names a square holding that colour's king. */
  ghost predicate KingKnown(p: Position, c: int)
    requires Shape(p) && 0 <= c < 2
  {
    var k := p.lists.kingSquare[c];
    k == -1 || (Owned(p, k, c) && p.board[k].Type() == KING)
  }

  /** Board, lists and king cache agree. */
  ghost predicate Agreeing(p: Position)
  {
    Shape(p) && Consistent(p.lists.slots)
    && (forall sq | 0 <= sq < 64 :: Agrees(p, sq))
    && KingKnown(p, BLACK) && KingKnown(p, WHITE)
  }

  /** The en passant square is unset or holds a pawn of the side that just moved, flagged EN_PASSANT. */
  ghost predicate EpPawn(p: Position)
    requires Shape(p)
  {
    p.ep == -1 || (Owned(p, p.ep, 1 - p.side) && p.board[p.ep].Type() == PAWN && p.board[p.ep].Flags() == EN_PASSANT)
  }

  /** The invariant of a position between moves. */
  ghost predicate Sound(p: Position)
    ensures Sound(p) ==> Shape(p)
  {
    Agreeing(p) && EpPawn(p) && -1 <= p.promoted < 64
  }

  /**
   * What `makeMove` needs of a move for its array accesses to stay in range
   * and for `unmakeMove` to take it back: the mover is of the side to move,
   * a capture takes a piece of the other side that is not a king, a quiet
   * move or en passant lands on an empty square, a castle moves the cached
   * king and a rook of its own colour onto an empty square, and only a pawn
   * promotes or pushes two squares. No promotion choice may be pending.
   */
  ghost predicate Ready(p: Position, m: Move)
    requires Shape(p)
  {
    Owned(p, m.From(), p.side) && m.From() != m.To() && p.promoted == -1
    && (m.IsCapture() ==> Owned(p, CapturedSquare(m), 1 - p.side) && p.board[CapturedSquare(m)].Type() != KING)
    && (!m.IsCapture() || m.IsEpCapture() ==> Vacant(p, m.To()))
    && (m.IsCastle() ==> CastleReady(p, m))
    && (m.IsPromotion() || m.IsDoublePawnPush() ==> p.board[m.From()].Type() == PAWN)
  }

  ghost predicate CastleReady(p: Position, m: Move)
    requires Shape(p)
  {
    var (rookFrom, rookTo) := GetRookMoveFromCastle(m);
    m.From() == p.lists.kingSquare[p.side] && Owned(p, rookFrom, p.side) && Vacant(p, rookTo)
    && rookFrom != m.From() && rookTo != m.To()
  }

  /** `(getFlags() & ~0x4) - 8`: the promotion choice a promotion kind carries, KNIGHT + choice being the new type. */
  function PromotionChoice(m: Move): (choice: int)
    requires m.IsPromotion()
    ensures 0 <= choice < 4 && choice == m.Flags() % 4
  {
    (if m.IsCapture() then m.Flags() - 4 else m.Flags()) - 8
  }

  /** `getMadeMove`: the move, the mover's status, the captured piece (default when none), the en passant square and the clock. */
  function GetMadeMove(p: Position, m: Move): (r: MadeMove)
    requires |p.board| == 64
    ensures r.move == m && r.previousEpCapture == p.ep && r.halfMoveClock == p.clock
    ensures r.movedPieceFlags == p.board[m.From()].Flags()
    ensures r.capturedPiece == if m.IsCapture() then p.board[CapturedSquare(m)] else DefaultPiece()
  {
    MadeMove(m, p.board[m.From()].Flags(), if m.IsCapture() then p.board[CapturedSquare(m)] else DefaultPiece(), p.ep, p.clock)
  }

  // ---------------------------------------------------------------------
  // makeMove, step by step

  /** The clock restarts on a pawn move or a capture; a captured piece leaves the other side's list and its square. */
  function TakeCaptured(p: Position, m: Move): (q: Position)
    requires Shape(p)
    requires m.IsCapture() ==>
      CanRemove(p.lists.slots, CapturedSquare(m), 1 - p.side) && PAWN <= p.board[CapturedSquare(m)].Type() <= KING
    ensures Shape(q) && q.side == p.side && q.ep == p.ep && q.promoted == p.promoted
  {
    var clock := if m.IsCapture() || p.board[m.From()].Type() == PAWN then 0 else p.clock + 1;
    if m.IsCapture() then
      var cap := CapturedSquare(m);
      p.(board := p.board[cap := p.board[cap].WithType(EMPTY)],
         lists := ListsRemove(p.lists, cap, 1 - p.side, p.board[cap].Type()),
         clock := clock)
    else
      p.(clock := clock)
  }

  /** The previous en passant pawn is marked MOVED and the en passant square cleared. */
  function ClearEnPassant(p: Position): (q: Position)
    requires Shape(p) && -1 <= p.ep < 64
    ensures Shape(q) && q.ep == -1 && q.lists == p.lists && q.side == p.side && q.promoted == p.promoted
  {
    if p.ep != -1 then p.(board := p.board[p.ep := p.board[p.ep].WithFlags(MOVED)], ep := -1) else p
  }

  /** A double push flags the mover EN_PASSANT and makes its destination the en passant square; any other move marks it MOVED. */
  function MarkMover(p: Position, m: Move): (q: Position)
    requires Shape(p)
    ensures Shape(q) && q.lists == p.lists && q.side == p.side && q.promoted == p.promoted
  {
    var piece := p.board[m.From()];
    if m.IsDoublePawnPush() then
      p.(board := p.board[m.From() := piece.WithFlags(EN_PASSANT)], ep := m.To())
    else if !piece.HasMoved() then
      p.(board := p.board[m.From() := piece.WithFlags(MOVED)])
    else
      p
  }

  /** The piece on `fromSquare` moves to `toSquare` in the side to move's list and on the board. */
  function Relocate(p: Position, fromSquare: int, toSquare: int): (q: Position)
    requires Shape(p) && 0 <= fromSquare < 64 && 0 <= toSquare < 64
    requires 0 <= p.lists.slots.board[fromSquare] < MAX_PIECES
    ensures Shape(q) && q.side == p.side && q.ep == p.ep && q.promoted == p.promoted && q.clock == p.clock
  {
    p.(lists := ListsMove(p.lists, fromSquare, toSquare, p.side), board := MovePieceOn(p.board, fromSquare, toSquare))
  }

  /**
   * `updatePromotion` on the position: the waiting pawn becomes KNIGHT +
   * `promotion`, one count of the side to move goes from pawns to that
   * type, the side to move flips and nothing is waiting any more.
   */
  function Promote(p: Position, promotion: int): (q: Position)
    requires Shape(p) && 0 <= p.promoted < 64 && 0 <= promotion < 4
    ensures Shape(q) && q.side == 1 - p.side && q.promoted == -1 && q.ep == p.ep && q.lists.slots == p.lists.slots
    ensures q.board == p.board[p.promoted := p.board[p.promoted].WithType(KNIGHT + promotion)]
  {
    var c := p.side;
    p.(board := p.board[p.promoted := p.board[p.promoted].WithType(KNIGHT + promotion)],
       lists := p.lists.(nSpecPieces := p.lists.nSpecPieces[c := Recount(p.lists.nSpecPieces[c], PAWN, KNIGHT + promotion)]),
       side := 1 - c, promoted := -1)
  }

  /** The position after the captured piece left and the en passant flag was cleared and the mover marked. */
  function Marked(p: Position, m: Move): (q: Position)
    requires Sound(p) && Ready(p, m)
    ensures Shape(q) && q.side == p.side && q.promoted == p.promoted
  {
    CaptureFits(p, m);
    MarkMover(ClearEnPassant(TakeCaptured(p, m)), m)
  }

  /** The position after the mover arrived on its destination. */
  function Moved(p: Position, m: Move): (q: Position)
    requires Sound(p) && Ready(p, m)
    ensures Shape(q) && q.side == p.side && q.promoted == p.promoted
  {
    MoverListed(p, m);
    Relocate(Marked(p, m), m.From(), m.To())
  }

  /**
   * `makeMove(move, waitForSelection, false, false)`: the position after the
   * move; for a promotion with `waitForSelection` the pawn waits on its
   * destination with the side to move unchanged.
   */
  function Make(p: Position, m: Move, waitForSelection: bool): (q: Position)
    requires Sound(p) && Ready(p, m)
    ensures Shape(q)
    ensures m.IsPromotion() && waitForSelection ==> q.side == p.side && q.promoted == m.To()
    ensures !(m.IsPromotion() && waitForSelection) ==> q.side == 1 - p.side && q.promoted == -1
  {
    var moved := Moved(p, m);
    if m.IsCastle() then
      RookListed(p, m);
      var (rookFrom, rookTo) := GetRookMoveFromCastle(m);
      Relocate(moved, rookFrom, rookTo).(side := 1 - p.side)
    else if m.IsPromotion() then
      var waiting := moved.(promoted := m.To());
      if waitForSelection then waiting else Promote(waiting, PromotionChoice(m))
    else
      moved.(side := 1 - p.side)
  }

  /**
   * The board after the mover arrived and, for a castle, the rook crossed
   * over; the side to move and the waiting promotion are unchanged.
   */
  function Placed(p: Position, m: Move): (q: Position)
    requires Sound(p) && Ready(p, m)
    ensures Shape(q) && q.side == p.side && q.promoted == p.promoted
  {
    if m.IsCastle() then
      RookListed(p, m);
      var (rookFrom, rookTo) := GetRookMoveFromCastle(m);
      Relocate(Moved(p, m), rookFrom, rookTo)
    else
      Moved(p, m)
  }

  /** The captured piece is listed for the other side, so removing it stays in range. */
  lemma CaptureFits(p: Position, m: Move)
    requires Sound(p) && Ready(p, m)
    ensures m.IsCapture() ==>
      CanRemove(p.lists.slots, CapturedSquare(m), 1 - p.side) && PAWN <= p.board[CapturedSquare(m)].Type() <= KING
    ensures -1 <= TakeCaptured(p, m).ep < 64
  {
    if m.IsCapture() {
      var cap := CapturedSquare(m);
      assert Agrees(p, cap);
      RemoveKeepsConsistent(p.lists.slots, cap, 1 - p.side);
    }
  }

  /** After the capture the mover is still listed, and the destination is not. */
  lemma MoverListed(p: Position, m: Move)
    requires Sound(p) && Ready(p, m)
    ensures InList(Marked(p, m).lists.slots, p.side, m.From())
    ensures Unlisted(Marked(p, m).lists.slots, m.To())
    ensures Consistent(Marked(p, m).lists.slots)
    ensures 0 <= Marked(p, m).lists.slots.board[m.From()] < MAX_PIECES
  {
    CaptureFits(p, m);
    var from, to := m.From(), m.To();
    assert Agrees(p, from) && Agrees(p, to);
    if m.IsCapture() {
      var cap := CapturedSquare(m);
      assert Agrees(p, cap);
      RemoveKeepsConsistent(p.lists.slots, cap, 1 - p.side);
    }
  }

  /** In a castle the rook is still listed after the king moved. */
  lemma RookListed(p: Position, m: Move)
    requires Sound(p) && Ready(p, m) && m.IsCastle()
    ensures var (rookFrom, rookTo) := GetRookMoveFromCastle(m);
      0 <= rookFrom < 64 && 0 <= rookTo < 64 && 0 <= Moved(p, m).lists.slots.board[rookFrom] < MAX_PIECES
  {
    KindPredicates(m);
    MoverListed(p, m);
    var (rookFrom, rookTo) := GetRookMoveFromCastle(m);
    var marked := Marked(p, m);
    assert Agrees(p, rookFrom);
    assert marked.lists == p.lists;
    MoveKeepsConsistent(marked.lists.slots, m.From(), m.To(), p.side);
  }

  // ---------------------------------------------------------------------
  // unmakeMove, step by step

  /**
   * What `unmakeMove` needs of a record for its array accesses to stay in
   * range: the destination is listed, there is room to list a captured
   * piece of the side not to move again, a promoted piece has a real type,
   * and a castling rook is listed and apart from the king's squares.
   */
  ghost predicate UnmakeReady(q: Position, r: MadeMove)
  {
    var m := r.move;
    Shape(q) && -1 <= r.previousEpCapture < 64 && m.From() != m.To()
    && 0 <= q.lists.slots.board[m.To()] < MAX_PIECES
    && (m.IsPromotion() ==> PAWN <= q.board[m.To()].Type() <= KING)
    && (m.IsCapture() ==> 0 <= q.lists.slots.count[q.side] < MAX_PIECES && PAWN <= r.capturedPiece.Type() <= KING)
    && (m.IsCastle() ==>
          var (rookFrom, rookTo) := GetRookMoveFromCastle(m);
          0 <= rookFrom < 64 && 0 <= rookTo < 64 && rookTo != m.From() && rookTo != m.To()
          && 0 <= q.lists.slots.board[rookTo] < MAX_PIECES)
  }

  /** The clock, the side to move and the en passant square come back; the en passant pawn is flagged again. */
  function RestoreCounters(q: Position, r: MadeMove): (u: Position)
    requires Shape(q) && -1 <= r.previousEpCapture < 64
    ensures Shape(u) && u.lists == q.lists && u.side == 1 - q.side && u.ep == r.previousEpCapture
  {
    var u := q.(clock := r.halfMoveClock, side := 1 - q.side, ep := r.previousEpCapture);
    if u.ep != -1 then u.(board := u.board[u.ep := u.board[u.ep].WithFlags(EN_PASSANT)]) else u
  }

  /** The mover goes back on the board and gets its old status. */
  function MoveBack(u: Position, r: MadeMove): (v: Position)
    requires Shape(u)
    ensures Shape(v) && v.lists == u.lists && v.side == u.side && v.ep == u.ep && v.clock == u.clock
  {
    var from := r.move.From();
    var board := MovePieceOn(u.board, r.move.To(), from);
    u.(board := board[from := board[from].WithFlags(r.movedPieceFlags)])
  }

  /** Taking back a promotion: one count of the side moves from the promoted type back to pawns and the piece is a pawn again. */
  function Demote(v: Position, fromSquare: int): (w: Position)
    requires Shape(v) && 0 <= fromSquare < 64 && PAWN <= v.board[fromSquare].Type() <= KING
    ensures Shape(w) && w.lists.slots == v.lists.slots && w.lists.kingSquare == v.lists.kingSquare
    ensures w.side == v.side && w.ep == v.ep && w.clock == v.clock
  {
    var c := v.side;
    var t := v.board[fromSquare].Type();
    v.(lists := v.lists.(nSpecPieces := v.lists.nSpecPieces[c := Recount(v.lists.nSpecPieces[c], t, PAWN)]),
       board := v.board[fromSquare := v.board[fromSquare].WithType(PAWN)])
  }

  /** The captured piece comes back on its square and into the list of the side not to move. */
  function PutBack(w: Position, square: int, piece: Piece): (x: Position)
    requires Shape(w) && 0 <= square < 64 && 0 <= w.lists.slots.count[1 - w.side] < MAX_PIECES && PAWN <= piece.Type() <= KING
    ensures Shape(x) && x.side == w.side && x.ep == w.ep && x.clock == w.clock
  {
    w.(board := w.board[square := piece], lists := ListsAdd(w.lists, square, 1 - w.side, piece.Type()))
  }

  /** The position after the mover, and a promoted piece, went back. */
  function Retracted(q: Position, r: MadeMove): (w: Position)
    requires UnmakeReady(q, r)
    ensures Shape(w) && w.side == 1 - q.side
  {
    var m := r.move;
    var v := MoveBack(RestoreCounters(q, r), r);
    var w := if m.IsPromotion() then Demote(v, m.From()) else v;
    w.(lists := ListsMove(w.lists, m.To(), m.From(), w.side))
  }

  /** `unmakeMove(record)`: the position before the recorded move. */
  function Unmake(q: Position, r: MadeMove): (p: Position)
    requires UnmakeReady(q, r)
    ensures Shape(p) && p.side == 1 - q.side && p.clock == r.halfMoveClock && p.ep == r.previousEpCapture && p.promoted == q.promoted
  {
    var m := r.move;
    var w := Retracted(q, r);
    var x := if m.IsCapture() then PutBack(w, CapturedSquare(m), r.capturedPiece) else w;
    if m.IsCastle() then
      KindPredicates(m);
      var (rookFrom, rookTo) := GetRookMoveFromCastle(m);
      Relocate(x, rookTo, rookFrom)
    else
      x
  }

  // ---------------------------------------------------------------------
  // The round trip

  /** Two boards hold the same pieces: the same squares are empty and every occupied square holds the same piece. */
  ghost predicate SameOccupants(a: seq<Piece>, b: seq<Piece>)
    requires |a| == 64 && |b| == 64
  {
    forall sq | 0 <= sq < 64 :: (a[sq].Type() == EMPTY <==> b[sq].Type() == EMPTY) && (a[sq].Type() != EMPTY ==> a[sq] == b[sq])
  }

  /**
   * Two positions that play the same: same side to move, clock, en passant
   * square and waiting pawn, the same pieces on the board, the same squares
   * listed for each colour, the same counts and the same king squares. The
   * order inside the lists and the stale bits of empty squares may differ.
   */
  ghost predicate Equiv(p: Position, q: Position)
    requires Shape(p) && Shape(q)
  {
    p.side == q.side && p.clock == q.clock && p.ep == q.ep && p.promoted == q.promoted
    && SameOccupants(p.board, q.board)
    && (forall c, sq | 0 <= c < 2 :: InList(p.lists.slots, c, sq) <==> InList(q.lists.slots, c, sq))
    && p.lists.slots.count == q.lists.slots.count
    && p.lists.nSpecPieces == q.lists.nSpecPieces
    && p.lists.kingSquare == q.lists.kingSquare
  }

  /** After the mover arrived, its destination is listed and the lists are still consistent. */
  lemma MovedListed(p: Position, m: Move)
    requires Sound(p) && Ready(p, m)
    ensures Consistent(Moved(p, m).lists.slots) && InList(Moved(p, m).lists.slots, p.side, m.To())
    ensures forall d, sq | 0 <= d < 2 :: InList(Moved(p, m).lists.slots, d, sq) <==>
      (InList(Marked(p, m).lists.slots, d, sq) && sq != m.From()) || (d == p.side && sq == m.To())
  {
    MoverListed(p, m);
    MoveKeepsConsistent(Marked(p, m).lists.slots, m.From(), m.To(), p.side);
  }

  /** The record `getMadeMove` wrote fits the position after the move. */
  lemma MakeUnmakeReady(p: Position, m: Move)
    requires Sound(p) && Ready(p, m)
    ensures UnmakeReady(Make(p, m, false), GetMadeMove(p, m))
  {
    KindPredicates(m);
    ReadyDestination(p, m);
    if m.IsCastle() {
      ReadyRook(p, m);
    }
    if m.IsPromotion() {
      ReadyPromotion(p, m);
    }
    if m.IsCapture() {
      ReadyCapture(p, m);
    }
  }

  lemma ReadyPromotion(p: Position, m: Move)
    requires Sound(p) && Ready(p, m) && m.IsPromotion()
    ensures PAWN <= Make(p, m, false).board[m.To()].Type() <= KING
  {
    KindPredicates(m);
    var moved := Moved(p, m);
    assert moved.board[m.To()].Type() == PAWN;
  }

  lemma ReadyCapture(p: Position, m: Move)
    requires Sound(p) && Ready(p, m) && m.IsCapture()
    ensures 0 <= Make(p, m, false).lists.slots.count[Make(p, m, false).side] < MAX_PIECES
    ensures PAWN <= p.board[CapturedSquare(m)].Type() <= KING
  {
    KindPredicates(m);
    CaptureFits(p, m);
    assert Agrees(p, CapturedSquare(m));
  }

  lemma ReadyDestination(p: Position, m: Move)
    requires Sound(p) && Ready(p, m)
    ensures 0 <= Make(p, m, false).lists.slots.board[m.To()] < MAX_PIECES
  {
    KindPredicates(m);
    MovedListed(p, m);
    if m.IsCastle() {
      RookListed(p, m);
    }
  }

  lemma ReadyRook(p: Position, m: Move)
    requires Sound(p) && Ready(p, m) && m.IsCastle()
    ensures var (rookFrom, rookTo) := GetRookMoveFromCastle(m);
      0 <= rookFrom < 64 && 0 <= rookTo < 64 && rookTo != m.From() && rookTo != m.To()
      && 0 <= Make(p, m, false).lists.slots.board[rookTo] < MAX_PIECES
  {
    KindPredicates(m);
    RookListed(p, m);
  }

  lemma RoundTripBoard(p: Position, m: Move)
    requires Sound(p) && Ready(p, m)
    ensures UnmakeReady(Make(p, m, false), GetMadeMove(p, m))
    ensures SameOccupants(Unmake(Make(p, m, false), GetMadeMove(p, m)).board, p.board)
  {
    MakeUnmakeReady(p, m);
    KindPredicates(m);
    if m.IsCastle() {
      RoundTripBoardCastle(p, m);
    } else if m.IsPromotion() {
      RoundTripBoardPromotion(p, m);
    } else {
      RoundTripBoardPlain(p, m);
    }
  }

  /** The boards `makeMove` goes through: capture, en passant flag, mover's flags, mover moved. */
  lemma MakeBoards(p: Position, m: Move) returns (b1: seq<Piece>, b2: seq<Piece>, b3: seq<Piece>, b4: seq<Piece>, markFlags: int)
    requires Sound(p) && Ready(p, m)
    ensures |b1| == 64 && |b2| == 64 && |b3| == 64
    ensures b1 == if m.IsCapture() then p.board[CapturedSquare(m) := p.board[CapturedSquare(m)].WithType(EMPTY)] else p.board
    ensures b2 == if p.ep != -1 then b1[p.ep := b1[p.ep].WithFlags(MOVED)] else b1
    ensures markFlags == if m.IsDoublePawnPush() then EN_PASSANT else if !b2[m.From()].HasMoved() then MOVED else b2[m.From()].Flags()
    ensures b3 == b2[m.From() := b2[m.From()].WithFlags(markFlags)]
    ensures b4 == MovePieceOn(b3, m.From(), m.To()) && b4 == Moved(p, m).board
  {
    CaptureFits(p, m);
    b1 := TakeCaptured(p, m).board;
    b2 := ClearEnPassant(TakeCaptured(p, m)).board;
    b3 := Marked(p, m).board;
    b4 := Moved(p, m).board;
    markFlags := if m.IsDoublePawnPush() then EN_PASSANT else if !b2[m.From()].HasMoved() then MOVED else b2[m.From()].Flags();
  }

  /** The board after the move, from the board after the mover moved. */
  lemma MadeBoard(p: Position, m: Move)
    requires Sound(p) && Ready(p, m)
    ensures m.IsCastle() ==> var (rookFrom, rookTo) := GetRookMoveFromCastle(m);
      0 <= rookFrom < 64 && 0 <= rookTo < 64 && Make(p, m, false).board == MovePieceOn(Moved(p, m).board, rookFrom, rookTo)
    ensures !m.IsCastle() && m.IsPromotion() ==>
      Make(p, m, false).board == Moved(p, m).board[m.To() := Moved(p, m).board[m.To()].WithType(KNIGHT + PromotionChoice(m))]
    ensures !m.IsCastle() && !m.IsPromotion() ==> Make(p, m, false).board == Moved(p, m).board
  {
    KindPredicates(m);
  }

  /** The boards `unmakeMove` goes through: en passant flag back, mover back with its flags, pawn back, captured piece and rook back. */
  lemma UnmakeBoards(q: Position, r: MadeMove) returns (c1: seq<Piece>, c2: seq<Piece>, c3: seq<Piece>, c4: seq<Piece>)
    requires UnmakeReady(q, r)
    ensures |c1| == 64 && |c2| == 64 && |c3| == 64 && |c4| == 64
    ensures c1 == if r.previousEpCapture != -1 then q.board[r.previousEpCapture := q.board[r.previousEpCapture].WithFlags(EN_PASSANT)] else q.board
    ensures c2 == MovePieceOn(c1, r.move.To(), r.move.From())
    ensures c3 == c2[r.move.From() := c2[r.move.From()].WithFlags(r.movedPieceFlags)]
    ensures c4 == if r.move.IsPromotion() then c3[r.move.From() := c3[r.move.From()].WithType(PAWN)] else c3
    ensures r.move.IsCastle() ==> var (rookFrom, rookTo) := GetRookMoveFromCastle(r.move);
      0 <= rookFrom < 64 && 0 <= rookTo < 64
      && Unmake(q, r).board == MovePieceOn(if r.move.IsCapture() then c4[CapturedSquare(r.move) := r.capturedPiece] else c4, rookTo, rookFrom)
    ensures !r.move.IsCastle() ==> Unmake(q, r).board == if r.move.IsCapture() then c4[CapturedSquare(r.move) := r.capturedPiece] else c4
  {
    KindPredicates(r.move);
    var u := RestoreCounters(q, r);
    c1 := u.board;
    c2 := MovePieceOn(c1, r.move.To(), r.move.From());
    var v := MoveBack(u, r);
    c3 := v.board;
    c4 := Retracted(q, r).board;
  }

  lemma RoundTripBoardPlain(p: Position, m: Move)
    requires Sound(p) && Ready(p, m) && !m.IsCastle() && !m.IsPromotion()
    requires UnmakeReady(Make(p, m, false), GetMadeMove(p, m))
    ensures SameOccupants(Unmake(Make(p, m, false), GetMadeMove(p, m)).board, p.board)
  {
    var r := GetMadeMove(p, m);
    var q := Make(p, m, false);
    KindPredicates(m);
    var b1, b2, b3, b4, markFlags := MakeBoards(p, m);
    MadeBoard(p, m);
    var c1, c2, c3, c4 := UnmakeBoards(q, r);
    PlainBoards(p.board, b1, b2, b3, b4, c1, c2, c3, Unmake(q, r).board, m.From(), m.To(), CapturedSquare(m),
                m.IsCapture(), p.ep, markFlags, r.movedPieceFlags, r.capturedPiece);
  }

  /** The board steps of a move that is neither a castle nor a promotion, and of its take-back, restore every piece. */
  lemma PlainBoards(b0: seq<Piece>, b1: seq<Piece>, b2: seq<Piece>, b3: seq<Piece>, b4: seq<Piece>,
                    c1: seq<Piece>, c2: seq<Piece>, c3: seq<Piece>, c4: seq<Piece>,
                    from: int, to: int, cap: int, capture: bool, ep: int, markFlags: int, flags: int, captured: Piece)
    requires |b0| == 64 && 0 <= from < 64 && 0 <= to < 64 && 0 <= cap < 64 && -1 <= ep < 64 && from != to
    requires b0[from].Type() != EMPTY && flags == b0[from].Flags()
    requires capture ==> cap != from && b0[cap].Type() != EMPTY && captured == b0[cap]
    requires !capture || cap != to ==> b0[to].Type() == EMPTY
    requires ep != -1 ==> ep != from && b0[ep].Type() != EMPTY && b0[ep].Flags() == EN_PASSANT && (ep != to || capture)
    requires b1 == if capture then b0[cap := b0[cap].WithType(EMPTY)] else b0
    requires b2 == if ep != -1 then b1[ep := b1[ep].WithFlags(MOVED)] else b1
    requires b3 == b2[from := b2[from].WithFlags(markFlags)]
    requires b4 == MovePieceOn(b3, from, to)
    requires c1 == if ep != -1 then b4[ep := b4[ep].WithFlags(EN_PASSANT)] else b4
    requires c2 == MovePieceOn(c1, to, from)
    requires c3 == c2[from := c2[from].WithFlags(flags)]
    requires c4 == if capture then c3[cap := captured] else c3
    ensures |c4| == 64 && SameOccupants(c4, b0)
  {
    forall sq | 0 <= sq < 64
      ensures (c4[sq].Type() == EMPTY <==> b0[sq].Type() == EMPTY) && (c4[sq].Type() != EMPTY ==> c4[sq] == b0[sq])
    {
      if capture && sq == cap {
      } else if sq == from {
        assert c4[sq] == c3[from];
      } else if sq == to {
      } else if sq == ep {
      } else {
      }
    }
  }

  lemma RoundTripBoardCastle(p: Position, m: Move)
    requires Sound(p) && Ready(p, m) && m.IsCastle()
    requires UnmakeReady(Make(p, m, false), GetMadeMove(p, m))
    ensures SameOccupants(Unmake(Make(p, m, false), GetMadeMove(p, m)).board, p.board)
  {
    var r := GetMadeMove(p, m);
    var q := Make(p, m, false);
    KindPredicates(m);
    var (rookFrom, rookTo) := GetRookMoveFromCastle(m);
    var b1, b2, b3, b4, markFlags := MakeBoards(p, m);
    MadeBoard(p, m);
    var c1, c2, c3, c4 := UnmakeBoards(q, r);
    CastleBoards(p.board, b2, b3, b4, q.board, c1, c2, c3, Unmake(q, r).board, m.From(), m.To(), rookFrom, rookTo,
                 p.ep, markFlags, r.movedPieceFlags);
  }

  /** The board steps of a castle and of its take-back restore every piece. */
  lemma CastleBoards(b0: seq<Piece>, b2: seq<Piece>, b3: seq<Piece>, b4: seq<Piece>, b5: seq<Piece>,
                     c1: seq<Piece>, c2: seq<Piece>, c3: seq<Piece>, c4: seq<Piece>,
                     from: int, to: int, rookFrom: int, rookTo: int, ep: int, markFlags: int, flags: int)
    requires |b0| == 64 && 0 <= from < 64 && 0 <= to < 64 && 0 <= rookFrom < 64 && 0 <= rookTo < 64 && -1 <= ep < 64
    requires from != to && rookFrom != from && rookTo != to
    requires b0[from].Type() != EMPTY && flags == b0[from].Flags()
    requires b0[rookFrom].Type() != EMPTY && b0[to].Type() == EMPTY && b0[rookTo].Type() == EMPTY
    requires ep != -1 ==> ep != from && ep != rookFrom && b0[ep].Type() != EMPTY && b0[ep].Flags() == EN_PASSANT
    requires b2 == if ep != -1 then b0[ep := b0[ep].WithFlags(MOVED)] else b0
    requires b3 == b2[from := b2[from].WithFlags(markFlags)]
    requires b4 == MovePieceOn(b3, from, to)
    requires b5 == MovePieceOn(b4, rookFrom, rookTo)
    requires c1 == if ep != -1 then b5[ep := b5[ep].WithFlags(EN_PASSANT)] else b5
    requires c2 == MovePieceOn(c1, to, from)
    requires c3 == c2[from := c2[from].WithFlags(flags)]
    requires c4 == MovePieceOn(c3, rookTo, rookFrom)
    ensures |c4| == 64 && SameOccupants(c4, b0)
  {
    forall sq | 0 <= sq < 64
      ensures (c4[sq].Type() == EMPTY <==> b0[sq].Type() == EMPTY) && (c4[sq].Type() != EMPTY ==> c4[sq] == b0[sq])
    {
      if sq == from {
        assert c4[sq] == c3[from];
      } else if sq == rookFrom {
        assert c4[sq] == c3[rookTo];
      } else if sq == to || sq == rookTo || sq == ep {
      } else {
      }
    }
  }

  lemma RoundTripBoardPromotion(p: Position, m: Move)
    requires Sound(p) && Ready(p, m) && m.IsPromotion()
    requires UnmakeReady(Make(p, m, false), GetMadeMove(p, m))
    ensures SameOccupants(Unmake(Make(p, m, false), GetMadeMove(p, m)).board, p.board)
  {
    var r := GetMadeMove(p, m);
    var q := Make(p, m, false);
    KindPredicates(m);
    var b1, b2, b3, b4, markFlags := MakeBoards(p, m);
    MadeBoard(p, m);
    var c1, c2, c3, c4 := UnmakeBoards(q, r);
    PromotionBoards(p.board, b1, b2, b3, b4, q.board, c1, c2, c3, c4, Unmake(q, r).board, m.From(), m.To(),
                    CapturedSquare(m), m.IsCapture(), p.ep, markFlags, KNIGHT + PromotionChoice(m), r.movedPieceFlags, r.capturedPiece);
  }

  /** The board steps of a promotion and of its take-back restore every piece, the pawn included. */
  lemma PromotionBoards(b0: seq<Piece>, b1: seq<Piece>, b2: seq<Piece>, b3: seq<Piece>, b4: seq<Piece>, b5: seq<Piece>,
                        c1: seq<Piece>, c2: seq<Piece>, c3: seq<Piece>, c4: seq<Piece>, c5: seq<Piece>,
                        from: int, to: int, cap: int, capture: bool, ep: int, markFlags: int, promoted: int, flags: int, captured: Piece)
    requires |b0| == 64 && 0 <= from < 64 && 0 <= to < 64 && 0 <= cap < 64 && -1 <= ep < 64 && from != to
    requires b0[from].Type() == PAWN && flags == b0[from].Flags()
    requires capture ==> cap == to && b0[cap].Type() != EMPTY && captured == b0[cap]
    requires !capture ==> b0[to].Type() == EMPTY
    requires ep != -1 ==> ep != from && b0[ep].Type() != EMPTY && b0[ep].Flags() == EN_PASSANT && (ep != to || capture)
    requires b1 == if capture then b0[cap := b0[cap].WithType(EMPTY)] else b0
    requires b2 == if ep != -1 then b1[ep := b1[ep].WithFlags(MOVED)] else b1
    requires b3 == b2[from := b2[from].WithFlags(markFlags)]
    requires b4 == MovePieceOn(b3, from, to)
    requires b5 == b4[to := b4[to].WithType(promoted)]
    requires c1 == if ep != -1 then b5[ep := b5[ep].WithFlags(EN_PASSANT)] else b5
    requires c2 == MovePieceOn(c1, to, from)
    requires c3 == c2[from := c2[from].WithFlags(flags)]
    requires c4 == c3[from := c3[from].WithType(PAWN)]
    requires c5 == if capture then c4[cap := captured] else c4
    ensures |c5| == 64 && SameOccupants(c5, b0)
  {
    forall sq | 0 <= sq < 64
      ensures (c5[sq].Type() == EMPTY <==> b0[sq].Type() == EMPTY) && (c5[sq].Type() != EMPTY ==> c5[sq] == b0[sq])
    {
      if capture && sq == cap {
      } else if sq == from {
        assert c5[sq] == c4[from];
      } else if sq == to || sq == ep {
      } else {
      }
    }
  }

  /** The squares listed after a move: the mover's and the rook's new squares instead of their old ones, the captured square gone. */
  ghost predicate ListedAfter(s0: Slots, s3: Slots, side: int, from: int, to: int, cap: int, capture: bool, castle: bool, rookFrom: int, rookTo: int)
    requires Shaped(s0) && Shaped(s3) && 0 <= side < 2
  {
    forall d, sq | 0 <= d < 2 :: InList(s3, d, sq) <==>
      (InList(s0, d, sq) && sq != from && !(capture && d == 1 - side && sq == cap) && !(castle && sq == rookFrom))
      || (d == side && (sq == to || (castle && sq == rookTo)))
  }

  /** The slot steps of a move: capture removed, mover moved, rook moved. */
  lemma SlotsMade(s0: Slots, s1: Slots, s2: Slots, s3: Slots,
                  side: int, from: int, to: int, cap: int, capture: bool, castle: bool, rookFrom: int, rookTo: int)
    requires Consistent(s0) && 0 <= side < 2 && 0 <= from < 64 && 0 <= to < 64 && 0 <= cap < 64
    requires 0 <= rookFrom < 64 && 0 <= rookTo < 64 && from != to && cap != from
    requires InList(s0, side, from)
    requires capture ==> InList(s0, 1 - side, cap) && CanRemove(s0, cap, 1 - side)
    requires !capture || cap != to ==> Unlisted(s0, to)
    requires castle ==> !capture && InList(s0, side, rookFrom) && Unlisted(s0, rookTo) && rookFrom != from && rookTo != to
    requires s1 == if capture then SlotsRemove(s0, cap, 1 - side) else s0
    requires 0 <= s1.board[from] < MAX_PIECES
    requires s2 == SlotsMove(s1, from, to, side)
    requires castle ==> 0 <= s2.board[rookFrom] < MAX_PIECES
    requires s3 == if castle then SlotsMove(s2, rookFrom, rookTo, side) else s2
    ensures Consistent(s3) && s3.count == s1.count
    ensures ListedAfter(s0, s3, side, from, to, cap, capture, castle, rookFrom, rookTo)
  {
    hide InList;
    ListedOnce(s0, to);
    ListedOnce(s0, from);
    ListedOnce(s0, cap);
    if capture {
      RemoveKeepsConsistent(s0, cap, 1 - side);
    }
    assert InList(s1, side, from) && Unlisted(s1, to);
    MoveKeepsConsistent(s1, from, to, side);
    if castle {
      assert InList(s2, side, rookFrom) && Unlisted(s2, rookTo);
      MoveKeepsConsistent(s2, rookFrom, rookTo, side);
    }
  }

  /** The squares listed once the mover went back: those before the move, less the captured square, with the rook still moved. */
  ghost predicate ListedBack(s0: Slots, t1: Slots, side: int, cap: int, capture: bool, castle: bool, rookFrom: int, rookTo: int)
    requires Shaped(s0) && Shaped(t1) && 0 <= side < 2
  {
    forall d, sq | 0 <= d < 2 :: InList(t1, d, sq) <==>
      (InList(s0, d, sq) && !(capture && d == 1 - side && sq == cap) && !(castle && sq == rookFrom))
      || (castle && d == side && sq == rookTo)
  }

  /** The first slot step of a take-back: the mover goes back. */
  lemma SlotsMovedBack(s0: Slots, s3: Slots, t1: Slots,
                       side: int, from: int, to: int, cap: int, capture: bool, castle: bool, rookFrom: int, rookTo: int)
    requires Consistent(s0) && Consistent(s3) && 0 <= side < 2 && 0 <= from < 64 && 0 <= to < 64 && 0 <= cap < 64
    requires 0 <= rookFrom < 64 && 0 <= rookTo < 64 && from != to && cap != from
    requires InList(s0, side, from)
    requires capture ==> InList(s0, 1 - side, cap)
    requires !capture || cap != to ==> Unlisted(s0, to)
    requires castle ==> !capture && InList(s0, side, rookFrom) && Unlisted(s0, rookTo) && rookFrom != from && rookTo != to
    requires ListedAfter(s0, s3, side, from, to, cap, capture, castle, rookFrom, rookTo)
    requires 0 <= s3.board[to] < MAX_PIECES
    requires t1 == SlotsMove(s3, to, from, side)
    ensures Consistent(t1) && t1.count == s3.count
    ensures ListedBack(s0, t1, side, cap, capture, castle, rookFrom, rookTo)
  {
    hide InList;
    ListedOnce(s0, to);
    ListedOnce(s0, from);
    assert InList(s3, side, to) && Unlisted(s3, from);
    MoveKeepsConsistent(s3, to, from, side);
  }

  /** The rest of a take-back: the captured square is listed again and the rook goes back. */
  lemma SlotsUnmade(s0: Slots, t1: Slots, t2: Slots, t3: Slots,
                    side: int, from: int, cap: int, capture: bool, castle: bool, rookFrom: int, rookTo: int)
    requires Consistent(s0) && Consistent(t1) && 0 <= side < 2 && 0 <= from < 64 && 0 <= cap < 64
    requires 0 <= rookFrom < 64 && 0 <= rookTo < 64
    requires capture ==> InList(s0, 1 - side, cap)
    requires castle ==> !capture && InList(s0, side, rookFrom) && Unlisted(s0, rookTo)
    requires ListedBack(s0, t1, side, cap, capture, castle, rookFrom, rookTo)
    requires capture ==> 0 <= t1.count[1 - side] < MAX_PIECES
    requires t2 == if capture then SlotsAdd(t1, cap, 1 - side) else t1
    requires castle ==> 0 <= t2.board[rookTo] < MAX_PIECES
    requires t3 == if castle then SlotsMove(t2, rookTo, rookFrom, side) else t2
    ensures Consistent(t3)
    ensures capture ==> t3.count == t1.count[1 - side := t1.count[1 - side] + 1]
    ensures !capture ==> t3.count == t1.count
    ensures forall d, sq | 0 <= d < 2 :: InList(t3, d, sq) <==> InList(s0, d, sq)
  {
    if capture {
      SlotsPutBack(s0, t1, t2, side, cap, castle, rookFrom, rookTo);
    } else if castle {
      SlotsRookBack(s0, t1, t3, side, rookFrom, rookTo);
    }
  }

  lemma SlotsPutBack(s0: Slots, t1: Slots, t2: Slots, side: int, cap: int, castle: bool, rookFrom: int, rookTo: int)
    requires Consistent(s0) && Consistent(t1) && 0 <= side < 2 && 0 <= cap < 64 && !castle
    requires InList(s0, 1 - side, cap)
    requires ListedBack(s0, t1, side, cap, true, castle, rookFrom, rookTo)
    requires 0 <= t1.count[1 - side] < MAX_PIECES
    requires t2 == SlotsAdd(t1, cap, 1 - side)
    ensures Consistent(t2) && t2.count == t1.count[1 - side := t1.count[1 - side] + 1]
    ensures forall d, sq | 0 <= d < 2 :: InList(t2, d, sq) <==> InList(s0, d, sq)
  {
    hide InList;
    ListedOnce(s0, cap);
    assert Unlisted(t1, cap);
    AddKeepsConsistent(t1, cap, 1 - side);
  }

  lemma SlotsRookBack(s0: Slots, t1: Slots, t3: Slots, side: int, rookFrom: int, rookTo: int)
    requires Consistent(s0) && Consistent(t1) && 0 <= side < 2 && 0 <= rookFrom < 64 && 0 <= rookTo < 64
    requires InList(s0, side, rookFrom) && Unlisted(s0, rookTo)
    requires ListedBack(s0, t1, side, 0, false, true, rookFrom, rookTo)
    requires 0 <= t1.board[rookTo] < MAX_PIECES
    requires t3 == SlotsMove(t1, rookTo, rookFrom, side)
    ensures Consistent(t3) && t3.count == t1.count
    ensures forall d, sq | 0 <= d < 2 :: InList(t3, d, sq) <==> InList(s0, d, sq)
  {
    hide InList;
    ListedOnce(s0, rookFrom);
    assert InList(t1, side, rookTo) && Unlisted(t1, rookFrom);
    MoveKeepsConsistent(t1, rookTo, rookFrom, side);
  }
  /** The type counts of a move and of its take-back: capture uncounted, promotion recounted, and both undone. */
  lemma SpecRoundTrip(n0: seq<seq<int>>, n1: seq<seq<int>>, n3: seq<seq<int>>, n4: seq<seq<int>>, n5: seq<seq<int>>,
                      side: int, capture: bool, promotion: bool, capturedType: int, promotedType: int)
    requires |n0| == 2 && |n0[0]| == 6 && |n0[1]| == 6 && 0 <= side < 2
    requires PAWN <= capturedType <= KING && PAWN <= promotedType <= KING
    requires n1 == if capture then n0[1 - side := n0[1 - side][capturedType - 1 := n0[1 - side][capturedType - 1] - 1]] else n0
    requires n3 == if promotion then n1[side := Recount(n1[side], PAWN, promotedType)] else n1
    requires n4 == if promotion then n3[side := Recount(n3[side], promotedType, PAWN)] else n3
    requires n5 == if capture then n4[1 - side := n4[1 - side][capturedType - 1 := n4[1 - side][capturedType - 1] + 1]] else n4
    ensures n5 == n0
  {
    if promotion {
      RecountBack(n1[side], PAWN, promotedType);
      assert n4 == n1;
    }
    if capture {
      assert n5[1 - side] == n0[1 - side];
      assert n5 == [n5[0], n5[1]];
    }
  }

  /**
   * The king cache over a move and its take-back: the mover and the rook
   * move out and back, and neither the destination nor the rook squares
   * hold a king, so each cache entry comes back.
   */
  lemma KingRoundTrip(k0: seq<int>, k2: seq<int>, k3: seq<int>, k5: seq<int>,
                      from: int, to: int, castle: bool, rookFrom: int, rookTo: int)
    requires |k0| == 2 && from != to && to != k0[0] && to != k0[1]
    requires castle ==> rookFrom != from && rookFrom != to && rookTo != from && rookTo != to && rookFrom != rookTo
    requires castle ==> rookFrom != k0[0] && rookFrom != k0[1] && rookTo != k0[0] && rookTo != k0[1]
    requires k2 == if castle then KingMoved(KingMoved(k0, from, to), rookFrom, rookTo) else KingMoved(k0, from, to)
    requires k3 == KingMoved(k2, to, from)
    requires k5 == if castle then KingMoved(k3, rookTo, rookFrom) else k3
    ensures k5 == k0
  {
  }
  /** The lists `makeMove` goes through: capture removed, mover moved. */
  lemma MakeLists(p: Position, m: Move) returns (l1: Lists, l2: Lists)
    requires Sound(p) && Ready(p, m)
    ensures m.IsCapture() ==>
      CanRemove(p.lists.slots, CapturedSquare(m), 1 - p.side) && PAWN <= p.board[CapturedSquare(m)].Type() <= KING
    ensures l1 == if m.IsCapture() then ListsRemove(p.lists, CapturedSquare(m), 1 - p.side, p.board[CapturedSquare(m)].Type()) else p.lists
    ensures ListsShaped(l1) && 0 <= l1.slots.board[m.From()] < MAX_PIECES
    ensures l2 == ListsMove(l1, m.From(), m.To(), p.side) && l2 == Moved(p, m).lists
  {
    CaptureFits(p, m);
    MoverListed(p, m);
    l1 := Marked(p, m).lists;
    l2 := Moved(p, m).lists;
  }

  /** The lists after the move, from the lists after the mover moved. */
  lemma MadeLists(p: Position, m: Move)
    requires Sound(p) && Ready(p, m)
    ensures m.IsCastle() ==> var (rookFrom, rookTo) := GetRookMoveFromCastle(m);
      0 <= rookFrom < 64 && 0 <= rookTo < 64 && 0 <= Moved(p, m).lists.slots.board[rookFrom] < MAX_PIECES
      && Make(p, m, false).lists == ListsMove(Moved(p, m).lists, rookFrom, rookTo, p.side)
    ensures !m.IsCastle() && m.IsPromotion() ==>
      var l := Moved(p, m).lists;
      Make(p, m, false).lists == l.(nSpecPieces := l.nSpecPieces[p.side := Recount(l.nSpecPieces[p.side], PAWN, KNIGHT + PromotionChoice(m))])
    ensures !m.IsCastle() && !m.IsPromotion() ==> Make(p, m, false).lists == Moved(p, m).lists
  {
    KindPredicates(m);
    if m.IsCastle() {
      RookListed(p, m);
    }
  }

  /** The lists `unmakeMove` goes through: promotion recounted, mover moved back, captured piece listed, rook moved back. */
  lemma UnmakeLists(q: Position, r: MadeMove) returns (w: Lists, t1: Lists, t2: Lists)
    requires UnmakeReady(q, r)
    ensures r.move.IsPromotion() ==>
      w == q.lists.(nSpecPieces := q.lists.nSpecPieces[1 - q.side := Recount(q.lists.nSpecPieces[1 - q.side], q.board[r.move.To()].Type(), PAWN)])
    ensures !r.move.IsPromotion() ==> w == q.lists
    ensures ListsShaped(w) && w.slots == q.lists.slots && w.kingSquare == q.lists.kingSquare
    ensures t1 == ListsMove(w, r.move.To(), r.move.From(), 1 - q.side)
    ensures r.move.IsCapture() ==> 0 <= t1.slots.count[q.side] < MAX_PIECES && PAWN <= r.capturedPiece.Type() <= KING
    ensures t2 == if r.move.IsCapture() then ListsAdd(t1, CapturedSquare(r.move), q.side, r.capturedPiece.Type()) else t1
    ensures r.move.IsCastle() ==> var (rookFrom, rookTo) := GetRookMoveFromCastle(r.move);
      0 <= rookFrom < 64 && 0 <= rookTo < 64 && 0 <= t2.slots.board[rookTo] < MAX_PIECES
      && Unmake(q, r).lists == ListsMove(t2, rookTo, rookFrom, 1 - q.side)
    ensures !r.move.IsCastle() ==> Unmake(q, r).lists == t2
  {
    KindPredicates(r.move);
    var v := MoveBack(RestoreCounters(q, r), r);
    assert v.board[r.move.From()].Type() == q.board[r.move.To()].Type();
    w := (if r.move.IsPromotion() then Demote(v, r.move.From()) else v).lists;
    t1 := Retracted(q, r).lists;
    var x := if r.move.IsCapture() then PutBack(Retracted(q, r), CapturedSquare(r.move), r.capturedPiece) else Retracted(q, r);
    t2 := x.lists;
  }
  /** The slots after a move: consistent, the squares listed as `ListedAfter` says, one count fewer for the side that lost a piece. */
  lemma MadeSlots(p: Position, m: Move, rookFrom: int, rookTo: int)
    requires Sound(p) && Ready(p, m)
    requires if m.IsCastle() then (rookFrom, rookTo) == GetRookMoveFromCastle(m) else rookFrom == 0 && rookTo == 0
    ensures var s3 := Make(p, m, false).lists.slots;
      Consistent(s3) && ListedAfter(p.lists.slots, s3, p.side, m.From(), m.To(), CapturedSquare(m), m.IsCapture(), m.IsCastle(), rookFrom, rookTo)
      && s3.count == if m.IsCapture() then p.lists.slots.count[1 - p.side := p.lists.slots.count[1 - p.side] - 1] else p.lists.slots.count
  {
    hide InList;
    KindPredicates(m);
    hide Make, Ready, ListedAfter;
    var l1, l2 := MakeLists(p, m);
    MadeLists(p, m);
    var from, to, cap := m.From(), m.To(), CapturedSquare(m);
    ReadyListed(p, m, rookFrom, rookTo);
    SlotsMade(p.lists.slots, l1.slots, l2.slots, Make(p, m, false).lists.slots, p.side, from, to, cap, m.IsCapture(), m.IsCastle(), rookFrom, rookTo);
  }

  /** What the lists say about the squares a ready move touches. */
  ghost predicate MoveListed(s0: Slots, m: Move, side: int, rookFrom: int, rookTo: int)
    requires Shaped(s0) && 0 <= side < 2
  {
    InList(s0, side, m.From()) && CapturedSquare(m) != m.From()
    && (m.IsCapture() ==> InList(s0, 1 - side, CapturedSquare(m)))
    && (!m.IsCapture() || CapturedSquare(m) != m.To() ==> Unlisted(s0, m.To()))
    && (m.IsCastle() ==> !m.IsCapture() && InList(s0, side, rookFrom) && Unlisted(s0, rookTo) && rookFrom != m.From() && rookTo != m.To())
  }

  /** A ready move's squares are listed as the board says. */
  lemma ReadyListed(p: Position, m: Move, rookFrom: int, rookTo: int)
    requires Sound(p) && Ready(p, m)
    requires if m.IsCastle() then (rookFrom, rookTo) == GetRookMoveFromCastle(m) else rookFrom == 0 && rookTo == 0
    ensures Consistent(p.lists.slots) && MoveListed(p.lists.slots, m, p.side, rookFrom, rookTo)
  {
    KindPredicates(m);
    assert Agrees(p, m.From()) && Agrees(p, m.To()) && Agrees(p, CapturedSquare(m));
    if m.IsCastle() {
      assert Agrees(p, rookFrom) && Agrees(p, rookTo);
    }
  }

  /** The slots after a take-back, for a position whose listed squares are those `ListedAfter` derives from `s0`. */
  lemma UnmadeSlots(q: Position, r: MadeMove, s0: Slots, side: int, rookFrom: int, rookTo: int)
    requires UnmakeReady(q, r) && Consistent(q.lists.slots) && Consistent(s0) && side == 1 - q.side
    requires if r.move.IsCastle() then (rookFrom, rookTo) == GetRookMoveFromCastle(r.move) else rookFrom == 0 && rookTo == 0
    requires MoveListed(s0, r.move, side, rookFrom, rookTo)
    requires var m := r.move;
      ListedAfter(s0, q.lists.slots, side, m.From(), m.To(), CapturedSquare(m), m.IsCapture(), m.IsCastle(), rookFrom, rookTo)
    ensures var t3 := Unmake(q, r).lists.slots;
      Consistent(t3) && (forall d, sq | 0 <= d < 2 :: InList(t3, d, sq) <==> InList(s0, d, sq))
      && t3.count == if r.move.IsCapture() then q.lists.slots.count[1 - side := q.lists.slots.count[1 - side] + 1] else q.lists.slots.count
  {
    hide InList;
    var m := r.move;
    KindPredicates(m);
    var w, t1, t2 := UnmakeLists(q, r);
    hide Unmake, ListedAfter, ListedBack;
    SlotsMovedBack(s0, q.lists.slots, t1.slots, side, m.From(), m.To(), CapturedSquare(m), m.IsCapture(), m.IsCastle(), rookFrom, rookTo);
    SlotsUnmade(s0, t1.slots, t2.slots, Unmake(q, r).lists.slots, side, m.From(), CapturedSquare(m), m.IsCapture(), m.IsCastle(), rookFrom, rookTo);
  }

  /** Over a move and its take-back the same squares are listed for each colour, with the same counts, and the lists stay consistent. */
  lemma RoundTripSlots(p: Position, m: Move)
    requires Sound(p) && Ready(p, m)
    ensures UnmakeReady(Make(p, m, false), GetMadeMove(p, m))
    ensures var u := Unmake(Make(p, m, false), GetMadeMove(p, m));
      Consistent(u.lists.slots) && u.lists.slots.count == p.lists.slots.count
      && forall d, sq | 0 <= d < 2 :: InList(u.lists.slots, d, sq) <==> InList(p.lists.slots, d, sq)
  {
    var (rookFrom, rookTo) := if m.IsCastle() then GetRookMoveFromCastle(m) else (0, 0);
    hide Make, Unmake, Ready, ListedAfter, MoveListed, UnmakeReady;
    MakeUnmakeReady(p, m);
    var q := Make(p, m, false);
    var r := GetMadeMove(p, m);
    MadeSlots(p, m, rookFrom, rookTo);
    ReadyListed(p, m, rookFrom, rookTo);
    UnmadeSlots(q, r, p.lists.slots, p.side, rookFrom, rookTo);
    if m.IsCapture() {
      CountBack(p.lists.slots.count, q.lists.slots.count, Unmake(q, r).lists.slots.count, 1 - p.side);
    }
  }

  /** Taking one from an entry and adding it back restores the counts. */
  lemma CountBack(c0: seq<int>, c1: seq<int>, c2: seq<int>, i: int)
    requires 0 <= i < |c0| && c1 == c0[i := c0[i] - 1] && c2 == c1[i := c1[i] + 1]
    ensures c2 == c0
  {
    assert forall j | 0 <= j < |c0| :: c2[j] == c0[j];
  }

  /** A promotion puts a piece of the chosen type on the destination. */
  lemma PromotedType(p: Position, m: Move)
    requires Sound(p) && Ready(p, m) && m.IsPromotion()
    ensures Make(p, m, false).board[m.To()].Type() == KNIGHT + PromotionChoice(m)
  {
    KindPredicates(m);
    var b1, b2, b3, b4, markFlags := MakeBoards(p, m);
    MadeBoard(p, m);
  }

  /** The type counts after a move: the captured type loses one, and a promotion moves one count from pawns to the new type. */
  lemma MadeSpec(p: Position, m: Move, capturedType: int, promotedType: int) returns (n1: seq<seq<int>>)
    requires Sound(p) && Ready(p, m)
    requires capturedType == if m.IsCapture() then p.board[CapturedSquare(m)].Type() else PAWN
    requires promotedType == if m.IsPromotion() then KNIGHT + PromotionChoice(m) else PAWN
    ensures PAWN <= capturedType <= KING
    ensures var n0 := p.lists.nSpecPieces;
      n1 == if m.IsCapture() then n0[1 - p.side := n0[1 - p.side][capturedType - 1 := n0[1 - p.side][capturedType - 1] - 1]] else n0
    ensures |n1| == 2 && |n1[p.side]| == 6
    ensures Make(p, m, false).lists.nSpecPieces == if m.IsPromotion() then n1[p.side := Recount(n1[p.side], PAWN, promotedType)] else n1
  {
    KindPredicates(m);
    var l1, l2 := MakeLists(p, m);
    MadeLists(p, m);
    n1 := l1.nSpecPieces;
  }

  /** The type counts after a take-back: a promotion moves one count back to pawns, and a captured type gains one. */
  lemma UnmadeSpec(q: Position, r: MadeMove, side: int, capturedType: int, promotedType: int) returns (n4: seq<seq<int>>)
    requires UnmakeReady(q, r) && side == 1 - q.side
    requires capturedType == if r.move.IsCapture() then r.capturedPiece.Type() else PAWN
    requires promotedType == if r.move.IsPromotion() then q.board[r.move.To()].Type() else PAWN
    ensures PAWN <= capturedType <= KING && PAWN <= promotedType <= KING
    ensures var n3 := q.lists.nSpecPieces;
      n4 == if r.move.IsPromotion() then n3[side := Recount(n3[side], promotedType, PAWN)] else n3
    ensures |n4| == 2 && |n4[1 - side]| == 6
    ensures Unmake(q, r).lists.nSpecPieces ==
      if r.move.IsCapture() then n4[1 - side := n4[1 - side][capturedType - 1 := n4[1 - side][capturedType - 1] + 1]] else n4
  {
    KindPredicates(r.move);
    var w, t1, t2 := UnmakeLists(q, r);
    n4 := w.nSpecPieces;
  }

  /** Over a move and its take-back the type counts come back. */
  lemma RoundTripSpec(p: Position, m: Move)
    requires Sound(p) && Ready(p, m)
    ensures UnmakeReady(Make(p, m, false), GetMadeMove(p, m))
    ensures Unmake(Make(p, m, false), GetMadeMove(p, m)).lists.nSpecPieces == p.lists.nSpecPieces
  {
    hide Make, Unmake;
    MakeUnmakeReady(p, m);
    var q := Make(p, m, false);
    var r := GetMadeMove(p, m);
    var promotedType := if m.IsPromotion() then KNIGHT + PromotionChoice(m) else PAWN;
    if m.IsPromotion() {
      PromotedType(p, m);
    }
    var capturedType := if m.IsCapture() then p.board[CapturedSquare(m)].Type() else PAWN;
    var n1 := MadeSpec(p, m, capturedType, promotedType);
    var n4 := UnmadeSpec(q, r, p.side, capturedType, promotedType);
    SpecRoundTrip(p.lists.nSpecPieces, n1, q.lists.nSpecPieces, n4, Unmake(q, r).lists.nSpecPieces,
                  p.side, m.IsCapture(), m.IsPromotion(), capturedType, promotedType);
  }

  /** Over a move and its take-back the king cache comes back. */
  lemma RoundTripKing(p: Position, m: Move)
    requires Sound(p) && Ready(p, m)
    ensures UnmakeReady(Make(p, m, false), GetMadeMove(p, m))
    ensures Unmake(Make(p, m, false), GetMadeMove(p, m)).lists.kingSquare == p.lists.kingSquare
  {
    hide Make, Unmake;
    MakeUnmakeReady(p, m);
    KindPredicates(m);
    var q := Make(p, m, false);
    var r := GetMadeMove(p, m);
    var from, to := m.From(), m.To();
    var (rookFrom, rookTo) := if m.IsCastle() then GetRookMoveFromCastle(m) else (0, 0);
    var l1, l2 := MakeLists(p, m);
    MadeLists(p, m);
    var w, t1, t2 := UnmakeLists(q, r);
    assert KingKnown(p, BLACK) && KingKnown(p, WHITE);
    KingRoundTrip(p.lists.kingSquare, q.lists.kingSquare, t1.kingSquare, Unmake(q, r).lists.kingSquare,
                  from, to, m.IsCastle(), rookFrom, rookTo);
  }
  /** Every position is equivalent to itself. */
  lemma EquivRefl(p: Position)
    requires Shape(p)
    ensures Equiv(p, p)
  {
  }

  /** A position equivalent to a sound one, with consistent lists, is sound. */
  lemma EquivSound(p: Position, u: Position)
    requires Sound(p) && Shape(u) && Equiv(u, p) && Consistent(u.lists.slots)
    ensures Sound(u)
  {
    forall sq | 0 <= sq < 64
      ensures Agrees(u, sq)
    {
      assert Agrees(p, sq);
    }
    assert KingKnown(p, BLACK) && KingKnown(p, WHITE);
  }

  /**
   * The round trip of `makeMove` and `unmakeMove`: making a ready move in a
   * sound position without waiting for a promotion choice and taking it
   * back with the record `getMadeMove` wrote gives back an equivalent sound
   * position.
   */
  lemma MakeUnmake(p: Position, m: Move)
    requires Sound(p) && Ready(p, m)
    ensures UnmakeReady(Make(p, m, false), GetMadeMove(p, m))
    ensures Equiv(Unmake(Make(p, m, false), GetMadeMove(p, m)), p)
    ensures Sound(Unmake(Make(p, m, false), GetMadeMove(p, m)))
  {
    RoundTripBoard(p, m);
    RoundTripSlots(p, m);
    RoundTripSpec(p, m);
    RoundTripKing(p, m);
    hide Make, Unmake, Ready;
    EquivSound(p, Unmake(Make(p, m, false), GetMadeMove(p, m)));
  }
}
