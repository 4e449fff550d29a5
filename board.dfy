/**
 * The board object of the engine (class ChessBoardIndex,
 * src/index_model/board.h): the mailbox, the piece lists, the side to
 * move, the clock, the en passant square and the waiting promotion,
 * updated in place by `makeMove`, `unmakeMove` and `updatePromotion`;
 * the legal moves, produced by generating the pseudo-legal ones and
 * filtering out those that leave the mover in check; and the game history.
 *
 * Each state-changing method is proved against the step functions of
 * module Positions: after it, the board as a value is the function of the
 * board before, or, where the moves were regenerated (which makes and takes
 * back every candidate), a position equivalent to it.
 */
module Boards {
  import opened Pieces
  import opened Moves
  import opened Mailboxes
  import opened PieceLists
  import opened Attacks
  import opened MoveGen
  import opened MoveGenerator
  import opened Positions
  import opened Legality
  import opened Soundness
  import opened Material
  import opened Removals
  import opened Filters
  import opened Endings
  import opened Options
  import opened Loading

  /**
   * A position in which the move list can be regenerated and filtered: it
   * is sound, both kings are on the board, every listed piece of the side
   * to move can be expanded, the pseudo-legal moves fit the list, and each
   * of them is one `makeMove` can play and take back.
   */
  ghost predicate Playable(p: Position)
  {
    Sound(p) && KingsPlaced(p) && Generable(p.board, p.lists.slots, p.side)
    && |GenMoves(p.board, p.lists.slots, p.side)| <= MAX_AVAILABLE_MOVES
    && AllReady(p, GenMoves(p.board, p.lists.slots, p.side))
  }

  /** The legal moves of a playable position: the pseudo-legal ones the filter keeps. */
  ghost function LegalMoves(p: Position): seq<Move>
    requires Playable(p)
  {
    Filtered(p, GenMoves(p.board, p.lists.slots, p.side))
  }

  /** Equivalence of positions is transitive. */
  lemma EquivTrans(a: Position, b: Position, c: Position)
    requires Shape(a) && Shape(b) && Shape(c) && Equiv(a, b) && Equiv(b, c)
    ensures Equiv(a, c)
  {
  }

  /** Or-ing a promotion kind's own choice into it changes nothing. */
  lemma OrOwnPromotion(m: Move)
    requires m.IsPromotion()
    ensures OrPromotion(m, PromotionChoice(m)) == m
  {
    var k := m.kind as bv4;
    assert k | (m.Flags() % 4) as bv4 == k by {
      assert 8 <= m.Flags() < 16;
      assert (m.Flags() % 4) as bv4 == k & 3;
    }
  }

  /**
   * The removal loop of `filterPseudoLegalMoves` on the move list alone:
   * the first `n` recorded indices are swap-removed from the last to the
   * first.
   */
  method RemoveRecorded(list: ChessMoves, indices: array<int>, n: int)
    requires list.Valid() && 0 <= n <= indices.Length && Ascending(indices[..n], list.nMoves)
    modifies list, list.moves
    ensures list.Valid()
    ensures list.Contents() == RemoveFrom(old(list.Contents()), indices[..n], 0)
  {
    ghost var s0 := list.Contents();
    ghost var recorded := indices[..n];
    var j := n - 1;
    while j >= 0
      invariant list.Valid() && -1 <= j < n && indices[..n] == recorded
      invariant list.Contents() == RemoveFrom(s0, recorded, j + 1)
    {
      RemoveFromPrefix(s0, recorded, j);
      assert indices[j] == recorded[j];
      list.RemoveMove(indices[j]);
      assert list.Contents() == SwapRemove(RemoveFrom(s0, recorded, j + 1), recorded[j]);
      j := j - 1;
    }
  }

  /** `move.getFrom() == fromPos && move.getTo() == toPos`. */
  predicate Connects(m: Move, fromPos: int, toPos: int)
  {
    m.From() == fromPos && m.To() == toPos
  }

  class ChessBoardIndex {
    const mailbox: Mailbox
    const availableMoves: ChessMoves
    const pieceList: PieceList
    const madeMoves: MadeMoves
    /** Scratch space of `filterPseudoLegalMoves`: the indices of the rejected moves. */
    const filteredMoves: array<int>
    var sideToMove: int
    var promotedPawnSquare: int
    var halfMoveClock: int
    var possibleEpCapture: int

    /** The board proper: what `makeMove` and `unmakeMove` write when they neither record nor regenerate. */
    ghost function BoardRepr(): set<object>
    {
      {this, mailbox, mailbox.chessBoard,
       pieceList, pieceList.board, pieceList.nPieces, pieceList.nSpecPieces, pieceList.pieces, pieceList.kingSquare}
    }

    /** The move list and the filter's scratch space. */
    ghost function MovesRepr(): set<object>
    {
      {availableMoves, availableMoves.moves, filteredMoves}
    }

    /** The game history. */
    ghost function HistoryRepr(): set<object>
    {
      {madeMoves, madeMoves.madeMoves}
    }

    /** Everything the board owns. */
    ghost function Repr(): set<object>
    {
      BoardRepr() + MovesRepr() + HistoryRepr()
    }

    /** The board proper is well formed. */
    ghost predicate BoardValid()
      reads BoardRepr()
    {
      mailbox.Valid() && pieceList.Valid() && 0 <= sideToMove < 2
    }

    ghost predicate Valid()
      reads Repr()
      ensures Valid() ==>
        (BoardValid() && availableMoves.Valid() && madeMoves.Valid()
         && filteredMoves.Length == MAX_AVAILABLE_MOVES
         && filteredMoves != pieceList.board && filteredMoves != pieceList.nPieces && filteredMoves != pieceList.kingSquare
         && madeMoves !in BoardRepr() + MovesRepr() && madeMoves.madeMoves !in BoardRepr() + MovesRepr())
    {
      BoardValid() && availableMoves.Valid() && madeMoves.Valid()
      && filteredMoves.Length == MAX_AVAILABLE_MOVES
      && filteredMoves != pieceList.board && filteredMoves != pieceList.nPieces && filteredMoves != pieceList.kingSquare
    }

    /**
     * The members' initial values: empty lists, no history, no en passant
     * square and no waiting promotion. The side to move, which the source
     * leaves uninitialised until a position is loaded, starts as white.
     */
    constructor()
      ensures Valid() && fresh(Repr() - {this})
      ensures availableMoves.Contents() == [] && madeMoves.Played() == [] && madeMoves.Redo() == []
      ensures possibleEpCapture == -1 && promotedPawnSquare == -1 && halfMoveClock == 0
    {
      mailbox := new Mailbox();
      availableMoves := new ChessMoves();
      pieceList := new PieceList();
      madeMoves := new MadeMoves();
      filteredMoves := new int[MAX_AVAILABLE_MOVES];
      sideToMove := WHITE;
      promotedPawnSquare := -1;
      halfMoveClock := 0;
      possibleEpCapture := -1;
    }

    /** The board as a value. */
    ghost function Model(): (p: Position)
      reads BoardRepr()
      requires BoardValid()
      ensures Shape(p) && p.side == sideToMove && p.promoted == promotedPawnSquare
    {
      Position(mailbox.Board(), pieceList.Model(), sideToMove, halfMoveClock, possibleEpCapture, promotedPawnSquare)
    }

    /**
     * The move list holds the legal moves of `p0`, in the order the filter
     * leaves them, and the board is sound and equivalent to `p0`.
     */
    ghost predicate Refreshed(p0: Position)
      reads Repr()
      requires Valid() && Playable(p0)
    {
      Sound(Model()) && KingsPlaced(Model()) && Equiv(Model(), p0)
      && availableMoves.Contents() == LegalMoves(p0)
    }

    /**
     * What `makeMove` and `updatePromotion` leave behind for the position
     * `p` they produce: when the moves were regenerated, the move list holds
     * the legal moves of `p`, the board is equivalent to `p` and the result
     * is the game's ending; otherwise the board is `p` and the result is 0.
     */
    ghost predicate Outcome(p: Position, regenerated: bool, result: int)
      reads Repr()
      requires Valid() && (regenerated ==> Playable(p))
    {
      if regenerated then Refreshed(p) && result == CheckGameEnded() else Model() == p && result == 0
    }

    /** `getMadeMove`: the record `unmakeMove` needs to take `move` back. */
    function GetMadeMove(move: Move): (r: MadeMove)
      reads BoardRepr()
      requires BoardValid()
      ensures r == Positions.GetMadeMove(Model(), move)
    {
      var captured := if move.IsCapture() then mailbox.Get(CapturedSquare(move)) else DefaultPiece();
      MadeMove(move, mailbox.Get(move.From()).Flags(), captured, possibleEpCapture, halfMoveClock)
    }

    /** `checkGameEnded`, without its console output. */
    function CheckGameEnded(): (r: int)
      reads Repr()
      requires Valid() && (availableMoves.nMoves == 0 ==> KingsPlaced(Model()))
      ensures r == GameEnding(Model(), availableMoves.nMoves)
    {
      if availableMoves.nMoves == 0 then
        if !SquareIsAttacked(pieceList.GetKingSquare(sideToMove), mailbox.chessBoard[..], sideToMove) then STALEMATE
        else CHECKMATE
      else if pieceList.nPieces[WHITE] <= 3 && pieceList.nPieces[BLACK] <= 3
        && (pieceList.nPieces[WHITE] == 1
            || (pieceList.nPieces[WHITE] == 2
                && (pieceList.nSpecPieces[WHITE, BISHOP - 1] == 1 || pieceList.nSpecPieces[WHITE, KNIGHT - 1] == 1))
            || (pieceList.nPieces[WHITE] == 3 && pieceList.nSpecPieces[WHITE, KNIGHT - 1] == 2))
        && (pieceList.nPieces[BLACK] == 1
            || (pieceList.nPieces[BLACK] == 2
                && (pieceList.nSpecPieces[BLACK, BISHOP - 1] == 1 || pieceList.nSpecPieces[BLACK, KNIGHT - 1] == 1))
            || (pieceList.nPieces[BLACK] == 3 && pieceList.nSpecPieces[BLACK, KNIGHT - 1] == 2))
      then INSUFFICIENT_MATERIAL
      else if halfMoveClock == 100 then MOVE_RULE
      else 0
    }

    // -------------------------------------------------------------------
    // Loading a position

    /**
     * `changeBoardState`, with the fields of the FEN record given one by
     * one (the en passant field, which the source ignores, left out) and
     * the clock as a number: the position read from them replaces the
     * board, the history is emptied, and the move list then holds the legal
     * moves of the loaded position, the board being equivalent to it.
     */
    method ChangeBoardState(placement: string, side: string, castling: string, clock: int)
      requires Valid() && Loaded(Model(), placement, side, castling, clock).Some?
      requires Playable(Loaded(Model(), placement, side, castling, clock).value)
      modifies Repr()
      ensures Valid() && madeMoves.Played() == [] && madeMoves.Redo() == []
      ensures Refreshed(Loaded(old(Model()), placement, side, castling, clock).value)
      ensures Tallied(Model()) <==> CountOn(Model().board, BLACK, KING) == 1 && CountOn(Model().board, WHITE, KING) == 1
    {
      ghost var p0 := Model();
      LoadPosition(placement, side, castling, clock);
      LoadedTallied(p0, placement, side, castling, clock);
      hide Playable, Refreshed, Loaded, Sound, KingsPlaced, LegalMoves, Tallied;
      ghost var q := Model();
      UpdateAvailableMoves();
      TalliedEquiv(Model(), q);
    }

    /**
     * Everything `changeBoardState` does before regenerating the moves:
     * the board becomes the loaded position and the history is emptied.
     */
    method LoadPosition(placement: string, side: string, castling: string, clock: int)
      requires Valid() && Loaded(Model(), placement, side, castling, clock).Some?
      modifies BoardRepr(), HistoryRepr()
      ensures Valid() && Model() == Loaded(old(Model()), placement, side, castling, clock).value
      ensures madeMoves.Played() == [] && madeMoves.Redo() == []
    {
      ghost var p := Model();
      LoadBoardStep(placement, castling);
      ghost var q := Model();
      assert Loaded(p, placement, side, castling, clock).value
        == q.(side := ActiveColor(side), clock := clock, ep := -1, promoted := -1);
      hide Loaded, Arranged;
      LoadCountersStep(side, clock);
    }

    /** The remaining fields: the side, the clock, no en passant square, no waiting promotion, no history. */
    method LoadCountersStep(side: string, clock: int)
      requires Valid()
      modifies this, madeMoves
      ensures Valid() && Model() == old(Model()).(side := ActiveColor(side), clock := clock, ep := -1, promoted := -1)
      ensures madeMoves.Played() == [] && madeMoves.Redo() == []
    {
      sideToMove := ActiveColor(side);
      halfMoveClock := clock;
      possibleEpCapture := -1;
      promotedPawnSquare := -1;
      madeMoves.ResetMadeMoves();
    }

    /** The placement and castling fields, read into the mailbox and the piece lists. */
    method LoadBoardStep(placement: string, castling: string)
      requires Valid() && Arranged(Model(), placement, castling).Some?
      modifies mailbox.chessBoard, pieceList.board, pieceList.pieces, pieceList.nPieces, pieceList.nSpecPieces, pieceList.kingSquare
      ensures Valid() && Model() == Arranged(old(Model()), placement, castling).value
    {
      ghost var p := Model();
      ghost var f := Place(p.board, ListsReset(p.lists), placement, 0, 0).value;
      assert Arranged(p, placement, castling).value == p.(board := CastlingFlags(f.board, castling), lists := f.lists);
      hide Arranged, Place, CastlingFlags, ListsReset;
      LoadBoard(mailbox, pieceList, placement, castling);
    }

    // -------------------------------------------------------------------
    // The steps of `makeMove`, `unmakeMove` and `updatePromotion`, each
    // proved against the step function of module Positions it performs

    /** The clock runs on, or restarts on a pawn move or a capture; a captured piece leaves the other side's list and its square. */
    method TakeCapturedStep(move: Move)
      requires Valid()
      requires move.IsCapture() ==>
        CanRemove(Model().lists.slots, CapturedSquare(move), 1 - sideToMove)
        && PAWN <= mailbox.Get(CapturedSquare(move)).Type() <= KING
      modifies this, mailbox.chessBoard, pieceList.board, pieceList.pieces, pieceList.nPieces, pieceList.nSpecPieces
      ensures Valid() && Model() == TakeCaptured(old(Model()), move)
    {
      hide PieceList.Model, PieceList.PiecesRow, PieceList.SpecRow, Consistent, InList, Shaped, ListsShaped, ListsRemove, SlotsRemove, CanRemove, ListsAdd, SlotsAdd, ListsMove, SlotsMove, KingMoved, Recount, MovePieceOn, Mailbox.Board;
      ClockStep(move);
      if move.IsCapture() {
        RemoveCapturedStep(CapturedSquare(move));
      }
    }

    /** The half-move clock runs on, or restarts on a pawn move or a capture. */
    method ClockStep(move: Move)
      requires Valid()
      modifies this
      ensures Valid()
      ensures Model() == old(Model()).(clock := if move.IsCapture() || old(mailbox.Get(move.From())).Type() == PAWN then 0 else old(halfMoveClock) + 1)
    {
      halfMoveClock := halfMoveClock + 1;
      if mailbox.Get(move.From()).Type() == PAWN {
        halfMoveClock := 0;
      }
      if move.IsCapture() {
        halfMoveClock := 0;
      }
    }

    /** The piece on `square` leaves the board and the list of the side not to move. */
    method RemoveCapturedStep(square: int)
      requires Valid() && 0 <= square < 64
      requires CanRemove(Model().lists.slots, square, 1 - sideToMove) && PAWN <= mailbox.Get(square).Type() <= KING
      modifies mailbox.chessBoard, pieceList.board, pieceList.pieces, pieceList.nPieces, pieceList.nSpecPieces
      ensures Valid()
      ensures var p := old(Model());
        Model() == p.(board := p.board[square := p.board[square].WithType(EMPTY)],
                      lists := ListsRemove(p.lists, square, 1 - p.side, p.board[square].Type()))
    {
      hide PieceList.Model, PieceList.PiecesRow, PieceList.SpecRow, Consistent, InList, Shaped, ListsShaped, ListsRemove, SlotsRemove, CanRemove, ListsAdd, SlotsAdd, ListsMove, SlotsMove, KingMoved, Recount, MovePieceOn, Mailbox.Board;
      ghost var p := Model();
      pieceList.RemovePiece(square, 1 - sideToMove, mailbox.Get(square).Type());
      mailbox.SetType(square, EMPTY);
      assert pieceList.Model() == ListsRemove(p.lists, square, 1 - p.side, p.board[square].Type());
      assert mailbox.Board() == p.board[square := p.board[square].WithType(EMPTY)];
    }

    /** The previous en passant pawn is marked MOVED and the en passant square cleared. */
    method ClearEnPassantStep()
      requires Valid() && -1 <= possibleEpCapture < 64
      modifies this, mailbox.chessBoard
      ensures Valid() && Model() == ClearEnPassant(old(Model()))
    {
      hide PieceList.Model, PieceList.PiecesRow, PieceList.SpecRow, Consistent, InList, Shaped, ListsShaped, ListsRemove, SlotsRemove, CanRemove, ListsAdd, SlotsAdd, ListsMove, SlotsMove, KingMoved, Recount, MovePieceOn, Mailbox.Board;
      if possibleEpCapture != -1 {
        mailbox.SetFlags(possibleEpCapture, MOVED);
        possibleEpCapture := -1;
      }
    }

    /** A double push flags the mover EN_PASSANT and records its destination; otherwise an unmoved mover is marked MOVED. */
    method MarkMoverStep(move: Move)
      requires Valid()
      modifies this, mailbox.chessBoard
      ensures Valid() && Model() == MarkMover(old(Model()), move)
    {
      hide PieceList.Model, PieceList.PiecesRow, PieceList.SpecRow, Consistent, InList, Shaped, ListsShaped, ListsRemove, SlotsRemove, CanRemove, ListsAdd, SlotsAdd, ListsMove, SlotsMove, KingMoved, Recount, MovePieceOn, Mailbox.Board;
      var piece := mailbox.Get(move.From());
      if move.IsDoublePawnPush() {
        mailbox.SetFlags(move.From(), EN_PASSANT);
        possibleEpCapture := move.To();
      } else if !piece.HasMoved() {
        mailbox.SetFlags(move.From(), MOVED);
      }
    }

    /**
     * A piece of the side to move goes from `fromSquare` to `toSquare` in
     * the piece list and on the board (the two updates write different
     * arrays, so the order the source uses for each call does not matter).
     */
    method RelocateStep(fromSquare: int, toSquare: int)
      requires Valid() && 0 <= fromSquare < 64 && 0 <= toSquare < 64
      requires 0 <= Model().lists.slots.board[fromSquare] < MAX_PIECES
      modifies mailbox.chessBoard, pieceList.board, pieceList.pieces, pieceList.kingSquare
      ensures Valid() && Model() == Relocate(old(Model()), fromSquare, toSquare)
    {
      hide PieceList.Model, PieceList.PiecesRow, PieceList.SpecRow, Consistent, InList, Shaped, ListsShaped, ListsRemove, SlotsRemove, CanRemove, ListsAdd, SlotsAdd, ListsMove, SlotsMove, KingMoved, Recount, MovePieceOn, Mailbox.Board;
      pieceList.MovePiece(fromSquare, toSquare, sideToMove != 0);
      mailbox.MovePiece(fromSquare, toSquare);
    }

    /** `updatePromotion` on the board alone: the waiting pawn changes type and count, the side flips and nothing waits any more. */
    method PromoteStep(promotion: int)
      requires Valid() && 0 <= promotedPawnSquare < 64 && 0 <= promotion < 4
      modifies this, mailbox.chessBoard, pieceList.nSpecPieces
      ensures Valid() && Model() == Promote(old(Model()), promotion)
    {
      hide PieceList.Model, PieceList.PiecesRow, PieceList.SpecRow, Consistent, InList, Shaped, ListsShaped, ListsRemove, SlotsRemove, CanRemove, ListsAdd, SlotsAdd, ListsMove, SlotsMove, KingMoved, Recount, MovePieceOn, Mailbox.Board;
      PromotePieceStep(promotedPawnSquare, KNIGHT + promotion);
      HandOverStep();
    }

    /** The pawn on `square` becomes a `toType`, and the counts of the side to move follow. */
    method PromotePieceStep(square: int, toType: int)
      requires Valid() && 0 <= square < 64 && PAWN <= toType <= KING
      modifies mailbox.chessBoard, pieceList.nSpecPieces
      ensures Valid()
      ensures var p := old(Model()); var c := p.side;
        Model() == p.(board := p.board[square := p.board[square].WithType(toType)],
                      lists := p.lists.(nSpecPieces := p.lists.nSpecPieces[c := Recount(p.lists.nSpecPieces[c], PAWN, toType)]))
    {
      hide PieceList.Model, PieceList.PiecesRow, PieceList.SpecRow, Consistent, InList, Shaped, ListsShaped, ListsRemove, SlotsRemove, CanRemove, ListsAdd, SlotsAdd, ListsMove, SlotsMove, KingMoved, Recount, MovePieceOn, Mailbox.Board;
      mailbox.SetType(square, toType);
      pieceList.RecountPieces(sideToMove, PAWN, toType);
    }

    /** The side to move flips and no pawn waits any more. */
    method HandOverStep()
      requires Valid()
      modifies this
      ensures Valid() && Model() == old(Model()).(side := 1 - old(sideToMove), promoted := -1)
    {
      sideToMove := 1 - sideToMove;
      promotedPawnSquare := -1;
    }

    /** `Make` as the board plays it: the pieces are placed, then the pawn waits or promotes, or the side flips. */
    lemma MakeHere(move: Move, waitForSelection: bool)
      requires Valid() && Sound(Model()) && Ready(Model(), move)
      ensures 0 <= move.To() < 64
      ensures move.IsPromotion() ==>
        Make(Model(), move, waitForSelection)
        == if waitForSelection then Placed(Model(), move).(promoted := move.To())
           else Promote(Placed(Model(), move).(promoted := move.To()), PromotionChoice(move))
      ensures !move.IsPromotion() ==> Make(Model(), move, waitForSelection) == Placed(Model(), move).(side := 1 - sideToMove)
    {
      KindPredicates(move);
    }

    /** A board left as `p` with the moves not regenerated is the outcome 0 of `p`. */
    lemma Unregenerated(p: Position)
      requires Valid() && Model() == p
      ensures Outcome(p, false, 0)
    {
    }

    /** The pawn that reached the last rank waits on `square` for the promotion choice. */
    method WaitPromotionStep(square: int)
      requires Valid()
      modifies this
      ensures Valid() && Model() == old(Model()).(promoted := square)
    {
      promotedPawnSquare := square;
    }

    /** The clock, the side to move and the en passant square come back, and the en passant pawn is flagged again. */
    method RestoreCountersStep(lastMove: MadeMove)
      requires Valid() && -1 <= lastMove.previousEpCapture < 64
      modifies this, mailbox.chessBoard
      ensures Valid() && Model() == RestoreCounters(old(Model()), lastMove)
    {
      hide PieceList.Model, PieceList.PiecesRow, PieceList.SpecRow, Consistent, InList, Shaped, ListsShaped, ListsRemove, SlotsRemove, CanRemove, ListsAdd, SlotsAdd, ListsMove, SlotsMove, KingMoved, Recount, MovePieceOn, Mailbox.Board;
      halfMoveClock := lastMove.halfMoveClock;
      sideToMove := 1 - sideToMove;
      possibleEpCapture := lastMove.previousEpCapture;
      if possibleEpCapture != -1 {
        mailbox.SetFlags(possibleEpCapture, EN_PASSANT);
      }
    }

    /** The mover goes back on the board with its old status. */
    method MoveBackStep(lastMove: MadeMove)
      requires Valid()
      modifies mailbox.chessBoard
      ensures Valid() && Model() == MoveBack(old(Model()), lastMove)
    {
      hide PieceList.Model, PieceList.PiecesRow, PieceList.SpecRow, Consistent, InList, Shaped, ListsShaped, ListsRemove, SlotsRemove, CanRemove, ListsAdd, SlotsAdd, ListsMove, SlotsMove, KingMoved, Recount, MovePieceOn, Mailbox.Board;
      var move := lastMove.move;
      mailbox.MovePiece(move.To(), move.From());
      mailbox.SetFlags(move.From(), lastMove.movedPieceFlags);
    }

    /** Taking back a promotion: the count goes back to pawns and the piece is a pawn again. */
    method DemoteStep(fromSquare: int)
      requires Valid() && 0 <= fromSquare < 64 && PAWN <= mailbox.Get(fromSquare).Type() <= KING
      modifies mailbox.chessBoard, pieceList.nSpecPieces
      ensures Valid() && Model() == Demote(old(Model()), fromSquare)
    {
      hide PieceList.Model, PieceList.PiecesRow, PieceList.SpecRow, Consistent, InList, Shaped, ListsShaped, ListsRemove, SlotsRemove, CanRemove, ListsAdd, SlotsAdd, ListsMove, SlotsMove, KingMoved, Recount, MovePieceOn, Mailbox.Board;
      pieceList.RecountPieces(sideToMove, mailbox.Get(fromSquare).Type(), PAWN);
      mailbox.SetType(fromSquare, PAWN);
    }

    /** The captured piece comes back on its square and into the list of the side not to move. */
    method PutBackStep(square: int, piece: Piece)
      requires Valid() && 0 <= square < 64 && PAWN <= piece.Type() <= KING
      requires 0 <= Model().lists.slots.count[1 - sideToMove] < MAX_PIECES
      modifies mailbox.chessBoard, pieceList.board, pieceList.pieces, pieceList.nPieces, pieceList.nSpecPieces, pieceList.kingSquare
      ensures Valid() && Model() == PutBack(old(Model()), square, piece)
    {
      hide PieceList.Model, PieceList.PiecesRow, PieceList.SpecRow, Consistent, InList, Shaped, ListsShaped, ListsRemove, SlotsRemove, CanRemove, ListsAdd, SlotsAdd, ListsMove, SlotsMove, KingMoved, Recount, MovePieceOn, Mailbox.Board;
      mailbox.Put(square, piece);
      pieceList.AddPiece(square, 1 - sideToMove, piece.Type());
    }

    /** The record of `move` on the board as it stands joins the history, and the first replayable record goes. */
    method RecordStep(move: Move)
      requires Valid() && madeMoves.nMadeMoves < MAX_GAME_MOVES
      modifies HistoryRepr()
      ensures Valid() && Model() == old(Model()) && madeMoves.nMadeMoves > 0
      ensures madeMoves.madeMoves[madeMoves.nMadeMoves - 1].move == move
      ensures madeMoves.Played() == old(madeMoves.Played()) + [Positions.GetMadeMove(old(Model()), move)]
      ensures madeMoves.Redo() == if old(madeMoves.Redo()) == [] then [] else old(madeMoves.Redo())[1..]
    {
      var madeMove := GetMadeMove(move);
      madeMoves.AddMove(madeMove);
      assert madeMoves.madeMoves[madeMoves.nMadeMoves - 1] == madeMoves.Played()[madeMoves.nMadeMoves - 1];
    }

    // -------------------------------------------------------------------
    // The operations of the board

    /**
     * `makeMove(move, waitForSelection, updateMoves, updateMadeMoves)`.
     * The board becomes `Make` of the board before: exactly when the moves
     * are not regenerated, up to equivalence when they are (the filter
     * makes and takes back every candidate). Regenerated moves are the
     * legal moves of the new position and the result is the game's ending;
     * otherwise the move list is untouched and the result is 0. When the
     * move is recorded the history grows by its record, and the first
     * replayable record, if any, is overwritten.
     */
    method MakeMove(move: Move, waitForSelection: bool, updateMoves: bool, updateMadeMoves: bool) returns (result: int)
      requires Valid() && Sound(Model()) && Ready(Model(), move)
      requires updateMadeMoves ==> madeMoves.nMadeMoves < MAX_GAME_MOVES
      requires updateMoves && !(move.IsPromotion() && waitForSelection) ==> Playable(Make(Model(), move, waitForSelection))
      modifies BoardRepr(), if updateMoves && !(move.IsPromotion() && waitForSelection) then MovesRepr() else {}
      modifies if updateMadeMoves then HistoryRepr() else {}
      decreases if updateMoves then 1 else 0, 5
      ensures Valid()
      ensures Outcome(Make(old(Model()), move, waitForSelection), updateMoves && !(move.IsPromotion() && waitForSelection), result)
      ensures Sound(Model()) && (move.IsPromotion() && waitForSelection ==> PromotionWaits(Model()))
      ensures Tallied(old(Model())) ==> Tallied(Model())
      ensures updateMadeMoves ==>
        madeMoves.Played() == old(madeMoves.Played()) + [Positions.GetMadeMove(old(Model()), move)]
        && madeMoves.Redo() == (if old(madeMoves.Redo()) == [] then [] else old(madeMoves.Redo())[1..])
    {
      ghost var p0 := Model();
      MakeSound(p0, move, waitForSelection);
      {
        hide Valid, Sound, Ready, Playable, Refreshed, Make, Outcome, Model, Shape, Positions.GetMadeMove;
        if updateMadeMoves {
          RecordStep(move);
        }
        result := PlayMove(move, waitForSelection, updateMoves, updateMadeMoves);
      }
      if Tallied(p0) {
        MakeTallied(p0, move, waitForSelection);
        if updateMoves && !(move.IsPromotion() && waitForSelection) {
          TalliedEquiv(Model(), Make(p0, move, waitForSelection));
        }
      }
    }

    /**
     * The part of `makeMove` after the record is written: the move is
     * played on the board, a promotion either waits or is completed at
     * once, and the moves are regenerated when asked. When the move was
     * recorded, completing the promotion rewrites its record with the
     * choice it already holds, so the history reads the same.
     */
    method PlayMove(move: Move, waitForSelection: bool, updateMoves: bool, recorded: bool) returns (result: int)
      requires Valid() && Sound(Model()) && Ready(Model(), move)
      requires recorded ==> madeMoves.nMadeMoves > 0 && madeMoves.madeMoves[madeMoves.nMadeMoves - 1].move == move
      requires updateMoves && !(move.IsPromotion() && waitForSelection) ==> Playable(Make(Model(), move, waitForSelection))
      modifies BoardRepr(), if updateMoves && !(move.IsPromotion() && waitForSelection) then MovesRepr() else {}
      modifies if recorded then {madeMoves.madeMoves} else {}
      decreases if updateMoves then 1 else 0, 4
      ensures Valid()
      ensures Outcome(Make(old(Model()), move, waitForSelection), updateMoves && !(move.IsPromotion() && waitForSelection), result)
      ensures madeMoves.Played() == old(madeMoves.Played()) && madeMoves.Redo() == old(madeMoves.Redo())
    {
      hide *;
      MakeHere(move, waitForSelection);
      MoveOnBoard(move);
      if move.IsPromotion() {
        result := ArrivePromotion(move, waitForSelection, updateMoves, recorded);
      } else {
        result := EndTurn(updateMoves);
      }
    }

    /**
     * The end of `makeMove` for a promotion: the pawn waits on its
     * destination, and unless the caller asked to wait the choice the move
     * holds is played at once. Completing the promotion rewrites the
     * newest record with the choice it already holds, so the history reads
     * the same.
     */
    method ArrivePromotion(move: Move, waitForSelection: bool, updateMoves: bool, recorded: bool) returns (result: int)
      requires Valid() && move.IsPromotion() && 0 <= move.To() < 64
      requires recorded ==> madeMoves.nMadeMoves > 0 && madeMoves.madeMoves[madeMoves.nMadeMoves - 1].move == move
      requires updateMoves && !waitForSelection ==> Playable(Promote(Model().(promoted := move.To()), PromotionChoice(move)))
      modifies BoardRepr(), if updateMoves && !waitForSelection then MovesRepr() else {}
      modifies if recorded then {madeMoves.madeMoves} else {}
      decreases if updateMoves then 1 else 0, 3
      ensures Valid()
      ensures var waiting := old(Model()).(promoted := move.To());
        if waitForSelection then Outcome(waiting, false, result)
        else Outcome(Promote(waiting, PromotionChoice(move)), updateMoves, result)
      ensures madeMoves.Played() == old(madeMoves.Played()) && madeMoves.Redo() == old(madeMoves.Redo())
    {
      hide Valid, Playable, Refreshed, LegalMoves, GameEnding, Promote, Shape, Model, Outcome;
      WaitPromotionStep(move.To());
      if !waitForSelection {
        if recorded {
          OrOwnPromotion(move);
        }
        result := UpdatePromotion(PromotionChoice(move), updateMoves, recorded);
      } else {
        result := 0;
        Unregenerated(Model());
      }
    }

    /**
     * The end of `makeMove` for a move that is not a promotion: the side to
     * move flips, and when asked the moves are regenerated and the game's
     * ending is the result; otherwise the result is 0.
     */
    method EndTurn(updateMoves: bool) returns (result: int)
      requires Valid() && (updateMoves ==> Playable(Model().(side := 1 - sideToMove)))
      modifies BoardRepr(), if updateMoves then MovesRepr() else {}
      decreases if updateMoves then 1 else 0, 2
      ensures Valid() && Outcome(old(Model()).(side := 1 - old(sideToMove)), updateMoves, result)
    {
      PassTurnStep();
      hide Sound, Playable, LegalMoves, GameEnding, SquareIsAttacked;
      if updateMoves {
        UpdateAvailableMoves();
        result := CheckGameEnded();
      } else {
        result := 0;
      }
    }

    /** The other side is to move; nothing else changes. */
    method PassTurnStep()
      requires Valid()
      modifies this
      ensures Valid() && Model() == old(Model()).(side := 1 - old(sideToMove))
    {
      sideToMove := 1 - sideToMove;
    }

    /**
     * The steps of `makeMove` on the pieces, in the source's order: the
     * clock and the capture, the en passant square, the mover's status, the
     * mover itself and, for a castle, the rook.
     */
    method MoveOnBoard(move: Move)
      requires Valid() && Sound(Model()) && Ready(Model(), move)
      modifies BoardRepr()
      ensures Valid() && Model() == Placed(old(Model()), move)
    {
      ghost var p0 := Model();
      CaptureFits(p0, move);
      MoverListed(p0, move);
      if move.IsCastle() {
        RookListed(p0, move);
      }
      hide Sound, Ready, TakeCaptured, ClearEnPassant, MarkMover, Relocate, Moved;
      TakeCapturedStep(move);
      ClearEnPassantStep();
      MarkMoverStep(move);
      RelocateStep(move.From(), move.To());
      if move.IsCastle() {
        var (rookFrom, rookTo) := GetRookMoveFromCastle(move);
        RelocateStep(rookFrom, rookTo);
      }
    }

    /**
     * `updatePromotion(promotion, updateMoves)`: the waiting pawn becomes
     * KNIGHT + `promotion` (the board becomes `Promote` of the board
     * before, up to equivalence when the moves are regenerated). The choice
     * is or-ed into the newest history record only when the move was
     * recorded, `recorded`; see the findings for what the unconditional
     * update of the source does to a simulated promotion.
     */
    method UpdatePromotion(promotion: int, updateMoves: bool, recorded: bool) returns (result: int)
      requires Valid() && 0 <= promotedPawnSquare < 64 && 0 <= promotion < 4
      requires recorded ==> madeMoves.nMadeMoves > 0
      requires updateMoves ==> Playable(Promote(Model(), promotion))
      modifies BoardRepr(), if updateMoves then MovesRepr() else {}, if recorded then {madeMoves.madeMoves} else {}
      decreases if updateMoves then 1 else 0, 2
      ensures Valid() && Outcome(Promote(old(Model()), promotion), updateMoves, result)
      ensures Sound(old(Model())) && PromotionWaits(old(Model())) ==> Sound(Model())
      ensures Tallied(old(Model())) && PromotionWaits(old(Model())) ==> Tallied(Model())
      ensures recorded ==>
        madeMoves.Played() == PromoteLast(old(madeMoves.Played()), promotion) && madeMoves.Redo() == old(madeMoves.Redo())
    {
      ghost var p0 := Model();
      PromoteSound(p0, promotion);
      PromoteTallied(p0, promotion);
      hide Sound, Playable, LegalMoves, GameEnding, Promote, SquareIsAttacked, PromotionWaits, Tallied;
      if recorded {
        madeMoves.UpdateLastPromotionMove(promotion);
      }
      PromoteStep(promotion);
      if updateMoves {
        UpdateAvailableMoves();
        TalliedEquiv(Model(), Promote(p0, promotion));
        result := CheckGameEnded();
        return;
      }
      result := 0;
    }

    /**
     * `unmakeMove(lastMove, updateMoves)`: the board becomes `Unmake` of
     * the board before (up to equivalence when the moves are regenerated).
     * The history is not touched.
     */
    method UnmakeMove(lastMove: MadeMove, updateMoves: bool)
      requires Valid() && UnmakeReady(Model(), lastMove)
      requires updateMoves ==> Playable(Unmake(Model(), lastMove))
      modifies BoardRepr(), if updateMoves then MovesRepr() else {}
      decreases if updateMoves then 1 else 0, 2
      ensures Valid()
      ensures !updateMoves ==> Model() == Unmake(old(Model()), lastMove)
      ensures updateMoves ==> Refreshed(Unmake(old(Model()), lastMove))
    {
      hide *;
      UnmakeOnBoard(lastMove);
      if updateMoves {
        UpdateAvailableMoves();
      }
    }

    /** `unmakeMove` on the board alone: the board becomes `Unmake` of the board before. */
    method UnmakeOnBoard(lastMove: MadeMove)
      requires Valid() && UnmakeReady(Model(), lastMove)
      modifies BoardRepr()
      ensures Valid() && Model() == Unmake(old(Model()), lastMove)
    {
      var move := lastMove.move;
      KindPredicates(move);
      hide Sound, Playable, Refreshed, LegalMoves, KingsPlaced,
        RestoreCounters, MoveBack, Demote, PutBack, Relocate, SquareIsAttacked;
      RetractOnBoard(lastMove);
      if move.IsCapture() {
        PutBackStep(CapturedSquare(move), lastMove.capturedPiece);
      }
      if move.IsCastle() {
        var (rookFrom, rookTo) := GetRookMoveFromCastle(move);
        RelocateStep(rookTo, rookFrom);
      }
    }

    /** The first part of `unmakeMove`: counters, the mover and a promoted piece go back. */
    method RetractOnBoard(lastMove: MadeMove)
      requires Valid() && UnmakeReady(Model(), lastMove)
      modifies BoardRepr()
      ensures Valid() && Model() == Retracted(old(Model()), lastMove)
    {
      ghost var q := Model();
      var move := lastMove.move;
      KindPredicates(move);
      hide Sound, Playable, Refreshed, LegalMoves, KingsPlaced,
        RestoreCounters, MoveBack, Demote, PutBack, Relocate, SquareIsAttacked;
      RestoreCountersStep(lastMove);
      MoveBackStep(lastMove);
      if move.IsPromotion() {
        DemoteStep(move.From());
      }
      pieceList.MovePiece(move.To(), move.From(), sideToMove != 0);
      assert Model() == Retracted(q, lastMove);
    }

    /**
     * `updateAvailableMoves`: the pseudo-legal moves of the side to move
     * are generated and filtered; the move list then holds the legal moves
     * of the board as it was, and the board is equivalent to it.
     */
    method UpdateAvailableMoves()
      requires Valid() && Playable(Model())
      modifies BoardRepr(), MovesRepr()
      decreases 1, 1
      ensures Valid() && Refreshed(old(Model()))
    {
      hide Sound, KingsPlaced, AllReady, Equiv, Shape, Generable, GenMoves, Filtered;
      UpdatePossibleMoves(mailbox, pieceList, availableMoves, sideToMove);
      FilterPseudoLegalMoves();
    }

    /**
     * One verdict of `filterPseudoLegalMoves`: a castle is rejected when
     * the king stands on or crosses an attacked square; any other move, and
     * a castle that passes, is tried. The board ends equivalent to where it
     * started.
     */
    method TryMove(move: Move) returns (rejected: bool)
      requires Valid() && Sound(Model()) && KingsPlaced(Model()) && Ready(Model(), move)
      modifies BoardRepr()
      decreases 0, 7
      ensures Valid() && Sound(Model()) && KingsPlaced(Model()) && Equiv(Model(), old(Model()))
      ensures rejected == Rejected(old(Model()), move)
    {
      ghost var u := Model();
      TrialCastle(u, move);
      EquivRefl(u);
      hide Sound, KingsPlaced, Ready, Equiv, CastleThroughCheck, LeavesKingAttacked, SquareIsAttacked;
      rejected := false;
      if move.IsCastle() {
        var kingSquare := pieceList.GetKingSquare(sideToMove);
        var squareBesidesKing := if move.IsQueenCastle() then kingSquare - 1 else kingSquare + 1;
        rejected := SquareIsAttacked(kingSquare, mailbox.chessBoard[..], sideToMove)
                 || SquareIsAttacked(squareBesidesKing, mailbox.chessBoard[..], sideToMove);
      }
      if !rejected {
        rejected := TryMadeMove(move);
      }
    }

    /**
     * The move is made without regenerating the moves or recording it,
     * the mover's king is checked, and the move is taken back: the verdict
     * is whether the move leaves the king attacked, and the board ends
     * equivalent to where it started.
     */
    method TryMadeMove(move: Move) returns (attacked: bool)
      requires Valid() && Sound(Model()) && KingsPlaced(Model()) && Ready(Model(), move)
      modifies BoardRepr()
      decreases 0, 6
      ensures Valid() && Sound(Model()) && KingsPlaced(Model()) && Equiv(Model(), old(Model()))
      ensures attacked == LeavesKingAttacked(old(Model()), move)
    {
      ghost var u := Model();
      TrialMade(u, move);
      TrialBack(u, move);
      hide Sound, KingsPlaced, Ready, Make, Unmake, UnmakeReady, Equiv, LeavesKingAttacked,
        Positions.GetMadeMove, SquareIsAttacked, Playable;
      var madeMove := GetMadeMove(move);
      var _ := MakeMove(move, false, false, false);
      // The side to move has flipped: the mover's king is that of the other side now.
      attacked := SquareIsAttacked(pieceList.GetKingSquare(1 - sideToMove), mailbox.chessBoard[..], 1 - sideToMove);
      UnmakeMove(madeMove, false);
    }

    /**
     * `filterPseudoLegalMoves(availableMoves)`: every move is tried, the
     * rejected indices are recorded in ascending order and then removed
     * from the highest down. What is left is `Filtered` of the list before:
     * exactly the moves that are not rejected. Trying a move makes and
     * takes it back, so the board ends equivalent to where it started. The
     * history is left alone: that is the corrected promotion rule of
     * `UpdatePromotion`, where the source rewrites the newest record
     * whenever a tried move is a promotion (`PromotionRecordAsWritten`).
     */
    method FilterPseudoLegalMoves()
      requires Valid() && Sound(Model()) && KingsPlaced(Model()) && AllReady(Model(), availableMoves.Contents())
      modifies BoardRepr(), MovesRepr()
      decreases 1, 0
      ensures Valid() && Sound(Model()) && KingsPlaced(Model()) && Equiv(Model(), old(Model()))
      ensures availableMoves.Contents() == Filtered(old(Model()), old(availableMoves.Contents()))
    {
      hide Valid, Sound, KingsPlaced, AllReady, Verdicts, Flagged, RemoveFrom, Equiv, Shape, Model;
      var nFilteredMoves := FlagRejected();
      RemoveFlaggedMoves(nFilteredMoves);
    }

    /**
     * The first loop of `filterPseudoLegalMoves`: every move is tried in
     * turn, and the indices of the rejected ones are written to
     * `filteredMoves` in ascending order: at the end the board is still
     * equivalent to where it started and the flagged indices are exactly
     * those of the moves `Rejected` on it.
     */
    method FlagRejected() returns (nFilteredMoves: int)
      requires Valid() && Sound(Model()) && KingsPlaced(Model()) && AllReady(Model(), availableMoves.Contents())
      modifies BoardRepr(), filteredMoves
      decreases 0, 10
      ensures Flagging(old(Model()), Verdicts(old(Model()), old(availableMoves.Contents())), availableMoves.nMoves, nFilteredMoves)
    {
      FlaggingStarts();
      ghost var p0 := Model();
      ghost var verdicts := Verdicts(p0, availableMoves.Contents());
      hide *;
      nFilteredMoves := 0;
      var i := 0;
      while i < availableMoves.nMoves
        invariant Flagging(p0, verdicts, i, nFilteredMoves)
      {
        nFilteredMoves := FlagIfRejected(i, nFilteredMoves, p0, verdicts);
        i := i + 1;
      }
    }

    /** Before the first loop nothing is flagged. */
    lemma FlaggingStarts()
      requires Valid() && Sound(Model()) && KingsPlaced(Model()) && AllReady(Model(), availableMoves.Contents())
      ensures Flagging(Model(), Verdicts(Model(), availableMoves.Contents()), 0, 0)
    {
      EquivRefl(Model());
    }

    /** The board while the filter tries moves: valid, sound, with both kings, and equivalent to `p0`. */
    ghost predicate Trying(p0: Position)
      reads Repr()
      ensures Trying(p0) ==> Valid()
    {
      Valid() && Sound(Model()) && KingsPlaced(Model()) && Shape(p0) && Equiv(Model(), p0)
    }

    /**
     * The first loop of the filter after `i` moves: the board is still
     * equivalent to `p0`, the list is the one the verdicts were taken on,
     * and the first `n` entries of `filteredMoves` are the rejected indices
     * below `i`.
     */
    ghost predicate Flagging(p0: Position, verdicts: seq<bool>, i: int, n: int)
      reads Repr()
    {
      Trying(p0) && 0 <= n <= i <= availableMoves.nMoves == |verdicts|
      && Sound(p0) && KingsPlaced(p0) && AllReady(p0, availableMoves.Contents())
      && verdicts == Verdicts(p0, availableMoves.Contents())
      && filteredMoves[..n] == Flagged(verdicts, i)
    }

    /**
     * One pass of the first loop: the move at `i` is tried on a board
     * equivalent to `p0` and, when it is rejected, `i` is flagged, so the
     * flagged indices stay those of the rejected moves before `i + 1`.
     */
    method FlagIfRejected(i: int, n: int, ghost p0: Position, ghost verdicts: seq<bool>) returns (n': int)
      requires Flagging(p0, verdicts, i, n) && i < availableMoves.nMoves
      modifies BoardRepr(), filteredMoves
      decreases 0, 9
      ensures Flagging(p0, verdicts, i + 1, n')
    {
      var rejected := TryAt(i, p0);
      n' := n;
      if rejected {
        FlagStep(n, i);
        n' := n + 1;
      }
    }

    /** The move at `i` is tried on a board equivalent to `p0`; the verdict is the one `p0` gives. */
    method TryAt(i: int, ghost p0: Position) returns (rejected: bool)
      requires Trying(p0) && Sound(p0) && KingsPlaced(p0) && AllReady(p0, availableMoves.Contents())
      requires 0 <= i < availableMoves.nMoves
      modifies BoardRepr()
      decreases 0, 8
      ensures Trying(p0) && availableMoves.Contents() == old(availableMoves.Contents())
      ensures filteredMoves[..] == old(filteredMoves[..])
      ensures rejected == Rejected(p0, availableMoves.Contents()[i])
    {
      hide Valid, Rejected, Ready, Sound, KingsPlaced, SquareIsAttacked, Equiv, Model;
      var move := availableMoves.Get(i);
      ghost var u := Model();
      RejectedEquiv(u, p0, move);
      rejected := TryMove(move);
      EquivTrans(Model(), u, p0);
    }

    /** Index `i` is written to `filteredMoves` at `n`; the board does not change. */
    method FlagStep(n: int, i: int)
      requires Valid() && 0 <= n < filteredMoves.Length
      modifies filteredMoves
      ensures Valid() && Model() == old(Model())
      ensures filteredMoves[..n + 1] == old(filteredMoves[..n]) + [i]
    {
      filteredMoves[n] := i;
    }

    /**
     * The second loop of `filterPseudoLegalMoves`: the flagged indices are
     * removed from the highest down, each by moving the last move into its
     * place.
     */
    method RemoveFlaggedMoves(nFilteredMoves: int)
      requires Valid() && 0 <= nFilteredMoves <= filteredMoves.Length
      requires Ascending(filteredMoves[..nFilteredMoves], availableMoves.nMoves)
      modifies availableMoves, availableMoves.moves
      ensures Valid()
      ensures availableMoves.Contents() == RemoveFrom(old(availableMoves.Contents()), old(filteredMoves[..nFilteredMoves]), 0)
    {
      RemoveRecorded(availableMoves, filteredMoves, nFilteredMoves);
    }

    /**
     * `getMove(fromPos, toPos)`: the first legal move from `fromPos` to
     * `toPos`, or the null move when there is none.
     */
    method GetMove(fromPos: int, toPos: int) returns (move: Move)
      requires Valid()
      ensures var s := availableMoves.Contents();
        (exists i | 0 <= i < |s| :: Connects(s[i], fromPos, toPos)) ==>
          exists i | 0 <= i < |s| :: s[i] == move && Connects(move, fromPos, toPos)
            && forall j | 0 <= j < i :: !Connects(s[j], fromPos, toPos)
      ensures var s := availableMoves.Contents();
        (forall i | 0 <= i < |s| :: !Connects(s[i], fromPos, toPos)) ==> move == NullMove()
    {
      for i := 0 to availableMoves.nMoves
        invariant forall j | 0 <= j < i :: !Connects(availableMoves.Contents()[j], fromPos, toPos)
      {
        var candidate := availableMoves.Get(i);
        if candidate.From() == fromPos && candidate.To() == toPos {
          return candidate;
        }
      }
      return NullMove();
    }

    /**
     * `unmakeLastMove(updateMoves)`: with an empty history nothing happens;
     * otherwise the newest record leaves the played part, becomes the first
     * replayable one, and is taken back.
     */
    method UnmakeLastMove(updateMoves: bool)
      requires Valid()
      requires madeMoves.nMadeMoves > 0 ==> UnmakeReady(Model(), madeMoves.GetLastMove())
      requires madeMoves.nMadeMoves > 0 && updateMoves ==> Playable(Unmake(Model(), madeMoves.GetLastMove()))
      modifies Repr()
      ensures Valid()
      ensures old(madeMoves.nMadeMoves) == 0 ==>
        Model() == old(Model()) && madeMoves.Played() == old(madeMoves.Played()) && madeMoves.Redo() == old(madeMoves.Redo())
      ensures old(madeMoves.nMadeMoves) > 0 ==>
        var last := old(madeMoves.GetLastMove());
        madeMoves.Played() == old(madeMoves.Played())[..old(madeMoves.nMadeMoves) - 1]
        && madeMoves.Redo() == [last] + old(madeMoves.Redo())
        && (!updateMoves ==> Model() == Unmake(old(Model()), last))
        && (updateMoves ==> Refreshed(Unmake(old(Model()), last)))
    {
      hide Valid, Model, Unmake, UnmakeReady, Playable, Refreshed, Shape, Sound;
      if madeMoves.nMadeMoves == 0 {
        return;
      }
      var lastMove := PopStep();
      UnmakeMove(lastMove, updateMoves);
    }

    /** The newest record leaves the played part and becomes the first replayable one; the board does not change. */
    method PopStep() returns (lastMove: MadeMove)
      requires Valid() && madeMoves.nMadeMoves > 0
      modifies madeMoves
      ensures Valid() && Model() == old(Model()) && lastMove == old(madeMoves.GetLastMove())
      ensures madeMoves.Played() == old(madeMoves.Played())[..old(madeMoves.nMadeMoves) - 1]
      ensures madeMoves.Redo() == [lastMove] + old(madeMoves.Redo())
    {
      lastMove := madeMoves.GetLastMove();
      ghost var played, redo := madeMoves.Played(), madeMoves.Redo();
      madeMoves.PopLastMove();
      assert madeMoves.Played() + madeMoves.Redo() == played + redo;
      assert madeMoves.Redo() == [lastMove] + redo by {
        assert played == madeMoves.Played() + [lastMove];
      }
    }

    /**
     * `goForthMadeMoves`: with nothing to replay nothing happens; otherwise
     * the first replayable move is made again, with the moves regenerated:
     * the history grows by its record and the replayable part shrinks by
     * one.
     */
    method GoForthMadeMoves()
      requires Valid() && Sound(Model())
      requires madeMoves.nMadeMoves < madeMoves.maxMadeMoves ==>
        var m := madeMoves.GetNextMove().move;
        Ready(Model(), m) && Playable(Make(Model(), m, false))
      modifies Repr()
      ensures Valid()
      ensures old(madeMoves.nMadeMoves == madeMoves.maxMadeMoves) ==>
        Model() == old(Model()) && madeMoves.Played() == old(madeMoves.Played()) && madeMoves.Redo() == old(madeMoves.Redo())
      ensures old(madeMoves.nMadeMoves < madeMoves.maxMadeMoves) ==>
        var m := old(madeMoves.GetNextMove().move);
        Refreshed(Make(old(Model()), m, false))
        && madeMoves.Played() == old(madeMoves.Played()) + [Positions.GetMadeMove(old(Model()), m)]
        && madeMoves.Redo() == old(madeMoves.Redo())[1..]
    {
      if madeMoves.maxMadeMoves == madeMoves.nMadeMoves {
        return;
      }
      var move := madeMoves.GetNextMove().move;
      var _ := MakeMove(move, false, true, true);
    }
  }

  // ---------------------------------------------------------------------
  // The history record a simulated promotion rewrites

  /**
   * What `updatePromotion` as written does to the played history: it
   * always ors the choice into the newest record, also when the promotion
   * is only being tried by `filterPseudoLegalMoves` and that record belongs
   * to an earlier move. With no record at all the write lands before the
   * array (`madeMoves[-1]`); `None` stands for that.
   */
  function PromotionRecordAsWritten(played: seq<MadeMove>, promotion: int): (r: Option<seq<MadeMove>>)
    ensures r.None? <==> played == []
    ensures r.Some? ==> |r.value| == |played| && r.value[..|played| - 1] == played[..|played| - 1]
  {
    if played == [] then None
    else Some(PromoteLast(played, promotion))
  }

  /**
   * The discrepancy: white to move with a pawn on b7 after black's knight
   * went g8-f6 (a quiet move, square 6 to 21). Trying the queen promotion
   * b8=Q (choice 3) while filtering turns the recorded knight move into a
   * queen-side castle, which `unmakeLastMove` would then take back as one.
   */
  lemma SimulatedPromotionRewritesHistory()
    ensures var knight := MadeMove(NewMove(6, 21, QUIET_MOVE), MOVED, DefaultPiece(), -1, 3);
      var after := PromotionRecordAsWritten([knight], 3);
      !knight.move.IsCastle() && after.Some? && after.value[0].move.IsQueenCastle()
  {
    var knight := MadeMove(NewMove(6, 21, QUIET_MOVE), MOVED, DefaultPiece(), -1, 3);
    var m := OrPromotion(knight.move, 3);
    assert m.Flags() == 3;
  }
}
