/**
 * The earlier draft of the piece lists (IndexModel/pieceList.h): one dense
 * list per colour and a shared reverse index, without type counts or king
 * cache. Its `movePiece` takes a whole move and handles captures and
 * castles itself, by recursion: a capture first drops the captured square
 * from the opponent's list and then replays the move as a quiet one; a
 * castle first moves the rook as a quiet move and then the king.
 *
 * The lists are the `Slots` of module PieceLists (BLACK is 0, WHITE is 1);
 * `DraftMoved` is the whole `movePiece` on that value, `None` where the
 * source would index outside its arrays.
 */
module DraftPieceLists {
  import opened Pieces
  import opened Moves
  import opened Options
  import opened Mailboxes
  import opened PieceLists

  /** The list a `bool` colour selects for the mover. */
  function Own(color: bool): int
  {
    if color then WHITE else BLACK
  }

  /** The list a `bool` colour selects for the opponent. */
  function Opponent(color: bool): int
  {
    if color then BLACK else WHITE
  }

  /** The quiet rook move a castle implies, built with the three-argument move constructor. */
  function RookMove(move: Move): (r: Move)
    ensures r.Flags() == QUIET_MOVE && !r.IsCapture() && !r.IsCastle()
    ensures move.From() % 8 == 4 && move.To() == move.From() + (if move.IsQueenCastle() then -2 else 2) ==>
      r.From() == move.From() - 4 + (if move.IsQueenCastle() then 0 else 7) && r.To() == (move.From() + move.To()) / 2
  {
    var rook := GetRookMoveFromCastle(move);
    NewMove(rook.0, rook.1, QUIET_MOVE)
  }

  /** The draft's `movePiece` on the lists; `None` where an index would leave its array. */
  ghost function DraftMoved(s: Slots, move: Move, color: bool): (r: Option<Slots>)
    requires Shaped(s)
    ensures r.Some? ==> Shaped(r.value)
    decreases if move.IsCapture() || move.IsCastle() then 1 else 0
  {
    if move.IsCapture() then
      var captured, opp := CapturedSquare(move), Opponent(color);
      if CanRemove(s, captured, opp) then DraftMoved(SlotsRemove(s, captured, opp), move.WithFlags(QUIET_MOVE), color)
      else None
    else
      var before := if move.IsCastle() then DraftMoved(s, RookMove(move), color) else Some(s);
      if before.Some? && 0 <= before.value.board[move.From()] < MAX_PIECES then
        Some(SlotsMove(before.value, move.From(), move.To(), Own(color)))
      else
        None
  }

  /**
   * What a move must look like on the lists for the draft to keep them
   * consistent: the mover is listed for its colour, a capture's target for
   * the opponent, a castle's rook for the mover, and every destination is
   * free once the earlier steps are done.
   */
  ghost predicate Sound(s: Slots, move: Move, color: bool)
    requires Shaped(s)
  {
    var own, from, to := Own(color), move.From(), move.To();
    InList(s, own, from)
    && (if move.IsCapture() then
          var captured := CapturedSquare(move);
          InList(s, Opponent(color), captured) && (to == captured || Unlisted(s, to))
        else if move.IsCastle() then
          var rook := RookMove(move);
          InList(s, own, rook.From()) && Unlisted(s, rook.To())
          && rook.From() != from && Unlisted(s, to) && to != rook.To()
        else
          Unlisted(s, to))
  }

  /**
   * On a consistent list and a sound move the draft never leaves its
   * arrays, keeps the lists consistent, and lists afterwards exactly what
   * the move promises: the mover's squares with origins replaced by
   * destinations, and the opponent's squares without the captured one.
   * One lemma per kind of move: quiet, capture, castle.
   */
  lemma QuietKeepsConsistent(s: Slots, move: Move, color: bool)
    requires Consistent(s) && Sound(s, move, color) && !move.IsCapture() && !move.IsCastle()
    ensures DraftMoved(s, move, color).Some?
    ensures Consistent(DraftMoved(s, move, color).value)
    ensures forall d, q | 0 <= d < 2 ::
      InList(DraftMoved(s, move, color).value, d, q) <==> (InList(s, d, q) && q != move.From()) || (d == Own(color) && q == move.To())
  {
    MoveKeepsConsistent(s, move.From(), move.To(), Own(color));
  }

  lemma CaptureKeepsConsistent(s: Slots, move: Move, color: bool)
    requires Consistent(s) && Sound(s, move, color) && move.IsCapture()
    ensures DraftMoved(s, move, color).Some?
    ensures Consistent(DraftMoved(s, move, color).value)
    ensures forall d, q | 0 <= d < 2 ::
      InList(DraftMoved(s, move, color).value, d, q) <==>
        (InList(s, d, q) && q != move.From() && !(d == Opponent(color) && q == CapturedSquare(move))) || (d == Own(color) && q == move.To())
  {
    hide SlotsRemove, SlotsMove, CanRemove;
    var own, opp, from, to := Own(color), Opponent(color), move.From(), move.To();
    var captured := CapturedSquare(move);
    RemoveKeepsConsistent(s, captured, opp);
    var s1 := SlotsRemove(s, captured, opp);
    assert InList(s1, own, from);
    assert Unlisted(s1, to);
    MoveKeepsConsistent(s1, from, to, own);
    assert DraftMoved(s, move, color) == DraftMoved(s1, move.WithFlags(QUIET_MOVE), color) == Some(SlotsMove(s1, from, to, own));
  }

  lemma CastleKeepsConsistent(s: Slots, move: Move, color: bool)
    requires Consistent(s) && Sound(s, move, color) && move.IsCastle()
    ensures DraftMoved(s, move, color).Some?
    ensures Consistent(DraftMoved(s, move, color).value)
    ensures forall d, q | 0 <= d < 2 ::
      InList(DraftMoved(s, move, color).value, d, q) <==>
        (InList(s, d, q) && q != move.From() && q != RookMove(move).From()) || (d == Own(color) && (q == move.To() || q == RookMove(move).To()))
  {
    var own, from, to := Own(color), move.From(), move.To();
    var rook := RookMove(move);
    MoveKeepsConsistent(s, rook.From(), rook.To(), own);
    var s1 := SlotsMove(s, rook.From(), rook.To(), own);
    assert DraftMoved(s, rook, color) == Some(s1);
    assert InList(s1, own, from);
    assert Unlisted(s1, to);
    MoveKeepsConsistent(s1, from, to, own);
  }

  /** The draft's piece-list object. */
  class DraftPieceList {
    const board: array<int>
    var nWhitePieces: int
    var nBlackPieces: int
    const whitePieces: array<int>
    const blackPieces: array<int>

    ghost predicate Valid()
      reads this
    {
      board.Length == 64 && whitePieces.Length == MAX_PIECES && blackPieces.Length == MAX_PIECES
      && board != whitePieces && board != blackPieces && whitePieces != blackPieces
    }

    /** The lists as a value, indexed by colour. */
    ghost function Model(): (s: Slots)
      reads this, board, whitePieces, blackPieces
      requires Valid()
      ensures Shaped(s)
    {
      Slots(board[..], [blackPieces[..], whitePieces[..]], [nBlackPieces, nWhitePieces])
    }

    constructor()
      ensures Valid() && fresh(board) && fresh(whitePieces) && fresh(blackPieces)
      ensures Model().count == [0, 0]
    {
      board := new int[64](_ => -1);
      whitePieces := new int[MAX_PIECES](_ => -1);
      blackPieces := new int[MAX_PIECES](_ => -1);
      nWhitePieces := 0;
      nBlackPieces := 0;
    }

    /** `resetPieceLists`: both counts zero and every reverse entry -1; the list arrays keep their stale contents. */
    method ResetPieceLists()
      requires Valid()
      modifies this, board
      ensures Valid()
      ensures Model() == Slots(seq(64, _ => -1), old(Model()).pieces, [0, 0])
    {
      nWhitePieces := 0;
      nBlackPieces := 0;
      for i := 0 to 64
        invariant forall j | 0 <= j < i :: board[j] == -1
        invariant nWhitePieces == 0 && nBlackPieces == 0
      {
        board[i] := -1;
      }
      assert board[..] == seq(64, _ => -1);
      assert whitePieces[..] == old(whitePieces[..]) && blackPieces[..] == old(blackPieces[..]);
    }

    /** `addPiece`: WHITE appends to the white list, any other colour to the black list. */
    method AddPiece(square: int, color: int)
      requires Valid() && 0 <= square < 64
      requires 0 <= Model().count[if color == WHITE then WHITE else BLACK] < MAX_PIECES
      modifies this, board, whitePieces, blackPieces
      ensures Valid()
      ensures Model() == SlotsAdd(old(Model()), square, if color == WHITE then WHITE else BLACK)
    {
      ghost var o := old(Model());
      if color == WHITE {
        board[square] := nWhitePieces;
        whitePieces[nWhitePieces] := square;
        nWhitePieces := nWhitePieces + 1;
        assert Model().pieces == o.pieces[WHITE := o.pieces[WHITE][o.count[WHITE] := square]];
      } else {
        board[square] := nBlackPieces;
        blackPieces[nBlackPieces] := square;
        nBlackPieces := nBlackPieces + 1;
        assert Model().pieces == o.pieces[BLACK := o.pieces[BLACK][o.count[BLACK] := square]];
      }
    }

    /** The capture step of `movePiece`: the opponent's list loses `capturedSquare`. */
    method DropCaptured(capturedSquare: int, color: bool)
      requires Valid() && 0 <= capturedSquare < 64 && CanRemove(Model(), capturedSquare, Opponent(color))
      modifies this, board, whitePieces, blackPieces
      ensures Valid()
      ensures Model() == SlotsRemove(old(Model()), capturedSquare, Opponent(color))
    {
      ghost var o := Model();
      var oppPieceList := if color then blackPieces else whitePieces;
      var nOppPieces;
      if color {
        nBlackPieces := nBlackPieces - 1;
        nOppPieces := nBlackPieces;
      } else {
        nWhitePieces := nWhitePieces - 1;
        nOppPieces := nWhitePieces;
      }
      if nOppPieces > 0 {
        var index := board[capturedSquare];
        oppPieceList[index] := oppPieceList[nOppPieces];
        board[oppPieceList[index]] := index;
      }
      board[capturedSquare] := -1;
      ghost var want := SlotsRemove(o, capturedSquare, Opponent(color));
      assert o.pieces == [o.pieces[0], o.pieces[1]];
      assert Model().pieces == want.pieces;
    }

    /** The normal step of `movePiece`: the mover's slot for `fromSquare` now holds `toSquare`. */
    method RenameSlot(fromSquare: int, toSquare: int, color: bool)
      requires Valid() && 0 <= fromSquare < 64 && 0 <= toSquare < 64 && 0 <= Model().board[fromSquare] < MAX_PIECES
      modifies board, whitePieces, blackPieces
      ensures Model() == SlotsMove(old(Model()), fromSquare, toSquare, Own(color))
    {
      ghost var o := Model();
      var pieceList := if color then whitePieces else blackPieces;
      var index := board[fromSquare];
      board[fromSquare] := -1;
      board[toSquare] := index;
      pieceList[index] := toSquare;
      ghost var want := SlotsMove(o, fromSquare, toSquare, Own(color));
      assert o.pieces == [o.pieces[0], o.pieces[1]];
      assert Model().pieces == want.pieces;
    }

    /**
     * `movePiece`: a capture removes the captured square from the
     * opponent's list and recurses on the quiet move; a castle first
     * recurses on the rook's quiet move; then the mover's slot is renamed.
     */
    method MovePiece(move: Move, color: bool)
      requires Valid() && DraftMoved(Model(), move, color).Some?
      modifies this, board, whitePieces, blackPieces
      ensures Valid()
      ensures Model() == DraftMoved(old(Model()), move, color).value
      decreases if move.IsCapture() || move.IsCastle() then 1 else 0
    {
      if move.IsCapture() {
        var capturedSquare := if move.IsEpCapture() then GetCapturedEpSquare(move) else move.To();
        DropCaptured(capturedSquare, color);
        MovePiece(move.WithFlags(QUIET_MOVE), color);
      } else {
        if move.IsCastle() {
          var rook := GetRookMoveFromCastle(move);
          MovePiece(NewMove(rook.0, rook.1, QUIET_MOVE), color);
        }
        RenameSlot(move.From(), move.To(), color);
      }
    }
  }
}
