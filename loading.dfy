/**
 * Loading a position (`changeBoardState` and the `stringToBoard` table of
 * src/index_model/board.h) from the first fields of Forsyth-Edwards
 * Notation, section 16.1 of the PGN Standard: the piece placement, the
 * active colour, the castling availability and the half-move clock. The en
 * passant field is read and ignored.
 *
 * The placement field is read the way the source reads it: a '/' is
 * skipped, any character below 'A' counts as a digit and gives type EMPTY
 * to that many squares (keeping their colour and flag bits), any other
 * character is looked up as a piece letter and put on the next square and
 * into the piece lists. Reading stops at the end of the field or once 64
 * squares are filled; squares beyond that keep what they held.
 *
 * Where the source would write outside its arrays (a digit run past
 * square 63, a character that is not a piece letter, a seventeenth piece
 * of one colour) the load is `None`.
 */
module Loading {
  import opened Pieces
  import opened PieceLists
  import opened Positions
  import opened Options
  import opened Mailboxes

  /** `stringToBoard`: upper case is white, lower case black, no status flags. */
  function LetterPiece(ch: char): (r: Option<Piece>)
    ensures r.Some? <==> ch in "pPnNbBrRqQkK"
    ensures r.Some? ==> PAWN <= r.value.Type() <= KING && r.value.Flags() == 0
    ensures r.Some? ==> (r.value.Color() == WHITE <==> 'A' <= ch <= 'Z')
  {
    match ch
    case 'p' => Some(NewPiece(PAWN, BLACK, EMPTY))
    case 'P' => Some(NewPiece(PAWN, WHITE, EMPTY))
    case 'n' => Some(NewPiece(KNIGHT, BLACK, EMPTY))
    case 'N' => Some(NewPiece(KNIGHT, WHITE, EMPTY))
    case 'b' => Some(NewPiece(BISHOP, BLACK, EMPTY))
    case 'B' => Some(NewPiece(BISHOP, WHITE, EMPTY))
    case 'r' => Some(NewPiece(ROOK, BLACK, EMPTY))
    case 'R' => Some(NewPiece(ROOK, WHITE, EMPTY))
    case 'q' => Some(NewPiece(QUEEN, BLACK, EMPTY))
    case 'Q' => Some(NewPiece(QUEEN, WHITE, EMPTY))
    case 'k' => Some(NewPiece(KING, BLACK, EMPTY))
    case 'K' => Some(NewPiece(KING, WHITE, EMPTY))
    case _ => None
  }

  /** The number of squares a character below 'A' empties: its distance from '0', none when negative. */
  function RunLength(ch: char): (n: int)
    ensures n >= 0 && (n > 0 <==> ch > '0')
  {
    if ch as int - '0' as int > 0 then ch as int - '0' as int else 0
  }

  /** The `n` squares from `cur` get type EMPTY; their colour and flag bits stay. */
  function Emptied(board: seq<Piece>, cur: int, n: int): (r: seq<Piece>)
    requires |board| == 64
    ensures |r| == 64
  {
    seq(64, q requires 0 <= q < 64 => if cur <= q < cur + n then board[q].WithType(EMPTY) else board[q])
  }

  /** The squares, the lists and the cursor where reading the placement field stopped. */
  datatype Filling = Filling(board: seq<Piece>, lists: Lists, cur: int)

  /** The piece counts stay within the list capacity. */
  ghost predicate Counted(l: Lists)
    requires ListsShaped(l)
  {
    forall c | 0 <= c < 2 :: 0 <= l.slots.count[c] <= MAX_PIECES
  }

  /**
   * The placement and castling fields of `changeBoardState` read into the
   * board's mailbox and piece lists.
   */
  method LoadBoard(mailbox: Mailbox, pieceList: PieceList, placement: string, castling: string)
    requires mailbox.Valid() && pieceList.Valid()
    requires Place(mailbox.Board(), ListsReset(pieceList.Model()), placement, 0, 0).Some?
    modifies mailbox.chessBoard, pieceList.board, pieceList.pieces, pieceList.nPieces, pieceList.nSpecPieces, pieceList.kingSquare
    ensures var f := Place(old(mailbox.Board()), ListsReset(old(pieceList.Model())), placement, 0, 0).value;
      mailbox.Board() == CastlingFlags(f.board, castling) && pieceList.Model() == f.lists
  {
    PlacePieces(mailbox, pieceList, placement);
    SetCastlingFlags(mailbox, castling);
  }

  /**
   * The first loop of `changeBoardState`, from character `i` with the
   * cursor on square `cur`. Squares from the final cursor on are left as
   * they were, and at most the 64 squares of the board are filled.
   */
  function Place(board: seq<Piece>, lists: Lists, placement: string, i: nat, cur: int): (r: Option<Filling>)
    requires |board| == 64 && ListsShaped(lists) && Counted(lists) && 0 <= cur <= 64
    decreases |placement| - i
    ensures r.Some? ==> |r.value.board| == 64 && ListsShaped(r.value.lists) && Counted(r.value.lists)
    ensures r.Some? ==> cur <= r.value.cur <= 64 && forall q | r.value.cur <= q < 64 :: r.value.board[q] == board[q]
  {
    if i >= |placement| || cur >= 64 then Some(Filling(board, lists, cur))
    else if placement[i] == '/' then Place(board, lists, placement, i + 1, cur)
    else if placement[i] < 'A' then
      var n := RunLength(placement[i]);
      if cur + n > 64 then None
      else Place(Emptied(board, cur, n), lists, placement, i + 1, cur + n)
    else
      match LetterPiece(placement[i])
      case None => None
      case Some(piece) =>
        if lists.slots.count[piece.Color()] >= MAX_PIECES then None
        else Place(board[cur := piece], ListsAdd(lists, cur, piece.Color(), piece.Type()), placement, i + 1, cur + 1)
  }

  /**
   * The castling field: each absent letter marks the corner square it
   * names as MOVED, overwriting both status bits. Types and colours stay.
   */
  function CastlingFlags(board: seq<Piece>, castling: string): (r: seq<Piece>)
    requires |board| == 64
    ensures |r| == 64
    ensures forall q | 0 <= q < 64 :: r[q].Type() == board[q].Type() && r[q].Color() == board[q].Color()
    ensures r[63].Flags() == (if 'K' in castling then board[63].Flags() else MOVED)
    ensures r[7].Flags() == (if 'k' in castling then board[7].Flags() else MOVED)
    ensures r[56].Flags() == (if 'Q' in castling then board[56].Flags() else MOVED)
    ensures r[0].Flags() == (if 'q' in castling then board[0].Flags() else MOVED)
    ensures forall q | 0 <= q < 64 && q != 63 && q != 7 && q != 56 && q != 0 :: r[q] == board[q]
  {
    var b1 := if 'K' !in castling then board[63 := board[63].WithFlags(MOVED)] else board;
    var b2 := if 'k' !in castling then b1[7 := b1[7].WithFlags(MOVED)] else b1;
    var b3 := if 'Q' !in castling then b2[56 := b2[56].WithFlags(MOVED)] else b2;
    if 'q' !in castling then b3[0 := b3[0].WithFlags(MOVED)] else b3
  }

  /** The active colour: white exactly when the field is "w". */
  function ActiveColor(side: string): (c: int)
    ensures c == WHITE <==> side == "w"
    ensures c == BLACK || c == WHITE
  {
    if side == "w" then WHITE else BLACK
  }

  /**
   * The placement and castling fields read over `p`: the squares the
   * placement field reaches, the lists emptied and refilled from it, and
   * the castling flags. The other members of `p` stay.
   */
  function Arranged(p: Position, placement: string, castling: string): (r: Option<Position>)
    requires Shape(p)
    ensures r.Some? <==> Place(p.board, ListsReset(p.lists), placement, 0, 0).Some?
    ensures r.Some? ==> Shape(r.value) && r.value.side == p.side && r.value.clock == p.clock
    ensures r.Some? ==> r.value.ep == p.ep && r.value.promoted == p.promoted
  {
    match Place(p.board, ListsReset(p.lists), placement, 0, 0)
    case None => None
    case Some(f) => Some(p.(board := CastlingFlags(f.board, castling), lists := f.lists))
  }

  /**
   * The position `changeBoardState` loads over `p`: the placement and
   * castling fields arranged on the board, the side, the clock, and
   * neither an en passant square nor a waiting promotion.
   */
  function Loaded(p: Position, placement: string, side: string, castling: string, clock: int): (r: Option<Position>)
    requires Shape(p)
    ensures r.Some? <==> Place(p.board, ListsReset(p.lists), placement, 0, 0).Some?
    ensures r.Some? ==> Shape(r.value) && r.value.side == ActiveColor(side) && r.value.clock == clock
    ensures r.Some? ==> r.value.ep == -1 && r.value.promoted == -1
  {
    match Arranged(p, placement, castling)
    case None => None
    case Some(q) => Some(q.(side := ActiveColor(side), clock := clock, ep := -1, promoted := -1))
  }

  // ---------------------------------------------------------------------
  // What a load lists

  /**
   * Below the cursor the lists agree with the board: a piece is listed for
   * its colour, an empty square for none. From the cursor on nothing is
   * listed. Each king cache is unset or names a king of its colour below
   * the cursor.
   */
  ghost predicate FilledUpTo(board: seq<Piece>, l: Lists, cur: int)
    requires |board| == 64 && ListsShaped(l) && cur <= 64
  {
    Consistent(l.slots)
    && (forall sq | 0 <= sq < 64 ::
          if sq < cur && board[sq].Type() != EMPTY then board[sq].Type() <= KING && InList(l.slots, board[sq].Color(), sq)
          else Unlisted(l.slots, sq))
    && (forall c | 0 <= c < 2 ::
          l.kingSquare[c] == -1
          || (0 <= l.kingSquare[c] < cur && board[l.kingSquare[c]].Type() == KING && board[l.kingSquare[c]].Color() == c))
  }

  /** Emptied lists agree with any board up to square 0. */
  lemma ResetFilled(board: seq<Piece>, l: Lists)
    requires |board| == 64 && ListsShaped(l)
    ensures FilledUpTo(board, ListsReset(l), 0) && Counted(ListsReset(l))
  {
    var r := ListsReset(l);
    forall sq | 0 <= sq < 64
      ensures Unlisted(r.slots, sq)
    {
      assert !InList(r.slots, BLACK, sq) && !InList(r.slots, WHITE, sq);
    }
  }

  /** One piece letter keeps the lists in agreement with the board, one square further. */
  lemma LetterFilled(board: seq<Piece>, l: Lists, cur: int, piece: Piece)
    requires |board| == 64 && ListsShaped(l) && 0 <= cur < 64 && FilledUpTo(board, l, cur)
    requires PAWN <= piece.Type() <= KING && l.slots.count[piece.Color()] < MAX_PIECES
    ensures FilledUpTo(board[cur := piece], ListsAdd(l, cur, piece.Color(), piece.Type()), cur + 1)
  {
    var c := piece.Color();
    assert Unlisted(l.slots, cur);
    AddKeepsConsistent(l.slots, cur, c);
  }

  /** A digit run keeps the lists in agreement with the board, `n` squares further. */
  lemma RunFilled(board: seq<Piece>, l: Lists, cur: int, n: int)
    requires |board| == 64 && ListsShaped(l) && 0 <= cur && 0 <= n && cur + n <= 64 && FilledUpTo(board, l, cur)
    ensures FilledUpTo(Emptied(board, cur, n), l, cur + n)
  {
  }

  /** Reading the placement field keeps the lists in agreement with the board up to the cursor. */
  lemma {:induction false} PlaceFilled(board: seq<Piece>, l: Lists, placement: string, i: nat, cur: int)
    requires |board| == 64 && ListsShaped(l) && Counted(l) && 0 <= cur <= 64 && FilledUpTo(board, l, cur)
    requires Place(board, l, placement, i, cur).Some?
    decreases |placement| - i
    ensures var f := Place(board, l, placement, i, cur).value; FilledUpTo(f.board, f.lists, f.cur)
  {
    hide FilledUpTo, Emptied;
    if i >= |placement| || cur >= 64 {
    } else if placement[i] == '/' {
      PlaceFilled(board, l, placement, i + 1, cur);
    } else if placement[i] < 'A' {
      var n := RunLength(placement[i]);
      RunFilled(board, l, cur, n);
      PlaceFilled(Emptied(board, cur, n), l, placement, i + 1, cur + n);
    } else {
      var piece := LetterPiece(placement[i]).value;
      LetterFilled(board, l, cur, piece);
      PlaceFilled(board[cur := piece], ListsAdd(l, cur, piece.Color(), piece.Type()), placement, i + 1, cur + 1);
    }
  }

  /**
   * A loaded position is sound exactly when every square the placement
   * field did not reach was already empty: the lists then hold precisely
   * the pieces on the board, and each king cache names its king.
   */
  lemma LoadedSound(p: Position, placement: string, side: string, castling: string, clock: int)
    requires Shape(p) && Loaded(p, placement, side, castling, clock).Some?
    ensures var f := Place(p.board, ListsReset(p.lists), placement, 0, 0).value;
      Sound(Loaded(p, placement, side, castling, clock).value) <==> forall sq | f.cur <= sq < 64 :: p.board[sq].Type() == EMPTY
  {
    var f := Place(p.board, ListsReset(p.lists), placement, 0, 0).value;
    var q := Loaded(p, placement, side, castling, clock).value;
    ResetFilled(p.board, p.lists);
    PlaceFilled(p.board, ListsReset(p.lists), placement, 0, 0);
    if forall sq | f.cur <= sq < 64 :: p.board[sq].Type() == EMPTY {
      forall sq | 0 <= sq < 64
        ensures Agrees(q, sq)
      {
      }
      assert KingKnown(q, BLACK) && KingKnown(q, WHITE);
    } else {
      var sq :| f.cur <= sq < 64 && p.board[sq].Type() != EMPTY;
      assert !Agrees(q, sq);
    }
  }

  // ---------------------------------------------------------------------
  // The board's mailbox and piece lists, loaded in place

  /**
   * The first loop of `changeBoardState`: the piece lists are emptied and
   * the placement field is read into the board and the lists, one
   * character at a time, until it ends or the 64 squares are filled.
   */
  method PlacePieces(mailbox: Mailbox, pieceList: PieceList, placement: string)
    requires mailbox.Valid() && pieceList.Valid()
    requires Place(mailbox.Board(), ListsReset(pieceList.Model()), placement, 0, 0).Some?
    modifies mailbox.chessBoard, pieceList.board, pieceList.pieces, pieceList.nPieces, pieceList.nSpecPieces, pieceList.kingSquare
    ensures var f := Place(old(mailbox.Board()), ListsReset(old(pieceList.Model())), placement, 0, 0).value;
      mailbox.Board() == f.board && pieceList.Model() == f.lists
  {
    ghost var target := Place(mailbox.Board(), ListsReset(pieceList.Model()), placement, 0, 0);
    pieceList.ResetPieceLists();
    var cur := 0;
    var i := 0;
    while i < |placement| && cur < 64
      invariant 0 <= i <= |placement| && 0 <= cur <= 64 && Counted(pieceList.Model())
      invariant Place(mailbox.Board(), pieceList.Model(), placement, i, cur) == target
    {
      cur := PlaceStep(mailbox, pieceList, placement, i, cur);
      i := i + 1;
    }
  }

  /**
   * One character of the placement field: a '/' is skipped, a character
   * below 'A' empties a run of squares, and a piece letter puts its piece
   * on the square under the cursor and into the lists.
   */
  method PlaceStep(mailbox: Mailbox, pieceList: PieceList, placement: string, i: int, cur: int) returns (cur': int)
    requires mailbox.Valid() && pieceList.Valid() && 0 <= i < |placement| && 0 <= cur < 64 && Counted(pieceList.Model())
    requires Place(mailbox.Board(), pieceList.Model(), placement, i, cur).Some?
    modifies mailbox.chessBoard, pieceList.board, pieceList.pieces, pieceList.nPieces, pieceList.nSpecPieces, pieceList.kingSquare
    ensures 0 <= cur' <= 64 && Counted(pieceList.Model())
    ensures Place(mailbox.Board(), pieceList.Model(), placement, i + 1, cur')
      == Place(old(mailbox.Board()), old(pieceList.Model()), placement, i, cur)
  {
    cur' := cur;
    if placement[i] == '/' {
    } else if placement[i] < 'A' {
      cur' := EmptySquares(mailbox, placement[i], cur);
    } else {
      var piece := LetterPiece(placement[i]).value;
      mailbox.Put(cur, piece);
      pieceList.AddPiece(cur, piece.Color(), mailbox.Get(cur).Type());
      cur' := cur + 1;
    }
  }

  /** The inner loop of a digit: the next squares from `cur` get type EMPTY, as many as the digit says. */
  method EmptySquares(mailbox: Mailbox, digit: char, cur: int) returns (cur': int)
    requires mailbox.Valid() && 0 <= cur && cur + RunLength(digit) <= 64
    modifies mailbox.chessBoard
    ensures cur' == cur + RunLength(digit)
    ensures mailbox.Board() == Emptied(old(mailbox.Board()), cur, RunLength(digit))
  {
    ghost var b := mailbox.Board();
    cur' := cur;
    var j := 0;
    while j < (digit as int - '0' as int)
      invariant 0 <= j <= RunLength(digit) && cur' == cur + j
      invariant mailbox.Board() == Emptied(b, cur, j)
    {
      mailbox.SetType(cur', EMPTY);
      cur' := cur' + 1;
      j := j + 1;
    }
  }

  /** The castling field: each absent letter marks the corner square it names as MOVED. */
  method SetCastlingFlags(mailbox: Mailbox, castling: string)
    requires mailbox.Valid()
    modifies mailbox.chessBoard
    ensures mailbox.Board() == CastlingFlags(old(mailbox.Board()), castling)
  {
    if 'K' !in castling {
      mailbox.SetFlags(63, MOVED);
    }
    if 'k' !in castling {
      mailbox.SetFlags(7, MOVED);
    }
    if 'Q' !in castling {
      mailbox.SetFlags(56, MOVED);
    }
    if 'q' !in castling {
      mailbox.SetFlags(0, MOVED);
    }
  }
}
