/**
 * What the counters of the piece lists count. `checkGameEnded`
 * (src/index_model/board.h) decides INSUFFICIENT_MATERIAL on `nPieces`
 * and `nSpecPieces` alone; this module ties those counters to the
 * pieces on the board. A position is tallied when each per-type count
 * is the number of squares holding such a piece, each piece count is
 * the sum of its per-type counts, and each side has one king. Moves,
 * completed promotions and a sound load keep or establish the tally, so
 * on the positions of a game the material verdict speaks about the
 * pieces on the board.
 */
module Material {
  import opened Pieces
  import opened Moves
  import opened Mailboxes
  import opened PieceLists
  import opened Positions
  import opened Soundness
  import opened Endings
  import opened Loading

  /** 1 when `x` is a piece of colour `c` and type `t`, else 0. */
  function Ind(x: Piece, c: int, t: int): nat
  {
    if x.Type() == t && x.Color() == c then 1 else 0
  }

  /** The number of squares below `n` holding a piece of colour `c` and type `t`. */
  function CountBelow(board: seq<Piece>, c: int, t: int, n: int): (k: nat)
    requires 0 <= n <= |board|
    ensures k <= n
  {
    if n == 0 then 0 else CountBelow(board, c, t, n - 1) + Ind(board[n - 1], c, t)
  }

  /** The number of squares of the board holding a piece of colour `c` and type `t`. */
  function CountOn(board: seq<Piece>, c: int, t: int): nat
    requires |board| == 64
  {
    CountBelow(board, c, t, 64)
  }

  /** Boards that hold the same pieces of colour `c` and type `t` below `n` count them alike. */
  lemma {:induction false} CountAgree(a: seq<Piece>, b: seq<Piece>, c: int, t: int, n: int)
    requires 0 <= n <= |a| && n <= |b|
    requires forall i | 0 <= i < n :: Ind(a[i], c, t) == Ind(b[i], c, t)
    ensures CountBelow(a, c, t, n) == CountBelow(b, c, t, n)
  {
    if n > 0 {
      CountAgree(a, b, c, t, n - 1);
    }
  }

  /** Replacing one square changes the count by what left it and what arrived. */
  lemma {:induction false} CountSet(b: seq<Piece>, i: int, x: Piece, c: int, t: int, n: int)
    requires 0 <= i < |b| && 0 <= n <= |b|
    ensures CountBelow(b[i := x], c, t, n) + (if i < n then Ind(b[i], c, t) else 0)
         == CountBelow(b, c, t, n) + (if i < n then Ind(x, c, t) else 0)
  {
    if n > 0 {
      CountSet(b, i, x, c, t, n - 1);
    }
  }

  /** Empty squares between `lo` and `hi` add nothing to the count of a real piece type. */
  lemma {:induction false} CountEmptyRun(b: seq<Piece>, c: int, t: int, lo: int, hi: int)
    requires 0 <= lo <= hi <= |b| && t != EMPTY
    requires forall i | lo <= i < hi :: b[i].Type() == EMPTY
    ensures CountBelow(b, c, t, hi) == CountBelow(b, c, t, lo)
  {
    if lo < hi {
      CountEmptyRun(b, c, t, lo, hi - 1);
    }
  }

  /** Changing a square's flags changes no count. */
  lemma FlagsCount(b: seq<Piece>, i: int, f: int, c: int, t: int)
    requires |b| == 64 && 0 <= i < 64
    ensures CountOn(b[i := b[i].WithFlags(f)], c, t) == CountOn(b, c, t)
  {
    CountSet(b, i, b[i].WithFlags(f), c, t, 64);
  }

  /** Moving a piece onto an empty square changes no count of a real piece type. */
  lemma MovedCount(b: seq<Piece>, from: int, to: int, c: int, t: int)
    requires |b| == 64 && 0 <= from < 64 && 0 <= to < 64 && from != to
    requires b[to].Type() == EMPTY && t != EMPTY
    ensures CountOn(MovePieceOn(b, from, to), c, t) == CountOn(b, c, t)
  {
    var r := MovePieceOn(b, from, to);
    var mid := b[to := r[to]];
    assert r == mid[from := r[from]];
    CountSet(b, to, r[to], c, t, 64);
    CountSet(mid, from, r[from], c, t, 64);
  }

  /**
   * The counters tally the board: for each colour, every per-type count
   * is the number of such pieces on the board, the piece count is the sum
   * of the per-type counts, and there is exactly one king.
   */
  ghost predicate Tallied(p: Position)
    requires Shape(p)
  {
    forall c | 0 <= c < 2 ::
      p.lists.slots.count[c] == Total(p.lists.nSpecPieces[c])
      && (forall t | PAWN <= t <= KING :: p.lists.nSpecPieces[c][t - 1] == CountOn(p.board, c, t))
      && CountOn(p.board, c, KING) == 1
  }

  /**
   * After the mover arrived, the board has lost the captured piece and
   * nothing else: every count is the old one, less one for the captured
   * colour and type.
   */
  lemma MovedCounts(p: Position, m: Move)
    requires Sound(p) && Ready(p, m)
    ensures forall c, t | 0 <= c < 2 && PAWN <= t <= KING ::
      CountOn(Moved(p, m).board, c, t)
        + (if m.IsCapture() && c == 1 - p.side && t == p.board[CapturedSquare(m)].Type() then 1 else 0)
        == CountOn(p.board, c, t)
  {
    KindPredicates(m);
    var from, to, cap := m.From(), m.To(), CapturedSquare(m);
    var b1, b2, b3, b4, markFlags := MakeBoards(p, m);
    assert Agrees(p, cap);
    assert b3[to].Type() == b1[to].Type();
    assert b1[to].Type() == EMPTY;
    forall c, t | 0 <= c < 2 && PAWN <= t <= KING
      ensures CountOn(b4, c, t) + (if m.IsCapture() && c == 1 - p.side && t == p.board[cap].Type() then 1 else 0)
        == CountOn(p.board, c, t)
    {
      if m.IsCapture() {
        CountSet(p.board, cap, p.board[cap].WithType(EMPTY), c, t, 64);
      }
      if p.ep != -1 {
        FlagsCount(b1, p.ep, MOVED, c, t);
      }
      FlagsCount(b2, from, markFlags, c, t);
      MovedCount(b3, from, to, c, t);
    }
  }

  /** The position after the mover arrived is tallied when the one before was. */
  lemma MovedTallied(p: Position, m: Move)
    requires Sound(p) && Ready(p, m) && Tallied(p)
    ensures Tallied(Moved(p, m))
  {
    var q := Moved(p, m);
    MovedCounts(p, m);
    forall c | 0 <= c < 2
      ensures q.lists.slots.count[c] == Total(q.lists.nSpecPieces[c])
      ensures forall t | PAWN <= t <= KING :: q.lists.nSpecPieces[c][t - 1] == CountOn(q.board, c, t)
      ensures CountOn(q.board, c, KING) == 1
    {
      MovedColourTally(p, m, c);
    }
  }

  /**
   * The counters once the mover has arrived: only a capture changes them,
   * taking one off the captured colour's piece count and off the count of
   * the captured type, which is never the king.
   */
  lemma MovedCounters(p: Position, m: Move, c: int)
    requires Sound(p) && Ready(p, m) && 0 <= c < 2
    ensures var l, lost := Moved(p, m).lists, m.IsCapture() && c == 1 - p.side;
      var capType := p.board[CapturedSquare(m)].Type();
      (m.IsCapture() ==> PAWN <= capType < KING)
      && l.slots.count[c] == p.lists.slots.count[c] - (if lost then 1 else 0)
      && l.nSpecPieces[c] == if lost then p.lists.nSpecPieces[c][capType - 1 := p.lists.nSpecPieces[c][capType - 1] - 1] else p.lists.nSpecPieces[c]
  {
    var l1, l2 := MakeLists(p, m);
    assert m.IsCapture() ==> p.board[CapturedSquare(m)].Type() != KING;
  }

  /** One colour of `MovedTallied`. */
  lemma MovedColourTally(p: Position, m: Move, c: int)
    requires Sound(p) && Ready(p, m) && Tallied(p) && 0 <= c < 2
    requires forall c, t | 0 <= c < 2 && PAWN <= t <= KING ::
      CountOn(Moved(p, m).board, c, t)
        + (if m.IsCapture() && c == 1 - p.side && t == p.board[CapturedSquare(m)].Type() then 1 else 0)
        == CountOn(p.board, c, t)
    ensures var q := Moved(p, m);
      q.lists.slots.count[c] == Total(q.lists.nSpecPieces[c])
      && (forall t | PAWN <= t <= KING :: q.lists.nSpecPieces[c][t - 1] == CountOn(q.board, c, t))
      && CountOn(q.board, c, KING) == 1
  {
    MovedCounters(p, m, c);
    var q := Moved(p, m);
    assert p.lists.slots.count[c] == Total(p.lists.nSpecPieces[c]);
    assert forall t | PAWN <= t <= KING :: p.lists.nSpecPieces[c][t - 1] == CountOn(p.board, c, t);
    assert CountOn(p.board, c, KING) == 1;
    hide Moved, Sound, Ready, Tallied, CountBelow;
  }

  /**
   * Completing a waiting promotion keeps the tally: one pawn of the side
   * to move becomes a piece of the chosen type, on the board and in the
   * per-type counts alike.
   */
  lemma PromoteTallied(p: Position, promotion: int)
    requires Shape(p) && 0 <= promotion < 4
    ensures Tallied(p) && PromotionWaits(p) ==> Tallied(Promote(p, promotion))
  {
    if Tallied(p) && PromotionWaits(p) {
      var q := Promote(p, promotion);
      var sq, side, t1 := p.promoted, p.side, KNIGHT + promotion;
      var s0 := p.lists.nSpecPieces[side];
      assert q.lists.nSpecPieces[side] == Recount(s0, PAWN, t1);
      forall c, t | 0 <= c < 2 && PAWN <= t <= KING
        ensures CountOn(q.board, c, t) + Ind(p.board[sq], c, t) == CountOn(p.board, c, t) + Ind(p.board[sq].WithType(t1), c, t)
      {
        CountSet(p.board, sq, p.board[sq].WithType(t1), c, t, 64);
      }
      assert p.lists.slots.count[side] == Total(s0);
    }
  }

  /** A castle's rook move keeps the tally. */
  lemma CastleTallied(p: Position, m: Move)
    requires Sound(p) && Ready(p, m) && m.IsCastle() && Tallied(Moved(p, m))
    ensures Tallied(Make(p, m, false))
  {
    KindPredicates(m);
    CastleSquares(p, m);
    MadeBoard(p, m);
    MadeLists(p, m);
    var (rookFrom, rookTo) := GetRookMoveFromCastle(m);
    var b1, b2, b3, b4, markFlags := MakeBoards(p, m);
    assert b4[rookTo].Type() == EMPTY;
    forall c, t | 0 <= c < 2 && PAWN <= t <= KING
      ensures CountOn(Make(p, m, false).board, c, t) == CountOn(b4, c, t)
    {
      MovedCount(b4, rookFrom, rookTo, c, t);
    }
  }

  /**
   * A ready move keeps the tally, whether the promotion choice waits or
   * not: a capture takes one piece off the board and one count off its
   * type, a promotion moves one count from pawns to the chosen type, and
   * no king is ever taken.
   */
  lemma MakeTallied(p: Position, m: Move, waitForSelection: bool)
    requires Sound(p) && Ready(p, m) && Tallied(p)
    ensures Tallied(Make(p, m, waitForSelection))
  {
    KindPredicates(m);
    MovedTallied(p, m);
    if m.IsCastle() {
      CastleTallied(p, m);
      assert Make(p, m, waitForSelection) == Make(p, m, false);
    } else if m.IsPromotion() {
      var waiting := Make(p, m, true);
      assert waiting == Moved(p, m).(promoted := m.To());
      if !waitForSelection {
        MakeSound(p, m, true);
        PromoteTallied(waiting, PromotionChoice(m));
        assert Make(p, m, false) == Promote(waiting, PromotionChoice(m));
      }
    } else {
      assert Make(p, m, waitForSelection) == Moved(p, m).(side := 1 - p.side);
    }
  }

  /** Equivalent positions are tallied alike: they hold the same pieces and the same counters. */
  lemma TalliedEquiv(u: Position, p: Position)
    requires Shape(u) && Shape(p) && Equiv(u, p)
    ensures forall c, t | 0 <= c < 2 && PAWN <= t <= KING :: CountOn(u.board, c, t) == CountOn(p.board, c, t)
    ensures Tallied(u) <==> Tallied(p)
  {
    forall c, t | 0 <= c < 2 && PAWN <= t <= KING
      ensures CountOn(u.board, c, t) == CountOn(p.board, c, t)
    {
      CountAgree(u.board, p.board, c, t, 64);
    }
  }

  /**
   * The counters agree with the board below the cursor: each per-type
   * count is the number of such pieces below it, and each piece count is
   * the sum of its per-type counts.
   */
  ghost predicate CountedUpTo(board: seq<Piece>, l: Lists, cur: int)
    requires |board| == 64 && ListsShaped(l) && 0 <= cur <= 64
  {
    forall c | 0 <= c < 2 ::
      l.slots.count[c] == Total(l.nSpecPieces[c])
      && forall t | PAWN <= t <= KING :: l.nSpecPieces[c][t - 1] == CountBelow(board, c, t, cur)
  }

  /** A digit run keeps the counters in agreement with the board, `n` squares further. */
  lemma RunCounted(board: seq<Piece>, l: Lists, cur: int, n: int)
    requires |board| == 64 && ListsShaped(l) && 0 <= cur && 0 <= n && cur + n <= 64 && CountedUpTo(board, l, cur)
    ensures CountedUpTo(Emptied(board, cur, n), l, cur + n)
  {
    var e, hi := Emptied(board, cur, n), cur + n;
    forall c | 0 <= c < 2
      ensures l.slots.count[c] == Total(l.nSpecPieces[c])
      ensures forall t | PAWN <= t <= KING :: l.nSpecPieces[c][t - 1] == CountBelow(e, c, t, hi)
    {
      forall t | PAWN <= t <= KING
        ensures l.nSpecPieces[c][t - 1] == CountBelow(e, c, t, hi)
      {
        assert l.nSpecPieces[c][t - 1] == CountBelow(board, c, t, cur);
        CountAgree(e, board, c, t, cur);
        CountEmptyRun(e, c, t, cur, hi);
      }
    }
  }

  /** One piece letter keeps the counters in agreement with the board, one square further. */
  lemma LetterCounted(board: seq<Piece>, l: Lists, cur: int, piece: Piece)
    requires |board| == 64 && ListsShaped(l) && 0 <= cur < 64 && CountedUpTo(board, l, cur)
    requires PAWN <= piece.Type() <= KING && 0 <= l.slots.count[piece.Color()] < MAX_PIECES
    ensures CountedUpTo(board[cur := piece], ListsAdd(l, cur, piece.Color(), piece.Type()), cur + 1)
  {
    var b, l' := board[cur := piece], ListsAdd(l, cur, piece.Color(), piece.Type());
    forall c, t | 0 <= c < 2 && PAWN <= t <= KING
      ensures CountBelow(b, c, t, cur + 1) == CountBelow(board, c, t, cur) + Ind(piece, c, t)
    {
      CountAgree(b, board, c, t, cur);
    }
    forall c | 0 <= c < 2
      ensures l'.slots.count[c] == Total(l'.nSpecPieces[c])
    {
      assert l.slots.count[c] == Total(l.nSpecPieces[c]);
    }
  }

  /** Reading the placement field keeps the counters in agreement with the board up to the cursor. */
  lemma {:induction false} PlaceCounted(board: seq<Piece>, l: Lists, placement: string, i: nat, cur: int)
    requires |board| == 64 && ListsShaped(l) && Counted(l) && 0 <= cur <= 64 && CountedUpTo(board, l, cur)
    requires Place(board, l, placement, i, cur).Some?
    decreases |placement| - i
    ensures var f := Place(board, l, placement, i, cur).value; CountedUpTo(f.board, f.lists, f.cur)
  {
    hide CountedUpTo, Emptied;
    if i >= |placement| || cur >= 64 {
    } else if placement[i] == '/' {
      PlaceCounted(board, l, placement, i + 1, cur);
    } else if placement[i] < 'A' {
      var n := RunLength(placement[i]);
      RunCounted(board, l, cur, n);
      PlaceCounted(Emptied(board, cur, n), l, placement, i + 1, cur + n);
    } else {
      var piece := LetterPiece(placement[i]).value;
      LetterCounted(board, l, cur, piece);
      PlaceCounted(board[cur := piece], ListsAdd(l, cur, piece.Color(), piece.Type()), placement, i + 1, cur + 1);
    }
  }

  /** The whole placement field, read from reset lists, leaves the counters tallying the board below the final cursor. */
  lemma PlacementCounted(p: Position, placement: string)
    requires Shape(p) && Place(p.board, ListsReset(p.lists), placement, 0, 0).Some?
    ensures var f := Place(p.board, ListsReset(p.lists), placement, 0, 0).value;
      |f.board| == 64 && ListsShaped(f.lists) && 0 <= f.cur <= 64 && CountedUpTo(f.board, f.lists, f.cur)
  {
    ResetFilled(p.board, p.lists);
    PlaceCounted(p.board, ListsReset(p.lists), placement, 0, 0);
  }

  /**
   * A sound load leaves the lists the placement loop built, and each count
   * on the loaded board is the count below the loop's final cursor.
   */
  lemma LoadedCounts(p: Position, placement: string, side: string, castling: string, clock: int)
    requires Shape(p) && Loaded(p, placement, side, castling, clock).Some?
    requires Sound(Loaded(p, placement, side, castling, clock).value)
    ensures var q := Loaded(p, placement, side, castling, clock).value;
      var f := Place(p.board, ListsReset(p.lists), placement, 0, 0).value;
      q.lists == f.lists && 0 <= f.cur <= 64 && |f.board| == 64
      && forall c, t | 0 <= c < 2 && PAWN <= t <= KING :: CountOn(q.board, c, t) == CountBelow(f.board, c, t, f.cur)
  {
    var q := Loaded(p, placement, side, castling, clock).value;
    var f := Place(p.board, ListsReset(p.lists), placement, 0, 0).value;
    LoadedSound(p, placement, side, castling, clock);
    ResetFilled(p.board, p.lists);
    assert q.board == CastlingFlags(f.board, castling) && q.lists == f.lists;
    hide Loaded, Arranged, Place, Sound, CastlingFlags, CountBelow;
    forall c, t | 0 <= c < 2 && PAWN <= t <= KING
      ensures CountOn(q.board, c, t) == CountBelow(f.board, c, t, f.cur)
    {
      CountEmptyRun(f.board, c, t, f.cur, 64);
      CountAgree(q.board, f.board, c, t, 64);
    }
  }

  /**
   * A sound loaded position is tallied exactly when each side has one king
   * on the board: the loader counts every piece it places and nothing
   * else, and a sound load left no piece past the placement field.
   */
  lemma LoadedTallied(p: Position, placement: string, side: string, castling: string, clock: int)
    requires Shape(p) && Loaded(p, placement, side, castling, clock).Some?
    requires Sound(Loaded(p, placement, side, castling, clock).value)
    ensures var q := Loaded(p, placement, side, castling, clock).value;
      Tallied(q) <==> CountOn(q.board, BLACK, KING) == 1 && CountOn(q.board, WHITE, KING) == 1
  {
    var q := Loaded(p, placement, side, castling, clock).value;
    var f := Place(p.board, ListsReset(p.lists), placement, 0, 0).value;
    PlacementCounted(p, placement);
    LoadedCounts(p, placement, side, castling, clock);
    hide Loaded, Place, Sound, ListsReset, CountBelow;
    forall c | 0 <= c < 2
      ensures q.lists.slots.count[c] == Total(q.lists.nSpecPieces[c])
      ensures forall t | PAWN <= t <= KING :: q.lists.nSpecPieces[c][t - 1] == CountOn(q.board, c, t)
    {
    }
  }

  /** The number of each type of piece of colour `c` on the board, pawns first, as `nSpecPieces` orders them. */
  ghost function BoardSpec(board: seq<Piece>, c: int): (spec: seq<int>)
    requires |board| == 64
    ensures |spec| == 6 && forall t | PAWN <= t <= KING :: spec[t - 1] == CountOn(board, c, t)
  {
    seq(6, i requires 0 <= i < 6 => CountOn(board, c, i + 1))
  }

  /**
   * On a tallied position with a legal move, `checkGameEnded` reports
   * INSUFFICIENT_MATERIAL exactly when each side has, on the board, no
   * pawn, rook or queen and at most one bishop or knight, or two knights.
   */
  lemma TalliedEnding(p: Position, nMoves: int)
    requires Shape(p) && Tallied(p) && nMoves != 0
    ensures GameEnding(p, nMoves) == INSUFFICIENT_MATERIAL <==>
      OnlyMinorPieces(BoardSpec(p.board, WHITE)) && OnlyMinorPieces(BoardSpec(p.board, BLACK))
  {
    var count, spec := p.lists.slots.count, p.lists.nSpecPieces;
    assert spec[WHITE] == BoardSpec(p.board, WHITE);
    assert spec[BLACK] == BoardSpec(p.board, BLACK);
    CannotMateIff(count[WHITE], spec[WHITE]);
    CannotMateIff(count[BLACK], spec[BLACK]);
  }
}
