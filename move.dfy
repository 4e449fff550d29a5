/**
 * Moves of the index model (src/index_model/move.h): a move packed into
 * sixteen bits (destination in bits 0-5, origin in bits 6-11, kind in bits
 * 12-15), the fixed-capacity list of generated moves, the record kept for
 * every played move and the game history with its redo horizon.
 */
module Moves {
  import opened Pieces

  // Move kinds (bits 12-15). Bit 2 marks a capture, bit 3 a promotion.
  const QUIET_MOVE := 0
  const DOUBLE_PAWN_PUSH := 1
  const KING_CASTLE := 2
  const QUEEN_CASTLE := 3
  const CAPTURE := 4
  const EP_CAPTURE := 5
  const KNIGHT_PROMOTION := 8
  const BISHOP_PROMOTION := 9
  const ROOK_PROMOTION := 10
  const QUEEN_PROMOTION := 11
  const KNIGHT_PROMOTION_CAPTURE := 12
  const BISHOP_PROMOTION_CAPTURE := 13
  const ROOK_PROMOTION_CAPTURE := 14
  const QUEEN_PROMOTION_CAPTURE := 15

  const MAX_AVAILABLE_MOVES := 300
  const MAX_GAME_MOVES := 1000

  type Bits6 = x: int | 0 <= x < 64
  type Bits4 = x: int | 0 <= x < 16

  /**
   * A move: origin, destination and kind, each within its bit width. The
   * sixteen-bit word the source stores is `Packed`, read back by
   * `Unpacked`; the lemmas below show that the field updates are exactly
   * the source's mask-and-or operations on that word.
   */
  datatype Move = Move(fromSq: Bits6, toSq: Bits6, kind: Bits4)
  {
    /** `getTo`. */
    function To(): Bits6
    {
      toSq
    }

    /** `getFrom`. */
    function From(): Bits6
    {
      fromSq
    }

    /** `getFlags`. */
    function Flags(): Bits4
    {
      kind
    }

    /** `setTo`: the destination becomes the low six bits of `to`. */
    function WithTo(to: int): (m: Move)
      ensures m.To() == to % 64 && m.From() == From() && m.Flags() == Flags()
    {
      this.(toSq := to % 64)
    }

    /** `setFrom`: the origin becomes the low six bits of `from`. */
    function WithFrom(from: int): (m: Move)
      ensures m.From() == from % 64 && m.To() == To() && m.Flags() == Flags()
    {
      this.(fromSq := from % 64)
    }

    /** `setFlags`: the kind becomes the low four bits of `k`. */
    function WithFlags(k: int): (m: Move)
      ensures m.Flags() == k % 16 && m.From() == From() && m.To() == To()
    {
      this.(kind := k % 16)
    }

    /** `getFlags() & CAPTURE`. */
    predicate IsCapture()
    {
      kind / 4 % 2 == 1
    }

    /** `getFlags() & (1 << 3)`. */
    predicate IsPromotion()
    {
      kind / 8 == 1
    }

    predicate IsEpCapture()
    {
      kind == EP_CAPTURE
    }

    /** `(getFlags() | 1) == QUEEN_CASTLE`. */
    predicate IsCastle()
    {
      kind / 2 * 2 + 1 == QUEEN_CASTLE
    }

    predicate IsDoublePawnPush()
    {
      kind == DOUBLE_PAWN_PUSH
    }

    predicate IsQueenCastle()
    {
      kind == QUEEN_CASTLE
    }

    predicate IsKingCastle()
    {
      kind == KING_CASTLE
    }

    /** The sixteen-bit word the source stores. */
    function Packed(): bv16
    {
      ((kind as bv16) << 12) | ((fromSq as bv16) << 6) | (toSq as bv16)
    }

    /** `operator==`: the low sixteen bits of the two words agree. */
    predicate Equals(other: Move)
    {
      Packed() & 0xffff == other.Packed() & 0xffff
    }
  }

  /** Reads a word: destination from bits 0-5, origin from bits 6-11, kind from bits 12-15. */
  function Unpacked(b: bv16): Move
  {
    Move(((b >> 6) & 0x3f) as int, (b & 0x3f) as int, ((b >> 12) & 0x0f) as int)
  }

  /** The three-argument constructor: each field masked to its width. */
  function NewMove(from: int, to: int, flags: int): (m: Move)
    ensures m.From() == from % 64 && m.To() == to % 64 && m.Flags() == flags % 16
    ensures 0 <= from < 64 && 0 <= to < 64 && 0 <= flags < 16 ==> m.From() == from && m.To() == to && m.Flags() == flags
  {
    Move(from % 64, to % 64, flags % 16)
  }

  /** A move built from an on-board origin and a valid kind keeps both, whatever its target. */
  lemma NewMoveKeeps(from: int, to: int, flags: int)
    requires 0 <= from < 64 && 0 <= flags < 16
    ensures NewMove(from, to, flags).From() == from && NewMove(from, to, flags).Flags() == flags
  {
  }

  /** The default constructor: the all-zero word, a quiet move from a8 to a8. */
  function NullMove(): (m: Move)
    ensures m.From() == 0 && m.To() == 0 && m.Flags() == QUIET_MOVE
  {
    Move(0, 0, QUIET_MOVE)
  }

  /** The kind predicates pick out exactly the kinds their names promise. */
  lemma KindPredicates(m: Move)
    ensures m.IsCapture() <==> m.Flags() in {4, 5, 6, 7, 12, 13, 14, 15}
    ensures m.IsPromotion() <==> m.Flags() >= 8
    ensures m.IsCastle() <==> m.Flags() == KING_CASTLE || m.Flags() == QUEEN_CASTLE
    ensures m.IsCastle() ==> !m.IsCapture() && !m.IsPromotion()
  {
  }

  /** The word is the three fields side by side: reading it back gives the move. */
  lemma UnpackPacked(m: Move)
    ensures Unpacked(m.Packed()) == m
  {
    FromOfPacked(m);
    ToOfPacked(m);
    KindOfPacked(m);
  }

  lemma FromOfPacked(m: Move)
    ensures ((m.Packed() >> 6) & 0x3f) as int == m.fromSq
  {
    PackFrom(m.fromSq as bv16, m.toSq as bv16, m.kind as bv16);
    IntRoundTrip(m.fromSq);
  }

  lemma ToOfPacked(m: Move)
    ensures (m.Packed() & 0x3f) as int == m.toSq
  {
    PackTo(m.fromSq as bv16, m.toSq as bv16, m.kind as bv16);
    IntRoundTrip(m.toSq);
  }

  lemma KindOfPacked(m: Move)
    ensures ((m.Packed() >> 12) & 0x0f) as int == m.kind
  {
    PackFlags(m.fromSq as bv16, m.toSq as bv16, m.kind as bv16);
    IntRoundTrip(m.kind);
  }

  /** Every word is the word of the move it reads back as. */
  lemma PackUnpacked(b: bv16)
    ensures Unpacked(b).Packed() == b
  {
    var m := Unpacked(b);
    SmallRoundTrip(b & 0x3f);
    SmallRoundTrip((b >> 6) & 0x3f);
    SmallRoundTrip((b >> 12) & 0x0f);
    Unpack(b);
  }

  /** Two moves compare equal exactly when they are the same move. */
  lemma EqualsIffSameMove(m: Move, n: Move)
    ensures m.Equals(n) <==> m == n
  {
    UnpackPacked(m);
    UnpackPacked(n);
    assert m.Packed() & 0xffff == m.Packed() && n.Packed() & 0xffff == n.Packed();
  }

  /** `setTo` is `move &= ~0x3f; move |= to & 0x3f` on the word. */
  lemma WithToOnWord(m: Move, to: int)
    ensures m.WithTo(to).Packed() == (m.Packed() & !0x3f) | ((to % 64) as bv16)
  {
    var n := m.WithTo(to);
    SmallBv(m.fromSq);
    SmallBv(m.toSq);
    SmallBv(m.kind);
    SmallBv(n.toSq);
    SetTo(m.fromSq as bv16, m.toSq as bv16, m.kind as bv16, n.toSq as bv16);
  }

  /** `setFrom` is `move &= ~0xfc0; move |= (from & 0x3f) << 6` on the word. */
  lemma WithFromOnWord(m: Move, from: int)
    ensures m.WithFrom(from).Packed() == (m.Packed() & !0xfc0) | (((from % 64) as bv16) << 6)
  {
    var n := m.WithFrom(from);
    SmallBv(m.fromSq);
    SmallBv(m.toSq);
    SmallBv(m.kind);
    SmallBv(n.fromSq);
    SetFrom(m.fromSq as bv16, m.toSq as bv16, m.kind as bv16, n.fromSq as bv16);
  }

  /** `setFlags` is `move &= ~0xf000; move |= (flags & 0xf) << 12` on the word. */
  lemma WithFlagsOnWord(m: Move, flags: int)
    ensures m.WithFlags(flags).Packed() == (m.Packed() & !0xf000) | (((flags % 16) as bv16) << 12)
  {
    var n := m.WithFlags(flags);
    SmallBv(m.fromSq);
    SmallBv(m.toSq);
    SmallBv(m.kind);
    SmallBv(n.kind);
    SetFlags(m.fromSq as bv16, m.toSq as bv16, m.kind as bv16, n.kind as bv16);
  }

  /** The kind predicates test the bits the source tests. */
  lemma KindPredicatesOnWord(m: Move)
    ensures m.IsCapture() <==> (m.Packed() >> 12) & 0x4 != 0
    ensures m.IsPromotion() <==> (m.Packed() >> 12) & 0x8 != 0
    ensures m.IsCastle() <==> ((m.Packed() >> 12) & 0x0f) | 1 == 3
  {
    var f, t, k := m.fromSq as bv16, m.toSq as bv16, m.kind as bv16;
    PackFlagsBits(f, t, k);
    assert (m.Packed() >> 12) & 0x0f == k;
    KindBits(m.kind);
  }

  // Bit-level facts behind the packing.

  lemma KindBits(k: Bits4)
    ensures k / 4 % 2 == 1 <==> (k as bv16) & 0x4 != 0
    ensures k / 8 == 1 <==> (k as bv16) & 0x8 != 0
    ensures k / 2 * 2 + 1 == 3 <==> (k as bv16) | 1 == 3
  {
    match k
    case 0 => case 1 => case 2 => case 3 => case 4 => case 5 => case 6 => case 7 =>
    case 8 => case 9 => case 10 => case 11 => case 12 => case 13 => case 14 => case _ =>
  }

  lemma SmallBv(x: Bits6)
    ensures x as bv16 < 64
  {
  }

  lemma IntRoundTrip(x: Bits6)
    ensures (x as bv16) as int == x
  {
    var y := x as bv6;
    assert y as int == x;
    assert (y as bv16) as int == x;
  }

  lemma SmallRoundTrip(x: bv16)
    requires x < 64
    ensures (x as int) as bv16 == x
  {
  }

  lemma Unpack(b: bv16)
    ensures b == (((b >> 12) & 0x0f) << 12) | (((b >> 6) & 0x3f) << 6) | (b & 0x3f)
  {
  }

  lemma PackTo(f: bv16, t: bv16, k: bv16)
    requires f < 64 && t < 64 && k < 16
    ensures (((k << 12) | (f << 6) | t) & 0x3f) as int == t as int
  {
    assert ((k << 12) | (f << 6) | t) & 0x3f == t;
  }

  lemma PackFrom(f: bv16, t: bv16, k: bv16)
    requires f < 64 && t < 64 && k < 16
    ensures ((((k << 12) | (f << 6) | t) >> 6) & 0x3f) as int == f as int
  {
    assert (((k << 12) | (f << 6) | t) >> 6) & 0x3f == f;
  }

  lemma PackFlags(f: bv16, t: bv16, k: bv16)
    requires f < 64 && t < 64 && k < 16
    ensures ((((k << 12) | (f << 6) | t) >> 12) & 0x0f) as int == k as int
  {
    PackFlagsBits(f, t, k);
  }

  lemma PackFlagsBits(f: bv16, t: bv16, k: bv16)
    requires f < 64 && t < 64 && k < 16
    ensures (((k << 12) | (f << 6) | t) >> 12) & 0x0f == k
    ensures ((k << 12) | (f << 6) | t) >> 12 == k
  {
  }

  lemma SetTo(f: bv16, t: bv16, k: bv16, v: bv16)
    requires f < 64 && t < 64 && k < 16 && v < 64
    ensures (k << 12) | (f << 6) | v == (((k << 12) | (f << 6) | t) & !0x3f) | v
  {
  }

  lemma SetFrom(f: bv16, t: bv16, k: bv16, v: bv16)
    requires f < 64 && t < 64 && k < 16 && v < 64
    ensures (k << 12) | (v << 6) | t == (((k << 12) | (f << 6) | t) & !0xfc0) | (v << 6)
  {
  }

  lemma SetFlags(f: bv16, t: bv16, k: bv16, v: bv16)
    requires f < 64 && t < 64 && k < 16 && v < 16
    ensures (v << 12) | (f << 6) | t == (((k << 12) | (f << 6) | t) & !0xf000) | (v << 12)
  {
  }

  /**
   * Removal by swapping with the last element: the element at `i` is
   * overwritten by the last one and the list shrinks by one.
   */
  function SwapRemove<T>(s: seq<T>, i: int): (r: seq<T>)
    requires 0 <= i < |s|
    ensures |r| == |s| - 1
    ensures r[..i] == s[..i]
    ensures i < |s| - 1 ==> r == s[..i] + [s[|s| - 1]] + s[i + 1..|s| - 1]
    ensures multiset(r) == multiset(s) - multiset{s[i]}
  {
    var last := |s| - 1;
    var t := s[i := s[last]][..last];
    assert s == s[..i] + [s[i]] + s[i + 1..];
    assert i < last ==> t == s[..i] + [s[last]] + s[i + 1..last];
    assert i < last ==> s[i + 1..] == s[i + 1..last] + [s[last]];
    t
  }

  /** The fixed-capacity list of generated moves (struct ChessMoves). */
  class ChessMoves {
    const moves: array<Move>
    var nMoves: int

    ghost predicate Valid()
      reads this
    {
      moves.Length == MAX_AVAILABLE_MOVES && 0 <= nMoves <= MAX_AVAILABLE_MOVES
    }

    /** The moves currently held, in order. */
    ghost function Contents(): seq<Move>
      reads this, moves
      requires Valid()
    {
      moves[..nMoves]
    }

    constructor()
      ensures Valid() && fresh(moves) && Contents() == []
    {
      moves := new Move[MAX_AVAILABLE_MOVES](_ => NullMove());
      nMoves := 0;
    }

    /** `operator[]`, read-only use. */
    function Get(index: int): (m: Move)
      reads this, moves
      requires Valid() && 0 <= index < nMoves
      ensures m == Contents()[index]
    {
      moves[index]
    }

    method ResetMoves()
      requires Valid()
      modifies this
      ensures Valid() && Contents() == []
    {
      nMoves := 0;
    }

    /** Appends a move; the caller keeps the count below the capacity. */
    method AddMove(from: int, to: int, flags: int)
      requires Valid() && nMoves < MAX_AVAILABLE_MOVES
      modifies this, moves
      ensures Valid() && Contents() == old(Contents()) + [NewMove(from, to, flags)]
    {
      moves[nMoves] := NewMove(from, to, flags);
      nMoves := nMoves + 1;
    }

    /** Removes the move at `index` by swapping in the last one; an index out of range is ignored. */
    method RemoveMove(index: int)
      requires Valid()
      modifies this, moves
      ensures Valid()
      ensures 0 <= index < old(nMoves) ==> Contents() == SwapRemove(old(Contents()), index)
      ensures !(0 <= index < old(nMoves)) ==> Contents() == old(Contents())
    {
      if index < 0 || index >= nMoves || nMoves == 0 {
        return;
      }
      nMoves := nMoves - 1;
      moves[index] := moves[nMoves];
    }
  }

  /** What is needed to take a move back (struct MadeMove). */
  datatype MadeMove = MadeMove(
    move: Move,
    movedPieceFlags: int,
    capturedPiece: Piece,
    previousEpCapture: int,
    halfMoveClock: int)

  /** The value-initialised record: all fields zero. */
  function DefaultMadeMove(): (r: MadeMove)
    ensures r.move == NullMove() && r.capturedPiece == DefaultPiece()
    ensures r.movedPieceFlags == 0 && r.previousEpCapture == 0 && r.halfMoveClock == 0
  {
    MadeMove(NullMove(), 0, DefaultPiece(), 0, 0)
  }

  /**
   * `move.setFlags(move.getFlags() | promotion)`: the kind with the chosen
   * promotion bits or-ed in. `setFlags` keeps the low four bits of the or,
   * which are the or of the low four bits of both operands; for an `int`
   * of any sign those of `promotion` are `promotion % 16`.
   */
  function OrPromotion(m: Move, promotion: int): (r: Move)
    ensures r.From() == m.From() && r.To() == m.To()
    ensures 0 <= promotion < 4 && m.Flags() % 4 == 0 ==> r.Flags() == m.Flags() + promotion
    ensures promotion % 16 == 0 ==> r == m
  {
    m.WithFlags(((m.kind as bv4) | (promotion % 16) as bv4) as int)
  }

  /** The records with the promotion choice or-ed into the kind of the newest one. */
  function PromoteLast(played: seq<MadeMove>, promotion: int): (r: seq<MadeMove>)
    requires |played| > 0
    ensures |r| == |played| && r[..|played| - 1] == played[..|played| - 1]
    ensures r[|played| - 1] == played[|played| - 1].(move := OrPromotion(played[|played| - 1].move, promotion))
  {
    var last := played[|played| - 1];
    played[|played| - 1 := last.(move := OrPromotion(last.move, promotion))]
  }

  /**
   * The game history (struct MadeMoves): records below `nMadeMoves` have
   * been played; records from there up to `maxMadeMoves` were taken back
   * and can be replayed.
   */
  class MadeMoves {
    const madeMoves: array<MadeMove>
    var nMadeMoves: int
    var maxMadeMoves: int

    ghost predicate Valid()
      reads this
    {
      madeMoves.Length == MAX_GAME_MOVES && 0 <= nMadeMoves <= maxMadeMoves <= MAX_GAME_MOVES
    }

    /** The played records, oldest first. */
    ghost function Played(): seq<MadeMove>
      reads this, madeMoves
      requires Valid()
    {
      madeMoves[..nMadeMoves]
    }

    /** The records that can be replayed, next one first. */
    ghost function Redo(): seq<MadeMove>
      reads this, madeMoves
      requires Valid()
    {
      madeMoves[nMadeMoves..maxMadeMoves]
    }

    constructor()
      ensures Valid() && fresh(madeMoves) && Played() == [] && Redo() == []
    {
      madeMoves := new MadeMove[MAX_GAME_MOVES](_ => DefaultMadeMove());
      nMadeMoves := 0;
      maxMadeMoves := 0;
    }

    method ResetMadeMoves()
      requires Valid()
      modifies this
      ensures Valid() && Played() == [] && Redo() == []
    {
      nMadeMoves := 0;
      maxMadeMoves := 0;
    }

    /**
     * Records a played move. The slot is overwritten but the redo horizon
     * only grows: records beyond the new move stay replayable.
     */
    method AddMove(move: MadeMove)
      requires Valid() && nMadeMoves < MAX_GAME_MOVES
      modifies this, madeMoves
      ensures Valid()
      ensures Played() == old(Played()) + [move]
      ensures Redo() == if old(Redo()) == [] then [] else old(Redo())[1..]
      ensures maxMadeMoves == if old(maxMadeMoves) < nMadeMoves then nMadeMoves else old(maxMadeMoves)
      ensures var n := nMadeMoves; madeMoves[n..] == old(madeMoves[..])[n..]
    {
      madeMoves[nMadeMoves] := move;
      nMadeMoves := nMadeMoves + 1;
      if maxMadeMoves < nMadeMoves {
        maxMadeMoves := nMadeMoves;
      }
    }

    /** Forgets the newest played record, which becomes the first replayable one. */
    method PopLastMove()
      requires Valid() && nMadeMoves > 0
      modifies this
      ensures Valid() && maxMadeMoves == old(maxMadeMoves)
      ensures Played() + Redo() == old(Played() + Redo())
      ensures Played() == old(Played()[..nMadeMoves - 1])
    {
      nMadeMoves := nMadeMoves - 1;
    }

    /** The newest played record, or the zero record when nothing was played. */
    function GetLastMove(): (r: MadeMove)
      reads this, madeMoves
      requires Valid()
      ensures |Played()| == 0 ==> r == DefaultMadeMove()
      ensures |Played()| > 0 ==> r == Played()[|Played()| - 1]
    {
      if nMadeMoves == 0 then DefaultMadeMove() else madeMoves[nMadeMoves - 1]
    }

    /** The first replayable record, or the zero record when there is none. The count is left alone. */
    function GetNextMove(): (r: MadeMove)
      reads this, madeMoves
      requires Valid()
      ensures |Redo()| == 0 ==> r == DefaultMadeMove()
      ensures |Redo()| > 0 ==> r == Redo()[0]
    {
      if nMadeMoves == maxMadeMoves then DefaultMadeMove() else madeMoves[nMadeMoves]
    }

    /** Ors the chosen promotion into the kind of the newest played record. */
    method UpdateLastPromotionMove(promotion: int)
      requires Valid() && nMadeMoves > 0
      modifies madeMoves
      ensures Valid() && Played() == PromoteLast(old(Played()), promotion) && Redo() == old(Redo())
    {
      var last := madeMoves[nMadeMoves - 1];
      madeMoves[nMadeMoves - 1] := last.(move := OrPromotion(last.move, promotion));
      assert Played() == PromoteLast(old(Played()), promotion);
    }
  }
}
