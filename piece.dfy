/**
 * The chess piece of the index model (IndexModel/chessPiece.h): one byte
 * holding the piece type in bits 0-2, the colour in bit 3 and two status
 * flags in bits 4-5.
 *
 * The model keeps the three fields, each within its bit width, and gives
 * the byte itself by `Packed`; `Unpacked` reads a byte back, and the
 * lemmas below show that the field updates are exactly the source's
 * mask-and-or operations on the byte. A piece is a value: the source's
 * in-place setters become functions returning the updated piece.
 */
module Pieces {

  // Piece types (bits 0-2).
  const EMPTY := 0
  const PAWN := 1
  const KNIGHT := 2
  const BISHOP := 3
  const ROOK := 4
  const QUEEN := 5
  const KING := 6

  // Colours (bit 3).
  const BLACK := 0
  const WHITE := 1

  // Status flags (bits 4-5).
  const MOVED := 1
  const EN_PASSANT := 2

  type Bits3 = x: int | 0 <= x < 8
  type Bit = x: int | 0 <= x < 2
  type Bits2 = x: int | 0 <= x < 4

  datatype Piece = Piece(kind: Bits3, colorBit: Bit, status: Bits2)
  {
    /** `getType`. */
    function Type(): Bits3
    {
      kind
    }

    /** `getColor`. */
    function Color(): Bit
    {
      colorBit
    }

    /** `getFlags`. */
    function Flags(): Bits2
    {
      status
    }

    /** `setType`: the type becomes the low three bits of `t`. */
    function WithType(t: int): (p: Piece)
      ensures p.Type() == t % 8 && p.Color() == Color() && p.Flags() == Flags()
    {
      this.(kind := t % 8)
    }

    /** `setColor`: the colour becomes the low bit of `c`. */
    function WithColor(c: int): (p: Piece)
      ensures p.Color() == c % 2 && p.Type() == Type() && p.Flags() == Flags()
    {
      this.(colorBit := c % 2)
    }

    /** `setFlags`: both status bits are overwritten by the low two bits of `f`. */
    function WithFlags(f: int): (p: Piece)
      ensures p.Flags() == f % 4 && p.Type() == Type() && p.Color() == Color()
    {
      this.(status := f % 4)
    }

    /** `hasMoved`: the MOVED bit of the flags. */
    predicate HasMoved()
    {
      status % 2 == MOVED
    }

    /** `canBeCapturedEP`: the EN_PASSANT bit of the flags. */
    predicate CanBeCapturedEP()
    {
      status / 2 == 1
    }

    predicate IsEmpty()
    {
      kind == EMPTY
    }

    /** The byte the source stores. */
    function Packed(): (b: bv8)
      ensures b < 64
    {
      ((status as bv8) << 4) | ((colorBit as bv8) << 3) | (kind as bv8)
    }

    /** `operator==`: the low six bits of the two bytes agree. */
    predicate Equals(other: Piece)
    {
      Packed() & 0x3f == other.Packed() & 0x3f
    }
  }

  /** Reads a byte: type from bits 0-2, colour from bit 3, flags from bits 4-5. */
  function Unpacked(b: bv8): Piece
  {
    Piece((b & 0x07) as int, ((b >> 3) & 0x01) as int, ((b >> 4) & 0x03) as int)
  }

  /** The three-argument constructor: each field masked to its width. */
  function NewPiece(t: int, c: int, f: int): (p: Piece)
    ensures p.Type() == t % 8 && p.Color() == c % 2 && p.Flags() == f % 4
    ensures 0 <= t < 8 && 0 <= c < 2 && 0 <= f < 4 ==> p.Type() == t && p.Color() == c && p.Flags() == f
  {
    Piece(t % 8, c % 2, f % 4)
  }

  /** The default constructor: an empty square, black, no flags. */
  function DefaultPiece(): (p: Piece)
    ensures p.Type() == EMPTY && p.Color() == BLACK && p.Flags() == 0
    ensures !p.HasMoved() && !p.CanBeCapturedEP() && p.Packed() == 0
  {
    Piece(EMPTY, BLACK, 0)
  }

  /** The byte is the three fields side by side: reading it back gives the piece. */
  lemma UnpackPacked(p: Piece)
    ensures Unpacked(p.Packed()) == p
  {
    var b := p.Packed();
    var k, c, s := p.kind as bv8, p.colorBit as bv8, p.status as bv8;
    assert b & 0x07 == k && (b >> 3) & 0x01 == c && (b >> 4) & 0x03 == s;
  }

  /** Every byte whose top two bits are clear is the byte of the piece it reads back as. */
  lemma PackUnpacked(b: bv8)
    requires b < 64
    ensures Unpacked(b).Packed() == b
  {
    var p := Unpacked(b);
    assert (p.kind as bv8) == b & 0x07;
    assert (p.colorBit as bv8) == (b >> 3) & 0x01;
    assert (p.status as bv8) == (b >> 4) & 0x03;
  }

  /** `setType` is `piece &= ~7; piece |= t & 7` on the byte. */
  lemma WithTypeOnByte(p: Piece, t: int)
    ensures p.WithType(t).Packed() == (p.Packed() & !0x07) | ((t % 8) as bv8)
  {
  }

  /** `setColor` is `piece &= ~8; piece |= (c & 1) << 3` on the byte. */
  lemma WithColorOnByte(p: Piece, c: int)
    ensures p.WithColor(c).Packed() == (p.Packed() & !0x08) | (((c % 2) as bv8) << 3)
  {
  }

  /** `setFlags` is `piece &= ~0x30; piece |= (f & 3) << 4` on the byte. */
  lemma WithFlagsOnByte(p: Piece, f: int)
    ensures p.WithFlags(f).Packed() == (p.Packed() & !0x30) | (((f % 4) as bv8) << 4)
  {
  }

  /** The flag predicates test single bits of the byte: bit 4 for MOVED, bit 5 for EN_PASSANT. */
  lemma FlagPredicatesOnByte(p: Piece)
    ensures p.HasMoved() <==> p.Packed() & 0x10 != 0
    ensures p.CanBeCapturedEP() <==> p.Packed() & 0x20 != 0
  {
  }

  /** Equality looks at exactly the three fields, so it is equality of pieces. */
  lemma EqualsIffSamePiece(p: Piece, q: Piece)
    ensures p.Equals(q) <==> p == q
  {
    UnpackPacked(p);
    UnpackPacked(q);
    assert p.Packed() & 0x3f == p.Packed() && q.Packed() & 0x3f == q.Packed();
  }

  /** Setting the flags replaces the whole status: MOVED clears EN_PASSANT and the other way round. */
  lemma SetFlagsOverwrites(p: Piece)
    ensures p.WithFlags(MOVED).HasMoved() && !p.WithFlags(MOVED).CanBeCapturedEP()
    ensures p.WithFlags(EN_PASSANT).CanBeCapturedEP() && !p.WithFlags(EN_PASSANT).HasMoved()
  {
  }
}
