/**
 * The piece lists of the index model (src/index_model/piece_list.h): for
 * each colour a dense list of the squares its pieces stand on, a reverse
 * index from square to list slot shared by both colours, a count per
 * piece type and the square of each king.
 *
 * `Slots` is the dense-list-plus-reverse-index core, which the earlier
 * draft (IndexModel/pieceList.h) shares; `Lists` adds the type counts and
 * the king cache. Colours index the lists as in the source: BLACK is 0,
 * WHITE is 1.
 */
module PieceLists {
  import opened Pieces

  const MAX_PIECES := 16

  /** Reverse index, per-colour lists and per-colour counts. */
  datatype Slots = Slots(board: seq<int>, pieces: seq<seq<int>>, count: seq<int>)

  ghost predicate Shaped(s: Slots)
  {
    |s.board| == 64 && |s.pieces| == 2 && |s.pieces[0]| == MAX_PIECES && |s.pieces[1]| == MAX_PIECES && |s.count| == 2
  }

  /** Square `sq` is listed for colour `c`: its reverse entry names a live slot that holds it. */
  ghost predicate InList(s: Slots, c: int, sq: int)
    requires Shaped(s) && 0 <= c < 2
  {
    0 <= sq < 64 && 0 <= s.board[sq] < s.count[c] && s.board[sq] < MAX_PIECES && s.pieces[c][s.board[sq]] == sq
  }

  ghost predicate Unlisted(s: Slots, sq: int)
    requires Shaped(s)
  {
    !InList(s, BLACK, sq) && !InList(s, WHITE, sq)
  }

  /**
   * The reverse index and the lists agree: every live slot holds a square
   * whose reverse entry names that slot, no square is listed for both
   * colours, and a square listed for neither has reverse entry -1.
   */
  ghost predicate Consistent(s: Slots)
  {
    Shaped(s)
    && (forall c | 0 <= c < 2 :: 0 <= s.count[c] <= MAX_PIECES)
    && (forall c, i | 0 <= c < 2 && 0 <= i < s.count[c] :: 0 <= s.pieces[c][i] < 64 && s.board[s.pieces[c][i]] == i)
    && (forall i, j | 0 <= i < s.count[BLACK] && 0 <= j < s.count[WHITE] :: s.pieces[BLACK][i] != s.pieces[WHITE][j])
    && (forall sq | 0 <= sq < 64 && Unlisted(s, sq) :: s.board[sq] == -1)
  }

  /** The core of `addPiece`: append `sq` to colour `c`'s list and index it. */
  function SlotsAdd(s: Slots, sq: int, c: int): (r: Slots)
    requires Shaped(s) && 0 <= sq < 64 && 0 <= c < 2 && 0 <= s.count[c] < MAX_PIECES
    ensures Shaped(r)
  {
    var n := s.count[c];
    Slots(s.board[sq := n], s.pieces[c := s.pieces[c][n := sq]], s.count[c := n + 1])
  }

  /** What `removePiece` needs to stay inside its arrays. */
  ghost predicate CanRemove(s: Slots, sq: int, c: int)
    requires Shaped(s) && 0 <= sq < 64 && 0 <= c < 2
  {
    s.count[c] - 1 > 0 ==>
      s.count[c] <= MAX_PIECES && 0 <= s.board[sq] < MAX_PIECES && 0 <= s.pieces[c][s.count[c] - 1] < 64
  }

  /**
   * The core of `removePiece`: shrink colour `c`'s list by one, move its
   * last entry into the slot of `sq`, re-index that entry and unindex `sq`.
   */
  function SlotsRemove(s: Slots, sq: int, c: int): (r: Slots)
    requires Shaped(s) && 0 <= sq < 64 && 0 <= c < 2 && CanRemove(s, sq, c)
    ensures Shaped(r)
  {
    var n := s.count[c] - 1;
    var r1 :=
      if n > 0 then
        var index := s.board[sq];
        var last := s.pieces[c][n];
        Slots(s.board[last := index], s.pieces[c := s.pieces[c][index := last]], s.count[c := n])
      else
        s.(count := s.count[c := n]);
    r1.(board := r1.board[sq := -1])
  }

  /** The core of `movePiece`: the slot of `fromSquare` now holds `toSquare`. */
  function SlotsMove(s: Slots, fromSquare: int, toSquare: int, c: int): (r: Slots)
    requires Shaped(s) && 0 <= fromSquare < 64 && 0 <= toSquare < 64 && 0 <= c < 2
    requires 0 <= s.board[fromSquare] < MAX_PIECES
    ensures Shaped(r) && r.count == s.count
  {
    var index := s.board[fromSquare];
    Slots(s.board[fromSquare := -1][toSquare := index], s.pieces[c := s.pieces[c][index := toSquare]], s.count)
  }

  /** An unlisted square has no live reverse entry. */
  lemma UnlistedIndex(s: Slots, sq: int)
    requires Consistent(s) && 0 <= sq < 64
    ensures Unlisted(s, sq) <==> s.board[sq] == -1
  {
  }

  /** No square is listed for both colours. */
  lemma ListedOnce(s: Slots, sq: int)
    requires Consistent(s)
    ensures !(InList(s, BLACK, sq) && InList(s, WHITE, sq))
  {
  }

  /** Adding an unlisted square keeps the lists consistent and lists exactly that square in addition. */
  lemma AddKeepsConsistent(s: Slots, sq: int, c: int)
    requires Consistent(s) && 0 <= sq < 64 && 0 <= c < 2 && s.count[c] < MAX_PIECES && Unlisted(s, sq)
    ensures Consistent(SlotsAdd(s, sq, c))
    ensures forall d, q | 0 <= d < 2 :: InList(SlotsAdd(s, sq, c), d, q) <==> InList(s, d, q) || (d == c && q == sq)
  {
    AddListed(s, sq, c);
    AddSeparate(s, sq, c);
    AddIndexed(s, sq, c);
    var r := SlotsAdd(s, sq, c);
    forall q | 0 <= q < 64 && Unlisted(r, q)
      ensures r.board[q] == -1
    {
      assert InList(r, c, sq);
    }
  }

  /** After an add, the listed squares are those listed before and the added one. */
  lemma AddListed(s: Slots, sq: int, c: int)
    requires Consistent(s) && 0 <= sq < 64 && 0 <= c < 2 && s.count[c] < MAX_PIECES && Unlisted(s, sq)
    ensures forall d, q | 0 <= d < 2 :: InList(SlotsAdd(s, sq, c), d, q) <==> InList(s, d, q) || (d == c && q == sq)
  {
    var r := SlotsAdd(s, sq, c);
    var n := s.count[c];
    forall d, q | 0 <= d < 2
      ensures InList(r, d, q) <==> InList(s, d, q) || (d == c && q == sq)
    {
      if 0 <= q < 64 && q != sq && InList(s, d, q) && d == c {
        assert s.board[q] < n;
      }
      if 0 <= q < 64 && q != sq && InList(r, d, q) && d == c {
        assert s.pieces[c][s.board[q]] == q;
        assert s.board[q] < n;
      }
    }
  }

  /** After an add, no square is listed for both colours. */
  lemma AddSeparate(s: Slots, sq: int, c: int)
    requires Consistent(s) && 0 <= sq < 64 && 0 <= c < 2 && s.count[c] < MAX_PIECES && Unlisted(s, sq)
    ensures var r := SlotsAdd(s, sq, c);
      forall i, j | 0 <= i < r.count[BLACK] && 0 <= j < r.count[WHITE] :: r.pieces[BLACK][i] != r.pieces[WHITE][j]
  {
    var r := SlotsAdd(s, sq, c);
    var n := s.count[c];
    forall i, j | 0 <= i < r.count[BLACK] && 0 <= j < r.count[WHITE]
      ensures r.pieces[BLACK][i] != r.pieces[WHITE][j]
    {
      if c == BLACK && i == n {
        assert InList(s, WHITE, s.pieces[WHITE][j]);
      } else if c == WHITE && j == n {
        assert InList(s, BLACK, s.pieces[BLACK][i]);
      }
    }
  }

  /** After an add, every live slot holds a square whose reverse entry names it. */
  lemma AddIndexed(s: Slots, sq: int, c: int)
    requires Consistent(s) && 0 <= sq < 64 && 0 <= c < 2 && s.count[c] < MAX_PIECES && Unlisted(s, sq)
    ensures var r := SlotsAdd(s, sq, c);
      forall d, i | 0 <= d < 2 && 0 <= i < r.count[d] :: 0 <= r.pieces[d][i] < 64 && r.board[r.pieces[d][i]] == i
  {
    var r := SlotsAdd(s, sq, c);
    var n := s.count[c];
    forall d, i | 0 <= d < 2 && 0 <= i < r.count[d]
      ensures 0 <= r.pieces[d][i] < 64 && r.board[r.pieces[d][i]] == i
    {
      if !(d == c && i == n) {
        assert InList(s, d, s.pieces[d][i]);
      }
    }
  }

  /** Removing a listed square keeps the lists consistent and unlists exactly that square. */
  lemma RemoveKeepsConsistent(s: Slots, sq: int, c: int)
    requires Consistent(s) && 0 <= c < 2 && InList(s, c, sq)
    ensures CanRemove(s, sq, c) && !InList(s, 1 - c, sq)
    ensures Consistent(SlotsRemove(s, sq, c))
    ensures forall d, q | 0 <= d < 2 :: InList(SlotsRemove(s, sq, c), d, q) <==> InList(s, d, q) && !(d == c && q == sq)
  {
    var n := s.count[c] - 1;
    if n > 0 {
      assert InList(s, c, s.pieces[c][n]);
    }
    RemoveListed(s, sq, c);
    RemoveIndexed(s, sq, c);
    var r := SlotsRemove(s, sq, c);
    var index := s.board[sq];
    forall i, j | 0 <= i < r.count[BLACK] && 0 <= j < r.count[WHITE]
      ensures r.pieces[BLACK][i] != r.pieces[WHITE][j]
    {
      if c == BLACK && i == index {
        assert s.pieces[BLACK][n] != s.pieces[WHITE][j];
      } else if c == WHITE && j == index {
        assert s.pieces[BLACK][i] != s.pieces[WHITE][n];
      }
    }
  }

  lemma RemoveListed(s: Slots, sq: int, c: int)
    requires Consistent(s) && 0 <= c < 2 && InList(s, c, sq) && CanRemove(s, sq, c)
    ensures forall d, q | 0 <= d < 2 :: InList(SlotsRemove(s, sq, c), d, q) <==> InList(s, d, q) && !(d == c && q == sq)
  {
    var n := s.count[c] - 1;
    var r := SlotsRemove(s, sq, c);
    var index := s.board[sq];
    var last := s.pieces[c][n];
    forall d, q | 0 <= d < 2
      ensures InList(r, d, q) <==> InList(s, d, q) && !(d == c && q == sq)
    {
      if 0 <= q < 64 && q != sq {
        if d == c && q == last {
          assert s.board[last] == n;
        } else if d == c {
          if InList(s, d, q) {
            assert s.board[q] != n;
            assert s.board[q] != index;
          }
        }
      }
    }
  }

  lemma RemoveIndexed(s: Slots, sq: int, c: int)
    requires Consistent(s) && 0 <= c < 2 && InList(s, c, sq) && CanRemove(s, sq, c)
    ensures var r := SlotsRemove(s, sq, c);
      forall d, i | 0 <= d < 2 && 0 <= i < r.count[d] :: 0 <= r.pieces[d][i] < 64 && r.board[r.pieces[d][i]] == i
  {
    var n := s.count[c] - 1;
    var r := SlotsRemove(s, sq, c);
    var index := s.board[sq];
    var last := s.pieces[c][n];
    forall d, i | 0 <= d < 2 && 0 <= i < r.count[d]
      ensures 0 <= r.pieces[d][i] < 64 && r.board[r.pieces[d][i]] == i
    {
      if d == c && i == index {
        assert r.pieces[d][i] == last;
      } else {
        assert InList(s, d, s.pieces[d][i]);
      }
    }
  }

  /** Moving a listed square onto an unlisted one keeps the lists consistent and renames exactly that entry. */
  lemma MoveKeepsConsistent(s: Slots, fromSquare: int, toSquare: int, c: int)
    requires Consistent(s) && 0 <= c < 2 && InList(s, c, fromSquare) && 0 <= toSquare < 64 && Unlisted(s, toSquare)
    ensures Consistent(SlotsMove(s, fromSquare, toSquare, c))
    ensures forall d, q | 0 <= d < 2 ::
      InList(SlotsMove(s, fromSquare, toSquare, c), d, q) <==> (InList(s, d, q) && q != fromSquare) || (d == c && q == toSquare)
  {
    var r := SlotsMove(s, fromSquare, toSquare, c);
    var index := s.board[fromSquare];
    forall d, q | 0 <= d < 2
      ensures InList(r, d, q) <==> (InList(s, d, q) && q != fromSquare) || (d == c && q == toSquare)
    {
      if 0 <= q < 64 && q != fromSquare && q != toSquare && d == c && InList(s, d, q) {
        assert s.board[q] != index;
      }
    }
    forall d, i | 0 <= d < 2 && 0 <= i < r.count[d]
      ensures 0 <= r.pieces[d][i] < 64 && r.board[r.pieces[d][i]] == i
    {
      if !(d == c && i == index) {
        assert InList(s, d, s.pieces[d][i]);
        assert s.pieces[d][i] != fromSquare;
      }
    }
    forall i, j | 0 <= i < r.count[BLACK] && 0 <= j < r.count[WHITE]
      ensures r.pieces[BLACK][i] != r.pieces[WHITE][j]
    {
      if c == BLACK && i == index {
        assert InList(s, WHITE, s.pieces[WHITE][j]);
      } else if c == WHITE && j == index {
        assert InList(s, BLACK, s.pieces[BLACK][i]);
      }
    }
  }

  /** Full piece-list state: the slots, a count per colour and type (PAWN at 0 .. KING at 5) and the king squares. */
  datatype Lists = Lists(slots: Slots, nSpecPieces: seq<seq<int>>, kingSquare: seq<int>)

  ghost predicate ListsShaped(l: Lists)
  {
    Shaped(l.slots) && |l.nSpecPieces| == 2 && |l.nSpecPieces[0]| == 6 && |l.nSpecPieces[1]| == 6 && |l.kingSquare| == 2
  }

  /** `resetPieceLists`: no piece listed, no type counted, no king known; the list bodies are left as they were. */
  function ListsReset(l: Lists): (r: Lists)
    requires ListsShaped(l)
    ensures ListsShaped(r) && Consistent(r.slots)
    ensures forall c, q | 0 <= c < 2 :: !InList(r.slots, c, q)
    ensures r.slots.pieces == l.slots.pieces
  {
    Lists(Slots(seq(64, _ => -1), l.slots.pieces, [0, 0]), [[0, 0, 0, 0, 0, 0], [0, 0, 0, 0, 0, 0]], [-1, -1])
  }

  /** `addPiece`: list the square, count its type, and remember it when it is the king. */
  function ListsAdd(l: Lists, sq: int, c: int, t: int): (r: Lists)
    requires ListsShaped(l) && 0 <= sq < 64 && 0 <= c < 2 && 0 <= l.slots.count[c] < MAX_PIECES && PAWN <= t <= KING
    ensures ListsShaped(r)
    ensures r.slots.count[c] == l.slots.count[c] + 1 && r.slots.count[1 - c] == l.slots.count[1 - c]
    ensures r.nSpecPieces[c][t - 1] == l.nSpecPieces[c][t - 1] + 1
    ensures forall d, u | 0 <= d < 2 && 0 <= u < 6 && (d, u) != (c, t - 1) :: r.nSpecPieces[d][u] == l.nSpecPieces[d][u]
    ensures r.kingSquare[c] == (if t == KING then sq else l.kingSquare[c]) && r.kingSquare[1 - c] == l.kingSquare[1 - c]
  {
    Lists(SlotsAdd(l.slots, sq, c),
          l.nSpecPieces[c := l.nSpecPieces[c][t - 1 := l.nSpecPieces[c][t - 1] + 1]],
          if t == KING then l.kingSquare[c := sq] else l.kingSquare)
  }

  /** `removePiece`: unlist the square and uncount its type; the king cache is not touched. */
  function ListsRemove(l: Lists, sq: int, c: int, t: int): (r: Lists)
    requires ListsShaped(l) && 0 <= sq < 64 && 0 <= c < 2 && CanRemove(l.slots, sq, c) && PAWN <= t <= KING
    ensures ListsShaped(r)
    ensures r.slots.count[c] == l.slots.count[c] - 1 && r.slots.count[1 - c] == l.slots.count[1 - c]
    ensures r.nSpecPieces[c][t - 1] == l.nSpecPieces[c][t - 1] - 1
    ensures forall d, u | 0 <= d < 2 && 0 <= u < 6 && (d, u) != (c, t - 1) :: r.nSpecPieces[d][u] == l.nSpecPieces[d][u]
    ensures r.kingSquare == l.kingSquare
  {
    Lists(SlotsRemove(l.slots, sq, c),
          l.nSpecPieces[c := l.nSpecPieces[c][t - 1 := l.nSpecPieces[c][t - 1] - 1]],
          l.kingSquare)
  }

  /**
   * `movePiece`: the slot of `fromSquare` now holds `toSquare`; counts are
   * unchanged, and the king cache follows a king standing on `fromSquare`
   * (white's entry is looked at first).
   */
  function ListsMove(l: Lists, fromSquare: int, toSquare: int, c: int): (r: Lists)
    requires ListsShaped(l) && 0 <= fromSquare < 64 && 0 <= toSquare < 64 && 0 <= c < 2
    requires 0 <= l.slots.board[fromSquare] < MAX_PIECES
    ensures ListsShaped(r) && r.slots.count == l.slots.count && r.nSpecPieces == l.nSpecPieces
    ensures forall d | 0 <= d < 2 && l.kingSquare[d] != fromSquare :: r.kingSquare[d] == l.kingSquare[d]
    ensures l.kingSquare[0] != l.kingSquare[1] ==>
      forall d | 0 <= d < 2 && l.kingSquare[d] == fromSquare :: r.kingSquare[d] == toSquare
  {
    Lists(SlotsMove(l.slots, fromSquare, toSquare, c), l.nSpecPieces, KingMoved(l.kingSquare, fromSquare, toSquare))
  }

  /** The king cache after a piece moved from `fromSquare` to `toSquare`: white's entry is looked at first. */
  function KingMoved(kingSquare: seq<int>, fromSquare: int, toSquare: int): (r: seq<int>)
    requires |kingSquare| == 2
    ensures |r| == 2
  {
    if fromSquare == kingSquare[WHITE] then kingSquare[WHITE := toSquare]
    else if fromSquare == kingSquare[BLACK] then kingSquare[BLACK := toSquare]
    else kingSquare
  }

  /** One piece of a colour changes type: a count moves from `fromType` to `toType`. */
  function Recount(spec: seq<int>, fromType: int, toType: int): (r: seq<int>)
    requires |spec| == 6 && PAWN <= fromType <= KING && PAWN <= toType <= KING
    ensures |r| == 6
  {
    var less := spec[fromType - 1 := spec[fromType - 1] - 1];
    less[toType - 1 := less[toType - 1] + 1]
  }

  /** Changing a type and changing it back restores the counts. */
  lemma RecountBack(spec: seq<int>, fromType: int, toType: int)
    requires |spec| == 6 && PAWN <= fromType <= KING && PAWN <= toType <= KING
    ensures Recount(Recount(spec, fromType, toType), toType, fromType) == spec
  {
    var r := Recount(Recount(spec, fromType, toType), toType, fromType);
    assert forall i | 0 <= i < 6 :: r[i] == spec[i];
  }

  /** The piece lists, updated in place. */
  class PieceList {
    const board: array<int>
    const nPieces: array<int>
    const nSpecPieces: array2<int>
    const pieces: array2<int>
    const kingSquare: array<int>

    ghost predicate Valid()
      reads this
    {
      board.Length == 64 && nPieces.Length == 2 && kingSquare.Length == 2
      && nSpecPieces.Length0 == 2 && nSpecPieces.Length1 == 6
      && pieces.Length0 == 2 && pieces.Length1 == MAX_PIECES
      && board != nPieces && board != kingSquare && nPieces != kingSquare && nSpecPieces != pieces
    }

    ghost function PiecesRow(c: int): seq<int>
      reads this, pieces
      requires Valid() && 0 <= c < 2
    {
      seq(MAX_PIECES, i reads pieces requires 0 <= i < MAX_PIECES => pieces[c, i])
    }

    ghost function SpecRow(c: int): seq<int>
      reads this, nSpecPieces
      requires Valid() && 0 <= c < 2
    {
      seq(6, i reads nSpecPieces requires 0 <= i < 6 => nSpecPieces[c, i])
    }

    /** The lists as a value. */
    ghost function Model(): (l: Lists)
      reads this, board, nPieces, nSpecPieces, pieces, kingSquare
      requires Valid()
      ensures ListsShaped(l)
    {
      Lists(Slots(board[..], [PiecesRow(0), PiecesRow(1)], nPieces[..]), [SpecRow(0), SpecRow(1)], kingSquare[..])
    }

    constructor()
      ensures Valid() && fresh(board) && fresh(nPieces) && fresh(nSpecPieces) && fresh(pieces) && fresh(kingSquare)
      ensures Model().slots.count == [0, 0]
    {
      board := new int[64](_ => -1);
      nPieces := new int[2](_ => 0);
      nSpecPieces := new int[2, 6]((_, _) => 0);
      pieces := new int[2, MAX_PIECES]((_, _) => -1);
      kingSquare := new int[2](_ => -1);
    }

    method ResetPieceLists()
      requires Valid()
      modifies nPieces, kingSquare, board, nSpecPieces
      ensures Model() == ListsReset(old(Model()))
    {
      nPieces[WHITE] := 0;
      nPieces[BLACK] := 0;
      kingSquare[WHITE] := -1;
      kingSquare[BLACK] := -1;
      for i := 0 to 64
        invariant forall j | 0 <= j < i :: board[j] == -1
        invariant nPieces[..] == [0, 0] && kingSquare[..] == [-1, -1]
        invariant forall a, j | 0 <= a < 2 && 0 <= j < 6 :: nSpecPieces[a, j] == old(nSpecPieces[a, j])
      {
        board[i] := -1;
      }
      assert board[..] == seq(64, _ => -1);
      for i := 0 to 2
        invariant forall a, j | 0 <= a < i && 0 <= j < 6 :: nSpecPieces[a, j] == 0
        invariant board[..] == seq(64, _ => -1) && nPieces[..] == [0, 0] && kingSquare[..] == [-1, -1]
      {
        for j := 0 to 6
          invariant forall a, k | 0 <= a < i && 0 <= k < 6 :: nSpecPieces[a, k] == 0
          invariant board[..] == seq(64, _ => -1) && nPieces[..] == [0, 0] && kingSquare[..] == [-1, -1]
          invariant forall k | 0 <= k < j :: nSpecPieces[i, k] == 0
        {
          nSpecPieces[i, j] := 0;
        }
      }
      assert SpecRow(0) == [0, 0, 0, 0, 0, 0];
      assert SpecRow(1) == [0, 0, 0, 0, 0, 0];
      assert PiecesRow(0) == old(PiecesRow(0));
      assert PiecesRow(1) == old(PiecesRow(1));
    }

    /** `getKingSquare`, read-only use. */
    function GetKingSquare(color: int): (k: int)
      reads this, board, nPieces, nSpecPieces, pieces, kingSquare
      requires Valid() && 0 <= color < 2
      ensures k == Model().kingSquare[color]
    {
      kingSquare[color]
    }

    method AddPiece(square: int, color: int, pieceType: int)
      requires Valid() && 0 <= square < 64 && 0 <= color < 2 && PAWN <= pieceType <= KING
      requires 0 <= Model().slots.count[color] < MAX_PIECES
      modifies board, pieces, nPieces, nSpecPieces, kingSquare
      ensures Model() == ListsAdd(old(Model()), square, color, pieceType)
    {
      ListSquare(square, color);
      CountAdded(square, color, pieceType);
    }

    /** The slot half of `addPiece`: the square takes the next free slot of its colour. */
    method ListSquare(square: int, color: int)
      requires Valid() && 0 <= square < 64 && 0 <= color < 2
      requires 0 <= Model().slots.count[color] < MAX_PIECES
      modifies board, pieces, nPieces
      ensures Model() == old(Model()).(slots := SlotsAdd(old(Model()).slots, square, color))
    {
      board[square] := nPieces[color];
      pieces[color, nPieces[color]] := square;
      nPieces[color] := nPieces[color] + 1;
      ghost var o := old(Model());
      assert PiecesRow(color) == o.slots.pieces[color][o.slots.count[color] := square];
      assert PiecesRow(1 - color) == o.slots.pieces[1 - color];
    }

    /** The count half of `addPiece`: one more piece of the type, and the king cache for a king. */
    method CountAdded(square: int, color: int, pieceType: int)
      requires Valid() && 0 <= square < 64 && 0 <= color < 2 && PAWN <= pieceType <= KING
      modifies nSpecPieces, kingSquare
      ensures var o := old(Model());
        Model() == o.(nSpecPieces := o.nSpecPieces[color := o.nSpecPieces[color][pieceType - 1 := o.nSpecPieces[color][pieceType - 1] + 1]],
                      kingSquare := if pieceType == KING then o.kingSquare[color := square] else o.kingSquare)
    {
      nSpecPieces[color, pieceType - 1] := nSpecPieces[color, pieceType - 1] + 1;
      if pieceType == KING {
        kingSquare[color] := square;
      }
      ghost var o := old(Model());
      assert SpecRow(color) == o.nSpecPieces[color][pieceType - 1 := o.nSpecPieces[color][pieceType - 1] + 1];
      assert SpecRow(1 - color) == o.nSpecPieces[1 - color];
    }

    method RemovePiece(square: int, color: int, pieceType: int)
      requires Valid() && 0 <= square < 64 && 0 <= color < 2 && PAWN <= pieceType <= KING
      requires CanRemove(Model().slots, square, color)
      modifies board, pieces, nPieces, nSpecPieces
      ensures Model() == ListsRemove(old(Model()), square, color, pieceType)
    {
      ghost var o := old(Model());
      nPieces[color] := nPieces[color] - 1;
      nSpecPieces[color, pieceType - 1] := nSpecPieces[color, pieceType - 1] - 1;
      if nPieces[color] > 0 {
        var index := board[square];
        pieces[color, index] := pieces[color, nPieces[color]];
        board[pieces[color, index]] := index;
        assert PiecesRow(color) == o.slots.pieces[color][index := o.slots.pieces[color][nPieces[color]]];
        assert board[..] == o.slots.board[o.slots.pieces[color][nPieces[color]] := index];
      } else {
        assert PiecesRow(color) == o.slots.pieces[color];
      }
      board[square] := -1;
      assert nPieces[..] == o.slots.count[color := o.slots.count[color] - 1];
      assert PiecesRow(1 - color) == o.slots.pieces[1 - color];
      assert SpecRow(color) == o.nSpecPieces[color][pieceType - 1 := o.nSpecPieces[color][pieceType - 1] - 1];
      assert SpecRow(1 - color) == o.nSpecPieces[1 - color];
      assert o.slots.pieces == [o.slots.pieces[0], o.slots.pieces[1]];
      ghost var want := SlotsRemove(o.slots, square, color);
      assert PiecesRow(color) == want.pieces[color];
      assert PiecesRow(1 - color) == want.pieces[1 - color];
      assert board[..] == want.board;
      assert nPieces[..] == want.count;
    }

    method MovePiece(fromSquare: int, toSquare: int, color: bool)
      requires Valid() && 0 <= fromSquare < 64 && 0 <= toSquare < 64
      requires 0 <= Model().slots.board[fromSquare] < MAX_PIECES
      modifies board, pieces, kingSquare
      ensures Model() == ListsMove(old(Model()), fromSquare, toSquare, if color then WHITE else BLACK)
    {
      ghost var o := old(Model());
      var c := if color then WHITE else BLACK;
      if fromSquare == kingSquare[WHITE] {
        kingSquare[WHITE] := toSquare;
      } else if fromSquare == kingSquare[BLACK] {
        kingSquare[BLACK] := toSquare;
      }
      var index := board[fromSquare];
      board[fromSquare] := -1;
      board[toSquare] := index;
      pieces[c, index] := toSquare;
      assert PiecesRow(c) == o.slots.pieces[c][index := toSquare];
      assert PiecesRow(1 - c) == o.slots.pieces[1 - c];
      assert SpecRow(0) == o.nSpecPieces[0];
      assert SpecRow(1) == o.nSpecPieces[1];
    }

    /** One piece of `color` changes type: the two count updates `updatePromotion` and `unmakeMove` write in place. */
    method RecountPieces(color: int, fromType: int, toType: int)
      requires Valid() && 0 <= color < 2 && PAWN <= fromType <= KING && PAWN <= toType <= KING
      modifies nSpecPieces
      ensures var l := old(Model());
        Model() == l.(nSpecPieces := l.nSpecPieces[color := Recount(l.nSpecPieces[color], fromType, toType)])
    {
      ghost var l := Model();
      nSpecPieces[color, fromType - 1] := nSpecPieces[color, fromType - 1] - 1;
      nSpecPieces[color, toType - 1] := nSpecPieces[color, toType - 1] + 1;
      assert SpecRow(color) == Recount(l.nSpecPieces[color], fromType, toType);
      assert SpecRow(1 - color) == l.nSpecPieces[1 - color];
      assert PiecesRow(0) == l.slots.pieces[0];
      assert PiecesRow(1) == l.slots.pieces[1];
    }
  }
}
