/**
 * The board of the index model (src/index_model/mailbox.h): 64 squares
 * numbered row by row from a8 (0) to h1 (63), and the 10x12 padded table
 * that turns a step in a fixed direction into "the square reached, or -1
 * when the step leaves the board".
 */
module Mailboxes {
  import opened Pieces
  import opened Moves

  /** The padded table: the 8x8 board inside a frame two rows high and one column wide. */
  const MAILBOX: seq<int> :=
    [-1, -1, -1, -1, -1, -1, -1, -1, -1, -1] +
    [-1, -1, -1, -1, -1, -1, -1, -1, -1, -1] +
    [-1,  0,  1,  2,  3,  4,  5,  6,  7, -1] +
    [-1,  8,  9, 10, 11, 12, 13, 14, 15, -1] +
    [-1, 16, 17, 18, 19, 20, 21, 22, 23, -1] +
    [-1, 24, 25, 26, 27, 28, 29, 30, 31, -1] +
    [-1, 32, 33, 34, 35, 36, 37, 38, 39, -1] +
    [-1, 40, 41, 42, 43, 44, 45, 46, 47, -1] +
    [-1, 48, 49, 50, 51, 52, 53, 54, 55, -1] +
    [-1, 56, 57, 58, 59, 60, 61, 62, 63, -1] +
    [-1, -1, -1, -1, -1, -1, -1, -1, -1, -1] +
    [-1, -1, -1, -1, -1, -1, -1, -1, -1, -1]

  /** Where each board square sits in the padded table. */
  const MAILBOX64: seq<int> :=
    [21, 22, 23, 24, 25, 26, 27, 28] +
    [31, 32, 33, 34, 35, 36, 37, 38] +
    [41, 42, 43, 44, 45, 46, 47, 48] +
    [51, 52, 53, 54, 55, 56, 57, 58] +
    [61, 62, 63, 64, 65, 66, 67, 68] +
    [71, 72, 73, 74, 75, 76, 77, 78] +
    [81, 82, 83, 84, 85, 86, 87, 88] +
    [91, 92, 93, 94, 95, 96, 97, 98]

  /** The padded table in closed form: cell (row, column) of the 12x10 grid. */
  function Padded(i: int): int
  {
    if 2 <= i / 10 <= 9 && 1 <= i % 10 <= 8 then (i / 10 - 2) * 8 + i % 10 - 1 else -1
  }

  /** Every cell of the padded table holds its closed form. */
  lemma PaddedClosedForm(i: int)
    requires 0 <= i < 120
    ensures MAILBOX[i] == Padded(i)
  {
    if i < 30 {
      PaddedPart0(i);
    } else if i < 60 {
      PaddedPart1(i);
    } else if i < 90 {
      PaddedPart2(i);
    } else {
      PaddedPart3(i);
    }
  }

  lemma PaddedPart0(i: int)
    requires 0 <= i < 30
    ensures MAILBOX[i] == Padded(i)
  {
    match i
    case 0 =>
    case 1 =>
    case 2 =>
    case 3 =>
    case 4 =>
    case 5 =>
    case 6 =>
    case 7 =>
    case 8 =>
    case 9 =>
    case 10 =>
    case 11 =>
    case 12 =>
    case 13 =>
    case 14 =>
    case 15 =>
    case 16 =>
    case 17 =>
    case 18 =>
    case 19 =>
    case 20 =>
    case 21 =>
    case 22 =>
    case 23 =>
    case 24 =>
    case 25 =>
    case 26 =>
    case 27 =>
    case 28 =>
    case _ =>
  }

  lemma PaddedPart1(i: int)
    requires 30 <= i < 60
    ensures MAILBOX[i] == Padded(i)
  {
    match i
    case 30 =>
    case 31 =>
    case 32 =>
    case 33 =>
    case 34 =>
    case 35 =>
    case 36 =>
    case 37 =>
    case 38 =>
    case 39 =>
    case 40 =>
    case 41 =>
    case 42 =>
    case 43 =>
    case 44 =>
    case 45 =>
    case 46 =>
    case 47 =>
    case 48 =>
    case 49 =>
    case 50 =>
    case 51 =>
    case 52 =>
    case 53 =>
    case 54 =>
    case 55 =>
    case 56 =>
    case 57 =>
    case 58 =>
    case _ =>
  }

  lemma PaddedPart2(i: int)
    requires 60 <= i < 90
    ensures MAILBOX[i] == Padded(i)
  {
    match i
    case 60 =>
    case 61 =>
    case 62 =>
    case 63 =>
    case 64 =>
    case 65 =>
    case 66 =>
    case 67 =>
    case 68 =>
    case 69 =>
    case 70 =>
    case 71 =>
    case 72 =>
    case 73 =>
    case 74 =>
    case 75 =>
    case 76 =>
    case 77 =>
    case 78 =>
    case 79 =>
    case 80 =>
    case 81 =>
    case 82 =>
    case 83 =>
    case 84 =>
    case 85 =>
    case 86 =>
    case 87 =>
    case 88 =>
    case _ =>
  }

  lemma PaddedPart3(i: int)
    requires 90 <= i < 120
    ensures MAILBOX[i] == Padded(i)
  {
    match i
    case 90 =>
    case 91 =>
    case 92 =>
    case 93 =>
    case 94 =>
    case 95 =>
    case 96 =>
    case 97 =>
    case 98 =>
    case 99 =>
    case 100 =>
    case 101 =>
    case 102 =>
    case 103 =>
    case 104 =>
    case 105 =>
    case 106 =>
    case 107 =>
    case 108 =>
    case 109 =>
    case 110 =>
    case 111 =>
    case 112 =>
    case 113 =>
    case 114 =>
    case 115 =>
    case 116 =>
    case 117 =>
    case 118 =>
    case _ =>
  }

  /** Square `s` sits at row s / 8 + 2 and column s % 8 + 1 of the padded grid. */
  lemma Mailbox64ClosedForm(s: int)
    requires 0 <= s < 64
    ensures MAILBOX64[s] == 21 + 10 * (s / 8) + s % 8
  {
    match s
    case 0 =>
    case 1 =>
    case 2 =>
    case 3 =>
    case 4 =>
    case 5 =>
    case 6 =>
    case 7 =>
    case 8 =>
    case 9 =>
    case 10 =>
    case 11 =>
    case 12 =>
    case 13 =>
    case 14 =>
    case 15 =>
    case 16 =>
    case 17 =>
    case 18 =>
    case 19 =>
    case 20 =>
    case 21 =>
    case 22 =>
    case 23 =>
    case 24 =>
    case 25 =>
    case 26 =>
    case 27 =>
    case 28 =>
    case 29 =>
    case 30 =>
    case 31 =>
    case 32 =>
    case 33 =>
    case 34 =>
    case 35 =>
    case 36 =>
    case 37 =>
    case 38 =>
    case 39 =>
    case 40 =>
    case 41 =>
    case 42 =>
    case 43 =>
    case 44 =>
    case 45 =>
    case 46 =>
    case 47 =>
    case 48 =>
    case 49 =>
    case 50 =>
    case 51 =>
    case 52 =>
    case 53 =>
    case 54 =>
    case 55 =>
    case 56 =>
    case 57 =>
    case 58 =>
    case 59 =>
    case 60 =>
    case 61 =>
    case 62 =>
    case _ =>
  }

  /** The two tables are inverse: a square's padded cell maps back to the square. */
  lemma TablesInverse(s: int)
    requires 0 <= s < 64
    ensures 21 <= MAILBOX64[s] <= 98
    ensures MAILBOX[MAILBOX64[s]] == s
  {
    Mailbox64ClosedForm(s);
    PaddedClosedForm(MAILBOX64[s]);
    GridCell(s / 8 + 2, s % 8 + 1);
  }

  /** Every cell of the padded table that is not -1 is the cell of the square it names. */
  lemma TablesInverseBack(i: int)
    requires 0 <= i < 120 && MAILBOX[i] != -1
    ensures 0 <= MAILBOX[i] < 64 && MAILBOX64[MAILBOX[i]] == i
  {
    PaddedClosedForm(i);
    var s := MAILBOX[i];
    BoardCell(i / 10 - 2, i % 10 - 1);
    Mailbox64ClosedForm(s);
  }

  /** Cell arithmetic of the 10-wide padded grid. */
  lemma GridCell(row: int, col: int)
    requires 0 <= col < 10
    ensures (10 * row + col) / 10 == row && (10 * row + col) % 10 == col
  {
  }

  /** Square arithmetic of the 8-wide board. */
  lemma BoardCell(row: int, col: int)
    requires 0 <= col < 8
    ensures (8 * row + col) / 8 == row && (8 * row + col) % 8 == col
  {
  }

  /** `getRow`: the row of a square, 0 for the eighth rank. */
  function GetRow(square: int): (r: int)
    requires 0 <= square < 64
    ensures 0 <= r < 8 && 8 * r <= square < 8 * r + 8
  {
    square / 8
  }

  /** `getColumn`: the column of a square, 0 for the a-file. */
  function GetColumn(square: int): (c: int)
    requires 0 <= square < 64
    ensures 0 <= c < 8 && square == 8 * GetRow(square) + c
  {
    square % 8
  }

  /** The padded-grid cell of square `s` in closed form: row s / 8 + 2, column s % 8 + 1. */
  function Cell64(s: int): int
  {
    21 + 10 * (s / 8) + s % 8
  }

  /**
   * `getSquareWithOffset`: the square reached from `fromSquare` by a step
   * of `offset` cells of the padded grid, or -1 off the board. The lookup
   * is computed through the closed forms of the two tables;
   * `GetSquareWithOffsetIsLookup` shows it is the source's table lookup.
   */
  function GetSquareWithOffset(fromSquare: int, offset: int): (r: int)
    requires 0 <= fromSquare < 64 && -21 <= offset <= 21
    ensures r == -1 || 0 <= r < 64
    ensures r != -1 ==> Cell64(r) == Cell64(fromSquare) + offset
  {
    Padded(Cell64(fromSquare) + offset)
  }

  /** The two tables have the sizes the source declares. */
  lemma TableLengths()
    ensures |MAILBOX64| == 64 && |MAILBOX| == 120
  {
  }

  /** The step never leaves the padded table, and it reads the table entry the source reads. */
  lemma GetSquareWithOffsetIsLookup(fromSquare: int, offset: int)
    requires 0 <= fromSquare < 64 && -21 <= offset <= 21
    ensures 0 <= MAILBOX64[fromSquare] + offset < 120
    ensures GetSquareWithOffset(fromSquare, offset) == MAILBOX[MAILBOX64[fromSquare] + offset]
  {
    hide MAILBOX, MAILBOX64, Padded;
    TableLengths();
    Mailbox64ClosedForm(fromSquare);
    var i := MAILBOX64[fromSquare] + offset;
    assert i == Cell64(fromSquare) + offset;
    PaddedClosedForm(i);
  }

  /** The file part of a step of the padded grid, taken in -5 .. 4. */
  function FileStep(offset: int): int
  {
    (offset + 5) % 10 - 5
  }

  /** The rank part of a step: what is left of the offset once the file part is taken out, in rows. */
  function RankStep(offset: int): int
  {
    (offset - FileStep(offset)) / 10
  }

  /**
   * The padded grid does its job: a step that moves at most two files
   * lands off the board exactly when the rank or the file leaves 0 .. 7,
   * and otherwise on the square so many rows and columns away.
   */
  lemma OffsetGeometry(fromSquare: int, offset: int)
    requires 0 <= fromSquare < 64 && -21 <= offset <= 21
    requires -2 <= FileStep(offset) <= 2
    ensures var row, col := GetRow(fromSquare) + RankStep(offset), GetColumn(fromSquare) + FileStep(offset);
      GetSquareWithOffset(fromSquare, offset) ==
        if 0 <= row < 8 && 0 <= col < 8 then fromSquare + 8 * RankStep(offset) + FileStep(offset) else -1
  {
    var r, c := GetRow(fromSquare), GetColumn(fromSquare);
    var dr, df := RankStep(offset), FileStep(offset);
    StepParts(offset);
    var i := Cell64(fromSquare) + offset;
    assert i == 10 * (r + dr + 2) + (c + df + 1);
    assert GetSquareWithOffset(fromSquare, offset) == Padded(i);
    if c + df + 1 < 0 {
      GridCell(r + dr + 1, 9);
      assert Padded(i) == -1;
    } else if c + df + 1 > 9 {
      GridCell(r + dr + 3, 0);
      assert Padded(i) == -1;
    } else {
      GridCell(r + dr + 2, c + df + 1);
      assert i / 10 == r + dr + 2;
      assert i % 10 == c + df + 1;
    }
  }

  /** A step of at most 21 cells splits into at most two rows and a file part. */
  lemma StepParts(offset: int)
    requires -21 <= offset <= 21
    ensures offset == 10 * RankStep(offset) + FileStep(offset)
    ensures -5 <= FileStep(offset) < 5
    ensures -2 <= FileStep(offset) <= 2 ==> -2 <= RankStep(offset) <= 2
  {
    var q := (offset + 5) / 10;
    assert offset + 5 == 10 * q + (offset + 5) % 10;
    GridCell(q, 0);
    assert offset - FileStep(offset) == 10 * q;
  }

  /**
   * `getRookMoveFromCastle`: where the rook goes in a castle. For a king
   * castling from the e-file two files towards a corner, the rook leaves
   * that corner and lands on the square the king crossed.
   */
  function GetRookMoveFromCastle(move: Move): (r: (int, int))
    ensures move.From() % 8 == 4 && move.To() == move.From() + (if move.IsQueenCastle() then -2 else 2) ==>
      r.0 == move.From() - 4 + (if move.IsQueenCastle() then 0 else 7) && r.1 == (move.From() + move.To()) / 2
  {
    if move.IsQueenCastle() then (move.From() - 4, move.From() - 1) else (move.From() + 3, move.From() + 1)
  }

  /** `getCapturedEpSquare`: the square on the mover's row and the destination's column. */
  function GetCapturedEpSquare(move: Move): (s: int)
    ensures 0 <= s < 64
    ensures GetRow(s) == GetRow(move.From()) && GetColumn(s) == GetColumn(move.To())
  {
    move.From() + ((move.To() % 8) - (move.From() % 8))
  }

  /** The square whose piece a capture takes: beside the mover for en passant, the destination otherwise. */
  function CapturedSquare(m: Move): (s: int)
    ensures 0 <= s < 64
    ensures !m.IsEpCapture() ==> s == m.To()
    ensures m.IsEpCapture() ==> GetRow(s) == GetRow(m.From()) && GetColumn(s) == GetColumn(m.To())
  {
    if m.IsEpCapture() then GetCapturedEpSquare(m) else m.To()
  }

  /**
   * `movePiece` on a board value: the destination gets the moving piece,
   * and the origin keeps its old colour and flag bits under an empty type.
   */
  function MovePieceOn(board: seq<Piece>, fromSquare: int, toSquare: int): (r: seq<Piece>)
    requires |board| == 64 && 0 <= fromSquare < 64 && 0 <= toSquare < 64
    ensures |r| == 64
    ensures fromSquare != toSquare ==> r[toSquare] == board[fromSquare]
    ensures r[fromSquare].Type() == EMPTY
    ensures r[fromSquare].Color() == board[fromSquare].Color() && r[fromSquare].Flags() == board[fromSquare].Flags()
    ensures forall s :: 0 <= s < 64 && s != fromSquare && s != toSquare ==> r[s] == board[s]
  {
    var b := board[toSquare := board[fromSquare]];
    b[fromSquare := b[fromSquare].WithType(EMPTY)]
  }

  /** The board proper: 64 pieces, updated in place. */
  class Mailbox {
    const chessBoard: array<Piece>

    ghost predicate Valid()
      reads this
    {
      chessBoard.Length == 64
    }

    /** The board as a value. */
    ghost function Board(): seq<Piece>
      reads this, chessBoard
    {
      chessBoard[..]
    }

    constructor()
      ensures Valid() && fresh(chessBoard)
      ensures forall s :: 0 <= s < 64 ==> chessBoard[s] == DefaultPiece()
    {
      chessBoard := new Piece[64](_ => DefaultPiece());
    }

    /** `movePiece`, in place. */
    method MovePiece(fromSquare: int, toSquare: int)
      requires Valid() && 0 <= fromSquare < 64 && 0 <= toSquare < 64
      modifies chessBoard
      ensures Board() == MovePieceOn(old(Board()), fromSquare, toSquare)
    {
      chessBoard[toSquare] := chessBoard[fromSquare];
      chessBoard[fromSquare] := chessBoard[fromSquare].WithType(EMPTY);
    }

    /** `operator[]`, read-only use. */
    function Get(square: int): (p: Piece)
      reads this, chessBoard
      requires Valid() && 0 <= square < 64
      ensures p == Board()[square]
    {
      chessBoard[square]
    }

    /** `operator[]` then `setType`: only that square's type changes. */
    method SetType(square: int, t: int)
      requires Valid() && 0 <= square < 64
      modifies chessBoard
      ensures Board() == old(Board())[square := old(Board())[square].WithType(t)]
    {
      chessBoard[square] := chessBoard[square].WithType(t);
    }

    /** `operator[]` then `setFlags`: only that square's flags change. */
    method SetFlags(square: int, f: int)
      requires Valid() && 0 <= square < 64
      modifies chessBoard
      ensures Board() == old(Board())[square := old(Board())[square].WithFlags(f)]
    {
      chessBoard[square] := chessBoard[square].WithFlags(f);
    }

    /** `operator[]` then assignment: the square holds `piece`. */
    method Put(square: int, piece: Piece)
      requires Valid() && 0 <= square < 64
      modifies chessBoard
      ensures Board() == old(Board())[square := piece]
    {
      chessBoard[square] := piece;
    }
  }
}
