# chess-3d index model, in Dafny

This project models the chess rules engine of chess-3d, the "index model"
that the 3D front end drives, and proves properties of it. The model covers:

- pieces packed into a byte: type, colour, and the MOVED / EN_PASSANT
  status bits;
- moves packed into a 16-bit word: from, to and a 4-bit kind;
- the move list, with swap-remove;
- the made-move history, with its redo horizon;
- the 10x12 mailbox board and its square arithmetic;
- the per-colour piece lists, with a reverse index, per-type counts and a
  king-square cache;
- pseudo-legal move generation and the `squareIsAttacked` query, following
  the move rules of Article 3 of the FIDE Laws of Chess;
- `makeMove` / `unmakeMove` and their round trip;
- the two-phase promotion;
- the legality filter (simulate, test the king, undo);
- game-ending classification;
- loading a position from the first fields of Forsyth-Edwards Notation
  (section 16.1 of the PGN Standard);
- the square-name table of the front end;
- the earlier `IndexModel/` drafts: `reverseMove` and the draft piece list.

## How the model is built

The model has two layers.

- **Specification layer.** Pure datatypes and functions.
  - `Piece`, `Move` and `MadeMove` are values.
  - `Position` is a whole board state: squares, lists, side, clock, en passant square, pending promotion.
  - `Make`, `Unmake`, `GenMoves`, `SquareIsAttacked`, `Filtered` and `GameEnding` are functions on these values.
- **Imperative layer.** The source's objects become classes: `Mailbox`, `PieceList`, `ChessMoves`, `MadeMoves`, `ChessBoardIndex`, `DraftPieceList` and `ChessNameStore`.
  - Their fields are arrays that the methods update in place.
  - Each method's `ensures` ties the new state to the specification layer. For example, `availableMoves.Contents() == GenMoves(...)`, and `Model() == Make(old(Model()), ...)`.

The main properties proved:

| property | where |
|---|---|
| make/unmake round trip | `Positions.MakeUnmake` |
| a move and a completed promotion keep the position sound, so moves can follow moves | `Soundness.MakeSound`, `Soundness.PromoteSound` |
| the piece counters keep tallying the board through moves, promotions and loads, so the material verdict speaks about the pieces on the board | `Material.MakeTallied`, `Material.PromoteTallied`, `Material.LoadedTallied`, `Material.TalliedEnding` |
| `squareIsAttacked` agrees with a declarative definition of "attacked" | `Attacks.SquareIsAttackedIff` |
| the filter keeps exactly the moves that are not rejected, and leaves an equivalent board | `Filters.FilteredIsKept`, `Boards.ChessBoardIndex.FilterPseudoLegalMoves` |
| the generator appends exactly the moves its specification lists | `MoveGenerator.UpdatePossibleMoves` |
| the piece lists keep their reverse index consistent | `PieceLists.*KeepsConsistent` |
| the bit packings round-trip | `Pieces.*Packed`, `Moves.*Packed` |

All sources below are under `src/index_model/`, `IndexModel/` and `src/model/` of the repository.

## Model

| member | source | states |
|---|---|---|
| `Pieces.Piece.WithType` | IndexModel/chessPiece.h:37 | `setType` sets the type to the low three bits of its argument and keeps colour and flags |
| `Pieces.Piece.WithColor` | IndexModel/chessPiece.h:38 | `setColor` sets the colour to the low bit and keeps type and flags |
| `Pieces.Piece.WithFlags` | IndexModel/chessPiece.h:39 | `setFlags` sets the two status bits and keeps type and colour |
| `Pieces.Piece.Packed` | IndexModel/chessPiece.h:20-25 | the packed piece fits in six bits (type bits 0-2, colour bit 3, flags bits 4-5) |
| `Pieces.NewPiece` | IndexModel/chessPiece.h:23-25 | the constructor masks each field; in-range arguments read back unchanged through the getters |
| `Pieces.DefaultPiece` | IndexModel/chessPiece.h:27-29 | the default piece is EMPTY, BLACK, with no flags (byte 0), neither moved nor capturable en passant |
| `Pieces.UnpackPacked` | IndexModel/chessPiece.h:33-35 | reading the three getters from the packed byte gives back the piece |
| `Pieces.PackUnpacked` | IndexModel/chessPiece.h:24 | every six-bit byte is the packing of the piece its getters read |
| `Pieces.WithTypeOnByte` | IndexModel/chessPiece.h:37 | `setType` on the packed byte is the source's clear-and-or with mask 0x07 |
| `Pieces.WithColorOnByte` | IndexModel/chessPiece.h:38 | `setColor` on the packed byte is the clear-and-or with mask 0x08 |
| `Pieces.WithFlagsOnByte` | IndexModel/chessPiece.h:39 | `setFlags` on the packed byte is the clear-and-or with mask 0x30 |
| `Pieces.FlagPredicatesOnByte` | IndexModel/chessPiece.h:41-42 | `hasMoved` iff bit 4 is set; `canBeCapturedEP` iff bit 5 is set |
| `Pieces.EqualsIffSamePiece` | IndexModel/chessPiece.h:44-45 | `==` on the low six bits holds iff type, colour and flags all agree |
| `Pieces.SetFlagsOverwrites` | IndexModel/chessPiece.h:15-16 | setting MOVED clears EN_PASSANT and setting EN_PASSANT clears MOVED |
| `Moves.Move.WithTo` | src/index_model/move.h:42 | `setTo` replaces the destination with its low six bits and keeps from and kind |
| `Moves.Move.WithFrom` | src/index_model/move.h:43 | `setFrom` replaces the origin and keeps to and kind |
| `Moves.Move.WithFlags` | src/index_model/move.h:44 | `setFlags` replaces the kind with its low four bits and keeps from and to |
| `Moves.NewMove` | src/index_model/move.h:29-31 | the constructor masks its fields; in-range arguments read back unchanged |
| `Moves.NewMoveKeeps` | src/index_model/move.h:29-31 | an in-range origin and kind read back unchanged whatever the destination |
| `Moves.NullMove` | src/index_model/move.h:32-34 | the default move is 0 to 0, QUIET_MOVE |
| `Moves.KindPredicates` | src/index_model/move.h:6-19 | `isCapture` iff the kind is CAPTURE, EP_CAPTURE or a promotion-capture; `isPromotion` iff kind >= 8; `isCastle` iff KING_CASTLE or QUEEN_CASTLE; a castle is neither capture nor promotion |
| `Moves.KindPredicatesOnWord` | src/index_model/move.h:46-49 | the predicates agree with the source's bit tests on the packed word (bit 14, bit 15, kind or 1 equal to 3) |
| `Moves.UnpackPacked` | src/index_model/move.h:38-40 | reading the getters from the packed word gives back the move |
| `Moves.PackUnpacked` | src/index_model/move.h:30 | every 16-bit word is the packing of the move its getters read |
| `Moves.EqualsIffSameMove` | src/index_model/move.h:54-55 | two moves compare equal iff from, to and kind agree |
| `Moves.WithToOnWord` | src/index_model/move.h:42 | `setTo` on the word is the clear-and-or with mask 0x3f |
| `Moves.WithFromOnWord` | src/index_model/move.h:43 | `setFrom` on the word is the clear-and-or with mask 0xfc0 |
| `Moves.WithFlagsOnWord` | src/index_model/move.h:44 | `setFlags` on the word is the clear-and-or with mask 0xf000 |
| `Moves.SwapRemove` | src/index_model/move.h:75-79 | removing entry i leaves one entry fewer, keeps the entries before i, moves the last entry into slot i, and the multiset loses exactly entry i |
| `Moves.ChessMoves.constructor` | src/index_model/move.h:59-63 | a new move list is empty |
| `Moves.ChessMoves.Get` | src/index_model/move.h:65-66 | indexing returns the i-th listed move |
| `Moves.ChessMoves.ResetMoves` | src/index_model/move.h:68 | the list becomes empty |
| `Moves.ChessMoves.AddMove` | src/index_model/move.h:70-73 | the list becomes the old list followed by the new move; earlier entries are unchanged |
| `Moves.ChessMoves.RemoveMove` | src/index_model/move.h:75-79 | an in-range index swap-removes that entry; any other index leaves the list unchanged |
| `Moves.DefaultMadeMove` | src/index_model/move.h:83-89 | the value-initialised record is all zero: null move, default piece, no flags, clock 0 |
| `Moves.OrPromotion` | src/index_model/move.h:124-127 | or-ing a choice of any `int` into a record's move keeps from and to and, as `setFlags` masks it, keeps only four kind bits; on a kind whose low two bits are clear a choice 0..3 is added; a choice that is 0 modulo 16 changes nothing |
| `Moves.PromoteLast` | src/index_model/move.h:124-127 | only the newest record changes, and it gets the promotion choice or-ed into its move |
| `Moves.MadeMoves.constructor` | src/index_model/move.h:91-96 | a new history has nothing played and nothing to replay |
| `Moves.MadeMoves.ResetMadeMoves` | src/index_model/move.h:98-101 | played and replayable parts both become empty |
| `Moves.MadeMoves.AddMove` | src/index_model/move.h:103-107 | the played part grows by the record; the first replayable record is overwritten; the horizon rises to at least the new count; slots past the count are kept |
| `Moves.MadeMoves.PopLastMove` | src/index_model/move.h:109-111 | the newest played record moves to the front of the replayable part; played + replayable is unchanged |
| `Moves.MadeMoves.GetLastMove` | src/index_model/move.h:113-116 | the newest played record, or the default record when nothing was played |
| `Moves.MadeMoves.GetNextMove` | src/index_model/move.h:118-122 | the first replayable record, or the default record when there is none; the counter does not move |
| `Moves.MadeMoves.UpdateLastPromotionMove` | src/index_model/move.h:124-127 | the played part becomes `PromoteLast` of the old one; the replayable part is kept |
| `Mailboxes.PaddedClosedForm` | src/index_model/mailbox.h:11-24 | the 120-entry table is -1 on the border and numbers the 8x8 interior row by row |
| `Mailboxes.Mailbox64ClosedForm` | src/index_model/mailbox.h:26-35 | `mailbox64[s] == 21 + 10*(s/8) + s%8` |
| `Mailboxes.TablesInverse` | src/index_model/mailbox.h:11-35 | `mailbox[mailbox64[s]] == s` for every square |
| `Mailboxes.TablesInverseBack` | src/index_model/mailbox.h:11-35 | every interior cell maps to a square whose `mailbox64` entry is that cell |
| `Mailboxes.GetRow` | src/index_model/mailbox.h:49 | the row r of a square satisfies `8r <= s < 8r+8` |
| `Mailboxes.GetColumn` | src/index_model/mailbox.h:50 | the column c of a square satisfies `s == 8*row + c` |
| `Mailboxes.GetSquareWithOffset` | src/index_model/mailbox.h:51 | the result is -1 or a square whose padded cell is exactly `offset` cells from the origin's |
| `Mailboxes.GetSquareWithOffsetIsLookup` | src/index_model/mailbox.h:51 | for offsets up to 21 the lookup stays inside the 120 cells and equals the source's double table lookup |
| `Mailboxes.OffsetGeometry` | src/index_model/mailbox.h:51 | the result is -1 exactly when the rank/file displacement leaves the board, otherwise the square that many ranks and files away |
| `Mailboxes.GetRookMoveFromCastle` | src/index_model/mailbox.h:53-56 | for an e-file king castling two files, the rook leaves that side's corner and lands on the square the king crosses |
| `Mailboxes.GetCapturedEpSquare` | src/index_model/mailbox.h:57 | the square is on the board, on the mover's row and the destination's column |
| `Mailboxes.MovePieceOn` | src/index_model/mailbox.h:59-62 | `to` receives `from`'s piece; `from` becomes EMPTY but keeps colour and flags; other squares are unchanged |
| `Mailboxes.Mailbox.constructor` | src/index_model/mailbox.h:37 | a new board holds default pieces |
| `Mailboxes.Mailbox.MovePiece` | src/index_model/mailbox.h:59-62 | the board becomes `MovePieceOn` of the old board |
| `Mailboxes.Mailbox.Get` | src/index_model/mailbox.h:41-43 | indexing reads the square |
| `Mailboxes.Mailbox.SetType` | src/index_model/mailbox.h:45-47 | writing through `operator[]` with `setType` changes only that square's type |
| `Mailboxes.Mailbox.SetFlags` | src/index_model/mailbox.h:45-47 | writing through `operator[]` with `setFlags` changes only that square's flags |
| `Mailboxes.Mailbox.Put` | src/index_model/mailbox.h:45-47 | assigning through `operator[]` replaces only that square |
| `PieceLists.SlotsAdd` | src/index_model/piece_list.h:35-38 | appending a square keeps the list shape |
| `PieceLists.SlotsRemove` | src/index_model/piece_list.h:43-52 | the swap-remove keeps the list shape |
| `PieceLists.SlotsMove` | src/index_model/piece_list.h:58-61 | renaming a slot keeps the shape and the counts |
| `PieceLists.UnlistedIndex` | src/index_model/piece_list.h:10 | in a consistent list a square is unlisted iff its reverse entry is -1 |
| `PieceLists.ListedOnce` | src/index_model/piece_list.h:10-15 | no square is listed for both colours |
| `PieceLists.AddKeepsConsistent` | src/index_model/piece_list.h:35-41 | adding an unlisted square keeps the reverse index consistent; afterwards the listed squares are the old ones plus the new one |
| `PieceLists.RemoveKeepsConsistent` | src/index_model/piece_list.h:43-52 | removing a listed square keeps the reverse index consistent; afterwards the listed squares are the old ones minus that one |
| `PieceLists.MoveKeepsConsistent` | src/index_model/piece_list.h:58-61 | moving a listed square to an unlisted one keeps the index consistent and renames exactly that square |
| `PieceLists.ListsReset` | src/index_model/piece_list.h:21-31 | nothing is listed, counts and per-type counts are 0, kings are -1; the list arrays are not cleared |
| `PieceLists.ListsAdd` | src/index_model/piece_list.h:35-41 | the count and one per-type count of that colour rise by one and nothing else does; the king cache is set only for a king |
| `PieceLists.ListsRemove` | src/index_model/piece_list.h:43-52 | the count and one per-type count fall by one and nothing else does; the king cache is unchanged |
| `PieceLists.ListsMove` | src/index_model/piece_list.h:54-62 | counts are unchanged; the king cache follows the king that stood on `from` (white checked first) and no other |
| `PieceLists.KingMoved` | src/index_model/piece_list.h:55-56 | the king cache keeps two entries |
| `PieceLists.RecountBack` | src/index_model/board.h:186-188 | shifting one count from type a to b and back restores the per-type counts |
| `PieceLists.PieceList.constructor` | src/index_model/piece_list.h:13-16 | a new list has zero pieces of each colour |
| `PieceLists.PieceList.ResetPieceLists` | src/index_model/piece_list.h:21-31 | the state becomes `ListsReset` of the old state |
| `PieceLists.PieceList.GetKingSquare` | src/index_model/piece_list.h:33 | reads the king cache of a colour |
| `PieceLists.PieceList.AddPiece` | src/index_model/piece_list.h:35-41 | the state becomes `ListsAdd` of the old state |
| `PieceLists.PieceList.RemovePiece` | src/index_model/piece_list.h:43-52 | the state becomes `ListsRemove` of the old state |
| `PieceLists.PieceList.MovePiece` | src/index_model/piece_list.h:54-62 | the state becomes `ListsMove` of the old state |
| `Directions.Offset` | src/index_model/move_gen.h:11-18 | every table offset is at most 21 cells and at most two files; the offsets a piece uses are non-zero |
| `Directions.DirectionCount` | src/index_model/move_gen.h:19 | each piece has at most eight directions and only the pawn has none |
| `Directions.Walk` | src/index_model/move_gen.h:39-54 | walking k steps along a direction stays on the board or gives -1; zero steps is the square itself and one step is `getSquareWithOffset` |
| `Directions.WalkPrefix` | src/index_model/move_gen.h:39-54 | a square reached after k steps was reached after every shorter walk |
| `Attacks.OpposingPawnOffset` | src/index_model/move_gen.h:134-136 | the pawn probe row is one rank towards the enemy: -10 or +10 cells |
| `Attacks.RayAttackReach` | src/index_model/move_gen.h:119-131 | the probe along one direction answers true iff the attacker is the first occupied square seen that way (one step for knight and king) |
| `Attacks.DirectionsAttackReach` | src/index_model/move_gen.h:118-132 | the loop over a piece's directions is true iff some direction sees the attacker |
| `Attacks.PiecesAttackReach` | src/index_model/move_gen.h:116-133 | the loop over knight..king is true iff some such piece attacks the square |
| `Attacks.PawnProbesReach` | src/index_model/move_gen.h:134-140 | the two pawn probes are true iff an enemy pawn stands one rank towards the enemy and one file to either side |
| `Attacks.SquareIsAttackedIff` | src/index_model/move_gen.h:115-143 | `squareIsAttacked` is true iff some piece not of the given colour attacks the square, by the declarative definition |
| `MoveGen.RayMovesReach` | src/index_model/move_gen.h:39-54 | one ray adds a move iff it is a quiet move onto an empty square or a capture of the other colour on a square the piece sees along that direction |
| `MoveGen.RayMovesFit` | src/index_model/move_gen.h:39-54 | every ray move starts on the piece's square, is QUIET onto an empty square or CAPTURE onto the other colour |
| `MoveGen.DirectionMovesReach` | src/index_model/move_gen.h:36-55 | the direction loop adds a move iff some direction's ray adds it |
| `MoveGen.DirectionMovesFit` | src/index_model/move_gen.h:36-55 | every non-pawn move fits its destination |
| `MoveGen.HomeRow` | src/index_model/move_gen.h:59-60 | the castling row is 0 or 7 |
| `MoveGen.CastleMoves` | src/index_model/move_gen.h:57-81 | at most two castles, and only for an unmoved king |
| `MoveGen.CastleMovesSpec` | src/index_model/move_gen.h:57-81 | the queen-side castle to row*8+2 is generated iff the king is unmoved, the a-file corner holds an unmoved rook and row*8+1..3 are empty; the king-side castle to row*8+6 likewise with the h-file corner and row*8+5..6; nothing else is generated; attacked squares are not checked |
| `MoveGen.Forward` | src/index_model/move_gen.h:87-88 | a pawn pushes -8 or +8 |
| `MoveGen.Promotions` | src/index_model/move_gen.h:96-101 | exactly four moves, knight to queen, with the promotion or promotion-capture kinds |
| `MoveGen.PromotionsSpec` | src/index_model/move_gen.h:96-101 | each is a promotion onto `to`, a capture exactly when asked, never en passant |
| `MoveGen.PawnPushes` | src/index_model/move_gen.h:95-107 | a pawn has pushes iff the square ahead is empty |
| `MoveGen.PawnPushesSpec` | src/index_model/move_gen.h:95-107 | pushes never capture and land on empty squares; they are promotions iff from the row before promotion; a double push comes only from the starting row over an empty square |
| `MoveGen.PawnPushesReach` | src/index_model/move_gen.h:95-107 | a push is generated iff the square ahead is empty and it is the quiet step, one of the four promotions from the row before promotion, or the double push from the starting row over two empty squares |
| `MoveGen.PawnCaptures` | src/index_model/move_gen.h:148-172 | at most four captures on one side |
| `MoveGen.PawnCapturesSpec` | src/index_model/move_gen.h:148-172 | all pawn captures are captures; en passant iff the side square holds a pawn flagged EN_PASSANT; otherwise they land on the diagonal square on the other colour and are promotions iff from the row before promotion |
| `MoveGen.PawnCapturesReach` | src/index_model/move_gen.h:151-171 | a capture on one side is generated iff it is the en passant capture behind a pawn flagged EN_PASSANT beside the mover, or, with no such pawn, the capture (four promotion captures from the row before promotion) of an enemy on the diagonal |
| `MoveGen.PawnMovesReach` | src/index_model/move_gen.h:85-111 | a pawn's moves are exactly its pushes and its captures on either side |
| `MoveGen.PromotionsReach` | src/index_model/move_gen.h:97-100 | a move is one of the four promotions onto a square iff it goes there from the pawn with one of the four kinds |
| `MoveGen.PieceMovesFit` | src/index_model/move_gen.h:32-111 | every move of a piece starts on its square and fits its destination |
| `MoveGen.GenFromFit` | src/index_model/move_gen.h:32-112 | every generated move starts on a square of the side's list and fits its destination |
| `MoveGenerator.AddRay` | src/index_model/move_gen.h:39-54 | the ray loop appends exactly `RayMoves` |
| `MoveGenerator.AddDirections` | src/index_model/move_gen.h:36-55 | the direction loop appends exactly `DirectionMoves` |
| `MoveGenerator.CheckEmptyRun` | src/index_model/move_gen.h:66-80 | the emptiness loop answers whether the run of squares is empty |
| `MoveGenerator.AddCastles` | src/index_model/move_gen.h:57-81 | appends exactly `CastleMoves` |
| `MoveGenerator.AddPromotions` | src/index_model/move_gen.h:96-101 | appends exactly the four promotions |
| `MoveGenerator.AddPawnPushes` | src/index_model/move_gen.h:95-107 | appends exactly `PawnPushes` |
| `MoveGenerator.AddPawnCaptures` | src/index_model/move_gen.h:148-172 | appends exactly `PawnCaptures` |
| `MoveGenerator.AddPieceMoves` | src/index_model/move_gen.h:34-111 | appends exactly the moves of the piece |
| `MoveGenerator.UpdatePossibleMoves` | src/index_model/move_gen.h:26-113 | the list is emptied and then holds exactly `GenMoves`: each listed piece's moves, in list order |
| `Mailboxes.CapturedSquare` | src/index_model/board.h:124-126 | the captured square is `to`, or for en passant the square on the mover's row and the destination's column; the draft lists (IndexModel/pieceList.h:31-35) use the same square |
| `Positions.PromotionChoice` | src/index_model/board.h:155 | `(flags & ~4) - 8` of a promotion is its kind's low two bits, 0..3 |
| `Positions.GetMadeMove` | src/index_model/board.h:97-111 | the record holds the move, the mover's flags, the old en passant square and clock, and the captured piece (default when not a capture) |
| `Positions.Make` | src/index_model/board.h:113-166 | the side flips and no promotion is pending, unless a promotion waits for its choice, which keeps the side and records `to` |
| `Positions.Promote` | src/index_model/board.h:217-229 | the pending square gets type KNIGHT+choice, the side flips, nothing is pending, the lists keep their squares |
| `Positions.Unmake` | src/index_model/board.h:177-209 | the side flips back, and clock and en passant square come from the record |
| `Positions.RoundTripBoard` | src/index_model/board.h:113-209 | after make then unmake every occupied square holds its old piece, type, colour and flags, and every empty square is empty again |
| `Positions.RoundTripSlots` | src/index_model/board.h:113-209 | after make then unmake each colour lists the same squares with the same counts |
| `Positions.RoundTripSpec` | src/index_model/board.h:113-209 | after make then unmake the per-type counts are restored |
| `Positions.RoundTripKing` | src/index_model/board.h:113-209 | after make then unmake the king squares are restored |
| `Positions.MakeUnmake` | src/index_model/board.h:97-209 | `unmakeMove(getMadeMove(m))` after `makeMove(m, false, false, false)` gives back an equivalent, sound position |
| `Soundness.MadeOccupants` | src/index_model/board.h:119-155 | after `makeMove`, the destination (and a castling rook's target) holds a piece of the side that moved; the squares left and the captured square are empty; every other square keeps its type and colour; the destination holds the mover's type, or the chosen promotion when it is not waited for, and after a double push it is flagged EN_PASSANT |
| `Soundness.MadeEp` | src/index_model/board.h:130-139 | after `makeMove`, `possibleEpCapture` is the destination of a double push and -1 after any other move |
| `Soundness.CacheFollowsMover` | src/index_model/board.h:141-149 | after `makeMove`, each colour's cached king square moves with the mover when it names `from` and is otherwise unchanged, the castling rook's move included |
| `Soundness.KingsKnownAfter` | src/index_model/board.h:113-166 | after a ready move, each colour's cached king square is -1 or holds that colour's king |
| `Soundness.AgreesAfter` | src/index_model/board.h:119-155 | when the lists change as `ListedAfter` says and the occupants as `OccupiedAfter` says, mailbox and piece lists agree on every square |
| `Soundness.MakeSound` | src/index_model/board.h:113-166 | a ready move keeps a sound position sound, whether the promotion choice is waited for or not; a waiting promotion leaves the mover's pawn on `promotedPawnSquare` with no en passant square |
| `Soundness.PromoteSound` | src/index_model/board.h:217-229 | completing a waiting promotion keeps a sound position sound |
| `Material.MovedCounts` | src/index_model/board.h:122-145 | moving the piece and flagging squares leaves every colour-and-type count on the board unchanged, except that a capture takes one off the captured piece's colour and type |
| `Material.MovedCounters` | src/index_model/board.h:122-129 | once the mover has arrived, only a capture has changed the counters: `removePiece` takes one off the captured colour's piece count and one off its type's count, and that type is never the king (src/index_model/piece_list.h:42-45) |
| `Material.MovedTallied` | src/index_model/board.h:122-145 | when `nPieces` and `nSpecPieces` tally the board before the move, they still do once the mover has arrived (`removePiece` drops the captured piece's counts, src/index_model/piece_list.h:42-45) |
| `Material.CastleTallied` | src/index_model/board.h:147-151 | the castling rook's move keeps the tally |
| `Material.PromoteTallied` | src/index_model/board.h:217-229 | completing a waiting promotion keeps the tally: one pawn count moves to the chosen type, as on the board |
| `Material.MakeTallied` | src/index_model/board.h:113-166 | a ready move keeps the tally, with or without waiting for the promotion choice; each side keeps exactly one king |
| `Material.TalliedEquiv` | src/index_model/board.h:113-166 | equivalent positions have the same counts on the board and are tallied alike |
| `Material.PlaceCounted` | src/index_model/board.h:57-74 | reading the placement field, `addPiece` counts every placed piece (src/index_model/piece_list.h:35-39): the counters tally the squares below the cursor |
| `Material.PlacementCounted` | src/index_model/board.h:56-74 | after `resetPieceLists` and the whole placement loop, the counters tally the board below the final cursor |
| `Material.LoadedCounts` | src/index_model/board.h:56-74 | a sound load keeps the lists the placement loop built, and every count on the loaded board is the count below the loop's final cursor |
| `Material.LoadedTallied` | src/index_model/board.h:51-95 | a sound loaded position is tallied iff each side has exactly one king on the board |
| `Material.TalliedEnding` | src/index_model/board.h:285-293 | on a tallied position with a legal move, INSUFFICIENT_MATERIAL is reported iff each side's pieces on the board are a bare king, king and bishop or knight, or king and two knights |
| `Legality.CrossedIsRookSquare` | src/index_model/board.h:246-249 | the square beside the king that the filter tests is the square the rook lands on |
| `Legality.MadeKing` | src/index_model/board.h:144-150 | after a move the king cache is where the king (and for a castle the rook) was carried |
| `Legality.MakeCongruent` | src/index_model/board.h:259-266 | equivalent positions give equivalent boards after the same move |
| `Legality.AttackSame` | src/index_model/move_gen.h:115-143 | `squareIsAttacked` depends only on the occupied squares |
| `Legality.RejectedEquiv` | src/index_model/board.h:241-270 | a move is rejected in a position iff it is rejected in any equivalent one, so trying moves one after another gives the same verdicts |
| `Removals.Flagged` | src/index_model/board.h:242-265 | the flagged indices are ascending and an index is flagged iff its verdict is true |
| `Removals.RemoveFlagged` | src/index_model/board.h:268-269 | removing the flagged indices from the highest down leaves, up to order, exactly the unflagged entries |
| `Removals.RemoveFlaggedMembers` | src/index_model/board.h:268-269 | a move is left iff it was listed with a false verdict |
| `Filters.FilteredIsKept` | src/index_model/board.h:241-270 | the filter leaves exactly the moves that are not rejected: none rejected is dropped, none rejected survives |
| `Endings.CannotMateIff` | src/index_model/board.h:285-292 | a side's material test holds iff it has a bare king, king and one bishop or knight, or king and two knights |
| `Endings.GameEnding` | src/index_model/board.h:277-298 | CHECKMATE iff no moves and the king attacked; STALEMATE iff no moves and not attacked; INSUFFICIENT_MATERIAL, MOVE_RULE at clock 100, else 0; never REPETITION |
| `Endings.GameEndingEquiv` | src/index_model/board.h:277-298 | equivalent positions end the same way |
| `Loading.LetterPiece` | src/index_model/board.h:24-37 | exactly the twelve letters name pieces; upper case is white; no status flags |
| `Loading.RunLength` | src/index_model/board.h:63-68 | a character below 'A' empties `ch - '0'` squares, at least one iff above '0' |
| `Loading.Place` | src/index_model/board.h:57-74 | the placement loop fills at most 64 squares from the cursor on and leaves the rest as they were |
| `Loading.CastlingFlags` | src/index_model/board.h:79-83 | each absent K/k/Q/q marks square 63/7/56/0 as MOVED; nothing else changes |
| `Loading.ActiveColor` | src/index_model/board.h:76-77 | WHITE iff the field is exactly "w", otherwise BLACK |
| `Loading.Loaded` | src/index_model/board.h:51-93 | a load succeeds iff the placement is in range; the side, clock, en passant (-1) and pending promotion (-1) are set |
| `Loading.LoadedSound` | src/index_model/board.h:57-74 | the loaded lists agree with the board iff every square the placement did not reach was already empty |
| `Loading.LoadBoard` | src/index_model/board.h:57-83 | mailbox and lists become the loaded board with its castling flags |
| `Loading.PlacePieces` | src/index_model/board.h:57-74 | the placement loop writes exactly `Place` into the mailbox and the lists |
| `Loading.EmptySquares` | src/index_model/board.h:63-68 | the digit loop empties exactly that many squares |
| `Loading.SetCastlingFlags` | src/index_model/board.h:79-83 | the board becomes `CastlingFlags` of the old board |
| `Boards.ChessBoardIndex.constructor` | src/index_model/board.h:20-49 | empty lists and history, no en passant square, no pending promotion, clock 0 |
| `Boards.ChessBoardIndex.GetMadeMove` | src/index_model/board.h:97-111 | the record is `Positions.GetMadeMove` of the board's position |
| `Boards.ChessBoardIndex.CheckGameEnded` | src/index_model/board.h:277-298 | the result is `GameEnding` of the position and the number of moves |
| `Boards.ChessBoardIndex.ChangeBoardState` | src/index_model/board.h:51-95 | the board is equivalent to the loaded position and the move list holds its legal moves; the history is empty; the counters tally the board iff each side has one king |
| `Boards.ChessBoardIndex.LoadPosition` | src/index_model/board.h:51-92 | the position becomes `Loaded` of the old one; the history is empty |
| `Boards.ChessBoardIndex.ClockStep` | src/index_model/board.h:119-123 | the clock becomes 0 after a pawn move or capture, otherwise old+1 |
| `Boards.ChessBoardIndex.TakeCapturedStep` | src/index_model/board.h:122-129 | the captured piece leaves the opponent's list and its square is emptied |
| `Boards.ChessBoardIndex.ClearEnPassantStep` | src/index_model/board.h:131-134 | the old en passant pawn is marked MOVED and the target is cleared |
| `Boards.ChessBoardIndex.MarkMoverStep` | src/index_model/board.h:136-142 | a double push flags EN_PASSANT and records `to`; an unmoved mover is marked MOVED |
| `Boards.ChessBoardIndex.RelocateStep` | src/index_model/board.h:144-150 | the piece moves on the list and the board |
| `Boards.ChessBoardIndex.MakeMove` | src/index_model/board.h:113-166 | the position becomes `Make` of the old one (or equivalent with legal moves regenerated and the ending returned) and stays sound, with a waiting promotion's pawn in place; a tallied position stays tallied; a recorded move adds its record and drops the first replayable one (corrected, see Findings) |
| `Boards.ChessBoardIndex.MoveOnBoard` | src/index_model/board.h:119-151 | the board and lists become `Placed` of the old position |
| `Boards.ChessBoardIndex.UpdatePromotion` | src/index_model/board.h:217-229 | the position becomes `Promote` of the old one, and stays sound and tallied when a sound, tallied position was waiting for the choice; only a recorded move's record gets the choice or-ed in (corrected, see Findings) |
| `Boards.ChessBoardIndex.RestoreCountersStep` | src/index_model/board.h:178-182 | clock, side and en passant square come back from the record and the pawn is flagged EN_PASSANT again |
| `Boards.ChessBoardIndex.MoveBackStep` | src/index_model/board.h:184-185 | the mover goes back and gets its old flags |
| `Boards.ChessBoardIndex.DemoteStep` | src/index_model/board.h:186-190 | a promoted piece becomes a pawn again and one count moves back to pawns |
| `Boards.ChessBoardIndex.PutBackStep` | src/index_model/board.h:193-199 | the captured piece is put back on its square and into the opponent's list |
| `Boards.ChessBoardIndex.UnmakeMove` | src/index_model/board.h:177-209 | the position becomes `Unmake` of the old one (up to equivalence when moves are regenerated); the history is untouched |
| `Boards.ChessBoardIndex.UpdateAvailableMoves` | src/index_model/board.h:272-275 | the move list holds the legal moves of the position and the board stays equivalent (corrected, see Findings) |
| `Boards.ChessBoardIndex.TryMove` | src/index_model/board.h:246-266 | trying a move answers exactly `Rejected` and leaves an equivalent board (corrected, see Findings) |
| `Boards.ChessBoardIndex.TryMadeMove` | src/index_model/board.h:259-266 | simulate and undo answers whether the mover's king is attacked after the move (corrected, see Findings) |
| `Boards.ChessBoardIndex.FilterPseudoLegalMoves` | src/index_model/board.h:241-270 | the list becomes `Filtered` of the old list and the board stays equivalent to what it was (corrected, see Findings) |
| `Boards.ChessBoardIndex.FlagRejected` | src/index_model/board.h:242-267 | the first loop records exactly the rejected indices, ascending |
| `Boards.ChessBoardIndex.RemoveFlaggedMoves` | src/index_model/board.h:268-269 | the second loop swap-removes the recorded indices from the highest down |
| `Boards.RemoveRecorded` | src/index_model/board.h:268-269 | the removal loop on the move list: the list becomes the recorded indices swap-removed from the last to the first |
| `Boards.ChessBoardIndex.GetMove` | src/index_model/board.h:232-239 | the first listed move from `fromPos` to `toPos`, or the null move when there is none |
| `Boards.ChessBoardIndex.UnmakeLastMove` | src/index_model/board.h:168-175 | with an empty history nothing changes; otherwise the newest record becomes the first replayable one and is taken back |
| `Boards.ChessBoardIndex.GoForthMadeMoves` | src/index_model/board.h:211-215 | with nothing to replay nothing changes; otherwise the first replayable move is made again, recorded and regenerated |
| `Boards.OrOwnPromotion` | src/index_model/board.h:155 | or-ing a promotion's own choice into its kind changes nothing, so a recorded promotion keeps its record |
| `Boards.PromotionRecordAsWritten` | src/index_model/board.h:219 | as written, the update has nowhere valid to land when the history is empty, and otherwise rewrites only the newest record |
| `Boards.SimulatedPromotionRewritesHistory` | src/index_model/board.h:219 | a simulated b8=Q turns the recorded knight move g8-f6 into a queen-side castle |
| `NameStore.SquareName` | src/model/name_store.h:17 | every name is two characters, a file 'a'..'h' then a rank '1'..'8' |
| `NameStore.SquareOfName` | src/model/name_store.h:17 | every name maps back to a square on the board |
| `NameStore.NameRoundTrip` | src/model/name_store.h:15-17 | the square of a square's name is that square |
| `NameStore.NamesDistinct` | src/model/name_store.h:15-17 | distinct squares have distinct names |
| `NameStore.CornerNames` | src/model/name_store.h:17 | squares 0, 7, 56, 63 are a8, h8, a1, h1 |
| `NameStore.ChessNameStore.constructor` | src/model/name_store.h:13-18 | the nested loops fill every entry with `SquareName` of its index |
| `DraftMoves.ReverseMove` | IndexModel/chessMove.h:43-48 | from and to are swapped and the kind becomes QUIET_MOVE |
| `DraftMoves.ReverseTwice` | IndexModel/chessMove.h:43-48 | reversing twice restores from and to, with a quiet kind |
| `DraftPieceLists.RookMove` | IndexModel/pieceList.h:49-52 | the rook's quiet move goes from its corner to the crossed square |
| `DraftPieceLists.QuietKeepsConsistent` | IndexModel/pieceList.h:56-61 | a quiet draft move keeps the index consistent and renames only the mover |
| `DraftPieceLists.CaptureKeepsConsistent` | IndexModel/pieceList.h:27-45 | a capture removes the captured square from the opponent's list, then moves the mover, keeping the index consistent |
| `DraftPieceLists.CastleKeepsConsistent` | IndexModel/pieceList.h:49-61 | a castle moves the rook, then the king, keeping the index consistent |
| `DraftPieceLists.DraftPieceList.constructor` | IndexModel/pieceList.h:13-14 | both counts start at 0 |
| `DraftPieceLists.DraftPieceList.ResetPieceLists` | IndexModel/pieceList.h:16-21 | counts are 0 and every reverse entry is -1; list contents stay |
| `DraftPieceLists.DraftPieceList.AddPiece` | IndexModel/pieceList.h:83-94 | appends to the white list for WHITE and to the black list for any other colour |
| `DraftPieceLists.DraftPieceList.MovePiece` | IndexModel/pieceList.h:23-81 | the state becomes `DraftMoved` of the old one (capture, castle or quiet path) |

## Left out

- Console output is not modelled: `checkGameEnded` prints the clock (src/index_model/board.h:278); `printData` prints the lists (src/index_model/piece_list.h:64-87); the draft's logging is commented out.
- The 3D front end, rendering, input, menus, animations and the earlier draft orchestrator and generator (`IndexModel/chessBoardIndex.h`, `IndexModel/moveGenerator.h`) are not part of this model.
- `std::istringstream` and `std::stoi` are not modelled. `changeBoardState` takes the placement, active colour, castling and clock fields separately, with the clock as an integer.
- The en passant field of the FEN string is ignored, as in the source.
- `Loading.Place`: a placement the source would read outside its arrays is `None`. That covers a digit run past square 63, a character that is not a piece letter, and a seventeenth piece of one colour. Characters outside ASCII (negative `char`) are not modelled.
- `Boards.ChessBoardIndex.ChangeBoardState` writes the board and castling flags before the side and counters. The source sets the side after the placement loop. Nothing reads between the two writes, so the end state is the same.
- `Boards.ChessBoardIndex.constructor`: the source leaves `sideToMove`, `pieces` and `kingSquare` uninitialised; the model starts them at WHITE and -1.
- `DraftPieceLists.DraftPieceList.constructor`: the source leaves `board`, `whitePieces` and `blackPieces` uninitialised (IndexModel/pieceList.h:10, 14); the model fills them with -1 and promises only the two zero counts.
- REPETITION is defined (src/index_model/board.h:17) but never produced; `Endings.GameEnding` proves it is never returned.
- Insufficient material follows the source's narrow rule: king and two knights counts as a draw, king and bishop against king and bishop on either colour counts as a draw, and nothing more.
- `Positions.MakeUnmake` holds up to `Equiv`, not equality. `mailbox.movePiece` leaves stale colour and flag bits on the emptied square, and `removePiece` reorders the dense list. `Equiv` compares occupied squares, the set of listed squares, counts, per-type counts and king squares.
- `Positions.MakeUnmake` and `Boards.ChessBoardIndex.MakeMove` require `Ready`: the mover belongs to the side to move, and a capture takes a non-king piece of the other colour. The source never generates a king capture in a legal position. Most king captures would still round-trip: `removePiece` leaves `kingSquare` alone and `addPiece(KING)` resets it (src/index_model/piece_list.h:40, 43-52). Only the black king taking the white king breaks the cache, because `movePiece` tests `kingSquare[WHITE]` first (src/index_model/piece_list.h:55-56), so the undo moves the stale white entry instead of the black one.
- `Positions.Ready`, the precondition of `Make`, `MakeUnmake`, `Soundness.MakeSound` and `Boards.ChessBoardIndex.MakeMove`, is more than the two clauses above. Each remaining clause excludes an input the source never produces in play:
  - `from != to`, and no promotion waits for its choice: every generated move changes square, and the interface plays no move while a promotion waits.
  - A quiet move and an en passant capture land on an empty square. The generator checks this for a quiet move (src/index_model/move_gen.h:95). It does not check it for an en passant capture (src/index_model/move_gen.h:151-153): there the target is the square the opponent's pawn just skipped, which is empty in play.
  - A castle starts on the cached king square; its own piece stands on the rook origin; the rook target is empty and differs from the king's squares. `getRookMoveFromCastle` derives both rook squares from the king's square (`from + 3` to `from + 1`, or `from - 4` to `from - 1`). The generator checks only that the king and the corner rook have not moved and that the squares between are empty (src/index_model/move_gen.h:57-81). So an unmoved king off the e-file loaded from FEN is excluded. From d1, for instance, the king-side castle goes to g1, which is also the derived rook origin, while the rook stands on h1. No such position arises from the starting position.
  - Only a pawn promotes or pushes two squares, as generated.
- `Boards.ChessBoardIndex.MakeMove`, `UpdatePromotion`, `UnmakeMove`, `ChangeBoardState` and `GoForthMadeMoves`: when moves are regenerated they require `Playable`. That means a sound position, both kings on the board, `Generable`, at most 300 pseudo-legal moves, and each of those moves `Ready`. `Generable` says every listed piece of the side to move has a real piece type, and no listed pawn stands on the last row ahead of it. For such a pawn the source reads `mailbox[fromSquare + forwardOffset]` off the 64-square array, which C++ leaves undefined (src/index_model/move_gen.h:95, src/index_model/mailbox.h:41-47). A pawn on that row is promoted before the next generation, so play never reaches it.
- The 300-move and 1000-record capacities (src/index_model/move.h:21-22) are never checked by `addMove`. `Moves.ChessMoves.AddMove` and `Moves.MadeMoves.AddMove` take them as preconditions.
- `Moves.MadeMoves.PopLastMove` requires a non-empty history, which the source does not check. Its only caller, `unmakeLastMove`, returns early on an empty history.
- `Moves.MadeMoves.AddMove` follows the code: a new move overwrites the first replayable record, but the redo horizon `maxMadeMoves` is never lowered, so records beyond it stay replayable.
- `Moves.MadeMoves.GetNextMove`: the `nMadeMoves++` after the `return` (src/index_model/move.h:121) cannot run and is not modelled.
- The pawn probe of `squareIsAttacked` that leaves the board reads `mailbox[-1]` (src/index_model/move_gen.h:137-138); the model reads that probe as "no piece".
- `Boards.ChessBoardIndex.MakeMove`, `UpdateAvailableMoves`, `TryMove`, `TryMadeMove` and `FilterPseudoLegalMoves` follow the corrected promotion rule of the Findings row: an unrecorded promotion leaves the history alone. As written, the filter's `makeMove(move, false, false, false)` (src/index_model/board.h:260) reaches `updatePromotion` (src/index_model/board.h:155), which rewrites the newest record (src/index_model/board.h:219); `Boards.PromotionRecordAsWritten` models that write.
- `Boards.ChessBoardIndex.UpdatePromotion`: the model writes the choice into the record, then the board. The source writes the board first; the two writes touch different objects.
- The makeMove and unmakeMove bodies are split into step methods (`TakeCapturedStep`, `MoveBackStep`, ...). Each one performs a contiguous block of the source's statements in the same order.
- Getters that return references into the board or lists (`operator[]`, `getKingSquare`) are modelled by reads and explicit writes. Aliasing through a kept reference is not modelled.
- The draft `ChessMoves` and draft `Move` (IndexModel/chessMove.h:21-76) are the same code as in src/index_model/move.h, apart from `removeMove`, two predicates and `reverseMove` (IndexModel/chessMove.h:43-48). They are modelled once in `Moves`; `reverseMove` is modelled on its own in `DraftMoves`.
- The draft `removePiece` (IndexModel/pieceList.h:96-98) is an empty stub and is not modelled.

## Findings

| source | as written | input that shows it | evidently intended | confidence | as-written member | corrected member |
|---|---|---|---|---|---|---|
| src/index_model/board.h:219 | `updatePromotion` always or-s the choice into the newest history record. That includes promotions that `filterPseudoLegalMoves` only simulates (`makeMove(m, false, false, false)` pushes no record). With an empty history it writes `madeMoves[-1]`. | Black's knight g8-f6 (square 6 to 21, quiet) is the newest record, and White has a pawn on b7. While filtering, the try of b8=Q or-s choice 3 into the knight record, whose kind becomes 3 (QUEEN_CASTLE). `unmakeLastMove` would then take it back as a castle. | Only the record of the move being made, when it was recorded, receives the choice. | not executed | `Boards.PromotionRecordAsWritten`, `Boards.SimulatedPromotionRewritesHistory` | `Boards.ChessBoardIndex.UpdatePromotion` |
