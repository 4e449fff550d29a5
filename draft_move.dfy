/**
 * The earlier draft of the move (IndexModel/chessMove.h). Its packing,
 * setters, predicates and move list are those of src/index_model/move.h,
 * modelled once in module Moves; what the draft adds is `reverseMove`.
 */
module DraftMoves {
  import opened Moves

  /** `reverseMove`: swap origin and destination and make the move quiet. */
  function ReverseMove(m: Move): (r: Move)
    ensures r.From() == m.To() && r.To() == m.From() && r.Flags() == QUIET_MOVE
  {
    var fromSquare := m.From();
    m.WithFrom(m.To()).WithTo(fromSquare).WithFlags(QUIET_MOVE)
  }

  /** Reversing twice gives back the move itself, made quiet. */
  lemma ReverseTwice(m: Move)
    ensures ReverseMove(ReverseMove(m)) == m.WithFlags(QUIET_MOVE)
  {
  }
}
