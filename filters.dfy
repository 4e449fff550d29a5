/**
 * The verdicts of `filterPseudoLegalMoves` (src/index_model/board.h): a
 * move is removed exactly when it castles out of or through check or leaves
 * the mover's king attacked once it is made.
 */
module Filters {
  import opened Moves
  import opened Positions
  import opened Legality
  import opened Removals

  // ---------------------------------------------------------------------
  // The verdicts on a position

  /** Every move of the list is one the board can make. */
  ghost predicate AllReady(p: Position, s: seq<Move>)
    requires Shape(p)
  {
    forall m | m in s :: Ready(p, m)
  }

  /** Whether each move of the list is rejected in `p`. */
  ghost function Verdicts(p: Position, s: seq<Move>): (v: seq<bool>)
    requires Sound(p) && KingsPlaced(p) && AllReady(p, s)
    ensures |v| == |s| && forall i | 0 <= i < |s| :: v[i] == Rejected(p, s[i])
  {
    seq(|s|, i requires 0 <= i < |s| => Rejected(p, s[i]))
  }

  /** The moves left after both loops of the filter. */
  ghost function Filtered(p: Position, s: seq<Move>): seq<Move>
    requires Sound(p) && KingsPlaced(p) && AllReady(p, s)
  {
    RemoveFrom(s, Flagged(Verdicts(p, s), |s|), 0)
  }

  /**
   * The filter removes exactly the rejected moves: what it leaves is, up
   * to order, the list of moves that are not rejected, and a move is left
   * if and only if it was in the list and is not rejected.
   */
  lemma FilteredIsKept(p: Position, s: seq<Move>)
    requires Sound(p) && KingsPlaced(p) && AllReady(p, s)
    ensures multiset(Filtered(p, s)) == multiset(Kept(s, Verdicts(p, s), |s|))
    ensures forall m | m in Filtered(p, s) :: m in s && !Rejected(p, m)
    ensures forall m | m in s && !Rejected(p, m) :: m in Filtered(p, s)
  {
    hide Rejected, Ready, Sound, KingsPlaced, RemoveFrom, Flagged, Kept;
    var v := Verdicts(p, s);
    RemoveFlagged(s, v);
    RemoveFlaggedMembers(s, v);
    forall m | m in Filtered(p, s)
      ensures m in s && !Rejected(p, m)
    {
      var i :| 0 <= i < |s| && s[i] == m && !v[i];
    }
  }
}
