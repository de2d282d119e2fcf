/**
 * The turn state machine shared by both revisions: after a move the side to
 * move is in Check or Normal; once its moves are computed, a side with no
 * movable piece is mated when it was in check and stalemated otherwise.
 */
module TurnCycle {

  datatype TurnState = Normal | Check | Checkmate | Stalemate

  /** The state a turn change gives the side that is now to move. */
  function StateOnTurnChange(inCheck: bool): (r: TurnState)
    ensures r == Check <==> inCheck
    ensures r == Normal <==> !inCheck
  {
    if inCheck then Check else Normal
  }

  /** The state after the moves of the side to move have been computed. */
  function StateAfterCompute(s: TurnState, anyMovable: bool): (r: TurnState)
    ensures anyMovable ==> r == s
    ensures !anyMovable ==> (r == Checkmate <==> s == Check)
    ensures !anyMovable ==> (r == Stalemate <==> s != Check)
  {
    if anyMovable then s
    else if s == Check then Checkmate
    else Stalemate
  }

  /**
   * Over one whole turn (turn change, then move computation) the game ends
   * exactly when nothing can move: in mate iff the king is attacked.
   */
  lemma TurnOutcome(inCheck: bool, anyMovable: bool)
    ensures var r := StateAfterCompute(StateOnTurnChange(inCheck), anyMovable);
      && (r == Checkmate <==> inCheck && !anyMovable)
      && (r == Stalemate <==> !inCheck && !anyMovable)
      && (r == Check <==> inCheck && anyMovable)
      && (r == Normal <==> !inCheck && anyMovable)
  {
  }
}
