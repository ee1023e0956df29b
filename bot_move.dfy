/** The squares the game server reports for the bot's move: the engine
    searches the mover's canonical view of the board, and the decoded move
    is turned back into absolute coordinates (y -> 9 - y for Black). */
module BotMove {
  import opened PyBoard
  import opened SelfPlay

  /** The bot's action, decoded on the mover's canonical view and reported
      with y -> 9 - y for Black, is the move that makes on the absolute
      board what the action makes on the canonical one. */
  lemma BotMoveReported(abs: Board, player: Player, a: int)
    requires 0 <= a < ActionSize
    ensures MoveOnBoard(Logged(Decode(a), player))
    ensures Canonical(MoveCells(Canonical(abs, player), Decode(a)), player)
            == MoveCells(abs, Logged(Decode(a), player))
  {
    if player == Black {
      AbsoluteMove(abs, Decode(a));
    }
  }
}
