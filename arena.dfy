/** The evaluation arena: two players, given as functions from a canonical
    board to an action, play games of at most 200 moves from the opening;
    player 1 moves first (as Red), and the arena counts wins and draws. */
module Arena {
  import opened PyBoard
  import opened SelfPlay
  import opened MctsStats

  /** A player: for game number k and the board it is shown, an action. */
  type Chooser = (nat, Board) -> int

  ghost predicate Chooses(player: Chooser) {
    forall k: nat, b: Board :: 0 <= player(k, b) < ActionSize
  }

  function PlayerFor(player1: Chooser, player2: Chooser, p: Player): Chooser {
    if p == Red then player1 else player2
  }

  /** Every logged move of game k is the action its mover chose on its own
      view of the position, logged in absolute coordinates. */
  ghost predicate Played(moves: seq<Move>, player1: Chooser, player2: Chooser, k: nat) {
    forall i :: 0 <= i < |moves| ==>
      moves[i] == Logged(Decode(PlayerFor(player1, player2, PlayerAt(i))(k, Position(moves[..i]))), PlayerAt(i))
  }

  /** A complete arena game: between 1 and 200 chosen moves, no position
      before the last decided, and the last decided unless the game was cut
      off after 200 moves. */
  ghost predicate Game(moves: seq<Move>, player1: Chooser, player2: Chooser, k: nat) {
    1 <= |moves| <= MaxSteps && AllOnBoard(moves) && Played(moves, player1, player2, k)
    && Undecided(moves) && (|moves| < MaxSteps ==> GameEnded(Position(moves)) != 0)
  }

  /** The result of a finished game for player 1: the colour whose king is
      left (1 player 1, -1 player 2) when the last position is decided, else 0. */
  function Verdict(moves: seq<Move>): (v: int)
    ensures v == -1 || v == 0 || v == 1
  {
    if GameEnded(Position(moves)) == 0 then 0 else GameEnded(Replay(moves))
  }

  /** One more chosen move keeps the account of the game. */
  lemma {:induction false} PlayStep(moves: seq<Move>, player1: Chooser, player2: Chooser, k: nat)
    requires Played(moves, player1, player2, k)
    ensures var p := PlayerAt(|moves|);
      var a := PlayerFor(player1, player2, p)(k, Position(moves));
      Played(moves + [Logged(Decode(a), p)], player1, player2, k)
  {
    var p := PlayerAt(|moves|);
    var after := moves + [Logged(Decode(PlayerFor(player1, player2, p)(k, Position(moves))), p)];
    assert after[..|moves|] == moves;
    assert forall i :: 0 <= i < |moves| ==> after[..i] == moves[..i];
  }

  /** One move of an arena game keeps the board equal to the mover's view of
      the logged moves; a decided result read for Red is the replayed board's. */
  lemma Step(moves: seq<Move>, action: int, p: Player)
    requires AllOnBoard(moves) && Undecided(moves) && p == PlayerAt(|moves|)
    requires GameEnded(Position(moves)) == 0 && PieceCodes(Position(moves))
    requires 0 <= action < ActionSize
    ensures var after := moves + [Logged(Decode(action), p)];
      AllOnBoard(after) && Undecided(after)
      && NextState(Position(moves), p, action) == (Position(after), PlayerAt(|after|))
      && PieceCodes(Position(after))
      && (GameEnded(Position(after)) != 0 ==> GameEnded(Position(after)) * PlayerAt(|after|) == GameEnded(Replay(after)))
  {
    var m := Decode(action);
    var after := moves + [Logged(m, p)];
    UndecidedStep(moves, Logged(m, p));
    Advance(moves, m, p);
    OnBoardPush(moves, Logged(m, p));
    assert NextState(Position(moves), p, action).0 == Position(after);
  }

  /** The state of play_game's loop after the logged moves: the board is
      the mover's view of them, nothing is decided yet, and every move was
      its mover's choice. */
  ghost predicate InPlay(moves: seq<Move>, board: Board, current: Player, player1: Chooser, player2: Chooser, k: nat) {
    current == PlayerAt(|moves|) && AllOnBoard(moves) && Played(moves, player1, player2, k)
    && Undecided(moves) && board == Position(moves) && PieceCodes(board) && GameEnded(board) == 0
  }

  /** One turn of play_game: the mover's action extends the logged game; a
      decided position ends it with the verdict, an undecided one keeps the
      loop going. */
  lemma ArenaTurn(moves: seq<Move>, board: Board, current: Player, player1: Chooser, player2: Chooser, k: nat)
    requires Chooses(player1) && Chooses(player2)
    requires InPlay(moves, board, current, player1, player2, k) && |moves| < MaxSteps
    ensures var action := PlayerFor(player1, player2, current)(k, board);
      var after := moves + [Logged(Decode(action), current)];
      var next := NextState(board, current, action);
      (GameEnded(next.0) == 0 ==> InPlay(after, next.0, next.1, player1, player2, k))
      && (GameEnded(next.0) != 0 ==> Game(after, player1, player2, k) && GameEnded(next.0) * next.1 == Verdict(after))
  {
    var action := PlayerFor(player1, player2, current)(k, board);
    PlayStep(moves, player1, player2, k);
    Step(moves, action, current);
  }

  /** play_game, with the player shown its own view of the position (the
      board the previous move produced) and the result read from player 1's
      side as r * current_player. */
  method PlayGame(player1: Chooser, player2: Chooser, k: nat) returns (result: int, ghost moves: seq<Move>)
    requires Chooses(player1) && Chooses(player2)
    ensures Game(moves, player1, player2, k) && result == Verdict(moves)
  {
    var board := InitBoard();
    var current: Player := Red;
    var step := 0;
    moves := [];
    Opening();
    while step < MaxSteps
      invariant 0 <= step <= MaxSteps && |moves| == step
      invariant InPlay(moves, board, current, player1, player2, k)
    {
      step := step + 1;
      var action := PlayerFor(player1, player2, current)(k, board);
      ArenaTurn(moves, board, current, player1, player2, k);
      moves := moves + [Logged(Decode(action), current)];
      var next := NextState(board, current, action);
      board, current := next.0, next.1;
      var r := GameEnded(board);
      if r != 0 {
        return r * current, moves;
      }
    }
    return 0, moves;
  }

  /** The number of entries of s equal to v. */
  function Tally(s: seq<int>, v: int): nat {
    if s == [] then 0 else Tally(s[..|s| - 1], v) + (if s[|s| - 1] == v then 1 else 0)
  }

  /** Appending an entry adds one to its own tally and no other. */
  lemma TallyPush(s: seq<int>, x: int)
    ensures forall v :: Tally(s + [x], v) == Tally(s, v) + (if x == v then 1 else 0)
  {
    assert (s + [x])[..|s|] == s;
  }

  /** The three counters are the tallies of wins for player 1, wins for
      player 2 and draws among the results. */
  ghost predicate Counted(results: seq<int>, p1Wins: nat, p2Wins: nat, draws: nat) {
    p1Wins == Tally(results, 1) && p2Wins == Tally(results, -1) && draws == Tally(results, 0)
  }

  /** Recording one result of -1, 0 or 1 adds one to the matching counter. */
  lemma CountedPush(results: seq<int>, p1Wins: nat, p2Wins: nat, draws: nat, result: int)
    requires Counted(results, p1Wins, p2Wins, draws) && -1 <= result <= 1
    ensures result == 1 ==> Counted(results + [result], p1Wins + 1, p2Wins, draws)
    ensures result == -1 ==> Counted(results + [result], p1Wins, p2Wins + 1, draws)
    ensures result == 0 ==> Counted(results + [result], p1Wins, p2Wins, draws + 1)
  {
    TallyPush(results, result);
  }

  /** Game k of the list was played by the two players with the index k and
      its result is the verdict on it. */
  ghost predicate AllGames(games: seq<seq<Move>>, results: seq<int>, player1: Chooser, player2: Chooser) {
    |games| == |results|
    && forall i :: 0 <= i < |games| ==> Game(games[i], player1, player2, i) && results[i] == Verdict(games[i])
  }

  lemma AllGamesPush(games: seq<seq<Move>>, results: seq<int>, player1: Chooser, player2: Chooser,
                     moves: seq<Move>, result: int)
    requires AllGames(games, results, player1, player2)
    requires Game(moves, player1, player2, |games|) && result == Verdict(moves)
    ensures AllGames(games + [moves], results + [result], player1, player2)
  {
  }

  /** play_games: game k is played by the two players with the index k, and
      each game adds one to exactly one of the three counters. */
  method PlayGames(player1: Chooser, player2: Chooser, numGames: nat)
    returns (p1Wins: nat, p2Wins: nat, draws: nat, ghost games: seq<seq<Move>>, ghost results: seq<int>)
    requires Chooses(player1) && Chooses(player2)
    ensures p1Wins + p2Wins + draws == numGames && |games| == |results| == numGames
    ensures forall k :: 0 <= k < numGames ==> Game(games[k], player1, player2, k) && results[k] == Verdict(games[k])
    ensures p1Wins == Tally(results, 1) && p2Wins == Tally(results, -1) && draws == Tally(results, 0)
  {
    p1Wins, p2Wins, draws := 0, 0, 0;
    games, results := [], [];
    for k := 0 to numGames
      invariant |games| == k && AllGames(games, results, player1, player2)
      invariant Counted(results, p1Wins, p2Wins, draws)
      invariant p1Wins + p2Wins + draws == k
    {
      var result, moves := PlayGame(player1, player2, k);
      CountedPush(results, p1Wins, p2Wins, draws, result);
      AllGamesPush(games, results, player1, player2, moves, result);
      if result == 1 {
        p1Wins := p1Wins + 1;
      } else if result == -1 {
        p2Wins := p2Wins + 1;
      } else {
        draws := draws + 1;
      }
      games := games + [moves];
      results := results + [result];
    }
  }

  // ---------------------------------------------------------------------
  // As written: the sign of the result

  /** Line 61: the result as written, -r * current_player with r read off
      the board the move produced. It is the losing colour: the opposite of
      the winner's colour on the absolute board, which is player 1's result. */
  function ResultAsWritten(board: Board, current: Player): (w: int)
    ensures (Contains(board, King) || Contains(board, -King)) ==>
      w == -GameEnded(Canonical(board, current))
  {
    if Contains(board, King) || Contains(board, -King) then
      MoverResult(board, current);
      -GameEnded(board) * current
    else -GameEnded(board) * current
  }

  /** Player 1 (Red) has captured player 2's king and player 2 is to move:
      as written the arena reports -1, a win of player 2. */
  lemma ResultAsWrittenForPlayer1Win()
    ensures var abs := EmptyBoard()[0 := EmptyBoard()[0][4 := King]];
      GameEnded(abs) == Red &&
      ResultAsWritten(Canonical(abs, Black), Black) == -1
  {
    var abs := EmptyBoard()[0 := EmptyBoard()[0][4 := King]];
    assert abs[0][4] == King;
    FlipNegInvolution(abs);
    assert FlipNeg(abs)[9][4] == -King;
  }
}
