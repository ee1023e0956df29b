/** The self-play worker of the training pipeline: one game of the program
    against itself, a fresh remote-evaluated tree search for every move, the
    training examples labelled with the final result from each example's own
    side, and a game record in absolute coordinates (Red's back rank y = 0). */
module SelfPlay {
  import opened Scores
  import opened PyBoard
  import PyGame
  import opened MctsStats
  import RemoteMcts

  /** The step budget of an episode; a game still running then is a draw. */
  const MaxSteps: int := 200

  /** The side to move before move i of a game Red opens. */
  function PlayerAt(i: nat): Player {
    if i % 2 == 0 then Red else Black
  }

  /** The sides alternate: the mover after move i is the other side. */
  lemma NextPlayer(i: nat)
    ensures PlayerAt(i + 1) == Other(PlayerAt(i))
  {
    assert (i + 1) % 2 == 1 - i % 2;
  }

  /** A square of Black's canonical view in absolute coordinates: y becomes 9 - y. */
  function FlipSquare(s: Square): Square {
    Square(s.x, 9 - s.y)
  }

  function FlipMove(m: Move): Move {
    Move(FlipSquare(m.start), FlipSquare(m.end))
  }

  /** The move the record logs for the decoded canonical move m of player p. */
  function Logged(m: Move, p: Player): Move {
    if p == Black then FlipMove(m) else m
  }

  predicate AllOnBoard(moves: seq<Move>) {
    forall i :: 0 <= i < |moves| ==> MoveOnBoard(moves[i])
  }

  /** A move on the board appended to a record of moves on the board. */
  lemma OnBoardPush(moves: seq<Move>, l: Move)
    requires AllOnBoard(moves) && MoveOnBoard(l)
    ensures AllOnBoard(moves + [l])
  {
    var after := moves + [l];
    assert forall i :: 0 <= i < |moves| ==> after[i] == moves[i];
  }

  /** The absolute board reached by playing the logged moves from the
      opening (a move off the board, which a record never holds, is skipped). */
  function Replay(moves: seq<Move>): Board {
    if moves == [] then InitBoard()
    else if MoveOnBoard(moves[|moves| - 1]) then MoveCells(Replay(moves[..|moves| - 1]), moves[|moves| - 1])
    else Replay(moves[..|moves| - 1])
  }

  /** The canonical view of the side to move after the logged moves. */
  function Position(moves: seq<Move>): Board {
    Canonical(Replay(moves), PlayerAt(|moves|))
  }

  /** Playing m on Black's canonical view and turning the result back is
      playing the logged (flipped) move on the absolute board. */
  lemma AbsoluteMove(abs: Board, m: Move)
    requires MoveOnBoard(m)
    ensures MoveOnBoard(FlipMove(m))
    ensures FlipNeg(MoveCells(FlipNeg(abs), m)) == MoveCells(abs, FlipMove(m))
  {
    var l := FlipNeg(MoveCells(FlipNeg(abs), m));
    var r := MoveCells(abs, FlipMove(m));
    forall y | 0 <= y < Height ensures l[y] == r[y] {
      forall x | 0 <= x < Width ensures l[y][x] == r[y][x] {
        MoveCellsEffect(FlipNeg(abs), m, Height - 1 - y, x);
        MoveCellsEffect(abs, FlipMove(m), y, x);
      }
    }
  }

  /** A move overwrites one square only, so of two different codes on the
      board at least one is still there afterwards. */
  lemma OneSurvives(b: Board, m: Move, v: int, w: int)
    requires MoveOnBoard(m) && v != w && v != 0 && Contains(b, v) && Contains(b, w)
    ensures Contains(MoveCells(b, m), v) || Contains(MoveCells(b, m), w)
  {
    var vy, vx :| 0 <= vy < Height && 0 <= vx < Width && b[vy][vx] == v;
    var wy, wx :| 0 <= wy < Height && 0 <= wx < Width && b[wy][wx] == w;
    var r := MoveCells(b, m);
    if Square(vx, vy) == m.end {
      MoveCellsEffect(b, m, wy, wx);
      if Square(wx, wy) == m.start {
        MoveCellsEffect(b, m, m.end.y, m.end.x);
        assert r[m.end.y][m.end.x] == w;
      } else {
        assert r[wy][wx] == w;
      }
    } else if Square(vx, vy) == m.start {
      MoveCellsEffect(b, m, m.end.y, m.end.x);
      assert r[m.end.y][m.end.x] == v;
    } else {
      MoveCellsEffect(b, m, vy, vx);
      assert r[vy][vx] == v;
    }
  }

  /** A code on a board is its negation on the flipped board. */
  lemma ContainsFlip(b: Board, v: int)
    requires Contains(b, v)
    ensures Contains(FlipNeg(b), -v)
  {
    var y, x :| 0 <= y < Height && 0 <= x < Width && b[y][x] == v;
    assert FlipNeg(b)[Height - 1 - y][x] == -v;
  }

  /** The result of a position seen by player p, re-expressed for Red: the
      winner's colour (1 Red, -1 Black) when the game is decided. */
  lemma AbsoluteResult(abs: Board, p: Player)
    requires Contains(abs, King) || Contains(abs, -King)
    ensures GameEnded(Canonical(abs, p)) * p == GameEnded(abs)
  {
    if p == Black {
      GameEndedFlip(abs);
    }
  }

  // ---------------------------------------------------------------------
  // As written: the searched board and the recorded winner

  /** Line 178 applied to the board that line 201 produced: the board is
      already the mover's canonical view, and it is canonicalised again. */
  function SearchedAsWritten(board: Board, current: Player): (searched: Board)
    ensures current == Red ==> searched == board
    ensures Canonical(searched, current) == board
  {
    FlipNegInvolution(board);
    Canonical(board, current)
  }

  /** As written, every search of an episode is handed the absolute board
      (Red's pieces positive), also when Black is to move. */
  lemma SearchedAsWrittenIsAbsolute(moves: seq<Move>)
    ensures SearchedAsWritten(Position(moves), PlayerAt(|moves|)) == Replay(moves)
  {
    FlipNegInvolution(Replay(moves));
  }

  /** Red's opening cannon move (1, 2) -> (4, 2), logged as played. */
  function CannonOpening(): Move {
    Move(Square(1, 2), Square(4, 2))
  }

  /** After Red's cannon opening, the board searched for Black differs from
      Black's own view of the position: Red's cannon stands on (4, 2) of the
      searched board, where Black's view has an empty square. */
  lemma SearchedAsWrittenForBlack()
    ensures var searched := SearchedAsWritten(Position([CannonOpening()]), Black);
      searched[2][4] == Cannon && Position([CannonOpening()])[2][4] == Empty
  {
    var moves := [CannonOpening()];
    assert moves[..0] == [];
    SearchedAsWrittenIsAbsolute(moves);
    MoveCellsEffect(InitBoard(), CannonOpening(), 2, 4);
    MoveCellsEffect(InitBoard(), CannonOpening(), 7, 4);
  }

  /** Line 206: the record stores get_game_ended of the final board as seen
      by the player to move, not the winner's colour. */
  function RecordedWinnerAsWritten(board: Board, current: Player): (w: int)
    ensures (Contains(board, King) || Contains(board, -King)) ==>
      w * current == GameEnded(Canonical(board, current))
  {
    if Contains(board, King) || Contains(board, -King) then
      MoverResult(board, current);
      GameEnded(board)
    else GameEnded(board)
  }

  /** The result of the mover's view times the mover is the result of the
      absolute board. */
  lemma MoverResult(board: Board, current: Player)
    requires Contains(board, King) || Contains(board, -King)
    ensures GameEnded(board) * current == GameEnded(Canonical(board, current))
  {
    if current == Black {
      if Contains(board, King) {
        ContainsFlip(board, King);
      } else {
        ContainsFlip(board, -King);
      }
      FlipNegInvolution(board);
      GameEndedFlip(FlipNeg(board));
    }
  }

  /** A position where Black's king has been captured and Black is to move:
      Red has won, and the record as written says -1, which the record's
      readers take for "Black won". */
  lemma RecordedWinnerAsWrittenForRedWin()
    ensures var abs := EmptyBoard()[0 := EmptyBoard()[0][4 := King]];
      GameEnded(abs) == Red &&
      RecordedWinnerAsWritten(Canonical(abs, Black), Black) == Black
  {
    var abs := EmptyBoard()[0 := EmptyBoard()[0][4 := King]];
    assert abs[0][4] == King;
    assert FlipNeg(abs)[9][4] == -King;
  }

  // ---------------------------------------------------------------------
  // The episode

  /** One training example: the network input of the position, the search's
      move distribution, and the final result from the example's mover's side. */
  datatype Example = Example(state: PyGame.Tensor, pi: seq<real>, value: int)

  /** The game record: the moves in absolute coordinates and the winner's
      colour (1 Red, -1 Black, 0 draw). */
  datatype Record = Record(moves: seq<Move>, winner: int)

  /** r * (-1) ** (player != current): the result r, seen by the side to move
      at the end, for the side that made the example. */
  function Label(r: int, player: Player, last: Player): int {
    if player == last then r else -r
  }

  /** Lines 204-206: one example per gathered position, in order, keeping its
      network input and move distribution and labelled for its own side. */
  function Labelled(history: seq<(PyGame.Tensor, seq<real>, Player)>, r: int, last: Player): (ex: seq<Example>)
    ensures |ex| == |history|
    ensures forall i :: 0 <= i < |history| ==> ex[i].state == history[i].0 && ex[i].pi == history[i].1
  {
    seq(|history|, i requires 0 <= i < |history| =>
      Example(history[i].0, history[i].1, Label(r, history[i].2, last)))
  }

  /** Every label is the recorded winner's colour seen from the example's
      own side: +r*last for the side to move at the end, -r*last for the other. */
  lemma LabelsAreWinner(history: seq<(PyGame.Tensor, seq<real>, Player)>, r: int, last: Player)
    ensures |Labelled(history, r, last)| == |history|
    ensures forall i :: 0 <= i < |history| ==>
      Labelled(history, r, last)[i].value == (r * last) * history[i].2
  {
    forall i | 0 <= i < |history|
      ensures Labelled(history, r, last)[i].value == (r * last) * history[i].2
    {
      var p := history[i].2;
      if p == last {
        assert (r * last) * p == r * (last * last);
      } else {
        assert p + last == 0;
        assert (r * last) * p == -(r * (last * last));
      }
    }
  }

  /** One move of the episode: the board the move produces is the next
      mover's view of the replayed record, and a decided outcome seen by that
      mover, turned to Red's side, is the result of the replayed board. */
  lemma Advance(before: seq<Move>, m: Move, p: Player)
    requires MoveOnBoard(m) && p == PlayerAt(|before|)
    requires GameEnded(Position(before)) == 0 && PieceCodes(Position(before))
    ensures MoveOnBoard(Logged(m, p)) && Other(p) == PlayerAt(|before + [Logged(m, p)]|)
    ensures PieceCodes(Position(before + [Logged(m, p)]))
    ensures Position(before + [Logged(m, p)]) == FlipNeg(MoveCells(Position(before), m))
    ensures var after := before + [Logged(m, p)];
      GameEnded(Position(after)) != 0 ==> GameEnded(Position(after)) * Other(p) == GameEnded(Replay(after))
  {
    var l := Logged(m, p);
    var after := before + [l];
    NextPlayer(|before|);
    assert |after| == |before| + 1;
    if p == Black {
      AbsoluteMove(Replay(before), m);
      ReplayStep(before, l);
      assert PlayerAt(|after|) == Red;
      assert Position(after) == Replay(after);
    } else {
      ReplayStep(before, l);
      assert PlayerAt(|after|) == Black;
      assert Position(after) == FlipNeg(Replay(after));
    }
    MoveKeepsCodes(Position(before), m);
    if GameEnded(Position(after)) != 0 {
      AdvanceEnded(before, m, p);
    }
  }

  /** The replayed board after one more move on the board is that move
      played on the board replayed so far. */
  lemma ReplayStep(before: seq<Move>, l: Move)
    requires MoveOnBoard(l)
    ensures Replay(before + [l]) == MoveCells(Replay(before), l)
  {
    assert (before + [l])[..|before|] == before;
  }

  /** A move that decides the game leaves a king on the replayed board, so
      the result the next mover reads is the replayed board's own, turned
      to the next mover's side. */
  lemma AdvanceEnded(before: seq<Move>, m: Move, p: Player)
    requires MoveOnBoard(m) && p == PlayerAt(|before|) && GameEnded(Position(before)) == 0
    requires Replay(before + [Logged(m, p)]) == MoveCells(Replay(before), Logged(m, p))
    requires p == Black ==> FlipNeg(MoveCells(Position(before), m)) == Replay(before + [Logged(m, p)])
    requires Position(before + [Logged(m, p)]) == Canonical(Replay(before + [Logged(m, p)]), Other(p))
    ensures var after := before + [Logged(m, p)];
      GameEnded(Position(after)) * Other(p) == GameEnded(Replay(after))
  {
    var after := before + [Logged(m, p)];
    var view := Position(before);
    assert Contains(view, King) && Contains(view, -King);
    OneSurvives(view, m, King, -King);
    var moved := MoveCells(view, m);
    assert Contains(Replay(after), King) || Contains(Replay(after), -King) by {
      if p == Black {
        assert FlipNeg(moved) == Replay(after);
        if Contains(moved, King) {
          ContainsFlip(moved, King);
        } else {
          ContainsFlip(moved, -King);
        }
      }
    }
    AbsoluteResult(Replay(after), Other(p));
  }

  /** Lines 182-183: a fresh search object for the move and its move
      distribution for the canonical board, which is a probability
      distribution, or all zeros when the sampling temperature is positive
      and no action of the root was visited. */
  method SearchMove(game: PyGame.XiangqiGame, predict: PyGame.Tensor -> (seq<real>, real),
                    numSims: nat, cpuct: real, sqrt: real -> real,
                    board: Board, temp: real, pick: nat) returns (pi: seq<real>)
    requires OracleOk(predict) && PieceCodes(board)
    ensures |pi| == ActionSize
    ensures temp == 0.0 ==> Sum(pi) == 1.0
    ensures Sum(pi) == 1.0 || forall a :: 0 <= a < ActionSize ==> pi[a] == 0.0
  {
    var mcts := new RemoteMcts.RemoteMcts(game, predict, numSims, cpuct, sqrt);
    pi := mcts.GetActionProb(board, temp, x => x, pick);
  }

  /** The examples gathered so far: one per logged move, holding the network
      input of the position the move was chosen in, a move distribution, and
      the side that chose it. */
  ghost predicate Gathered(history: seq<(PyGame.Tensor, seq<real>, Player)>, moves: seq<Move>) {
    |history| == |moves| && AllOnBoard(moves)
    && forall i :: 0 <= i < |history| ==>
         history[i].0 == PyGame.Planes(Position(moves[..i])) && history[i].2 == PlayerAt(i)
         && |history[i].1| == ActionSize && Sum(history[i].1) == 1.0
  }

  /** No position strictly between the opening and the last move is decided. */
  ghost predicate Undecided(moves: seq<Move>) {
    forall k :: 1 <= k < |moves| ==> GameEnded(Position(moves[..k])) == 0
  }

  /** One more move after an undecided position keeps the earlier positions undecided. */
  lemma {:induction false} UndecidedStep(moves: seq<Move>, l: Move)
    requires Undecided(moves) && (|moves| == 0 || GameEnded(Position(moves)) == 0)
    ensures Undecided(moves + [l])
  {
    var after := moves + [l];
    assert forall k :: 0 <= k <= |moves| ==> after[..k] == moves[..k];
  }

  /** One more move and its example keep the account of examples. */
  lemma {:induction false} GatherStep(history: seq<(PyGame.Tensor, seq<real>, Player)>, moves: seq<Move>,
                                      pi: seq<real>, l: Move)
    requires Gathered(history, moves) && MoveOnBoard(l)
    requires |pi| == ActionSize && Sum(pi) == 1.0
    ensures Gathered(history + [(PyGame.Planes(Position(moves)), pi, PlayerAt(|moves|))], moves + [l])
  {
    var after := moves + [l];
    assert forall k :: 0 <= k <= |moves| ==> after[..k] == moves[..k];
  }

  /** One turn of the episode: the example of the position and the logged
      move keep the accounts, and the board the move produces is the next
      mover's view of the record. */
  lemma Turn(history: seq<(PyGame.Tensor, seq<real>, Player)>, moves: seq<Move>,
             pi: seq<real>, action: int, p: Player)
    requires Gathered(history, moves) && Undecided(moves) && p == PlayerAt(|moves|)
    requires GameEnded(Position(moves)) == 0 && PieceCodes(Position(moves))
    requires |pi| == ActionSize && Sum(pi) == 1.0 && 0 <= action < ActionSize
    ensures var after := moves + [Logged(Decode(action), p)];
      Gathered(history + [(PyGame.Planes(Position(moves)), pi, p)], after) && Undecided(after)
      && NextState(Position(moves), p, action) == (Position(after), PlayerAt(|after|))
      && PieceCodes(Position(after))
      && (GameEnded(Position(after)) != 0 ==> GameEnded(Position(after)) * PlayerAt(|after|) == GameEnded(Replay(after)))
  {
    var m := Decode(action);
    GatherStep(history, moves, pi, Logged(m, p));
    UndecidedStep(moves, Logged(m, p));
    Advance(moves, m, p);
  }

  /** What an episode returns: one example per logged move, in order; the
      example of move i holds the network input of the position the mover of
      move i saw, a probability distribution over the 8100 actions, and the
      final result from that mover's side (the winner's colour times the
      mover's); no position before the last is decided; a draw is a game cut
      off after 200 moves, and otherwise the last position is decided and the
      record names the colour whose king is left on the replayed board. */
  ghost predicate EpisodeOk(ex: seq<Example>, rec: Record) {
    1 <= |ex| == |rec.moves| <= MaxSteps && AllOnBoard(rec.moves)
      && (forall i :: 0 <= i < |ex| ==>
            ex[i].state == PyGame.Planes(Position(rec.moves[..i]))
            && |ex[i].pi| == ActionSize && Sum(ex[i].pi) == 1.0
            && ex[i].value == rec.winner * PlayerAt(i))
      && (forall k :: 1 <= k < |ex| ==> GameEnded(Position(rec.moves[..k])) == 0)
      && (rec.winner == 0 ==> |ex| == MaxSteps && GameEnded(Position(rec.moves)) == 0)
      && (rec.winner != 0 ==> GameEnded(Position(rec.moves)) != 0
                              && rec.winner == GameEnded(Replay(rec.moves)))
  }

  /** The returned examples and record, from what the episode gathered and
      the outcome r the player last to move sees on the final position. */
  lemma {:induction false} Outcome(history: seq<(PyGame.Tensor, seq<real>, Player)>, moves: seq<Move>,
                                   r: int, last: Player)
    requires Gathered(history, moves) && Undecided(moves) && 1 <= |moves| <= MaxSteps
    requires last == PlayerAt(|moves|) && r == GameEnded(Position(moves))
    requires r != 0 ==> r * last == GameEnded(Replay(moves))
    requires r == 0 ==> |moves| == MaxSteps
    ensures EpisodeOk(Labelled(history, r, last), Record(moves, r * last))
  {
    LabelsAreWinner(history, r, last);
    assert moves[..|moves|] == moves;
  }

  /** The episode's loop state: the board is the replayed record, the right
      side is to move, every example so far is accounted for, and no
      position of the record is decided yet. */
  ghost predicate Playing(history: seq<(PyGame.Tensor, seq<real>, Player)>, moves: seq<Move>,
                          board: Board, current: Player) {
    current == PlayerAt(|moves|) && Gathered(history, moves) && Undecided(moves)
    && board == Position(moves) && PieceCodes(board) && GameEnded(board) == 0
  }

  /** One pass of the episode loop: the game goes on in a loop state, or
      its last move decides it and the episode's result is what it promises. */
  lemma EpisodeTurn(history: seq<(PyGame.Tensor, seq<real>, Player)>, moves: seq<Move>,
                    board: Board, current: Player, pi: seq<real>, action: int)
    requires Playing(history, moves, board, current) && |moves| < MaxSteps
    requires |pi| == ActionSize && Sum(pi) == 1.0 && 0 <= action < ActionSize
    ensures MoveIndexable(Decode(action))
    ensures var history' := history + [(PyGame.Planes(board), pi, current)];
      var moves' := moves + [Logged(Decode(action), current)];
      var next := NextState(board, current, action);
      (GameEnded(next.0) == 0 ==> Playing(history', moves', next.0, next.1))
      && (GameEnded(next.0) != 0 ==>
            EpisodeOk(Labelled(history', GameEnded(next.0), next.1), Record(moves', GameEnded(next.0) * next.1)))
  {
    Turn(history, moves, pi, action, current);
    var history' := history + [(PyGame.Planes(board), pi, current)];
    var moves' := moves + [Logged(Decode(action), current)];
    var next := NextState(board, current, action);
    if GameEnded(next.0) != 0 {
      Outcome(history', moves', GameEnded(next.0), next.1);
    }
  }

  /** The episode starts from the opening, undecided, with nothing gathered. */
  lemma Opening()
    ensures Position([]) == InitBoard() && Playing([], [], InitBoard(), Red)
  {
    InitNotEnded();
    var b := InitBoard();
    forall y | 0 <= y < Height ensures forall x :: 0 <= x < Width ==> -7 <= b[y][x] <= 7 {
    }
  }

  /** execute_episode, with the search handed the mover's own view (the
      board the previous move produced) and the record storing the winner's
      colour. The move drawn from pi is the parameter sample (pi, step);
      np.random.choice refusing a pi that is not a distribution is None. */
  method ExecuteEpisode(game: PyGame.XiangqiGame, predict: PyGame.Tensor -> (seq<real>, real),
                        numSims: nat, cpuct: real, sqrt: real -> real, tempThreshold: int,
                        pick: nat, sample: (seq<real>, nat) -> int)
    returns (result: Option<(seq<Example>, Record)>)
    requires OracleOk(predict)
    requires forall pi: seq<real>, k: nat :: |pi| == ActionSize ==> 0 <= sample(pi, k) < ActionSize
    ensures result.Some? ==> EpisodeOk(result.value.0, result.value.1)
    ensures tempThreshold <= 1 ==> result.Some?
  {
    Opening();
    result := PlayOut(game, predict, numSims, cpuct, sqrt, tempThreshold, pick, sample, [], [], InitBoard(), Red);
  }

  /** The loop of execute_episode, from any position reached in play: one
      search and one sampled move per step until the game is decided or
      the step budget is spent. */
  method PlayOut(game: PyGame.XiangqiGame, predict: PyGame.Tensor -> (seq<real>, real),
                 numSims: nat, cpuct: real, sqrt: real -> real, tempThreshold: int,
                 pick: nat, sample: (seq<real>, nat) -> int,
                 history0: seq<(PyGame.Tensor, seq<real>, Player)>, moves0: seq<Move>,
                 board0: Board, current0: Player)
    returns (result: Option<(seq<Example>, Record)>)
    requires OracleOk(predict)
    requires forall pi: seq<real>, k: nat :: |pi| == ActionSize ==> 0 <= sample(pi, k) < ActionSize
    requires |moves0| <= MaxSteps && Playing(history0, moves0, board0, current0)
    ensures result.Some? ==> EpisodeOk(result.value.0, result.value.1)
    ensures tempThreshold <= |moves0| + 1 ==> result.Some?
  {
    var history, moves, board := history0, moves0, board0;
    var current: Player := current0;
    var step := |moves|;
    while step < MaxSteps
      invariant |moves0| <= step <= MaxSteps && |moves| == step
      invariant Playing(history, moves, board, current)
    {
      step := step + 1;
      var canonicalBoard := board;
      var temp := if step < tempThreshold then 1.0 else 0.0;
      var pi := SearchMove(game, predict, numSims, cpuct, sqrt, canonicalBoard, temp, pick);
      var state := game.StateToTensor(canonicalBoard);
      if Sum(pi) != 1.0 {
        return None;
      }
      var action := sample(pi, step);
      EpisodeTurn(history, moves, board, current, pi, action);
      var m := Decode(action);
      history := history + [(state, pi, current)];
      moves := moves + [Logged(m, current)];
      var next := NextState(board, current, action);
      board, current := next.0, next.1;
      var r := GameEnded(board);
      if r != 0 {
        return Some((Labelled(history, r, current), Record(moves, r * current)));
      }
    }
    Outcome(history, moves, 0, current);
    return Some((Labelled(history, 0, current), Record(moves, 0)));
  }
}
