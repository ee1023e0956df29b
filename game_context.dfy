/** The browser game's state store: a reducer from the current state and an
    action to the next state. Boards are values, so the reducer's spreads
    and slices become datatype updates and sequence operations. */
module GameContext {
  import opened Scores
  import opened TsBoard

  datatype GameMode = PVP | PVE | Training | Replay

  datatype MoveRecord = MoveRecord(from: Position, to: Position)

  /** GameState of src/types.ts; difficulty is always present (the initial
      state sets it and every action keeps or replaces it). */
  datatype GameState = GameState(
    board: BoardState,
    turn: Color,
    selectedPos: Option<Position>,
    lastMove: Option<MoveRecord>,
    winner: Option<Color>,
    inCheck: bool,
    history: seq<BoardState>,
    moveHistory: seq<MoveRecord>,
    gameMode: GameMode,
    difficulty: int)

  datatype GameAction =
    | SelectPiece(position: Position)
    | MakeMove(from: Position, to: Position, newBoard: BoardState)
    | SetWinner(winner: Option<Color>)
    | SetCheck(inCheck: bool)
    | Undo
    | Reset
    | SetMode(mode: GameMode)
    | SetBoard(board: BoardState, turn: Option<Color>)
    | SetDifficulty(difficulty: int)

  /** initialState: the opening position, Red to move, player against
      player, difficulty 2, nothing selected, played or recorded. */
  function InitialState(): GameState {
    GameState(InitialBoard(), Red, None, None, None, false, [], [], PVP, 2)
  }

  /** Every board kept for undo belongs to a recorded move. */
  predicate HistoryBound(s: GameState) {
    |s.history| <= |s.moveHistory|
  }

  /** gameReducer. */
  function GameReducer(state: GameState, action: GameAction): (r: GameState)
    ensures HistoryBound(state) ==> HistoryBound(r)
    ensures r.gameMode == (if action.SetMode? then action.mode else state.gameMode)
    ensures r.difficulty == (match action
                             case SetMode(_) => 2
                             case SetDifficulty(d) => d
                             case _ => state.difficulty)
  {
    match action
    case SelectPiece(position) => state.(selectedPos := Some(position))
    case MakeMove(from, to, newBoard) =>
      state.(board := newBoard, turn := Opponent(state.turn), selectedPos := None,
             lastMove := Some(MoveRecord(from, to)),
             history := state.history + [state.board],
             moveHistory := state.moveHistory + [MoveRecord(from, to)])
    case SetWinner(winner) => state.(winner := winner)
    case SetCheck(inCheck) => state.(inCheck := inCheck)
    case Undo =>
      if |state.history| == 0 then state
      else
        state.(board := state.history[|state.history| - 1], turn := Opponent(state.turn),
               selectedPos := None, lastMove := None, winner := None,
               history := state.history[..|state.history| - 1])
    case Reset => InitialState().(gameMode := state.gameMode, difficulty := state.difficulty)
    case SetMode(mode) => InitialState().(gameMode := mode)
    case SetBoard(board, turn) =>
      state.(board := board, turn := if turn.Some? then turn.value else state.turn)
    case SetDifficulty(difficulty) => state.(difficulty := difficulty)
  }

  /** MAKE_MOVE: the new board is shown, the turn passes, the selection is
      cleared, and the old board and the move are recorded at the end of
      the two histories; winner, check flag, mode and difficulty stay. */
  lemma MakeMoveRecords(state: GameState, from: Position, to: Position, newBoard: BoardState)
    ensures var r := GameReducer(state, MakeMove(from, to, newBoard));
      r.board == newBoard && r.turn != state.turn && r.selectedPos == None
      && r.lastMove == Some(MoveRecord(from, to))
      && r.history == state.history + [state.board]
      && r.moveHistory == state.moveHistory + [MoveRecord(from, to)]
      && r.winner == state.winner && r.inCheck == state.inCheck
      && r.gameMode == state.gameMode && r.difficulty == state.difficulty
  {
  }

  /** UNDO with nothing to undo is the identity. */
  lemma UndoEmpty(state: GameState)
    requires state.history == []
    ensures GameReducer(state, Undo) == state
  {
  }

  /** UNDO otherwise takes the last kept board back off the history, passes
      the turn back, and clears winner, last move and selection; the move
      list, check flag, mode and difficulty stay. */
  lemma UndoRestores(state: GameState)
    requires state.history != []
    ensures var r := GameReducer(state, Undo);
      r.history + [r.board] == state.history && r.turn != state.turn
      && r.selectedPos == None && r.lastMove == None && r.winner == None
      && r.moveHistory == state.moveHistory && r.inCheck == state.inCheck
      && r.gameMode == state.gameMode && r.difficulty == state.difficulty
  {
  }

  /** UNDO right after MAKE_MOVE gives back the board, the turn and the
      history from before the move; the move itself stays in moveHistory. */
  lemma UndoAfterMakeMove(state: GameState, from: Position, to: Position, newBoard: BoardState)
    ensures var r := GameReducer(GameReducer(state, MakeMove(from, to, newBoard)), Undo);
      r.board == state.board && r.turn == state.turn && r.history == state.history
      && r.moveHistory == state.moveHistory + [MoveRecord(from, to)]
  {
    var m := GameReducer(state, MakeMove(from, to, newBoard));
    assert m.history[..|m.history| - 1] == state.history;
  }

  /** RESET starts over from the initial state in the same mode and at the
      same difficulty; a second RESET changes nothing. */
  lemma ResetKeepsSettings(state: GameState)
    ensures var r := GameReducer(state, Reset);
      r == InitialState().(gameMode := state.gameMode, difficulty := state.difficulty)
      && GameReducer(r, Reset) == r
  {
  }

  /** SET_MODE starts over from the initial state in the new mode, and so
      puts the difficulty back to 2. */
  lemma SetModeResets(state: GameState, mode: GameMode)
    ensures var r := GameReducer(state, SetMode(mode));
      r.gameMode == mode && r.difficulty == 2 && r.board == InitialBoard() && r.turn == Red
      && r.history == [] && r.moveHistory == [] && r == InitialState().(gameMode := mode)
  {
  }

  /** SET_BOARD replaces the board, and the turn only when one is given. */
  lemma SetBoardKeepsTurn(state: GameState, board: BoardState, turn: Option<Color>)
    ensures var r := GameReducer(state, SetBoard(board, turn));
      r.board == board && (turn.None? ==> r.turn == state.turn) && (turn.Some? ==> r.turn == turn.value)
      && r.history == state.history && r.moveHistory == state.moveHistory
  {
  }

  /** The state after dispatching the actions in order from initialState. */
  function Run(actions: seq<GameAction>): GameState {
    if actions == [] then InitialState()
    else GameReducer(Run(actions[..|actions| - 1]), actions[|actions| - 1])
  }

  /** In every state the store reaches, each board kept for undo has a
      recorded move. */
  lemma {:induction false} RunHistoryBound(actions: seq<GameAction>)
    ensures HistoryBound(Run(actions))
  {
    if actions != [] {
      RunHistoryBound(actions[..|actions| - 1]);
    }
  }

  /** Red is to move exactly when an even number of boards is kept. */
  predicate TurnParity(s: GameState) {
    (s.turn == Red) == (|s.history| % 2 == 0)
  }

  /** One action other than a SET_BOARD naming a turn keeps the parity. */
  lemma StepTurnParity(s: GameState, a: GameAction)
    requires TurnParity(s) && !(a.SetBoard? && a.turn.Some?)
    ensures TurnParity(GameReducer(s, a))
  {
    var r := GameReducer(s, a);
    match a
    case MakeMove(_, _, _) =>
      assert |r.history| == |s.history| + 1;
    case Undo =>
      if s.history != [] {
        assert |r.history| == |s.history| - 1;
      }
    case _ =>
  }

  /** The turn passes with every move made or undone, so the parity holds
      in every state reached without a SET_BOARD that names a turn. */
  lemma {:induction false} RunTurnParity(actions: seq<GameAction>)
    requires forall i :: 0 <= i < |actions| ==> !(actions[i].SetBoard? && actions[i].turn.Some?)
    ensures TurnParity(Run(actions))
  {
    if actions != [] {
      var init := actions[..|actions| - 1];
      assert forall i :: 0 <= i < |init| ==> init[i] == actions[i];
      RunTurnParity(init);
      StepTurnParity(Run(init), actions[|actions| - 1]);
    }
  }
}
