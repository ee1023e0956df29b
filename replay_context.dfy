/** The browser's replay store: a loaded game's moves, the board after each
    of them (computed once when the game is loaded), and the step being
    shown, driven by a reducer. */
module ReplayContext {
  import opened Scores
  import opened TsBoard

  datatype ReplayMove = ReplayMove(from: Position, to: Position)

  datatype ReplayState = ReplayState(
    gameId: Option<string>,
    moves: seq<ReplayMove>,
    currentStep: int,
    boards: seq<BoardState>,
    isLoading: bool,
    error: Option<string>)

  datatype ReplayAction =
    | LoadStart
    | LoadSuccess(gameId: string, moves: seq<ReplayMove>, boards: seq<BoardState>)
    | LoadError(error: string)
    | GoToStep(step: int)
    | NextStep
    | PrevStep
    | Reset

  /** initialState: no game, only the opening board, step 0. */
  function InitialReplay(): ReplayState {
    ReplayState(None, [], 0, [InitialBoard()], false, None)
  }

  /** The step shown is one of the boards. */
  predicate StepInRange(s: ReplayState) {
    0 <= s.currentStep < |s.boards|
  }

  function Min(a: int, b: int): int { if a <= b then a else b }
  function Max(a: int, b: int): int { if a >= b then a else b }

  /** replayReducer. Every action keeps the shown step on one of the boards,
      provided a loaded game brings at least one board. */
  function ReplayReducer(state: ReplayState, action: ReplayAction): (r: ReplayState)
    ensures StepInRange(state) && (action.LoadSuccess? ==> action.boards != []) ==> StepInRange(r)
  {
    match action
    case LoadStart => state.(isLoading := true, error := None)
    case LoadSuccess(gameId, moves, boards) =>
      state.(isLoading := false, gameId := Some(gameId), moves := moves, boards := boards, currentStep := 0)
    case LoadError(error) => state.(isLoading := false, error := Some(error))
    case GoToStep(step) => state.(currentStep := Max(0, Min(step, |state.boards| - 1)))
    case NextStep => state.(currentStep := Min(state.currentStep + 1, |state.boards| - 1))
    case PrevStep => state.(currentStep := Max(state.currentStep - 1, 0))
    case Reset => InitialReplay()
  }

  /** GO_TO_STEP shows the requested step when there is such a board, the
      first board below the range and the last above it (step 0 when there
      are no boards at all). */
  lemma GoToStepClamps(state: ReplayState, step: int)
    ensures var r := ReplayReducer(state, GoToStep(step));
      r.moves == state.moves && r.boards == state.boards
      && (0 <= step < |state.boards| ==> r.currentStep == step)
      && (step < 0 || state.boards == [] ==> r.currentStep == 0)
      && (step >= |state.boards| > 0 ==> r.currentStep == |state.boards| - 1)
  {
  }

  /** NEXT_STEP never passes the last board and PREV_STEP never goes below
      0; away from the last board, PREV_STEP undoes NEXT_STEP. */
  lemma StepBounds(state: ReplayState)
    ensures ReplayReducer(state, NextStep).currentStep <= |state.boards| - 1
    ensures ReplayReducer(state, PrevStep).currentStep >= 0
    ensures 0 <= state.currentStep < |state.boards| - 1 ==>
      ReplayReducer(ReplayReducer(state, NextStep), PrevStep) == state
  {
  }

  /** LOAD_SUCCESS shows the first board of the loaded game; LOAD_START and
      LOAD_ERROR touch only the loading flag and the error. */
  lemma LoadingFields(state: ReplayState, gameId: string, moves: seq<ReplayMove>,
                      boards: seq<BoardState>, error: string)
    ensures var r := ReplayReducer(state, LoadSuccess(gameId, moves, boards));
      r.moves == moves && r.boards == boards && r.currentStep == 0 && !r.isLoading
      && r.gameId == Some(gameId) && r.error == state.error
    ensures ReplayReducer(state, LoadStart) == state.(isLoading := true, error := None)
    ensures ReplayReducer(state, LoadError(error)) == state.(isLoading := false, error := Some(error))
  {
  }

  /** RESET forgets the game. */
  lemma ResetForgets(state: ReplayState)
    ensures ReplayReducer(state, Reset) == InitialReplay()
    ensures StepInRange(InitialReplay())
  {
  }

  // ---------------------------------------------------------------------
  // Boards of a loaded game

  /** applyMove: a copy of the board in which the to square takes the piece
      on the from square and the from square is emptied. A square off the
      board raises a TypeError (None). */
  method ApplyMove(board: BoardState, from: Position, to: Position) returns (newBoard: Option<BoardState>)
    ensures newBoard.Some? <==> OnBoard(from) && OnBoard(to)
    ensures newBoard.Some? ==> newBoard.value == AfterMove(board, from, to)
    ensures newBoard.Some? ==> forall r, c :: 0 <= r < 10 && 0 <= c < 9 ==>
      newBoard.value[r][c] == if Position(r, c) == from then None
                              else if Position(r, c) == to then board[from.row][from.col]
                              else board[r][c]
  {
    if !OnBoard(from) || !OnBoard(to) {
      return None;
    }
    var copy := board;
    copy := copy[to.row := copy[to.row][to.col := copy[from.row][from.col]]];
    copy := copy[from.row := copy[from.row][from.col := None]];
    return Some(copy);
  }

  /** Every move of the game has both squares on the board. */
  predicate AllOnBoard(moves: seq<ReplayMove>) {
    forall i :: 0 <= i < |moves| ==> OnBoard(moves[i].from) && OnBoard(moves[i].to)
  }

  /** reconstructBoards: the opening board, then the board after each move
      in turn; it raises (None) exactly when some move leaves the board. */
  method ReconstructBoards(moves: seq<ReplayMove>) returns (result: Option<seq<BoardState>>)
    ensures result.Some? <==> AllOnBoard(moves)
    ensures result.Some? ==> var boards := result.value;
      |boards| == |moves| + 1 && boards[0] == InitialBoard()
      && forall i :: 0 <= i < |moves| ==> boards[i + 1] == AfterMove(boards[i], moves[i].from, moves[i].to)
  {
    var boards := [InitialBoard()];
    var current := boards[0];
    for i := 0 to |moves|
      invariant |boards| == i + 1 && boards[0] == InitialBoard() && current == boards[i]
      invariant AllOnBoard(moves[..i])
      invariant forall j :: 0 <= j < i ==> boards[j + 1] == AfterMove(boards[j], moves[j].from, moves[j].to)
    {
      var next := ApplyMove(current, moves[i].from, moves[i].to);
      if next.None? {
        return None;
      }
      current := next.value;
      boards := boards + [current];
      assert moves[..i + 1] == moves[..i] + [moves[i]];
    }
    assert moves[..|moves|] == moves;
    return Some(boards);
  }

  // ---------------------------------------------------------------------
  // Moves as stored by the server

  /** A stored move [[col, row], [col, row]], as the front end formats it
      before saving a game. */
  function FormatMove(m: ReplayMove): (raw: seq<seq<int>>)
    ensures |raw| == 2 && |raw[0]| == 2 && |raw[1]| == 2
    ensures ParseMove(raw) == Some(m)
  {
    [[m.from.col, m.from.row], [m.to.col, m.to.row]]
  }

  /** The conversion of one stored move; a move without two squares of two
      numbers each raises on the way (None). */
  function ParseMove(raw: seq<seq<int>>): (m: Option<ReplayMove>)
    ensures m.Some? <==> |raw| >= 2 && |raw[0]| >= 2 && |raw[1]| >= 2
  {
    if |raw| < 2 || |raw[0]| < 2 || |raw[1]| < 2 then None
    else Some(ReplayMove(Position(raw[0][1], raw[0][0]), Position(raw[1][1], raw[1][0])))
  }

  /** Parsing reads back what formatting wrote, and a parsed move formats
      to the first two numbers of the first two squares it came from. */
  lemma ParseFormat(m: ReplayMove, raw: seq<seq<int>>)
    ensures ParseMove(FormatMove(m)) == Some(m)
    ensures ParseMove(raw).Some? ==> FormatMove(ParseMove(raw).value) == [raw[0][..2], raw[1][..2]]
  {
    if ParseMove(raw).Some? {
      assert raw[0][..2] == [raw[0][0], raw[0][1]];
      assert raw[1][..2] == [raw[1][0], raw[1][1]];
    }
  }

  /** The moves of a stored game, if every one of them parses. */
  function ParseMoves(raw: seq<seq<seq<int>>>): (ms: Option<seq<ReplayMove>>)
    ensures ms.Some? ==>
      |ms.value| == |raw| && forall i :: 0 <= i < |raw| ==> ParseMove(raw[i]) == Some(ms.value[i])
    ensures ms.None? ==> exists i :: 0 <= i < |raw| && ParseMove(raw[i]).None?
  {
    if raw == [] then Some([])
    else
      var init := ParseMoves(raw[..|raw| - 1]);
      var last := ParseMove(raw[|raw| - 1]);
      if init.None? then None
      else if last.None? then None
      else Some(init.value + [last.value])
  }

  /** loadGameFromData: LOAD_START, then LOAD_SUCCESS with the parsed moves
      and their boards, or LOAD_ERROR with the message of what was raised
      ("Failed to load game" for an empty message). Loading succeeds
      exactly when every stored move parses and stays on the board. */
  method LoadGameFromData(state: ReplayState, gameId: string, raw: seq<seq<seq<int>>>, message: string)
    returns (r: ReplayState)
    ensures !r.isLoading
    ensures StepInRange(state) ==> StepInRange(r)
    ensures r.error.None? <==> ParseMoves(raw).Some? && AllOnBoard(ParseMoves(raw).value)
    ensures r.error.None? ==>
      r.gameId == Some(gameId) && r.currentStep == 0 && |r.moves| == |raw| && AllOnBoard(r.moves)
      && (forall i :: 0 <= i < |raw| ==> ParseMove(raw[i]) == Some(r.moves[i]))
      && |r.boards| == |raw| + 1 && r.boards[0] == InitialBoard()
      && forall i :: 0 <= i < |raw| ==> r.boards[i + 1] == AfterMove(r.boards[i], r.moves[i].from, r.moves[i].to)
    ensures r.error.Some? ==>
      r.moves == state.moves && r.boards == state.boards && r.currentStep == state.currentStep
      && r.error == Some(if message == "" then "Failed to load game" else message)
  {
    r := ReplayReducer(state, LoadStart);
    var failure := ReplayReducer(r, LoadError(if message == "" then "Failed to load game" else message));
    var moves := ParseMoves(raw);
    if moves.None? {
      return failure;
    }
    var boards := ReconstructBoards(moves.value);
    if boards.None? {
      return failure;
    }
    r := ReplayReducer(r, LoadSuccess(gameId, moves.value, boards.value));
  }
}
