# Xiangqi rules, searches and training loop — a Dafny model

This project models the core of AI4Edu-XiangQi, an application for playing and
studying Xiangqi (Chinese chess). The core is:

- the two rules engines:
  - the server's numpy engine, `backend/game.py`, with codes 1..7 for Red's
    King, Advisor, Elephant, Horse, Rook, Cannon and Pawn and their negatives
    for Black;
  - the browser's engine, `utils/gameLogic.ts`, with pieces as records, row 0
    on Black's side, and self-check and flying-general tests;
- the classic opponent: the piece-square evaluation and the alpha-beta
  minimax of `backend/classic`;
- the browser's own opponent, `utils/aiLogic.ts`;
- the AlphaZero side:
  - the Monte-Carlo tree search of `backend/rl/algorithms/mcts.py`;
  - the remote variant of `backend/rl/workers/self_play.py`;
  - a self-play episode;
  - the arena that pits two players against each other;
  - the search for the latest checkpoint;
- the server's list of logged training iterations, and the coordinate flip
  it applies to a bot's move;
- the two browser state stores: the game store and the replay store.

Boards are values: `seq<seq<int>>` of shape 10 × 9 for the server and
`seq<seq<Option<Piece>>>` for the browser. The game object `XiangqiGame`,
the minimax solver and the two MCTS objects are classes with fields. In the
MCTS classes only `Simulate`, the simulation loop of `get_action_prob`,
writes the five tables. The recursive `Search` and its steps (`ExpandLeaf`,
`Descend`, `Backup`) take the tables as a value (`Tables`) and return the
updated ones.

Each move generator is a method with the generator's own loops. It is proved
against a declarative rule predicate (`KingTarget`, `CannonTarget`, …) in both
directions.

Each search is proved against a reference value:
- the classic and browser minimax are fail-soft alpha-beta searches, proved
  against the plain minimax value of the same tree;
- the MCTS keeps its tables consistent: every Q value is the mean of the
  values backed up through its edge, and every state's visit count is the
  sum of its edges' counts;
- the training loop is proved against a replay of the logged moves.

The module `EngineAgreement` proves that the two engines implement the same
rules once a browser row r is read as server row y = 9 − r.

## Model

| member | source | states |
|---|---|---|
| PyBoard.EmptyBoard | backend/game.py:28-30 | the board `_init_board` starts from holds 0 on every square |
| PyBoard.Other | backend/game.py:253 | the other player is the negation: q + p == 0 |
| PyBoard.InitBoard | backend/game.py:28-49 | Red's king on (4, 0) and Black's on (4, 9); Red's pieces only on rows 0..4, Black's only on rows 5..9, and row 9 − y holds the negated codes of row y |
| PyBoard.Encode | backend/game.py:306-329 | an on-board move gets a code in 0..8099 from which division and remainder by 90 and 9 read back the start and end rows and columns |
| PyBoard.Decode | backend/game.py:331-339 | every action in 0..8099 decodes to an on-board move that encodes back to the same action |
| PyBoard.DecodeMinusOne | backend/game.py:331-337 | with floor division, action −1 decodes to ((8, −1), (8, 9)), a move off the board |
| PyBoard.MoveCellsEffect | backend/game.py:376-382 | applying an on-board move: the end square takes the moving code, the start square is emptied, every other square is unchanged |
| PyBoard.MoveIndexableOfAction | backend/game.py:372-382 | the decoded move of any action in 0..8099, and of −1, can index the numpy array (row −1 wraps to row 9) |
| PyBoard.FlipNeg | backend/game.py:424-428 | the flipped, negated board holds −b[9−y][x] at (x, y) |
| PyBoard.FlipNegInvolution | backend/game.py:424-428 | flipping and negating twice gives the board back |
| PyBoard.Canonical | backend/game.py:424-428 | Red's canonical form is the board itself; Black's form, flipped and negated once more, is the board again |
| PyBoard.NextState | backend/game.py:347-388 | the returned board, flipped and negated back, is the board with the decoded move applied, and the other player is to move |
| PyBoard.ChildIsMoveInPlace | backend/game.py:347-388 | get_next_state then get_canonical_form is the move applied in place on the same board, and the turn passes to the other player |
| PyBoard.GameEnded | backend/game.py:409-422 | −1 exactly when the own king is missing; 1 exactly when the own king is present and the enemy king is missing; otherwise 0 |
| PyBoard.GameEndedFlip | backend/game.py:409-428 | while some king is on the board, the other side's canonical view reports the opposite result |
| PyBoard.InitNotEnded | backend/game.py:28-49 | the opening position is undecided |
| PyBoard.Signature | backend/game.py:430-431 | the state key holds board[y][x] at position y*9 + x |
| PyBoard.SignatureInjective | backend/game.py:430-431 | the board can be read back from its key, so two different boards never share a key |
| PyBoard.PseudoLegalOnBoard | backend/game.py:51-59 | every listed move starts and ends on the board |
| PyBoard.CannonAlongOpeningRow | backend/game.py:201-223 | a cannon on (1, 2) in a row otherwise as at the opening may slide to (4, 2) over empty squares |
| PyBoard.InitCannonMoveLegal | backend/game.py:390-407 | in the opening, Red's cannon move (1, 2)→(4, 2) is legal and its action is marked valid |
| PyGame.XiangqiGame.constructor | backend/game.py:23-26 | a new game holds the opening board, Red to move, an empty history |
| PyGame.ElephantTable | backend/game.py:133-134 | each of the four elephant steps is two squares along both axes, and its eye is the square halfway along it |
| PyGame.HorseTable | backend/game.py:162-170 | each of the eight horse steps is a (1, 2) or (2, 1) leap, and its leg is the orthogonal square one step along the long axis |
| PyGame.XiangqiGame.KingMoves | backend/game.py:95-112 | the listed moves are exactly the one-step orthogonal moves inside the own palace onto a square not held by an own piece |
| PyGame.XiangqiGame.AdvisorMoves | backend/game.py:114-128 | exactly the one-step diagonal moves inside the own palace not onto an own piece |
| PyGame.XiangqiGame.ElephantMoves | backend/game.py:130-155 | exactly the two-step diagonal moves that stay on the own side of the river, have an empty eye square and do not land on an own piece |
| PyGame.XiangqiGame.HorseMoves | backend/game.py:157-181 | exactly the knight leaps whose leg square is empty and that do not land on an own piece |
| PyGame.XiangqiGame.RookMoves | backend/game.py:183-199 | exactly the squares of a row or column with nothing in between that are empty or hold an enemy piece |
| PyGame.XiangqiGame.RookRay | backend/game.py:188-198 | one direction of the rook's scan lists exactly that direction's rook targets |
| PyGame.XiangqiGame.CannonMoves | backend/game.py:201-223 | exactly the empty squares reached over nothing, and the enemy pieces reached over exactly one platform of either colour |
| PyGame.XiangqiGame.CannonRay | backend/game.py:206-222 | one direction of the cannon's scan lists exactly that direction's cannon targets |
| PyGame.XiangqiGame.PawnMoves | backend/game.py:225-246 | exactly one step forward, plus one step sideways once across the river, never onto an own piece |
| PyGame.XiangqiGame.PieceMoves | backend/game.py:61-77 | the moves of the piece on the square are exactly the targets of its type's rule |
| PyGame.XiangqiGame.GetLegalMoves | backend/game.py:51-59 | the list holds exactly the pseudo-legal moves of the side to move |
| PyGame.XiangqiGame.MakeMove | backend/game.py:248-254 | the board is the move applied to the old board, the turn passes, and the move is appended to the history |
| PyGame.XiangqiGame.IsGameOver | backend/game.py:256-261 | once fewer than two king codes remain, get_game_ended has a result |
| PyGame.KingsCounted | backend/game.py:256-261 | while both kings stand, at least two squares hold a king code, so the game is not over |
| PyGame.WinnerOf | backend/game.py:263-274 | get_game_ended's result for Red once fewer than two king codes remain, otherwise 0 |
| PyGame.XiangqiGame.GetWinner | backend/game.py:263-274 | 0 while the game goes on; once it is over, get_game_ended's result for Red |
| PyGame.XiangqiGame.GetCanonicalBoard | backend/game.py:276-283 | the board itself when Red is to move; in every case, seen once more from the side to move, it is the game's board |
| PyGame.ValidVector | backend/game.py:390-407 | 8100 entries, each 0 or 1, and 1 exactly at the actions that decode to a pseudo-legal move of the side to move |
| PyGame.XiangqiGame.GetValidMoves | backend/game.py:390-407 | the vector returned by the loop over the legal moves is the 0/1 vector of legal actions |
| PyGame.Planes | backend/game.py:288-304 | every entry is 0 or 1, a square lights at most one plane, and it lights exactly the plane of its code: own pieces one of planes 0..6, enemy pieces one of planes 7..13, an empty square none |
| PyGame.XiangqiGame.StateToTensor | backend/game.py:288-304 | the tensor the loops fill is the 14-plane encoding of the board |
| ClassicEval.EvaluateBoard | backend/classic/evaluation.py:122-178 | the scan returns BoardScore, the total over all squares of piece value plus table bonus, added for Red and subtracted for Black |
| ClassicEval.CellScoreMirror | backend/classic/evaluation.py:159-176 | a Black piece on row 9−y is worth the negation of a Red piece of the same type on row y |
| ClassicEval.ScoreAntisymmetric | backend/classic/evaluation.py:145-178 | the score of the flipped, negated board is the negated score: the evaluation is zero-sum between the two views |
| ClassicEval.RowScoreMirror | backend/classic/evaluation.py:145-178 | a row of the flipped board scores the negation of the mirrored row |
| ClassicEval.RowsScoreMirror | backend/classic/evaluation.py:145-178 | the first n rows of the flipped board score the negation of the last n rows of the board |
| ClassicEval.SingleSquareScore | backend/classic/evaluation.py:145-178 | a board with one occupied square scores exactly that square's value |
| ClassicEval.RowScoreOnly | backend/classic/evaluation.py:145-178 | with one occupied square, a row prefix scores that square's value when it holds the square, otherwise 0 |
| ClassicEval.RowsScoreOnly | backend/classic/evaluation.py:145-178 | with one occupied square, the first n rows score that square's value when they hold it, otherwise 0 |
| ClassicEval.EmptyBoardScore | backend/classic/evaluation.py:145-178 | the empty board scores 0 |
| ClassicEval.Lone | backend/classic/evaluation.py:145-178 | builds a board holding the given code on the given square and nothing else |
| ClassicEval.MirroredRooksLevel | backend/classic/evaluation.py:159-176 | a Red rook on (0, 0) against a Black rook on (0, 9) scores 0 |
| ClassicEval.CrossedPawnScoresMore | backend/classic/evaluation.py:10-18 | a lone Red pawn across the river, on (4, 5), scores more than one at home on (4, 3) |
| ClassicMinimax.Where | backend/classic/minimax.py:30-31 | np.where(valids == 1): the listed indices are exactly those holding 1 |
| ClassicMinimax.WhereIncreasing | backend/classic/minimax.py:30-31 | the listed indices are strictly increasing, so each appears once |
| ClassicMinimax.ValidActions | backend/classic/minimax.py:30-31 | the valid actions of a board are exactly its legal actions, all in 0..8099 |
| ClassicMinimax.ChildIsNextCanonical | backend/classic/minimax.py:54-55 | the child the solver searches is the move applied in place: the two flips cancel, so the same side is to move again in the child |
| ClassicMinimax.ChildScores | backend/classic/minimax.py:88-111 | one negated child value per listed action |
| ClassicMinimax.MinimaxSolver.constructor | backend/classic/minimax.py:15-24 | the solver keeps the game and the search depth |
| ClassicMinimax.MinimaxSolver.GetBestMove | backend/classic/minimax.py:26-64 | None exactly when no action is legal; otherwise a legal action that no legal action outscores, and the first best one in the shuffled order |
| ClassicMinimax.MinimaxSolver.BestOf | backend/classic/minimax.py:53-62 | the action picked holds the largest score, and every earlier action scores strictly less |
| ClassicMinimax.MinimaxSolver.SearchChild | backend/classic/minimax.py:89-92 | searching a child with a window gives a fail-soft bound on the child's exact value |
| ClassicMinimax.MinimaxSolver.Minimax | backend/classic/minimax.py:66-111 | the pruned search returns the plain minimax value when the value lies inside (alpha, beta), an upper bound at or below alpha, and a lower bound at or above beta |
| ClassicMinimax.MinimaxSolver.MaxLoop | backend/classic/minimax.py:86-98 | the maximising loop with cut-off is fail-soft for the largest child score |
| ClassicMinimax.MinimaxSolver.MaxChild | backend/classic/minimax.py:88-97 | one pass of the maximising loop keeps the loop invariant, or ends with a fail-soft result after a cut-off |
| ClassicMinimax.MinimaxSolver.MinLoop | backend/classic/minimax.py:99-111 | the minimising loop with cut-off is fail-soft for the smallest child score |
| ClassicMinimax.MinimaxSolver.MinChild | backend/classic/minimax.py:101-110 | one pass of the minimising loop keeps its invariant, or ends with a fail-soft result after a cut-off |
| ClassicMinimax.BestStep | backend/classic/minimax.py:60-62 | a score replaces the best so far only when strictly larger, which keeps "first strict maximum" |
| ClassicMinimax.BestEnd | backend/classic/minimax.py:53-64 | after all actions, the best index holds the maximum, and every earlier index scores strictly less |
| ClassicMinimax.NoValidAction | backend/classic/minimax.py:33-34 | an empty list of valid actions means no action is legal |
| ClassicMinimax.BestMoveChoice | backend/classic/minimax.py:51-64 | the strict-maximum entry of a shuffled list is legal, outscores no legal action, and is the first best action of the shuffled list |
| ClassicMinimax.RootChoice | backend/classic/minimax.py:53-64 | when the list holds exactly the legal actions, its first strict maximum is a best legal action |
| ClassicMinimax.RootScoreIs | backend/classic/minimax.py:54-58 | the root score of the k-th action is its negated child value |
| ClassicMinimax.ShuffleKeepsActions | backend/classic/minimax.py:51 | a shuffled list holding the same actions holds only actions, and is not empty when the original was not |
| ClassicMinimax.OpeningHasValidAction | backend/classic/minimax.py:30-34 | the opening has a valid action, so the solver answers with a move there |
| Scores.NegReverses | backend/classic/minimax.py:92 | negating a score twice gives it back, and negation reverses the order, infinities included |
| Scores.NegWindow | backend/classic/minimax.py:92 | the negated window (−beta, −alpha) is a proper window when (alpha, beta) is |
| Scores.FailSoftFullWindow | backend/classic/minimax.py:58 | with the window (−inf, +inf) the fail-soft result is the exact value |
| Scores.FailSoftNeg | backend/classic/minimax.py:92 | a fail-soft result for a window becomes, negated, a fail-soft result for the negated window |
| Scores.FailSoftMaxStep | backend/classic/minimax.py:94-95 | taking the maximum with a child searched in the raised window keeps the maximum fail-soft |
| Scores.FailSoftMinStep | backend/classic/minimax.py:107-108 | taking the minimum with a child searched in the lowered window keeps the minimum fail-soft |
| Scores.MaxOf | backend/classic/minimax.py:87-98 | the maximum is finite exactly when there is some score |
| Scores.MaxOfIsMax | backend/classic/minimax.py:87-98 | the maximum bounds every score and is one of them |
| Scores.MinOf | backend/classic/minimax.py:100-111 | the minimum is finite exactly when there is some score |
| Scores.MinOfIsMin | backend/classic/minimax.py:100-111 | the minimum is at most every score and is one of them |
| Scores.MaxLoopStart | backend/classic/minimax.py:87 | before the first child, max_eval = −inf satisfies the maximising loop invariant |
| Scores.MaxOfSnoc | backend/classic/minimax.py:94 | the maximum of one more score is the larger of the old maximum and the new score |
| Scores.MaxChildStep | backend/classic/minimax.py:92-95 | a negated child result, searched with the negated window, keeps the running maximum fail-soft |
| Scores.MaxCutoff | backend/classic/minimax.py:96-97 | once beta <= max_eval, the partial maximum is already a fail-soft bound for all children |
| Scores.MaxOfPrefix | backend/classic/minimax.py:88-98 | a prefix's maximum never exceeds the whole list's |
| Scores.MaxLoopAdvance | backend/classic/minimax.py:88-97 | one pass of the maximising loop keeps the invariant, or ends fail-soft after a cut-off |
| Scores.MaxLoopEnd | backend/classic/minimax.py:98 | without a cut-off, the final max_eval is fail-soft for the maximum of all children |
| Scores.MinLoopStart | backend/classic/minimax.py:100 | before the first child, min_eval = +inf satisfies the minimising loop invariant |
| Scores.MinOfSnoc | backend/classic/minimax.py:107 | the minimum of one more score is the smaller of the old minimum and the new score |
| Scores.MinChildStep | backend/classic/minimax.py:105-108 | a negated child result keeps the running minimum fail-soft |
| Scores.MinCutoff | backend/classic/minimax.py:109-110 | once min_eval <= alpha, the partial minimum is a fail-soft bound for all children |
| Scores.MinOfPrefix | backend/classic/minimax.py:101-111 | a prefix's minimum is never below the whole list's |
| Scores.MinLoopAdvance | backend/classic/minimax.py:101-110 | one pass of the minimising loop keeps the invariant, or ends fail-soft after a cut-off |
| Scores.MinLoopEnd | backend/classic/minimax.py:111 | without a cut-off, the final min_eval is fail-soft for the minimum of all children |
| Scores.MaxLoopChild | utils/aiLogic.ts:144-150 | one pass of the front end's maximising loop, with a child score fail-soft for the child's value, keeps the loop invariant (or ends fail-soft after a cut-off), and with the full window a new best score is the child's exact value |
| Scores.MinLoopChild | utils/aiLogic.ts:163-169 | one pass of the front end's minimising loop keeps the loop invariant (or ends fail-soft after a cut-off), and with the full window a new best score is the child's exact value |
| TsBoard.Opponent | utils/aiLogic.ts:142 | the opponent of a colour is the other colour |
| TsBoard.InitialBoard | constants.ts:7-88 | Black's general on row 0, column 4, and Red's on row 9; every Red piece on rows 5..9 and every Black piece on rows 0..4 |
| TsLogic.GeneralMoves | utils/gameLogic.ts:28-45 | the listed squares are exactly the one-step orthogonal moves inside the own palace onto an empty or enemy square |
| TsLogic.AdvisorMoves | utils/gameLogic.ts:46-61 | exactly the one-step diagonal moves inside the own palace onto an empty or enemy square |
| TsLogic.ElephantMoves | utils/gameLogic.ts:62-80 | exactly the two-step diagonal moves on the own side of the river with an empty eye |
| TsLogic.HorseMoves | utils/gameLogic.ts:81-103 | exactly the leaps whose leg square is empty and that land on an empty or enemy square |
| TsLogic.ChariotMoves | utils/gameLogic.ts:104-126 | exactly the row and column squares with nothing in between that are empty or hold an enemy piece |
| TsLogic.ChariotRay | utils/gameLogic.ts:107-125 | one direction's loop lists exactly that direction's chariot targets |
| TsLogic.CannonMoves | utils/gameLogic.ts:127-162 | exactly the empty squares reached over nothing, and the enemy pieces reached over exactly one screen |
| TsLogic.CannonRay | utils/gameLogic.ts:130-161 | one direction's loop lists exactly that direction's cannon targets |
| TsLogic.SoldierMoves | utils/gameLogic.ts:163-178 | exactly one step forward, plus one step sideways once across the river |
| TsLogic.GetPotentialMoves | utils/gameLogic.ts:10-181 | the squares listed for a position are exactly the targets of the rule of the piece standing there, and none for an empty square |
| TsLogic.PotentialNeverSelfCapture | utils/gameLogic.ts:19-25 | a listed move starts from a piece, stays on the board and never lands on a piece of the mover's colour |
| TsLogic.GeneralScan | utils/gameLogic.ts:184-195 | a general the scan reports stands on the board, in a palace column |
| TsLogic.IsFlyingGeneral | utils/gameLogic.ts:184-207 | true exactly when both generals are found in the same column with nothing between them |
| TsLogic.FirstGeneralInRow | utils/gameLogic.ts:212-219 | the scan of a row finds the first general of the colour, or reports that the rest of the row holds none |
| TsLogic.GeneralAt | utils/gameLogic.ts:210-222 | a general the row-major scan reports is on the board and is the colour's general |
| TsLogic.IsCheck | utils/gameLogic.ts:210-245 | true exactly when the colour's general is missing or some enemy piece lists the general's square among its targets |
| TsLogic.GetValidMoves | utils/gameLogic.ts:248-267 | the valid moves are exactly the potential moves after which the mover is not in check and the generals do not face each other |
| TsLogic.HasLegalMoves | utils/gameLogic.ts:271-282 | true exactly when some piece of the colour has a valid move |
| TsLogic.ValidKeepsGeneral | utils/gameLogic.ts:248-267 | after a valid move, the mover still has a general and no enemy piece attacks it |
| EngineAgreement.Code | utils/gameLogic.ts:4-25 | a browser cell maps to the server code of its piece: 0 exactly for an empty cell, positive for Red, negative for Black |
| EngineAgreement.ToServer | backend/game.py:28-49 | the server board holds, at row y, the codes of browser row 9 − y |
| EngineAgreement.LineMirror | utils/gameLogic.ts:104-126 | a line of the browser board is a line of the server board, the square before its end mirrors to the square before the mirrored end, and a shorter line remains |
| EngineAgreement.BetweenMirrored | utils/gameLogic.ts:104-162 | on any server board that mirrors the browser board, the number of pieces between two squares of a line is the same in both engines |
| EngineAgreement.BetweenAgrees | utils/gameLogic.ts:104-162 | the number of pieces between two squares of a line is the same in both engines |
| EngineAgreement.CellAgrees | utils/gameLogic.ts:19-25 | own, enemy and empty squares read the same in both engines |
| EngineAgreement.GeneralAgrees | utils/gameLogic.ts:28-45 | the general's rule is the server king's rule, in both directions |
| EngineAgreement.AdvisorAgrees | utils/gameLogic.ts:46-61 | the advisor rules of the two engines agree, in both directions |
| EngineAgreement.ElephantAgrees | utils/gameLogic.ts:62-80 | the elephant rules of the two engines agree, river and eye included |
| EngineAgreement.HorseAgrees | utils/gameLogic.ts:81-103 | the horse rules of the two engines agree, leg included |
| EngineAgreement.ChariotAgrees | utils/gameLogic.ts:104-126 | the chariot's rule is the server rook's rule |
| EngineAgreement.CannonAgrees | utils/gameLogic.ts:127-162 | the cannon rules of the two engines agree |
| EngineAgreement.SoldierAgrees | utils/gameLogic.ts:163-178 | the soldier's rule is the server pawn's rule, forward and across the river |
| EngineAgreement.GeneralRule | utils/gameLogic.ts:28-45 | for a general on any server board that mirrors the browser board, the browser's targets are the server's targets |
| EngineAgreement.AdvisorRule | utils/gameLogic.ts:46-61 | for an advisor on any mirrored server board, the browser's targets are the server's targets |
| EngineAgreement.ElephantRule | utils/gameLogic.ts:62-80 | for an elephant on any mirrored server board, the browser's targets are the server's targets |
| EngineAgreement.HorseRule | utils/gameLogic.ts:81-103 | for a horse on any mirrored server board, the browser's targets are the server's targets |
| EngineAgreement.ChariotRule | utils/gameLogic.ts:104-126 | for a chariot on any mirrored server board, the browser's targets are the server rook's targets |
| EngineAgreement.CannonRule | utils/gameLogic.ts:127-162 | for a cannon on any mirrored server board, the browser's targets are the server's targets |
| EngineAgreement.SoldierRule | utils/gameLogic.ts:163-178 | for a soldier on any mirrored server board, the browser's targets are the server pawn's targets |
| EngineAgreement.PieceRulesMirrored | utils/gameLogic.ts:10-181 | for every piece and every server board that mirrors the browser board, the browser's potential targets are exactly the server's targets |
| EngineAgreement.PieceRulesAgree | utils/gameLogic.ts:10-181 | for every piece, the browser's potential targets are exactly the server's targets once rows are flipped |
| EngineAgreement.InitialBoardsAgree | backend/game.py:28-49 | the browser's opening board, read row-flipped, is the server's opening board |
| EngineAgreement.OpeningRowAgrees | constants.ts:7-88 | each row of the browser's opening board, read row-flipped, is that row of the server's opening board |
| EngineAgreement.MirroredRow | constants.ts:3-5 | server row y of the flipped board is the browser's row 9 − y read as codes |
| EngineAgreement.BackRanksAgree | backend/game.py:31-45 | the browser back ranks read as codes are the server's rows 0 (Red) and 9 (Black) |
| EngineAgreement.CannonRanksAgree | backend/game.py:37-46 | the browser cannon ranks read as codes are the server's rows 2 and 7 |
| EngineAgreement.SoldierRanksAgree | backend/game.py:38-47 | the browser soldier ranks read as codes are the server's rows 3 and 6 |
| EngineAgreement.EmptyRanksAgree | backend/game.py:29 | the empty browser rank reads as the server's empty rows 1, 4, 5 and 8 |
| AiLogic.PositionBonus | utils/aiLogic.ts:17-38 | a soldier earns a bonus exactly when it is across the river, between 30 and 70; pieces other than soldier, cannon and horse earn none |
| AiLogic.EvaluateBoard | utils/aiLogic.ts:42-62 | the scan returns the sum over all pieces of value plus bonus, added for the AI's colour and subtracted for the other |
| AiLogic.RowValueZeroSum | utils/aiLogic.ts:42-62 | a row is worth to Red the negation of what it is worth to Black |
| AiLogic.RowsValueZeroSum | utils/aiLogic.ts:42-62 | the first n rows are worth to Red the negation of what they are worth to Black |
| AiLogic.EvaluationZeroSum | utils/aiLogic.ts:42-62 | the evaluation for Red is the negation of the evaluation for Black |
| AiLogic.Mirror | utils/aiLogic.ts:17-38 | the mirrored position reverses the rows and swaps the colours |
| AiLogic.CellValueMirror | utils/aiLogic.ts:17-62 | a piece on row r is worth to its side what the colour-swapped piece on row 9 − r is worth to the other side |
| AiLogic.RowValueMirror | utils/aiLogic.ts:42-62 | a mirrored row is worth to the other colour what the original row is worth |
| AiLogic.RowsValueMirror | utils/aiLogic.ts:42-62 | the first n mirrored rows are worth to the other colour what the last n rows are worth |
| AiLogic.EvaluationMirror | utils/aiLogic.ts:42-62 | the mirrored position is worth to the other colour what the position is worth |
| AiLogic.SymmetricPositionIsLevel | utils/aiLogic.ts:42-62 | a position equal to its own mirror is worth 0 to both colours |
| AiLogic.OpeningIsLevel | utils/aiLogic.ts:42-62 | the opening position is worth 0 |
| AiLogic.SetMax | utils/aiLogic.ts:134-152 | the largest member of a non-empty set of child values |
| AiLogic.SetMin | utils/aiLogic.ts:153-172 | the smallest member of a non-empty set of child values |
| AiLogic.LegalMovesExact | utils/aiLogic.ts:118-129 | the set of legal moves holds exactly the moves of a piece of the colour to one of its valid targets |
| AiLogic.LegalMovesOnBoard | utils/aiLogic.ts:118-129 | every legal move starts and ends on the board |
| AiLogic.MovesListed | utils/aiLogic.ts:118-129 | a list holding exactly the legal moves has the same members as the set of legal moves |
| AiLogic.ChildSeq | utils/aiLogic.ts:136-170 | the values of the listed moves' children, in list order |
| AiLogic.ExtremaMatch | utils/aiLogic.ts:134-172 | a list and a set with the same values share their maximum and minimum |
| AiLogic.ChildValueListed | utils/aiLogic.ts:134-172 | every child value of the position is the value of some listed move |
| AiLogic.ChildValueIn | utils/aiLogic.ts:134-172 | the child value of a legal move is among the position's child values |
| AiLogic.ChildSeqBounds | utils/aiLogic.ts:134-172 | over a list of exactly the legal moves, the list's maximum and minimum are the set's |
| AiLogic.ChildValuesNonEmpty | utils/aiLogic.ts:107-112 | a side that has a legal move has a child value |
| AiLogic.SomeLegalMove | utils/gameLogic.ts:271-282 | a side that has a legal move has a legal move in the set |
| AiLogic.MaxNodeValue | utils/aiLogic.ts:134-152 | a maximising node with moves is worth the largest child value |
| AiLogic.MinNodeValue | utils/aiLogic.ts:153-172 | a minimising node with moves is worth the smallest child value |
| AiLogic.ExpandedValue | utils/aiLogic.ts:118-172 | over a list of exactly the legal moves, the list's maximum (or minimum) is the node's value |
| AiLogic.CollectMoves | utils/aiLogic.ts:118-129 | the collected list holds exactly the legal moves of the colour |
| AiLogic.Minimax | utils/aiLogic.ts:81-173 | the pruned search is fail-soft with respect to the unpruned minimax value; it reports a move exactly when depth > 0 and the side has a legal move; the move is legal; with the full window its child has the returned value |
| AiLogic.Expand | utils/aiLogic.ts:114-172 | a node with moves: a fail-soft value and a legal best move, which reaches the value with the full window |
| AiLogic.SearchChild | utils/aiLogic.ts:137-143 | searching the child of the i-th move gives a fail-soft bound on its value |
| AiLogic.MaxLoop | utils/aiLogic.ts:134-152 | the maximising loop is fail-soft for the largest child value and keeps a listed move; with the full window that move reaches the value and every move listed before it scores strictly less, so it is the first strict improvement that set bestMove |
| AiLogic.MinLoop | utils/aiLogic.ts:153-172 | the minimising loop is fail-soft for the smallest child value and keeps a listed move; with the full window that move reaches the value and every move listed before it scores strictly more, so it is the first strict improvement that set bestMove |
| AiLogic.GetBestMove | utils/aiLogic.ts:74-78 | null exactly when the side to move has no legal move; otherwise a legal move whose child has the root's 3-ply value, which no legal move exceeds |
| MctsStats.EdgeSumBump | backend/rl/algorithms/mcts.py:142-149 | one more visit on an edge raises its state's edge sum by one when the action is counted, and leaves every other state's sum alone |
| MctsStats.EdgeSumFresh | backend/rl/algorithms/mcts.py:108-109 | a state with no edges has edge sum 0 |
| MctsStats.Counts | backend/rl/algorithms/mcts.py:55 | the counts vector holds, for each of the 8100 actions, the visits on the state's edge, 0 when there is none |
| MctsStats.CountsTotal | backend/rl/algorithms/mcts.py:55 | the counts vector adds up to the state's visits on actions 0..8099 |
| MctsStats.Divide | backend/rl/algorithms/mcts.py:66 | elementwise division by the total |
| MctsStats.SumDivide | backend/rl/algorithms/mcts.py:64-67 | dividing every entry by d divides the sum by d |
| MctsStats.Normalised | backend/rl/algorithms/mcts.py:64-67 | a vector divided by its non-zero sum sums to 1 |
| MctsStats.Zeros | backend/rl/workers/self_play.py:66 | the zero vector of the given length |
| MctsStats.SumZeros | backend/rl/workers/self_play.py:66 | the zero vector sums to 0 |
| MctsStats.NonNegZeroSum | backend/rl/algorithms/mcts.py:99-106 | a non-negative vector with no positive mass is all zeros |
| MctsStats.SumNonNeg | backend/rl/algorithms/mcts.py:99 | a non-negative vector has a non-negative sum |
| MctsStats.AsReal | backend/rl/workers/self_play.py:94 | the valid vector as reals, entry by entry |
| MctsStats.Mask | backend/rl/algorithms/mcts.py:98 | policy * valids, entry by entry |
| MctsStats.LeafPolicy | backend/rl/workers/self_play.py:88-96 | the stored leaf policy has one entry per action |
| MctsStats.LeafPolicyFacts | backend/rl/workers/self_play.py:88-96 | the stored policy is 0 on invalid actions, sums to 1 when some action is valid, and is all zeros otherwise; with no positive mass left after masking it is uniform over the valid actions |
| MctsStats.LeafMasked | backend/rl/workers/self_play.py:89-92 | with positive mass after masking, the stored policy is the masked policy over its sum: 0 on invalid actions, summing to 1 |
| MctsStats.LeafUniform | backend/rl/workers/self_play.py:93-94 | with no mass after masking but some valid action, the stored policy is uniform over the valid actions and sums to 1 |
| MctsStats.LeafPolicyNonNeg | backend/rl/workers/self_play.py:88-96 | a non-negative network policy gives a non-negative stored policy |
| MctsStats.ValidCount | backend/rl/workers/self_play.py:94 | the number of valid actions is non-negative, and at least 1 when some action is valid |
| MctsStats.MoveKeepsCodes | backend/game.py:376-382 | moving a piece, including the wrapped move of action −1, keeps every square a piece code |
| MctsStats.FirstBestUnique | backend/rl/algorithms/mcts.py:123-131 | the scan with a strict comparison has one answer: two first maxima are the same action |
| MctsStats.UcbScores | backend/rl/algorithms/mcts.py:124-127 | one UCB score per action |
| MctsStats.SelectAction | backend/rl/algorithms/mcts.py:113-133 | −1 exactly when no action is valid; otherwise the first valid action of highest UCB score |
| MctsStats.RunningMean | backend/rl/algorithms/mcts.py:143 | (n·Q + v)/(n + 1) is the mean of the n backed-up values and v |
| MctsStats.MeanStep | backend/rl/algorithms/mcts.py:143 | the running-mean update, written with the count and the mean |
| MctsStats.MeanSingle | backend/rl/algorithms/mcts.py:146 | the mean of one value is that value |
| MctsStats.BackupKeepsMeans | backend/rl/algorithms/mcts.py:142-147 | both branches of the backup keep every Q value the mean of the values backed up through its edge, and N the number of them |
| MctsStats.BackupKnownEdge | backend/rl/algorithms/mcts.py:142-144 | the known-edge branch keeps Q the mean of the backed-up values |
| MctsStats.BackupNewEdge | backend/rl/algorithms/mcts.py:145-147 | the new-edge branch starts Q at v with one visit |
| MctsStats.MeansUpdate | backend/rl/algorithms/mcts.py:142-147 | setting one edge to a mean and its count keeps the table of means consistent |
| MctsStats.RecordEnded | backend/rl/algorithms/mcts.py:86-87 | recording get_game_ended of a board keeps the tables consistent |
| MctsStats.Expand | backend/rl/algorithms/mcts.py:92-110 | storing the leaf policy and Ns = 0 for an undecided, unexpanded state keeps the tables consistent |
| MctsStats.ExpandCache | backend/rl/algorithms/mcts.py:108-109 | the stored policy is the leaf policy of the state's board |
| MctsStats.ExpandVisits | backend/rl/algorithms/mcts.py:109 | a new state with Ns = 0 keeps every visit count equal to its edges' sum |
| MctsStats.BackedUp | backend/rl/algorithms/mcts.py:142-149 | the backup leaves the end and policy tables unchanged |
| MctsStats.BackupStep | backend/rl/algorithms/mcts.py:142-149 | the backup keeps the whole table invariant: cached results, means, edge ranges and visit sums |
| MctsStats.BackupCache | backend/rl/algorithms/mcts.py:142-149 | the backup keeps the cached end results and policies |
| MctsStats.BackupMeans | backend/rl/algorithms/mcts.py:142-147 | the backup keeps the means |
| MctsStats.ActionInRange | backend/rl/algorithms/mcts.py:121 | a legal action lies in 0..8099 |
| MctsStats.RecountKeepsCache | backend/rl/algorithms/mcts.py:149 | changing a visit count keeps the cache consistent |
| MctsStats.BackupEdges | backend/rl/algorithms/mcts.py:142-147 | every edge still belongs to a visited state, with an action in 0..8099 or −1 |
| MctsStats.BackupVisits | backend/rl/algorithms/mcts.py:142-149 | Ns[s] and Nsa[(s, a)] rise together, so every visit count stays its edges' sum |
| MctsStats.GrownAt | backend/rl/algorithms/mcts.py:69-150 | tables that have grown keep every expanded state, and no count decreases |
| MctsStats.BackupGrows | backend/rl/algorithms/mcts.py:142-149 | the backup only grows the tables, and raises Ns[s] and Nsa[(s, a)] by one |
| MctsStats.GrownTrans | backend/rl/algorithms/mcts.py:69-150 | growth over two searches is growth |
| MctsStats.MaxCount | backend/rl/algorithms/mcts.py:58 | np.max(counts): bounds every count and is one of them |
| MctsStats.ArgWhere | backend/rl/algorithms/mcts.py:58 | the listed indices are all the indices holding the maximum, and only those |
| MctsStats.OneHot | backend/rl/algorithms/mcts.py:60-61 | 1 at the chosen action, 0 elsewhere |
| MctsStats.OneHotSum | backend/rl/algorithms/mcts.py:60-62 | a one-hot vector sums to 1 |
| MctsStats.Greedy | backend/rl/algorithms/mcts.py:57-62 | a one-hot vector, summing to 1, on some action of maximal count |
| MctsStats.Powered | backend/rl/algorithms/mcts.py:64 | each count raised to the power 1/temp |
| RlMcts.Add | backend/rl/algorithms/mcts.py:105 | policy + valids, entry by entry |
| RlMcts.RlLeafAgrees | backend/rl/algorithms/mcts.py:97-106 | for a non-negative network policy, the leaf policy this search stores (its fallback is policy + valids, normalised) is the remote search's |
| RlMcts.Mcts.constructor | backend/rl/algorithms/mcts.py:19-38 | a new search starts with empty tables and keeps its game, network and parameters |
| RlMcts.Mcts.Search | backend/rl/algorithms/mcts.py:69-150 | returns 0 past depth 500; records get_game_ended and returns its negation on a decided board; expands a new leaf with −v; otherwise raises Ns[s] and the count of a valid edge, whose last backed-up value is −v, and on a stranded state raises the count of edge (s, −1) so Ns[s] exceeds its counts; the tables only grow and stay consistent |
| RlMcts.Mcts.ExpandLeaf | backend/rl/algorithms/mcts.py:92-110 | stores the leaf policy and Ns[s] = 0, and returns the negated network value |
| RlMcts.Mcts.Descend | backend/rl/algorithms/mcts.py:112-150 | raises Ns[s]; with no valid action, the visit goes to the edge (s, −1) |
| RlMcts.Mcts.Backup | backend/rl/algorithms/mcts.py:136-150 | after the recursive search, both Ns[s] and Nsa[(s, a)] rise and the tables stay consistent |
| RlMcts.Mcts.GetActionProb | backend/rl/algorithms/mcts.py:40-67 | temp 0: a one-hot vector on a most-visited action; otherwise the powered counts divided by their sum, which sums to 1, or None (ZeroDivisionError) exactly when that sum is 0 |
| RlMcts.Mcts.Simulate | backend/rl/algorithms/mcts.py:51-52 | num_mcts_sims searches from the board, each on the tables the last one left: the tables stay consistent and only grow |
| RlMcts.StrayVisitsUncounted | backend/rl/algorithms/mcts.py:55-133 | once edge (s, −1) holds a visit, the counts vector adds up to less than Ns[s] |
| RlMcts.StrandedNoMove | backend/game.py:51-59 | on the stranded board, no piece of the side to move has a move |
| RlMcts.StrandedNoAction | backend/game.py:390-407 | on the stranded board, no action is legal |
| RlMcts.StrandedPosition | backend/rl/algorithms/mcts.py:113-136 | the stranded board is undecided and has no valid action, so the search selects −1 there |
| RlMcts.StrandedNotOver | backend/game.py:409-422 | the stranded board is undecided |
| RlMcts.StrandedNoValid | backend/game.py:390-407 | the stranded board's valid vector has no 1 |
| RemoteMcts.VisitsCounted | backend/rl/workers/self_play.py:121-141 | with the guard, no edge (s, −1) is ever made, and Ns[s] is the total of the counts vector |
| RemoteMcts.BackupNoSentinel | backend/rl/workers/self_play.py:133-138 | backing up through a real action creates no edge (s, −1) |
| RemoteMcts.RemoteMcts.constructor | backend/rl/workers/self_play.py:24-42 | a new remote search starts with empty tables |
| RemoteMcts.RemoteMcts.Search | backend/rl/workers/self_play.py:69-141 | returns 0 past depth 100; decided and new boards as in the search above; on a stranded state returns 0 and changes nothing; otherwise raises Ns[s] and the count of a valid edge |
| RemoteMcts.RemoteMcts.ExpandLeaf | backend/rl/workers/self_play.py:83-98 | stores the masked, normalised policy (uniform, or zeros, as fallback) and Ns[s] = 0, and returns −v |
| RemoteMcts.RemoteMcts.Descend | backend/rl/workers/self_play.py:100-141 | with no valid action, returns 0 with the tables unchanged; otherwise a valid edge and Ns[s] rise |
| RemoteMcts.RemoteMcts.Backup | backend/rl/workers/self_play.py:127-141 | after the recursive search, both Ns[s] and Nsa[(s, a)] rise, and no sentinel edge appears |
| RemoteMcts.RemoteMcts.GetActionProb | backend/rl/workers/self_play.py:44-67 | 8100 probabilities: one-hot on a most-visited action at temp 0; powered counts over their positive sum; zeros otherwise. Ns[s] equals the counts' total |
| RemoteMcts.RemoteMcts.Simulate | backend/rl/workers/self_play.py:48-49 | num_sims searches from the board on shared tables: the tables stay consistent and only grow |
| SelfPlay.AbsoluteMove | backend/rl/workers/self_play.py:193-198 | playing a move on Black's canonical view and turning the board back is playing the logged, y-flipped move on the absolute board |
| SelfPlay.OneSurvives | backend/game.py:376-382 | one move removes at most one piece, so of two different pieces one survives |
| SelfPlay.ContainsFlip | backend/game.py:424-428 | a piece on the board appears negated on the flipped board |
| SelfPlay.AbsoluteResult | backend/game.py:409-428 | get_game_ended on a side's canonical view, times that side, is the result for Red |
| SelfPlay.SearchedAsWritten | backend/rl/workers/self_play.py:178 | the board searched as written is the one whose canonical form for the side to move is the board it was given: the board itself for Red, the absolute board for Black |
| SelfPlay.SearchedAsWrittenIsAbsolute | backend/rl/workers/self_play.py:178-201 | as written, every search of an episode is handed the absolute board, also on Black's turns |
| SelfPlay.SearchedAsWrittenForBlack | backend/rl/workers/self_play.py:178 | after Red's cannon opening, the board handed to Black's search has Red's cannon on (4, 2), where Black's own view is empty |
| SelfPlay.RecordedWinnerAsWritten | backend/rl/workers/self_play.py:204-206 | while some king stands, the value recorded as written, times the side to move, is the winner's colour on the absolute board: it is the winner only when Red is to move |
| SelfPlay.MoverResult | backend/game.py:409-428 | get_game_ended of a side's view, times that side, is the result of the board turned back to Red's view |
| SelfPlay.RecordedWinnerAsWrittenForRedWin | backend/rl/workers/self_play.py:204-206 | as written, when Red has taken Black's king, with Black to move, the record's winner is −1 |
| SelfPlay.Labelled | backend/rl/workers/self_play.py:207 | one example per gathered position, in order, each keeping the position's tensor and move distribution |
| SelfPlay.LabelsAreWinner | backend/rl/workers/self_play.py:207 | each example's label is the winner's colour times the example's player: +1 for the winner's positions, −1 for the loser's |
| SelfPlay.Advance | backend/rl/workers/self_play.py:193-204 | the next player's view after a move is the logged move replayed on the absolute board; a decided result converts to Red's view |
| SelfPlay.SearchMove | backend/rl/workers/self_play.py:182-183 | a fresh search gives 8100 probabilities that sum to 1 or are all zero, and sum to 1 at temp 0 |
| SelfPlay.UndecidedStep | backend/rl/workers/self_play.py:204-205 | a move after an undecided position keeps every earlier position undecided |
| SelfPlay.GatherStep | backend/rl/workers/self_play.py:186-187 | appending the current view's tensor, its probabilities and its player keeps the examples matching the logged moves |
| SelfPlay.Turn | backend/rl/workers/self_play.py:177-204 | one turn keeps the examples and the logged moves in step; get_next_state's board is the next player's view of the replayed moves |
| SelfPlay.Outcome | backend/rl/workers/self_play.py:204-211 | at the end, examples and record form a valid episode |
| SelfPlay.Opening | backend/rl/workers/self_play.py:163-164 | the opening is the first view, undecided, with nothing gathered |
| SelfPlay.ExecuteEpisode | backend/rl/workers/self_play.py:160-211 | corrected: each example holds its side's own view and the search's probabilities; its label is +1 for the winner's positions and −1 for the loser's (0 for a draw); the record's winner is the absolute colour that won, and 0 only after 200 undecided moves |
| SelfPlay.PlayOut | backend/rl/workers/self_play.py:176-211 | the episode loop, from any position reached in play, returns what an episode promises (the contract of ExecuteEpisode) |
| SelfPlay.EpisodeTurn | backend/rl/workers/self_play.py:177-205 | one pass of the loop either keeps the loop state (board = replayed record, side to move, every example accounted for, nothing decided) or decides the game with a result that meets the episode contract |
| Arena.Verdict | backend/rl/evaluation/arena.py:31-39 | the result is 1, 0 or −1 |
| Arena.PlayStep | backend/rl/evaluation/arena.py:49-53 | the move of the player to move, chosen on its own view, extends the logged game |
| Arena.PlayGame | backend/rl/evaluation/arena.py:31-63 | corrected: a game of 1 to 200 chosen moves, decided only at its last move (or cut off at 200); the result is 1 if player 1's king is left, −1 if player 2's, 0 for a draw |
| Arena.Step | backend/rl/evaluation/arena.py:49-59 | one arena turn: the next view is the replayed moves seen by the next player, and a decided result converts to player 1's view |
| Arena.ArenaTurn | backend/rl/evaluation/arena.py:49-63 | one turn keeps an undecided game in play (board replayed from the moves, the right player to move), or ends it with the result of the whole game from player 1's side |
| Arena.AllGamesPush | backend/rl/evaluation/arena.py:65-89 | appending one more played game and its result keeps every recorded result the result of its game |
| Arena.TallyPush | backend/rl/evaluation/arena.py:80-87 | recording one result adds one to its own tally and none to the others |
| Arena.PlayGames | backend/rl/evaluation/arena.py:65-89 | the three tallies add up to the number of games and count the games won by player 1, won by player 2 and drawn |
| Arena.ResultAsWritten | backend/rl/evaluation/arena.py:59-61 | while some king stands, the result as written is the negation of the winner's colour on the absolute board, so it names the loser |
| Arena.ResultAsWrittenForPlayer1Win | backend/rl/evaluation/arena.py:59-61 | as written, when player 1 has taken player 2's king, the arena reports −1, a win for player 2 |
| Decimal.RenderValue | backend/rl/training/logger.py:39 | str(n) is a non-empty run of digits whose value is n |
| Decimal.DigitRun | backend/rl/utils/checkpoint.py:80 | (\d+) takes the longest leading run of digits |
| Decimal.DigitRunOf | backend/rl/utils/checkpoint.py:80 | the digit run of digits followed by a non-digit ends at the non-digit |
| Checkpoint.MatchShape | backend/rl/utils/checkpoint.py:80-87 | a name that matches is the prefix, a run of digits whose value is the iteration, then the suffix, then anything |
| Checkpoint.JoinShape | backend/rl/utils/checkpoint.py:90 | the joined path starts with the folder and ends with the name, with one separator between them unless the folder is empty |
| Checkpoint.SavedNameMatches | backend/rl/training/coach.py:175 | the name the trainer saves iteration n under, with anything after it, matches the pattern with iteration n |
| Checkpoint.MatchExamples | backend/rl/utils/checkpoint.py:80 | the match is anchored at the start only, so "checkpoint_7.pth.tar.bak" matches with 7; "checkpoint_best.pth.tar" does not match |
| Checkpoint.GetLatestCheckpoint | backend/rl/utils/checkpoint.py:67-92 | (None, 0) for a missing folder; no matching name carries an iteration above the one returned; a path is returned exactly when that iteration is above 0, and it joins the folder and the first name carrying it |
| GameRoutes.UpTo | backend/routers/game_routes.py:229 | the text before the first separator: a prefix holding no separator, followed by one unless it is everything |
| GameRoutes.PyIntReads | backend/routers/game_routes.py:232 | int() reads one or more digits, after an optional sign and with blanks on either side, as their value, negated after a minus sign |
| GameRoutes.PyIntBlank | backend/routers/game_routes.py:232-234 | int() of nothing but blanks raises ValueError, and the name contributes nothing |
| GameRoutes.PyIntRender | backend/rl/training/logger.py:39 | int() reads a rendered number back |
| GameRoutes.UpToAbsent | backend/routers/game_routes.py:229 | a text without the separator is kept whole |
| GameRoutes.UpToStops | backend/routers/game_routes.py:229 | a field followed by the separator is cut exactly there |
| GameRoutes.SecondFieldOf | backend/routers/game_routes.py:229 | split("_")[1] of "game_" + field + tail is the field, when the field holds no underscore and the tail is empty or starts with one |
| GameRoutes.IterationOfJson | backend/routers/game_routes.py:228-232 | a name starting with "game_" and ending with ".json" contributes int of its second field |
| GameRoutes.IterationOfOther | backend/routers/game_routes.py:228 | a name that does not start with "game_" and end with ".json" contributes nothing |
| GameRoutes.IterationOfParts | backend/routers/game_routes.py:228-232 | a .json name "game_" + field + tail contributes int(field) when the field holds no underscore and the tail starts with one or is empty |
| GameRoutes.RenderNoUnderscore | backend/rl/training/logger.py:39 | a rendered number holds no underscore |
| GameRoutes.LoggedNameParts | backend/routers/game_routes.py:228-232 | a name "game_" + field + "_" + id + ".json" whose field holds no underscore contributes int(field) |
| GameRoutes.LoggedNameCounts | backend/rl/training/logger.py:39 | every name the game logger writes for iteration i contributes i, whatever the game id |
| GameRoutes.NoSecondField | backend/routers/game_routes.py:229-234 | "game_5.json" contributes nothing: int("5.json") raises ValueError |
| GameRoutes.BlankAroundNumber | backend/routers/game_routes.py:232 | int() accepts blanks around the number: "game_ 12_a.json" contributes 12 |
| GameRoutes.HasLargest | backend/routers/game_routes.py:236 | a non-empty set of iterations has a largest member |
| GameRoutes.SortedDescending | backend/routers/game_routes.py:236 | sorted(s, reverse=True): exactly the set's members, strictly decreasing |
| GameRoutes.GetAvailableIterations | backend/routers/game_routes.py:219-236 | [] for a missing directory; otherwise exactly the iterations that some listed file name contributes, each once, largest first |
| BotMove.BotMoveReported | backend/routers/game_routes.py:155-162 | the reported move, with y flipped to 9 − y for Black, is on the board; played on the absolute board it gives the position the search's move gives on Black's canonical view |
| GameContext.GameReducer | src/store/GameContext.tsx:36-100 | every action keeps at most one undo board per recorded move; only SET_MODE changes the mode; only SET_MODE and SET_DIFFICULTY change the difficulty |
| GameContext.MakeMoveRecords | src/store/GameContext.tsx:41-50 | MAKE_MOVE shows the new board, passes the turn, clears the selection, records the old board and the move; winner, check, mode and difficulty stay |
| GameContext.UndoEmpty | src/store/GameContext.tsx:58-59 | UNDO with nothing to undo changes nothing |
| GameContext.UndoRestores | src/store/GameContext.tsx:58-69 | UNDO takes the last board back off the history, passes the turn back, and clears winner, last move and selection; the move list stays |
| GameContext.UndoAfterMakeMove | src/store/GameContext.tsx:41-69 | UNDO right after MAKE_MOVE gives back the board, the turn and the history from before the move |
| GameContext.ResetKeepsSettings | src/store/GameContext.tsx:71-76 | RESET is the initial state in the same mode and at the same difficulty, and a second RESET changes nothing |
| GameContext.SetModeResets | src/store/GameContext.tsx:78-82 | SET_MODE is the initial state in the new mode, difficulty back to 2 |
| GameContext.SetBoardKeepsTurn | src/store/GameContext.tsx:84-89 | SET_BOARD replaces the board, and the turn only when one is given; both histories stay |
| GameContext.RunHistoryBound | src/store/GameContext.tsx:22-100 | in every state reached from the initial state, each undo board has a recorded move |
| GameContext.StepTurnParity | src/store/GameContext.tsx:36-100 | every action except a SET_BOARD that names a turn keeps "Red to move iff an even number of undo boards" |
| GameContext.RunTurnParity | src/store/GameContext.tsx:22-100 | without such a SET_BOARD, Red is to move exactly when the number of undo boards is even |
| ReplayContext.ReplayReducer | src/store/ReplayContext.tsx:41-83 | every action keeps the shown step on one of the boards, when a loaded game brings at least one board |
| ReplayContext.GoToStepClamps | src/store/ReplayContext.tsx:59-63 | GO_TO_STEP shows the requested step when it exists, clamps below to 0 and above to the last board |
| ReplayContext.StepBounds | src/store/ReplayContext.tsx:65-75 | NEXT_STEP never passes the last board, PREV_STEP never goes below 0, and below the last board PREV_STEP undoes NEXT_STEP |
| ReplayContext.LoadingFields | src/store/ReplayContext.tsx:43-57 | LOAD_SUCCESS shows the first board of the loaded game; LOAD_START and LOAD_ERROR touch only the loading flag and the error |
| ReplayContext.ResetForgets | src/store/ReplayContext.tsx:77-78 | RESET gives back the initial state, whose step is in range |
| ReplayContext.ApplyMove | src/store/ReplayContext.tsx:86-91 | a copy in which the target square takes the moving piece and the source square is emptied; a square off the board raises (None) |
| ReplayContext.ReconstructBoards | src/store/ReplayContext.tsx:94-104 | the opening board followed by the board after each move, one more board than moves; it raises exactly when some move leaves the board |
| ReplayContext.ParseMove | src/store/ReplayContext.tsx:139-142 | a stored move parses exactly when it has two squares of two numbers each |
| ReplayContext.FormatMove | src/api/gameApi.ts:46-49 | a stored move is two squares of two numbers each, which parse back to the move |
| ReplayContext.ParseFormat | src/api/gameApi.ts:46-49 | parsing reads back what the front end formats before saving, and formatting a parsed move gives back its first two squares' first two numbers |
| ReplayContext.ParseMoves | src/store/ReplayContext.tsx:139-142 | all moves parse, in order, or some stored move does not |
| ReplayContext.LoadGameFromData | src/store/ReplayContext.tsx:133-159 | loading succeeds exactly when every stored move parses and stays on the board; on success: the parsed moves, their reconstructed boards and step 0; on failure: the loaded game stays and the error is the message, or "Failed to load game" when it is empty |

## Left out

- Update in place of the MCTS tables: `Search`, `ExpandLeaf`, `Descend` and
  `Backup` thread the five dictionaries as a value, and `Simulate` writes
  them back to the object's fields once, after its last search. The order of
  dictionary updates within one search is kept. Only one search object works
  on the tables, so no other reader sees the intermediate states.
- `backend/mcts.py` is, line for line, the algorithm of
  `backend/rl/algorithms/mcts.py`, and is modelled once, as `RlMcts`.
- When no action is valid, the stored leaf policy of
  `backend/rl/algorithms/mcts.py` is 0/0, which is NaN in numpy. The model
  stores zeros. Such a policy is never read, because the state has no valid
  action to score.
- The network is a function parameter. It is assumed (`OracleOk`) to return
  8100 non-negative priors.
- Floats are modelled as reals:
  - `math.sqrt` and `x ** (1/temp)` are function parameters;
  - float rounding and the NaN and infinity of IEEE arithmetic are not
    modelled.
- The following are left out:
  - the network itself and its training;
  - file I/O, logging and `console.log`;
  - threads, queues, abort events and the streaming progress of the bot
    route.
- The randomness of `np.random.choice`, `np.random.shuffle` and the arena's
  players becomes parameters:
  - an index to pick among equal counts;
  - a function that rearranges the valid actions;
  - a sampler;
  - a chooser per player.
- `ClassicMinimax.MinimaxSolver.GetBestMove`: the shuffle is any
  rearrangement that keeps the same actions. The model does not state that
  every order is equally likely.
- `GameRoutes.PyInt`: Python's `int()` is modelled for ASCII digits, signs
  and the ASCII whitespace it strips (0x09..0x0D, 0x1C..0x1F and space). It
  does not model the non-ASCII whitespace `int()` also strips (0x85, 0xA0
  and the Unicode spaces), underscores between digits, or Unicode digits.
- `Checkpoint.MatchIter`: the class `\d` of the checkpoint pattern and
  `int()` accept every Unicode decimal digit. The model reads only the ASCII
  digits '0'..'9', so a name whose iteration is written in other digits
  does not match in the model.
- `AiLogic.GetBestMove`: among equally valued moves it returns the one
  that `collectAllMoves` lists first. `AiLogic.MaxLoop` and
  `AiLogic.MinLoop` prove this for the list they are given, but
  `AiLogic.CollectMoves` states only which moves the list holds, not their
  order (squares row by row, then each piece generator's own order). So
  `GetBestMove` does not say which of several equally valued moves it
  returns.
- `AiLogic.Expand` and `AiLogic.Minimax`: for the same reason, with the
  full window they state that the best move reaches the value, not that it
  is the first listed move to do so.
- `os.path.join` is modelled for POSIX paths. Directory listings and
  `os.path.exists` are inputs.
- In `GameState`, `difficulty` is always present.
- `ReplayContext.ApplyMove`: a column off the board does not raise in
  JavaScript (it writes to a ragged row). The model treats it as an error,
  like an off-board row.
- `ReplayContext.ParseMove`: a stored move with too few numbers fails at
  parsing. In JavaScript it fails later, in `applyMove`. The load outcome is
  the same.
- `cloneBoard` is not part of this model. A board copy is a value copy.
- `PyGame.XiangqiGame.IsGameOver`: it states one direction only (a game
  that is over has a result). A board can have a result while two king codes
  remain, for example two Red kings, so the converse does not hold.
- `SelfPlay.ExecuteEpisode`: a result is promised only when every step has
  temperature 0 (`tempThreshold <= 1`). At temperature 1 a search whose
  visit counts are all zero gives an all-zero pi, and `np.random.choice`
  raises on it (None). The loop always ends within 200 steps. A sampled
  action that is not valid is played as it is.

## Findings

| source | as written | input that shows it | evidently intended | confidence | as-written member | corrected member |
|---|---|---|---|---|---|---|
| backend/rl/algorithms/mcts.py:113-136 | when an expanded, undecided state has no valid action, best_act stays −1 and is played anyway. decode(−1) is ((8, −1), (8, 9)), which numpy wraps to square (8, 9). The visit is stored on edge (s, −1), which get_action_prob never counts, so the counts add up to less than Ns[s] | StrandedBoard: Red king on (3, 0) boxed in by its advisors on (4, 0), (3, 1), (5, 1) and (4, 2), plus a Black king on (4, 9); undecided, with no valid action. Four Red advisors, none of them on an advisor point, cannot arise from the opening: the search accepts any board it is handed, and the finding rests on that code path, not on a position reached in play | return 0 when no action is valid, as the remote search does | not executed | RlMcts.StrayVisitsUncounted | RemoteMcts.VisitsCounted |
| backend/rl/workers/self_play.py:178 | get_next_state (line 201) already returns the next player's canonical view, and line 178 canonicalises it once more. On Black's turns the search, the stored tensor and the logged move therefore all work on the absolute board. The same happens in backend/rl/evaluation/arena.py:49 | Red's cannon opening (1, 2)→(4, 2): the board searched for Black has Red's cannon on (4, 2), where Black's view is empty | search and record each side's own view | not executed | SelfPlay.SearchedAsWrittenForBlack | SelfPlay.ExecuteEpisode |
| backend/rl/workers/self_play.py:206 | the record stores r, which is relative to the player now to move: when Red wins, Black is to move and r = −1 | Black's king captured, Black to move: Red won, the record says −1 | the absolute winner, r × current_player | not executed | SelfPlay.RecordedWinnerAsWrittenForRedWin | SelfPlay.ExecuteEpisode |
| backend/rl/evaluation/arena.py:61 | −r × current_player names the loser: when player 1 takes the king, player 2 is to move with r = −1, and −(−1)(−1) = −1 | player 1 captures player 2's king | r × current_player, the winner from player 1's side | not executed | Arena.ResultAsWrittenForPlayer1Win | Arena.PlayGame |
