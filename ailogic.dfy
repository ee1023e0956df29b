/** The browser opponent (utils/aiLogic.ts): a material-and-position
    evaluation from one colour's point of view, and a depth-limited minimax
    with alpha-beta pruning over the fully legal moves of the browser
    engine. The search is proved fail-soft against the unpruned value
    AiValue, and the move getBestMove returns is proved to reach that value. */
module AiLogic {
  import opened Scores
  import opened TsBoard
  import opened TsLogic

  /** PIECE_VALUES */
  function PieceValue(k: PieceType): int {
    match k
    case General => 10000
    case Chariot => 1000
    case Cannon => 450
    case Horse => 400
    case Elephant => 20
    case Advisor => 20
    case Soldier => 10
  }

  /** getPositionBonus: soldiers earn 20 plus 10 per row beyond the river,
      a cannon on the central column 20, a horse on an edge column -10. */
  function PositionBonus(k: PieceType, color: Color, r: int, c: int): (bonus: int)
    ensures k == Soldier && 0 <= r <= 9 ==> (bonus > 0 <==> CrossedRiver(color, r))
    ensures k == Soldier && CrossedRiver(color, r) && 0 <= r <= 9 ==> 30 <= bonus <= 70
    ensures k != Soldier && k != Cannon && k != Horse ==> bonus == 0
  {
    var normalizedRow := if color == Black then r else 9 - r;
    match k
    case Soldier => if normalizedRow > 4 then 20 + (normalizedRow - 4) * 10 else 0
    case Cannon => if c == 4 then 20 else 0
    case Horse => if c == 0 || c == 8 then -10 else 0
    case _ => 0
  }

  /** What the square (r, c) adds to evaluateBoard from aiColor's side. */
  function CellValue(cell: Cell, r: int, c: int, aiColor: Color): int {
    match cell
    case None => 0
    case Some(p) =>
      var value := PieceValue(p.kind) + PositionBonus(p.kind, p.color, r, c);
      if p.color == aiColor then value else -value
  }

  /** The first n squares of row r. */
  function RowValue(b: BoardState, aiColor: Color, r: int, n: int): int
    requires 0 <= r <= 9 && 0 <= n <= 9
  {
    if n == 0 then 0 else RowValue(b, aiColor, r, n - 1) + CellValue(b[r][n - 1], r, n - 1, aiColor)
  }

  /** The first n rows. */
  function RowsValue(b: BoardState, aiColor: Color, n: int): int
    requires 0 <= n <= 10
  {
    if n == 0 then 0 else RowsValue(b, aiColor, n - 1) + RowValue(b, aiColor, n - 1, 9)
  }

  function BoardValue(b: BoardState, aiColor: Color): int {
    RowsValue(b, aiColor, 10)
  }

  /** evaluateBoard: the row / column scan adding own pieces and subtracting
      the opponent's. */
  method EvaluateBoard(b: BoardState, aiColor: Color) returns (score: int)
    ensures score == BoardValue(b, aiColor)
  {
    score := 0;
    for r := 0 to 10
      invariant score == RowsValue(b, aiColor, r)
    {
      for c := 0 to 9
        invariant score == RowsValue(b, aiColor, r) + RowValue(b, aiColor, r, c)
      {
        var piece := b[r][c];
        if piece.Some? {
          var value := PieceValue(piece.value.kind);
          value := value + PositionBonus(piece.value.kind, piece.value.color, r, c);
          if piece.value.color == aiColor {
            score := score + value;
          } else {
            score := score - value;
          }
        }
      }
    }
  }

  // Properties of the evaluation

  lemma {:induction false} RowValueZeroSum(b: BoardState, r: int, n: int)
    requires 0 <= r <= 9 && 0 <= n <= 9
    ensures RowValue(b, Red, r, n) == -RowValue(b, Black, r, n)
  {
    if n > 0 {
      RowValueZeroSum(b, r, n - 1);
    }
  }

  lemma {:induction false} RowsValueZeroSum(b: BoardState, n: int)
    requires 0 <= n <= 10
    ensures RowsValue(b, Red, n) == -RowsValue(b, Black, n)
  {
    if n > 0 {
      RowsValueZeroSum(b, n - 1);
      RowValueZeroSum(b, n - 1, 9);
    }
  }

  /** The evaluation is zero-sum: Red's score is the negation of Black's. */
  lemma EvaluationZeroSum(b: BoardState)
    ensures BoardValue(b, Red) == -BoardValue(b, Black)
  {
    RowsValueZeroSum(b, 10);
  }

  function SwapColor(cell: Cell): Cell {
    match cell
    case None => None
    case Some(p) => Some(Piece(p.kind, Opponent(p.color)))
  }

  /** The position seen from the other side: rows reversed, colours swapped. */
  function Mirror(b: BoardState): (m: BoardState)
    ensures forall r, c :: 0 <= r <= 9 && 0 <= c <= 8 ==> m[r][c] == SwapColor(b[9 - r][c])
  {
    var m := seq(10, r requires 0 <= r < 10 => seq(9, c requires 0 <= c < 9 => SwapColor(b[9 - r][c])));
    assert forall r :: 0 <= r < 10 ==> |m[r]| == 9;
    m
  }

  lemma CellValueMirror(cell: Cell, r: int, c: int, aiColor: Color)
    ensures CellValue(SwapColor(cell), 9 - r, c, Opponent(aiColor)) == CellValue(cell, r, c, aiColor)
  {
  }

  lemma {:induction false} RowValueMirror(b: BoardState, aiColor: Color, r: int, n: int)
    requires 0 <= r <= 9 && 0 <= n <= 9
    ensures RowValue(Mirror(b), Opponent(aiColor), r, n) == RowValue(b, aiColor, 9 - r, n)
  {
    if n > 0 {
      RowValueMirror(b, aiColor, r, n - 1);
      CellValueMirror(b[9 - r][n - 1], 9 - r, n - 1, aiColor);
    }
  }

  /** The first n rows of the mirrored board score, for the other side, what
      the last n rows of the original score. */
  lemma {:induction false} RowsValueMirror(b: BoardState, aiColor: Color, n: int)
    requires 0 <= n <= 10
    ensures RowsValue(Mirror(b), Opponent(aiColor), n) == RowsValue(b, aiColor, 10) - RowsValue(b, aiColor, 10 - n)
  {
    if n > 0 {
      RowsValueMirror(b, aiColor, n - 1);
      RowValueMirror(b, aiColor, n - 1, 9);
      assert RowsValue(b, aiColor, 10 - (n - 1)) == RowsValue(b, aiColor, 10 - n) + RowValue(b, aiColor, 9 - (n - 1), 9);
    }
  }

  /** The evaluation treats both sides alike: the mirrored position scores
      for the other colour exactly what the position scores for this one. */
  lemma EvaluationMirror(b: BoardState, aiColor: Color)
    ensures BoardValue(Mirror(b), Opponent(aiColor)) == BoardValue(b, aiColor)
  {
    RowsValueMirror(b, aiColor, 10);
  }

  /** A position that is its own mirror image is level. */
  lemma SymmetricPositionIsLevel(b: BoardState)
    requires Mirror(b) == b
    ensures BoardValue(b, Red) == 0 && BoardValue(b, Black) == 0
  {
    EvaluationMirror(b, Red);
    EvaluationZeroSum(b);
  }

  /** Each opening rank of one colour, colours swapped, is that rank of the other. */
  lemma RanksSwap(color: Color)
    ensures forall c :: 0 <= c < 9 ==> SwapColor(BackRank(color)[c]) == BackRank(Opponent(color))[c]
    ensures forall c :: 0 <= c < 9 ==> SwapColor(CannonRank(color)[c]) == CannonRank(Opponent(color))[c]
    ensures forall c :: 0 <= c < 9 ==> SwapColor(SoldierRank(color)[c]) == SoldierRank(Opponent(color))[c]
    ensures forall c :: 0 <= c < 9 ==> SwapColor(EmptyRank()[c]) == EmptyRank()[c]
  {
  }

  /** Row r of the opening, colours swapped, is row 9 - r. */
  lemma OpeningRowSwap(r: int)
    requires 0 <= r < 10
    ensures forall c :: 0 <= c < 9 ==> SwapColor(InitialBoard()[9 - r][c]) == InitialBoard()[r][c]
  {
    var b := InitialBoard();
    RanksSwap(Red);
    RanksSwap(Black);
    if r == 0 || r == 9 {
      assert b[0] == BackRank(Black) && b[9] == BackRank(Red);
    } else if r == 2 || r == 7 {
      assert b[2] == CannonRank(Black) && b[7] == CannonRank(Red);
    } else if r == 3 || r == 6 {
      assert b[3] == SoldierRank(Black) && b[6] == SoldierRank(Red);
    } else {
      assert b[r] == EmptyRank() && b[9 - r] == EmptyRank();
    }
  }

  /** A board whose rows, colours swapped, are its rows in reverse order is its own mirror image. */
  lemma SelfMirror(b: BoardState)
    requires forall r :: 0 <= r < 10 ==> forall c :: 0 <= c < 9 ==> SwapColor(b[9 - r][c]) == b[r][c]
    ensures Mirror(b) == b
  {
    forall r | 0 <= r < 10 ensures Mirror(b)[r] == b[r] {
    }
  }

  /** The opening position is its own mirror image, hence level. */
  lemma OpeningIsLevel()
    ensures BoardValue(InitialBoard(), Red) == 0
  {
    forall r | 0 <= r < 10
      ensures forall c :: 0 <= c < 9 ==> SwapColor(InitialBoard()[9 - r][c]) == InitialBoard()[r][c]
    {
      OpeningRowSwap(r);
    }
    SelfMirror(InitialBoard());
    SymmetricPositionIsLevel(InitialBoard());
  }

  // The search

  /** { from, to } */
  datatype AiMove = AiMove(from: Position, to: Position)

  /** A fully legal move of a piece of the given colour. */
  ghost predicate LegalMove(b: BoardState, color: Color, m: AiMove) {
    OnBoard(m.from) && HasPiece(b, m.from.row, m.from.col, color) && ValidTarget(b, m.from, m.to)
  }

  function Child(b: BoardState, m: AiMove): BoardState
    requires OnBoard(m.from) && OnBoard(m.to)
  {
    AfterMove(b, m.from, m.to)
  }

  /** A non-empty set has an element. */
  lemma SomeValue(s: set<int>)
    requires s != {}
    ensures exists y :: y in s
  {
    if forall y :: y !in s {
      assert false;
    }
  }

  /** The largest element of a non-empty finite set. */
  ghost function SetMax(s: set<int>): (m: int)
    requires s != {}
    ensures m in s
    ensures forall v :: v in s ==> v <= m
    decreases |s|
  {
    SomeValue(s);
    var y :| y in s;
    var rest := s - {y};
    assert forall v :: v in s ==> v == y || v in rest;
    if rest == {} then y
    else
      var m := SetMax(rest);
      if y > m then y else m
  }

  /** The smallest element of a non-empty finite set. */
  ghost function SetMin(s: set<int>): (m: int)
    requires s != {}
    ensures m in s
    ensures forall v :: v in s ==> m <= v
    decreases |s|
  {
    SomeValue(s);
    var y :| y in s;
    var rest := s - {y};
    assert forall v :: v in s ==> v == y || v in rest;
    if rest == {} then y
    else
      var m := SetMin(rest);
      if y < m then y else m
  }

  /** Every fully legal move of color. */
  ghost function LegalMoves(b: BoardState, color: Color): set<AiMove> {
    set r, c, nr, nc | 0 <= r <= 9 && 0 <= c <= 8 && 0 <= nr <= 9 && 0 <= nc <= 8
      && LegalMove(b, color, AiMove(Position(r, c), Position(nr, nc)))
      :: AiMove(Position(r, c), Position(nr, nc))
  }

  lemma {:induction false} LegalMovesExact(b: BoardState, color: Color)
    ensures forall m :: m in LegalMoves(b, color) <==> LegalMove(b, color, m)
  {
    forall m | LegalMove(b, color, m) ensures m in LegalMoves(b, color) {
      assert m == AiMove(Position(m.from.row, m.from.col), Position(m.to.row, m.to.col));
    }
  }

  lemma {:induction false} LegalMovesOnBoard(b: BoardState, color: Color)
    ensures forall m :: m in LegalMoves(b, color) ==> OnBoard(m.from) && OnBoard(m.to)
  {
  }

  /** A list of exactly the legal moves lists the set LegalMoves. */
  lemma {:induction false} MovesListed(b: BoardState, color: Color, moves: seq<AiMove>)
    requires forall m :: m in moves <==> LegalMove(b, color, m)
    ensures forall m :: m in moves <==> m in LegalMoves(b, color)
  {
    LegalMovesExact(b, color);
  }

  /** The value, at a node searched depth plies deep, of the move m: the
      board after it searched one ply less deep by the other side with the
      flag flipped. */
  ghost function ChildAt(b: BoardState, m: AiMove, depth: nat, isMax: bool, color: Color): int
    requires depth > 0 && OnBoard(m.from) && OnBoard(m.to)
    decreases depth, 1
  {
    AiValue(Child(b, m), depth - 1, !isMax, Opponent(color))
  }

  /** The values of the children of a node, one per legal move. */
  ghost function ChildValues(b: BoardState, depth: nat, isMax: bool, color: Color): set<int>
    requires depth > 0
    decreases depth, 2
  {
    set m | m in LegalMoves(b, color) && OnBoard(m.from) && OnBoard(m.to) :: ChildAt(b, m, depth, isMax, color)
  }

  /** The value minimax computes without pruning: at depth 0 the evaluation
      for the searching side (color when maximizing, its opponent when not),
      -100000 / +100000 when the side to move has no legal move, otherwise
      the largest (maximizing) or smallest child value. */
  ghost function AiValue(b: BoardState, depth: nat, isMax: bool, color: Color): int
    decreases depth, 3
  {
    if depth == 0 then BoardValue(b, if isMax then color else Opponent(color))
    else if !HasLegal(b, color) then (if isMax then -100000 else 100000)
    else
      var vals := ChildValues(b, depth, isMax, color);
      assert vals != {} by {
        var m := SomeLegalMove(b, color);
        LegalMovesOnBoard(b, color);
        assert ChildAt(b, m, depth, isMax, color) in vals;
      }
      if isMax then SetMax(vals) else SetMin(vals)
  }

  predicate OnBoardMoves(moves: seq<AiMove>) {
    forall m :: m in moves ==> OnBoard(m.from) && OnBoard(m.to)
  }

  /** The values of the moves of a list, in its order. */
  ghost function ChildSeq(b: BoardState, moves: seq<AiMove>, depth: nat, isMax: bool, color: Color): (s: seq<int>)
    requires depth > 0 && OnBoardMoves(moves)
    ensures |s| == |moves|
    ensures forall i :: 0 <= i < |moves| ==> s[i] == ChildAt(b, moves[i], depth, isMax, color)
  {
    seq(|moves|, i requires 0 <= i < |moves| => ChildAt(b, moves[i], depth, isMax, color))
  }

  /** A non-empty list and a set with the same elements have the same
      maximum and minimum. */
  lemma {:induction false} ExtremaMatch(s: seq<int>, vals: set<int>)
    requires |s| > 0
    requires forall i :: 0 <= i < |s| ==> s[i] in vals
    requires forall v :: v in vals ==> exists i :: 0 <= i < |s| && s[i] == v
    ensures vals != {}
    ensures MaxOf(s) == Fin(SetMax(vals)) && MinOf(s) == Fin(SetMin(vals))
  {
    assert s[0] in vals;
    MaxOfIsMax(s);
    MinOfIsMin(s);
    var top := SetMax(vals);
    var i :| 0 <= i < |s| && s[i] == top;
    assert Le(Fin(top), MaxOf(s));
    var bottom := SetMin(vals);
    var k :| 0 <= k < |s| && s[k] == bottom;
    assert Le(MinOf(s), Fin(bottom));
  }

  /** Every child value of a node is the value of some entry of a list
      holding all legal moves. */
  lemma {:induction false} ChildValueListed(b: BoardState, moves: seq<AiMove>, depth: nat, isMax: bool, color: Color, v: int)
    requires depth > 0 && OnBoardMoves(moves)
    requires forall m :: m in LegalMoves(b, color) ==> m in moves
    requires v in ChildValues(b, depth, isMax, color)
    ensures exists i :: 0 <= i < |moves| && ChildSeq(b, moves, depth, isMax, color)[i] == v
  {
    var m :| m in LegalMoves(b, color) && OnBoard(m.from) && OnBoard(m.to) && v == ChildAt(b, m, depth, isMax, color);
    var i :| 0 <= i < |moves| && moves[i] == m;
    assert ChildSeq(b, moves, depth, isMax, color)[i] == v;
  }

  /** A legal move's value is one of the node's child values. */
  lemma {:induction false} ChildValueIn(b: BoardState, depth: nat, isMax: bool, color: Color, m: AiMove)
    requires depth > 0 && m in LegalMoves(b, color)
    ensures OnBoard(m.from) && OnBoard(m.to)
    ensures ChildAt(b, m, depth, isMax, color) in ChildValues(b, depth, isMax, color)
  {
    LegalMovesOnBoard(b, color);
  }

  /** A list holding exactly the legal moves has exactly the child values
      as its values, so its maximum and minimum are those of the set. */
  lemma {:induction false} ChildSeqBounds(b: BoardState, moves: seq<AiMove>, depth: nat, isMax: bool, color: Color)
    requires depth > 0 && |moves| > 0
    requires forall m :: m in moves <==> m in LegalMoves(b, color)
    ensures OnBoardMoves(moves)
    ensures ChildValues(b, depth, isMax, color) != {}
    ensures MaxOf(ChildSeq(b, moves, depth, isMax, color)) == Fin(SetMax(ChildValues(b, depth, isMax, color)))
    ensures MinOf(ChildSeq(b, moves, depth, isMax, color)) == Fin(SetMin(ChildValues(b, depth, isMax, color)))
  {
    LegalMovesOnBoard(b, color);
    var s := ChildSeq(b, moves, depth, isMax, color);
    var vals := ChildValues(b, depth, isMax, color);
    forall i | 0 <= i < |s| ensures s[i] in vals {
      assert moves[i] in moves;
    }
    forall v | v in vals ensures exists i :: 0 <= i < |s| && s[i] == v {
      ChildValueListed(b, moves, depth, isMax, color, v);
    }
    ExtremaMatch(s, vals);
  }

  /** A side with a legal move has a child value. */
  lemma {:induction false} ChildValuesNonEmpty(b: BoardState, depth: nat, isMax: bool, color: Color)
    requires depth > 0 && HasLegal(b, color)
    ensures ChildValues(b, depth, isMax, color) != {}
  {
    var m := SomeLegalMove(b, color);
    ChildValueIn(b, depth, isMax, color, m);
  }

  /** A colour with a legal move has one in LegalMoves. */
  lemma SomeLegalMove(b: BoardState, color: Color) returns (m: AiMove)
    requires HasLegal(b, color)
    ensures m in LegalMoves(b, color)
  {
    var r, c :| IsValidPos(r, c) && Movable(b, color, r, c);
    var t :| ValidTarget(b, Position(r, c), t);
    LegalMovesExact(b, color);
    m := AiMove(Position(r, c), t);
  }

  /** A maximizing node with a legal move takes the largest child value. */
  lemma {:induction false} MaxNodeValue(b: BoardState, depth: nat, color: Color)
    requires depth > 0 && HasLegal(b, color) && ChildValues(b, depth, true, color) != {}
    ensures AiValue(b, depth, true, color) == SetMax(ChildValues(b, depth, true, color))
  {
  }

  /** A minimizing node with a legal move takes the smallest child value. */
  lemma {:induction false} MinNodeValue(b: BoardState, depth: nat, color: Color)
    requires depth > 0 && HasLegal(b, color) && ChildValues(b, depth, false, color) != {}
    ensures AiValue(b, depth, false, color) == SetMin(ChildValues(b, depth, false, color))
  {
  }

  /** The value of an expanded node is the extremum of the values of its
      legal moves, listed in any order. */
  lemma {:induction false} ExpandedValue(b: BoardState, depth: nat, isMax: bool, color: Color, moves: seq<AiMove>)
    requires depth > 0 && HasLegal(b, color)
    requires forall m :: m in moves <==> m in LegalMoves(b, color)
    ensures |moves| > 0 && OnBoardMoves(moves)
    ensures isMax ==> MaxOf(ChildSeq(b, moves, depth, isMax, color)) == Fin(AiValue(b, depth, isMax, color))
    ensures !isMax ==> MinOf(ChildSeq(b, moves, depth, isMax, color)) == Fin(AiValue(b, depth, isMax, color))
  {
    var m := SomeLegalMove(b, color);
    assert m in moves;
    ChildSeqBounds(b, moves, depth, isMax, color);
    if isMax {
      MaxNodeValue(b, depth, color);
    } else {
      MinNodeValue(b, depth, color);
    }
  }

  const MaxDepth: nat := 3

  /** The legal moves of color from the squares before (r, c) in row-major
      order are exactly the moves listed. */
  ghost predicate ListedBefore(b: BoardState, color: Color, listed: seq<AiMove>, r: int, c: int) {
    forall m :: m in listed <==>
      LegalMove(b, color, m) && (m.from.row < r || (m.from.row == r && m.from.col < c))
  }

  /** Listing the valid targets of the square (r, c) when it holds a piece
      of color, and nothing otherwise, extends the listing past (r, c). */
  lemma SquareListed(b: BoardState, color: Color, before: seq<AiMove>, after: seq<AiMove>,
                     r: int, c: int, targets: seq<Position>)
    requires 0 <= r < 10 && 0 <= c < 9 && ListedBefore(b, color, before, r, c)
    requires HasPiece(b, r, c, color) ==> forall t :: t in targets <==> ValidTarget(b, Position(r, c), t)
    requires forall m :: m in after <==>
      m in before || (HasPiece(b, r, c, color) && m.from == Position(r, c) && m.to in targets)
    ensures ListedBefore(b, color, after, r, c + 1)
  {
  }

  /** A row is finished after its last column. */
  lemma RowListed(b: BoardState, color: Color, listed: seq<AiMove>, r: int)
    requires ListedBefore(b, color, listed, r, 9)
    ensures ListedBefore(b, color, listed, r + 1, 0)
  {
  }

  /** The moves of every piece of color, scanning rows then columns, each
      piece's valid targets in their order. */
  method CollectMoves(b: BoardState, color: Color) returns (allMoves: seq<AiMove>)
    ensures forall m :: m in allMoves <==> LegalMove(b, color, m)
  {
    allMoves := [];
    for r := 0 to 10
      invariant ListedBefore(b, color, allMoves, r, 0)
    {
      for c := 0 to 9
        invariant ListedBefore(b, color, allMoves, r, c)
      {
        ghost var before := allMoves;
        var p := b[r][c];
        var moves: seq<Position> := [];
        if p.Some? && p.value.color == color {
          moves := GetValidMoves(b, Position(r, c));
          for k := 0 to |moves|
            invariant forall m :: m in allMoves <==>
              m in before || (m.from == Position(r, c) && m.to in moves[..k])
          {
            assert moves[..k + 1] == moves[..k] + [moves[k]];
            allMoves := allMoves + [AiMove(Position(r, c), moves[k])];
          }
          assert moves[..|moves|] == moves;
        }
        SquareListed(b, color, before, allMoves, r, c, moves);
      }
      RowListed(b, color, allMoves, r);
    }
  }

  /** minimax: the depth test, the no-legal-move test, then the maximizing
      or minimizing loop over all legal moves with cutoff once beta <= alpha.
      The window is proper (alpha < beta), as at every call the source makes.
      A move is returned exactly when the node was expanded; with the full
      window (-Infinity, Infinity) its value is the returned score. */
  method Minimax(b: BoardState, depth: nat, alpha: ExtInt, beta: ExtInt, isMax: bool, color: Color)
    returns (score: int, bestMove: Option<AiMove>)
    requires Lt(alpha, beta)
    ensures FailSoft(Fin(score), Fin(AiValue(b, depth, isMax, color)), alpha, beta)
    ensures bestMove.Some? <==> depth > 0 && HasLegal(b, color)
    ensures bestMove.Some? ==> LegalMove(b, color, bestMove.value) && OnBoard(bestMove.value.to)
    ensures bestMove.Some? && alpha == NegInf && beta == PosInf ==>
      ChildAt(b, bestMove.value, depth, isMax, color) == score
    decreases depth, 3
  {
    if depth == 0 {
      var rootColor := if isMax then color else (if color == Red then Black else Red);
      score := EvaluateBoard(b, rootColor);
      return score, None;
    }
    var has := HasLegalMoves(b, color);
    if !has {
      return (if isMax then -100000 else 100000), None;
    }
    var best;
    score, best := Expand(b, depth, alpha, beta, isMax, color);
    bestMove := Some(best);
  }

  /** The expanded node: all legal moves collected, then the maximizing or
      the minimizing loop. */
  method Expand(b: BoardState, depth: nat, alpha: ExtInt, beta: ExtInt, isMax: bool, color: Color)
    returns (score: int, best: AiMove)
    requires depth > 0 && Lt(alpha, beta) && HasLegal(b, color)
    ensures FailSoft(Fin(score), Fin(AiValue(b, depth, isMax, color)), alpha, beta)
    ensures LegalMove(b, color, best) && OnBoard(best.to)
    ensures alpha == NegInf && beta == PosInf ==> ChildAt(b, best, depth, isMax, color) == score
    decreases depth, 2
  {
    var allMoves := CollectMoves(b, color);
    MovesListed(b, color, allMoves);
    ExpandedValue(b, depth, isMax, color, allMoves);
    var bestMove;
    if isMax {
      score, bestMove := MaxLoop(b, depth, alpha, beta, color, allMoves);
    } else {
      score, bestMove := MinLoop(b, depth, alpha, beta, color, allMoves);
    }
    best := bestMove.value;
  }

  /** The board after allMoves[i] (a fresh copy with the two squares set),
      searched one ply less deep by the other side. */
  method SearchChild(b: BoardState, depth: nat, alpha: ExtInt, beta: ExtInt, isMax: bool, color: Color,
                     allMoves: seq<AiMove>, i: nat) returns (evalScore: int)
    requires depth > 0 && Lt(alpha, beta) && OnBoardMoves(allMoves) && i < |allMoves|
    ensures FailSoft(Fin(evalScore), Fin(ChildSeq(b, allMoves, depth, isMax, color)[i]), alpha, beta)
    decreases depth, 0
  {
    var move := allMoves[i];
    assert move in allMoves;
    var newBoard := b;
    newBoard := newBoard[move.to.row := newBoard[move.to.row][move.to.col := newBoard[move.from.row][move.from.col]]];
    newBoard := newBoard[move.from.row := newBoard[move.from.row][move.from.col := None]];
    assert newBoard == Child(b, move);
    var nextColor := if color == Red then Black else Red;
    var childBest;
    evalScore, childBest := Minimax(newBoard, depth - 1, alpha, beta, !isMax, nextColor);
  }

  /** The maximizing loop: alpha rises with every child score and the loop
      stops once beta <= alpha; bestMove is the first move reaching the
      running maximum. */
  method MaxLoop(b: BoardState, depth: nat, alpha0: ExtInt, beta: ExtInt, color: Color, allMoves: seq<AiMove>)
    returns (score: int, bestMove: Option<AiMove>)
    requires depth > 0 && Lt(alpha0, beta) && OnBoardMoves(allMoves) && |allMoves| > 0
    ensures FailSoft(Fin(score), MaxOf(ChildSeq(b, allMoves, depth, true, color)), alpha0, beta)
    ensures bestMove.Some? && bestMove.value in allMoves
    ensures alpha0 == NegInf && beta == PosInf ==> ChildAt(b, bestMove.value, depth, true, color) == score
    ensures alpha0 == NegInf && beta == PosInf ==>
      exists k :: 0 <= k < |allMoves| && bestMove == Some(allMoves[k])
        && AllBelow(ChildSeq(b, allMoves, depth, true, color), k, score)
    decreases depth, 1
  {
    ghost var s := ChildSeq(b, allMoves, depth, true, color);
    var maxEval := NegInf;
    var alpha := alpha0;
    bestMove := None;
    ghost var bestIndex := 0;
    var i := 0;
    MaxLoopStart(s, alpha0, beta);
    while i < |allMoves|
      invariant MaxLoopInv(s, i, maxEval, alpha, alpha0, beta)
      invariant bestMove.Some? <==> i > 0
      invariant i > 0 ==> 0 <= bestIndex < i && bestMove == Some(allMoves[bestIndex])
      invariant i > 0 && alpha0 == NegInf && beta == PosInf ==> maxEval == Fin(s[bestIndex])
      invariant i > 0 && alpha0 == NegInf && beta == PosInf ==> AllBelow(s, bestIndex, maxEval.n)
      decreases |allMoves| - i
    {
      var evalScore := SearchChild(b, depth, alpha, beta, true, color, allMoves, i);
      MaxLoopChild(s, i, maxEval, alpha, alpha0, beta, evalScore);
      if Lt(maxEval, Fin(evalScore)) {
        if alpha0 == NegInf && beta == PosInf {
          MaxImproves(s, i, maxEval, alpha, evalScore);
        }
        maxEval := Fin(evalScore);
        bestMove := Some(allMoves[i]);
        bestIndex := i;
      }
      alpha := MaxE(alpha, Fin(evalScore));
      i := i + 1;
      if Le(beta, alpha) {
        break;
      }
    }
    if i == |allMoves| && !Le(beta, alpha) {
      MaxLoopEnd(s, maxEval, alpha, alpha0, beta);
    }
    score := maxEval.n;
    assert bestMove.value in allMoves;
    assert bestMove == Some(allMoves[bestIndex]);
  }

  /** The minimizing loop, the mirror image: beta falls with every child score. */
  method MinLoop(b: BoardState, depth: nat, alpha: ExtInt, beta0: ExtInt, color: Color, allMoves: seq<AiMove>)
    returns (score: int, bestMove: Option<AiMove>)
    requires depth > 0 && Lt(alpha, beta0) && OnBoardMoves(allMoves) && |allMoves| > 0
    ensures FailSoft(Fin(score), MinOf(ChildSeq(b, allMoves, depth, false, color)), alpha, beta0)
    ensures bestMove.Some? && bestMove.value in allMoves
    ensures alpha == NegInf && beta0 == PosInf ==> ChildAt(b, bestMove.value, depth, false, color) == score
    ensures alpha == NegInf && beta0 == PosInf ==>
      exists k :: 0 <= k < |allMoves| && bestMove == Some(allMoves[k])
        && AllAbove(ChildSeq(b, allMoves, depth, false, color), k, score)
    decreases depth, 1
  {
    ghost var s := ChildSeq(b, allMoves, depth, false, color);
    var minEval := PosInf;
    var beta := beta0;
    bestMove := None;
    ghost var bestIndex := 0;
    var i := 0;
    MinLoopStart(s, alpha, beta0);
    while i < |allMoves|
      invariant MinLoopInv(s, i, minEval, beta, alpha, beta0)
      invariant bestMove.Some? <==> i > 0
      invariant i > 0 ==> 0 <= bestIndex < i && bestMove == Some(allMoves[bestIndex])
      invariant i > 0 && alpha == NegInf && beta0 == PosInf ==> minEval == Fin(s[bestIndex])
      invariant i > 0 && alpha == NegInf && beta0 == PosInf ==> AllAbove(s, bestIndex, minEval.n)
      decreases |allMoves| - i
    {
      var evalScore := SearchChild(b, depth, alpha, beta, false, color, allMoves, i);
      MinLoopChild(s, i, minEval, beta, alpha, beta0, evalScore);
      if Lt(Fin(evalScore), minEval) {
        if alpha == NegInf && beta0 == PosInf {
          MinImproves(s, i, minEval, beta, evalScore);
        }
        minEval := Fin(evalScore);
        bestMove := Some(allMoves[i]);
        bestIndex := i;
      }
      beta := MinE(beta, Fin(evalScore));
      i := i + 1;
      if Le(beta, alpha) {
        break;
      }
    }
    if i == |allMoves| && !Le(beta, alpha) {
      MinLoopEnd(s, minEval, beta, alpha, beta0);
    }
    score := minEval.n;
    assert bestMove.value in allMoves;
    assert bestMove == Some(allMoves[bestIndex]);
  }

  /** getBestMove: the root search with depth MAX_DEPTH and the full window.
      No move exactly when the side to move has no legal move; otherwise a
      legal move whose value is the root value, which no other legal move
      exceeds. */
  method GetBestMove(b: BoardState, turn: Color) returns (best: Option<AiMove>)
    ensures best.None? <==> !HasLegal(b, turn)
    ensures best.Some? ==>
      LegalMove(b, turn, best.value) && OnBoard(best.value.to) &&
      ChildAt(b, best.value, MaxDepth, true, turn) == AiValue(b, MaxDepth, true, turn)
    ensures best.Some? ==> forall m :: LegalMove(b, turn, m) ==>
      OnBoard(m.to) && ChildAt(b, m, MaxDepth, true, turn) <= AiValue(b, MaxDepth, true, turn)
  {
    var bestScore, bestMove := Minimax(b, MaxDepth, NegInf, PosInf, true, turn);
    FailSoftFullWindow(bestScore, Fin(AiValue(b, MaxDepth, true, turn)));
    best := bestMove;
    if best.Some? {
      LegalMovesExact(b, turn);
      ChildValuesNonEmpty(b, MaxDepth, true, turn);
      MaxNodeValue(b, MaxDepth, turn);
      forall m | LegalMove(b, turn, m)
        ensures OnBoard(m.to) && ChildAt(b, m, MaxDepth, true, turn) <= AiValue(b, MaxDepth, true, turn)
      {
        ChildValueIn(b, MaxDepth, true, turn, m);
      }
    }
  }
}
