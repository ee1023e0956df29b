/** The material-plus-position evaluation of backend/classic/evaluation.py:
    a sum over the occupied squares, Red adding the piece value plus its
    piece-square table entry at (y, x), Black subtracting the value plus the
    entry at the mirrored row 9 - y. */
module ClassicEval {
  import opened PyBoard

  /** PIECE_VALUES; codes it does not list count 0. */
  function PieceValue(t: int): int {
    if t == King then 10000
    else if t == Advisor then 20
    else if t == Elephant then 20
    else if t == Horse then 45
    else if t == Rook then 90
    else if t == Cannon then 50
    else if t == Pawn then 10
    else 0
  }

  predicate IsTable(t: seq<seq<int>>) {
    |t| == Height && forall y :: 0 <= y < Height ==> |t[y]| == Width
  }

  type Table = t: seq<seq<int>> | IsTable(t) witness seq(10, y => seq(9, x => 0))

  const ZeroRow: seq<int> := [0, 0, 0, 0, 0, 0, 0, 0, 0]

  const PawnPst: Table := [
    [ 0,  0,  0,  0,  0,  0,  0,  0,  0],
    [ 0,  0,  0,  0,  0,  0,  0,  0,  0],
    [ 0,  0,  0,  0,  0,  0,  0,  0,  0],
    [ 0,  0,  0,  0,  0,  0,  0,  0,  0],
    [ 0,  2,  0,  2,  0,  2,  0,  2,  0],
    [10, 20, 20, 20, 20, 20, 20, 20, 10],
    [20, 30, 40, 50, 60, 50, 40, 30, 20],
    [20, 30, 40, 50, 60, 50, 40, 30, 20],
    [10, 20, 30, 30, 30, 30, 30, 20, 10],
    [ 0, 10, 20, 20, 20, 20, 20, 10,  0]]

  const RookPst: Table := [
    [-5,  0,  0,  0,  0,  0,  0,  0, -5],
    [ 0,  0,  0,  0,  0,  0,  0,  0,  0],
    [ 0,  0,  0,  0,  0,  0,  0,  0,  0],
    [ 0,  0,  0,  0,  0,  0,  0,  0,  0],
    [ 5,  5,  5,  5,  5,  5,  5,  5,  5],
    [ 5,  5,  5,  5,  5,  5,  5,  5,  5],
    [ 0,  0,  0,  0,  0,  0,  0,  0,  0],
    [ 0,  0,  0,  0,  0,  0,  0,  0,  0],
    [ 0,  0,  0,  5,  5,  5,  0,  0,  0],
    [-5,  0,  0,  5,  5,  5,  0,  0, -5]]

  const HorsePst: Table := [
    [-5, -5, -5, -5, -5, -5, -5, -5, -5],
    [-5,  0,  0,  0,  0,  0,  0,  0, -5],
    [-5,  0,  5,  5,  5,  5,  5,  0, -5],
    [-5,  5, 10, 15, 15, 15, 10,  5, -5],
    [-5,  5, 10, 15, 15, 15, 10,  5, -5],
    [-5,  5, 12, 18, 18, 18, 12,  5, -5],
    [-5,  5, 10, 15, 15, 15, 10,  5, -5],
    [-5,  5,  5,  8,  8,  8,  5,  5, -5],
    [-5,  0,  3,  5,  5,  5,  3,  0, -5],
    [-5, -5, -5, -5, -5, -5, -5, -5, -5]]

  const CannonPst: Table := [
    [ 0,  0,  1,  3,  3,  3,  1,  0,  0],
    [ 0,  1,  1,  2,  2,  2,  1,  1,  0],
    [ 3,  3,  5,  5,  8,  5,  5,  3,  3],
    [ 0,  1,  2,  3,  5,  3,  2,  1,  0],
    [ 0,  1,  5,  5,  5,  5,  5,  1,  0],
    [ 0,  1,  5,  5,  5,  5,  5,  1,  0],
    [ 0,  1,  2,  3,  3,  3,  2,  1,  0],
    [ 1,  1,  1,  1,  1,  1,  1,  1,  1],
    [ 2,  2,  2,  2,  2,  2,  2,  2,  2],
    [ 0,  0,  0,  0,  0,  0,  0,  0,  0]]

  const ElephantPst: Table := [
    [ 0,  0,  1,  0,  0,  0,  1,  0,  0],
    [ 0,  0,  0,  0,  0,  0,  0,  0,  0],
    [ 0,  0,  0,  0,  3,  0,  0,  0,  0],
    [ 0,  0,  0,  0,  0,  0,  0,  0,  0],
    [ 0,  0,  1,  0,  0,  0,  1,  0,  0],
    ZeroRow, ZeroRow, ZeroRow, ZeroRow, ZeroRow]

  const AdvisorPst: Table := [
    [ 0,  0,  0,  1,  3,  1,  0,  0,  0],
    [ 0,  0,  0,  0,  3,  0,  0,  0,  0],
    [ 0,  0,  0,  1,  3,  1,  0,  0,  0],
    ZeroRow, ZeroRow, ZeroRow, ZeroRow, ZeroRow, ZeroRow, ZeroRow]

  const KingPst: Table := [
    [ 0,  0,  0,  1,  1,  1,  0,  0,  0],
    [ 0,  0,  0,  2,  5,  2,  0,  0,  0],
    [ 0,  0,  0,  1,  1,  1,  0,  0,  0],
    ZeroRow, ZeroRow, ZeroRow, ZeroRow, ZeroRow, ZeroRow, ZeroRow]

  /** pst_map: a table for each of the seven piece types. */
  predicate HasTable(t: int) { King <= t <= Pawn }

  function Pst(t: int): Table
    requires HasTable(t)
  {
    if t == King then KingPst
    else if t == Advisor then AdvisorPst
    else if t == Elephant then ElephantPst
    else if t == Horse then HorsePst
    else if t == Rook then RookPst
    else if t == Cannon then CannonPst
    else PawnPst
  }

  /** What the square (x, y) holding code v adds to the score: nothing when
      empty or of an unknown type, otherwise plus (Red) or minus (Black) the
      value and the table entry, Black reading its table at row 9 - y. */
  function CellScore(v: int, y: int, x: int): int
    requires Valid(x, y)
  {
    var t := Abs(v);
    if v == 0 || !HasTable(t) then 0
    else if v > 0 then PieceValue(t) + Pst(t)[y][x]
    else -(PieceValue(t) + Pst(t)[Height - 1 - y][x])
  }

  /** The first n squares of row y. */
  function RowScore(b: Board, y: int, n: int): int
    requires 0 <= y < Height && 0 <= n <= Width
  {
    if n == 0 then 0 else RowScore(b, y, n - 1) + CellScore(b[y][n - 1], y, n - 1)
  }

  /** The first n rows. */
  function RowsScore(b: Board, n: int): int
    requires 0 <= n <= Height
  {
    if n == 0 then 0 else RowsScore(b, n - 1) + RowScore(b, n - 1, Width)
  }

  function BoardScore(b: Board): int {
    RowsScore(b, Height)
  }

  /** evaluate_board: the nested y / x scan accumulating score. */
  method EvaluateBoard(b: Board) returns (score: int)
    ensures score == BoardScore(b)
  {
    score := 0;
    for y := 0 to 10
      invariant score == RowsScore(b, y)
    {
      for x := 0 to 9
        invariant score == RowsScore(b, y) + RowScore(b, y, x)
      {
        var piece := b[y][x];
        if piece == 0 {
          continue;
        }
        var pType := Abs(piece);
        var baseVal := PieceValue(pType);
        if !HasTable(pType) {
          continue;
        }
        var pst := Pst(pType);
        if piece > 0 {
          var pstVal := pst[y][x];
          score := score + (baseVal + pstVal);
        } else {
          var mirrorY := 9 - y;
          var pstVal := pst[mirrorY][x];
          score := score - (baseVal + pstVal);
        }
      }
    }
  }

  // ---------------------------------------------------------------------
  // Properties

  /** A Black piece scores the negation of the Red piece at the mirrored square. */
  lemma CellScoreMirror(v: int, y: int, x: int)
    requires Valid(x, y)
    ensures CellScore(-v, Height - 1 - y, x) == -CellScore(v, y, x)
  {
  }

  lemma {:induction false} RowScoreMirror(b: Board, y: int, n: int)
    requires 0 <= y < Height && 0 <= n <= Width
    ensures RowScore(FlipNeg(b), y, n) == -RowScore(b, Height - 1 - y, n)
  {
    if n > 0 {
      RowScoreMirror(b, y, n - 1);
      CellScoreMirror(b[Height - 1 - y][n - 1], Height - 1 - y, n - 1);
    }
  }

  /** The first n rows of the flipped board are the last n rows of the
      original, negated. */
  lemma {:induction false} RowsScoreMirror(b: Board, n: int)
    requires 0 <= n <= Height
    ensures RowsScore(FlipNeg(b), n) == -(RowsScore(b, Height) - RowsScore(b, Height - n))
  {
    if n > 0 {
      RowsScoreMirror(b, n - 1);
      RowScoreMirror(b, n - 1, Width);
    }
  }

  /** Flipping the board top to bottom and swapping every piece's colour
      negates the score. */
  lemma ScoreAntisymmetric(b: Board)
    ensures BoardScore(FlipNeg(b)) == -BoardScore(b)
  {
    RowsScoreMirror(b, Height);
  }

  /** A board whose only non-empty square is (x0, y0) scores that square. */
  predicate OnlyAt(b: Board, y0: int, x0: int) {
    forall y, x :: 0 <= y < Height && 0 <= x < Width && (y != y0 || x != x0) ==> b[y][x] == Empty
  }

  lemma {:induction false} RowScoreOnly(b: Board, y0: int, x0: int, y: int, n: int)
    requires Valid(x0, y0) && OnlyAt(b, y0, x0) && 0 <= y < Height && 0 <= n <= Width
    ensures RowScore(b, y, n) == (if y == y0 && x0 < n then CellScore(b[y0][x0], y0, x0) else 0)
  {
    if n > 0 {
      RowScoreOnly(b, y0, x0, y, n - 1);
    }
  }

  lemma {:induction false} RowsScoreOnly(b: Board, y0: int, x0: int, n: int)
    requires Valid(x0, y0) && OnlyAt(b, y0, x0) && 0 <= n <= Height
    ensures RowsScore(b, n) == (if y0 < n then CellScore(b[y0][x0], y0, x0) else 0)
  {
    if n > 0 {
      RowsScoreOnly(b, y0, x0, n - 1);
      RowScoreOnly(b, y0, x0, n - 1, Width);
    }
  }

  lemma SingleSquareScore(b: Board, y0: int, x0: int)
    requires Valid(x0, y0) && OnlyAt(b, y0, x0)
    ensures BoardScore(b) == CellScore(b[y0][x0], y0, x0)
  {
    RowsScoreOnly(b, y0, x0, Height);
  }

  /** The empty board scores 0. */
  lemma EmptyBoardScore()
    ensures BoardScore(EmptyBoard()) == 0
  {
    SingleSquareScore(EmptyBoard(), 0, 0);
  }

  /** The board with code v at (x, y) and nothing else. */
  function Lone(y: int, x: int, v: int): (b: Board)
    requires Valid(x, y)
    ensures b[y][x] == v && OnlyAt(b, y, x)
  {
    EmptyBoard()[y := EmptyBoard()[y][x := v]]
  }

  /** A Red rook at (0, 0) against a Black rook at (0, 9) is level. */
  lemma MirroredRooksLevel()
    ensures var b := Lone(0, 0, Rook)[9 := Lone(0, 0, Rook)[9][0 := -Rook]];
      BoardScore(b) == 0
  {
    var b := Lone(0, 0, Rook)[9 := Lone(0, 0, Rook)[9][0 := -Rook]];
    forall y | 0 <= y < Height ensures FlipNeg(b)[y] == b[y] {
      assert forall x :: 0 <= x < Width ==> FlipNeg(b)[y][x] == b[y][x];
    }
    assert FlipNeg(b) == b;
    ScoreAntisymmetric(b);
  }

  /** A lone Red pawn across the river at (4, 5) outscores one at its
      starting row (4, 3). */
  lemma CrossedPawnScoresMore()
    ensures BoardScore(Lone(5, 4, Pawn)) > BoardScore(Lone(3, 4, Pawn))
  {
    SingleSquareScore(Lone(5, 4, Pawn), 5, 4);
    SingleSquareScore(Lone(3, 4, Pawn), 3, 4);
  }
}
