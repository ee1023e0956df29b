/** The two rule engines of the application describe the same game: the
    browser's (rows 0..9 from Black's back rank, typed pieces) and the
    server's (rows y = 9 - row from Red's back rank, signed codes). Under
    that mirror every piece reaches the same squares in both. */
module EngineAgreement {
  import opened Scores
  import P = PyBoard
  import T = TsBoard

  function KindCode(k: T.PieceType): int {
    match k
    case General => P.King
    case Advisor => P.Advisor
    case Elephant => P.Elephant
    case Horse => P.Horse
    case Chariot => P.Rook
    case Cannon => P.Cannon
    case Soldier => P.Pawn
  }

  function Side(color: T.Color): P.Player {
    if color == T.Red then P.Red else P.Black
  }

  /** The server's code for a cell: Red positive, Black negative, 0 empty. */
  function Code(cell: T.Cell): (v: int)
    ensures v == 0 <==> cell.None?
    ensures cell.Some? ==> P.Abs(v) == KindCode(cell.value.kind) && (v > 0 <==> cell.value.color == T.Red)
  {
    match cell
    case None => 0
    case Some(p) => Side(p.color) * KindCode(p.kind)
  }

  /** The browser board read as the server's: row r becomes y = 9 - r. */
  function ToServer(b: T.BoardState): (s: P.Board)
    ensures forall y, x :: 0 <= y < 10 && 0 <= x < 9 ==> s[y][x] == Code(b[9 - y][x])
  {
    seq(10, y requires 0 <= y < 10 => seq(9, x requires 0 <= x < 9 => Code(b[9 - y][x])))
  }

  /** s holds, at server row y, the codes of browser row 9 - y. */
  ghost predicate Mirrors(b: T.BoardState, s: P.Board) {
    forall y, x :: 0 <= y < 10 && 0 <= x < 9 ==> s[y][x] == Code(b[9 - y][x])
  }

  /** A line of the browser board is a line of the server board, and the
      square before its end (pr, pc) is the mirrored square before the
      mirrored end; a shorter line remains when it is not the start. */
  lemma LineMirror(r: int, c: int, nr: int, nc: int, pr: int, pc: int)
    requires T.IsValidPos(r, c) && T.IsValidPos(nr, nc) && T.OnLine(r, c, nr, nc)
    requires pr == nr - T.Sgn(nr - r) && pc == nc - T.Sgn(nc - c)
    ensures P.Valid(c, 9 - r) && P.Valid(nc, 9 - nr) && P.OnLine(c, 9 - r, nc, 9 - nr)
    ensures nc - P.Sgn(nc - c) == pc && (9 - nr) - P.Sgn((9 - nr) - (9 - r)) == 9 - pr
    ensures T.IsValidPos(pr, pc)
    ensures pr != r || pc != c ==>
      T.OnLine(r, c, pr, pc) && T.Abs(pr - r) + T.Abs(pc - c) < T.Abs(nr - r) + T.Abs(nc - c)
  {
  }

  /** The count of pieces between two squares of a line is the same on a
      browser board and on any server board that mirrors it. */
  lemma {:induction false} BetweenMirrored(b: T.BoardState, s: P.Board, r: int, c: int, nr: int, nc: int)
    requires Mirrors(b, s)
    requires T.IsValidPos(r, c) && T.IsValidPos(nr, nc) && T.OnLine(r, c, nr, nc)
    ensures P.Valid(c, 9 - r) && P.Valid(nc, 9 - nr) && P.OnLine(c, 9 - r, nc, 9 - nr)
    ensures T.Between(b, r, c, nr, nc) == P.Between(s, c, 9 - r, nc, 9 - nr)
    decreases T.Abs(nr - r) + T.Abs(nc - c)
  {
    var pr, pc := nr - T.Sgn(nr - r), nc - T.Sgn(nc - c);
    LineMirror(r, c, nr, nc, pr, pc);
    if pr != r || pc != c {
      BetweenMirrored(b, s, r, c, pr, pc);
      var here := if b[pr][pc].Some? then 1 else 0;
      assert s[9 - pr][pc] == Code(b[pr][pc]);
      assert (if s[9 - pr][pc] != P.Empty then 1 else 0) == here;
      LastBetween(b, s, r, c, nr, nc, pr, pc);
    }
  }

  /** Both counts grow by the occupancy of the square before the end. */
  lemma LastBetween(b: T.BoardState, s: P.Board, r: int, c: int, nr: int, nc: int, pr: int, pc: int)
    requires T.IsValidPos(r, c) && T.IsValidPos(nr, nc) && T.OnLine(r, c, nr, nc)
    requires pr == nr - T.Sgn(nr - r) && pc == nc - T.Sgn(nc - c) && (pr != r || pc != c)
    requires T.IsValidPos(pr, pc) && T.OnLine(r, c, pr, pc)
    requires nc - P.Sgn(nc - c) == pc && (9 - nr) - P.Sgn((9 - nr) - (9 - r)) == 9 - pr
    requires P.Valid(c, 9 - r) && P.Valid(nc, 9 - nr) && P.OnLine(c, 9 - r, nc, 9 - nr)
    requires P.Valid(pc, 9 - pr) && P.OnLine(c, 9 - r, pc, 9 - pr)
    ensures T.Between(b, r, c, nr, nc) == T.Between(b, r, c, pr, pc) + (if b[pr][pc].Some? then 1 else 0)
    ensures P.Between(s, c, 9 - r, nc, 9 - nr) == P.Between(s, c, 9 - r, pc, 9 - pr) + (if s[9 - pr][pc] != P.Empty then 1 else 0)
  {
  }

  /** The two engines count the same pieces between two squares of a line. */
  lemma BetweenAgrees(b: T.BoardState, r: int, c: int, nr: int, nc: int)
    requires T.IsValidPos(r, c) && T.IsValidPos(nr, nc) && T.OnLine(r, c, nr, nc)
    ensures P.Valid(c, 9 - r) && P.Valid(nc, 9 - nr) && P.OnLine(c, 9 - r, nc, 9 - nr)
    ensures T.Between(b, r, c, nr, nc) == P.Between(ToServer(b), c, 9 - r, nc, 9 - nr)
  {
    BetweenMirrored(b, ToServer(b), r, c, nr, nc);
  }

  /** The occupancy tests of the two engines agree on the mirrored square. */
  lemma CellAgrees(b: T.BoardState, s: P.Board, color: T.Color, nr: int, nc: int)
    requires Mirrors(b, s) && T.IsValidPos(nr, nc)
    ensures P.Valid(nc, 9 - nr)
    ensures P.OwnAt(s, nc, 9 - nr, Side(color)) <==> T.HasPiece(b, nr, nc, color)
    ensures P.EnemyAt(s, nc, 9 - nr, Side(color)) <==> T.HasPiece(b, nr, nc, T.Opponent(color))
    ensures s[9 - nr][nc] == P.Empty <==> b[nr][nc].None?
  {
    assert s[9 - nr][nc] == Code(b[nr][nc]);
  }

  lemma GeneralAgrees(b: T.BoardState, s: P.Board, color: T.Color, r: int, c: int, nr: int, nc: int)
    requires Mirrors(b, s)
    ensures T.GeneralTarget(b, color, r, c, nr, nc) <==> P.KingTarget(s, Side(color), c, 9 - r, nc, 9 - nr)
  {
    if T.IsValidPos(nr, nc) {
      CellAgrees(b, s, color, nr, nc);
    }
  }

  lemma AdvisorAgrees(b: T.BoardState, s: P.Board, color: T.Color, r: int, c: int, nr: int, nc: int)
    requires Mirrors(b, s)
    ensures T.AdvisorTarget(b, color, r, c, nr, nc) <==> P.AdvisorTarget(s, Side(color), c, 9 - r, nc, 9 - nr)
  {
    if T.IsValidPos(nr, nc) {
      CellAgrees(b, s, color, nr, nc);
    }
  }

  lemma ElephantAgrees(b: T.BoardState, s: P.Board, color: T.Color, r: int, c: int, nr: int, nc: int)
    requires Mirrors(b, s) && T.IsValidPos(r, c)
    ensures T.ElephantTarget(b, color, r, c, nr, nc) <==> P.ElephantTarget(s, Side(color), c, 9 - r, nc, 9 - nr)
  {
    if T.Abs(nr - r) == 2 && T.Abs(nc - c) == 2 && T.IsValidPos(nr, nc) {
      CellAgrees(b, s, color, nr, nc);
      var er, ec := r + (nr - r) / 2, c + (nc - c) / 2;
      assert (9 - r) + ((9 - nr) - (9 - r)) / 2 == 9 - er;
      CellAgrees(b, s, color, er, ec);
    }
  }

  lemma HorseAgrees(b: T.BoardState, s: P.Board, color: T.Color, r: int, c: int, nr: int, nc: int)
    requires Mirrors(b, s) && T.IsValidPos(r, c)
    ensures T.HorseTarget(b, color, r, c, nr, nc) <==> P.HorseTarget(s, Side(color), c, 9 - r, nc, 9 - nr)
  {
    if T.IsValidPos(nr, nc) && ((T.Abs(nr - r) == 2 && T.Abs(nc - c) == 1) || (T.Abs(nr - r) == 1 && T.Abs(nc - c) == 2)) {
      CellAgrees(b, s, color, nr, nc);
      var lr, lc := T.LegRow(r, nr), T.LegCol(c, nc);
      assert P.HorseLegY(9 - r, 9 - nr) == 9 - lr && P.HorseLegX(c, nc) == lc;
      CellAgrees(b, s, color, lr, lc);
    }
  }

  lemma ChariotAgrees(b: T.BoardState, s: P.Board, color: T.Color, r: int, c: int, nr: int, nc: int)
    requires Mirrors(b, s)
    ensures T.ChariotTarget(b, color, r, c, nr, nc) <==> P.RookTarget(s, Side(color), c, 9 - r, nc, 9 - nr)
  {
    if T.IsValidPos(r, c) && T.IsValidPos(nr, nc) && T.OnLine(r, c, nr, nc) {
      CellAgrees(b, s, color, nr, nc);
      BetweenMirrored(b, s, r, c, nr, nc);
    }
  }

  lemma CannonAgrees(b: T.BoardState, s: P.Board, color: T.Color, r: int, c: int, nr: int, nc: int)
    requires Mirrors(b, s)
    ensures T.CannonTarget(b, color, r, c, nr, nc) <==> P.CannonTarget(s, Side(color), c, 9 - r, nc, 9 - nr)
  {
    if T.IsValidPos(r, c) && T.IsValidPos(nr, nc) && T.OnLine(r, c, nr, nc) {
      CellAgrees(b, s, color, nr, nc);
      BetweenMirrored(b, s, r, c, nr, nc);
    }
  }

  lemma SoldierAgrees(b: T.BoardState, s: P.Board, color: T.Color, r: int, c: int, nr: int, nc: int)
    requires Mirrors(b, s)
    ensures T.SoldierTarget(b, color, r, c, nr, nc) <==> P.PawnTarget(s, Side(color), c, 9 - r, nc, 9 - nr)
  {
    if T.IsValidPos(nr, nc) {
      CellAgrees(b, s, color, nr, nc);
    }
  }

  /** The rule of the piece on a square, in both engines, for one kind. */
  ghost predicate SameRule(b: T.BoardState, s: P.Board, from: T.Position, to: T.Position)
    requires T.OnBoard(from) && T.At(b, from).Some?
  {
    T.PotentialTarget(b, from, to) <==>
    P.PieceTarget(s, Side(T.At(b, from).value.color), from.col, 9 - from.row, to.col, 9 - to.row)
  }

  lemma GeneralRule(b: T.BoardState, s: P.Board, from: T.Position, to: T.Position)
    requires Mirrors(b, s) && T.OnBoard(from) && T.At(b, from).Some? && T.At(b, from).value.kind == T.General
    ensures SameRule(b, s, from, to)
  {
    var color := T.At(b, from).value.color;
    var (x, y, nx, ny) := (from.col, 9 - from.row, to.col, 9 - to.row);
    assert P.Abs(s[y][x]) == P.King by {
      assert s[y][x] == Code(b[from.row][from.col]);
    }
    assert T.PotentialTarget(b, from, to) == T.GeneralTarget(b, color, from.row, from.col, to.row, to.col);
    assert P.PieceTarget(s, Side(color), x, y, nx, ny) == P.KingTarget(s, Side(color), x, y, nx, ny);
    GeneralAgrees(b, s, color, from.row, from.col, to.row, to.col);
  }

  lemma AdvisorRule(b: T.BoardState, s: P.Board, from: T.Position, to: T.Position)
    requires Mirrors(b, s) && T.OnBoard(from) && T.At(b, from).Some? && T.At(b, from).value.kind == T.Advisor
    ensures SameRule(b, s, from, to)
  {
    var color := T.At(b, from).value.color;
    var (x, y, nx, ny) := (from.col, 9 - from.row, to.col, 9 - to.row);
    assert P.Abs(s[y][x]) == P.Advisor by {
      assert s[y][x] == Code(b[from.row][from.col]);
    }
    assert T.PotentialTarget(b, from, to) == T.AdvisorTarget(b, color, from.row, from.col, to.row, to.col);
    assert P.PieceTarget(s, Side(color), x, y, nx, ny) == P.AdvisorTarget(s, Side(color), x, y, nx, ny);
    AdvisorAgrees(b, s, color, from.row, from.col, to.row, to.col);
  }

  lemma ElephantRule(b: T.BoardState, s: P.Board, from: T.Position, to: T.Position)
    requires Mirrors(b, s) && T.OnBoard(from) && T.At(b, from).Some? && T.At(b, from).value.kind == T.Elephant
    ensures SameRule(b, s, from, to)
  {
    var color := T.At(b, from).value.color;
    var (x, y, nx, ny) := (from.col, 9 - from.row, to.col, 9 - to.row);
    assert P.Abs(s[y][x]) == P.Elephant by {
      assert s[y][x] == Code(b[from.row][from.col]);
    }
    assert T.PotentialTarget(b, from, to) == T.ElephantTarget(b, color, from.row, from.col, to.row, to.col);
    assert P.PieceTarget(s, Side(color), x, y, nx, ny) == P.ElephantTarget(s, Side(color), x, y, nx, ny);
    ElephantAgrees(b, s, color, from.row, from.col, to.row, to.col);
  }

  lemma HorseRule(b: T.BoardState, s: P.Board, from: T.Position, to: T.Position)
    requires Mirrors(b, s) && T.OnBoard(from) && T.At(b, from).Some? && T.At(b, from).value.kind == T.Horse
    ensures SameRule(b, s, from, to)
  {
    var color := T.At(b, from).value.color;
    var (x, y, nx, ny) := (from.col, 9 - from.row, to.col, 9 - to.row);
    assert P.Abs(s[y][x]) == P.Horse by {
      assert s[y][x] == Code(b[from.row][from.col]);
    }
    assert T.PotentialTarget(b, from, to) == T.HorseTarget(b, color, from.row, from.col, to.row, to.col);
    assert P.PieceTarget(s, Side(color), x, y, nx, ny) == P.HorseTarget(s, Side(color), x, y, nx, ny);
    HorseAgrees(b, s, color, from.row, from.col, to.row, to.col);
  }

  lemma ChariotRule(b: T.BoardState, s: P.Board, from: T.Position, to: T.Position)
    requires Mirrors(b, s) && T.OnBoard(from) && T.At(b, from).Some? && T.At(b, from).value.kind == T.Chariot
    ensures SameRule(b, s, from, to)
  {
    var color := T.At(b, from).value.color;
    var (x, y, nx, ny) := (from.col, 9 - from.row, to.col, 9 - to.row);
    assert P.Abs(s[y][x]) == P.Rook by {
      assert s[y][x] == Code(b[from.row][from.col]);
    }
    assert T.PotentialTarget(b, from, to) == T.ChariotTarget(b, color, from.row, from.col, to.row, to.col);
    assert P.PieceTarget(s, Side(color), x, y, nx, ny) == P.RookTarget(s, Side(color), x, y, nx, ny);
    ChariotAgrees(b, s, color, from.row, from.col, to.row, to.col);
  }

  lemma CannonRule(b: T.BoardState, s: P.Board, from: T.Position, to: T.Position)
    requires Mirrors(b, s) && T.OnBoard(from) && T.At(b, from).Some? && T.At(b, from).value.kind == T.Cannon
    ensures SameRule(b, s, from, to)
  {
    var color := T.At(b, from).value.color;
    var (x, y, nx, ny) := (from.col, 9 - from.row, to.col, 9 - to.row);
    assert P.Abs(s[y][x]) == P.Cannon by {
      assert s[y][x] == Code(b[from.row][from.col]);
    }
    assert T.PotentialTarget(b, from, to) == T.CannonTarget(b, color, from.row, from.col, to.row, to.col);
    assert P.PieceTarget(s, Side(color), x, y, nx, ny) == P.CannonTarget(s, Side(color), x, y, nx, ny);
    CannonAgrees(b, s, color, from.row, from.col, to.row, to.col);
  }

  lemma SoldierRule(b: T.BoardState, s: P.Board, from: T.Position, to: T.Position)
    requires Mirrors(b, s) && T.OnBoard(from) && T.At(b, from).Some? && T.At(b, from).value.kind == T.Soldier
    ensures SameRule(b, s, from, to)
  {
    var color := T.At(b, from).value.color;
    var (x, y, nx, ny) := (from.col, 9 - from.row, to.col, 9 - to.row);
    assert P.Abs(s[y][x]) == P.Pawn by {
      assert s[y][x] == Code(b[from.row][from.col]);
    }
    assert T.PotentialTarget(b, from, to) == T.SoldierTarget(b, color, from.row, from.col, to.row, to.col);
    assert P.PieceTarget(s, Side(color), x, y, nx, ny) == P.PawnTarget(s, Side(color), x, y, nx, ny);
    SoldierAgrees(b, s, color, from.row, from.col, to.row, to.col);
  }

  /** Every piece of the browser board reaches the same squares as the same
      piece of a mirroring server board, for its own side. */
  lemma PieceRulesMirrored(b: T.BoardState, s: P.Board, from: T.Position, to: T.Position)
    requires Mirrors(b, s) && T.OnBoard(from) && T.At(b, from).Some?
    ensures var piece := T.At(b, from).value;
      T.PotentialTarget(b, from, to) <==> P.PieceTarget(s, Side(piece.color), from.col, 9 - from.row, to.col, 9 - to.row)
  {
    match T.At(b, from).value.kind
    case General => GeneralRule(b, s, from, to);
    case Advisor => AdvisorRule(b, s, from, to);
    case Elephant => ElephantRule(b, s, from, to);
    case Horse => HorseRule(b, s, from, to);
    case Chariot => ChariotRule(b, s, from, to);
    case Cannon => CannonRule(b, s, from, to);
    case Soldier => SoldierRule(b, s, from, to);
  }

  /** Every piece of the browser board reaches the same squares as the same
      piece of the mirrored server board, for its own side. */
  lemma PieceRulesAgree(b: T.BoardState, from: T.Position, to: T.Position)
    requires T.OnBoard(from) && T.At(b, from).Some?
    ensures var piece := T.At(b, from).value;
      T.PotentialTarget(b, from, to) <==>
      P.PieceTarget(ToServer(b), Side(piece.color), from.col, 9 - from.row, to.col, 9 - to.row)
  {
    PieceRulesMirrored(b, ToServer(b), from, to);
  }

  /** The server's codes for one browser row. */
  function RowCodes(row: seq<T.Cell>): (v: seq<int>)
    ensures |v| == |row| && forall x :: 0 <= x < |row| ==> v[x] == Code(row[x])
  {
    seq(|row|, x requires 0 <= x < |row| => Code(row[x]))
  }

  /** Server row y of a mirrored board holds the codes of browser row 9 - y. */
  lemma MirroredRow(b: T.BoardState, y: int)
    requires 0 <= y < 10
    ensures ToServer(b)[y] == RowCodes(b[9 - y])
  {
  }

  lemma BackRanksAgree()
    ensures RowCodes(T.BackRank(T.Red)) == P.InitBoard()[0]
    ensures RowCodes(T.BackRank(T.Black)) == P.InitBoard()[9]
  {
  }

  lemma CannonRanksAgree()
    ensures RowCodes(T.CannonRank(T.Red)) == P.InitBoard()[2]
    ensures RowCodes(T.CannonRank(T.Black)) == P.InitBoard()[7]
  {
  }

  lemma SoldierRanksAgree()
    ensures RowCodes(T.SoldierRank(T.Red)) == P.InitBoard()[3]
    ensures RowCodes(T.SoldierRank(T.Black)) == P.InitBoard()[6]
  {
  }

  lemma EmptyRanksAgree()
    ensures RowCodes(T.EmptyRank()) == P.InitBoard()[1] == P.InitBoard()[4]
    ensures RowCodes(T.EmptyRank()) == P.InitBoard()[5] == P.InitBoard()[8]
  {
  }

  /** Row y of the opening positions of the two engines agrees. */
  lemma OpeningRowAgrees(y: int)
    requires 0 <= y < 10
    ensures ToServer(T.InitialBoard())[y] == P.InitBoard()[y]
  {
    var b := T.InitialBoard();
    MirroredRow(b, y);
    if y == 0 || y == 9 {
      assert b[9 - y] == T.BackRank(if y == 0 then T.Red else T.Black);
      BackRanksAgree();
    } else if y == 2 || y == 7 {
      assert b[9 - y] == T.CannonRank(if y == 2 then T.Red else T.Black);
      CannonRanksAgree();
    } else if y == 3 || y == 6 {
      assert b[9 - y] == T.SoldierRank(if y == 3 then T.Red else T.Black);
      SoldierRanksAgree();
    } else {
      assert b[9 - y] == T.EmptyRank();
      EmptyRanksAgree();
    }
  }

  /** The opening positions of the two engines are the same position. */
  lemma InitialBoardsAgree()
    ensures ToServer(T.InitialBoard()) == P.InitBoard()
  {
    forall y | 0 <= y < 10 ensures ToServer(T.InitialBoard())[y] == P.InitBoard()[y] {
      OpeningRowAgrees(y);
    }
  }
}
