/** The board of the browser engine (utils/gameLogic.ts, types.ts,
    constants.ts) as a value: ten rows of nine cells, each empty or holding
    a typed, coloured piece. Row 0 is Black's back rank and row 9 Red's, so
    Red moves toward smaller rows. The predicates below state which squares
    getPotentialMoves lists for the piece on a square; the methods in
    TsLogic are proved to list exactly these. */
module TsBoard {
  import opened Scores

  datatype Color = Red | Black
  datatype PieceType = General | Advisor | Elephant | Horse | Chariot | Cannon | Soldier
  datatype Piece = Piece(kind: PieceType, color: Color)
  datatype Position = Position(row: int, col: int)

  type Cell = Option<Piece>

  predicate IsBoard(b: seq<seq<Cell>>) {
    |b| == 10 && forall r :: 0 <= r < 10 ==> |b[r]| == 9
  }

  /** BoardState: (Piece | null)[][], 10 rows x 9 columns. */
  type BoardState = b: seq<seq<Cell>> | IsBoard(b) witness seq(10, r => seq(9, c => None))

  function Opponent(color: Color): (o: Color)
    ensures o != color
  {
    if color == Red then Black else Red
  }

  /** isValidPos */
  predicate IsValidPos(r: int, c: int) { 0 <= r <= 9 && 0 <= c <= 8 }

  predicate OnBoard(p: Position) { IsValidPos(p.row, p.col) }

  function At(b: BoardState, p: Position): Cell
    requires OnBoard(p)
  {
    b[p.row][p.col]
  }

  function Abs(v: int): nat { if v < 0 then -v else v }
  function Sgn(v: int): int { if v < 0 then -1 else if v > 0 then 1 else 0 }

  /** checkAdd's test on an on-board square: empty, or a piece of the other colour. */
  predicate Admits(b: BoardState, color: Color, r: int, c: int)
    requires IsValidPos(r, c)
  {
    b[r][c].None? || b[r][c].value.color != color
  }

  predicate HasPiece(b: BoardState, r: int, c: int, color: Color)
    requires IsValidPos(r, c)
  {
    b[r][c].Some? && b[r][c].value.color == color
  }

  /** The palace: columns 3..5, rows 7..9 for Red and 0..2 for Black. */
  predicate InPalace(color: Color, r: int, c: int) {
    3 <= c <= 5 && (if color == Red then 7 <= r <= 9 else 0 <= r <= 2)
  }

  predicate GeneralTarget(b: BoardState, color: Color, r: int, c: int, nr: int, nc: int) {
    Abs(nr - r) + Abs(nc - c) == 1 && InPalace(color, nr, nc) && Admits(b, color, nr, nc)
  }

  predicate AdvisorTarget(b: BoardState, color: Color, r: int, c: int, nr: int, nc: int) {
    Abs(nr - r) == 1 && Abs(nc - c) == 1 && InPalace(color, nr, nc) && Admits(b, color, nr, nc)
  }

  /** Two diagonal steps on the mover's own half (Red rows >= 5, Black
      rows <= 4) over an empty on-board eye. */
  predicate ElephantTarget(b: BoardState, color: Color, r: int, c: int, nr: int, nc: int) {
    Abs(nr - r) == 2 && Abs(nc - c) == 2
    && !(color == Red && nr < 5) && !(color == Black && nr > 4)
    && IsValidPos(r + (nr - r) / 2, c + (nc - c) / 2) && b[r + (nr - r) / 2][c + (nc - c) / 2].None?
    && IsValidPos(nr, nc) && Admits(b, color, nr, nc)
  }

  /** The orthogonal square next to the start in the direction of the
      leap's long leg. */
  function LegRow(r: int, nr: int): int { if Abs(nr - r) == 2 then r + (nr - r) / 2 else r }
  function LegCol(c: int, nc: int): int { if Abs(nc - c) == 2 then c + (nc - c) / 2 else c }

  predicate HorseTarget(b: BoardState, color: Color, r: int, c: int, nr: int, nc: int) {
    ((Abs(nr - r) == 2 && Abs(nc - c) == 1) || (Abs(nr - r) == 1 && Abs(nc - c) == 2))
    && IsValidPos(LegRow(r, nr), LegCol(c, nc)) && b[LegRow(r, nr)][LegCol(c, nc)].None?
    && IsValidPos(nr, nc) && Admits(b, color, nr, nc)
  }

  predicate OnLine(r: int, c: int, nr: int, nc: int) {
    (nr == r && nc != c) || (nc == c && nr != r)
  }

  /** Number of pieces strictly between two squares of one row or column. */
  function Between(b: BoardState, r: int, c: int, nr: int, nc: int): nat
    requires IsValidPos(r, c) && IsValidPos(nr, nc) && OnLine(r, c, nr, nc)
    decreases Abs(nr - r) + Abs(nc - c)
  {
    var pr, pc := nr - Sgn(nr - r), nc - Sgn(nc - c);
    if pr == r && pc == c then 0
    else Between(b, r, c, pr, pc) + (if b[pr][pc].Some? then 1 else 0)
  }

  /** A chariot slides over empty squares and may end on an empty square or
      an enemy piece. */
  predicate ChariotTarget(b: BoardState, color: Color, r: int, c: int, nr: int, nc: int) {
    IsValidPos(r, c) && IsValidPos(nr, nc) && OnLine(r, c, nr, nc)
    && Between(b, r, c, nr, nc) == 0 && Admits(b, color, nr, nc)
  }

  /** A cannon slides to an empty square over nothing, or lands on an enemy
      piece over exactly one screen of either colour. */
  predicate CannonTarget(b: BoardState, color: Color, r: int, c: int, nr: int, nc: int) {
    IsValidPos(r, c) && IsValidPos(nr, nc) && OnLine(r, c, nr, nc)
    && ((Between(b, r, c, nr, nc) == 0 && b[nr][nc].None?)
        || (Between(b, r, c, nr, nc) == 1 && HasPiece(b, nr, nc, Opponent(color))))
  }

  function Forward(color: Color): int { if color == Red then -1 else 1 }

  /** Red across the river at rows <= 4, Black at rows >= 5. */
  predicate CrossedRiver(color: Color, r: int) { if color == Red then r <= 4 else r >= 5 }

  predicate SoldierTarget(b: BoardState, color: Color, r: int, c: int, nr: int, nc: int) {
    IsValidPos(nr, nc) && Admits(b, color, nr, nc)
    && ((nr == r + Forward(color) && nc == c)
        || (CrossedRiver(color, r) && nr == r && Abs(nc - c) == 1))
  }

  /** The rule of the piece on from: a square getPotentialMoves lists for it
      (none for an empty square). */
  predicate PotentialTarget(b: BoardState, from: Position, to: Position)
    requires OnBoard(from)
  {
    match At(b, from)
    case None => false
    case Some(p) =>
      var (r, c, nr, nc) := (from.row, from.col, to.row, to.col);
      match p.kind
      case General => GeneralTarget(b, p.color, r, c, nr, nc)
      case Advisor => AdvisorTarget(b, p.color, r, c, nr, nc)
      case Elephant => ElephantTarget(b, p.color, r, c, nr, nc)
      case Horse => HorseTarget(b, p.color, r, c, nr, nc)
      case Chariot => ChariotTarget(b, p.color, r, c, nr, nc)
      case Cannon => CannonTarget(b, p.color, r, c, nr, nc)
      case Soldier => SoldierTarget(b, p.color, r, c, nr, nc)
  }

  /** The board after the piece on from is moved to to: the destination
      takes the piece, the origin is emptied (getValidMoves' simulation,
      applyMove of the replay store, the child boards of the browser AI). */
  function AfterMove(b: BoardState, from: Position, to: Position): (r: BoardState)
    requires OnBoard(from) && OnBoard(to)
  {
    var t := b[to.row := b[to.row][to.col := b[from.row][from.col]]];
    t[from.row := t[from.row][from.col := None]]
  }

  /** The back rank of one side: chariot, horse, elephant, advisor,
      general, advisor, elephant, horse, chariot. */
  function BackRank(color: Color): seq<Cell> {
    [Some(Piece(Chariot, color)), Some(Piece(Horse, color)), Some(Piece(Elephant, color)),
     Some(Piece(Advisor, color)), Some(Piece(General, color)), Some(Piece(Advisor, color)),
     Some(Piece(Elephant, color)), Some(Piece(Horse, color)), Some(Piece(Chariot, color))]
  }

  /** The cannons' rank: cannons on the second and eighth files. */
  function CannonRank(color: Color): seq<Cell> {
    [None, Some(Piece(Cannon, color)), None, None, None, None, None, Some(Piece(Cannon, color)), None]
  }

  /** The soldiers' rank: soldiers on every other file from the first. */
  function SoldierRank(color: Color): seq<Cell> {
    [Some(Piece(Soldier, color)), None, Some(Piece(Soldier, color)), None,
     Some(Piece(Soldier, color)), None, Some(Piece(Soldier, color)), None,
     Some(Piece(Soldier, color))]
  }

  function EmptyRank(): seq<Cell> {
    [None, None, None, None, None, None, None, None, None]
  }

  /** INITIAL_BOARD of constants.ts: Black's generals' palace at the top
      (row 0), Red's at the bottom (row 9), each side's pieces on its own
      half of the river. */
  function InitialBoard(): (r: BoardState)
    ensures r[0][4] == Some(Piece(General, Black)) && r[9][4] == Some(Piece(General, Red))
    ensures forall y, x :: 0 <= y < 10 && 0 <= x < 9 && r[y][x].Some? ==>
      (r[y][x].value.color == Red <==> y >= 5)
  {
    [BackRank(Black), EmptyRank(), CannonRank(Black), SoldierRank(Black), EmptyRank(),
     EmptyRank(), SoldierRank(Red), CannonRank(Red), EmptyRank(), BackRank(Red)]
  }
}
