/** The 10x9 board of the Python engine (backend/game.py) as a value: codes,
    squares, moves, the action encoding, the canonical (flipped) form, the
    child-board function used by the search, the terminal test, and the
    declarative movement rules that the generators in PyGame are proved
    against. Coordinates are (x, y) with board[y][x]; Red (+1) starts on rows
    0..4, Black (-1) on rows 5..9. */
module PyBoard {
  const Width: int := 9
  const Height: int := 10
  const ActionSize: int := 8100

  const Empty: int := 0
  const King: int := 1
  const Advisor: int := 2
  const Elephant: int := 3
  const Horse: int := 4
  const Rook: int := 5
  const Cannon: int := 6
  const Pawn: int := 7

  const Red: int := 1
  const Black: int := -1

  type Player = p: int | p == 1 || p == -1 witness 1

  predicate IsBoard(b: seq<seq<int>>) {
    |b| == Height && forall y :: 0 <= y < Height ==> |b[y]| == Width
  }

  /** A numpy int array of shape (10, 9). */
  type Board = b: seq<seq<int>> | IsBoard(b) witness seq(10, y => seq(9, x => 0))

  function EmptyBoard(): (b: Board)
    ensures forall y, x :: 0 <= y < Height && 0 <= x < Width ==> b[y][x] == Empty
  {
    seq(10, y => seq(9, x => 0))
  }

  datatype Square = Square(x: int, y: int)
  /** ((x1, y1), (x2, y2)) */
  datatype Move = Move(start: Square, end: Square)

  predicate Valid(x: int, y: int) { 0 <= x < Width && 0 <= y < Height }
  predicate OnBoard(s: Square) { Valid(s.x, s.y) }
  predicate MoveOnBoard(m: Move) { OnBoard(m.start) && OnBoard(m.end) }

  function Abs(v: int): nat { if v < 0 then -v else v }
  function Sgn(v: int): int { if v < 0 then -1 else if v > 0 then 1 else 0 }

  /** player * -1 */
  function Other(p: Player): (q: Player)
    ensures q + p == 0
  {
    if p == 1 then -1 else 1
  }

  predicate IsOwn(v: int, p: Player) { v != 0 && v * p > 0 }
  predicate IsEnemy(v: int, p: Player) { v != 0 && v * p < 0 }

  /** The starting position written out by _init_board: each king on the
      middle of its back rank, Red's pieces on rows 0..4 and Black's on
      rows 5..9, each side the flipped, negated image of the other. */
  function InitBoard(): (b: Board)
    ensures b[0][4] == King && b[9][4] == -King
    ensures forall y, x :: 0 <= y < Height && 0 <= x < Width ==>
      (b[y][x] > 0 ==> y < 5) && (b[y][x] < 0 ==> y >= 5) && b[Height - 1 - y][x] == -b[y][x]
  {
    [ [ 5,  4,  3,  2,  1,  2,  3,  4,  5],
      [ 0,  0,  0,  0,  0,  0,  0,  0,  0],
      [ 0,  6,  0,  0,  0,  0,  0,  6,  0],
      [ 7,  0,  7,  0,  7,  0,  7,  0,  7],
      [ 0,  0,  0,  0,  0,  0,  0,  0,  0],
      [ 0,  0,  0,  0,  0,  0,  0,  0,  0],
      [-7,  0, -7,  0, -7,  0, -7,  0, -7],
      [ 0, -6,  0,  0,  0,  0,  0, -6,  0],
      [ 0,  0,  0,  0,  0,  0,  0,  0,  0],
      [-5, -4, -3, -2, -1, -2, -3, -4, -5] ]
  }

  // ---------------------------------------------------------------------
  // Action encoding

  /** encode_move: (y1*9 + x1) * 90 + (y2*9 + x2). An on-board move gets a
      code in 0..8099 from which its four coordinates can be read back. */
  function Encode(m: Move): (a: int)
    ensures MoveOnBoard(m) ==>
      && 0 <= a < ActionSize
      && a / 90 / 9 == m.start.y && a / 90 % 9 == m.start.x
      && a % 90 / 9 == m.end.y && a % 90 % 9 == m.end.x
  {
    var p1 := m.start.y * 9 + m.start.x;
    var p2 := m.end.y * 9 + m.end.x;
    if MoveOnBoard(m) then
      assert 0 <= p1 < 90 && 0 <= p2 < 90;
      assert (p1 * 90 + p2) / 90 == p1 && (p1 * 90 + p2) % 90 == p2;
      p1 * 90 + p2
    else p1 * 90 + p2
  }

  /** decode_move with Python's floor division and modulo (equal to Dafny's
      for the positive divisors used here, also for negative actions). */
  function Decode(a: int): (m: Move)
    ensures 0 <= a < ActionSize ==> MoveOnBoard(m) && Encode(m) == a
  {
    var p1 := a / 90;
    var p2 := a % 90;
    assert a == p1 * 90 + p2;
    assert p1 == (p1 / 9) * 9 + p1 % 9 && p2 == (p2 / 9) * 9 + p2 % 9;
    Move(Square(p1 % 9, p1 / 9), Square(p2 % 9, p2 / 9))
  }

  /** The sentinel -1 decodes to ((8, -1), (8, 9)). */
  lemma DecodeMinusOne()
    ensures Decode(-1) == Move(Square(8, -1), Square(8, 9))
  {
  }

  // ---------------------------------------------------------------------
  // Applying a move to a numpy array

  /** An index numpy accepts on an axis of length n (negative counts from the end). */
  predicate NpIndexable(i: int, n: int) { -n <= i < n }
  function NpIndex(i: int, n: int): int requires NpIndexable(i, n) { if i < 0 then i + n else i }

  predicate SquareIndexable(s: Square) { NpIndexable(s.x, Width) && NpIndexable(s.y, Height) }
  predicate MoveIndexable(m: Move) { SquareIndexable(m.start) && SquareIndexable(m.end) }

  /** next[ey][ex] = next[sy][sx]; next[sy][sx] = 0 (numpy indexing). */
  function MoveCells(b: Board, m: Move): (r: Board)
    requires MoveIndexable(m)
  {
    var sx, sy := NpIndex(m.start.x, Width), NpIndex(m.start.y, Height);
    var ex, ey := NpIndex(m.end.x, Width), NpIndex(m.end.y, Height);
    var t := b[ey := b[ey][ex := b[sy][sx]]];
    t[sy := t[sy][sx := 0]]
  }

  /** For an on-board move: the end square receives the moving code, the start
      square is cleared, and every other square keeps its code (a move whose
      start and end coincide removes the piece). */
  lemma MoveCellsEffect(b: Board, m: Move, y: int, x: int)
    requires MoveOnBoard(m) && Valid(x, y)
    ensures var r := MoveCells(b, m);
      r[y][x] == (if Square(x, y) == m.start then 0
                  else if Square(x, y) == m.end then b[m.start.y][m.start.x]
                  else b[y][x])
  {
  }

  lemma MoveIndexableOfAction(a: int)
    requires 0 <= a < ActionSize || a == -1
    ensures MoveIndexable(Decode(a))
  {
    if a == -1 { DecodeMinusOne(); }
  }

  // ---------------------------------------------------------------------
  // Canonical form

  /** np.flipud(board) * -1 */
  function FlipNeg(b: Board): (r: Board)
    ensures forall y, x :: 0 <= y < Height && 0 <= x < Width ==> r[y][x] == -b[Height - 1 - y][x]
  {
    seq(10, y requires 0 <= y < 10 => seq(9, x requires 0 <= x < 9 => -b[9 - y][x]))
  }

  lemma FlipNegInvolution(b: Board)
    ensures FlipNeg(FlipNeg(b)) == b
  {
    var r := FlipNeg(FlipNeg(b));
    forall y | 0 <= y < Height ensures r[y] == b[y] {
      assert forall x :: 0 <= x < Width ==> r[y][x] == b[y][x];
    }
  }

  /** get_canonical_form / get_canonical_board: the board as Red sees it is
      the board itself; as Black sees it, turning it back gives the board. */
  function Canonical(b: Board, p: Player): (c: Board)
    ensures p == Red ==> c == b
    ensures p == Black ==> FlipNeg(c) == b
  {
    FlipNegInvolution(b);
    if p == 1 then b else FlipNeg(b)
  }

  /** get_next_state: apply the decoded move to a copy, then flip and negate
      so the result is seen from the next player's side. */
  function NextState(b: Board, p: Player, a: int): (r: (Board, Player))
    requires MoveIndexable(Decode(a))
    ensures FlipNeg(r.0) == MoveCells(b, Decode(a))
    ensures r.1 == Other(p)
  {
    FlipNegInvolution(MoveCells(b, Decode(a)));
    (FlipNeg(MoveCells(b, Decode(a))), Other(p))
  }

  /** The search's child, canonical(next_state(b, 1, a), -1), is the move applied
      in the parent's own orientation, and the side passes to the opponent. */
  lemma ChildIsMoveInPlace(b: Board, p: Player, a: int)
    requires MoveIndexable(Decode(a))
    ensures Canonical(NextState(b, 1, a).0, -1) == MoveCells(b, Decode(a))
    ensures NextState(b, p, a).1 == Other(p)
  {
    FlipNegInvolution(MoveCells(b, Decode(a)));
  }

  // ---------------------------------------------------------------------
  // Terminal test

  predicate Contains(b: Board, v: int) {
    exists y, x | 0 <= y < Height && 0 <= x < Width :: b[y][x] == v
  }

  /** get_game_ended (the player argument is unused by the source):
      -1 when the own king (code 1) is missing, otherwise 1 when the enemy
      king (code -1) is missing, otherwise 0. */
  function GameEnded(b: Board): (r: int)
    ensures r == -1 <==> !Contains(b, King)
    ensures r == 1 <==> Contains(b, King) && !Contains(b, -King)
    ensures r == 0 || r == 1 || r == -1
  {
    if !Contains(b, King) then -1
    else if !Contains(b, -King) then 1
    else 0
  }

  /** Seen from the other side, a decided position is decided the other way. */
  lemma GameEndedFlip(b: Board)
    requires Contains(b, King) || Contains(b, -King)
    ensures GameEnded(FlipNeg(b)) == -GameEnded(b)
  {
    var f := FlipNeg(b);
    forall v | v == King || v == -King ensures Contains(f, -v) <==> Contains(b, v) {
      if Contains(b, v) {
        var y, x :| 0 <= y < Height && 0 <= x < Width && b[y][x] == v;
        assert f[Height - 1 - y][x] == -v;
      }
      if Contains(f, -v) {
        var y, x :| 0 <= y < Height && 0 <= x < Width && f[y][x] == -v;
        assert b[Height - 1 - y][x] == v;
      }
    }
  }

  lemma InitNotEnded()
    ensures GameEnded(InitBoard()) == 0
  {
    var b := InitBoard();
    assert b[0][4] == King;
    assert b[9][4] == -King;
  }

  // ---------------------------------------------------------------------
  // string_representation: board.tobytes() (row-major cell order)

  predicate IsSig(s: seq<int>) { |s| == Width * Height }

  function Signature(b: Board): (s: seq<int>)
    ensures IsSig(s)
    ensures forall y, x :: 0 <= y < Height && 0 <= x < Width ==> s[y * 9 + x] == b[y][x]
  {
    seq(90, i requires 0 <= i < 90 => b[i / 9][i % 9])
  }

  /** The board a signature was taken from. */
  function SigBoard(s: seq<int>): Board
    requires IsSig(s)
  {
    seq(10, y requires 0 <= y < 10 => seq(9, x requires 0 <= x < 9 => s[y * 9 + x]))
  }

  /** Distinct boards have distinct signatures: the cache keys of the tree
      search identify positions exactly. */
  lemma SignatureInjective(b: Board)
    ensures SigBoard(Signature(b)) == b
  {
    var r := SigBoard(Signature(b));
    forall y | 0 <= y < Height ensures r[y] == b[y] {
      assert forall x :: 0 <= x < Width ==> r[y][x] == b[y][x];
    }
  }

  // ---------------------------------------------------------------------
  // Movement rules (what each generator of backend/game.py produces)

  predicate InPalace(p: Player, x: int, y: int) {
    3 <= x <= 5 && (if p == Red then 0 <= y <= 2 else 7 <= y <= 9)
  }

  predicate OwnAt(b: Board, x: int, y: int, p: Player) requires Valid(x, y) { IsOwn(b[y][x], p) }
  predicate EnemyAt(b: Board, x: int, y: int, p: Player) requires Valid(x, y) { IsEnemy(b[y][x], p) }

  predicate KingTarget(b: Board, p: Player, x: int, y: int, nx: int, ny: int) {
    Abs(nx - x) + Abs(ny - y) == 1 && InPalace(p, nx, ny) && !OwnAt(b, nx, ny, p)
  }

  predicate AdvisorTarget(b: Board, p: Player, x: int, y: int, nx: int, ny: int) {
    Abs(nx - x) == 1 && Abs(ny - y) == 1 && InPalace(p, nx, ny) && !OwnAt(b, nx, ny, p)
  }

  /** Two diagonal steps, not across the river, with an empty eye. */
  predicate ElephantTarget(b: Board, p: Player, x: int, y: int, nx: int, ny: int) {
    Abs(nx - x) == 2 && Abs(ny - y) == 2 && Valid(x, y) && Valid(nx, ny)
    && !(p == Red && ny > 4) && !(p == Black && ny < 5)
    && b[y + (ny - y) / 2][x + (nx - x) / 2] == Empty
    && !OwnAt(b, nx, ny, p)
  }

  function HorseLegX(x: int, nx: int): int { if Abs(nx - x) == 2 then x + (nx - x) / 2 else x }
  function HorseLegY(y: int, ny: int): int { if Abs(ny - y) == 2 then y + (ny - y) / 2 else y }

  /** One orthogonal and one diagonal step, with an empty leg square. */
  predicate HorseTarget(b: Board, p: Player, x: int, y: int, nx: int, ny: int) {
    ((Abs(nx - x) == 1 && Abs(ny - y) == 2) || (Abs(nx - x) == 2 && Abs(ny - y) == 1))
    && Valid(x, y) && Valid(nx, ny)
    && b[HorseLegY(y, ny)][HorseLegX(x, nx)] == Empty
    && !OwnAt(b, nx, ny, p)
  }

  predicate OnLine(x: int, y: int, nx: int, ny: int) {
    (nx == x && ny != y) || (ny == y && nx != x)
  }

  /** Number of occupied squares strictly between two squares of one line. */
  function Between(b: Board, x: int, y: int, nx: int, ny: int): nat
    requires Valid(x, y) && Valid(nx, ny) && OnLine(x, y, nx, ny)
    decreases Abs(nx - x) + Abs(ny - y)
  {
    var px, py := nx - Sgn(nx - x), ny - Sgn(ny - y);
    if px == x && py == y then 0
    else Between(b, x, y, px, py) + (if b[py][px] != Empty then 1 else 0)
  }

  predicate RookTarget(b: Board, p: Player, x: int, y: int, nx: int, ny: int) {
    Valid(x, y) && Valid(nx, ny) && OnLine(x, y, nx, ny)
    && Between(b, x, y, nx, ny) == 0 && !OwnAt(b, nx, ny, p)
  }

  /** Slides to an empty square over nothing, or captures over exactly one
      piece (the platform, of either colour). */
  predicate CannonTarget(b: Board, p: Player, x: int, y: int, nx: int, ny: int) {
    Valid(x, y) && Valid(nx, ny) && OnLine(x, y, nx, ny)
    && ((Between(b, x, y, nx, ny) == 0 && b[ny][nx] == Empty)
        || (Between(b, x, y, nx, ny) == 1 && EnemyAt(b, nx, ny, p)))
  }

  function Forward(p: Player): int { if p == Red then 1 else -1 }
  predicate CrossedRiver(p: Player, y: int) { (p == Red && y > 4) || (p == Black && y < 5) }

  predicate PawnTarget(b: Board, p: Player, x: int, y: int, nx: int, ny: int) {
    Valid(nx, ny) && !OwnAt(b, nx, ny, p)
    && ((nx == x && ny == y + Forward(p))
        || (CrossedRiver(p, y) && ny == y && Abs(nx - x) == 1))
  }

  /** The rule of the piece type (absolute code) standing on (x, y); no
      targets for codes outside 1..7. */
  predicate PieceTarget(b: Board, p: Player, x: int, y: int, nx: int, ny: int)
    requires Valid(x, y)
  {
    var t := Abs(b[y][x]);
    if t == King then KingTarget(b, p, x, y, nx, ny)
    else if t == Advisor then AdvisorTarget(b, p, x, y, nx, ny)
    else if t == Elephant then ElephantTarget(b, p, x, y, nx, ny)
    else if t == Horse then HorseTarget(b, p, x, y, nx, ny)
    else if t == Rook then RookTarget(b, p, x, y, nx, ny)
    else if t == Cannon then CannonTarget(b, p, x, y, nx, ny)
    else if t == Pawn then PawnTarget(b, p, x, y, nx, ny)
    else false
  }

  /** A move get_legal_moves lists for player p (no self-check test). */
  predicate PseudoLegal(b: Board, p: Player, m: Move) {
    OnBoard(m.start) && IsOwn(b[m.start.y][m.start.x], p)
    && PieceTarget(b, p, m.start.x, m.start.y, m.end.x, m.end.y)
  }

  lemma PseudoLegalOnBoard(b: Board, p: Player, m: Move)
    requires PseudoLegal(b, p, m)
    ensures MoveOnBoard(m)
  {
  }

  /** get_valid_moves(board, _)[a] == 1: the canonical side (player 1) has the move a. */
  predicate LegalAction(b: Board, a: int) {
    0 <= a < ActionSize && PseudoLegal(b, 1, Decode(a))
  }

  /** A cannon on (1, 2) with its row otherwise as at the opening may move to (4, 2). */
  lemma CannonAlongOpeningRow(b: Board)
    requires b[2] == [Empty, Cannon, Empty, Empty, Empty, Empty, Empty, Cannon, Empty]
    ensures PseudoLegal(b, Red, Move(Square(1, 2), Square(4, 2)))
  {
    assert Between(b, 1, 2, 2, 2) == 0;
    assert Between(b, 1, 2, 3, 2) == 0;
    assert Between(b, 1, 2, 4, 2) == 0;
  }

  /** A legal action of the opening position: the cannon from (1, 2) to (4, 2). */
  lemma InitCannonMoveLegal()
    ensures PseudoLegal(InitBoard(), Red, Move(Square(1, 2), Square(4, 2)))
    ensures LegalAction(InitBoard(), Encode(Move(Square(1, 2), Square(4, 2))))
  {
    var b := InitBoard();
    CannonAlongOpeningRow(b);
    var m := Move(Square(1, 2), Square(4, 2));
    assert Encode(m) == 1732 && Decode(1732) == m;
  }
}
