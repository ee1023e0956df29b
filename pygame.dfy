/** The XiangqiGame class of backend/game.py: the board, the side to move and
    the move history as fields, the per-piece move generators as loops over
    the source's direction tables, and the adapter methods the searches call
    (legal-action vector, state tensor). Every generator is proved to list
    exactly the targets of the corresponding rule in PyBoard. */
module PyGame {
  import opened PyBoard

  const OrthoSteps: seq<(int, int)> := [(0, 1), (0, -1), (1, 0), (-1, 0)]
  const DiagSteps: seq<(int, int)> := [(1, 1), (1, -1), (-1, 1), (-1, -1)]
  const ElephantSteps: seq<(int, int)> := [(2, 2), (2, -2), (-2, 2), (-2, -2)]
  const ElephantEyes: seq<(int, int)> := [(1, 1), (1, -1), (-1, 1), (-1, -1)]
  const HorseSteps: seq<(int, int)> :=
    [(1, 2), (1, -2), (-1, 2), (-1, -2), (2, 1), (2, -1), (-2, 1), (-2, -1)]
  const HorseLegs: seq<(int, int)> :=
    [(0, 1), (0, -1), (0, 1), (0, -1), (1, 0), (1, 0), (-1, 0), (-1, 0)]

  /** Position of a step in OrthoSteps (4 when it is not there). */
  function OrthoIndex(dx: int, dy: int): nat {
    if dx == 0 && dy == 1 then 0
    else if dx == 0 && dy == -1 then 1
    else if dx == 1 && dy == 0 then 2
    else if dx == -1 && dy == 0 then 3
    else 4
  }

  /** Position of a step in DiagSteps (4 when it is not there). */
  function DiagIndex(dx: int, dy: int): nat {
    if dx == 1 && dy == 1 then 0
    else if dx == 1 && dy == -1 then 1
    else if dx == -1 && dy == 1 then 2
    else if dx == -1 && dy == -1 then 3
    else 4
  }

  /** Position of a step in HorseSteps (8 when it is not there). */
  function HorseIndex(dx: int, dy: int): nat {
    if dx == 1 && dy == 2 then 0
    else if dx == 1 && dy == -2 then 1
    else if dx == -1 && dy == 2 then 2
    else if dx == -1 && dy == -2 then 3
    else if dx == 2 && dy == 1 then 4
    else if dx == 2 && dy == -1 then 5
    else if dx == -2 && dy == 1 then 6
    else if dx == -2 && dy == -1 then 7
    else 8
  }

  lemma ElephantTable(i: int)
    requires 0 <= i < 4
    ensures DiagIndex(ElephantSteps[i].0 / 2, ElephantSteps[i].1 / 2) == i
    ensures ElephantEyes[i] == (ElephantSteps[i].0 / 2, ElephantSteps[i].1 / 2)
    ensures Abs(ElephantSteps[i].0) == 2 && Abs(ElephantSteps[i].1) == 2
  {
  }

  lemma HorseTable(i: int)
    requires 0 <= i < 8
    ensures HorseIndex(HorseSteps[i].0, HorseSteps[i].1) == i
    ensures var (dx, dy) := HorseSteps[i];
      (Abs(dx) == 1 && Abs(dy) == 2) || (Abs(dx) == 2 && Abs(dy) == 1)
    ensures var (dx, dy) := HorseSteps[i];
      HorseLegs[i] == (if Abs(dx) == 2 then dx / 2 else 0, if Abs(dy) == 2 then dy / 2 else 0)
  {
  }

  /** The direction of a square on a line through (x, y), as an index into OrthoSteps. */
  function RayIndex(x: int, y: int, s: Square): nat {
    OrthoIndex(Sgn(s.x - x), Sgn(s.y - y))
  }

  function Dist(x: int, y: int, s: Square): nat {
    Abs(s.x - x) + Abs(s.y - y)
  }

  /** (cx, cy) lies on the ray from (x, y) in direction (dx, dy). */
  predicate Ahead(x: int, y: int, dx: int, dy: int, cx: int, cy: int) {
    Sgn(cx - x) == dx && Sgn(cy - y) == dy
  }

  /** Past an occupied square of a ray, every further square counts it as
      lying in between. */
  lemma {:induction false} BetweenGrows(b: Board, x: int, y: int, dx: int, dy: int,
                                        cx: int, cy: int, ex: int, ey: int)
    requires 0 <= OrthoIndex(dx, dy) < 4
    requires Valid(x, y) && Valid(cx, cy) && Valid(ex, ey)
    requires Ahead(x, y, dx, dy, cx, cy) && Ahead(x, y, dx, dy, ex, ey)
    requires Dist(x, y, Square(cx, cy)) < Dist(x, y, Square(ex, ey))
    ensures OnLine(x, y, cx, cy) && OnLine(x, y, ex, ey)
    ensures Between(b, x, y, ex, ey) >= Between(b, x, y, cx, cy) + (if b[cy][cx] != Empty then 1 else 0)
    decreases Dist(x, y, Square(ex, ey))
  {
    var px, py := ex - dx, ey - dy;
    if px != cx || py != cy {
      BetweenGrows(b, x, y, dx, dy, cx, cy, px, py);
    }
  }

  /** On a line through (x, y), RayIndex names exactly the direction a square lies in. */
  lemma RayIndexAhead(x: int, y: int, dx: int, dy: int)
    requires OrthoIndex(dx, dy) < 4
    ensures forall ex, ey ::
      (OnLine(x, y, ex, ey) && RayIndex(x, y, Square(ex, ey)) == OrthoIndex(dx, dy)) <==> Ahead(x, y, dx, dy, ex, ey)
  {
  }

  /** Once the ray has left the board, no further square of it is on the board. */
  lemma RayExhausted(x: int, y: int, dx: int, dy: int, cx: int, cy: int)
    requires Valid(x, y) && OrthoIndex(dx, dy) < 4
    requires Ahead(x, y, dx, dy, cx, cy) && !Valid(cx, cy)
    ensures forall ex, ey :: Valid(ex, ey) && Ahead(x, y, dx, dy, ex, ey) ==>
      Dist(x, y, Square(ex, ey)) < Dist(x, y, Square(cx, cy))
  {
  }

  /** The square before an on-board square of the ray, when it is not the start. */
  lemma RayStep(b: Board, x: int, y: int, dx: int, dy: int, cx: int, cy: int)
    requires Valid(x, y) && OrthoIndex(dx, dy) < 4
    requires Ahead(x, y, dx, dy, cx, cy) && Valid(cx, cy) && Valid(cx + dx, cy + dy)
    ensures OnLine(x, y, cx, cy) && OnLine(x, y, cx + dx, cy + dy)
    ensures Between(b, x, y, cx + dx, cy + dy) == Between(b, x, y, cx, cy) + (if b[cy][cx] != Empty then 1 else 0)
  {
  }

  /** Past the first piece of a ray the rook reaches nothing. */
  lemma RookBeyond(b: Board, p: Player, x: int, y: int, dx: int, dy: int, cx: int, cy: int)
    requires Valid(x, y) && OrthoIndex(dx, dy) < 4 && Valid(cx, cy) && Ahead(x, y, dx, dy, cx, cy)
    requires OnLine(x, y, cx, cy) && Between(b, x, y, cx, cy) == 0 && b[cy][cx] != Empty
    ensures forall ex, ey ::
      (Valid(ex, ey) && Ahead(x, y, dx, dy, ex, ey) && Dist(x, y, Square(ex, ey)) > Dist(x, y, Square(cx, cy)))
      ==> !RookTarget(b, p, x, y, ex, ey)
  {
    forall ex, ey | Valid(ex, ey) && Ahead(x, y, dx, dy, ex, ey) && Dist(x, y, Square(ex, ey)) > Dist(x, y, Square(cx, cy))
      ensures !RookTarget(b, p, x, y, ex, ey)
    {
      BetweenGrows(b, x, y, dx, dy, cx, cy, ex, ey);
    }
  }

  /** Past the second piece of a ray the cannon reaches nothing. */
  lemma CannonBeyond(b: Board, p: Player, x: int, y: int, dx: int, dy: int, cx: int, cy: int)
    requires Valid(x, y) && OrthoIndex(dx, dy) < 4 && Valid(cx, cy) && Ahead(x, y, dx, dy, cx, cy)
    requires OnLine(x, y, cx, cy) && Between(b, x, y, cx, cy) == 1 && b[cy][cx] != Empty
    ensures forall ex, ey ::
      (Valid(ex, ey) && Ahead(x, y, dx, dy, ex, ey) && Dist(x, y, Square(ex, ey)) > Dist(x, y, Square(cx, cy)))
      ==> !CannonTarget(b, p, x, y, ex, ey)
  {
    forall ex, ey | Valid(ex, ey) && Ahead(x, y, dx, dy, ex, ey) && Dist(x, y, Square(ex, ey)) > Dist(x, y, Square(cx, cy))
      ensures !CannonTarget(b, p, x, y, ex, ey)
    {
      BetweenGrows(b, x, y, dx, dy, cx, cy, ex, ey);
    }
  }

  /** The moves a ray loop has listed once it has looked at every square
      closer than distance k. */
  ghost predicate RookRaySoFar(b: Board, p: Player, x: int, y: int, dx: int, dy: int, ray: seq<Move>, k: int) {
    forall m :: m in ray <==>
      m.start == Square(x, y) && RookTarget(b, p, x, y, m.end.x, m.end.y)
      && Ahead(x, y, dx, dy, m.end.x, m.end.y) && Dist(x, y, m.end) < k
  }

  ghost predicate RookRayDone(b: Board, p: Player, x: int, y: int, dx: int, dy: int, ray: seq<Move>) {
    forall m :: m in ray <==>
      m.start == Square(x, y) && RookTarget(b, p, x, y, m.end.x, m.end.y)
      && Ahead(x, y, dx, dy, m.end.x, m.end.y)
  }

  /** The invariant of the rook's ray loop at square (cx, cy). */
  ghost predicate RookLoop(b: Board, p: Player, x: int, y: int, dx: int, dy: int, ray: seq<Move>, cx: int, cy: int)
    requires Valid(x, y)
  {
    Ahead(x, y, dx, dy, cx, cy)
    && (Valid(cx, cy) ==> (OnLine(x, y, cx, cy) && Between(b, x, y, cx, cy) == 0))
    && RookRaySoFar(b, p, x, y, dx, dy, ray, Dist(x, y, Square(cx, cy)))
  }

  /** One step of the rook's ray loop over an empty square: it is listed
      and the invariants move on to the next square. */
  lemma RookRayAdvance(b: Board, p: Player, x: int, y: int, dx: int, dy: int, ray: seq<Move>, cx: int, cy: int)
    requires Valid(x, y) && OrthoIndex(dx, dy) < 4 && Valid(cx, cy)
    requires RookLoop(b, p, x, y, dx, dy, ray, cx, cy) && b[cy][cx] == Empty
    ensures RookLoop(b, p, x, y, dx, dy, ray + [Move(Square(x, y), Square(cx, cy))], cx + dx, cy + dy)
  {
    if Valid(cx + dx, cy + dy) {
      RayStep(b, x, y, dx, dy, cx, cy);
    }
    var c := Move(Square(x, y), Square(cx, cy));
    var ray' := ray + [c];
    var k := Dist(x, y, Square(cx, cy));
    assert Dist(x, y, Square(cx + dx, cy + dy)) == k + 1;
    forall m ensures m in ray' <==>
      m.start == Square(x, y) && RookTarget(b, p, x, y, m.end.x, m.end.y)
      && Ahead(x, y, dx, dy, m.end.x, m.end.y) && Dist(x, y, m.end) < k + 1
    {
      if m.start == Square(x, y) && Ahead(x, y, dx, dy, m.end.x, m.end.y) && Dist(x, y, m.end) == k {
        assert m == c;
      }
    }
  }

  lemma RookRayBlocked(b: Board, p: Player, x: int, y: int, dx: int, dy: int, ray: seq<Move>, cx: int, cy: int)
    requires Valid(x, y) && OrthoIndex(dx, dy) < 4 && Valid(cx, cy)
    requires RookLoop(b, p, x, y, dx, dy, ray, cx, cy) && b[cy][cx] != Empty
    ensures RookRayDone(b, p, x, y, dx, dy,
      ray + (if IsEnemy(b[cy][cx], p) then [Move(Square(x, y), Square(cx, cy))] else []))
  {
    var c := Move(Square(x, y), Square(cx, cy));
    var ray' := ray + (if IsEnemy(b[cy][cx], p) then [c] else []);
    var k := Dist(x, y, Square(cx, cy));
    RookBeyond(b, p, x, y, dx, dy, cx, cy);
    forall m ensures m in ray' <==>
      m.start == Square(x, y) && RookTarget(b, p, x, y, m.end.x, m.end.y)
      && Ahead(x, y, dx, dy, m.end.x, m.end.y)
    {
      if m.start == Square(x, y) && Ahead(x, y, dx, dy, m.end.x, m.end.y) && Dist(x, y, m.end) == k {
        assert m == c;
      }
    }
  }

  lemma RookRayOff(b: Board, p: Player, x: int, y: int, dx: int, dy: int, ray: seq<Move>, cx: int, cy: int)
    requires Valid(x, y) && OrthoIndex(dx, dy) < 4 && !Valid(cx, cy)
    requires RookLoop(b, p, x, y, dx, dy, ray, cx, cy)
    ensures RookRayDone(b, p, x, y, dx, dy, ray)
  {
    RayExhausted(x, y, dx, dy, cx, cy);
  }

  ghost predicate CannonRaySoFar(b: Board, p: Player, x: int, y: int, dx: int, dy: int, ray: seq<Move>, k: int) {
    forall m :: m in ray <==>
      m.start == Square(x, y) && CannonTarget(b, p, x, y, m.end.x, m.end.y)
      && Ahead(x, y, dx, dy, m.end.x, m.end.y) && Dist(x, y, m.end) < k
  }

  ghost predicate CannonRayDone(b: Board, p: Player, x: int, y: int, dx: int, dy: int, ray: seq<Move>) {
    forall m :: m in ray <==>
      m.start == Square(x, y) && CannonTarget(b, p, x, y, m.end.x, m.end.y)
      && Ahead(x, y, dx, dy, m.end.x, m.end.y)
  }

  /** The invariant of the cannon's ray loop at square (cx, cy). */
  ghost predicate CannonLoop(b: Board, p: Player, x: int, y: int, dx: int, dy: int, ray: seq<Move>,
                             cx: int, cy: int, platform: bool)
    requires Valid(x, y)
  {
    Ahead(x, y, dx, dy, cx, cy)
    && (Valid(cx, cy) ==> (OnLine(x, y, cx, cy) && Between(b, x, y, cx, cy) == (if platform then 1 else 0)))
    && CannonRaySoFar(b, p, x, y, dx, dy, ray, Dist(x, y, Square(cx, cy)))
  }

  /** One step of the cannon's ray loop that does not stop it: an empty
      square is listed while no platform has been seen, the first piece
      becomes the platform, and the invariants move on to the next square. */
  lemma CannonRayAdvance(b: Board, p: Player, x: int, y: int, dx: int, dy: int, ray: seq<Move>,
                         cx: int, cy: int, platform: bool)
    requires Valid(x, y) && OrthoIndex(dx, dy) < 4 && Valid(cx, cy)
    requires CannonLoop(b, p, x, y, dx, dy, ray, cx, cy, platform)
    requires !(platform && b[cy][cx] != Empty)
    ensures CannonLoop(b, p, x, y, dx, dy,
      ray + (if !platform && b[cy][cx] == Empty then [Move(Square(x, y), Square(cx, cy))] else []),
      cx + dx, cy + dy, platform || b[cy][cx] != Empty)
  {
    if Valid(cx + dx, cy + dy) {
      RayStep(b, x, y, dx, dy, cx, cy);
    }
    var c := Move(Square(x, y), Square(cx, cy));
    var ray' := ray + (if !platform && b[cy][cx] == Empty then [c] else []);
    var k := Dist(x, y, Square(cx, cy));
    assert Dist(x, y, Square(cx + dx, cy + dy)) == k + 1;
    forall m ensures m in ray' <==>
      m.start == Square(x, y) && CannonTarget(b, p, x, y, m.end.x, m.end.y)
      && Ahead(x, y, dx, dy, m.end.x, m.end.y) && Dist(x, y, m.end) < k + 1
    {
      if m.start == Square(x, y) && Ahead(x, y, dx, dy, m.end.x, m.end.y) && Dist(x, y, m.end) == k {
        assert m == c;
      }
    }
  }

  lemma CannonRayBlocked(b: Board, p: Player, x: int, y: int, dx: int, dy: int, ray: seq<Move>, cx: int, cy: int)
    requires Valid(x, y) && OrthoIndex(dx, dy) < 4 && Valid(cx, cy)
    requires CannonLoop(b, p, x, y, dx, dy, ray, cx, cy, true) && b[cy][cx] != Empty
    ensures CannonRayDone(b, p, x, y, dx, dy,
      ray + (if IsEnemy(b[cy][cx], p) then [Move(Square(x, y), Square(cx, cy))] else []))
  {
    var c := Move(Square(x, y), Square(cx, cy));
    var ray' := ray + (if IsEnemy(b[cy][cx], p) then [c] else []);
    var k := Dist(x, y, Square(cx, cy));
    CannonBeyond(b, p, x, y, dx, dy, cx, cy);
    forall m ensures m in ray' <==>
      m.start == Square(x, y) && CannonTarget(b, p, x, y, m.end.x, m.end.y)
      && Ahead(x, y, dx, dy, m.end.x, m.end.y)
    {
      if m.start == Square(x, y) && Ahead(x, y, dx, dy, m.end.x, m.end.y) && Dist(x, y, m.end) == k {
        assert m == c;
      }
    }
  }

  /** One pass of the cannon's ray loop at an on-board square, in the
      shape of the loop body: an empty square before the platform is
      listed, the first piece becomes the platform, an empty square past it
      is skipped, and the second piece stops the ray (listed when it is an
      enemy). */
  lemma CannonRayStep(b: Board, p: Player, x: int, y: int, dx: int, dy: int, ray: seq<Move>,
                      cx: int, cy: int, platform: bool)
    requires Valid(x, y) && OrthoIndex(dx, dy) < 4 && Valid(cx, cy)
    requires CannonLoop(b, p, x, y, dx, dy, ray, cx, cy, platform)
    ensures Dist(x, y, Square(cx + dx, cy + dy)) == Dist(x, y, Square(cx, cy)) + 1
    ensures !platform && b[cy][cx] == Empty ==>
      CannonLoop(b, p, x, y, dx, dy, ray + [Move(Square(x, y), Square(cx, cy))], cx + dx, cy + dy, false)
    ensures !platform && b[cy][cx] != Empty ==> CannonLoop(b, p, x, y, dx, dy, ray, cx + dx, cy + dy, true)
    ensures platform && b[cy][cx] == Empty ==> CannonLoop(b, p, x, y, dx, dy, ray, cx + dx, cy + dy, true)
    ensures platform && b[cy][cx] != Empty && IsEnemy(b[cy][cx], p) ==>
      CannonRayDone(b, p, x, y, dx, dy, ray + [Move(Square(x, y), Square(cx, cy))])
    ensures platform && b[cy][cx] != Empty && !IsEnemy(b[cy][cx], p) ==> CannonRayDone(b, p, x, y, dx, dy, ray)
  {
    if platform && b[cy][cx] != Empty {
      CannonRayBlocked(b, p, x, y, dx, dy, ray, cx, cy);
      if !IsEnemy(b[cy][cx], p) {
        assert ray + [] == ray;
      }
    } else {
      CannonRayAdvance(b, p, x, y, dx, dy, ray, cx, cy, platform);
      if !(!platform && b[cy][cx] == Empty) {
        assert ray + [] == ray;
      }
    }
  }

  /** One pass of the rook's ray loop at an on-board square, in the shape
      of the loop body. */
  lemma RookRayStep(b: Board, p: Player, x: int, y: int, dx: int, dy: int, ray: seq<Move>, cx: int, cy: int)
    requires Valid(x, y) && OrthoIndex(dx, dy) < 4 && Valid(cx, cy)
    requires RookLoop(b, p, x, y, dx, dy, ray, cx, cy)
    ensures Dist(x, y, Square(cx + dx, cy + dy)) == Dist(x, y, Square(cx, cy)) + 1
    ensures b[cy][cx] == Empty ==>
      RookLoop(b, p, x, y, dx, dy, ray + [Move(Square(x, y), Square(cx, cy))], cx + dx, cy + dy)
    ensures b[cy][cx] != Empty && IsEnemy(b[cy][cx], p) ==>
      RookRayDone(b, p, x, y, dx, dy, ray + [Move(Square(x, y), Square(cx, cy))])
    ensures b[cy][cx] != Empty && !IsEnemy(b[cy][cx], p) ==> RookRayDone(b, p, x, y, dx, dy, ray)
  {
    if b[cy][cx] == Empty {
      RookRayAdvance(b, p, x, y, dx, dy, ray, cx, cy);
    } else {
      RookRayBlocked(b, p, x, y, dx, dy, ray, cx, cy);
      if !IsEnemy(b[cy][cx], p) {
        assert ray + [] == ray;
      }
    }
  }

  lemma CannonRayOff(b: Board, p: Player, x: int, y: int, dx: int, dy: int, ray: seq<Move>,
                     cx: int, cy: int, platform: bool)
    requires Valid(x, y) && OrthoIndex(dx, dy) < 4 && !Valid(cx, cy)
    requires CannonLoop(b, p, x, y, dx, dy, ray, cx, cy, platform)
    ensures CannonRayDone(b, p, x, y, dx, dy, ray)
  {
    RayExhausted(x, y, dx, dy, cx, cy);
  }

  ghost predicate ElephantSoFar(b: Board, p: Player, x: int, y: int, moves: seq<Move>, i: int) {
    forall m :: m in moves <==>
      m.start == Square(x, y) && DiagIndex((m.end.x - x) / 2, (m.end.y - y) / 2) < i
      && ElephantTarget(b, p, x, y, m.end.x, m.end.y)
  }

  /** Two diagonal two-square steps with the same direction index are the same step. */
  lemma DiagIndexOne(a: int, b: int, c: int, d: int)
    requires Abs(a) == 2 && Abs(b) == 2 && Abs(c) == 2 && Abs(d) == 2
    requires DiagIndex(a / 2, b / 2) == DiagIndex(c / 2, d / 2)
    ensures a == c && b == d
  {
  }

  /** The source's checks on an elephant step decide whether it is a target. */
  lemma ElephantCheck(b: Board, p: Player, x: int, y: int, dx: int, dy: int, ex: int, ey: int)
    requires Valid(x, y) && Abs(dx) == 2 && Abs(dy) == 2 && ex == dx / 2 && ey == dy / 2
    ensures ElephantTarget(b, p, x, y, x + dx, y + dy) <==>
      Valid(x + dx, y + dy) && !(p == Red && y + dy > 4) && !(p == Black && y + dy < 5)
      && b[y + ey][x + ex] == Empty && !IsOwn(b[y + dy][x + dx], p)
  {
  }

  /** Listing the target in direction i, if it is one, extends the loop's list. */
  lemma ElephantListed(b: Board, p: Player, x: int, y: int, moves: seq<Move>, i: int, nx: int, ny: int)
    requires 0 <= i < 4 && ElephantSoFar(b, p, x, y, moves, i)
    requires Abs(nx - x) == 2 && Abs(ny - y) == 2 && DiagIndex((nx - x) / 2, (ny - y) / 2) == i
    ensures ElephantSoFar(b, p, x, y,
      moves + (if ElephantTarget(b, p, x, y, nx, ny) then [Move(Square(x, y), Square(nx, ny))] else []), i + 1)
  {
    var c := Move(Square(x, y), Square(nx, ny));
    var moves' := moves + (if ElephantTarget(b, p, x, y, nx, ny) then [c] else []);
    forall m ensures m in moves' <==>
      m.start == Square(x, y) && DiagIndex((m.end.x - x) / 2, (m.end.y - y) / 2) < i + 1
      && ElephantTarget(b, p, x, y, m.end.x, m.end.y)
    {
      if m.start == Square(x, y) && ElephantTarget(b, p, x, y, m.end.x, m.end.y)
         && DiagIndex((m.end.x - x) / 2, (m.end.y - y) / 2) == i {
        DiagIndexOne(m.end.x - x, m.end.y - y, nx - x, ny - y);
        assert m == c;
      }
    }
  }

  /** One pass of the elephant loop: direction i, step (dx, dy) with eye
      (ex, ey), is decided by the source's checks. */
  lemma ElephantAdvance(b: Board, p: Player, x: int, y: int, moves: seq<Move>, i: int,
                        dx: int, dy: int, ex: int, ey: int)
    requires Valid(x, y) && 0 <= i < 4 && ElephantSoFar(b, p, x, y, moves, i)
    requires ElephantSteps[i] == (dx, dy) && ElephantEyes[i] == (ex, ey)
    ensures var target := ElephantTarget(b, p, x, y, x + dx, y + dy);
      (target <==> Valid(x + dx, y + dy) && !(p == Red && y + dy > 4) && !(p == Black && y + dy < 5)
                   && b[y + ey][x + ex] == Empty && !IsOwn(b[y + dy][x + dx], p))
      && ElephantSoFar(b, p, x, y, moves + (if target then [Move(Square(x, y), Square(x + dx, y + dy))] else []), i + 1)
  {
    ElephantTable(i);
    ElephantCheck(b, p, x, y, dx, dy, ex, ey);
    assert (x + dx) - x == dx && (y + dy) - y == dy;
    ElephantListed(b, p, x, y, moves, i, x + dx, y + dy);
  }

  /** After the four directions every elephant target has been listed. */
  lemma ElephantDone(b: Board, p: Player, x: int, y: int, moves: seq<Move>)
    requires ElephantSoFar(b, p, x, y, moves, 4)
    ensures forall m :: m in moves <==> m.start == Square(x, y) && ElephantTarget(b, p, x, y, m.end.x, m.end.y)
  {
    ElephantTable(0);
    assert forall m: Move :: ElephantTarget(b, p, x, y, m.end.x, m.end.y) ==>
      DiagIndex((m.end.x - x) / 2, (m.end.y - y) / 2) < 4;
  }

  ghost predicate HorseSoFar(b: Board, p: Player, x: int, y: int, moves: seq<Move>, i: int) {
    forall m :: m in moves <==>
      m.start == Square(x, y) && HorseIndex(m.end.x - x, m.end.y - y) < i
      && HorseTarget(b, p, x, y, m.end.x, m.end.y)
  }

  /** Two knight steps with the same index are the same step. */
  lemma HorseIndexOne(a: int, b: int, c: int, d: int)
    requires HorseIndex(a, b) == HorseIndex(c, d) < 8
    ensures a == c && b == d
  {
  }

  /** The source's checks on a knight step decide whether it is a target. */
  lemma HorseCheck(b: Board, p: Player, x: int, y: int, dx: int, dy: int, lx: int, ly: int)
    requires Valid(x, y)
    requires (Abs(dx) == 1 && Abs(dy) == 2) || (Abs(dx) == 2 && Abs(dy) == 1)
    requires lx == (if Abs(dx) == 2 then dx / 2 else 0) && ly == (if Abs(dy) == 2 then dy / 2 else 0)
    ensures HorseTarget(b, p, x, y, x + dx, y + dy) <==>
      Valid(x + dx, y + dy) && b[y + ly][x + lx] == Empty && !IsOwn(b[y + dy][x + dx], p)
  {
    assert (x + dx) - x == dx && (y + dy) - y == dy;
  }

  /** Listing the target of knight step i, if it is one, extends the loop's list. */
  lemma HorseListed(b: Board, p: Player, x: int, y: int, moves: seq<Move>, i: int, nx: int, ny: int)
    requires 0 <= i < 8 && HorseSoFar(b, p, x, y, moves, i) && HorseIndex(nx - x, ny - y) == i
    ensures HorseSoFar(b, p, x, y,
      moves + (if HorseTarget(b, p, x, y, nx, ny) then [Move(Square(x, y), Square(nx, ny))] else []), i + 1)
  {
    var c := Move(Square(x, y), Square(nx, ny));
    var moves' := moves + (if HorseTarget(b, p, x, y, nx, ny) then [c] else []);
    forall m ensures m in moves' <==>
      m.start == Square(x, y) && HorseIndex(m.end.x - x, m.end.y - y) < i + 1
      && HorseTarget(b, p, x, y, m.end.x, m.end.y)
    {
      if m.start == Square(x, y) && HorseIndex(m.end.x - x, m.end.y - y) == i {
        HorseIndexOne(m.end.x - x, m.end.y - y, nx - x, ny - y);
        assert m == c;
      }
    }
  }

  /** One pass of the horse loop: knight step i, (dx, dy) with leg (lx, ly),
      is decided by the source's checks. */
  lemma HorseAdvance(b: Board, p: Player, x: int, y: int, moves: seq<Move>, i: int,
                     dx: int, dy: int, lx: int, ly: int)
    requires Valid(x, y) && 0 <= i < 8 && HorseSoFar(b, p, x, y, moves, i)
    requires HorseSteps[i] == (dx, dy) && HorseLegs[i] == (lx, ly)
    ensures var target := HorseTarget(b, p, x, y, x + dx, y + dy);
      (target <==> Valid(x + dx, y + dy) && b[y + ly][x + lx] == Empty && !IsOwn(b[y + dy][x + dx], p))
      && HorseSoFar(b, p, x, y, moves + (if target then [Move(Square(x, y), Square(x + dx, y + dy))] else []), i + 1)
  {
    HorseTable(i);
    HorseCheck(b, p, x, y, dx, dy, lx, ly);
    assert (x + dx) - x == dx && (y + dy) - y == dy;
    HorseListed(b, p, x, y, moves, i, x + dx, y + dy);
  }

  /** After the eight knight steps every horse target has been listed. */
  lemma HorseDone(b: Board, p: Player, x: int, y: int, moves: seq<Move>)
    requires HorseSoFar(b, p, x, y, moves, 8)
    ensures forall m :: m in moves <==> m.start == Square(x, y) && HorseTarget(b, p, x, y, m.end.x, m.end.y)
  {
    assert forall m: Move :: HorseTarget(b, p, x, y, m.end.x, m.end.y) ==>
      HorseIndex(m.end.x - x, m.end.y - y) < 8;
  }

  class XiangqiGame {
    var board: Board
    var currentPlayer: Player
    var moveHistory: seq<Move>

    constructor ()
      ensures board == InitBoard() && currentPlayer == Red && moveHistory == []
    {
      board := InitBoard();
      currentPlayer := Red;
      moveHistory := [];
    }

    method KingMoves(x: int, y: int) returns (moves: seq<Move>)
      requires Valid(x, y)
      ensures forall m :: m in moves <==>
        m.start == Square(x, y) && KingTarget(board, currentPlayer, x, y, m.end.x, m.end.y)
    {
      moves := [];
      var player := currentPlayer;
      var minX, maxX := 3, 5;
      var minY, maxY := if player == Red then 0 else 7, if player == Red then 2 else 9;
      for i := 0 to 4
        invariant forall m :: m in moves <==>
          m.start == Square(x, y) && OrthoIndex(m.end.x - x, m.end.y - y) < i
          && KingTarget(board, player, x, y, m.end.x, m.end.y)
      {
        var (dx, dy) := OrthoSteps[i];
        var nx, ny := x + dx, y + dy;
        if minX <= nx <= maxX && minY <= ny <= maxY {
          if !IsOwn(board[ny][nx], player) {
            moves := moves + [Move(Square(x, y), Square(nx, ny))];
          }
        }
      }
    }

    method AdvisorMoves(x: int, y: int) returns (moves: seq<Move>)
      requires Valid(x, y)
      ensures forall m :: m in moves <==>
        m.start == Square(x, y) && AdvisorTarget(board, currentPlayer, x, y, m.end.x, m.end.y)
    {
      moves := [];
      var player := currentPlayer;
      var minX, maxX := 3, 5;
      var minY, maxY := if player == Red then 0 else 7, if player == Red then 2 else 9;
      for i := 0 to 4
        invariant forall m :: m in moves <==>
          m.start == Square(x, y) && DiagIndex(m.end.x - x, m.end.y - y) < i
          && AdvisorTarget(board, player, x, y, m.end.x, m.end.y)
      {
        var (dx, dy) := DiagSteps[i];
        var nx, ny := x + dx, y + dy;
        if minX <= nx <= maxX && minY <= ny <= maxY {
          if !IsOwn(board[ny][nx], player) {
            moves := moves + [Move(Square(x, y), Square(nx, ny))];
          }
        }
      }
    }

    method ElephantMoves(x: int, y: int) returns (moves: seq<Move>)
      requires Valid(x, y)
      ensures forall m :: m in moves <==>
        m.start == Square(x, y) && ElephantTarget(board, currentPlayer, x, y, m.end.x, m.end.y)
    {
      moves := [];
      var player := currentPlayer;
      for i := 0 to 4
        invariant ElephantSoFar(board, player, x, y, moves, i)
      {
        var (dx, dy) := ElephantSteps[i];
        var (ex, ey) := ElephantEyes[i];
        ElephantAdvance(board, player, x, y, moves, i, dx, dy, ex, ey);
        var nx, ny := x + dx, y + dy;
        var eyeX, eyeY := x + ex, y + ey;
        if Valid(nx, ny) {
          if player == Red && ny > 4 { continue; }
          if player == Black && ny < 5 { continue; }
          if board[eyeY][eyeX] == Empty {
            if !IsOwn(board[ny][nx], player) {
              moves := moves + [Move(Square(x, y), Square(nx, ny))];
            }
          }
        }
      }
      ElephantDone(board, player, x, y, moves);
    }

    method HorseMoves(x: int, y: int) returns (moves: seq<Move>)
      requires Valid(x, y)
      ensures forall m :: m in moves <==>
        m.start == Square(x, y) && HorseTarget(board, currentPlayer, x, y, m.end.x, m.end.y)
    {
      moves := [];
      var player := currentPlayer;
      for i := 0 to 8
        invariant HorseSoFar(board, player, x, y, moves, i)
      {
        var (dx, dy) := HorseSteps[i];
        var (lx, ly) := HorseLegs[i];
        HorseAdvance(board, player, x, y, moves, i, dx, dy, lx, ly);
        var nx, ny := x + dx, y + dy;
        var legX, legY := x + lx, y + ly;
        if Valid(nx, ny) {
          if board[legY][legX] == Empty {
            if !IsOwn(board[ny][nx], player) {
              moves := moves + [Move(Square(x, y), Square(nx, ny))];
            }
          }
        }
      }
      HorseDone(board, player, x, y, moves);
    }

    method RookMoves(x: int, y: int) returns (moves: seq<Move>)
      requires Valid(x, y)
      ensures forall m :: m in moves <==>
        m.start == Square(x, y) && RookTarget(board, currentPlayer, x, y, m.end.x, m.end.y)
    {
      moves := [];
      for i := 0 to 4
        invariant forall m :: m in moves <==>
          m.start == Square(x, y) && RayIndex(x, y, m.end) < i
          && RookTarget(board, currentPlayer, x, y, m.end.x, m.end.y)
      {
        var (dx, dy) := OrthoSteps[i];
        RayIndexAhead(x, y, dx, dy);
        var ray := RookRay(x, y, dx, dy);
        assert RookRayDone(board, currentPlayer, x, y, dx, dy, ray);
        moves := moves + ray;
      }
    }

    /** One direction of _get_rook_moves: slide while the squares are empty,
        take the first occupied square when it is an enemy, then stop. */
    method RookRay(x: int, y: int, dx: int, dy: int) returns (ray: seq<Move>)
      requires Valid(x, y) && OrthoIndex(dx, dy) < 4
      ensures RookRayDone(board, currentPlayer, x, y, dx, dy, ray)
    {
      ray := [];
      var player := currentPlayer;
      var curX, curY := x + dx, y + dy;
      while Valid(curX, curY)
        invariant RookLoop(board, player, x, y, dx, dy, ray, curX, curY)
        decreases 20 - Dist(x, y, Square(curX, curY))
      {
        RookRayStep(board, player, x, y, dx, dy, ray, curX, curY);
        if board[curY][curX] == Empty {
          ray := ray + [Move(Square(x, y), Square(curX, curY))];
        } else {
          if IsEnemy(board[curY][curX], player) {
            ray := ray + [Move(Square(x, y), Square(curX, curY))];
          }
          break;
        }
        curX, curY := curX + dx, curY + dy;
      }
      if !Valid(curX, curY) {
        RookRayOff(board, player, x, y, dx, dy, ray, curX, curY);
      }
    }

    method CannonMoves(x: int, y: int) returns (moves: seq<Move>)
      requires Valid(x, y)
      ensures forall m :: m in moves <==>
        m.start == Square(x, y) && CannonTarget(board, currentPlayer, x, y, m.end.x, m.end.y)
    {
      moves := [];
      for i := 0 to 4
        invariant forall m :: m in moves <==>
          m.start == Square(x, y) && RayIndex(x, y, m.end) < i
          && CannonTarget(board, currentPlayer, x, y, m.end.x, m.end.y)
      {
        var (dx, dy) := OrthoSteps[i];
        RayIndexAhead(x, y, dx, dy);
        var ray := CannonRay(x, y, dx, dy);
        assert CannonRayDone(board, currentPlayer, x, y, dx, dy, ray);
        moves := moves + ray;
      }
    }

    /** One direction of _get_cannon_moves: empty squares up to the first
        piece (the platform); past it, the first piece if it is an enemy. */
    method CannonRay(x: int, y: int, dx: int, dy: int) returns (ray: seq<Move>)
      requires Valid(x, y) && OrthoIndex(dx, dy) < 4
      ensures CannonRayDone(board, currentPlayer, x, y, dx, dy, ray)
    {
      ray := [];
      var player := currentPlayer;
      var curX, curY := x + dx, y + dy;
      var platformFound := false;
      while Valid(curX, curY)
        invariant CannonLoop(board, player, x, y, dx, dy, ray, curX, curY, platformFound)
        decreases 20 - Dist(x, y, Square(curX, curY))
      {
        CannonRayStep(board, player, x, y, dx, dy, ray, curX, curY, platformFound);
        if !platformFound {
          if board[curY][curX] == Empty {
            ray := ray + [Move(Square(x, y), Square(curX, curY))];
          } else {
            platformFound := true;
          }
        } else {
          if board[curY][curX] != Empty {
            if IsEnemy(board[curY][curX], player) {
              ray := ray + [Move(Square(x, y), Square(curX, curY))];
            }
            break;
          }
        }
        curX, curY := curX + dx, curY + dy;
      }
      if !Valid(curX, curY) {
        CannonRayOff(board, player, x, y, dx, dy, ray, curX, curY, platformFound);
      }
    }

    method PawnMoves(x: int, y: int) returns (moves: seq<Move>)
      requires Valid(x, y)
      ensures forall m :: m in moves <==>
        m.start == Square(x, y) && PawnTarget(board, currentPlayer, x, y, m.end.x, m.end.y)
    {
      moves := [];
      var player := currentPlayer;
      var dy := if player == Red then 1 else -1;
      var nx, ny := x, y + dy;
      if Valid(nx, ny) && !IsOwn(board[ny][nx], player) {
        moves := moves + [Move(Square(x, y), Square(nx, ny))];
      }
      var crossedRiver := (player == Red && y > 4) || (player == Black && y < 5);
      if crossedRiver {
        var sides := [-1, 1];
        for j := 0 to 2
          invariant forall m :: m in moves <==>
            m.start == Square(x, y) && PawnTarget(board, player, x, y, m.end.x, m.end.y)
            && (m.end.y != y || m.end.x - x < 2 * j - 1)
        {
          var dx := sides[j];
          nx, ny := x + dx, y;
          if Valid(nx, ny) && !IsOwn(board[ny][nx], player) {
            moves := moves + [Move(Square(x, y), Square(nx, ny))];
          }
        }
      }
    }

    /** _get_moves_for_piece: dispatch on the absolute code; [] for unknown codes. */
    method PieceMoves(x: int, y: int, piece: int) returns (moves: seq<Move>)
      requires Valid(x, y) && piece == board[y][x]
      ensures forall m :: m in moves <==>
        m.start == Square(x, y) && PieceTarget(board, currentPlayer, x, y, m.end.x, m.end.y)
    {
      var pieceType := Abs(piece);
      if pieceType == King {
        moves := KingMoves(x, y);
      } else if pieceType == Advisor {
        moves := AdvisorMoves(x, y);
      } else if pieceType == Elephant {
        moves := ElephantMoves(x, y);
      } else if pieceType == Horse {
        moves := HorseMoves(x, y);
      } else if pieceType == Rook {
        moves := RookMoves(x, y);
      } else if pieceType == Cannon {
        moves := CannonMoves(x, y);
      } else if pieceType == Pawn {
        moves := PawnMoves(x, y);
      } else {
        moves := [];
      }
    }

    /** get_legal_moves: every move of every own piece, scanning rows then columns. */
    method GetLegalMoves() returns (moves: seq<Move>)
      ensures forall m :: m in moves <==> PseudoLegal(board, currentPlayer, m)
    {
      moves := [];
      for y := 0 to Height
        invariant forall m :: m in moves <==> PseudoLegal(board, currentPlayer, m) && m.start.y < y
      {
        for x := 0 to Width
          invariant forall m :: m in moves <==> (PseudoLegal(board, currentPlayer, m)
            && (m.start.y < y || (m.start.y == y && m.start.x < x)))
        {
          var piece := board[y][x];
          if piece * currentPlayer > 0 {
            var pieceMoves := PieceMoves(x, y, piece);
            moves := moves + pieceMoves;
          }
        }
      }
    }

    /** make_move: the end square takes the start square's code, the start
        square is cleared, the side to move flips and the move is recorded. */
    method MakeMove(m: Move)
      requires MoveIndexable(m)
      modifies this
      ensures board == MoveCells(old(board), m)
      ensures currentPlayer == Other(old(currentPlayer))
      ensures moveHistory == old(moveHistory) + [m]
    {
      board := MoveCells(board, m);
      currentPlayer := Other(currentPlayer);
      moveHistory := moveHistory + [m];
    }

    /** is_game_over: fewer than two squares hold a king code of either
        sign, so some king is gone and get_game_ended has a result. */
    function IsGameOver(): (over: bool)
      reads this
      ensures over ==> GameEnded(board) != 0
    {
      KingsCounted(board);
      KingCount(board) < 2
    }

    /** get_winner: 0 while the game goes on; once it is over, the result
        get_game_ended gives for Red. */
    function GetWinner(): (w: int)
      reads this
      ensures w == if IsGameOver() then GameEnded(board) else 0
    {
      WinnerOf(board)
    }

    /** get_canonical_board: the board as the side to move sees it; seen
        once more from that side, it is the game's board again. */
    function GetCanonicalBoard(): (c: Board)
      reads this
      ensures currentPlayer == Red ==> c == board
      ensures Canonical(c, currentPlayer) == board
    {
      Canonical(board, currentPlayer)
    }

    /** get_valid_moves: the 8100-entry 0/1 vector of the canonical side's moves. */
    method GetValidMoves(b: Board) returns (valids: seq<int>)
      ensures valids == ValidVector(b)
    {
      valids := seq(ActionSize, _ => 0);
      var tempGame := new XiangqiGame();
      tempGame.board := b;
      tempGame.currentPlayer := 1;
      var legalMoves := tempGame.GetLegalMoves();
      for i := 0 to |legalMoves|
        invariant |valids| == ActionSize
        invariant forall a :: 0 <= a < ActionSize ==>
          (valids[a] == 0 || valids[a] == 1)
          && (valids[a] == 1 <==> exists j :: 0 <= j < i && Encode(legalMoves[j]) == a)
      {
        var idx := Encode(legalMoves[i]);
        if 0 <= idx < ActionSize {
          valids := valids[idx := 1];
        }
      }
      forall a | 0 <= a < ActionSize ensures valids[a] == ValidVector(b)[a] {
        if LegalAction(b, a) {
          var m := Decode(a);
          assert m in legalMoves;
          var j :| 0 <= j < |legalMoves| && legalMoves[j] == m;
          assert Encode(legalMoves[j]) == a;
        }
        if valids[a] == 1 {
          var j :| 0 <= j < |legalMoves| && Encode(legalMoves[j]) == a;
          PseudoLegalOnBoard(b, 1, legalMoves[j]);
        }
      }
    }

    /** state_to_tensor: 14 planes of 10x9; code c > 0 sets plane c-1, code
        c < 0 sets plane |c|+6. Codes outside -7..14 would index past the
        planes. */
    method StateToTensor(b: Board) returns (state: Tensor)
      requires CodesInRange(b)
      ensures state == Planes(b)
    {
      state := ZeroTensor();
      for y := 0 to Height
        invariant IsTensor(state)
        invariant forall c, yy, xx :: 0 <= c < 14 && 0 <= yy < Height && 0 <= xx < Width ==>
          state[c][yy][xx] == (if yy < y then Planes(b)[c][yy][xx] else 0.0)
      {
        for x := 0 to Width
          invariant IsTensor(state)
          invariant forall c, yy, xx :: 0 <= c < 14 && 0 <= yy < Height && 0 <= xx < Width ==>
            state[c][yy][xx] == (if yy < y || (yy == y && xx < x) then Planes(b)[c][yy][xx] else 0.0)
        {
          var p := b[y][x];
          if p != 0 {
            var pieceType := Abs(p) - 1;
            var c := if p > 0 then pieceType else pieceType + 7;
            state := state[c := state[c][y := state[c][y][x := 1.0]]];
          }
        }
      }
      assert forall c :: 0 <= c < 14 ==> state[c] == Planes(b)[c] by {
        forall c | 0 <= c < 14 ensures state[c] == Planes(b)[c] {
          assert forall yy :: 0 <= yy < Height ==> state[c][yy] == Planes(b)[c][yy];
        }
      }
    }
  }

  // ---------------------------------------------------------------------
  // Specifications of the adapter methods

  function KingCount(b: Board): nat {
    CountCells(Signature(b), IsKingCode)
  }

  predicate IsKingCode(v: int) { Abs(v) == King }

  function CountCells(s: seq<int>, f: int -> bool): (n: nat)
    ensures n <= |s|
  {
    if s == [] then 0 else CountCells(s[..|s| - 1], f) + (if f(s[|s| - 1]) then 1 else 0)
  }

  lemma {:induction false} CountOne(s: seq<int>, f: int -> bool, i: int)
    requires 0 <= i < |s| && f(s[i])
    ensures CountCells(s, f) >= 1
  {
    var n := |s| - 1;
    if i < n {
      assert s[..n][i] == s[i];
      CountOne(s[..n], f, i);
    }
  }

  lemma {:induction false} CountTwo(s: seq<int>, f: int -> bool, i: int, j: int)
    requires 0 <= i < j < |s| && f(s[i]) && f(s[j])
    ensures CountCells(s, f) >= 2
  {
    var n := |s| - 1;
    if j < n {
      assert s[..n][i] == s[i] && s[..n][j] == s[j];
      CountTwo(s[..n], f, i, j);
    } else {
      assert s[..n][i] == s[i];
      CountOne(s[..n], f, i);
    }
  }

  /** While both kings stand, at least two squares hold a king code. */
  lemma KingsCounted(b: Board)
    ensures Contains(b, King) && Contains(b, -King) ==> KingCount(b) >= 2
  {
    if Contains(b, King) && Contains(b, -King) {
      var y1, x1 :| 0 <= y1 < Height && 0 <= x1 < Width && b[y1][x1] == King;
      var y2, x2 :| 0 <= y2 < Height && 0 <= x2 < Width && b[y2][x2] == -King;
      var s := Signature(b);
      var i, j := y1 * 9 + x1, y2 * 9 + x2;
      assert 0 <= i < 90 && 0 <= j < 90;
      assert IsKingCode(s[i]) && IsKingCode(s[j]) && s[i] != s[j];
      if i < j {
        CountTwo(s, IsKingCode, i, j);
      } else {
        CountTwo(s, IsKingCode, j, i);
      }
    }
  }

  /** get_winner on a board: 0 while two king codes remain, otherwise
      get_game_ended's result. */
  function WinnerOf(b: Board): (w: int)
    ensures w == (if KingCount(b) < 2 then GameEnded(b) else 0)
    ensures w != 0 ==> KingCount(b) < 2
  {
    if !(KingCount(b) < 2) then 0
    else if !Contains(b, King) then -1
    else if !Contains(b, -King) then 1
    else 0
  }

  /** get_valid_moves on a board: an 8100-entry 0/1 vector holding 1
      exactly at the legal actions (built entry by entry). */
  function ValidVector(b: Board): (v: seq<int>)
    ensures |v| == ActionSize
    ensures forall a :: 0 <= a < ActionSize ==> (v[a] == 0 || v[a] == 1) && (v[a] == 1 <==> LegalAction(b, a))
  {
    var v := ValidPrefix(b, ActionSize);
    assert forall a :: 0 <= a < ActionSize ==> v[a] == (if LegalAction(b, a) then 1 else 0) by {
      forall a | 0 <= a < ActionSize ensures v[a] == (if LegalAction(b, a) then 1 else 0) {
        ValidPrefixAt(b, ActionSize, a);
      }
    }
    v
  }

  function ValidPrefix(b: Board, n: nat): (v: seq<int>)
    ensures |v| == n
  {
    if n == 0 then [] else ValidPrefix(b, n - 1) + [if LegalAction(b, n - 1) then 1 else 0]
  }

  lemma {:induction false} ValidPrefixAt(b: Board, n: nat, a: int)
    requires 0 <= a < n
    ensures ValidPrefix(b, n)[a] == (if LegalAction(b, a) then 1 else 0)
  {
    if a < n - 1 {
      ValidPrefixAt(b, n - 1, a);
    }
  }

  predicate IsTensor(t: seq<seq<seq<real>>>) {
    |t| == 14 && forall c :: 0 <= c < 14 ==> IsRealGrid(t[c])
  }
  predicate IsRealGrid(g: seq<seq<real>>) {
    |g| == Height && forall y :: 0 <= y < Height ==> |g[y]| == Width
  }
  type Tensor = t: seq<seq<seq<real>>> | IsTensor(t)
    witness seq(14, c => seq(10, y => seq(9, x => 0.0)))

  function ZeroTensor(): Tensor {
    seq(14, c => seq(10, y => seq(9, x => 0.0)))
  }

  predicate CodesInRange(b: Board) {
    forall y, x :: 0 <= y < Height && 0 <= x < Width ==> -7 <= b[y][x] <= 14
  }

  /** The plane a non-zero code is written to. */
  function PlaneOf(v: int): int { if v > 0 then v - 1 else -v + 6 }

  /** Every entry is 0 or 1; a square lights at most one plane; a piece of
      the side the board is seen from (code 1..7) lights plane code - 1, an
      opposing piece (code -7..-1) plane 6 - code, an empty square none. */
  function Planes(b: Board): (t: Tensor)
    ensures forall c, y, x :: 0 <= c < 14 && 0 <= y < Height && 0 <= x < Width ==>
      t[c][y][x] == 0.0 || t[c][y][x] == 1.0
    ensures forall c1, c2, y, x ::
      0 <= c1 < 14 && 0 <= c2 < 14 && 0 <= y < Height && 0 <= x < Width && t[c1][y][x] == 1.0 && t[c2][y][x] == 1.0
      ==> c1 == c2
    ensures forall c, y, x :: 0 <= c < 14 && 0 <= y < Height && 0 <= x < Width && -7 <= b[y][x] <= 7 ==>
      (t[c][y][x] == 1.0 <==> (b[y][x] > 0 && c == b[y][x] - 1) || (b[y][x] < 0 && c == 6 - b[y][x]))
  {
    seq(14, c => seq(10, y requires 0 <= y < 10 => seq(9, x requires 0 <= x < 9 =>
      if b[y][x] != 0 && PlaneOf(b[y][x]) == c then 1.0 else 0.0)))
  }
}
