/** The move generator and the check rules of the browser engine
    (utils/gameLogic.ts): getPotentialMoves lists the squares a piece's
    geometry allows, isFlyingGeneral and isCheck judge a position, and
    getValidMoves keeps the potential moves that neither expose the generals
    to each other nor leave the mover in check. Each method is proved to
    compute the declarative rule of TsBoard or of this module. */
module TsLogic {
  import opened Scores
  import opened TsBoard

  /** The direction tables of the source, in its order. */
  const Orthogonal: seq<(int, int)> := [(0, 1), (0, -1), (1, 0), (-1, 0)]
  const Diagonal: seq<(int, int)> := [(1, 1), (1, -1), (-1, 1), (-1, -1)]
  const ElephantDeltas: seq<(int, int)> := [(2, 2), (2, -2), (-2, 2), (-2, -2)]
  /** Horse leaps with the orthogonal leg the source checks for each. */
  const HorseData: seq<(int, int, int, int)> :=
    [(-2, -1, -1, 0), (-2, 1, -1, 0), (2, -1, 1, 0), (2, 1, 1, 0),
     (-1, -2, 0, -1), (-1, 2, 0, 1), (1, -2, 0, -1), (1, 2, 0, 1)]

  function Offset(r: int, c: int, t: Position): (int, int) { (t.row - r, t.col - c) }

  function Dist(r: int, c: int, nr: int, nc: int): nat { Abs(nr - r) + Abs(nc - c) }

  /** (nr, nc) lies on the ray from (r, c) in direction (dr, dc). */
  predicate Ahead(r: int, c: int, dr: int, dc: int, nr: int, nc: int) {
    Sgn(nr - r) == dr && Sgn(nc - c) == dc
  }

  predicate IsDir(dr: int, dc: int) { (dr, dc) in Orthogonal }

  /** The next square of a ray is one step further from its start. */
  lemma RayAdvance(r: int, c: int, dr: int, dc: int, cr: int, cc: int)
    requires IsDir(dr, dc) && Ahead(r, c, dr, dc, cr, cc)
    ensures Ahead(r, c, dr, dc, cr + dr, cc + dc)
    ensures Dist(r, c, cr + dr, cc + dc) == Dist(r, c, cr, cc) + 1
  {
  }

  /** Past an occupied square of a ray, every further square counts it as
      lying in between. */
  lemma {:induction false} BetweenGrows(b: BoardState, r: int, c: int, dr: int, dc: int,
                                        cr: int, cc: int, er: int, ec: int)
    requires IsDir(dr, dc)
    requires IsValidPos(r, c) && IsValidPos(cr, cc) && IsValidPos(er, ec)
    requires Ahead(r, c, dr, dc, cr, cc) && Ahead(r, c, dr, dc, er, ec)
    requires Dist(r, c, cr, cc) < Dist(r, c, er, ec)
    ensures OnLine(r, c, cr, cc) && OnLine(r, c, er, ec)
    ensures Between(b, r, c, er, ec) >= Between(b, r, c, cr, cc) + (if b[cr][cc].Some? then 1 else 0)
    decreases Dist(r, c, er, ec)
  {
    var pr, pc := er - dr, ec - dc;
    if pr != cr || pc != cc {
      BetweenGrows(b, r, c, dr, dc, cr, cc, pr, pc);
    }
    RayStep(b, r, c, dr, dc, pr, pc);
  }

  /** Once the ray has left the board, no further square of it is on the board. */
  lemma RayExhausted(r: int, c: int, dr: int, dc: int, cr: int, cc: int)
    requires IsValidPos(r, c) && IsDir(dr, dc)
    requires Ahead(r, c, dr, dc, cr, cc) && !IsValidPos(cr, cc)
    ensures forall er, ec :: IsValidPos(er, ec) && Ahead(r, c, dr, dc, er, ec) ==>
      Dist(r, c, er, ec) < Dist(r, c, cr, cc)
  {
  }

  /** The square after an on-board square of the ray sees one more piece
      in between when that square is occupied. */
  lemma RayStep(b: BoardState, r: int, c: int, dr: int, dc: int, cr: int, cc: int)
    requires IsValidPos(r, c) && IsDir(dr, dc)
    requires Ahead(r, c, dr, dc, cr, cc) && IsValidPos(cr, cc) && IsValidPos(cr + dr, cc + dc)
    ensures OnLine(r, c, cr, cc) && OnLine(r, c, cr + dr, cc + dc)
    ensures Between(b, r, c, cr + dr, cc + dc) == Between(b, r, c, cr, cc) + (if b[cr][cc].Some? then 1 else 0)
  {
  }

  // The chariot's ray loop

  ghost predicate ChariotSoFar(b: BoardState, color: Color, r: int, c: int, dr: int, dc: int,
                               moves: seq<Position>, k: int) {
    forall t: Position :: t in moves <==>
      ChariotTarget(b, color, r, c, t.row, t.col) && Ahead(r, c, dr, dc, t.row, t.col) && Dist(r, c, t.row, t.col) < k
  }

  ghost predicate ChariotRayDone(b: BoardState, color: Color, r: int, c: int, dr: int, dc: int, moves: seq<Position>) {
    forall t: Position :: t in moves <==> ChariotTarget(b, color, r, c, t.row, t.col) && Ahead(r, c, dr, dc, t.row, t.col)
  }

  /** The invariant of the chariot's loop when it looks at square (cr, cc). */
  ghost predicate ChariotLoop(b: BoardState, color: Color, r: int, c: int, dr: int, dc: int,
                              moves: seq<Position>, cr: int, cc: int)
  {
    IsValidPos(r, c) && Ahead(r, c, dr, dc, cr, cc)
    && (IsValidPos(cr, cc) ==> OnLine(r, c, cr, cc) && Between(b, r, c, cr, cc) == 0)
    && ChariotSoFar(b, color, r, c, dr, dc, moves, Dist(r, c, cr, cc))
  }

  /** One pass of the chariot's loop at an on-board square: an empty square
      is listed and the loop goes on; an occupied one ends the ray, listed
      when it holds an enemy. */
  lemma ChariotStep(b: BoardState, color: Color, r: int, c: int, dr: int, dc: int,
                    moves: seq<Position>, cr: int, cc: int)
    requires IsDir(dr, dc) && IsValidPos(cr, cc)
    requires ChariotLoop(b, color, r, c, dr, dc, moves, cr, cc)
    ensures b[cr][cc].None? ==> ChariotLoop(b, color, r, c, dr, dc, moves + [Position(cr, cc)], cr + dr, cc + dc)
    ensures b[cr][cc].Some? && b[cr][cc].value.color != color ==>
      ChariotRayDone(b, color, r, c, dr, dc, moves + [Position(cr, cc)])
    ensures b[cr][cc].Some? && b[cr][cc].value.color == color ==> ChariotRayDone(b, color, r, c, dr, dc, moves)
  {
    var here := Position(cr, cc);
    var k := Dist(r, c, cr, cc);
    if IsValidPos(cr + dr, cc + dc) {
      RayStep(b, r, c, dr, dc, cr, cc);
    }
    assert Dist(r, c, cr + dr, cc + dc) == k + 1;
    if b[cr][cc].None? {
      var moves' := moves + [here];
      forall t: Position ensures t in moves' <==>
        ChariotTarget(b, color, r, c, t.row, t.col) && Ahead(r, c, dr, dc, t.row, t.col) && Dist(r, c, t.row, t.col) < k + 1
      {
        if Ahead(r, c, dr, dc, t.row, t.col) && Dist(r, c, t.row, t.col) == k {
          assert t == here;
        }
      }
    } else {
      var moves' := moves + (if b[cr][cc].value.color != color then [here] else []);
      forall t: Position ensures t in moves' <==> ChariotTarget(b, color, r, c, t.row, t.col) && Ahead(r, c, dr, dc, t.row, t.col)
      {
        if ChariotTarget(b, color, r, c, t.row, t.col) && Ahead(r, c, dr, dc, t.row, t.col)
          && Dist(r, c, t.row, t.col) > k {
          BetweenGrows(b, r, c, dr, dc, cr, cc, t.row, t.col);
        }
        if Ahead(r, c, dr, dc, t.row, t.col) && Dist(r, c, t.row, t.col) == k {
          assert t == here;
        }
      }
      assert moves + [] == moves;
    }
  }

  lemma ChariotOff(b: BoardState, color: Color, r: int, c: int, dr: int, dc: int,
                   moves: seq<Position>, cr: int, cc: int)
    requires IsDir(dr, dc) && !IsValidPos(cr, cc)
    requires ChariotLoop(b, color, r, c, dr, dc, moves, cr, cc)
    ensures ChariotRayDone(b, color, r, c, dr, dc, moves)
  {
    RayExhausted(r, c, dr, dc, cr, cc);
  }

  // The cannon's ray loop

  ghost predicate CannonSoFar(b: BoardState, color: Color, r: int, c: int, dr: int, dc: int,
                              moves: seq<Position>, k: int) {
    forall t: Position :: t in moves <==>
      CannonTarget(b, color, r, c, t.row, t.col) && Ahead(r, c, dr, dc, t.row, t.col) && Dist(r, c, t.row, t.col) < k
  }

  ghost predicate CannonRayDone(b: BoardState, color: Color, r: int, c: int, dr: int, dc: int, moves: seq<Position>) {
    forall t: Position :: t in moves <==> CannonTarget(b, color, r, c, t.row, t.col) && Ahead(r, c, dr, dc, t.row, t.col)
  }

  /** The invariant of the cannon's loop at square (cr, cc); screen says
      whether a piece has been passed. */
  ghost predicate CannonLoop(b: BoardState, color: Color, r: int, c: int, dr: int, dc: int,
                             moves: seq<Position>, cr: int, cc: int, screen: bool)
  {
    IsValidPos(r, c) && Ahead(r, c, dr, dc, cr, cc)
    && (IsValidPos(cr, cc) ==> OnLine(r, c, cr, cc) && Between(b, r, c, cr, cc) == (if screen then 1 else 0))
    && CannonSoFar(b, color, r, c, dr, dc, moves, Dist(r, c, cr, cc))
  }

  /** One pass of the cannon's loop at an on-board square, in the shape of
      the loop body. */
  lemma CannonStep(b: BoardState, color: Color, r: int, c: int, dr: int, dc: int,
                   moves: seq<Position>, cr: int, cc: int, screen: bool)
    requires IsDir(dr, dc) && IsValidPos(cr, cc)
    requires CannonLoop(b, color, r, c, dr, dc, moves, cr, cc, screen)
    ensures !screen && b[cr][cc].None? ==>
      CannonLoop(b, color, r, c, dr, dc, moves + [Position(cr, cc)], cr + dr, cc + dc, false)
    ensures !screen && b[cr][cc].Some? ==> CannonLoop(b, color, r, c, dr, dc, moves, cr + dr, cc + dc, true)
    ensures screen && b[cr][cc].None? ==> CannonLoop(b, color, r, c, dr, dc, moves, cr + dr, cc + dc, true)
    ensures screen && b[cr][cc].Some? && b[cr][cc].value.color != color ==>
      CannonRayDone(b, color, r, c, dr, dc, moves + [Position(cr, cc)])
    ensures screen && b[cr][cc].Some? && b[cr][cc].value.color == color ==> CannonRayDone(b, color, r, c, dr, dc, moves)
  {
    var here := Position(cr, cc);
    var k := Dist(r, c, cr, cc);
    if IsValidPos(cr + dr, cc + dc) {
      RayStep(b, r, c, dr, dc, cr, cc);
    }
    assert Dist(r, c, cr + dr, cc + dc) == k + 1;
    if screen && b[cr][cc].Some? {
      var moves' := moves + (if b[cr][cc].value.color != color then [here] else []);
      forall t: Position ensures t in moves' <==> CannonTarget(b, color, r, c, t.row, t.col) && Ahead(r, c, dr, dc, t.row, t.col)
      {
        if CannonTarget(b, color, r, c, t.row, t.col) && Ahead(r, c, dr, dc, t.row, t.col)
          && Dist(r, c, t.row, t.col) > k {
          BetweenGrows(b, r, c, dr, dc, cr, cc, t.row, t.col);
        }
        if Ahead(r, c, dr, dc, t.row, t.col) && Dist(r, c, t.row, t.col) == k {
          assert t == here;
        }
      }
      assert moves + [] == moves;
    } else {
      var moves' := moves + (if !screen && b[cr][cc].None? then [here] else []);
      forall t: Position ensures t in moves' <==>
        CannonTarget(b, color, r, c, t.row, t.col) && Ahead(r, c, dr, dc, t.row, t.col) && Dist(r, c, t.row, t.col) < k + 1
      {
        if Ahead(r, c, dr, dc, t.row, t.col) && Dist(r, c, t.row, t.col) == k {
          assert t == here;
        }
      }
      assert moves + [] == moves;
    }
  }

  lemma CannonOff(b: BoardState, color: Color, r: int, c: int, dr: int, dc: int,
                  moves: seq<Position>, cr: int, cc: int, screen: bool)
    requires IsDir(dr, dc) && !IsValidPos(cr, cc)
    requires CannonLoop(b, color, r, c, dr, dc, moves, cr, cc, screen)
    ensures CannonRayDone(b, color, r, c, dr, dc, moves)
  {
    RayExhausted(r, c, dr, dc, cr, cc);
  }

  /** A chariot or cannon target lies in one of the four directions. */
  lemma LineDirection(r: int, c: int, nr: int, nc: int)
    requires OnLine(r, c, nr, nc)
    ensures IsDir(Sgn(nr - r), Sgn(nc - c)) && Ahead(r, c, Sgn(nr - r), Sgn(nc - c), nr, nc)
  {
  }

  // getPotentialMoves, case by case

  /** GENERAL: one orthogonal step inside the own palace. */
  method GeneralMoves(b: BoardState, r: int, c: int, color: Color) returns (moves: seq<Position>)
    ensures forall t: Position :: t in moves <==> GeneralTarget(b, color, r, c, t.row, t.col)
  {
    moves := [];
    var isRed := color == Red;
    for k := 0 to 4
      invariant forall t: Position :: t in moves <==> GeneralTarget(b, color, r, c, t.row, t.col) && Offset(r, c, t) in Orthogonal[..k]
    {
      var (dr, dc) := Orthogonal[k];
      var nr, nc := r + dr, c + dc;
      assert Orthogonal[..k + 1] == Orthogonal[..k] + [(dr, dc)];
      if 3 <= nc <= 5 && (if isRed then 7 <= nr <= 9 else 0 <= nr <= 2) && Admits(b, color, nr, nc) {
        moves := moves + [Position(nr, nc)];
      }
    }
    assert Orthogonal[..4] == Orthogonal;
  }

  /** ADVISOR: one diagonal step inside the own palace. */
  method AdvisorMoves(b: BoardState, r: int, c: int, color: Color) returns (moves: seq<Position>)
    ensures forall t: Position :: t in moves <==> AdvisorTarget(b, color, r, c, t.row, t.col)
  {
    moves := [];
    var isRed := color == Red;
    for k := 0 to 4
      invariant forall t: Position :: t in moves <==> AdvisorTarget(b, color, r, c, t.row, t.col) && Offset(r, c, t) in Diagonal[..k]
    {
      var (dr, dc) := Diagonal[k];
      var nr, nc := r + dr, c + dc;
      assert Diagonal[..k + 1] == Diagonal[..k] + [(dr, dc)];
      if 3 <= nc <= 5 && (if isRed then 7 <= nr <= 9 else 0 <= nr <= 2) && Admits(b, color, nr, nc) {
        moves := moves + [Position(nr, nc)];
      }
    }
    assert Diagonal[..4] == Diagonal;
  }

  /** The elephant loop after k of its four steps: exactly the targets whose
      step comes among the first k are listed. */
  ghost predicate ElephantSoFar(b: BoardState, color: Color, r: int, c: int, moves: seq<Position>, k: int)
    requires 0 <= k <= 4
  {
    forall t: Position :: t in moves <==> ElephantTarget(b, color, r, c, t.row, t.col) && Offset(r, c, t) in ElephantDeltas[..k]
  }

  /** One pass of the elephant loop: step k is decided by the source's
      checks, and listing it when they pass keeps the loop's promise. */
  lemma ElephantStep(b: BoardState, color: Color, r: int, c: int, moves: seq<Position>, k: int)
    requires 0 <= k < 4 && ElephantSoFar(b, color, r, c, moves, k)
    ensures var (dr, dc) := ElephantDeltas[k];
      var target := ElephantTarget(b, color, r, c, r + dr, c + dc);
      (target <==> !(color == Red && r + dr < 5) && !(color != Red && r + dr > 4)
                   && IsValidPos(r + dr / 2, c + dc / 2) && b[r + dr / 2][c + dc / 2].None?
                   && IsValidPos(r + dr, c + dc) && Admits(b, color, r + dr, c + dc))
      && ElephantSoFar(b, color, r, c, moves + (if target then [Position(r + dr, c + dc)] else []), k + 1)
  {
    assert ElephantDeltas[..k + 1] == ElephantDeltas[..k] + [ElephantDeltas[k]];
  }

  /** ELEPHANT: two diagonal steps, not across the river, over an empty eye. */
  method ElephantMoves(b: BoardState, r: int, c: int, color: Color) returns (moves: seq<Position>)
    ensures forall t: Position :: t in moves <==> ElephantTarget(b, color, r, c, t.row, t.col)
  {
    moves := [];
    var isRed := color == Red;
    for k := 0 to 4
      invariant ElephantSoFar(b, color, r, c, moves, k)
    {
      ElephantStep(b, color, r, c, moves, k);
      var (dr, dc) := ElephantDeltas[k];
      var nr, nc := r + dr, c + dc;
      if !(isRed && nr < 5) && !(!isRed && nr > 4) {
        var eyeR, eyeC := r + dr / 2, c + dc / 2;
        if IsValidPos(eyeR, eyeC) && b[eyeR][eyeC].None? {
          if IsValidPos(nr, nc) && Admits(b, color, nr, nc) {
            moves := moves + [Position(nr, nc)];
          }
        }
      }
    }
    assert ElephantDeltas[..4] == ElephantDeltas;
  }

  /** The leaps among the first k of the horse table. */
  ghost function LeapsBefore(k: int): set<(int, int)>
    requires 0 <= k <= 8
  {
    set j | 0 <= j < k :: (HorseData[j].0, HorseData[j].1)
  }

  /** The horse loop after k of its eight leaps: exactly the targets whose
      leap comes among the first k are listed. */
  ghost predicate HorseSoFar(b: BoardState, color: Color, r: int, c: int, moves: seq<Position>, k: int)
    requires 0 <= k <= 8
  {
    forall t: Position :: t in moves <==> HorseTarget(b, color, r, c, t.row, t.col) && Offset(r, c, t) in LeapsBefore(k)
  }

  /** One pass of the horse loop: leap k is decided by the source's checks
      on its leg and its landing square. */
  lemma HorseStep(b: BoardState, color: Color, r: int, c: int, moves: seq<Position>, k: int,
                  dr: int, dc: int, legR: int, legC: int)
    requires 0 <= k < 8 && HorseData[k] == (dr, dc, legR, legC) && HorseSoFar(b, color, r, c, moves, k)
    ensures HorseTarget(b, color, r, c, r + dr, c + dc) <==>
      IsValidPos(r + legR, c + legC) && b[r + legR][c + legC].None? && IsValidPos(r + dr, c + dc) && Admits(b, color, r + dr, c + dc)
    ensures HorseSoFar(b, color, r, c,
      moves + (if HorseTarget(b, color, r, c, r + dr, c + dc) then [Position(r + dr, c + dc)] else []), k + 1)
  {
    HorseLeap(k);
    assert LeapsBefore(k + 1) == LeapsBefore(k) + {(dr, dc)};
    assert r + legR == LegRow(r, r + dr) && c + legC == LegCol(c, c + dc);
    var nt := Position(r + dr, c + dc);
    var moves' := moves + (if HorseTarget(b, color, r, c, nt.row, nt.col) then [nt] else []);
    forall t: Position
      ensures t in moves' <==> HorseTarget(b, color, r, c, t.row, t.col) && Offset(r, c, t) in LeapsBefore(k + 1)
    {
      if Offset(r, c, t) == (dr, dc) {
        assert t == nt;
      }
    }
    assert HorseSoFar(b, color, r, c, moves', k + 1);
  }

  /** Each entry of the horse table is an L-shaped leap whose leg is the
      orthogonal step along its long side. */
  lemma HorseLeap(k: int)
    requires 0 <= k < 8
    ensures var (dr, dc, legR, legC) := HorseData[k];
      ((Abs(dr) == 2 && Abs(dc) == 1) || (Abs(dr) == 1 && Abs(dc) == 2))
      && legR == (if Abs(dr) == 2 then dr / 2 else 0) && legC == (if Abs(dc) == 2 then dc / 2 else 0)
  {
  }

  /** Every horse target is one of the table's eight leaps. */
  lemma AllLeaps(b: BoardState, color: Color, r: int, c: int, t: Position)
    requires HorseTarget(b, color, r, c, t.row, t.col)
    ensures Offset(r, c, t) in LeapsBefore(8)
  {
    var (dr, dc) := Offset(r, c, t);
    var j := if dr == -2 then (if dc == -1 then 0 else 1)
             else if dr == 2 then (if dc == -1 then 2 else 3)
             else if dr == -1 then (if dc == -2 then 4 else 5)
             else (if dc == -2 then 6 else 7);
    assert HorseData[j].0 == dr && HorseData[j].1 == dc;
  }

  /** HORSE: an L-shaped leap whose orthogonal leg must be empty. */
  method HorseMoves(b: BoardState, r: int, c: int, color: Color) returns (moves: seq<Position>)
    ensures forall t: Position :: t in moves <==> HorseTarget(b, color, r, c, t.row, t.col)
  {
    moves := [];
    for k := 0 to 8
      invariant HorseSoFar(b, color, r, c, moves, k)
    {
      var (dr, dc, legR, legC) := HorseData[k];
      HorseStep(b, color, r, c, moves, k, dr, dc, legR, legC);
      var nr, nc := r + dr, c + dc;
      var lr, lc := r + legR, c + legC;
      if IsValidPos(lr, lc) && b[lr][lc].None? {
        if IsValidPos(nr, nc) && Admits(b, color, nr, nc) {
          moves := moves + [Position(nr, nc)];
        }
      }
    }
    forall t: Position | HorseTarget(b, color, r, c, t.row, t.col) ensures t in moves {
      AllLeaps(b, color, r, c, t);
    }
  }

  /** CHARIOT: slide in each direction over empty squares; an enemy piece
      ends the ray and is listed, an own piece ends it unlisted. */
  method ChariotMoves(b: BoardState, r: int, c: int, color: Color) returns (moves: seq<Position>)
    requires IsValidPos(r, c)
    ensures forall t: Position :: t in moves <==> ChariotTarget(b, color, r, c, t.row, t.col)
  {
    moves := [];
    for k := 0 to 4
      invariant forall t: Position :: t in moves <==>
        ChariotTarget(b, color, r, c, t.row, t.col) && (Sgn(t.row - r), Sgn(t.col - c)) in Orthogonal[..k]
    {
      var (dr, dc) := Orthogonal[k];
      assert Orthogonal[..k + 1] == Orthogonal[..k] + [(dr, dc)];
      var ray := ChariotRay(b, r, c, color, dr, dc);
      moves := moves + ray;
    }
    forall t: Position | ChariotTarget(b, color, r, c, t.row, t.col) ensures (Sgn(t.row - r), Sgn(t.col - c)) in Orthogonal[..4] {
      LineDirection(r, c, t.row, t.col);
      assert Orthogonal[..4] == Orthogonal;
    }
  }

  method ChariotRay(b: BoardState, r: int, c: int, color: Color, dr: int, dc: int) returns (ray: seq<Position>)
    requires IsValidPos(r, c) && IsDir(dr, dc)
    ensures ChariotRayDone(b, color, r, c, dr, dc, ray)
  {
    ray := [];
    var i := 1;
    var nr, nc := r + dr, c + dc;
    while true
      invariant 1 <= i <= 10
      invariant ChariotLoop(b, color, r, c, dr, dc, ray, nr, nc)
      invariant Dist(r, c, nr, nc) == i
      decreases 10 - i
    {
      if !IsValidPos(nr, nc) {
        ChariotOff(b, color, r, c, dr, dc, ray, nr, nc);
        break;
      }
      ChariotStep(b, color, r, c, dr, dc, ray, nr, nc);
      var target := b[nr][nc];
      if target.None? {
        ray := ray + [Position(nr, nc)];
      } else {
        if target.value.color != color {
          ray := ray + [Position(nr, nc)];
        }
        break;
      }
      RayAdvance(r, c, dr, dc, nr, nc);
      i, nr, nc := i + 1, nr + dr, nc + dc;
    }
  }

  /** CANNON: slide like the chariot up to the first piece (the screen);
      past it, the first piece is listed when it is an enemy and ends the ray. */
  method CannonMoves(b: BoardState, r: int, c: int, color: Color) returns (moves: seq<Position>)
    requires IsValidPos(r, c)
    ensures forall t: Position :: t in moves <==> CannonTarget(b, color, r, c, t.row, t.col)
  {
    moves := [];
    for k := 0 to 4
      invariant forall t: Position :: t in moves <==>
        CannonTarget(b, color, r, c, t.row, t.col) && (Sgn(t.row - r), Sgn(t.col - c)) in Orthogonal[..k]
    {
      var (dr, dc) := Orthogonal[k];
      assert Orthogonal[..k + 1] == Orthogonal[..k] + [(dr, dc)];
      var ray := CannonRay(b, r, c, color, dr, dc);
      moves := moves + ray;
    }
    forall t: Position | CannonTarget(b, color, r, c, t.row, t.col) ensures (Sgn(t.row - r), Sgn(t.col - c)) in Orthogonal[..4] {
      LineDirection(r, c, t.row, t.col);
      assert Orthogonal[..4] == Orthogonal;
    }
  }

  method CannonRay(b: BoardState, r: int, c: int, color: Color, dr: int, dc: int) returns (ray: seq<Position>)
    requires IsValidPos(r, c) && IsDir(dr, dc)
    ensures CannonRayDone(b, color, r, c, dr, dc, ray)
  {
    ray := [];
    var i := 1;
    var screenFound := false;
    var nr, nc := r + dr, c + dc;
    while true
      invariant 1 <= i <= 10
      invariant CannonLoop(b, color, r, c, dr, dc, ray, nr, nc, screenFound)
      invariant Dist(r, c, nr, nc) == i
      decreases 10 - i
    {
      if !IsValidPos(nr, nc) {
        CannonOff(b, color, r, c, dr, dc, ray, nr, nc, screenFound);
        break;
      }
      var target := b[nr][nc];
      if !screenFound {
        CannonStep(b, color, r, c, dr, dc, ray, nr, nc, false);
        if target.None? {
          ray := ray + [Position(nr, nc)];
        } else {
          screenFound := true;
        }
      } else {
        CannonStep(b, color, r, c, dr, dc, ray, nr, nc, true);
        if target.Some? {
          if target.value.color != color {
            ray := ray + [Position(nr, nc)];
          }
          break;
        }
      }
      RayAdvance(r, c, dr, dc, nr, nc);
      i, nr, nc := i + 1, nr + dr, nc + dc;
    }
  }

  /** SOLDIER: one step forward; once across the river also one step sideways. */
  method SoldierMoves(b: BoardState, r: int, c: int, color: Color) returns (moves: seq<Position>)
    ensures forall t: Position :: t in moves <==> SoldierTarget(b, color, r, c, t.row, t.col)
  {
    var isRed := color == Red;
    var forward := if isRed then -1 else 1;
    var crossedRiver := if isRed then r <= 4 else r >= 5;
    moves := [];
    if IsValidPos(r + forward, c) && Admits(b, color, r + forward, c) {
      moves := moves + [Position(r + forward, c)];
    }
    if crossedRiver {
      if IsValidPos(r, c - 1) && Admits(b, color, r, c - 1) {
        moves := moves + [Position(r, c - 1)];
      }
      if IsValidPos(r, c + 1) && Admits(b, color, r, c + 1) {
        moves := moves + [Position(r, c + 1)];
      }
    }
  }

  /** getPotentialMoves: the geometric moves of the piece on pos, none for an
      empty square. */
  method GetPotentialMoves(b: BoardState, pos: Position) returns (moves: seq<Position>)
    requires OnBoard(pos)
    ensures forall t: Position :: t in moves <==> PotentialTarget(b, pos, t)
  {
    var (r, c) := (pos.row, pos.col);
    match b[r][c]
    case None =>
      moves := [];
    case Some(piece) =>
      match piece.kind
      case General => moves := GeneralMoves(b, r, c, piece.color);
      case Advisor => moves := AdvisorMoves(b, r, c, piece.color);
      case Elephant => moves := ElephantMoves(b, r, c, piece.color);
      case Horse => moves := HorseMoves(b, r, c, piece.color);
      case Chariot => moves := ChariotMoves(b, r, c, piece.color);
      case Cannon => moves := CannonMoves(b, r, c, piece.color);
      case Soldier => moves := SoldierMoves(b, r, c, piece.color);
  }

  /** No piece may land on a piece of its own colour, nor off the board. */
  lemma PotentialNeverSelfCapture(b: BoardState, from: Position, to: Position)
    requires OnBoard(from) && PotentialTarget(b, from, to)
    ensures At(b, from).Some? && OnBoard(to)
    ensures At(b, to).None? || At(b, to).value.color != At(b, from).value.color
  {
  }

  // isFlyingGeneral

  /** The general of a colour that isFlyingGeneral's scan holds once it has
      looked at rows 0..r-1 and at columns 3..c-1 of row r, in columns 3..5
      only: the last one found. */
  function GeneralScan(b: BoardState, color: Color, r: int, c: int): (g: Option<Position>)
    requires 0 <= r <= 10 && 3 <= c <= 6 && (r == 10 ==> c == 3)
    ensures g.Some? ==>
      IsValidPos(g.value.row, g.value.col) && 3 <= g.value.col <= 5 && b[g.value.row][g.value.col] == Some(Piece(General, color))
    decreases r, c
  {
    if c == 3 then
      if r == 0 then None else GeneralScan(b, color, r - 1, 6)
    else if b[r][c - 1] == Some(Piece(General, color)) then Some(Position(r, c - 1))
    else GeneralScan(b, color, r, c - 1)
  }

  /** Looking at square (r, c) finds the colour's general there, or keeps
      what the earlier squares found. */
  lemma GeneralScanNext(b: BoardState, color: Color, r: int, c: int)
    requires 0 <= r < 10 && 3 <= c < 6
    ensures GeneralScan(b, color, r, c + 1) ==
      if b[r][c] == Some(Piece(General, color)) then Some(Position(r, c)) else GeneralScan(b, color, r, c)
  {
  }

  /** The generals face each other: both are found, they share a column and
      every square strictly below Black's and above Red's on it is empty. */
  predicate Flying(b: BoardState) {
    var red, black := GeneralScan(b, Red, 10, 3), GeneralScan(b, Black, 10, 3);
    red.Some? && black.Some? && red.value.col == black.value.col
    && forall rr :: black.value.row < rr < red.value.row ==> b[rr][red.value.col].None?
  }

  /** isFlyingGeneral */
  method IsFlyingGeneral(b: BoardState) returns (flying: bool)
    ensures flying == Flying(b)
  {
    var redGen: Option<Position> := None;
    var blackGen: Option<Position> := None;
    for r := 0 to 10
      invariant redGen == GeneralScan(b, Red, r, 3) && blackGen == GeneralScan(b, Black, r, 3)
    {
      for c := 3 to 6
        invariant redGen == GeneralScan(b, Red, r, c) && blackGen == GeneralScan(b, Black, r, c)
      {
        var p := b[r][c];
        GeneralScanNext(b, Red, r, c);
        GeneralScanNext(b, Black, r, c);
        if p.Some? && p.value.kind == General {
          if p.value.color == Red {
            redGen := Some(Position(r, c));
          } else {
            blackGen := Some(Position(r, c));
          }
        }
      }
    }
    if redGen.None? || blackGen.None? {
      return false;
    }
    if redGen.value.col != blackGen.value.col {
      return false;
    }
    flying := ColumnClear(b, redGen.value.col, blackGen.value.row, redGen.value.row);
  }

  /** isFlyingGeneral's last loop: every square of column col strictly
      between rows top and bottom is empty. */
  method ColumnClear(b: BoardState, col: int, top: int, bottom: int) returns (clear: bool)
    requires 0 <= col < 9 && 0 <= top < 10 && 0 <= bottom < 10
    ensures clear <==> forall rr :: top < rr < bottom ==> b[rr][col].None?
  {
    var r := top + 1;
    while r < bottom
      invariant top + 1 <= r <= 10
      invariant forall rr :: top < rr < r ==> b[rr][col].None?
    {
      if b[r][col].Some? {
        return false;
      }
      r := r + 1;
    }
    return true;
  }

  // isCheck

  /** The first column at or after c of row r that holds the colour's general. */
  function FirstGeneralInRow(b: BoardState, color: Color, r: int, c: int): (g: Option<int>)
    requires 0 <= r <= 9 && 0 <= c <= 9
    ensures g.Some? ==> c <= g.value <= 8 && b[r][g.value] == Some(Piece(General, color))
    ensures g.None? ==> forall cc :: c <= cc <= 8 ==> b[r][cc] != Some(Piece(General, color))
    decreases 9 - c
  {
    if c == 9 then None
    else if b[r][c] == Some(Piece(General, color)) then Some(c)
    else FirstGeneralInRow(b, color, r, c + 1)
  }

  /** The square isCheck takes for the colour's general after scanning the
      first n rows: the inner loop stops at the first one of a row, the outer
      loop goes on, so the last row holding one wins. */
  function GeneralAt(b: BoardState, color: Color, n: nat): (g: Option<Position>)
    requires n <= 10
    ensures g.Some? ==> g.value.row < n && OnBoard(g.value) && At(b, g.value) == Some(Piece(General, color))
  {
    if n == 0 then None
    else match FirstGeneralInRow(b, color, n - 1, 0)
      case Some(c) => Some(Position(n - 1, c))
      case None => GeneralAt(b, color, n - 1)
  }

  /** An enemy piece on (r, c) lists square g among its potential moves. */
  ghost predicate Threatens(b: BoardState, color: Color, g: Position, r: int, c: int)
    requires IsValidPos(r, c)
  {
    HasPiece(b, r, c, Opponent(color)) && PotentialTarget(b, Position(r, c), g)
  }

  /** The squares scanned before (r, c), row by row, threaten nothing, and
      neither does (r, c): then nothing scanned up to (r, c) does. */
  lemma NoThreatExtends(b: BoardState, color: Color, g: Position, r: int, c: int)
    requires 0 <= r < 10 && 0 <= c < 9 && !Threatens(b, color, g, r, c)
    requires forall rr, cc :: (0 <= rr < r || (rr == r && 0 <= cc < c)) && 0 <= cc <= 8 ==>
      !Threatens(b, color, g, rr, cc)
    ensures forall rr, cc :: (0 <= rr < r || (rr == r && 0 <= cc < c + 1)) && 0 <= cc <= 8 ==>
      !Threatens(b, color, g, rr, cc)
  {
  }

  /** Some enemy piece lists square g among its potential moves. */
  ghost predicate Attacked(b: BoardState, color: Color, g: Position) {
    exists r, c :: IsValidPos(r, c) && Threatens(b, color, g, r, c)
  }

  /** In check: the general is missing, or an enemy piece attacks it. */
  ghost predicate InCheck(b: BoardState, color: Color) {
    match GeneralAt(b, color, 10)
    case None => true
    case Some(g) => Attacked(b, color, g)
  }

  /** isCheck */
  method IsCheck(b: BoardState, color: Color) returns (check: bool)
    ensures check == InCheck(b, color)
  {
    var genPos: Option<Position> := None;
    for r := 0 to 10
      invariant genPos == GeneralAt(b, color, r)
    {
      for c := 0 to 9
        invariant genPos == GeneralAt(b, color, r)
        invariant FirstGeneralInRow(b, color, r, 0) == FirstGeneralInRow(b, color, r, c)
      {
        var p := b[r][c];
        if p.Some? && p.value.kind == General && p.value.color == color {
          genPos := Some(Position(r, c));
          break;
        }
      }
    }
    if genPos.None? {
      return true;
    }
    var g := genPos.value;
    var enemyColor := if color == Red then Black else Red;
    for r := 0 to 10
      invariant forall rr, cc :: 0 <= rr < r && 0 <= cc <= 8 ==> !Threatens(b, color, g, rr, cc)
    {
      for c := 0 to 9
        invariant forall rr, cc :: (0 <= rr < r || (rr == r && 0 <= cc < c)) && 0 <= cc <= 8 ==>
          !Threatens(b, color, g, rr, cc)
      {
        var p := b[r][c];
        if p.Some? && p.value.color == enemyColor {
          var moves := GetPotentialMoves(b, Position(r, c));
          if g in moves {
            assert Threatens(b, color, g, r, c);
            return true;
          }
          assert !PotentialTarget(b, Position(r, c), g);
        } else {
          assert !HasPiece(b, r, c, Opponent(color));
        }
        NoThreatExtends(b, color, g, r, c);
      }
    }
    return false;
  }

  // getValidMoves and hasLegalMoves

  /** A fully legal target: a potential move after which the generals do not
      face each other and the mover is not in check. */
  ghost predicate ValidTarget(b: BoardState, from: Position, to: Position)
    requires OnBoard(from)
  {
    PotentialTarget(b, from, to) && At(b, from).Some? && OnBoard(to)
    && !Flying(AfterMove(b, from, to)) && !InCheck(AfterMove(b, from, to), At(b, from).value.color)
  }

  /** getValidMoves: the potential moves that survive the simulated move. */
  method GetValidMoves(b: BoardState, pos: Position) returns (valid: seq<Position>)
    requires OnBoard(pos)
    ensures forall t: Position :: t in valid <==> ValidTarget(b, pos, t)
  {
    var potential := GetPotentialMoves(b, pos);
    var piece := b[pos.row][pos.col];
    if piece.None? {
      return [];
    }
    valid := [];
    for i := 0 to |potential|
      invariant forall t: Position :: t in valid <==> t in potential[..i] && ValidTarget(b, pos, t)
    {
      var move := potential[i];
      PotentialNeverSelfCapture(b, pos, move);
      assert potential[..i + 1] == potential[..i] + [move];
      var newBoard := b;
      newBoard := newBoard[move.row := newBoard[move.row][move.col := newBoard[pos.row][pos.col]]];
      newBoard := newBoard[pos.row := newBoard[pos.row][pos.col := None]];
      assert newBoard == AfterMove(b, pos, move);
      var flying := IsFlyingGeneral(newBoard);
      if !flying {
        var check := IsCheck(newBoard, piece.value.color);
        if !check {
          valid := valid + [move];
        }
      }
    }
    assert potential[..|potential|] == potential;
  }

  /** The colour has a piece with at least one fully legal move. */
  ghost predicate HasLegal(b: BoardState, color: Color) {
    exists r, c :: IsValidPos(r, c) && Movable(b, color, r, c)
  }

  /** A piece of color stands on (r, c) and has a valid move. */
  ghost predicate Movable(b: BoardState, color: Color, r: int, c: int)
    requires IsValidPos(r, c)
  {
    HasPiece(b, r, c, color) && exists t :: ValidTarget(b, Position(r, c), t)
  }

  /** hasLegalMoves */
  method HasLegalMoves(b: BoardState, color: Color) returns (has: bool)
    ensures has == HasLegal(b, color)
  {
    for r := 0 to 10
      invariant forall rr, cc :: 0 <= rr < r && 0 <= cc <= 8 ==> !Movable(b, color, rr, cc)
    {
      for c := 0 to 9
        invariant forall rr, cc :: (0 <= rr < r || (rr == r && 0 <= cc < c)) && 0 <= cc <= 8 ==> !Movable(b, color, rr, cc)
      {
        var p := b[r][c];
        if p.Some? && p.value.color == color {
          var moves := GetValidMoves(b, Position(r, c));
          if |moves| > 0 {
            assert ValidTarget(b, Position(r, c), moves[0]);
            assert Movable(b, color, r, c);
            return true;
          }
          assert forall t :: !ValidTarget(b, Position(r, c), t);
        }
        UnmovableExtends(b, color, r, c);
      }
    }
    return false;
  }

  /** The squares scanned before (r, c), row by row, hold no movable piece,
      and neither does (r, c): then nothing scanned up to (r, c) does. */
  lemma UnmovableExtends(b: BoardState, color: Color, r: int, c: int)
    requires 0 <= r < 10 && 0 <= c < 9 && !Movable(b, color, r, c)
    requires forall rr, cc :: (0 <= rr < r || (rr == r && 0 <= cc < c)) && 0 <= cc <= 8 ==> !Movable(b, color, rr, cc)
    ensures forall rr, cc :: (0 <= rr < r || (rr == r && 0 <= cc < c + 1)) && 0 <= cc <= 8 ==> !Movable(b, color, rr, cc)
  {
  }

  /** A legal move never gives up the mover's own general: after it the
      general is still found, and no enemy piece attacks its square. */
  lemma ValidKeepsGeneral(b: BoardState, from: Position, to: Position)
    requires OnBoard(from) && ValidTarget(b, from, to)
    ensures var after := AfterMove(b, from, to);
      var g := GeneralAt(after, At(b, from).value.color, 10);
      g.Some? && !Attacked(after, At(b, from).value.color, g.value)
  {
  }
}
