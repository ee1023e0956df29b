/** The tree search of backend/rl/algorithms/mcts.py, as written (class
    MCTS; backend/mcts.py holds the same algorithm). The tables Qsa, Nsa,
    Ns, Ps and Es are dictionaries the search updates in place. The class
    holds them as fields, and Simulate, the simulation loop of
    get_action_prob, writes them. The recursive search and its steps
    (Search, ExpandLeaf, Descend, Backup) take the tables as a value and
    return the updated tables, which Simulate stores back. Unlike RemoteMCTS
    it has no guard for a state without a valid action: the selection then
    leaves the sentinel -1, the search follows decode(-1) (which numpy
    applies by wrapping row -1 to row 9) and records a visit on the edge
    (s, -1), which the visit counts get_action_prob reads never see. */
module RlMcts {
  import opened Scores
  import opened PyBoard
  import PyGame
  import opened MctsStats

  /** policy + valids */
  function Add(u: seq<real>, valids: seq<int>): (r: seq<real>)
    requires |u| == |valids|
    ensures |r| == |u| && forall i :: 0 <= i < |u| ==> r[i] == u[i] + valids[i] as real
  {
    seq(|u|, i requires 0 <= i < |u| => u[i] + valids[i] as real)
  }

  /** The leaf policy as this search computes it: the masked policy
      normalised, or else the masked policy plus the valid vector,
      normalised. With no valid action numpy divides zero by zero; the
      model keeps the zero vector there. */
  function RlLeafPolicy(policy: seq<real>, valids: seq<int>): seq<real>
    requires |policy| == |valids|
  {
    var masked := Mask(policy, valids);
    if Sum(masked) > 0.0 then Divide(masked, Sum(masked))
    else
      var fallback := Add(masked, valids);
      if Sum(fallback) != 0.0 then Divide(fallback, Sum(fallback)) else fallback
  }

  /** With non-negative network priors the fallback "masked + valids" is the
      valid vector itself, so this search stores the same leaf policy as
      RemoteMCTS. */
  lemma RlLeafAgrees(policy: seq<real>, valids: seq<int>)
    requires |policy| == |valids| && IsZeroOne(valids)
    requires forall i :: 0 <= i < |policy| ==> policy[i] >= 0.0
    ensures RlLeafPolicy(policy, valids) == LeafPolicy(policy, valids)
  {
    var masked := Mask(policy, valids);
    if Sum(masked) <= 0.0 {
      forall i | 0 <= i < |masked| ensures masked[i] >= 0.0 {
        assert valids[i] == 0 || valids[i] == 1;
      }
      NonNegZeroSum(masked);
      assert Add(masked, valids) == AsReal(valids);
      ValidCount(valids);
    }
  }

  class Mcts {
    const game: PyGame.XiangqiGame
    const predict: PyGame.Tensor -> (seq<real>, real)
    const numSims: nat
    const cpuct: real
    const sqrt: real -> real

    var Qsa: map<Edge, real>
    var Nsa: map<Edge, nat>
    var Ns: map<Sig, nat>
    var Ps: map<Sig, seq<real>>
    var Es: map<Sig, int>
    /** The values backed up through each edge, one per visit. */
    ghost var backed: map<Edge, seq<real>>

    /** The tables hold what the search computed for their boards, each Q
        value is the mean of its backed-up values, every edge leaves an
        expanded state by a legal action or by the sentinel -1, and the
        visit count of a state is the sum of the visit counts of its edges,
        the edge (s, -1) included. */
    ghost predicate Valid()
      reads this
    {
      TreeOk(Tables(Qsa, Nsa, Ns, Ps, Es), backed, predict)
    }

    constructor (game: PyGame.XiangqiGame, predict: PyGame.Tensor -> (seq<real>, real),
                 numSims: nat, cpuct: real, sqrt: real -> real)
      requires OracleOk(predict)
      ensures Valid()
      ensures this.game == game && this.predict == predict && this.numSims == numSims
      ensures this.cpuct == cpuct && this.sqrt == sqrt
      ensures Qsa == map[] && Nsa == map[] && Ns == map[] && Ps == map[] && Es == map[]
    {
      this.game := game;
      this.predict := predict;
      this.numSims := numSims;
      this.cpuct := cpuct;
      this.sqrt := sqrt;
      Qsa, Nsa, Ns, Ps, Es := map[], map[], map[], map[], map[];
      backed := map[];
    }

    /** One simulation from the canonical board b on the tables t (the
        object's dictionaries, which the source updates in place and which
        are threaded through here as a value). Below depth 501 it records
        the terminal value of b, expands b if it is new, or else selects an
        action, recurses on the child and backs the child's value up. It
        returns the value of b for the side that moved into it. */
    method Search(b: Board, depth: int, t: Tables, ghost bk: map<Edge, seq<real>>)
      returns (v: real, t': Tables, ghost bk': map<Edge, seq<real>>, ghost a: int)
      requires TreeOk(t, bk, predict) && PieceCodes(b)
      decreases 501 - depth, 2
      ensures TreeOk(t', bk', predict) && Grown(t, t')
      ensures depth > 500 ==> v == 0.0 && t' == t
      ensures depth <= 500 ==> Signature(b) in t'.es
      ensures depth <= 500 && GameEnded(b) != 0 ==>
        v == -(GameEnded(b) as real) && t'.es == t.es[Signature(b) := GameEnded(b)]
        && t'.ps == t.ps && t'.ns == t.ns && t'.nsa == t.nsa && t'.qsa == t.qsa
      ensures depth <= 500 && GameEnded(b) == 0 && Signature(b) !in t.ps ==>
        v == -predict(PyGame.Planes(b)).1
        && t'.ps == t.ps[Signature(b) := LeafOf(predict, b)] && t'.ns == t.ns[Signature(b) := 0]
        && t'.nsa == t.nsa && t'.qsa == t.qsa
      ensures depth <= 500 && GameEnded(b) == 0 && Signature(b) in t.ps ==>
        t'.ns[Signature(b)] > t.ns[Signature(b)] && t'.ps[Signature(b)] == t.ps[Signature(b)]
        && Get(t'.nsa, (Signature(b), a)) > Get(t.nsa, (Signature(b), a))
        && BackedLast(bk', (Signature(b), a), -v)
      ensures depth <= 500 && GameEnded(b) == 0 && Signature(b) in t.ps && HasValid(PyGame.ValidVector(b)) ==>
        0 <= a < ActionSize && PyGame.ValidVector(b)[a] == 1
      ensures depth <= 500 && GameEnded(b) == 0 && Signature(b) in t.ps && !HasValid(PyGame.ValidVector(b)) ==>
        a == -1 && t'.ns[Signature(b)] > EdgeSum(t'.nsa, Signature(b), ActionSize)
    {
      a := -1;
      if depth > 500 {
        return 0.0, t, bk, a;
      }
      var s := Signature(b);
      SignatureInjective(b);
      t', bk' := t, bk;
      if s !in t'.es {
        RecordEnded(t', bk', predict, b);
        t' := t'.(es := t'.es[s := GameEnded(b)]);
      }
      if t'.es[s] != 0 {
        return -(t'.es[s] as real), t', bk', a;
      }
      ghost var t1 := t';
      assert Grown(t, t1);
      if s !in t'.ps {
        v, t' := ExpandLeaf(b, t', bk');
        GrownTrans(t, t1, t');
        return;
      }
      var picked;
      v, t', bk', picked := Descend(b, depth, t', bk');
      GrownTrans(t, t1, t');
      GrownAt(t1, t', s, (s, picked));
      a := picked;
    }

    /** A new undecided state: the network's policy, masked and normalised,
        is stored with a visit count of 0, and the network's value, negated,
        is returned. */
    method ExpandLeaf(b: Board, t: Tables, ghost bk: map<Edge, seq<real>>) returns (v: real, t': Tables)
      requires TreeOk(t, bk, predict) && PieceCodes(b)
      requires Signature(b) in t.es && t.es[Signature(b)] == 0 && Signature(b) !in t.ps
      ensures TreeOk(t', bk, predict) && Grown(t, t')
      ensures v == -predict(PyGame.Planes(b)).1
      ensures t' == t.(ps := t.ps[Signature(b) := LeafOf(predict, b)], ns := t.ns[Signature(b) := 0])
    {
      var s := Signature(b);
      var boardTensor := game.StateToTensor(b);
      var (policy, value) := predict(boardTensor);
      var valids := game.GetValidMoves(b);
      RlLeafAgrees(policy, valids);
      Expand(t, bk, predict, b);
      t' := t.(ps := t.ps[s := RlLeafPolicy(policy, valids)], ns := t.ns[s := 0]);
      v := -value;
    }

    /** An expanded undecided state: select an action and back up through
        it. With no valid action the selection leaves -1, and the visit goes
        to the edge (s, -1), outside the counts of the actions. */
    method Descend(b: Board, depth: int, t: Tables, ghost bk: map<Edge, seq<real>>)
      returns (v: real, t': Tables, ghost bk': map<Edge, seq<real>>, a: int)
      requires TreeOk(t, bk, predict) && PieceCodes(b) && depth <= 500
      requires Signature(b) in t.ps
      decreases 501 - depth, 1
      ensures TreeOk(t', bk', predict) && Grown(t, t')
      ensures t'.ns[Signature(b)] > t.ns[Signature(b)]
      ensures Get(t'.nsa, (Signature(b), a)) > Get(t.nsa, (Signature(b), a))
      ensures BackedLast(bk', (Signature(b), a), -v)
      ensures HasValid(PyGame.ValidVector(b)) ==> 0 <= a < ActionSize && PyGame.ValidVector(b)[a] == 1
      ensures !HasValid(PyGame.ValidVector(b)) ==>
        a == -1 && t'.ns[Signature(b)] > EdgeSum(t'.nsa, Signature(b), ActionSize)
    {
      var s := Signature(b);
      var valids := game.GetValidMoves(b);
      a := SelectAction(t.qsa, t.nsa, s, t.ps[s], t.ns[s], valids, cpuct, sqrt);
      v, t', bk' := Backup(b, depth, a, t, bk);
    }

    /** Recursion on the child reached by the action a (the sentinel -1
        included) and the update of the edge (s, a). */
    method Backup(b: Board, depth: int, a: int, t: Tables, ghost bk: map<Edge, seq<real>>)
      returns (v: real, t': Tables, ghost bk': map<Edge, seq<real>>)
      requires TreeOk(t, bk, predict) && PieceCodes(b) && depth <= 500
      requires Signature(b) in t.ps
      requires a == -1 || LegalAction(b, a)
      decreases 501 - depth, 0
      ensures TreeOk(t', bk', predict) && Grown(t, t')
      ensures t'.ns[Signature(b)] > t.ns[Signature(b)]
      ensures Get(t'.nsa, (Signature(b), a)) > Get(t.nsa, (Signature(b), a))
      ensures BackedLast(bk', (Signature(b), a), -v)
    {
      var s := Signature(b);
      MoveIndexableOfAction(a);
      var (nextBoard, nextPlayer) := NextState(b, 1, a);
      ChildIsMoveInPlace(b, 1, a);
      MoveKeepsCodes(b, Decode(a));
      var child: Tables;
      ghost var childBk: map<Edge, seq<real>>;
      var childV: real;
      ghost var childA: int;
      childV, child, childBk, childA := Search(Canonical(nextBoard, nextPlayer), depth + 1, t, bk);
      BackupAfter(t, child, childBk, predict, b, s, a, childV);
      t', bk' := BackedUp(child, s, a, childV), Appended(childBk, (s, a), childV);
      v := -childV;
    }

    /** The simulation loop of get_action_prob: numSims searches from b,
        each on the tables the previous one left. */
    method Simulate(b: Board)
      requires Valid() && PieceCodes(b)
      modifies this
      ensures Valid()
      ensures Grown(old(Tables(Qsa, Nsa, Ns, Ps, Es)), Tables(Qsa, Nsa, Ns, Ps, Es))
    {
      var t := Tables(Qsa, Nsa, Ns, Ps, Es);
      ghost var t0 := t;
      ghost var bk := backed;
      for i := 0 to numSims
        invariant TreeOk(t, bk, predict) && Grown(t0, t)
      {
        var value;
        ghost var before, picked := t, 0;
        value, t, bk, picked := Search(b, 0, t, bk);
        GrownTrans(t0, before, t);
      }
      Qsa, Nsa, Ns, Ps, Es, backed := t.qsa, t.nsa, t.ns, t.ps, t.es, bk;
      TablesEta(t);
    }

    /** get_action_prob: run the simulations, then read the visit counts of
        the root's actions 0 .. 8099. With temp = 0 all mass goes to one
        action of largest count; otherwise the powered counts are divided
        by their total, which raises ZeroDivisionError (None here) when the
        total is 0. */
    method GetActionProb(b: Board, temp: real, power: real -> real, pick: nat) returns (probs: Option<seq<real>>)
      requires Valid() && PieceCodes(b)
      modifies this
      ensures Valid()
      ensures Grown(old(Tables(Qsa, Nsa, Ns, Ps, Es)), Tables(Qsa, Nsa, Ns, Ps, Es))
      ensures temp == 0.0 ==> probs == Some(Greedy(Counts(Nsa, Signature(b)), pick))
      ensures temp != 0.0 ==>
        (probs.None? <==> Sum(Powered(Counts(Nsa, Signature(b)), power)) == 0.0)
      ensures temp != 0.0 && probs.Some? ==>
        var powered := Powered(Counts(Nsa, Signature(b)), power);
        probs.value == Divide(powered, Sum(powered)) && Sum(probs.value) == 1.0
    {
      Simulate(b);
      var s := Signature(b);
      var counts := Counts(Nsa, s);
      if temp == 0.0 {
        return Some(Greedy(counts, pick));
      }
      var powered := Powered(counts, power);
      var countsSum := Sum(powered);
      if countsSum == 0.0 {
        return None;
      }
      Normalised(powered);
      probs := Some(Divide(powered, countsSum));
    }
  }

  /** Visits recorded on the sentinel edge are part of the state's visit
      count but not of the counts vector get_action_prob reads. */
  lemma StrayVisitsUncounted(nsa: map<Edge, nat>, ns: map<Sig, nat>, s: Sig)
    requires s in ns && ns[s] == EdgeSum(nsa, s, ActionSize) + Get(nsa, (s, -1))
    requires Get(nsa, (s, -1)) > 0
    ensures IntSum(Counts(nsa, s)) < ns[s]
  {
    CountsTotal(nsa, s);
  }

  /** A position where both kings stand and the side to move has no move:
      the Red king on (3, 0) is walled in by its four advisors on (4, 0),
      (3, 1), (5, 1) and (4, 2), which wall each other in; the Black king
      is on (4, 9). */
  function StrandedBoard(): Board {
    [[0, 0, 0, 1, 2, 0, 0, 0, 0],
     [0, 0, 0, 2, 0, 2, 0, 0, 0],
     [0, 0, 0, 0, 2, 0, 0, 0, 0],
     [0, 0, 0, 0, 0, 0, 0, 0, 0],
     [0, 0, 0, 0, 0, 0, 0, 0, 0],
     [0, 0, 0, 0, 0, 0, 0, 0, 0],
     [0, 0, 0, 0, 0, 0, 0, 0, 0],
     [0, 0, 0, 0, 0, 0, 0, 0, 0],
     [0, 0, 0, 0, 0, 0, 0, 0, 0],
     [0, 0, 0, 0, -1, 0, 0, 0, 0]]
  }

  /** No piece of the side to move has a target square. */
  lemma StrandedNoMove(m: Move)
    ensures !PseudoLegal(StrandedBoard(), 1, m)
  {
    var b := StrandedBoard();
    if OnBoard(m.start) && IsOwn(b[m.start.y][m.start.x], 1) {
      var x, y := m.start.x, m.start.y;
      assert (x, y) in {(3, 0), (4, 0), (3, 1), (5, 1), (4, 2)};
    }
  }

  /** No action is legal in the stranded position. */
  lemma StrandedNoAction(a: int)
    ensures !LegalAction(StrandedBoard(), a)
  {
    StrandedNoMove(Decode(a));
  }

  /** The stranded position is not over, yet no action is valid in it: the
      input on which the search above selects -1. */
  lemma StrandedPosition()
    ensures GameEnded(StrandedBoard()) == 0
    ensures PieceCodes(StrandedBoard())
    ensures !HasValid(PyGame.ValidVector(StrandedBoard()))
  {
    StrandedNotOver();
    StrandedNoValid();
  }

  lemma StrandedNotOver()
    ensures GameEnded(StrandedBoard()) == 0 && PieceCodes(StrandedBoard())
  {
    var b := StrandedBoard();
    assert b[0][3] == King && b[9][4] == -King;
  }

  lemma StrandedNoValid()
    ensures !HasValid(PyGame.ValidVector(StrandedBoard()))
  {
    var valids := PyGame.ValidVector(StrandedBoard());
    forall a | 0 <= a < ActionSize ensures valids[a] == 0 {
      StrandedNoAction(a);
    }
  }
}
