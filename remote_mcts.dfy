/** RemoteMCTS of backend/rl/workers/self_play.py: the same tree search as
    backend/rl/algorithms/mcts.py, asking a prediction server instead of a
    local network, cut off below depth 100, and with the guard the other
    search lacks: an expanded state without a valid action returns 0 and
    records nothing. No edge ever carries the sentinel -1, so the visit
    count of a state is exactly the total of the counts get_action_prob
    reads. get_action_prob answers all zeros instead of failing when the
    powered counts add up to 0. */
module RemoteMcts {
  import opened Scores
  import opened PyBoard
  import PyGame
  import opened MctsStats

  /** No edge of the tables leaves by the sentinel -1. */
  ghost predicate NoSentinel(nsa: map<Edge, nat>) {
    forall e :: e in nsa ==> e.1 != -1
  }

  /** The invariant of the remote search: the shared table invariant and no
      sentinel edge. */
  ghost predicate RemoteOk(t: Tables, backed: map<Edge, seq<real>>, predict: PyGame.Tensor -> (seq<real>, real)) {
    TreeOk(t, backed, predict) && NoSentinel(t.nsa)
  }

  /** Without sentinel edges the visit count of an expanded state is the
      total of its counts vector. */
  lemma VisitsCounted(t: Tables, backed: map<Edge, seq<real>>, predict: PyGame.Tensor -> (seq<real>, real), s: Sig)
    requires RemoteOk(t, backed, predict) && s in t.ns
    ensures t.ns[s] == IntSum(Counts(t.nsa, s))
  {
    CountsTotal(t.nsa, s);
    assert Get(t.nsa, (s, -1)) == 0;
  }

  /** A backup through an action keeps the tables free of sentinel edges. */
  lemma BackupNoSentinel(t: Tables, s: Sig, a: int, v: real)
    requires NoSentinel(t.nsa) && 0 <= a < ActionSize
    requires s in t.ns && ((s, a) in t.qsa ==> (s, a) in t.nsa)
    ensures NoSentinel(BackedUp(t, s, a, v).nsa)
  {
  }

  class RemoteMcts {
    const game: PyGame.XiangqiGame
    const predict: PyGame.Tensor -> (seq<real>, real)
    const numSims: nat
    const cpuct: real
    const sqrt: real -> real

    var Qsa: map<Edge, real>
    var Nsa: map<Edge, nat>
    var Ns: map<Sig, nat>
    var Ps: map<Sig, seq<real>>
    var Es: map<Sig, int>
    /** The values backed up through each edge, one per visit. */
    ghost var backed: map<Edge, seq<real>>

    /** The tables hold what the search computed for their boards, each Q
        value is the mean of its backed-up values, every edge leaves an
        expanded state by one of the 8100 actions, and the visit count of a
        state is the sum of the visit counts of its edges. */
    ghost predicate Valid()
      reads this
    {
      RemoteOk(Tables(Qsa, Nsa, Ns, Ps, Es), backed, predict)
    }

    constructor (game: PyGame.XiangqiGame, predict: PyGame.Tensor -> (seq<real>, real),
                 numSims: nat, cpuct: real, sqrt: real -> real)
      requires OracleOk(predict)
      ensures Valid()
      ensures this.game == game && this.predict == predict && this.numSims == numSims
      ensures this.cpuct == cpuct && this.sqrt == sqrt
      ensures Qsa == map[] && Nsa == map[] && Ns == map[] && Ps == map[] && Es == map[]
    {
      this.game := game;
      this.predict := predict;
      this.numSims := numSims;
      this.cpuct := cpuct;
      this.sqrt := sqrt;
      Qsa, Nsa, Ns, Ps, Es := map[], map[], map[], map[], map[];
      backed := map[];
    }

    /** One simulation from the canonical board b on the tables t (the
        object's dictionaries, threaded through as a value). Below depth 101
        it records the terminal value of b, expands b if it is new, returns
        0 untouched when b has no valid action, or else selects a valid
        action, recurses on the child and backs the child's value up. */
    method Search(b: Board, depth: int, t: Tables, ghost bk: map<Edge, seq<real>>)
      returns (v: real, t': Tables, ghost bk': map<Edge, seq<real>>, ghost a: int)
      requires RemoteOk(t, bk, predict) && PieceCodes(b)
      decreases 101 - depth, 2
      ensures RemoteOk(t', bk', predict) && Grown(t, t')
      ensures depth > 100 ==> v == 0.0 && t' == t
      ensures depth <= 100 ==> Signature(b) in t'.es
      ensures depth <= 100 && GameEnded(b) != 0 ==>
        v == -(GameEnded(b) as real) && t'.es == t.es[Signature(b) := GameEnded(b)]
        && t'.ps == t.ps && t'.ns == t.ns && t'.nsa == t.nsa && t'.qsa == t.qsa
      ensures depth <= 100 && GameEnded(b) == 0 && Signature(b) !in t.ps ==>
        v == -predict(PyGame.Planes(b)).1
        && t'.ps == t.ps[Signature(b) := LeafOf(predict, b)] && t'.ns == t.ns[Signature(b) := 0]
        && t'.nsa == t.nsa && t'.qsa == t.qsa
      ensures depth <= 100 && GameEnded(b) == 0 && Signature(b) in t.ps && !HasValid(PyGame.ValidVector(b)) ==>
        v == 0.0 && t'.ps == t.ps && t'.ns == t.ns && t'.nsa == t.nsa && t'.qsa == t.qsa
      ensures depth <= 100 && GameEnded(b) == 0 && Signature(b) in t.ps && HasValid(PyGame.ValidVector(b)) ==>
        t'.ns[Signature(b)] > t.ns[Signature(b)] && t'.ps[Signature(b)] == t.ps[Signature(b)]
        && 0 <= a < ActionSize && PyGame.ValidVector(b)[a] == 1
        && Get(t'.nsa, (Signature(b), a)) > Get(t.nsa, (Signature(b), a))
        && BackedLast(bk', (Signature(b), a), -v)
    {
      a := -1;
      if depth > 100 {
        return 0.0, t, bk, a;
      }
      var s := Signature(b);
      SignatureInjective(b);
      t', bk' := t, bk;
      if s !in t'.es {
        RecordEnded(t', bk', predict, b);
        t' := t'.(es := t'.es[s := GameEnded(b)]);
      }
      if t'.es[s] != 0 {
        return -(t'.es[s] as real), t', bk', a;
      }
      ghost var t1 := t';
      assert Grown(t, t1);
      if s !in t'.ps {
        v, t' := ExpandLeaf(b, t', bk');
        GrownTrans(t, t1, t');
        return;
      }
      var picked;
      v, t', bk', picked := Descend(b, depth, t', bk');
      GrownTrans(t, t1, t');
      GrownAt(t1, t', s, (s, picked));
      a := picked;
    }

    /** A new undecided state: the network's policy, masked and normalised
        (uniform over the valid actions when the mask leaves no mass, zeros
        when nothing is valid), is stored with a visit count of 0, and the
        network's value, negated, is returned. */
    method ExpandLeaf(b: Board, t: Tables, ghost bk: map<Edge, seq<real>>) returns (v: real, t': Tables)
      requires RemoteOk(t, bk, predict) && PieceCodes(b)
      requires Signature(b) in t.es && t.es[Signature(b)] == 0 && Signature(b) !in t.ps
      ensures RemoteOk(t', bk, predict) && Grown(t, t')
      ensures v == -predict(PyGame.Planes(b)).1
      ensures t' == t.(ps := t.ps[Signature(b) := LeafOf(predict, b)], ns := t.ns[Signature(b) := 0])
    {
      var s := Signature(b);
      var boardTensor := game.StateToTensor(b);
      var (policy, value) := predict(boardTensor);
      var valids := game.GetValidMoves(b);
      Expand(t, bk, predict, b);
      t' := t.(ps := t.ps[s := LeafPolicy(policy, valids)], ns := t.ns[s := 0]);
      v := -value;
    }

    /** An expanded undecided state: select the first valid action of
        highest UCB and back up through it; with no valid action, return 0
        and leave the tables alone. */
    method Descend(b: Board, depth: int, t: Tables, ghost bk: map<Edge, seq<real>>)
      returns (v: real, t': Tables, ghost bk': map<Edge, seq<real>>, a: int)
      requires RemoteOk(t, bk, predict) && PieceCodes(b) && depth <= 100
      requires Signature(b) in t.ps
      decreases 101 - depth, 1
      ensures RemoteOk(t', bk', predict) && Grown(t, t')
      ensures !HasValid(PyGame.ValidVector(b)) ==> v == 0.0 && t' == t
      ensures HasValid(PyGame.ValidVector(b)) ==>
        t'.ns[Signature(b)] > t.ns[Signature(b)]
        && 0 <= a < ActionSize && PyGame.ValidVector(b)[a] == 1
        && Get(t'.nsa, (Signature(b), a)) > Get(t.nsa, (Signature(b), a))
        && BackedLast(bk', (Signature(b), a), -v)
    {
      var s := Signature(b);
      var valids := game.GetValidMoves(b);
      a := SelectAction(t.qsa, t.nsa, s, t.ps[s], t.ns[s], valids, cpuct, sqrt);
      if a == -1 {
        return 0.0, t, bk, a;
      }
      v, t', bk' := Backup(b, depth, a, t, bk);
    }

    /** Recursion on the child reached by the legal action a and the update
        of the edge (s, a): one more visit on the edge and on s, and Q the
        running mean. */
    method Backup(b: Board, depth: int, a: int, t: Tables, ghost bk: map<Edge, seq<real>>)
      returns (v: real, t': Tables, ghost bk': map<Edge, seq<real>>)
      requires RemoteOk(t, bk, predict) && PieceCodes(b) && depth <= 100
      requires Signature(b) in t.ps
      requires 0 <= a < ActionSize && PyGame.ValidVector(b)[a] == 1
      decreases 101 - depth, 0
      ensures RemoteOk(t', bk', predict) && Grown(t, t')
      ensures t'.ns[Signature(b)] > t.ns[Signature(b)]
      ensures Get(t'.nsa, (Signature(b), a)) > Get(t.nsa, (Signature(b), a))
      ensures BackedLast(bk', (Signature(b), a), -v)
    {
      var s := Signature(b);
      MoveIndexableOfAction(a);
      var (nextBoard, nextPlayer) := NextState(b, 1, a);
      ChildIsMoveInPlace(b, 1, a);
      MoveKeepsCodes(b, Decode(a));
      var child: Tables;
      ghost var childBk: map<Edge, seq<real>>;
      var childV: real;
      ghost var childA: int;
      childV, child, childBk, childA := Search(Canonical(nextBoard, nextPlayer), depth + 1, t, bk);
      BackupAfter(t, child, childBk, predict, b, s, a, childV);
      BackupNoSentinel(child, s, a, childV);
      t', bk' := BackedUp(child, s, a, childV), Appended(childBk, (s, a), childV);
      v := -childV;
    }

    /** The simulation loop of get_action_prob: numSims searches from b,
        each on the tables the previous one left. */
    method Simulate(b: Board)
      requires Valid() && PieceCodes(b)
      modifies this
      ensures Valid()
      ensures Grown(old(Tables(Qsa, Nsa, Ns, Ps, Es)), Tables(Qsa, Nsa, Ns, Ps, Es))
    {
      var t := Tables(Qsa, Nsa, Ns, Ps, Es);
      ghost var t0 := t;
      ghost var bk := backed;
      for i := 0 to numSims
        invariant RemoteOk(t, bk, predict) && Grown(t0, t)
      {
        var value;
        ghost var before, picked := t, 0;
        value, t, bk, picked := Search(b, 0, t, bk);
        GrownTrans(t0, before, t);
      }
      Qsa, Nsa, Ns, Ps, Es, backed := t.qsa, t.nsa, t.ns, t.ps, t.es, bk;
      TablesEta(t);
    }

    /** get_action_prob: run the simulations, then read the visit counts of
        the root's actions 0 .. 8099. With temp = 0 all mass goes to one
        action of largest count; otherwise the powered counts are divided
        by their total when it is positive, and all zeros are returned when
        it is not. */
    method GetActionProb(b: Board, temp: real, power: real -> real, pick: nat) returns (probs: seq<real>)
      requires Valid() && PieceCodes(b)
      modifies this
      ensures Valid()
      ensures Grown(old(Tables(Qsa, Nsa, Ns, Ps, Es)), Tables(Qsa, Nsa, Ns, Ps, Es))
      ensures |probs| == ActionSize
      ensures Signature(b) in Ns ==> Ns[Signature(b)] == IntSum(Counts(Nsa, Signature(b)))
      ensures temp == 0.0 ==> probs == Greedy(Counts(Nsa, Signature(b)), pick)
      ensures temp != 0.0 && Sum(Powered(Counts(Nsa, Signature(b)), power)) > 0.0 ==>
        var powered := Powered(Counts(Nsa, Signature(b)), power);
        probs == Divide(powered, Sum(powered)) && Sum(probs) == 1.0
      ensures temp != 0.0 && Sum(Powered(Counts(Nsa, Signature(b)), power)) <= 0.0 ==>
        probs == Zeros(ActionSize)
    {
      Simulate(b);
      var s := Signature(b);
      if s in Ns {
        VisitsCounted(Tables(Qsa, Nsa, Ns, Ps, Es), backed, predict, s);
      }
      var counts := Counts(Nsa, s);
      if temp == 0.0 {
        return Greedy(counts, pick);
      }
      var powered := Powered(counts, power);
      var countsSum := Sum(powered);
      if countsSum > 0.0 {
        Normalised(powered);
        probs := Divide(powered, countsSum);
      } else {
        probs := Zeros(|counts|);
      }
    }
  }
}
