/** The bookkeeping the tree searches of the training back end share
    (backend/rl/algorithms/mcts.py, backend/mcts.py and RemoteMCTS in
    backend/rl/workers/self_play.py): statistics keyed by a board's
    signature (string_representation) and by a (signature, action) edge,
    the masked and normalised leaf policy, the UCB score of an edge, the
    running mean an edge's Q value keeps, and the visit-count vectors
    get_action_prob turns into probabilities. The square root, the
    temperature power and the network are left uninterpreted: they are
    parameters of type real -> real and Tensor -> (policy, value). */
module MctsStats {
  import opened Scores
  import opened PyBoard
  import PyGame

  /** string_representation: the board's cells in row-major order. */
  type Sig = seq<int>
  type Edge = (Sig, int)

  /** The 1e-8 the source adds under the square root and to unvisited edges. */
  const Epsilon: real := 0.00000001

  // ---------------------------------------------------------------------
  // Visit counts

  /** dict.get(e, 0) */
  function Get(m: map<Edge, nat>, e: Edge): nat {
    if e in m then m[e] else 0
  }

  /** Visits recorded on the actions 0 .. n-1 of the state s. */
  function EdgeSum(nsa: map<Edge, nat>, s: Sig, n: nat): nat {
    if n == 0 then 0 else EdgeSum(nsa, s, n - 1) + Get(nsa, (s, n - 1))
  }

  /** One more visit on the edge (s, a) adds one to the sum of s when a is
      among the summed actions, and nothing to the sum of any other state. */
  lemma {:induction false} EdgeSumBump(nsa: map<Edge, nat>, s: Sig, a: int, t: Sig, n: nat)
    ensures EdgeSum(nsa[(s, a) := Get(nsa, (s, a)) + 1], t, n)
         == EdgeSum(nsa, t, n) + (if t == s && 0 <= a < n then 1 else 0)
  {
    if n > 0 {
      EdgeSumBump(nsa, s, a, t, n - 1);
    }
  }

  /** Edges outside the summed range do not count. */
  lemma {:induction false} EdgeSumFresh(nsa: map<Edge, nat>, t: Sig, n: nat)
    requires forall e :: e in nsa ==> e.0 != t
    ensures EdgeSum(nsa, t, n) == 0
  {
    if n > 0 {
      EdgeSumFresh(nsa, t, n - 1);
    }
  }

  /** counts = [Nsa.get((s, a), 0) for a in range(8100)] */
  function Counts(nsa: map<Edge, nat>, s: Sig): (c: seq<int>)
    ensures |c| == ActionSize
    ensures forall a :: 0 <= a < ActionSize ==> c[a] == Get(nsa, (s, a))
  {
    seq(ActionSize, a requires 0 <= a < ActionSize => Get(nsa, (s, a)))
  }

  function IntSum(c: seq<int>): int {
    if |c| == 0 then 0 else IntSum(c[..|c| - 1]) + c[|c| - 1]
  }

  /** The counts vector adds up to the visits recorded on the actions 0 .. 8099. */
  lemma CountsTotal(nsa: map<Edge, nat>, s: Sig)
    ensures IntSum(Counts(nsa, s)) == EdgeSum(nsa, s, ActionSize)
  {
    var c := Counts(nsa, s);
    for n := 0 to ActionSize
      invariant IntSum(c[..n]) == EdgeSum(nsa, s, n)
    {
      assert c[..n + 1][..n] == c[..n];
    }
    assert c[..ActionSize] == c;
  }

  // ---------------------------------------------------------------------
  // Sums of real vectors and normalisation

  function Sum(v: seq<real>): real {
    if |v| == 0 then 0.0 else Sum(v[..|v| - 1]) + v[|v| - 1]
  }

  /** v / d elementwise (numpy's in-place division). */
  function Divide(v: seq<real>, d: real): (r: seq<real>)
    requires d != 0.0
    ensures |r| == |v| && forall i :: 0 <= i < |v| ==> r[i] == v[i] / d
  {
    seq(|v|, i requires 0 <= i < |v| => v[i] / d)
  }

  lemma {:induction false} SumDivide(v: seq<real>, d: real)
    requires d != 0.0
    ensures Sum(Divide(v, d)) == Sum(v) / d
  {
    if |v| > 0 {
      var n := |v| - 1;
      assert Divide(v, d)[..n] == Divide(v[..n], d);
      SumDivide(v[..n], d);
    }
  }

  /** Dividing by its own non-zero total makes a vector sum to one. */
  lemma Normalised(v: seq<real>)
    requires Sum(v) != 0.0
    ensures Sum(Divide(v, Sum(v))) == 1.0
  {
    var t := Sum(v);
    SumDivide(v, t);
    assert t / t == 1.0;
  }

  function Zeros(n: nat): (r: seq<real>)
    ensures |r| == n && forall i :: 0 <= i < n ==> r[i] == 0.0
  {
    seq(n, _ => 0.0)
  }

  lemma {:induction false} SumZeros(n: nat)
    ensures Sum(Zeros(n)) == 0.0
  {
    if n > 0 {
      assert Zeros(n)[..n - 1] == Zeros(n - 1);
      SumZeros(n - 1);
    }
  }

  /** A non-negative vector with a non-positive total is all zeros. */
  lemma {:induction false} NonNegZeroSum(v: seq<real>)
    requires forall i :: 0 <= i < |v| ==> v[i] >= 0.0
    requires Sum(v) <= 0.0
    ensures forall i :: 0 <= i < |v| ==> v[i] == 0.0
  {
    if |v| > 0 {
      var n := |v| - 1;
      SumNonNeg(v[..n]);
      NonNegZeroSum(v[..n]);
      forall i | 0 <= i < |v| ensures v[i] == 0.0 {
        if i < n { assert v[..n][i] == v[i]; }
      }
    }
  }

  lemma {:induction false} SumNonNeg(v: seq<real>)
    requires forall i :: 0 <= i < |v| ==> v[i] >= 0.0
    ensures Sum(v) >= 0.0
  {
    if |v| > 0 {
      SumNonNeg(v[..|v| - 1]);
    }
  }

  // ---------------------------------------------------------------------
  // The leaf policy

  /** The 0/1 valid-action vector as reals. */
  function AsReal(valids: seq<int>): (r: seq<real>)
    ensures |r| == |valids| && forall i :: 0 <= i < |valids| ==> r[i] == valids[i] as real
  {
    seq(|valids|, i requires 0 <= i < |valids| => valids[i] as real)
  }

  /** policy * valids */
  function Mask(policy: seq<real>, valids: seq<int>): (r: seq<real>)
    requires |policy| == |valids|
    ensures |r| == |policy| && forall i :: 0 <= i < |policy| ==> r[i] == policy[i] * valids[i] as real
  {
    seq(|policy|, i requires 0 <= i < |policy| => policy[i] * valids[i] as real)
  }

  predicate IsZeroOne(valids: seq<int>) {
    forall i :: 0 <= i < |valids| ==> valids[i] == 0 || valids[i] == 1
  }

  predicate HasValid(valids: seq<int>) {
    exists i :: 0 <= i < |valids| && valids[i] == 1
  }

  /** The policy stored for a freshly expanded state: the network's policy
      masked by the valid actions and normalised, or, when the masked
      policy has no positive mass, uniform over the valid actions, or the
      zero vector when there is none. */
  function LeafPolicy(policy: seq<real>, valids: seq<int>): (p: seq<real>)
    requires |policy| == |valids|
    ensures |p| == |valids|
  {
    var masked := Mask(policy, valids);
    if Sum(masked) > 0.0 then Divide(masked, Sum(masked))
    else if Sum(AsReal(valids)) > 0.0 then Divide(AsReal(valids), Sum(AsReal(valids)))
    else AsReal(valids)
  }

  /** The number of valid actions, as a real. */
  lemma {:induction false} ValidCount(valids: seq<int>)
    requires IsZeroOne(valids)
    ensures Sum(AsReal(valids)) >= 0.0
    ensures HasValid(valids) ==> Sum(AsReal(valids)) >= 1.0
  {
    if |valids| > 0 {
      var n := |valids| - 1;
      assert AsReal(valids)[..n] == AsReal(valids[..n]);
      ValidCount(valids[..n]);
      if HasValid(valids) && !HasValid(valids[..n]) {
        assert valids[n] == 1;
      }
    }
  }

  /** What the stored policy promises: no mass on an invalid action, a
      probability vector whenever some action is valid (else all zeros),
      and the uniform distribution over the valid actions when the masked
      network policy has no positive mass. */
  ghost predicate LeafPolicyOk(policy: seq<real>, valids: seq<int>, p: seq<real>)
    requires |policy| == |valids|
  {
    |p| == |valids|
    && (forall a :: 0 <= a < |valids| && valids[a] == 0 ==> p[a] == 0.0)
    && (HasValid(valids) ==> Sum(p) == 1.0)
    && (!HasValid(valids) ==> forall a :: 0 <= a < |valids| ==> p[a] == 0.0)
    && (Sum(Mask(policy, valids)) <= 0.0 && Sum(AsReal(valids)) > 0.0 ==>
          forall a :: 0 <= a < |valids| && valids[a] == 1 ==> p[a] == 1.0 / Sum(AsReal(valids)))
  }

  /** The first branch: the masked policy, normalised. */
  lemma LeafMasked(policy: seq<real>, valids: seq<int>)
    requires |policy| == |valids| && IsZeroOne(valids) && Sum(Mask(policy, valids)) > 0.0
    ensures LeafPolicyOk(policy, valids, LeafPolicy(policy, valids))
  {
    var masked := Mask(policy, valids);
    var p := LeafPolicy(policy, valids);
    assert p == Divide(masked, Sum(masked));
    Normalised(masked);
    forall a | 0 <= a < |valids| && valids[a] == 0 ensures p[a] == 0.0 {
      assert masked[a] == 0.0;
    }
  }

  /** The second branch: uniform over the valid actions. */
  lemma LeafUniform(policy: seq<real>, valids: seq<int>)
    requires |policy| == |valids| && IsZeroOne(valids)
    requires Sum(Mask(policy, valids)) <= 0.0 && Sum(AsReal(valids)) > 0.0
    ensures LeafPolicyOk(policy, valids, LeafPolicy(policy, valids))
  {
    var u := AsReal(valids);
    var p := LeafPolicy(policy, valids);
    assert p == Divide(u, Sum(u));
    Normalised(u);
    forall a | 0 <= a < |valids| && valids[a] == 0 ensures p[a] == 0.0 {
      assert u[a] == 0.0;
    }
    forall a | 0 <= a < |valids| && valids[a] == 1 ensures p[a] == 1.0 / Sum(u) {
      assert u[a] == 1.0;
    }
  }

  /** The stored policy keeps every promise of LeafPolicyOk. */
  lemma LeafPolicyFacts(policy: seq<real>, valids: seq<int>)
    requires |policy| == |valids| && IsZeroOne(valids)
    ensures LeafPolicyOk(policy, valids, LeafPolicy(policy, valids))
  {
    ValidCount(valids);
    if Sum(Mask(policy, valids)) > 0.0 {
      LeafMasked(policy, valids);
    } else if Sum(AsReal(valids)) > 0.0 {
      LeafUniform(policy, valids);
    } else {
      assert LeafPolicy(policy, valids) == AsReal(valids);
    }
  }

  /** With a non-negative network policy the stored policy is non-negative. */
  lemma LeafPolicyNonNeg(policy: seq<real>, valids: seq<int>)
    requires |policy| == |valids| && IsZeroOne(valids)
    requires forall i :: 0 <= i < |policy| ==> policy[i] >= 0.0
    ensures forall a :: 0 <= a < |valids| ==> LeafPolicy(policy, valids)[a] >= 0.0
  {
    ValidCount(valids);
  }

  // ---------------------------------------------------------------------
  // The network and the cached statistics of a state

  /** The network answers every tensor with one non-negative prior per
      action (the exponential of a log-softmax) and a value. */
  ghost predicate OracleOk(predict: PyGame.Tensor -> (seq<real>, real)) {
    forall t :: |predict(t).0| == ActionSize && forall a :: 0 <= a < ActionSize ==> predict(t).0[a] >= 0.0
  }

  /** The policy the search stores for the board b. */
  function LeafOf(predict: PyGame.Tensor -> (seq<real>, real), b: Board): seq<real>
    requires |predict(PyGame.Planes(b)).0| == ActionSize
  {
    LeafPolicy(predict(PyGame.Planes(b)).0, PyGame.ValidVector(b))
  }

  /** Boards whose cells hold piece codes (-7 .. 7), as every position of
      the game does. */
  predicate PieceCodes(b: Board) {
    forall y, x :: 0 <= y < Height && 0 <= x < Width ==> -7 <= b[y][x] <= 7
  }

  /** Moving a piece (also the numpy-wrapped move of action -1) keeps the cells piece codes. */
  lemma MoveKeepsCodes(b: Board, m: Move)
    requires PieceCodes(b) && MoveIndexable(m)
    ensures PieceCodes(MoveCells(b, m)) && PyGame.CodesInRange(MoveCells(b, m))
  {
  }

  /** The caches of Es, Ps and Ns: the terminal value recorded for a
      board's signature is get_game_ended of that board, the policy stored
      for a board's signature is the leaf policy of that board, every
      stored policy belongs to an undecided state and has one prior per
      action, and exactly the expanded states have a visit count. */
  ghost predicate CacheOk(es: map<Sig, int>, ps: map<Sig, seq<real>>, ns: map<Sig, nat>,
                          predict: PyGame.Tensor -> (seq<real>, real))
  {
    OracleOk(predict)
    && (forall b: Board :: Signature(b) in es ==> es[Signature(b)] == GameEnded(b))
    && (forall b: Board {:trigger LeafOf(predict, b)} :: Signature(b) in ps ==> ps[Signature(b)] == LeafOf(predict, b))
    && (forall s :: s in ps ==> s in es && es[s] == 0 && |ps[s]| == ActionSize)
    && ns.Keys == ps.Keys
  }

  /** The five dictionaries of a search: Qsa, Nsa, Ns, Ps and Es. */
  datatype Tables = Tables(qsa: map<Edge, real>, nsa: map<Edge, nat>, ns: map<Sig, nat>,
                           ps: map<Sig, seq<real>>, es: map<Sig, int>)

  /** A table value is the tuple of its five dictionaries. */
  lemma TablesEta(t: Tables)
    ensures t == Tables(t.qsa, t.nsa, t.ns, t.ps, t.es)
  {
  }

  /** What a search may do to the tables: keep every recorded terminal
      value and every stored policy, never lower a visit count. */
  ghost predicate Grown(t0: Tables, t1: Tables) {
    (forall s :: s in t0.es ==> s in t1.es && t1.es[s] == t0.es[s])
    && (forall s :: s in t0.ps ==> s in t1.ps && t1.ps[s] == t0.ps[s])
    && (forall s :: s in t0.ns ==> s in t1.ns && t0.ns[s] <= t1.ns[s])
    && (forall e :: e in t0.nsa ==> e in t1.nsa && t0.nsa[e] <= t1.nsa[e])
  }

  // ---------------------------------------------------------------------
  // Edge values

  /** The upper confidence bound of an edge: Q plus the exploration term
      for a visited edge, the exploration term plus 1e-8 for a new one. */
  function Ucb(q: Option<real>, visits: nat, prior: real, sqrtVisits: real, cpuct: real): real {
    match q
    case Some(qv) => qv + cpuct * prior * sqrtVisits / (1.0 + visits as real)
    case None => cpuct * prior * sqrtVisits + Epsilon
  }

  /** The selection rule: best is valid, no valid action scores higher, and
      every valid action before it scores strictly lower (the first maximum
      of a scan with a strict comparison). */
  predicate FirstBest(valids: seq<int>, u: seq<real>, best: int)
    requires |u| == |valids|
  {
    0 <= best < |valids| && valids[best] == 1
    && (forall a :: 0 <= a < |valids| && valids[a] == 1 ==> u[a] <= u[best])
    && (forall a :: 0 <= a < best && valids[a] == 1 ==> u[a] < u[best])
  }

  /** The selection rule determines the action. */
  lemma FirstBestUnique(valids: seq<int>, u: seq<real>, a1: int, a2: int)
    requires |u| == |valids| && FirstBest(valids, u, a1) && FirstBest(valids, u, a2)
    ensures a1 == a2
  {
  }

  /** The UCB score of every action of the state s. */
  function UcbScores(qsa: map<Edge, real>, nsa: map<Edge, nat>, s: Sig, prior: seq<real>,
                  sqrtVisits: real, cpuct: real): (u: seq<real>)
    ensures |u| == |prior|
  {
    seq(|prior|, a requires 0 <= a < |prior| =>
      Ucb(if (s, a) in qsa then Some(qsa[(s, a)]) else None, Get(nsa, (s, a)), prior[a], sqrtVisits, cpuct))
  }

  /** The selection loop of search: scan the valid actions in increasing
      order and keep the first one of highest UCB; -1 when no action is
      valid. */
  method SelectAction(qsa: map<Edge, real>, nsa: map<Edge, nat>, s: Sig, prior: seq<real>,
                      sVisits: nat, valids: seq<int>, cpuct: real, sqrt: real -> real) returns (best: int)
    requires qsa.Keys <= nsa.Keys
    requires |prior| == |valids| && IsZeroOne(valids)
    ensures best == -1 <==> !HasValid(valids)
    ensures best != -1 ==> FirstBest(valids, UcbScores(qsa, nsa, s, prior, sqrt(sVisits as real + Epsilon), cpuct), best)
  {
    var sqrtSVisits := sqrt(sVisits as real + Epsilon);
    ghost var scores := UcbScores(qsa, nsa, s, prior, sqrtSVisits, cpuct);
    // cur_best starts at minus infinity: any first valid action replaces it
    var curBest: real := 0.0;
    best := -1;
    for a := 0 to |valids|
      invariant best == -1 <==> forall j :: 0 <= j < a ==> valids[j] != 1
      invariant best != -1 ==> 0 <= best < a && valids[best] == 1 && curBest == scores[best]
      invariant best != -1 ==> forall j :: 0 <= j < a && valids[j] == 1 ==> scores[j] <= curBest
      invariant best != -1 ==> forall j :: 0 <= j < best && valids[j] == 1 ==> scores[j] < curBest
    {
      if valids[a] == 1 {
        var q := if (s, a) in qsa then Some(qsa[(s, a)]) else None;
        var u := Ucb(q, Get(nsa, (s, a)), prior[a], sqrtSVisits, cpuct);
        if best == -1 || u > curBest {
          curBest := u;
          best := a;
        }
      }
    }
  }

  function Mean(vs: seq<real>): real
    requires |vs| > 0
  {
    Sum(vs) / |vs| as real
  }

  /** The update Qsa := (n * Q + v) / (n + 1) keeps Q the mean of the values
      backed up through the edge. */
  lemma RunningMean(vs: seq<real>, v: real)
    requires |vs| > 0
    ensures Mean(vs + [v]) == (|vs| as real * Mean(vs) + v) / (|vs| as real + 1.0)
  {
    var n := |vs| as real;
    assert (vs + [v])[..|vs|] == vs;
    assert Sum(vs + [v]) == Sum(vs) + v;
    assert n * (Sum(vs) / n) == Sum(vs);
  }

  /** The source's update of a Q value: n visits with mean q, then v. */
  function Blend(n: nat, q: real, v: real): real {
    (n as real * q + v) / (n as real + 1.0)
  }

  /** RunningMean with the count and the mean given by name. */
  lemma MeanStep(vs: seq<real>, n: nat, q: real, v: real)
    requires |vs| == n > 0 && q == Mean(vs)
    ensures Mean(vs + [v]) == Blend(n, q, v)
  {
    RunningMean(vs, v);
  }

  lemma MeanSingle(v: real)
    ensures Mean([v]) == v
  {
    assert [v][..0] == [];
    assert Sum([v]) == Sum([]) + v;
  }

  /** Every edge with a visit count has a Q value that is the mean of the
      values backed up through it, one value per visit. */
  ghost predicate MeansOk(qsa: map<Edge, real>, nsa: map<Edge, nat>, backed: map<Edge, seq<real>>) {
    qsa.Keys == nsa.Keys && backed.Keys == nsa.Keys
    && forall e :: e in nsa ==> nsa[e] == |backed[e]| && nsa[e] > 0 && qsa[e] == Mean(backed[e])
  }

  /** Qsa after backing v up through e: the running-mean update of a known
      edge, v itself on a new one. */
  function BackedUpQ(qsa: map<Edge, real>, nsa: map<Edge, nat>, e: Edge, v: real): map<Edge, real>
    requires e in qsa ==> e in nsa
  {
    qsa[e := if e in qsa then Blend(nsa[e], qsa[e], v) else v]
  }

  /** Nsa after one more visit of e. */
  function BumpedN(nsa: map<Edge, nat>, e: Edge): map<Edge, nat> {
    nsa[e := Get(nsa, e) + 1]
  }

  function Appended(backed: map<Edge, seq<real>>, e: Edge, v: real): map<Edge, seq<real>> {
    backed[e := (if e in backed then backed[e] else []) + [v]]
  }

  /** The backup step of the source, both of its branches, keeps every Q
      value the mean of the values backed up through its edge. */
  lemma BackupKeepsMeans(qsa: map<Edge, real>, nsa: map<Edge, nat>, backed: map<Edge, seq<real>>, e: Edge, v: real)
    requires MeansOk(qsa, nsa, backed)
    ensures MeansOk(BackedUpQ(qsa, nsa, e, v), BumpedN(nsa, e), Appended(backed, e, v))
  {
    if e in qsa {
      BackupKnownEdge(qsa, nsa, backed, e, v);
    } else {
      BackupNewEdge(qsa, nsa, backed, e, v);
    }
  }

  lemma BackupKnownEdge(qsa: map<Edge, real>, nsa: map<Edge, nat>, backed: map<Edge, seq<real>>, e: Edge, v: real)
    requires MeansOk(qsa, nsa, backed) && e in qsa
    ensures MeansOk(BackedUpQ(qsa, nsa, e, v), BumpedN(nsa, e), Appended(backed, e, v))
  {
    var vs := backed[e];
    var q := Blend(nsa[e], qsa[e], v);
    MeanStep(vs, nsa[e], qsa[e], v);
    MeansUpdate(qsa, nsa, backed, e, q, vs + [v]);
    assert BackedUpQ(qsa, nsa, e, v) == qsa[e := q];
    assert BumpedN(nsa, e) == nsa[e := |vs + [v]|];
  }

  lemma BackupNewEdge(qsa: map<Edge, real>, nsa: map<Edge, nat>, backed: map<Edge, seq<real>>, e: Edge, v: real)
    requires MeansOk(qsa, nsa, backed) && e !in qsa
    ensures MeansOk(BackedUpQ(qsa, nsa, e, v), BumpedN(nsa, e), Appended(backed, e, v))
  {
    MeanSingle(v);
    MeansUpdate(qsa, nsa, backed, e, v, [v]);
    assert BumpedN(nsa, e) == nsa[e := |[v]|];
  }

  /** Replacing the values of one edge by a non-empty sequence, its count
      by their number and its Q value by their mean keeps the tables
      consistent. */
  lemma MeansUpdate(qsa: map<Edge, real>, nsa: map<Edge, nat>, backed: map<Edge, seq<real>>,
                    e: Edge, q: real, vs: seq<real>)
    requires MeansOk(qsa, nsa, backed) && |vs| > 0 && q == Mean(vs)
    ensures MeansOk(qsa[e := q], nsa[e := |vs|], backed[e := vs])
  {
  }

  // ---------------------------------------------------------------------
  // The invariant of the search tables and the steps that keep it

  /** Every edge leaves an expanded state, by one of the 8100 actions or
      by the sentinel -1, and an edge by an action leaves a board on which
      that action is legal. */
  ghost predicate EdgesOk(nsa: map<Edge, nat>, ns: map<Sig, nat>) {
    (forall e :: e in nsa ==> e.0 in ns && (e.1 == -1 || 0 <= e.1 < ActionSize))
    && (forall b: Board, a {:trigger LegalAction(b, a)} :: (Signature(b), a) in nsa && a != -1 ==> LegalAction(b, a))
  }

  /** The visit count of a state is the sum of the counts of its edges. */
  ghost predicate VisitsOk(ns: map<Sig, nat>, nsa: map<Edge, nat>) {
    forall s :: s in ns ==> ns[s] == EdgeSum(nsa, s, ActionSize) + Get(nsa, (s, -1))
  }

  /** The last value backed up through the edge e is x. */
  ghost predicate BackedLast(backed: map<Edge, seq<real>>, e: Edge, x: real) {
    e in backed && |backed[e]| > 0 && backed[e][|backed[e]| - 1] == x
  }

  /** After appending x to the values of e, x is the last of them. */
  lemma AppendedLast(backed: map<Edge, seq<real>>, e: Edge, x: real)
    ensures BackedLast(Appended(backed, e, x), e, x)
  {
  }

  ghost predicate TreeOk(t: Tables, backed: map<Edge, seq<real>>, predict: PyGame.Tensor -> (seq<real>, real)) {
    CacheOk(t.es, t.ps, t.ns, predict) && MeansOk(t.qsa, t.nsa, backed) && EdgesOk(t.nsa, t.ns) && VisitsOk(t.ns, t.nsa)
  }

  /** Recording get_game_ended of a board keeps the tables consistent. */
  lemma RecordEnded(t: Tables, backed: map<Edge, seq<real>>, predict: PyGame.Tensor -> (seq<real>, real), b: Board)
    requires TreeOk(t, backed, predict)
    ensures TreeOk(t.(es := t.es[Signature(b) := GameEnded(b)]), backed, predict)
    ensures Signature(b) !in t.es ==> Grown(t, t.(es := t.es[Signature(b) := GameEnded(b)]))
  {
    var es := t.es[Signature(b) := GameEnded(b)];
    forall c: Board | Signature(c) in es ensures es[Signature(c)] == GameEnded(c) {
      SignatureInjective(b);
      SignatureInjective(c);
    }
  }

  /** Expanding a recorded, undecided, new state with its leaf policy and a
      visit count of 0 keeps the tables consistent. */
  lemma Expand(t: Tables, backed: map<Edge, seq<real>>, predict: PyGame.Tensor -> (seq<real>, real), b: Board)
    requires TreeOk(t, backed, predict)
    requires Signature(b) in t.es && t.es[Signature(b)] == 0 && Signature(b) !in t.ps
    ensures TreeOk(t.(ps := t.ps[Signature(b) := LeafOf(predict, b)], ns := t.ns[Signature(b) := 0]), backed, predict)
    ensures Grown(t, t.(ps := t.ps[Signature(b) := LeafOf(predict, b)], ns := t.ns[Signature(b) := 0]))
  {
    ExpandCache(t.es, t.ps, t.ns, predict, b);
    ExpandVisits(t.ns, t.nsa, Signature(b));
  }

  lemma ExpandCache(es: map<Sig, int>, ps: map<Sig, seq<real>>, ns: map<Sig, nat>,
                    predict: PyGame.Tensor -> (seq<real>, real), b: Board)
    requires CacheOk(es, ps, ns, predict)
    requires Signature(b) in es && es[Signature(b)] == 0
    ensures CacheOk(es, ps[Signature(b) := LeafOf(predict, b)], ns[Signature(b) := 0], predict)
  {
    assert |LeafOf(predict, b)| == ActionSize;
    var ps' := ps[Signature(b) := LeafOf(predict, b)];
    forall c: Board | Signature(c) in ps' ensures ps'[Signature(c)] == LeafOf(predict, c) {
      SignatureInjective(b);
      SignatureInjective(c);
    }
  }

  lemma ExpandVisits(ns: map<Sig, nat>, nsa: map<Edge, nat>, s: Sig)
    requires EdgesOk(nsa, ns) && VisitsOk(ns, nsa) && s !in ns
    ensures EdgesOk(nsa, ns[s := 0]) && VisitsOk(ns[s := 0], nsa)
  {
    EdgeSumFresh(nsa, s, ActionSize);
  }

  /** The tables after backing v up through the edge (s, a): the running
      mean and the count of the edge, and the count of s. */
  function BackedUp(t: Tables, s: Sig, a: int, v: real): (t': Tables)
    requires s in t.ns && ((s, a) in t.qsa ==> (s, a) in t.nsa)
    ensures t'.es == t.es && t'.ps == t.ps
  {
    t.(qsa := BackedUpQ(t.qsa, t.nsa, (s, a), v), nsa := BumpedN(t.nsa, (s, a)), ns := t.ns[s := t.ns[s] + 1])
  }

  /** Backing a value up through the edge (s, a) of an expanded state, by
      one of the actions or by the sentinel, keeps the tables consistent. */
  lemma BackupStep(t: Tables, backed: map<Edge, seq<real>>, predict: PyGame.Tensor -> (seq<real>, real),
                   b: Board, s: Sig, a: int, v: real)
    requires TreeOk(t, backed, predict)
    requires s == Signature(b) && s in t.ns && (a == -1 || LegalAction(b, a))
    ensures (s, a) in t.qsa ==> (s, a) in t.nsa
    ensures TreeOk(BackedUp(t, s, a, v), Appended(backed, (s, a), v), predict)
  {
    BackupCache(t, predict, s, a, v);
    BackupEdges(t, b, s, a, v);
    BackupVisits(t, s, a, v);
    BackupMeans(t, backed, s, a, v);
  }

  lemma BackupCache(t: Tables, predict: PyGame.Tensor -> (seq<real>, real), s: Sig, a: int, v: real)
    requires CacheOk(t.es, t.ps, t.ns, predict)
    requires s in t.ns && ((s, a) in t.qsa ==> (s, a) in t.nsa)
    ensures var t' := BackedUp(t, s, a, v); CacheOk(t'.es, t'.ps, t'.ns, predict)
  {
    RecountKeepsCache(t.es, t.ps, t.ns, predict, s, t.ns[s] + 1);
  }

  lemma BackupMeans(t: Tables, backed: map<Edge, seq<real>>, s: Sig, a: int, v: real)
    requires MeansOk(t.qsa, t.nsa, backed) && s in t.ns
    ensures (s, a) in t.qsa ==> (s, a) in t.nsa
    ensures MeansOk(BackedUp(t, s, a, v).qsa, BackedUp(t, s, a, v).nsa, Appended(backed, (s, a), v))
  {
    BackupKeepsMeans(t.qsa, t.nsa, backed, (s, a), v);
  }

  lemma ActionInRange(b: Board, a: int)
    requires LegalAction(b, a)
    ensures 0 <= a < ActionSize
  {
  }

  /** Changing the visit count of a recorded state keeps the caches. */
  lemma RecountKeepsCache(es: map<Sig, int>, ps: map<Sig, seq<real>>, ns: map<Sig, nat>,
                          predict: PyGame.Tensor -> (seq<real>, real), s: Sig, n: nat)
    requires CacheOk(es, ps, ns, predict) && s in ns
    ensures CacheOk(es, ps, ns[s := n], predict)
  {
    assert ns[s := n].Keys == ns.Keys;
  }

  lemma BackupEdges(t: Tables, b: Board, s: Sig, a: int, v: real)
    requires EdgesOk(t.nsa, t.ns)
    requires s == Signature(b) && s in t.ns && (a == -1 || LegalAction(b, a))
    requires (s, a) in t.qsa ==> (s, a) in t.nsa
    ensures EdgesOk(BackedUp(t, s, a, v).nsa, BackedUp(t, s, a, v).ns)
  {
    var nsa' := BackedUp(t, s, a, v).nsa;
    forall c: Board, a' | (Signature(c), a') in nsa' && a' != -1 ensures LegalAction(c, a') {
      if (Signature(c), a') == (s, a) {
        SignatureInjective(b);
        SignatureInjective(c);
      }
    }
  }

  lemma BackupVisits(t: Tables, s: Sig, a: int, v: real)
    requires VisitsOk(t.ns, t.nsa)
    requires s in t.ns && (a == -1 || 0 <= a < ActionSize) && ((s, a) in t.qsa ==> (s, a) in t.nsa)
    ensures VisitsOk(BackedUp(t, s, a, v).ns, BackedUp(t, s, a, v).nsa)
  {
    var ns', nsa' := t.ns[s := t.ns[s] + 1], BumpedN(t.nsa, (s, a));
    forall u | u in ns' ensures ns'[u] == EdgeSum(nsa', u, ActionSize) + Get(nsa', (u, -1)) {
      EdgeSumBump(t.nsa, s, a, u, ActionSize);
    }
  }

  /** Grown tables still hold what they held, with no fewer visits. */
  lemma GrownAt(t0: Tables, t1: Tables, s: Sig, e: Edge)
    requires Grown(t0, t1)
    ensures s in t0.ps ==> s in t1.ps && t1.ps[s] == t0.ps[s]
    ensures s in t0.ns ==> s in t1.ns && t0.ns[s] <= t1.ns[s]
    ensures Get(t0.nsa, e) <= Get(t1.nsa, e)
  {
  }

  /** One backup step grows the tables and adds a visit to the edge and to
      its state. */
  lemma BackupGrows(t: Tables, s: Sig, a: int, v: real)
    requires s in t.ns && ((s, a) in t.qsa ==> (s, a) in t.nsa)
    ensures Grown(t, BackedUp(t, s, a, v))
    ensures BackedUp(t, s, a, v).ns[s] == t.ns[s] + 1
    ensures Get(BackedUp(t, s, a, v).nsa, (s, a)) == Get(t.nsa, (s, a)) + 1
  {
  }

  /** Growth of the tables composes. */
  lemma GrownTrans(t0: Tables, t1: Tables, t2: Tables)
    requires Grown(t0, t1) && Grown(t1, t2)
    ensures Grown(t0, t2)
  {
  }

  /** The backup of x through (s, a) after a recursion that took the
      tables from t to child: the tables stay consistent and grown from t,
      s and (s, a) gain a visit over t, and x is the last value backed up
      through (s, a). */
  lemma BackupAfter(t: Tables, child: Tables, childBacked: map<Edge, seq<real>>,
                    predict: PyGame.Tensor -> (seq<real>, real), b: Board, s: Sig, a: int, x: real)
    requires TreeOk(child, childBacked, predict) && Grown(t, child)
    requires s == Signature(b) && s in t.ns && (a == -1 || LegalAction(b, a))
    ensures (s, a) in child.qsa ==> (s, a) in child.nsa
    ensures TreeOk(BackedUp(child, s, a, x), Appended(childBacked, (s, a), x), predict)
    ensures Grown(t, BackedUp(child, s, a, x))
    ensures BackedUp(child, s, a, x).ns[s] > t.ns[s]
    ensures Get(BackedUp(child, s, a, x).nsa, (s, a)) > Get(t.nsa, (s, a))
    ensures BackedLast(Appended(childBacked, (s, a), x), (s, a), x)
  {
    GrownAt(t, child, s, (s, a));
    BackupStep(child, childBacked, predict, b, s, a, x);
    BackupGrows(child, s, a, x);
    GrownTrans(t, child, BackedUp(child, s, a, x));
    AppendedLast(childBacked, (s, a), x);
  }

  // ---------------------------------------------------------------------
  // From visit counts to probabilities

  function MaxCount(c: seq<int>): (m: int)
    requires |c| > 0
    ensures forall i :: 0 <= i < |c| ==> c[i] <= m
    ensures exists i :: 0 <= i < |c| && c[i] == m
  {
    if |c| == 1 then c[0]
    else
      var r := MaxCount(c[..|c| - 1]);
      assert forall i :: 0 <= i < |c| - 1 ==> c[..|c| - 1][i] == c[i];
      if c[|c| - 1] > r then c[|c| - 1] else r
  }

  /** np.argwhere(counts == m): the indices holding m, ascending. */
  function ArgWhere(c: seq<int>, m: int): (idx: seq<int>)
    ensures forall j :: 0 <= j < |idx| ==> 0 <= idx[j] < |c| && c[idx[j]] == m
    ensures forall i :: 0 <= i < |c| && c[i] == m ==> i in idx
  {
    if |c| == 0 then []
    else
      var r := ArgWhere(c[..|c| - 1], m);
      if c[|c| - 1] == m then r + [|c| - 1] else r
  }

  /** [0] * n with a 1 at a. */
  function OneHot(n: nat, a: int): (p: seq<real>)
    ensures |p| == n && forall i :: 0 <= i < n ==> p[i] == (if i == a then 1.0 else 0.0)
  {
    seq(n, i => if i == a then 1.0 else 0.0)
  }

  lemma {:induction false} OneHotSum(n: nat, a: int)
    requires 0 <= a < n
    ensures Sum(OneHot(n, a)) == 1.0
  {
    if n - 1 == a {
      assert OneHot(n, a)[..n - 1] == Zeros(n - 1);
      SumZeros(n - 1);
    } else {
      assert OneHot(n, a)[..n - 1] == OneHot(n - 1, a);
      OneHotSum(n - 1, a);
    }
  }

  /** The greedy (temp = 0) answer: all mass on the pick-th action of largest
      count, the pick standing for np.random.choice among them. */
  function Greedy(counts: seq<int>, pick: nat): (p: seq<real>)
    requires |counts| > 0
    ensures |p| == |counts| && Sum(p) == 1.0
    ensures exists a :: (0 <= a < |counts| && counts[a] == MaxCount(counts)
                         && forall i :: 0 <= i < |counts| ==> p[i] == (if i == a then 1.0 else 0.0))
  {
    var bestAs := ArgWhere(counts, MaxCount(counts));
    var i :| 0 <= i < |counts| && counts[i] == MaxCount(counts);
    assert i in bestAs;
    var a := bestAs[pick % |bestAs|];
    OneHotSum(|counts|, a);
    OneHot(|counts|, a)
  }

  /** [x ** (1 / temp) for x in counts], the power left uninterpreted. */
  function Powered(counts: seq<int>, power: real -> real): (r: seq<real>)
    ensures |r| == |counts| && forall i :: 0 <= i < |counts| ==> r[i] == power(counts[i] as real)
  {
    seq(|counts|, i requires 0 <= i < |counts| => power(counts[i] as real))
  }
}
