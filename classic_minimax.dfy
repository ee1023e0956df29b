/** MinimaxSolver of backend/classic/minimax.py: a depth-limited search over
    the canonical board (the side to move is always code-positive), with
    fail-soft alpha-beta pruning, proved against the unpruned value
    MinimaxValue, and the root move choice over a shuffled action list. */
module ClassicMinimax {
  import opened PyBoard
  import opened PyGame
  import opened ClassicEval
  import opened Scores

  /** np.where(valids[..n] == 1)[0]: the indices holding 1, in increasing order. */
  function Where(v: seq<int>, n: nat): (r: seq<int>)
    requires n <= |v|
    ensures forall i :: i in r <==> 0 <= i < n && v[i] == 1
    ensures forall i :: 0 <= i < |r| ==> 0 <= r[i] < n
  {
    if n == 0 then [] else Where(v, n - 1) + (if v[n - 1] == 1 then [n - 1] else [])
  }

  /** The indices come out in increasing order, each once. */
  lemma {:induction false} WhereIncreasing(v: seq<int>, n: nat)
    requires n <= |v|
    ensures forall i, j :: 0 <= i < j < |Where(v, n)| ==> Where(v, n)[i] < Where(v, n)[j]
  {
    if n > 0 {
      WhereIncreasing(v, n - 1);
      var r, p := Where(v, n), Where(v, n - 1);
      forall i, j | 0 <= i < j < |r| ensures r[i] < r[j] {
        assert r[i] == p[i] && 0 <= p[i] < n - 1;
        if j < |p| {
          assert r[j] == p[j] && p[i] < p[j];
        } else {
          assert r[j] == n - 1;
        }
      }
    }
  }

  /** The actions get_valid_moves(b, 1) marks, in increasing order. */
  function ValidActions(b: Board): (r: seq<int>)
    ensures forall a :: a in r <==> LegalAction(b, a)
    ensures forall i :: 0 <= i < |r| ==> 0 <= r[i] < ActionSize
  {
    Where(ValidVector(b), ActionSize)
  }

  /** The position a search reaches by action a: the decoded move applied
      in place (ChildIsNextCanonical: get_canonical_form of get_next_state). */
  function Child(b: Board, a: int): Board
    requires 0 <= a < ActionSize
  {
    MoveIndexableOfAction(a);
    MoveCells(b, Decode(a))
  }

  /** get_canonical_form(*get_next_state(b, 1, a)) is Child(b, a): the flip
      into the opponent's view and the flip back cancel. */
  lemma ChildIsNextCanonical(b: Board, a: int)
    requires 0 <= a < ActionSize
    ensures MoveIndexable(Decode(a))
    ensures var (nextBoard, nextPlayer) := NextState(b, 1, a);
      Canonical(nextBoard, nextPlayer) == Child(b, a)
  {
    MoveIndexableOfAction(a);
    ChildIsMoveInPlace(b, 1, a);
  }

  /** The value _minimax computes without pruning: a decided position is
      worth r * 10000, depth 0 the evaluation, no valid action a draw, and
      otherwise the best of the negated child values (the largest when
      maximizing, the smallest when not), each child searched with the same
      flag. */
  function MinimaxValue(b: Board, depth: nat, maximizing: bool): int
    decreases depth, 0
  {
    var r := GameEnded(b);
    if r != 0 then r * 10000
    else if depth == 0 then BoardScore(b)
    else
      var acts := ValidActions(b);
      if |acts| == 0 then 0
      else if maximizing then MaxOf(ChildScores(b, acts, depth - 1, true)).n
      else MinOf(ChildScores(b, acts, depth - 1, false)).n
  }

  predicate AllActions(acts: seq<int>) {
    forall i :: 0 <= i < |acts| ==> 0 <= acts[i] < ActionSize
  }

  /** The negated values of the children reached by acts, searched d plies
      deep with the flag given. */
  function ChildScores(b: Board, acts: seq<int>, d: nat, maximizing: bool): (s: seq<int>)
    requires AllActions(acts)
    ensures |s| == |acts|
    decreases d, 1
  {
    seq(|acts|, i requires 0 <= i < |acts| => -MinimaxValue(Child(b, acts[i]), d, maximizing))
  }

  /** The score get_best_move gives the root action a: the negated value of
      the child searched in the minimising mode with one ply less (the one
      entry of ChildScores for the list [a]). */
  function RootScore(b: Board, depth: nat, a: int): int
    requires depth >= 1 && 0 <= a < ActionSize
  {
    ChildScores(b, [a], depth - 1, false)[0]
  }

  /** a is the first action in order reaching the top root score. */
  predicate FirstBest(b: Board, depth: nat, order: seq<int>, a: int)
    requires depth >= 1 && AllActions(order) && 0 <= a < ActionSize
  {
    exists j :: 0 <= j < |order| && order[j] == a
      && forall k :: 0 <= k < j ==> RootScore(b, depth, order[k]) < RootScore(b, depth, a)
  }

  class MinimaxSolver {
    var game: XiangqiGame
    var depth: nat

    constructor (game: XiangqiGame, depth: nat)
      ensures this.game == game && this.depth == depth
    {
      this.game := game;
      this.depth := depth;
    }

    /** get_best_move: None when the side to move has no valid action;
        otherwise the shuffled actions are scored with a fresh full window
        each and the first strictly best one is returned. The shuffle stands
        for np.random.shuffle: any rearrangement keeping the same actions. */
    method GetBestMove(b: Board, shuffle: seq<int> -> seq<int>) returns (best: Option<int>)
      requires depth >= 1
      requires forall s, x :: x in shuffle(s) <==> x in s
      ensures best.None? <==> forall a :: !LegalAction(b, a)
      ensures best.Some? ==> LegalAction(b, best.value)
      ensures best.Some? ==>
        (forall a :: LegalAction(b, a) ==> RootScore(b, depth, a) <= RootScore(b, depth, best.value))
      ensures best.Some? ==>
        (AllActions(shuffle(ValidActions(b))) && FirstBest(b, depth, shuffle(ValidActions(b)), best.value))
    {
      var valids := game.GetValidMoves(b);
      var validActions := Where(valids, |valids|);
      assert validActions == ValidActions(b);
      if |validActions| == 0 {
        NoValidAction(b);
        return None;
      }
      var bestAction := validActions[0];
      validActions := shuffle(validActions);
      ShuffleKeepsActions(ValidActions(b), validActions);
      ghost var bestIndex;
      bestAction, bestIndex := BestOf(b, validActions, bestAction);
      best := Some(bestAction);
      BestMoveChoice(b, depth, shuffle, bestIndex);
    }

    /** The loop of get_best_move over the (shuffled) actions: each child is
        searched with the full window, and an action replaces the best so
        far only with a strictly larger score, the first action always. */
    method BestOf(b: Board, order: seq<int>, first: int) returns (bestAction: int, ghost bestIndex: int)
      requires depth >= 1 && AllActions(order) && |order| > 0
      ensures 0 <= bestIndex < |order| && bestAction == order[bestIndex]
      ensures var scores := ChildScores(b, order, depth - 1, false);
        (forall k :: 0 <= k < |order| ==> scores[k] <= scores[bestIndex])
        && (forall k :: 0 <= k < bestIndex ==> scores[k] < scores[bestIndex])
    {
      bestAction := first;
      var bestScore := NegInf;
      bestIndex := 0;
      ghost var scores := ChildScores(b, order, depth - 1, false);
      for i := 0 to |order|
        invariant BestInv(scores, i, bestIndex, bestScore)
        invariant i > 0 ==> bestAction == order[bestIndex]
      {
        var childValue := SearchChild(b, order, i, depth - 1, NegInf, PosInf, false);
        FailSoftFullWindow(childValue, Fin(-scores[i]));
        var score := -childValue;
        BestStep(scores, i, bestIndex, bestScore, score);
        if Lt(bestScore, Fin(score)) {
          bestScore := Fin(score);
          bestAction := order[i];
          bestIndex := i;
        }
      }
      BestEnd(scores, bestIndex, bestScore);
    }

    /** The child reached by acts[i] (get_next_state, then get_canonical_form)
        searched by _minimax with the given depth, window and flag: its
        result approximates the child's value, the negated score s[i]. */
    method SearchChild(b: Board, acts: seq<int>, i: nat, depth: nat, alpha: ExtInt, beta: ExtInt, maximizing: bool)
      returns (childValue: int)
      requires AllActions(acts) && i < |acts| && Lt(alpha, beta)
      ensures FailSoft(Fin(childValue), Fin(-ChildScores(b, acts, depth, maximizing)[i]), alpha, beta)
      decreases depth, 3
    {
      var action := acts[i];
      ChildIsNextCanonical(b, action);
      var (nextBoard, nextPlayer) := NextState(b, 1, action);
      var nextCanonical := Canonical(nextBoard, nextPlayer);
      childValue := Minimax(nextCanonical, depth, alpha, beta, maximizing);
    }

    /** _minimax: the terminal test, the depth test and the no-move test in
        that order, then the maximising or minimising loop with cutoff.
        The window is proper (alpha < beta), as at every call the source
        makes. */
    method Minimax(b: Board, depth: nat, alpha: ExtInt, beta: ExtInt, maximizing: bool) returns (value: int)
      requires Lt(alpha, beta)
      ensures FailSoft(Fin(value), Fin(MinimaxValue(b, depth, maximizing)), alpha, beta)
      decreases depth, 2
    {
      var r := GameEnded(b);
      if r != 0 {
        return r * 10000;
      }
      if depth == 0 {
        value := EvaluateBoard(b);
        return;
      }
      var valids := game.GetValidMoves(b);
      var validActions := Where(valids, |valids|);
      assert validActions == ValidActions(b);
      if |validActions| == 0 {
        return 0;
      }
      if maximizing {
        value := MaxLoop(b, depth, alpha, beta, validActions);
      } else {
        value := MinLoop(b, depth, alpha, beta, validActions);
      }
    }

    /** The maximising branch of _minimax: alpha rises with every child
        score, the children are searched with (-beta, -alpha), and the loop
        stops once beta <= alpha. */
    method MaxLoop(b: Board, depth: nat, alpha0: ExtInt, beta: ExtInt, validActions: seq<int>) returns (value: int)
      requires depth >= 1 && Lt(alpha0, beta) && AllActions(validActions) && |validActions| > 0
      ensures FailSoft(Fin(value), MaxOf(ChildScores(b, validActions, depth - 1, true)), alpha0, beta)
      decreases depth, 1
    {
      ghost var s := ChildScores(b, validActions, depth - 1, true);
      var maxEval := NegInf;
      var alpha := alpha0;
      var i := 0;
      MaxLoopStart(s, alpha0, beta);
      while i < |validActions|
        invariant MaxLoopInv(s, i, maxEval, alpha, alpha0, beta)
        decreases |validActions| - i
      {
        maxEval, alpha := MaxChild(b, depth, validActions, i, alpha0, beta, maxEval, alpha);
        i := i + 1;
        if Le(beta, alpha) {
          break;
        }
      }
      if i == |validActions| && !Le(beta, alpha) {
        MaxLoopEnd(s, maxEval, alpha, alpha0, beta);
      }
      value := maxEval.n;
    }

    /** The body of the maximising loop for the i-th action: the child is
        searched with (-beta, -alpha), and its negated result raises the
        maximum and alpha. */
    method MaxChild(b: Board, depth: nat, validActions: seq<int>, i: nat, ghost alpha0: ExtInt, beta: ExtInt,
                    maxEval: ExtInt, alpha: ExtInt)
      returns (maxEval': ExtInt, alpha': ExtInt)
      requires depth >= 1 && AllActions(validActions) && i < |validActions|
      requires MaxLoopInv(ChildScores(b, validActions, depth - 1, true), i, maxEval, alpha, alpha0, beta)
      ensures MaxAfter(ChildScores(b, validActions, depth - 1, true), i, maxEval', alpha', alpha0, beta)
      decreases depth, 0
    {
      NegWindow(alpha, beta);
      var childValue := SearchChild(b, validActions, i, depth - 1, Neg(beta), Neg(alpha), true);
      MaxLoopAdvance(ChildScores(b, validActions, depth - 1, true), i, maxEval, alpha, alpha0, beta, childValue);
      var evalScore := -childValue;
      maxEval' := MaxE(maxEval, Fin(evalScore));
      alpha' := MaxE(alpha, Fin(evalScore));
    }

    /** The minimising branch of _minimax: beta falls with every child score. */
    method MinLoop(b: Board, depth: nat, alpha: ExtInt, beta0: ExtInt, validActions: seq<int>) returns (value: int)
      requires depth >= 1 && Lt(alpha, beta0) && AllActions(validActions) && |validActions| > 0
      ensures FailSoft(Fin(value), MinOf(ChildScores(b, validActions, depth - 1, false)), alpha, beta0)
      decreases depth, 1
    {
      ghost var s := ChildScores(b, validActions, depth - 1, false);
      var minEval := PosInf;
      var beta := beta0;
      var i := 0;
      MinLoopStart(s, alpha, beta0);
      while i < |validActions|
        invariant MinLoopInv(s, i, minEval, beta, alpha, beta0)
        decreases |validActions| - i
      {
        minEval, beta := MinChild(b, depth, validActions, i, alpha, beta0, minEval, beta);
        i := i + 1;
        if Le(beta, alpha) {
          break;
        }
      }
      if i == |validActions| && !Le(beta, alpha) {
        MinLoopEnd(s, minEval, beta, alpha, beta0);
      }
      value := minEval.n;
    }

    /** The body of the minimising loop for the i-th action: the negated
        child result lowers the minimum and beta. */
    method MinChild(b: Board, depth: nat, validActions: seq<int>, i: nat, alpha: ExtInt, ghost beta0: ExtInt,
                    minEval: ExtInt, beta: ExtInt)
      returns (minEval': ExtInt, beta': ExtInt)
      requires depth >= 1 && AllActions(validActions) && i < |validActions|
      requires MinLoopInv(ChildScores(b, validActions, depth - 1, false), i, minEval, beta, alpha, beta0)
      ensures MinAfter(ChildScores(b, validActions, depth - 1, false), i, minEval', beta', alpha, beta0)
      decreases depth, 0
    {
      NegWindow(alpha, beta);
      var childValue := SearchChild(b, validActions, i, depth - 1, Neg(beta), Neg(alpha), false);
      MinLoopAdvance(ChildScores(b, validActions, depth - 1, false), i, minEval, beta, alpha, beta0, childValue);
      var evalScore := -childValue;
      minEval' := MinE(minEval, Fin(evalScore));
      beta' := MinE(beta, Fin(evalScore));
    }
  }

  /** get_best_move's loop after i scores: bestScore is the first strictly
      largest of them (-inf before any), held at bestIndex. */
  predicate BestInv(scores: seq<int>, i: int, bestIndex: int, bestScore: ExtInt) {
    0 <= i <= |scores|
    && (i == 0 ==> bestScore == NegInf && bestIndex == 0)
    && (i > 0 ==> 0 <= bestIndex < i && bestScore == Fin(scores[bestIndex]))
    && (forall k :: 0 <= k < i ==> Le(Fin(scores[k]), bestScore))
    && (forall k :: 0 <= k < bestIndex ==> Lt(Fin(scores[k]), bestScore))
  }

  /** A score replaces the best only when strictly larger. */
  lemma BestStep(scores: seq<int>, i: int, bestIndex: int, bestScore: ExtInt, score: int)
    requires BestInv(scores, i, bestIndex, bestScore) && i < |scores| && score == scores[i]
    ensures Lt(bestScore, Fin(score)) ==> BestInv(scores, i + 1, i, Fin(score))
    ensures !Lt(bestScore, Fin(score)) ==> BestInv(scores, i + 1, bestIndex, bestScore)
  {
  }

  lemma BestEnd(scores: seq<int>, bestIndex: int, bestScore: ExtInt)
    requires |scores| > 0 && BestInv(scores, |scores|, bestIndex, bestScore)
    ensures bestIndex < |scores|
    ensures forall k :: 0 <= k < |scores| ==> scores[k] <= scores[bestIndex]
    ensures forall k :: 0 <= k < bestIndex ==> scores[k] < scores[bestIndex]
  {
  }

  /** No valid action is listed exactly when none is legal. */
  lemma NoValidAction(b: Board)
    requires ValidActions(b) == []
    ensures forall a :: !LegalAction(b, a)
  {
    forall a ensures !LegalAction(b, a) {
      assert a !in ValidActions(b);
    }
  }

  /** What get_best_move promises once BestOf picked entry j of the
      shuffled valid actions. */
  lemma BestMoveChoice(b: Board, depth: nat, shuffle: seq<int> -> seq<int>, j: int)
    requires depth >= 1 && (forall s, x :: x in shuffle(s) <==> x in s)
    requires AllActions(shuffle(ValidActions(b))) && 0 <= j < |shuffle(ValidActions(b))|
    requires var order := shuffle(ValidActions(b));
      var scores := ChildScores(b, order, depth - 1, false);
      (forall k :: 0 <= k < |order| ==> scores[k] <= scores[j])
      && (forall k :: 0 <= k < j ==> scores[k] < scores[j])
    ensures var order := shuffle(ValidActions(b));
      LegalAction(b, order[j])
      && (forall a :: LegalAction(b, a) ==> RootScore(b, depth, a) <= RootScore(b, depth, order[j]))
      && FirstBest(b, depth, order, order[j])
  {
    var order := shuffle(ValidActions(b));
    assert forall a :: a in order <==> a in ValidActions(b);
    RootChoice(b, depth, order, j);
  }

  /** The root choice: an entry of order whose score no entry exceeds and
      every earlier entry stays below is the first best action, and no legal
      action scores more when order holds exactly the legal actions. */
  lemma RootChoice(b: Board, depth: nat, order: seq<int>, j: nat)
    requires depth >= 1 && AllActions(order) && j < |order|
    requires forall a :: a in order <==> LegalAction(b, a)
    requires var scores := ChildScores(b, order, depth - 1, false);
      (forall k :: 0 <= k < |order| ==> scores[k] <= scores[j])
      && (forall k :: 0 <= k < j ==> scores[k] < scores[j])
    ensures LegalAction(b, order[j])
    ensures forall a :: LegalAction(b, a) ==> RootScore(b, depth, a) <= RootScore(b, depth, order[j])
    ensures FirstBest(b, depth, order, order[j])
  {
    var scores := ChildScores(b, order, depth - 1, false);
    RootScoreIs(b, depth, order, j);
    forall a | LegalAction(b, a)
      ensures RootScore(b, depth, a) <= RootScore(b, depth, order[j])
    {
      var k :| 0 <= k < |order| && order[k] == a;
      RootScoreIs(b, depth, order, k);
    }
    forall k | 0 <= k < j
      ensures RootScore(b, depth, order[k]) < RootScore(b, depth, order[j])
    {
      RootScoreIs(b, depth, order, k);
    }
  }

  /** The root score of the k-th action is the k-th child score. */
  lemma RootScoreIs(b: Board, depth: nat, order: seq<int>, k: int)
    requires depth >= 1 && AllActions(order) && 0 <= k < |order|
    ensures RootScore(b, depth, order[k]) == ChildScores(b, order, depth - 1, false)[k]
  {
  }

  /** A rearrangement holding the same actions holds only actions, and
      some when there were any. */
  lemma ShuffleKeepsActions(original: seq<int>, order: seq<int>)
    requires AllActions(original) && forall a :: a in order <==> a in original
    ensures AllActions(order)
    ensures |original| > 0 ==> |order| > 0
  {
    forall i | 0 <= i < |order| ensures 0 <= order[i] < ActionSize {
      assert order[i] in order;
    }
    if |original| > 0 {
      assert original[0] in original;
    }
  }

  /** The opening position has a valid action, so get_best_move answers
      with a move there at every depth. */
  lemma OpeningHasValidAction()
    ensures ValidActions(InitBoard()) != []
  {
    InitCannonMoveLegal();
    assert Encode(Move(Square(1, 2), Square(4, 2))) in ValidActions(InitBoard());
  }
}
