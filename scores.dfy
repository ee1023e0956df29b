/** Values shared by the searches: an optional result, integers extended
    with the two infinities the alpha-beta windows start from, and the
    fail-soft relation between what a pruned search returns and the true
    minimax value, with the maxima and minima of child scores and the loop
    invariants of a pruned maximising or minimising loop over them. */
module Scores {
  datatype Option<T> = None | Some(value: T)

  /** -float('inf'), an integer score, float('inf') (the TypeScript side's
      -Infinity / Infinity). */
  datatype ExtInt = NegInf | Fin(n: int) | PosInf

  predicate Le(a: ExtInt, b: ExtInt) {
    a.NegInf? || b.PosInf? || (a.Fin? && b.Fin? && a.n <= b.n)
  }

  predicate Lt(a: ExtInt, b: ExtInt) { !Le(b, a) }

  function Neg(a: ExtInt): ExtInt {
    match a
    case NegInf => PosInf
    case Fin(x) => Fin(-x)
    case PosInf => NegInf
  }

  /** Negation is an involution that reverses the order. */
  lemma NegReverses(a: ExtInt, c: ExtInt)
    ensures Neg(Neg(a)) == a
    ensures Le(a, c) <==> Le(Neg(c), Neg(a))
  {
  }

  /** Negating a proper window (alpha, beta) and swapping its ends gives a
      proper window. */
  lemma NegWindow(alpha: ExtInt, beta: ExtInt)
    requires Lt(alpha, beta)
    ensures Lt(Neg(beta), Neg(alpha))
  {
    NegReverses(alpha, beta);
  }

  /** Python's max and min on two scores. */
  function MaxE(a: ExtInt, b: ExtInt): ExtInt {
    if Le(b, a) then a else b
  }

  function MinE(a: ExtInt, b: ExtInt): ExtInt {
    if Le(a, b) then a else b
  }

  /** What a fail-soft alpha-beta search with window (alpha, beta) promises
      about its result r and the true value v: exact inside the window, an
      upper bound at or below alpha, a lower bound at or above beta. */
  predicate FailSoft(r: ExtInt, v: ExtInt, alpha: ExtInt, beta: ExtInt) {
    (Lt(alpha, r) && Lt(r, beta) ==> r == v)
    && (Le(r, alpha) ==> Le(v, r))
    && (Le(beta, r) ==> Le(r, v))
  }

  /** With the window (-inf, +inf) the result is the true value. */
  lemma FailSoftFullWindow(r: int, v: ExtInt)
    requires FailSoft(Fin(r), v, NegInf, PosInf)
    ensures v == Fin(r)
  {
  }

  /** Negating the result, the value and the window (swapped) keeps the relation. */
  lemma FailSoftNeg(r: ExtInt, v: ExtInt, alpha: ExtInt, beta: ExtInt)
    requires FailSoft(r, v, alpha, beta)
    ensures FailSoft(Neg(r), Neg(v), Neg(beta), Neg(alpha))
  {
    NegReverses(r, alpha);
    NegReverses(alpha, r);
    NegReverses(r, beta);
    NegReverses(beta, r);
    NegReverses(v, r);
    NegReverses(r, v);
  }

  /** One child of a maximising loop: the running maximum m of the child
      results approximates the maximum t of their values for the root window
      (alpha0, beta) while no cutoff happened; a child searched with the
      raised window (max(alpha0, m), beta) keeps that. */
  lemma FailSoftMaxStep(m: ExtInt, t: ExtInt, x: ExtInt, u: ExtInt, alpha0: ExtInt, beta: ExtInt)
    requires FailSoft(m, t, alpha0, beta) && Lt(m, beta)
    requires FailSoft(x, u, MaxE(alpha0, m), beta)
    ensures FailSoft(MaxE(m, x), MaxE(t, u), alpha0, beta)
  {
  }

  /** The mirror image for a minimising loop, whose beta falls. */
  lemma FailSoftMinStep(m: ExtInt, t: ExtInt, x: ExtInt, u: ExtInt, alpha: ExtInt, beta0: ExtInt)
    requires FailSoft(m, t, alpha, beta0) && Lt(alpha, m)
    requires FailSoft(x, u, alpha, MinE(beta0, m))
    ensures FailSoft(MinE(m, x), MinE(t, u), alpha, beta0)
  {
  }

  // Maxima and minima of a list of child scores, and the loop of a
  // fail-soft search over them

  /** The largest entry (-inf for none). */
  function MaxOf(s: seq<int>): (r: ExtInt)
    ensures r.Fin? <==> |s| > 0
  {
    if |s| == 0 then NegInf else MaxE(MaxOf(s[..|s| - 1]), Fin(s[|s| - 1]))
  }

  /** MaxOf is the maximum: an upper bound of every entry, reached by one. */
  lemma {:induction false} MaxOfIsMax(s: seq<int>)
    ensures forall i :: 0 <= i < |s| ==> Le(Fin(s[i]), MaxOf(s))
    ensures |s| > 0 ==> exists i :: 0 <= i < |s| && MaxOf(s) == Fin(s[i])
  {
    if |s| > 0 {
      var n := |s| - 1;
      MaxOfIsMax(s[..n]);
      assert forall i :: 0 <= i < n ==> s[..n][i] == s[i];
      if n > 0 && Le(Fin(s[n]), MaxOf(s[..n])) {
        var j :| 0 <= j < n && MaxOf(s[..n]) == Fin(s[..n][j]);
        assert MaxOf(s) == Fin(s[j]);
      } else {
        assert MaxOf(s) == Fin(s[n]);
      }
    }
  }

  /** The smallest entry (+inf for none). */
  function MinOf(s: seq<int>): (r: ExtInt)
    ensures r.Fin? <==> |s| > 0
  {
    if |s| == 0 then PosInf else MinE(MinOf(s[..|s| - 1]), Fin(s[|s| - 1]))
  }

  /** MinOf is the minimum: a lower bound of every entry, reached by one. */
  lemma {:induction false} MinOfIsMin(s: seq<int>)
    ensures forall i :: 0 <= i < |s| ==> Le(MinOf(s), Fin(s[i]))
    ensures |s| > 0 ==> exists i :: 0 <= i < |s| && MinOf(s) == Fin(s[i])
  {
    if |s| > 0 {
      var n := |s| - 1;
      MinOfIsMin(s[..n]);
      assert forall i :: 0 <= i < n ==> s[..n][i] == s[i];
      if n > 0 && Le(MinOf(s[..n]), Fin(s[n])) {
        var j :| 0 <= j < n && MinOf(s[..n]) == Fin(s[..n][j]);
        assert MinOf(s) == Fin(s[j]);
      } else {
        assert MinOf(s) == Fin(s[n]);
      }
    }
  }

  /** The maximising loop after i children: the running maximum is
      fail-soft for the node's window (alpha0, beta) against the maximum of
      the first i scores, has not reached beta, and alpha is its raise. */
  predicate MaxLoopInv(s: seq<int>, i: int, maxEval: ExtInt, alpha: ExtInt, alpha0: ExtInt, beta: ExtInt) {
    0 <= i <= |s| && FailSoft(maxEval, MaxOf(s[..i]), alpha0, beta)
    && Lt(alpha, beta) && alpha == MaxE(alpha0, maxEval) && (maxEval.Fin? <==> i > 0)
  }

  lemma MaxLoopStart(s: seq<int>, alpha0: ExtInt, beta: ExtInt)
    requires Lt(alpha0, beta)
    ensures MaxLoopInv(s, 0, NegInf, alpha0, alpha0, beta)
  {
    assert MaxE(alpha0, NegInf) == alpha0;
  }

  /** The maximum of one more entry. */
  lemma MaxOfSnoc(s: seq<int>, i: int)
    requires 0 <= i < |s|
    ensures MaxOf(s[..i + 1]) == MaxE(MaxOf(s[..i]), Fin(s[i]))
  {
    assert s[..i + 1][..i] == s[..i];
  }

  /** One child searched with (-beta, -alpha) for alpha = max(alpha0, m)
      keeps the running maximum m fail-soft against the maximum t of the
      child values so far. */
  lemma MaxChildStep(m: ExtInt, t: ExtInt, u: int, alpha0: ExtInt, beta: ExtInt, childValue: int)
    requires FailSoft(m, t, alpha0, beta) && Lt(m, beta)
    requires FailSoft(Fin(childValue), Fin(-u), Neg(beta), Neg(MaxE(alpha0, m)))
    ensures FailSoft(MaxE(m, Fin(-childValue)), MaxE(t, Fin(u)), alpha0, beta)
  {
    var alpha := MaxE(alpha0, m);
    FailSoftNeg(Fin(childValue), Fin(-u), Neg(beta), Neg(alpha));
    NegReverses(alpha, alpha);
    NegReverses(beta, beta);
    FailSoftMaxStep(m, t, Fin(-childValue), Fin(u), alpha0, beta);
  }

  /** After a cutoff the unexamined children cannot lower a maximum that
      already reached beta. */
  lemma MaxCutoff(s: seq<int>, i: int, m: ExtInt, alpha0: ExtInt, beta: ExtInt)
    requires 0 <= i <= |s| && FailSoft(m, MaxOf(s[..i]), alpha0, beta)
    requires Lt(alpha0, beta) && Le(beta, m)
    ensures FailSoft(m, MaxOf(s), alpha0, beta)
  {
    MaxOfPrefix(s, i);
  }

  /** A prefix has no larger maximum. */
  lemma {:induction false} MaxOfPrefix(s: seq<int>, i: int)
    requires 0 <= i <= |s|
    ensures Le(MaxOf(s[..i]), MaxOf(s))
  {
    if i < |s| {
      var n := |s| - 1;
      MaxOfPrefix(s[..n], i);
      assert s[..n][..i] == s[..i];
    } else {
      assert s[..i] == s;
    }
  }

  /** One child of the maximising loop, searched with (-beta, -alpha):
      folding its negated result into the maximum and alpha either keeps the
      invariant or, at the cutoff beta <= alpha, already settles the whole
      node. */
  lemma MaxLoopAdvance(s: seq<int>, i: int, maxEval: ExtInt, alpha: ExtInt, alpha0: ExtInt, beta: ExtInt, childValue: int)
    requires MaxLoopInv(s, i, maxEval, alpha, alpha0, beta) && i < |s|
    requires FailSoft(Fin(childValue), Fin(-s[i]), Neg(beta), Neg(alpha))
    ensures MaxAfter(s, i, MaxE(maxEval, Fin(-childValue)), MaxE(alpha, Fin(-childValue)), alpha0, beta)
  {
    MaxOfSnoc(s, i);
    MaxChildStep(maxEval, MaxOf(s[..i]), s[i], alpha0, beta, childValue);
    var m := MaxE(maxEval, Fin(-childValue));
    if Le(beta, MaxE(alpha, Fin(-childValue))) {
      MaxCutoff(s, i + 1, m, alpha0, beta);
    }
  }

  /** One child of a maximising loop in the form of a loop that searches
      the child with the current window itself: e is its result for
      (alpha, beta), the maximum is replaced when e exceeds it, and alpha
      rises to e. With the root window (-inf, +inf) a replacing result is
      the child's exact value. */
  lemma MaxLoopChild(s: seq<int>, i: int, maxEval: ExtInt, alpha: ExtInt, alpha0: ExtInt, beta: ExtInt, e: int)
    requires MaxLoopInv(s, i, maxEval, alpha, alpha0, beta) && i < |s|
    requires FailSoft(Fin(e), Fin(s[i]), alpha, beta)
    ensures MaxAfter(s, i, if Lt(maxEval, Fin(e)) then Fin(e) else maxEval, MaxE(alpha, Fin(e)), alpha0, beta)
    ensures alpha0 == NegInf && beta == PosInf && Lt(maxEval, Fin(e)) ==> e == s[i]
  {
    FailSoftNeg(Fin(e), Fin(s[i]), alpha, beta);
    assert -(-e) == e;
    MaxLoopAdvance(s, i, maxEval, alpha, alpha0, beta, -e);
  }

  /** Every entry before index k lies strictly below e. */
  predicate AllBelow(s: seq<int>, k: int, e: int) {
    forall j :: 0 <= j < k && j < |s| ==> s[j] < e
  }

  /** Every entry before index k lies strictly above e. */
  predicate AllAbove(s: seq<int>, k: int, e: int) {
    forall j :: 0 <= j < k && j < |s| ==> s[j] > e
  }

  /** With the full window, a child that raises the running maximum scores
      strictly more than every child before it, so the move it sets is the
      first to reach the new maximum. */
  lemma MaxImproves(s: seq<int>, i: int, maxEval: ExtInt, alpha: ExtInt, e: int)
    requires MaxLoopInv(s, i, maxEval, alpha, NegInf, PosInf) && Lt(maxEval, Fin(e))
    ensures AllBelow(s, i, e)
  {
    if i > 0 {
      MaxOfIsMax(s[..i]);
      assert forall j :: 0 <= j < i ==> s[..i][j] == s[j];
    }
  }

  /** The maximising loop after the i-th child: the new maximum is a
      number, and either the loop goes on with its invariant or the cutoff
      beta <= alpha settled the node. */
  predicate MaxAfter(s: seq<int>, i: int, maxEval: ExtInt, alpha: ExtInt, alpha0: ExtInt, beta: ExtInt) {
    maxEval.Fin?
    && (!Le(beta, alpha) ==> MaxLoopInv(s, i + 1, maxEval, alpha, alpha0, beta))
    && (Le(beta, alpha) ==> FailSoft(Fin(maxEval.n), MaxOf(s), alpha0, beta))
  }

  /** Without a cutoff every child was examined. */
  lemma MaxLoopEnd(s: seq<int>, maxEval: ExtInt, alpha: ExtInt, alpha0: ExtInt, beta: ExtInt)
    requires |s| > 0 && MaxLoopInv(s, |s|, maxEval, alpha, alpha0, beta)
    ensures maxEval.Fin? && FailSoft(Fin(maxEval.n), MaxOf(s), alpha0, beta)
  {
    assert s[..|s|] == s;
  }

  /** The minimising loop after i children, the mirror image of MaxLoopInv. */
  predicate MinLoopInv(s: seq<int>, i: int, minEval: ExtInt, beta: ExtInt, alpha: ExtInt, beta0: ExtInt) {
    0 <= i <= |s| && FailSoft(minEval, MinOf(s[..i]), alpha, beta0)
    && Lt(alpha, beta) && beta == MinE(beta0, minEval) && (minEval.Fin? <==> i > 0)
  }

  lemma MinLoopStart(s: seq<int>, alpha: ExtInt, beta0: ExtInt)
    requires Lt(alpha, beta0)
    ensures MinLoopInv(s, 0, PosInf, beta0, alpha, beta0)
  {
    assert MinE(beta0, PosInf) == beta0;
  }

  lemma MinOfSnoc(s: seq<int>, i: int)
    requires 0 <= i < |s|
    ensures MinOf(s[..i + 1]) == MinE(MinOf(s[..i]), Fin(s[i]))
  {
    assert s[..i + 1][..i] == s[..i];
  }

  /** The mirror image of MaxChildStep for beta = min(beta0, m). */
  lemma MinChildStep(m: ExtInt, t: ExtInt, u: int, alpha: ExtInt, beta0: ExtInt, childValue: int)
    requires FailSoft(m, t, alpha, beta0) && Lt(alpha, m)
    requires FailSoft(Fin(childValue), Fin(-u), Neg(MinE(beta0, m)), Neg(alpha))
    ensures FailSoft(MinE(m, Fin(-childValue)), MinE(t, Fin(u)), alpha, beta0)
  {
    var beta := MinE(beta0, m);
    FailSoftNeg(Fin(childValue), Fin(-u), Neg(beta), Neg(alpha));
    NegReverses(alpha, alpha);
    NegReverses(beta, beta);
    FailSoftMinStep(m, t, Fin(-childValue), Fin(u), alpha, beta0);
  }

  /** After a cutoff the unexamined children cannot raise a minimum that
      already fell to alpha. */
  lemma MinCutoff(s: seq<int>, i: int, m: ExtInt, alpha: ExtInt, beta0: ExtInt)
    requires 0 <= i <= |s| && FailSoft(m, MinOf(s[..i]), alpha, beta0)
    requires Lt(alpha, beta0) && Le(m, alpha)
    ensures FailSoft(m, MinOf(s), alpha, beta0)
  {
    MinOfPrefix(s, i);
  }

  /** A prefix has no smaller minimum. */
  lemma {:induction false} MinOfPrefix(s: seq<int>, i: int)
    requires 0 <= i <= |s|
    ensures Le(MinOf(s), MinOf(s[..i]))
  {
    if i < |s| {
      var n := |s| - 1;
      MinOfPrefix(s[..n], i);
      assert s[..n][..i] == s[..i];
    } else {
      assert s[..i] == s;
    }
  }

  /** One child of the minimising loop: beta falls to the negated result,
      and at the cutoff beta <= alpha the node is settled. */
  lemma MinLoopAdvance(s: seq<int>, i: int, minEval: ExtInt, beta: ExtInt, alpha: ExtInt, beta0: ExtInt, childValue: int)
    requires MinLoopInv(s, i, minEval, beta, alpha, beta0) && i < |s|
    requires FailSoft(Fin(childValue), Fin(-s[i]), Neg(beta), Neg(alpha))
    ensures MinAfter(s, i, MinE(minEval, Fin(-childValue)), MinE(beta, Fin(-childValue)), alpha, beta0)
  {
    MinOfSnoc(s, i);
    MinChildStep(minEval, MinOf(s[..i]), s[i], alpha, beta0, childValue);
    var m := MinE(minEval, Fin(-childValue));
    if Le(MinE(beta, Fin(-childValue)), alpha) {
      MinCutoff(s, i + 1, m, alpha, beta0);
    }
  }

  /** The mirror image of MaxLoopChild: the minimum is replaced when e is
      below it, and beta falls to e. */
  lemma MinLoopChild(s: seq<int>, i: int, minEval: ExtInt, beta: ExtInt, alpha: ExtInt, beta0: ExtInt, e: int)
    requires MinLoopInv(s, i, minEval, beta, alpha, beta0) && i < |s|
    requires FailSoft(Fin(e), Fin(s[i]), alpha, beta)
    ensures MinAfter(s, i, if Lt(Fin(e), minEval) then Fin(e) else minEval, MinE(beta, Fin(e)), alpha, beta0)
    ensures alpha == NegInf && beta0 == PosInf && Lt(Fin(e), minEval) ==> e == s[i]
  {
    FailSoftNeg(Fin(e), Fin(s[i]), alpha, beta);
    assert -(-e) == e;
    MinLoopAdvance(s, i, minEval, beta, alpha, beta0, -e);
  }

  /** With the full window, a child that lowers the running minimum scores
      strictly less than every child before it. */
  lemma MinImproves(s: seq<int>, i: int, minEval: ExtInt, beta: ExtInt, e: int)
    requires MinLoopInv(s, i, minEval, beta, NegInf, PosInf) && Lt(Fin(e), minEval)
    ensures AllAbove(s, i, e)
  {
    if i > 0 {
      MinOfIsMin(s[..i]);
      assert forall j :: 0 <= j < i ==> s[..i][j] == s[j];
    }
  }

  /** The minimising loop after the i-th child. */
  predicate MinAfter(s: seq<int>, i: int, minEval: ExtInt, beta: ExtInt, alpha: ExtInt, beta0: ExtInt) {
    minEval.Fin?
    && (!Le(beta, alpha) ==> MinLoopInv(s, i + 1, minEval, beta, alpha, beta0))
    && (Le(beta, alpha) ==> FailSoft(Fin(minEval.n), MinOf(s), alpha, beta0))
  }

  lemma MinLoopEnd(s: seq<int>, minEval: ExtInt, beta: ExtInt, alpha: ExtInt, beta0: ExtInt)
    requires |s| > 0 && MinLoopInv(s, |s|, minEval, beta, alpha, beta0)
    ensures minEval.Fin? && FailSoft(Fin(minEval.n), MinOf(s), alpha, beta0)
  {
    assert s[..|s|] == s;
  }
}
