/**
  Values shared by the HMM filter and its strategies: the log10 probability
  (a double that may be negative infinity), sums of probabilities, and the
  (candidate, probability) and (transition, probability) pairs that a filter
  strategy hands to the filter.
 */
module Markov {

  /** A log10 probability as the source holds it in a double: negative
      infinity (the initial sequence probability, or log10 of 0) or finite. */
  datatype Score = NegInf | Finite(value: real)

  /** Double addition restricted to the values a score can take. */
  function Plus(a: Score, b: Score): Score
  {
    if a.Finite? && b.Finite? then Finite(a.value + b.value) else NegInf
  }

  /** The comparison `a > b` on doubles: nothing is greater than itself,
      and negative infinity is greater than nothing. */
  predicate Greater(a: Score, b: Score)
  {
    a.Finite? && (b.NegInf? || a.value > b.value)
  }

  lemma GreaterIsStrictTotalOrder(a: Score, b: Score, c: Score)
    ensures !Greater(a, a)
    ensures Greater(a, b) ==> !Greater(b, a)
    ensures Greater(a, b) && Greater(b, c) ==> Greater(a, c)
    ensures a != b ==> Greater(a, b) || Greater(b, a)
  {
  }

  /** The laws of log10 that comparisons of path scores rely on: finite on
      positive numbers, strictly increasing there, and turning products into
      sums. Used as a hypothesis, since log10 is not defined here. */
  ghost predicate IsLog10(log10: real -> Score)
  {
    && (forall x :: 0.0 < x ==> log10(x).Finite?)
    && (forall x, y :: 0.0 < x < y ==> Greater(log10(y), log10(x)))
    && ProductToSum(log10)
  }

  /** log10(x * y) == log10(x) + log10(y) on positive numbers. */
  ghost predicate ProductToSum(log10: real -> Score)
  {
    forall x, y {:trigger Times(x, y)} :: 0.0 < x && 0.0 < y ==> log10(Times(x, y)) == Plus(log10(x), log10(y))
  }

  /** Real product, named so that the product law of log10 fires only on the products a proof writes out. */
  function Times(x: real, y: real): real
  {
    x * y
  }

  /** Left-to-right sum, the order in which an accumulator `s += x` adds. */
  function Sum(s: seq<real>): real
  {
    if |s| == 0 then 0.0 else Sum(s[..|s| - 1]) + s[|s| - 1]
  }

  /** Dividing every term by the same non-zero k divides the sum by k. */
  lemma {:induction false} SumScaled(s: seq<real>, t: seq<real>, k: real)
    requires k != 0.0
    requires |t| == |s|
    requires forall i :: 0 <= i < |s| ==> t[i] == s[i] / k
    ensures Sum(t) == Sum(s) / k
  {
    if |s| > 0 {
      var n := |s| - 1;
      SumScaled(s[..n], t[..n], k);
      assert Sum(t) == Sum(s[..n]) / k + s[n] / k;
    }
  }

  /** A sum of non-negative terms bounds each of its terms. */
  lemma {:induction false} SumBoundsTerms(s: seq<real>, i: int)
    requires forall j :: 0 <= j < |s| ==> s[j] >= 0.0
    requires 0 <= i < |s|
    ensures 0.0 <= s[i] <= Sum(s)
  {
    var n := |s| - 1;
    SumNonNegative(s[..n]);
    if i < n {
      SumBoundsTerms(s[..n], i);
    }
  }

  lemma {:induction false} SumNonNegative(s: seq<real>)
    requires forall j :: 0 <= j < |s| ==> s[j] >= 0.0
    ensures Sum(s) >= 0.0
  {
    if |s| > 0 {
      SumNonNegative(s[..|s| - 1]);
    }
  }

  /** The pair a filter strategy returns for each new candidate: the candidate and its emission probability. */
  datatype CandidateProbability<C> = CandidateProbability(candidate: C, probability: real)

  /** The pair a filter strategy returns for each (predecessor, candidate): the transition and its probability. */
  datatype TransitionProbability<T> = TransitionProbability(transition: T, probability: real)
}
