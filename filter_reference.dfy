/**
  The reference forward step of the online HMM filter, as the filter tests
  compute it from a matrix (MockStates in FilterTest.cs).

  Row 0 of the matrix holds two unused columns followed by the emission
  probability of each new candidate; row p + 1 holds predecessor p's filter
  probability, the probability whose log10 is its sequence probability, and
  then its transition probability to each candidate.

  For every candidate c the step adds up the filter mass
  Σ filtprob(p) * t(p, c) over the predecessors with a non-zero transition,
  keeps the first predecessor that maximises
  seqprob(p) + log10(t(p, c)) + log10(emission(c)), and falls back to a
  "break" (raw emission, log10 of it, predecessor -1) when no transition to c
  is non-zero. All candidates are then divided by one global sum.

  log10 is a parameter: the model does not fix its values.
 */
module FilterReference {
  import opened Markov

  type Matrix = seq<seq<real>>

  /** The matrices the reference computation indexes only inside of: at least
      one row, at least the two reserved columns, no row shorter than row 0. */
  predicate WellFormed(m: Matrix)
  {
    && |m| >= 1
    && |m[0]| >= 2
    && forall i :: 0 <= i < |m| ==> |m[i]| >= |m[0]|
  }

  function NumCandidates(m: Matrix): nat
    requires WellFormed(m)
  {
    |m[0]| - 2
  }

  function NumPredecessors(m: Matrix): nat
    requires WellFormed(m)
  {
    |m| - 1
  }

  function Emission(m: Matrix, c: nat): real
    requires WellFormed(m) && c < NumCandidates(m)
  {
    m[0][c + 2]
  }

  function Transition(m: Matrix, p: nat, c: nat): real
    requires WellFormed(m) && p < NumPredecessors(m) && c < NumCandidates(m)
  {
    m[p + 1][c + 2]
  }

  function PredecessorFiltprob(m: Matrix, p: nat): real
    requires WellFormed(m) && p < NumPredecessors(m)
  {
    m[p + 1][0]
  }

  /** Predecessor p as (filter probability, sequence probability). */
  function Predecessor(m: Matrix, log10: real -> Score, p: nat): (real, Score)
    requires WellFormed(m) && p < NumPredecessors(m)
  {
    (PredecessorFiltprob(m, p), log10(m[p + 1][1]))
  }

  /** The quantity the step maximises over predecessors, added up left to right. */
  function PathScore(m: Matrix, log10: real -> Score, p: nat, c: nat): Score
    requires WellFormed(m) && p < NumPredecessors(m) && c < NumCandidates(m)
  {
    Plus(Plus(Predecessor(m, log10, p).1, log10(Transition(m, p, c))), log10(Emission(m, c)))
  }

  /** Some predecessor among the first n has a non-zero transition to c. */
  predicate Linked(m: Matrix, c: nat, n: nat)
    requires WellFormed(m) && c < NumCandidates(m) && n <= NumPredecessors(m)
  {
    exists p :: 0 <= p < n && Transition(m, p, c) != 0.0
  }

  /** Filter mass that the first n predecessors pass on to c (zero transitions skipped). */
  function Mass(m: Matrix, c: nat, n: nat): real
    requires WellFormed(m) && c < NumCandidates(m) && n <= NumPredecessors(m)
  {
    if n == 0 then 0.0
    else if Transition(m, n - 1, c) == 0.0 then Mass(m, c, n - 1)
    else Mass(m, c, n - 1) + PredecessorFiltprob(m, n - 1) * Transition(m, n - 1, c)
  }

  /** Running (seqprob, pred) of candidate c. */
  datatype Best = Best(seqprob: Score, pred: int)

  /** (seqprob[c], pred[c]) after the first n predecessors, starting from
      (-infinity, 0) and replacing on a strictly greater path score. */
  function Viterbi(m: Matrix, log10: real -> Score, c: nat, n: nat): Best
    requires WellFormed(m) && c < NumCandidates(m) && n <= NumPredecessors(m)
  {
    if n == 0 then Best(NegInf, 0)
    else
      var b := Viterbi(m, log10, c, n - 1);
      if Transition(m, n - 1, c) == 0.0 then b
      else if Greater(PathScore(m, log10, n - 1, c), b.seqprob) then Best(PathScore(m, log10, n - 1, c), n - 1)
      else b
  }

  function CandidateRawFiltprob(m: Matrix, c: nat): real
    requires WellFormed(m) && c < NumCandidates(m)
  {
    if Linked(m, c, NumPredecessors(m)) then Mass(m, c, NumPredecessors(m)) * Emission(m, c)
    else Emission(m, c)
  }

  function CandidateSeqprob(m: Matrix, log10: real -> Score, c: nat): Score
    requires WellFormed(m) && c < NumCandidates(m)
  {
    if Linked(m, c, NumPredecessors(m)) then Viterbi(m, log10, c, NumPredecessors(m)).seqprob
    else log10(Emission(m, c))
  }

  function CandidatePred(m: Matrix, log10: real -> Score, c: nat): int
    requires WellFormed(m) && c < NumCandidates(m)
  {
    if Linked(m, c, NumPredecessors(m)) then Viterbi(m, log10, c, NumPredecessors(m)).pred
    else -1
  }

  function RawFiltprobs(m: Matrix): seq<real>
    requires WellFormed(m)
  {
    seq(NumCandidates(m), c requires 0 <= c < NumCandidates(m) => CandidateRawFiltprob(m, c))
  }

  /** normsum: the sum of all pre-normalisation values, breaks included. */
  function NormSum(m: Matrix): real
    requires WellFormed(m)
  {
    Sum(RawFiltprobs(m))
  }

  /** filtprob after the step; a zero normsum (a division by zero in the
      source) leaves the values unnormalised. */
  function Filtprobs(m: Matrix): seq<real>
    requires WellFormed(m)
  {
    var raw := RawFiltprobs(m);
    if NormSum(m) == 0.0 then raw
    else seq(|raw|, c requires 0 <= c < |raw| => raw[c] / NormSum(m))
  }

  function Seqprobs(m: Matrix, log10: real -> Score): seq<Score>
    requires WellFormed(m)
  {
    seq(NumCandidates(m), c requires 0 <= c < NumCandidates(m) => CandidateSeqprob(m, log10, c))
  }

  function Preds(m: Matrix, log10: real -> Score): seq<int>
    requires WellFormed(m)
  {
    seq(NumCandidates(m), c requires 0 <= c < NumCandidates(m) => CandidatePred(m, log10, c))
  }

  // ---------------------------------------------------------------------
  // The arg-max and its tie order

  /** k is the first predecessor among the first n with a non-zero
      transition whose finite path score no other such predecessor exceeds. */
  ghost predicate IsFirstArgMax(m: Matrix, log10: real -> Score, c: nat, n: nat, k: int)
    requires WellFormed(m) && c < NumCandidates(m) && n <= NumPredecessors(m)
  {
    && 0 <= k < n
    && Transition(m, k, c) != 0.0
    && PathScore(m, log10, k, c).Finite?
    && (forall p :: 0 <= p < n && Transition(m, p, c) != 0.0 ==>
          !Greater(PathScore(m, log10, p, c), PathScore(m, log10, k, c)))
    && (forall p :: 0 <= p < k && Transition(m, p, c) != 0.0 ==>
          Greater(PathScore(m, log10, k, c), PathScore(m, log10, p, c)))
  }

  /** Some predecessor among the first n reaches c with a finite path score. */
  ghost predicate SomeFinitePath(m: Matrix, log10: real -> Score, c: nat, n: nat)
    requires WellFormed(m) && c < NumCandidates(m) && n <= NumPredecessors(m)
  {
    exists p :: 0 <= p < n && Transition(m, p, c) != 0.0 && PathScore(m, log10, p, c).Finite?
  }

  /** The running maximum is the first arg-max, its score is the maximum;
      when no path score is finite nothing beats the initial -infinity and
      pred keeps the array's default 0. */
  lemma {:induction false} ViterbiIsFirstArgMax(m: Matrix, log10: real -> Score, c: nat, n: nat)
    requires WellFormed(m) && c < NumCandidates(m) && n <= NumPredecessors(m)
    ensures SomeFinitePath(m, log10, c, n) ==>
              && IsFirstArgMax(m, log10, c, n, Viterbi(m, log10, c, n).pred)
              && Viterbi(m, log10, c, n).seqprob == PathScore(m, log10, Viterbi(m, log10, c, n).pred, c)
    ensures !SomeFinitePath(m, log10, c, n) ==> Viterbi(m, log10, c, n) == Best(NegInf, 0)
  {
    if n > 0 {
      ViterbiIsFirstArgMax(m, log10, c, n - 1);
      var b := Viterbi(m, log10, c, n - 1);
      var s := PathScore(m, log10, n - 1, c);
      if SomeFinitePath(m, log10, c, n - 1) {
        var k := b.pred;
        forall p | 0 <= p < n && Transition(m, p, c) != 0.0
          ensures !Greater(PathScore(m, log10, p, c), Viterbi(m, log10, c, n).seqprob)
        {
          if p < n - 1 {
            GreaterIsStrictTotalOrder(PathScore(m, log10, p, c), b.seqprob, s);
          } else {
            GreaterIsStrictTotalOrder(s, b.seqprob, s);
          }
        }
        if Transition(m, n - 1, c) != 0.0 && Greater(s, b.seqprob) {
          forall p | 0 <= p < n - 1 && Transition(m, p, c) != 0.0
            ensures Greater(s, PathScore(m, log10, p, c))
          {
            GreaterIsStrictTotalOrder(s, b.seqprob, PathScore(m, log10, p, c));
            GreaterIsStrictTotalOrder(PathScore(m, log10, p, c), b.seqprob, s);
          }
        }
      } else if Transition(m, n - 1, c) != 0.0 && s.Finite? {
        assert Viterbi(m, log10, c, n).pred == n - 1;
      }
    }
  }

  /** There is only one first arg-max. */
  lemma FirstArgMaxIsUnique(m: Matrix, log10: real -> Score, c: nat, n: nat, k1: int, k2: int)
    requires WellFormed(m) && c < NumCandidates(m) && n <= NumPredecessors(m)
    requires IsFirstArgMax(m, log10, c, n, k1) && IsFirstArgMax(m, log10, c, n, k2)
    ensures k1 == k2
  {
  }

  /** Per-candidate result of the step: every linked candidate's raw value
      is its mass times its emission; one with a finite path takes the first
      arg-max and its score; a linked candidate whose every path score is
      -infinity keeps seqprob -infinity and pred 0; a candidate without
      non-zero transitions is a break. */
  lemma CandidateOutcome(m: Matrix, log10: real -> Score, c: nat)
    requires WellFormed(m) && c < NumCandidates(m)
    ensures var n := NumPredecessors(m);
      SomeFinitePath(m, log10, c, n) ==>
        && IsFirstArgMax(m, log10, c, n, CandidatePred(m, log10, c))
        && CandidateSeqprob(m, log10, c) == PathScore(m, log10, CandidatePred(m, log10, c), c)
        && CandidateRawFiltprob(m, c) == Mass(m, c, n) * Emission(m, c)
    ensures Linked(m, c, NumPredecessors(m)) ==>
      CandidateRawFiltprob(m, c) == Mass(m, c, NumPredecessors(m)) * Emission(m, c)
    ensures var n := NumPredecessors(m);
      Linked(m, c, n) && !SomeFinitePath(m, log10, c, n) ==>
        CandidatePred(m, log10, c) == 0 && CandidateSeqprob(m, log10, c) == NegInf
    ensures !Linked(m, c, NumPredecessors(m)) ==>
      && CandidateRawFiltprob(m, c) == Emission(m, c)
      && CandidateSeqprob(m, log10, c) == log10(Emission(m, c))
      && CandidatePred(m, log10, c) == -1
  {
    ViterbiIsFirstArgMax(m, log10, c, NumPredecessors(m));
  }

  /** pred[c] is -1 exactly for the breaks; otherwise it is a predecessor index. */
  lemma PredIsBreakIffUnlinked(m: Matrix, log10: real -> Score, c: nat)
    requires WellFormed(m) && c < NumCandidates(m)
    ensures CandidatePred(m, log10, c) == -1 <==> !Linked(m, c, NumPredecessors(m))
    ensures CandidatePred(m, log10, c) != -1 ==> 0 <= CandidatePred(m, log10, c) < NumPredecessors(m)
  {
    ViterbiIsFirstArgMax(m, log10, c, NumPredecessors(m));
  }

  // ---------------------------------------------------------------------
  // The filter mass

  /** Skipping zero transitions does not change the mass: it is the plain
      sum of filtprob(p) * t(p, c) over all of the first n predecessors. */
  lemma {:induction false} MassIsFullSum(m: Matrix, c: nat, n: nat)
    requires WellFormed(m) && c < NumCandidates(m) && n <= NumPredecessors(m)
    ensures Mass(m, c, n) == Sum(seq(n, p requires 0 <= p < n => PredecessorFiltprob(m, p) * Transition(m, p, c)))
  {
    if n > 0 {
      MassIsFullSum(m, c, n - 1);
      var s := seq(n, p requires 0 <= p < n => PredecessorFiltprob(m, p) * Transition(m, p, c));
      assert s[..n - 1] == seq(n - 1, p requires 0 <= p < n - 1 => PredecessorFiltprob(m, p) * Transition(m, p, c));
    }
  }

  /** A matrix that agrees with m except in predecessor q's own two columns. */
  ghost predicate DiffersOnlyInPredecessor(m: Matrix, m': Matrix, q: nat)
  {
    && |m'| == |m|
    && q + 1 < |m|
    && (forall i :: 0 <= i < |m| && i != q + 1 ==> m'[i] == m[i])
    && |m'[q + 1]| == |m[q + 1]| >= 2
    && m'[q + 1][2..] == m[q + 1][2..]
  }

  lemma {:induction false} ZeroTransitionIgnoredUpTo(m: Matrix, m': Matrix, log10: real -> Score, q: nat, c: nat, n: nat)
    requires WellFormed(m) && WellFormed(m') && c < NumCandidates(m) && n <= NumPredecessors(m)
    requires DiffersOnlyInPredecessor(m, m', q) && q < NumPredecessors(m) && Transition(m, q, c) == 0.0
    ensures NumCandidates(m') == NumCandidates(m) && NumPredecessors(m') == NumPredecessors(m)
    ensures Mass(m', c, n) == Mass(m, c, n)
    ensures Viterbi(m', log10, c, n) == Viterbi(m, log10, c, n)
    ensures Linked(m', c, n) == Linked(m, c, n)
  {
    assert m'[0] == m[0];
    assert forall p :: 0 <= p < NumPredecessors(m) ==> Transition(m', p, c) == Transition(m, p, c);
    if n > 0 {
      ZeroTransitionIgnoredUpTo(m, m', log10, q, c, n - 1);
      if n - 1 != q {
        assert m'[n] == m[n];
      }
    }
  }

  /** A predecessor whose transition to c is zero contributes nothing to c:
      changing its filter and sequence probabilities changes none of c's
      results. */
  lemma ZeroTransitionContributesNothing(m: Matrix, m': Matrix, log10: real -> Score, q: nat, c: nat)
    requires WellFormed(m) && WellFormed(m') && c < NumCandidates(m)
    requires DiffersOnlyInPredecessor(m, m', q) && q < NumPredecessors(m) && Transition(m, q, c) == 0.0
    ensures c < NumCandidates(m')
    ensures CandidateRawFiltprob(m', c) == CandidateRawFiltprob(m, c)
    ensures CandidateSeqprob(m', log10, c) == CandidateSeqprob(m, log10, c)
    ensures CandidatePred(m', log10, c) == CandidatePred(m, log10, c)
  {
    ZeroTransitionIgnoredUpTo(m, m', log10, q, c, NumPredecessors(m));
  }

  /** A predecessor with a zero transition to c is never pred[c], unless no
      path to c has a finite score (then pred[c] is the default 0). */
  lemma ZeroTransitionNeverChosen(m: Matrix, log10: real -> Score, q: nat, c: nat)
    requires WellFormed(m) && c < NumCandidates(m) && q < NumPredecessors(m)
    requires Transition(m, q, c) == 0.0
    requires SomeFinitePath(m, log10, c, NumPredecessors(m))
    ensures CandidatePred(m, log10, c) != q
  {
    CandidateOutcome(m, log10, c);
  }

  // ---------------------------------------------------------------------
  // Breaks

  ghost predicate NoTransitions(m: Matrix)
    requires WellFormed(m)
  {
    forall p, c :: 0 <= p < NumPredecessors(m) && 0 <= c < NumCandidates(m) ==> Transition(m, p, c) == 0.0
  }

  function Emissions(m: Matrix): seq<real>
    requires WellFormed(m)
  {
    seq(NumCandidates(m), c requires 0 <= c < NumCandidates(m) => Emission(m, c))
  }

  /** With no predecessors, or with every transition zero, every candidate is a break. */
  lemma AllBreaks(m: Matrix, log10: real -> Score)
    requires WellFormed(m) && NoTransitions(m)
    ensures RawFiltprobs(m) == Emissions(m)
    ensures Seqprobs(m, log10) == seq(NumCandidates(m), c requires 0 <= c < NumCandidates(m) => log10(Emission(m, c)))
    ensures Preds(m, log10) == seq(NumCandidates(m), c => -1)
    ensures NormSum(m) != 0.0 ==>
      Filtprobs(m) == seq(NumCandidates(m), c requires 0 <= c < NumCandidates(m) => Emission(m, c) / Sum(Emissions(m)))
  {
    forall c | 0 <= c < NumCandidates(m) ensures !Linked(m, c, NumPredecessors(m)) {
    }
  }

  lemma NoPredecessorsAllBreak(m: Matrix, log10: real -> Score)
    requires WellFormed(m) && |m| == 1
    ensures Preds(m, log10) == seq(NumCandidates(m), c => -1)
    ensures RawFiltprobs(m) == Emissions(m)
    ensures Seqprobs(m, log10) == seq(NumCandidates(m), c requires 0 <= c < NumCandidates(m) => log10(Emission(m, c)))
  {
    AllBreaks(m, log10);
  }

  /** When all transitions are zero the result depends on row 0 only,
      whatever the predecessors' own values are. */
  lemma BreaksIgnorePredecessors(m: Matrix, m': Matrix, log10: real -> Score)
    requires WellFormed(m) && WellFormed(m') && NoTransitions(m) && NoTransitions(m')
    requires m'[0] == m[0]
    ensures Filtprobs(m') == Filtprobs(m)
    ensures Seqprobs(m', log10) == Seqprobs(m, log10)
    ensures Preds(m', log10) == Preds(m, log10)
  {
    AllBreaks(m, log10);
    AllBreaks(m', log10);
    assert Emissions(m') == Emissions(m);
  }

  // ---------------------------------------------------------------------
  // Normalisation

  /** Every candidate is divided by the same normsum, and the results sum to 1. */
  lemma FiltprobsSumToOne(m: Matrix)
    requires WellFormed(m) && NormSum(m) != 0.0
    ensures |Filtprobs(m)| == NumCandidates(m)
    ensures forall c :: 0 <= c < NumCandidates(m) ==> Filtprobs(m)[c] * NormSum(m) == CandidateRawFiltprob(m, c)
    ensures Sum(Filtprobs(m)) == 1.0
  {
    SumScaled(RawFiltprobs(m), Filtprobs(m), NormSum(m));
    assert NormSum(m) / NormSum(m) == 1.0;
  }

  ghost predicate NonNegative(m: Matrix)
  {
    forall i, j :: 0 <= i < |m| && 0 <= j < |m[i]| ==> m[i][j] >= 0.0
  }

  lemma {:induction false} MassNonNegative(m: Matrix, c: nat, n: nat)
    requires WellFormed(m) && NonNegative(m) && c < NumCandidates(m) && n <= NumPredecessors(m)
    ensures Mass(m, c, n) >= 0.0
  {
    if n > 0 {
      MassNonNegative(m, c, n - 1);
      assert m[n][0] >= 0.0 && m[n][c + 2] >= 0.0;
    }
  }

  /** With non-negative probabilities, every normalised filtprob lies in [0, 1]. */
  lemma FiltprobsAreProbabilities(m: Matrix)
    requires WellFormed(m) && NonNegative(m) && NormSum(m) != 0.0
    ensures forall c :: 0 <= c < |Filtprobs(m)| ==> 0.0 <= Filtprobs(m)[c] <= 1.0
  {
    var raw := RawFiltprobs(m);
    forall c | 0 <= c < |raw| ensures raw[c] >= 0.0 {
      MassNonNegative(m, c, NumPredecessors(m));
      assert m[0][c + 2] >= 0.0;
    }
    forall c | 0 <= c < |raw| ensures 0.0 <= raw[c] / NormSum(m) <= 1.0 {
      SumBoundsTerms(raw, c);
      UnitQuotient(raw[c], NormSum(m));
    }
  }

  lemma UnitQuotient(x: real, t: real)
    requires 0.0 <= x <= t && t != 0.0
    ensures 0.0 <= x / t <= 1.0
  {
    var q := x / t;
    assert q * t == x;
  }
}
