/**
  The filter test fixtures: MockStates, which runs the reference forward
  step over a matrix into three arrays; MockElement, the test's state
  candidate; and MockFilter, the filter strategy that serves candidates and
  transitions out of the same matrix.
 */
module FilterTest {
  import opened Wrappers
  import opened Markov
  import opened FilterReference

  /** The test's (empty) transition payload. */
  datatype MockStateTransition = MockStateTransition

  /** The test's sample; only its time is ever set. */
  datatype MockSample = MockSample(time: int)

  /** A state candidate with the shape every filter candidate has
      (Seqprob, Filtprob, Predecessor, Transition, HasTransition) and an id. */
  datatype MockElement = MockElement(
    sample: MockSample,
    id: int,
    filtprob: real,
    seqprob: Score,
    predecessor: Option<MockElement>,
    transition: Option<MockStateTransition>)
  {
    predicate HasTransition()
    {
      transition.Some?
    }

    /** Elements are equal when their ids are. */
    predicate Equals(other: MockElement)
    {
      id == other.id
    }
  }

  /** A new element for a sample: unlinked, with the double fields at their default 0. */
  function NewElement(sample: MockSample, id: int): (e: MockElement)
    ensures e.id == id && e.sample == sample
    ensures e.predecessor.None? && !e.HasTransition()
  {
    MockElement(sample, id, 0.0, Finite(0.0), None, None)
  }

  /** An element with given probabilities and the default sample. */
  function ElementWith(id: int, filtprob: real, seqprob: Score): (e: MockElement)
    ensures e.id == id && e.filtprob == filtprob && e.seqprob == seqprob
    ensures e.predecessor.None? && !e.HasTransition()
  {
    NewElement(MockSample(0), id).(filtprob := filtprob, seqprob := seqprob)
  }

  lemma EqualsIsEquivalence(a: MockElement, b: MockElement, c: MockElement)
    ensures a.Equals(a)
    ensures a.Equals(b) ==> b.Equals(a)
    ensures a.Equals(b) && b.Equals(c) ==> a.Equals(c)
    ensures a.Equals(b) <==> a.id == b.id
  {
  }

  class MockStates {
    const matrix: Matrix
    const log10: real -> Score
    const seqprob: array<Score>
    const filtprob: array<real>
    const pred: array<int>

    /** After construction the arrays hold the reference step's results. */
    ghost predicate Valid()
      reads seqprob, filtprob, pred
    {
      && WellFormed(matrix)
      && seqprob.Length == filtprob.Length == pred.Length == NumCandidates(matrix)
      && seqprob[..] == Seqprobs(matrix, log10)
      && filtprob[..] == Filtprobs(matrix)
      && pred[..] == Preds(matrix, log10)
    }

    constructor (matrix: Matrix, log10: real -> Score)
      requires WellFormed(matrix)
      ensures this.matrix == matrix && this.log10 == log10
      ensures fresh(seqprob) && fresh(filtprob) && fresh(pred)
      ensures Valid()
    {
      this.matrix := matrix;
      this.log10 := log10;
      var n := |matrix[0]| - 2;
      seqprob := new Score[n](_ => NegInf);
      filtprob := new real[n](_ => 0.0);
      pred := new int[n](_ => 0);
      new;
      Calculate();
    }

    /** Candidates before c hold their raw (pre-normalisation) results. */
    ghost predicate Computed(c: int)
      reads seqprob, filtprob, pred
      requires WellFormed(matrix)
      requires seqprob.Length == filtprob.Length == pred.Length == NumCandidates(matrix)
      requires 0 <= c <= NumCandidates(matrix)
    {
      forall k :: 0 <= k < c ==>
        && filtprob[k] == CandidateRawFiltprob(matrix, k)
        && seqprob[k] == CandidateSeqprob(matrix, log10, k)
        && pred[k] == CandidatePred(matrix, log10, k)
    }

    /** Candidates from c on still hold the initial values. */
    ghost predicate Untouched(c: int)
      reads seqprob, filtprob, pred
      requires seqprob.Length == filtprob.Length == pred.Length
      requires 0 <= c <= seqprob.Length
    {
      forall k :: c <= k < seqprob.Length ==> seqprob[k] == NegInf && filtprob[k] == 0.0 && pred[k] == 0
    }

    /** The nested loops of the reference step, then the in-place division by normsum. */
    method Calculate()
      requires WellFormed(matrix)
      requires seqprob.Length == filtprob.Length == pred.Length == NumCandidates(matrix)
      requires Untouched(0)
      modifies seqprob, filtprob, pred
      ensures seqprob[..] == Seqprobs(matrix, log10)
      ensures filtprob[..] == Filtprobs(matrix)
      ensures pred[..] == Preds(matrix, log10)
    {
      var normsum := 0.0;
      var n := NumCandidates(matrix);
      for c := 0 to n
        invariant Computed(c) && Untouched(c)
        invariant normsum == Sum(RawFiltprobs(matrix)[..c])
      {
        UpdateCandidate(c);
        assert RawFiltprobs(matrix)[..c + 1][..c] == RawFiltprobs(matrix)[..c];
        normsum := normsum + filtprob[c];
      }
      AllComputed();
      assert RawFiltprobs(matrix)[..n] == RawFiltprobs(matrix);
      if normsum != 0.0 {
        Normalise(normsum);
      }
    }

    /** One pass of the outer loop: the inner loop over the predecessors, then
        the candidate's break (no positive transition) or its emission factor. */
    method UpdateCandidate(c: nat)
      requires WellFormed(matrix)
      requires seqprob.Length == filtprob.Length == pred.Length == NumCandidates(matrix)
      requires c < NumCandidates(matrix) && Computed(c) && Untouched(c)
      modifies seqprob, filtprob, pred
      ensures Computed(c + 1) && Untouched(c + 1)
    {
      var transition := AccumulatePredecessors(c);
      if !transition {
        filtprob[c] := Emission(matrix, c);
        seqprob[c] := log10(Emission(matrix, c));
        pred[c] := -1;
      } else {
        filtprob[c] := filtprob[c] * Emission(matrix, c);
      }
      assert filtprob[c] == CandidateRawFiltprob(matrix, c);
      assert seqprob[c] == CandidateSeqprob(matrix, log10, c);
      assert pred[c] == CandidatePred(matrix, log10, c);
    }

    /** Once every candidate is computed the arrays hold the reference results before normalisation. */
    lemma AllComputed()
      requires WellFormed(matrix)
      requires seqprob.Length == filtprob.Length == pred.Length == NumCandidates(matrix)
      requires Computed(NumCandidates(matrix))
      ensures seqprob[..] == Seqprobs(matrix, log10)
      ensures pred[..] == Preds(matrix, log10)
      ensures filtprob[..] == RawFiltprobs(matrix)
    {
    }

    /** The inner loop of the reference step for candidate c: skip zero
        transitions, add up the filter mass, keep the strictly better path. */
    method AccumulatePredecessors(c: nat) returns (transition: bool)
      requires WellFormed(matrix)
      requires seqprob.Length == filtprob.Length == pred.Length == NumCandidates(matrix)
      requires c < NumCandidates(matrix) && Untouched(c)
      modifies seqprob, filtprob, pred
      ensures transition == Linked(matrix, c, NumPredecessors(matrix))
      ensures filtprob[c] == Mass(matrix, c, NumPredecessors(matrix))
      ensures Best(seqprob[c], pred[c]) == Viterbi(matrix, log10, c, NumPredecessors(matrix))
      ensures seqprob[..] == old(seqprob[..])[c := seqprob[c]]
      ensures filtprob[..] == old(filtprob[..])[c := filtprob[c]]
      ensures pred[..] == old(pred[..])[c := pred[c]]
    {
      transition := false;
      for p := 0 to NumPredecessors(matrix)
        invariant transition == Linked(matrix, c, p)
        invariant filtprob[c] == Mass(matrix, c, p)
        invariant Best(seqprob[c], pred[c]) == Viterbi(matrix, log10, c, p)
        invariant seqprob[..] == old(seqprob[..])[c := seqprob[c]]
        invariant filtprob[..] == old(filtprob[..])[c := filtprob[c]]
        invariant pred[..] == old(pred[..])[c := pred[c]]
      {
        var predecessor := Predecessor(matrix, log10, p);
        var t := Transition(matrix, p, c);
        if t == 0.0 {
          continue;
        }
        transition := true;
        filtprob[c] := filtprob[c] + predecessor.0 * t;
        var s := Plus(Plus(predecessor.1, log10(t)), log10(Emission(matrix, c)));
        assert s == PathScore(matrix, log10, p, c);
        if Greater(s, seqprob[c]) {
          pred[c] := p;
          seqprob[c] := s;
        }
      }
    }

    /** The second loop of the reference step: divide every filtprob by normsum in place. */
    method Normalise(normsum: real)
      requires WellFormed(matrix) && filtprob.Length == NumCandidates(matrix)
      requires filtprob[..] == RawFiltprobs(matrix) && normsum == NormSum(matrix) && normsum != 0.0
      modifies filtprob
      ensures forall k :: 0 <= k < filtprob.Length ==> filtprob[k] == old(filtprob[k]) / normsum
      ensures filtprob[..] == Filtprobs(matrix)
    {
      for c := 0 to filtprob.Length
        invariant forall k :: 0 <= k < c ==> filtprob[k] == old(filtprob[k]) / normsum
        invariant forall k :: c <= k < filtprob.Length ==> filtprob[k] == old(filtprob[k])
      {
        filtprob[c] := filtprob[c] / normsum;
      }
    }

    function Seqprob(candidate: int): (r: Score)
      reads seqprob, filtprob, pred
      requires Valid() && 0 <= candidate < NumCandidates(matrix)
      ensures r == CandidateSeqprob(matrix, log10, candidate)
    {
      seqprob[candidate]
    }

    function Filtprob(candidate: int): (r: real)
      reads seqprob, filtprob, pred
      requires Valid() && 0 <= candidate < NumCandidates(matrix)
      ensures NormSum(matrix) != 0.0 ==> r * NormSum(matrix) == CandidateRawFiltprob(matrix, candidate)
      ensures NormSum(matrix) == 0.0 ==> r == CandidateRawFiltprob(matrix, candidate)
    {
      if NormSum(matrix) != 0.0 then
        FiltprobsSumToOne(matrix);
        filtprob[candidate]
      else
        filtprob[candidate]
    }

    function Pred(candidate: int): (r: int)
      reads seqprob, filtprob, pred
      requires Valid() && 0 <= candidate < NumCandidates(matrix)
      ensures r == CandidatePred(matrix, log10, candidate)
    {
      pred[candidate]
    }
  }

  class MockFilter {
    const states: MockStates

    constructor (states: MockStates)
      ensures this.states == states
    {
      this.states := states;
    }

    /** One new candidate per matrix column, with id c and emission m[0][c + 2]. */
    method ComputeCandidates(predecessors: seq<MockElement>, sample: MockSample)
      returns (results: seq<CandidateProbability<MockElement>>)
      requires WellFormed(states.matrix)
      ensures |results| == NumCandidates(states.matrix)
      ensures forall c :: 0 <= c < |results| ==>
        && results[c].candidate == NewElement(sample, c)
        && results[c].probability == Emission(states.matrix, c)
    {
      var n := NumCandidates(states.matrix);
      var a := new CandidateProbability<MockElement>[n](_ => CandidateProbability(NewElement(sample, 0), 0.0));
      for c := 0 to n
        invariant forall k :: 0 <= k < c ==>
          a[k] == CandidateProbability(NewElement(sample, k), Emission(states.matrix, k))
      {
        a[c] := CandidateProbability(NewElement(sample, c), Emission(states.matrix, c));
      }
      results := a[..];
    }

    /** The transition between two elements is the matrix cell their ids select. */
    function ComputeTransition(predecessor: MockElement, candidate: MockElement): (t: TransitionProbability<MockStateTransition>)
      requires WellFormed(states.matrix)
      requires 0 <= predecessor.id < NumPredecessors(states.matrix) && 0 <= candidate.id < NumCandidates(states.matrix)
      ensures t.probability == Transition(states.matrix, predecessor.id, candidate.id)
    {
      TransitionProbability(MockStateTransition, states.matrix[predecessor.id + 1][candidate.id + 2])
    }

    /** The predecessor list Execute hands to the filter: element p carries
        exactly the (filtprob, seqprob) the reference step reads for p. */
    method BuildPredecessors() returns (predecessors: seq<MockElement>)
      requires WellFormed(states.matrix)
      ensures |predecessors| == NumPredecessors(states.matrix)
      ensures forall p :: 0 <= p < |predecessors| ==>
        && predecessors[p].id == p
        && (predecessors[p].filtprob, predecessors[p].seqprob) == Predecessor(states.matrix, states.log10, p)
        && predecessors[p].predecessor.None? && !predecessors[p].HasTransition()
    {
      predecessors := [];
      for p := 0 to NumPredecessors(states.matrix)
        invariant |predecessors| == p
        invariant forall q :: 0 <= q < p ==>
          predecessors[q] == ElementWith(q, Predecessor(states.matrix, states.log10, q).0, Predecessor(states.matrix, states.log10, q).1)
      {
        var pred := Predecessor(states.matrix, states.log10, p);
        predecessors := predecessors + [ElementWith(p, pred.0, pred.1)];
      }
    }
  }

  // -----------------------------------------------------------------------
  // The four test scenarios, stated on the reference step they compare against

  /** FilterTestInitial: no predecessors, so every candidate is a break and
      the filter probabilities are the emissions divided by their sum. */
  lemma FilterTestInitial(log10: real -> Score)
    ensures var m := [[0.0, 0.0, 0.6, 1.0, 0.4]];
      && WellFormed(m) && NumCandidates(m) == 3
      && Preds(m, log10) == [-1, -1, -1]
      && Seqprobs(m, log10) == [log10(0.6), log10(1.0), log10(0.4)]
      && Filtprobs(m) == [0.3, 0.5, 0.2]
  {
    var m := [[0.0, 0.0, 0.6, 1.0, 0.4]];
    AllBreaks(m, log10);
    assert Emissions(m) == [0.6, 1.0, 0.4];
    assert Sum(Emissions(m)) == 2.0 by {
      assert Emissions(m)[..2] == [0.6, 1.0];
      assert Emissions(m)[..2][..1] == [0.6];
      assert [0.6][..0] == [];
    }
  }

  /** The path score of a predecessor with sequence probability log10(s),
      transition t and emission e is log10(s * t * e). */
  lemma PathScoreIsLogOfProduct(log10: real -> Score, s: real, t: real, e: real)
    requires ProductToSum(log10) && 0.0 < s && 0.0 < t && 0.0 < e
    ensures Plus(Plus(log10(s), log10(t)), log10(e)) == log10(s * t * e)
  {
    var st := Times(s, t);
    assert log10(st) == Plus(log10(s), log10(t));
    assert 0.0 < st;
    assert log10(Times(st, e)) == Plus(log10(st), log10(e));
    assert Times(st, e) == s * t * e;
  }

  /** The matrix of FilterTestSubsequent: two predecessors, three candidates, every transition non-zero. */
  const SubsequentMatrix: Matrix := [[0.0, 0.0, 0.6, 1.0, 0.4], [0.2, 0.3, 0.01, 0.02, 0.3], [0.3, 0.4, 0.2, 0.05, 0.02]]

  /** FilterTestSubsequent, filter probabilities: the emission-weighted masses over their sum. */
  lemma FilterTestSubsequentFiltprobs()
    ensures WellFormed(SubsequentMatrix) && NumCandidates(SubsequentMatrix) == 3
    ensures RawFiltprobs(SubsequentMatrix) == [0.0372, 0.019, 0.0264]
    ensures NormSum(SubsequentMatrix) == 0.0826
    ensures Filtprobs(SubsequentMatrix) == [0.0372 / 0.0826, 0.019 / 0.0826, 0.0264 / 0.0826]
  {
    var m := SubsequentMatrix;
    assert WellFormed(m);
    forall c | 0 <= c < 3 ensures Linked(m, c, 2) {
      assert Transition(m, 0, c) != 0.0;
    }
    assert Mass(m, 0, 2) == 0.062;
    assert Mass(m, 1, 2) == 0.019;
    assert Mass(m, 2, 2) == 0.066;
    var raw := RawFiltprobs(m);
    assert raw == [0.0372, 0.019, 0.0264];
    assert NormSum(m) == 0.0826 by {
      var s := [0.0372, 0.019, 0.0264];
      assert s[..2] == [0.0372, 0.019] && s[..2][..1] == [0.0372] && [0.0372][..0] == [];
      assert Sum([0.0372]) == 0.0372;
      assert Sum([0.0372, 0.019]) == 0.0372 + 0.019;
      assert Sum(s) == 0.0826;
    }
  }

  /** FilterTestSubsequent, predecessors: no candidate is a break, and for a
      real log10 the predecessors are the arg-maxes 1, 1 and 0, with
      sequence probabilities log10 of 0.048, 0.02 and 0.036. */
  lemma FilterTestSubsequentPreds(log10: real -> Score)
    ensures WellFormed(SubsequentMatrix) && NumCandidates(SubsequentMatrix) == 3
    ensures forall c :: 0 <= c < 3 ==> Preds(SubsequentMatrix, log10)[c] != -1
    ensures IsLog10(log10) ==> Preds(SubsequentMatrix, log10) == [1, 1, 0]
    ensures IsLog10(log10) ==> Seqprobs(SubsequentMatrix, log10) == [log10(0.048), log10(0.02), log10(0.036)]
  {
    var m := SubsequentMatrix;
    assert WellFormed(m);
    forall c | 0 <= c < 3 ensures Preds(m, log10)[c] != -1 {
      assert Transition(m, 0, c) != 0.0;
      PredIsBreakIffUnlinked(m, log10, c);
    }
    if IsLog10(log10) {
      SubsequentArgMaxes(log10);
    }
  }

  lemma SubsequentArgMaxes(log10: real -> Score)
    requires IsLog10(log10)
    ensures WellFormed(SubsequentMatrix)
    ensures Viterbi(SubsequentMatrix, log10, 0, 2).pred == 1
    ensures Viterbi(SubsequentMatrix, log10, 1, 2).pred == 1
    ensures Viterbi(SubsequentMatrix, log10, 2, 2).pred == 0
    ensures Viterbi(SubsequentMatrix, log10, 0, 2).seqprob == log10(0.048)
    ensures Viterbi(SubsequentMatrix, log10, 1, 2).seqprob == log10(0.02)
    ensures Viterbi(SubsequentMatrix, log10, 2, 2).seqprob == log10(0.036)
  {
    var m := SubsequentMatrix;
    assert WellFormed(m);
    PathScoreIsLogOfProduct(log10, 0.3, 0.01, 0.6);
    PathScoreIsLogOfProduct(log10, 0.4, 0.2, 0.6);
    PathScoreIsLogOfProduct(log10, 0.3, 0.02, 1.0);
    PathScoreIsLogOfProduct(log10, 0.4, 0.05, 1.0);
    PathScoreIsLogOfProduct(log10, 0.3, 0.3, 0.4);
    PathScoreIsLogOfProduct(log10, 0.4, 0.02, 0.4);
    assert Greater(log10(0.048), log10(0.0018));
    assert Greater(log10(0.02), log10(0.006));
    assert !Greater(log10(0.0032), log10(0.036)) by {
      assert Greater(log10(0.036), log10(0.0032));
      GreaterIsStrictTotalOrder(log10(0.036), log10(0.0032), log10(0.036));
    }
    assert PathScore(m, log10, 0, 2) == log10(0.036);
    assert PathScore(m, log10, 1, 2) == log10(0.0032);
  }

  /** FilterTestBreakTransition: all transitions are zero, so the result is
      that of FilterTestInitial whatever the two predecessors hold. */
  lemma FilterTestBreakTransition(log10: real -> Score)
    ensures var m := [[0.0, 0.0, 0.6, 1.0, 0.4], [0.2, 0.3, 0.0, 0.0, 0.0], [0.3, 0.4, 0.0, 0.0, 0.0]];
      && WellFormed(m) && NumCandidates(m) == 3
      && Preds(m, log10) == [-1, -1, -1]
      && Seqprobs(m, log10) == [log10(0.6), log10(1.0), log10(0.4)]
      && Filtprobs(m) == [0.3, 0.5, 0.2]
  {
    var m := [[0.0, 0.0, 0.6, 1.0, 0.4], [0.2, 0.3, 0.0, 0.0, 0.0], [0.3, 0.4, 0.0, 0.0, 0.0]];
    var initial := [[0.0, 0.0, 0.6, 1.0, 0.4]];
    FilterTestInitial(log10);
    assert NoTransitions(m) by {
      forall p, c | 0 <= p < NumPredecessors(m) && 0 <= c < NumCandidates(m) ensures Transition(m, p, c) == 0.0 {
        assert m[p + 1][2..] == [0.0, 0.0, 0.0];
      }
    }
    BreaksIgnorePredecessors(initial, m, log10);
  }

  /** FilterTestBreakCandidates: a two-column matrix has no candidates, so the
      step produces nothing. */
  lemma FilterTestBreakCandidates(log10: real -> Score)
    ensures var m := [[0.0, 0.0], [0.2, 0.3], [0.3, 0.4]];
      && WellFormed(m) && NumCandidates(m) == 0 && NumPredecessors(m) == 2
      && Preds(m, log10) == [] && Seqprobs(m, log10) == [] && Filtprobs(m) == []
  {
  }
}
