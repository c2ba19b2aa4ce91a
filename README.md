# HMM map matching: the forward step and the matcher's probabilities

This project models two parts of the map-matching kit's hidden-Markov-model filter.

**The forward step.** The filter tests check the filter against a reference forward step that works on a matrix of probabilities (`MockStates` in the filter tests).
- Row 0 of the matrix holds the emission probability of each new candidate, after two unused columns.
- Row p + 1 holds predecessor p's filter probability, a probability whose log10 is its sequence probability, and then its transition probability to each candidate.

For each candidate, the step:
- adds up the filter mass over the predecessors with a non-zero transition;
- keeps the first predecessor that maximises the path score seqprob + log10(transition) + log10(emission);
- treats the candidate as a break when no transition to it is non-zero: it takes the raw emission, log10 of it, and predecessor -1;
- finally divides every candidate's filter probability by one global sum.

**The matcher.** `Matcher` is the strategy that feeds the filter:
- its candidates are the road points near a sample, with edge stickiness;
- their emission probabilities are a distance Gaussian times an optional heading factor;
- their transition probabilities follow a negative-exponential law of the routed cost above a base distance.

Modules:
- `Wrappers`: `Option` and `Result`.
- `Markov`: the log10 score as a double that may be negative infinity (`Score`), the order `>` on it, the laws of log10 as a hypothesis, and left-to-right sums.
- `FilterReference`: the reference step as pure functions of the matrix, with the arg-max, break, mass and normalisation lemmas.
- `FilterTest`:
  - the `MockStates` class, whose constructor runs the step in place on three arrays, proved against `FilterReference`;
  - the `MockElement` candidate and the `MockFilter` strategy;
  - the four test scenarios as lemmas.
- `Matching`:
  - the `Matcher` class, with its Gaussian constants as mutable fields and its collaborators as function fields;
  - the candidate, stickiness, emission and transition rules, with their lemmas.

Several things the source computes are parameters here: log10, sqrt, exp and pi, the road map's radius search, the Minset reduction, the router, the route cost and the spatial distance. Lemmas that need a law of one of them (log10 strictly increasing and turning products into sums, exp non-decreasing and positive, sqrt squaring back) take that law as a hypothesis.

The model follows the code as written, including one detail that deviates from the textbook model: the heading factor divides the azimuth difference by `2 * sigmaA` with `sigmaA = 10^2`.

## Model

| member | source | states |
|---|---|---|
| FilterReference.ViterbiIsFirstArgMax | test/Sandwych.MapMatchingKit.Tests/Markov/FilterTest.cs:61-79 | The running best among the first n predecessors is the first predecessor with a non-zero transition and a finite score that no other scores above; its seqprob is that predecessor's path score. Without a finite path the best stays (-infinity, 0). |
| FilterReference.FirstArgMaxIsUnique | test/Sandwych.MapMatchingKit.Tests/Markov/FilterTest.cs:72-77 | The strict `>` replacement rule picks one predecessor: two first arg-maxes are equal. |
| FilterReference.CandidateOutcome | test/Sandwych.MapMatchingKit.Tests/Markov/FilterTest.cs:59-90 | Every linked candidate's raw filtprob is its mass times its emission. A candidate with a finite path gets its first arg-max as pred and that path score as seqprob. A linked candidate with only -infinity paths keeps pred 0 and seqprob -infinity. An unlinked candidate is a break: emission, log10(emission), -1. |
| FilterReference.PredIsBreakIffUnlinked | test/Sandwych.MapMatchingKit.Tests/Markov/FilterTest.cs:81-86 | pred is -1 exactly when no transition to the candidate is non-zero; otherwise it is a valid predecessor index. |
| FilterReference.MassIsFullSum | test/Sandwych.MapMatchingKit.Tests/Markov/FilterTest.cs:64-70 | Skipping zero transitions leaves the mass equal to the plain sum of filtprob(p) * transition(p, c) over all predecessors. |
| FilterReference.ZeroTransitionIgnoredUpTo | test/Sandwych.MapMatchingKit.Tests/Markov/FilterTest.cs:64-67 | Changing a predecessor whose transition to c is zero changes none of c's running mass, best path or linkedness. |
| FilterReference.ZeroTransitionContributesNothing | test/Sandwych.MapMatchingKit.Tests/Markov/FilterTest.cs:64-67 | Changing a predecessor whose transition to c is zero changes none of c's filtprob, seqprob or pred. |
| FilterReference.ZeroTransitionNeverChosen | test/Sandwych.MapMatchingKit.Tests/Markov/FilterTest.cs:64-77 | When some path to c is finite, a predecessor with a zero transition to c is never c's pred. |
| FilterReference.MassNonNegative | test/Sandwych.MapMatchingKit.Tests/Markov/FilterTest.cs:70 | Non-negative probabilities give a non-negative mass. |
| FilterReference.AllBreaks | test/Sandwych.MapMatchingKit.Tests/Markov/FilterTest.cs:81-86 | With every transition zero, every candidate is a break: raw values are the emissions, seqprobs their log10, preds -1, and filtprobs the emissions over their sum. |
| FilterReference.NoPredecessorsAllBreak | test/Sandwych.MapMatchingKit.Tests/Markov/FilterTest.cs:59-86 | A one-row matrix (no predecessors) makes every candidate a break: pred -1, raw filtprob its emission, seqprob log10 of its emission. |
| FilterReference.BreaksIgnorePredecessors | test/Sandwych.MapMatchingKit.Tests/Markov/FilterTest.cs:81-86 | With all transitions zero, the results depend on row 0 only. |
| FilterReference.FiltprobsSumToOne | test/Sandwych.MapMatchingKit.Tests/Markov/FilterTest.cs:92-97 | With a non-zero normsum, each filtprob times normsum is the raw value, and the filtprobs sum to 1. |
| FilterReference.FiltprobsAreProbabilities | test/Sandwych.MapMatchingKit.Tests/Markov/FilterTest.cs:92-97 | With non-negative probabilities and a non-zero normsum, every filtprob lies in [0, 1]. |
| Markov.GreaterIsStrictTotalOrder | test/Sandwych.MapMatchingKit.Tests/Markov/FilterTest.cs:74 | `>` on scores is irreflexive, asymmetric, transitive and total on distinct values. |
| Markov.SumScaled | test/Sandwych.MapMatchingKit.Tests/Markov/FilterTest.cs:94-97 | Dividing every term by the same non-zero k divides the left-to-right sum by k. |
| FilterTest.EqualsIsEquivalence | test/Sandwych.MapMatchingKit.Tests/Markov/FilterTest.cs:30-33 | Element equality is by id, and it is an equivalence. |
| FilterTest.NewElement | test/Sandwych.MapMatchingKit.Tests/Markov/FilterTest.cs:19-22 | A new element carries its sample and id, has no predecessor and no transition. |
| FilterTest.ElementWith | test/Sandwych.MapMatchingKit.Tests/Markov/FilterTest.cs:24-28 | The (id, filtprob, seqprob) element carries exactly those values, with no predecessor and no transition. |
| FilterTest.MockStates.constructor | test/Sandwych.MapMatchingKit.Tests/Markov/FilterTest.cs:43-53 | Allocates fresh arrays filled with -infinity, 0 and 0, runs the step, and leaves them equal to the reference seqprobs, filtprobs and preds. |
| FilterTest.MockStates.Calculate | test/Sandwych.MapMatchingKit.Tests/Markov/FilterTest.cs:56-98 | The nested loops leave seqprob, filtprob and pred equal to the reference step's results for the matrix. |
| FilterTest.MockStates.UpdateCandidate | test/Sandwych.MapMatchingKit.Tests/Markov/FilterTest.cs:59-90 | One outer pass finishes candidate c with its reference raw values, keeps the candidates before c, and leaves those after c at their initial values. |
| FilterTest.MockStates.AccumulatePredecessors | test/Sandwych.MapMatchingKit.Tests/Markov/FilterTest.cs:61-79 | The inner loop reports whether some transition is non-zero, leaves the mass in filtprob[c] and the running best in (seqprob[c], pred[c]), and changes no other slot. |
| FilterTest.MockStates.Normalise | test/Sandwych.MapMatchingKit.Tests/Markov/FilterTest.cs:94-97 | Divides every slot by normsum in place; from the raw values this gives the reference filtprobs. |
| FilterTest.MockStates.Seqprob | test/Sandwych.MapMatchingKit.Tests/Markov/FilterTest.cs:111-114 | Returns the candidate's reference seqprob. |
| FilterTest.MockStates.Filtprob | test/Sandwych.MapMatchingKit.Tests/Markov/FilterTest.cs:116-119 | Returns the candidate's raw filtprob over normsum, or the raw value when normsum is 0. |
| FilterTest.MockStates.Pred | test/Sandwych.MapMatchingKit.Tests/Markov/FilterTest.cs:121-124 | Returns the candidate's reference pred. |
| FilterTest.MockFilter.ComputeCandidates | test/Sandwych.MapMatchingKit.Tests/Markov/FilterTest.cs:136-145 | One new element per candidate column, with id c and emission probability m[0][c + 2]. |
| FilterTest.MockFilter.ComputeTransition | test/Sandwych.MapMatchingKit.Tests/Markov/FilterTest.cs:148-154 | The transition probability is the matrix cell selected by the two ids. |
| FilterTest.MockFilter.BuildPredecessors | test/Sandwych.MapMatchingKit.Tests/Markov/FilterTest.cs:158-163 | Predecessor p has id p and exactly the (filtprob, seqprob) the reference step reads for p, with no predecessor and no transition. |
| FilterTest.FilterTestInitial | test/Sandwych.MapMatchingKit.Tests/Markov/FilterTest.cs:168-195 | With no predecessors, all three candidates are breaks: their seqprobs are log10 of 0.6, 1.0 and 0.4, and their filtprobs are 0.3, 0.5 and 0.2. |
| FilterTest.PathScoreIsLogOfProduct | test/Sandwych.MapMatchingKit.Tests/Markov/FilterTest.cs:71-72 | Under the log10 laws, the path score is log10 of the product seqprob-probability * transition * emission. |
| FilterTest.FilterTestSubsequentFiltprobs | test/Sandwych.MapMatchingKit.Tests/Markov/FilterTest.cs:197-226 | The raw values are 0.0372, 0.019 and 0.0264; normsum is 0.0826; the filtprobs are each raw value over 0.0826. |
| FilterTest.FilterTestSubsequentPreds | test/Sandwych.MapMatchingKit.Tests/Markov/FilterTest.cs:197-226 | No candidate is a break, and for a real log10 the preds are 1, 1 and 0 and the seqprobs are log10 of 0.048, 0.02 and 0.036. |
| FilterTest.SubsequentArgMaxes | test/Sandwych.MapMatchingKit.Tests/Markov/FilterTest.cs:200-204 | Under the log10 laws, the best predecessors of the three candidates are 1, 1 and 0, with best path scores log10 of 0.048, 0.02 and 0.036. |
| FilterTest.FilterTestBreakTransition | test/Sandwych.MapMatchingKit.Tests/Markov/FilterTest.cs:228-257 | With all transitions zero, the result is FilterTestInitial's, whatever the predecessors hold. |
| FilterTest.FilterTestBreakCandidates | test/Sandwych.MapMatchingKit.Tests/Markov/FilterTest.cs:259-288 | A two-column matrix has no candidates, so every result is empty. |
| Matching.SearchBound | src/Sandwych.MapMatchingKit/Matching/Matcher.cs:142 | The routing bound lies in [1000, max(1000, MaxDistance)]. It is dt * 100 when that lies in [1000, MaxDistance], and 1000 when dt * 100 is at most 1000. |
| Matching.Beta | src/Sandwych.MapMatchingKit/Matching/Matcher.cs:161-163 | Lambda 0 gives the adaptive rate 2 * max(1, dt ms) / 1000, at least 0.002. Otherwise beta * lambda is 1. Beta is never 0, and it is positive exactly when lambda is non-negative. |
| Matching.ShortRouteGetsRate | src/Sandwych.MapMatchingKit/Matching/Matcher.cs:165-166 | A route whose cost is at most the base gets exactly 1 / beta, because the excess is clamped at 0. |
| Matching.TransitionNonIncreasingInCost | src/Sandwych.MapMatchingKit/Matching/Matcher.cs:165-166 | For a positive rate, the transition probability is positive and never grows with the route cost. |
| Matching.AzimuthDeltaSymmetric | src/Sandwych.MapMatchingKit/Matching/Matcher.cs:184-188 | The azimuth difference is symmetric and is 0 for equal azimuths. |
| Matching.AzimuthDeltaRange | src/Sandwych.MapMatchingKit/Matching/Matcher.cs:184-188 | For azimuths in [0, 360), the difference is the smaller arc min(\|a - b\|, 360 - \|a - b\|) and lies in [0, 180]. |
| Matching.HeadingFactor | src/Sandwych.MapMatchingKit/Matching/Matcher.cs:189 | The heading factor is never below 1e-2. |
| Matching.EmissionPositive | src/Sandwych.MapMatchingKit/Matching/Matcher.cs:179-193 | With positive Gaussian constants and a positive exp, the emission is a positive probability, with or without an azimuth. |
| Matching.GaussianNonIncreasing | src/Sandwych.MapMatchingKit/Matching/Matcher.cs:181 | The distance Gaussian is positive and never grows with the distance. |
| Matching.HeadingFactorNonIncreasing | src/Sandwych.MapMatchingKit/Matching/Matcher.cs:189 | The heading factor never grows with the azimuth difference. |
| Matching.EmissionNonIncreasing | src/Sandwych.MapMatchingKit/Matching/Matcher.cs:179-193 | The emission probability never grows with the distance or with the azimuth difference. |
| Matching.EmissionHeadingFloor | src/Sandwych.MapMatchingKit/Matching/Matcher.cs:189 | With an azimuth, the emission is at least 1e-2 times the distance Gaussian. |
| Matching.SqrtOfSquare | src/Sandwych.MapMatchingKit/Matching/Matcher.cs:55-58 | A true square root of value^2 is \|value\|, so the Sigma getter returns the magnitude set. |
| Matching.EdgeIndex | src/Sandwych.MapMatchingKit/Matching/Matcher.cs:96-100 | The edge dictionary's keys are the points' edge ids, and each key maps to the one point on that edge. |
| Matching.AdoptedNotIndexed | src/Sandwych.MapMatchingKit/Matching/Matcher.cs:104-111 | A predecessor point that sticks is never one of the indexed points, since the indexed point lies strictly behind it. |
| Matching.StickyClosedForm | src/Sandwych.MapMatchingKit/Matching/Matcher.cs:102-113 | Visiting the predecessors in order gives the points minus every replaced point plus every adopted predecessor point, whatever the order. |
| Matching.StickyStep | src/Sandwych.MapMatchingKit/Matching/Matcher.cs:102-113 | One more predecessor adds its edge's indexed point to the replaced set and its own point to the adopted set exactly when it sticks. |
| Matching.StickinessEffect | src/Sandwych.MapMatchingKit/Matching/Matcher.cs:102-113 | An indexed point survives exactly when no predecessor on its edge sticks. Every sticking predecessor's point is in the result, and nothing else enters. |
| Matching.Matcher.constructor | src/Sandwych.MapMatchingKit/Matching/Matcher.cs:28-87 | Keeps the collaborators and sets the defaults: sigma^2 = 25, sigmaA = 100 with their square-root constants, lambda 0, radius 100, distance 15000, 8 candidates. Sigma is then 5. |
| Matching.Matcher.SetSigma | src/Sandwych.MapMatchingKit/Matching/Matcher.cs:56-60 | Sets sigma^2 and sqrt(2 pi sigma^2) together, keeps the cached constants consistent, changes nothing else, and Sigma reads back \|value\|. |
| Matching.Matcher.ValidConstantsArePositive | src/Sandwych.MapMatchingKit/Matching/Matcher.cs:28-31 | With a true sqrt, positive pi and positive sigma^2, the cached Gaussian constants are positive, so the emission is defined. |
| Matching.Matcher.ComputeCandidates | src/Sandwych.MapMatchingKit/Matching/Matcher.cs:90-126 | Fails exactly when two of the minimised points share an edge id. Otherwise it returns one candidate per point of the sticky set, each with the point's emission probability. |
| Matching.Matcher.IndexByEdge | src/Sandwych.MapMatchingKit/Matching/Matcher.cs:96-100 | Adding every point to the dictionary fails exactly when two points share an edge id, and otherwise yields the edge index. |
| Matching.Matcher.ApplyStickiness | src/Sandwych.MapMatchingKit/Matching/Matcher.cs:102-113 | The loop over the predecessors yields the sticky set for the dictionary and sigma. |
| Matching.Matcher.ScorePoints | src/Sandwych.MapMatchingKit/Matching/Matcher.cs:115-125 | One candidate per point, and no other. Each candidate carries the sample and the point, with the emission of the point's distance to the sample. |
| Matching.Matcher.ComputeTransition | src/Sandwych.MapMatchingKit/Matching/Matcher.cs:128-132 | The single-pair transition always fails as not supported. |
| Matching.Matcher.ComputeTransitions | src/Sandwych.MapMatchingKit/Matching/Matcher.cs:134-176 | There is one map per predecessor, and no other key. Each map holds the candidates the router reached within the bound, with the route and its negative-exponential probability. |
| Matching.Matcher.RouteCandidates | src/Sandwych.MapMatchingKit/Matching/Matcher.cs:150-170 | The inner loop maps every candidate whose point has a route to that route's transition, and no other candidate. |
| Matching.TransitionEntryIffRouted | src/Sandwych.MapMatchingKit/Matching/Matcher.cs:148-152 | A candidate has a transition from a predecessor exactly when the router returned a route to its point. |

## Left out

- Floating point:
  - doubles are exact reals, so rounding, NaN and infinities other than the log10 -infinity are not modelled;
  - the tests' tolerance argument is not modelled: the scenario lemmas state exact values.
- FilterTest.MockStates.Calculate: when normsum is 0 the source divides by zero (NaN or infinities); the model leaves the raw values in place.
- FilterTest.MockStates.constructor requires at least one row, two columns and rows no shorter than row 0. The source indexes only what the loops read, so it also accepts ragged rows when there are no candidates.
- The generic filter (the AbstractFilter base class, its Execute and its filter-probability bookkeeping) is not part of this model. The test's Execute is modelled only as far as building the predecessor list (MockFilter.BuildPredecessors). The scenarios are stated on the reference step the tests compare the filter against.
- The log10, sqrt, exp and pi functions are parameters with no fixed values; their laws are hypotheses of the lemmas that need them.
- The road map's radius search, Minset.Minimize, the router, the route-cost function and the spatial distance are function parameters of the matcher. Their own behaviour, including the router's bound handling and Costs.DistanceCost, is not modelled.
- Matching.Matcher.ComputeCandidates:
  - requires non-zero Gaussian constants: the source makes no such demand, and a zero sigma yields a floating-point infinity or NaN that reals cannot express;
  - has no null edges: every point has an edge, so the NullReferenceException the source raises at `point.Edge.Id` for a minimised or predecessor point without an edge is not modelled;
  - does not model iteration order: the point collection is modelled as a set, so the order of the returned candidates is not specified.
- Matching.Matcher.ComputeTransitions requires distinct predecessors and distinct candidates. The source would throw on a duplicate predecessor key. For candidates the model assumes that two list entries are distinct exactly when their values differ; MatcherCandidate's own equality is not part of this model.
- Lambda, MaxRadius, MaxDistance and MaxCandidates are plain fields; their setters have no logic and get no member of their own.
- The elapsed time between samples is in milliseconds as a real; TimeSpan's tick resolution is not modelled.
- FilterTest.MockElement's inherited defaults are taken as 0 for its doubles and as none for its predecessor and transition.
