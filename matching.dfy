/**
  The map-matching strategy of the HMM filter (Matcher.cs): candidate
  generation with edge stickiness, Gaussian emission probabilities with an
  optional heading factor, and negative-exponential transition probabilities
  from routed costs.

  The road map's radius search, the Minset reduction, the router, the
  route-cost function and the spatial distance are collaborators the
  Matcher receives; here they are function-valued fields. So are sqrt, exp
  and pi: the model does not fix their values, and the lemmas that need
  their laws take those laws as hypotheses.
 */
module Matching {
  import opened Wrappers
  import opened Markov

  datatype Heading = Forward | Backward

  /** A road (graph edge); only its id and heading matter to the matcher. */
  datatype Road = Road(id: int, heading: Heading)

  datatype Coordinate = Coordinate(x: real, y: real)

  /** A point on a road: the road, the fraction along it, where it is and its azimuth. */
  datatype RoadPoint = RoadPoint(edge: Road, fraction: real, coordinate: Coordinate, azimuth: real)

  /** A position sample; time is in milliseconds. */
  datatype MatcherSample = MatcherSample(time: real, coordinate: Coordinate, hasAzimuth: bool, azimuth: real)

  datatype MatcherCandidate = MatcherCandidate(sample: MatcherSample, point: RoadPoint)

  datatype Route = Route(source: RoadPoint, target: RoadPoint, edges: seq<Road>)

  datatype MatcherTransition = MatcherTransition(route: Route)

  /** The exceptions the matcher throws: a second point on an edge already in
      the edge dictionary, and the unsupported single-pair transition. */
  datatype MatcherError = DuplicateEdge(id: int) | NotSupported

  function Max(a: real, b: real): real
  {
    if a >= b then a else b
  }

  function Min(a: real, b: real): real
  {
    if a <= b then a else b
  }

  function Abs(a: real): real
  {
    if a >= 0.0 then a else -a
  }

  ghost predicate NonDecreasing(f: real -> real)
  {
    forall x, y :: x <= y ==> f(x) <= f(y)
  }

  ghost predicate Positive(f: real -> real)
  {
    forall x :: f(x) > 0.0
  }

  /** The laws of the square root: non-negative and squaring back on x >= 0. */
  ghost predicate IsSqrt(sqrt: real -> real)
  {
    forall x :: 0.0 <= x ==> 0.0 <= sqrt(x) && sqrt(x) * sqrt(x) == x
  }

  lemma SqrtOfSquare(sqrt: real -> real, v: real)
    requires IsSqrt(sqrt)
    ensures sqrt(v * v) == Abs(v)
  {
    var a := Abs(v);
    assert v * v == a * a;
    assert 0.0 <= a * a;
    var s := sqrt(a * a);
    assert 0.0 <= s && s * s == a * a;
    SquareInjective(s, a);
  }

  lemma SquareInjective(s: real, a: real)
    requires 0.0 <= s && 0.0 <= a && s * s == a * a
    ensures s == a
  {
    assert (s - a) * (s + a) == 0.0;
    if s + a == 0.0 {
      assert s == 0.0;
    } else {
      assert s + a > 0.0;
      var d := s - a;
      assert d * (s + a) == 0.0;
    }
  }

  /** Dividing by a positive number keeps the order. */
  lemma QuotientMonotone(q: real, p: real, d: real)
    requires 0.0 < d && q <= p
    ensures q / d <= p / d
  {
    var x := p / d - q / d;
    assert x * d == p - q;
  }

  /** 2 pi x, the variance term under the square roots of the Gaussian constants. */
  function TwoPiTimes(pi: real, x: real): real
  {
    2.0 * pi * x
  }

  lemma SqrtOfPositive(sqrt: real -> real, x: real)
    requires IsSqrt(sqrt) && 0.0 < x
    ensures 0.0 < sqrt(x)
  {
    assert sqrt(x) * sqrt(x) == x;
  }

  // -----------------------------------------------------------------------
  // Transition rules

  /** The router's search bound: dt * 100 clamped to [1000, max(1000, MaxDistance)]. */
  function SearchBound(maxDistance: real, dtSeconds: real): (bound: real)
    ensures 1000.0 <= bound <= Max(1000.0, maxDistance)
    ensures 1000.0 <= dtSeconds * 100.0 <= maxDistance ==> bound == dtSeconds * 100.0
    ensures dtSeconds * 100.0 <= 1000.0 ==> bound == 1000.0
  {
    Max(1000.0, Min(maxDistance, dtSeconds * 100.0))
  }

  /** The great-circle base: the distance between the samples over the speed normaliser 60. */
  function BaseDistance(distance: (Coordinate, Coordinate) -> real, from: MatcherSample, to: MatcherSample): (base: real)
    ensures base * 60.0 == distance(from.coordinate, to.coordinate)
  {
    1.0 * distance(from.coordinate, to.coordinate) / 60.0
  }

  /** The rate of the negative-exponential law: adaptive (twice the elapsed
      seconds, at least 1 ms) when lambda is 0, else 1 / lambda. */
  function Beta(lambda: real, dtMillis: real): (beta: real)
    ensures lambda == 0.0 ==> beta == 2.0 * Max(1.0, dtMillis) / 1000.0 && beta >= 0.002
    ensures lambda != 0.0 ==> beta * lambda == 1.0
    ensures beta != 0.0
    ensures beta > 0.0 <==> lambda >= 0.0
  {
    if lambda == 0.0 then 2.0 * Max(1.0, dtMillis) / 1000.0 else 1.0 / lambda
  }

  /** (1 / beta) * exp(-max(0, cost - base) / beta): routes no longer than the base are not penalised. */
  function NegExpTransition(exp: real -> real, beta: real, cost: real, base: real): real
    requires beta != 0.0
  {
    (1.0 / beta) * exp(-1.0 * Max(0.0, cost - base) / beta)
  }

  /** A route whose cost is at most the base gets exactly 1 / beta. */
  lemma ShortRouteGetsRate(exp: real -> real, beta: real, cost: real, base: real)
    requires beta != 0.0 && exp(0.0) == 1.0
    requires cost <= base
    ensures NegExpTransition(exp, beta, cost, base) == 1.0 / beta
  {
    assert -1.0 * Max(0.0, cost - base) / beta == 0.0;
  }

  /** For a positive rate the transition probability is positive and never
      grows with the route cost. */
  lemma TransitionNonIncreasingInCost(exp: real -> real, beta: real, cost1: real, cost2: real, base: real)
    requires beta > 0.0 && NonDecreasing(exp) && Positive(exp)
    requires cost1 <= cost2
    ensures 0.0 < NegExpTransition(exp, beta, cost2, base) <= NegExpTransition(exp, beta, cost1, base)
  {
    var x1 := -1.0 * Max(0.0, cost1 - base) / beta;
    var x2 := -1.0 * Max(0.0, cost2 - base) / beta;
    QuotientMonotone(-1.0 * Max(0.0, cost2 - base), -1.0 * Max(0.0, cost1 - base), beta);
    assert exp(x2) <= exp(x1);
    assert 1.0 / beta > 0.0;
    assert (1.0 / beta) * exp(x2) <= (1.0 / beta) * exp(x1);
  }

  // -----------------------------------------------------------------------
  // Emission rules

  /** The Gaussian constants the matcher keeps: sigma^2, sigmaA (which holds
      10^2), sqrt(2 pi sigma^2) and sqrt(2 pi sigmaA). */
  datatype EmissionConstants = EmissionConstants(sig2: real, sigA: real, sqrt2piSig2: real, sqrt2piSigA: real)
  {
    predicate NonZero()
    {
      sig2 != 0.0 && sigA != 0.0 && sqrt2piSig2 != 0.0 && sqrt2piSigA != 0.0
    }

    predicate Positive()
    {
      sig2 > 0.0 && sigA > 0.0 && sqrt2piSig2 > 0.0 && sqrt2piSigA > 0.0
    }
  }

  /** The smaller of the two arcs between two azimuths, as the source
      computes it from their signed difference. */
  function AzimuthDelta(sampleAzimuth: real, pointAzimuth: real): real
  {
    if sampleAzimuth > pointAzimuth then
      Min(sampleAzimuth - pointAzimuth, 360.0 - (sampleAzimuth - pointAzimuth))
    else
      Min(pointAzimuth - sampleAzimuth, 360.0 - (pointAzimuth - sampleAzimuth))
  }

  lemma AzimuthDeltaSymmetric(a: real, b: real)
    ensures AzimuthDelta(a, b) == AzimuthDelta(b, a)
    ensures AzimuthDelta(a, a) == 0.0
  {
  }

  lemma AzimuthDeltaRange(a: real, b: real)
    requires 0.0 <= a < 360.0 && 0.0 <= b < 360.0
    ensures 0.0 <= AzimuthDelta(a, b) <= 180.0
    ensures AzimuthDelta(a, b) == Min(Abs(a - b), 360.0 - Abs(a - b))
  {
  }

  /** The distance Gaussian: exp(-dz^2 / (2 sigma^2)) / sqrt(2 pi sigma^2). */
  function Gaussian(k: EmissionConstants, exp: real -> real, dz: real): real
    requires k.NonZero()
  {
    1.0 / k.sqrt2piSig2 * exp(-1.0 * dz * dz / (2.0 * k.sig2))
  }

  /** The heading factor as written: exp(-da / (2 sigmaA)) / sqrt(2 pi sigmaA), floored at 1e-2. */
  function HeadingFactor(k: EmissionConstants, exp: real -> real, da: real): (r: real)
    requires k.NonZero()
    ensures r >= 0.01
  {
    Max(0.01, 1.0 / k.sqrt2piSigA * exp(-1.0 * da / (2.0 * k.sigA)))
  }

  function EmissionProbability(k: EmissionConstants, exp: real -> real, sample: MatcherSample, point: RoadPoint, dz: real): (r: real)
    requires k.NonZero()
    ensures !sample.hasAzimuth ==> r == Gaussian(k, exp, dz)
    ensures sample.hasAzimuth ==> r == Gaussian(k, exp, dz) * HeadingFactor(k, exp, AzimuthDelta(sample.azimuth, point.azimuth))
  {
    var emission := Gaussian(k, exp, dz);
    if sample.hasAzimuth then emission * HeadingFactor(k, exp, AzimuthDelta(sample.azimuth, point.azimuth))
    else emission
  }

  lemma GaussianNonIncreasing(k: EmissionConstants, exp: real -> real, dz1: real, dz2: real)
    requires k.Positive() && NonDecreasing(exp) && Positive(exp)
    requires 0.0 <= dz1 <= dz2
    ensures 0.0 < Gaussian(k, exp, dz2) <= Gaussian(k, exp, dz1)
  {
    var x1 := -1.0 * dz1 * dz1 / (2.0 * k.sig2);
    var x2 := -1.0 * dz2 * dz2 / (2.0 * k.sig2);
    assert dz1 * dz1 <= dz2 * dz2 by {
      assert dz1 * dz1 <= dz1 * dz2;
      assert dz1 * dz2 <= dz2 * dz2;
    }
    QuotientMonotone(-1.0 * dz2 * dz2, -1.0 * dz1 * dz1, 2.0 * k.sig2);
    assert exp(x2) <= exp(x1);
    assert 1.0 / k.sqrt2piSig2 > 0.0;
    assert 1.0 / k.sqrt2piSig2 * exp(x2) <= 1.0 / k.sqrt2piSig2 * exp(x1);
  }

  lemma HeadingFactorNonIncreasing(k: EmissionConstants, exp: real -> real, da1: real, da2: real)
    requires k.Positive() && NonDecreasing(exp)
    requires da1 <= da2
    ensures HeadingFactor(k, exp, da2) <= HeadingFactor(k, exp, da1)
  {
    var x1 := -1.0 * da1 / (2.0 * k.sigA);
    var x2 := -1.0 * da2 / (2.0 * k.sigA);
    QuotientMonotone(-1.0 * da2, -1.0 * da1, 2.0 * k.sigA);
    assert exp(x2) <= exp(x1);
    assert 1.0 / k.sqrt2piSigA > 0.0;
    assert 1.0 / k.sqrt2piSigA * exp(x2) <= 1.0 / k.sqrt2piSigA * exp(x1);
  }

  /** The emission probability never grows with the distance to the sample
      nor with the azimuth difference (minimal arc), and with a heading it is
      at least 1e-2 times the distance Gaussian. */
  lemma EmissionNonIncreasing(k: EmissionConstants, exp: real -> real, sample: MatcherSample,
                              p1: RoadPoint, p2: RoadPoint, dz1: real, dz2: real)
    requires k.Positive() && NonDecreasing(exp) && Positive(exp)
    requires 0.0 <= dz1 <= dz2
    requires AzimuthDelta(sample.azimuth, p1.azimuth) <= AzimuthDelta(sample.azimuth, p2.azimuth)
    ensures EmissionProbability(k, exp, sample, p2, dz2) <= EmissionProbability(k, exp, sample, p1, dz1)
  {
    GaussianNonIncreasing(k, exp, dz1, dz2);
    if sample.hasAzimuth {
      var da1, da2 := AzimuthDelta(sample.azimuth, p1.azimuth), AzimuthDelta(sample.azimuth, p2.azimuth);
      HeadingFactorNonIncreasing(k, exp, da1, da2);
      ProductMonotone(Gaussian(k, exp, dz1), Gaussian(k, exp, dz2), HeadingFactor(k, exp, da1), HeadingFactor(k, exp, da2));
    }
  }

  /** With positive constants and a positive exp, every candidate's emission is a positive probability. */
  lemma EmissionPositive(k: EmissionConstants, exp: real -> real, sample: MatcherSample, point: RoadPoint, dz: real)
    requires k.Positive() && Positive(exp)
    ensures EmissionProbability(k, exp, sample, point, dz) > 0.0
  {
    var g := Gaussian(k, exp, dz);
    assert 1.0 / k.sqrt2piSig2 > 0.0;
    assert g > 0.0;
    if sample.hasAzimuth {
      var h := HeadingFactor(k, exp, AzimuthDelta(sample.azimuth, point.azimuth));
      assert g * h > 0.0;
    }
  }

  /** With a heading the emission is at least 1e-2 times the distance Gaussian. */
  lemma EmissionHeadingFloor(k: EmissionConstants, exp: real -> real, sample: MatcherSample, point: RoadPoint, dz: real)
    requires k.Positive() && Positive(exp)
    requires sample.hasAzimuth
    ensures EmissionProbability(k, exp, sample, point, dz) >= 0.01 * Gaussian(k, exp, dz)
  {
    var g, h := Gaussian(k, exp, dz), HeadingFactor(k, exp, AzimuthDelta(sample.azimuth, point.azimuth));
    assert 1.0 / k.sqrt2piSig2 > 0.0;
    assert g > 0.0;
    ProductMonotone(g, g, h, h);
  }

  lemma ProductMonotone(g1: real, g2: real, h1: real, h2: real)
    requires 0.0 < g2 <= g1 && 0.01 <= h2 <= h1
    ensures g2 * h2 <= g1 * h1
    ensures g2 * h2 >= 0.01 * g2
  {
    assert g2 * h2 <= g2 * h1;
    assert g2 * h1 <= g1 * h1;
  }

  // -----------------------------------------------------------------------
  // Candidate generation: the edge dictionary and stickiness

  /** No two points of the set lie on edges with the same id. */
  predicate UniqueEdges(points: set<RoadPoint>)
  {
    forall p, q :: p in points && q in points && p.edge.id == q.edge.id ==> p == q
  }

  /** The edge dictionary: every point of the set under its edge id. */
  function EdgeIndex(points: set<RoadPoint>): (dict: map<int, RoadPoint>)
    requires UniqueEdges(points)
    ensures dict.Keys == set p | p in points :: p.edge.id
    ensures forall p :: p in points ==> dict[p.edge.id] == p
    ensures forall e :: e in dict ==> dict[e] in points && dict[e].edge.id == e
  {
    map p | p in points :: p.edge.id := p
  }

  /** The new point lies behind the previous one along its edge's heading. */
  predicate Behind(point: RoadPoint, previous: RoadPoint)
  {
    || (point.edge.heading == Forward && point.fraction < previous.fraction)
    || (point.edge.heading == Backward && point.fraction > previous.fraction)
  }

  /** A predecessor's point makes the new point on its edge stick to it: the
      edge is in the dictionary, the new point lies behind, and closer than sigma. */
  predicate Sticks(dict: map<int, RoadPoint>, previous: RoadPoint, sigma: real, distance: (Coordinate, Coordinate) -> real)
  {
    && previous.edge.id in dict
    && Behind(dict[previous.edge.id], previous)
    && distance(dict[previous.edge.id].coordinate, previous.coordinate) < sigma
  }

  /** The point set after visiting the predecessors in order: a sticking
      predecessor swaps the dictionary's point on its edge for its own. */
  function Sticky(points: set<RoadPoint>, dict: map<int, RoadPoint>, predecessors: seq<MatcherCandidate>,
                  sigma: real, distance: (Coordinate, Coordinate) -> real): set<RoadPoint>
  {
    if |predecessors| == 0 then points
    else
      var previous := predecessors[|predecessors| - 1].point;
      var s := Sticky(points, dict, predecessors[..|predecessors| - 1], sigma, distance);
      if Sticks(dict, previous, sigma, distance) then (s - {dict[previous.edge.id]}) + {previous} else s
  }

  /** The dictionary points that some predecessor replaces. */
  function Replaced(dict: map<int, RoadPoint>, predecessors: seq<MatcherCandidate>,
                    sigma: real, distance: (Coordinate, Coordinate) -> real): set<RoadPoint>
  {
    set i | 0 <= i < |predecessors| && Sticks(dict, predecessors[i].point, sigma, distance) :: dict[predecessors[i].point.edge.id]
  }

  /** The predecessor points that replace them. */
  function Adopted(dict: map<int, RoadPoint>, predecessors: seq<MatcherCandidate>,
                   sigma: real, distance: (Coordinate, Coordinate) -> real): set<RoadPoint>
  {
    set i | 0 <= i < |predecessors| && Sticks(dict, predecessors[i].point, sigma, distance) :: predecessors[i].point
  }

  /** An adopted predecessor point is never one of the dictionary's points
      (its edge's dictionary point lies strictly behind it). */
  lemma AdoptedNotIndexed(points: set<RoadPoint>, previous: RoadPoint, sigma: real, distance: (Coordinate, Coordinate) -> real)
    requires UniqueEdges(points)
    requires Sticks(EdgeIndex(points), previous, sigma, distance)
    ensures previous !in points
  {
  }

  /** The order of the predecessors does not matter: the result is the set
      minus every replaced point plus every adopted point. */
  lemma {:induction false} StickyClosedForm(points: set<RoadPoint>, predecessors: seq<MatcherCandidate>,
                                            sigma: real, distance: (Coordinate, Coordinate) -> real)
    requires UniqueEdges(points)
    ensures var dict := EdgeIndex(points);
      Sticky(points, dict, predecessors, sigma, distance)
        == (points - Replaced(dict, predecessors, sigma, distance)) + Adopted(dict, predecessors, sigma, distance)
  {
    var dict := EdgeIndex(points);
    var n := |predecessors|;
    if n > 0 {
      var init := predecessors[..n - 1];
      StickyClosedForm(points, init, sigma, distance);
      StickyStep(points, predecessors, sigma, distance);
    }
  }

  /** How the replaced and adopted sets grow with one more predecessor. */
  lemma StickyStep(points: set<RoadPoint>, predecessors: seq<MatcherCandidate>,
                   sigma: real, distance: (Coordinate, Coordinate) -> real)
    requires UniqueEdges(points) && |predecessors| > 0
    ensures var dict := EdgeIndex(points);
      var init := predecessors[..|predecessors| - 1];
      var previous := predecessors[|predecessors| - 1].point;
      && (Sticks(dict, previous, sigma, distance) ==>
            && Replaced(dict, predecessors, sigma, distance) == Replaced(dict, init, sigma, distance) + {dict[previous.edge.id]}
            && Adopted(dict, predecessors, sigma, distance) == Adopted(dict, init, sigma, distance) + {previous}
            && dict[previous.edge.id] !in Adopted(dict, init, sigma, distance)
            && previous !in points)
      && (!Sticks(dict, previous, sigma, distance) ==>
            && Replaced(dict, predecessors, sigma, distance) == Replaced(dict, init, sigma, distance)
            && Adopted(dict, predecessors, sigma, distance) == Adopted(dict, init, sigma, distance))
  {
    var dict := EdgeIndex(points);
    var n := |predecessors|;
    var init := predecessors[..n - 1];
    assert forall i :: 0 <= i < n - 1 ==> init[i] == predecessors[i];
    forall i | 0 <= i < n && Sticks(dict, predecessors[i].point, sigma, distance)
      ensures predecessors[i].point !in points
    {
      AdoptedNotIndexed(points, predecessors[i].point, sigma, distance);
    }
  }

  /** Stickiness touches a point only when a predecessor sticks on its edge:
      such a point is gone and the predecessor's point is in; every other
      point stays, and nothing else comes in. */
  lemma StickinessEffect(points: set<RoadPoint>, predecessors: seq<MatcherCandidate>,
                         sigma: real, distance: (Coordinate, Coordinate) -> real)
    requires UniqueEdges(points)
    ensures var dict := EdgeIndex(points);
      var result := Sticky(points, dict, predecessors, sigma, distance);
      && (forall p :: p in points ==>
            (p in result <==> forall i :: 0 <= i < |predecessors| && predecessors[i].point.edge.id == p.edge.id ==>
                                 !Sticks(dict, predecessors[i].point, sigma, distance)))
      && (forall i :: 0 <= i < |predecessors| && Sticks(dict, predecessors[i].point, sigma, distance) ==>
            predecessors[i].point in result)
      && (forall x :: x in result ==>
            x in points || exists i :: 0 <= i < |predecessors| && Sticks(dict, predecessors[i].point, sigma, distance) && x == predecessors[i].point)
  {
    var dict := EdgeIndex(points);
    StickyClosedForm(points, predecessors, sigma, distance);
    forall i | 0 <= i < |predecessors| && Sticks(dict, predecessors[i].point, sigma, distance)
      ensures predecessors[i].point !in points
    {
      AdoptedNotIndexed(points, predecessors[i].point, sigma, distance);
    }
  }

  // -----------------------------------------------------------------------
  // The matcher

  function Targets(candidates: seq<MatcherCandidate>): (targets: seq<RoadPoint>)
    ensures |targets| == |candidates|
    ensures forall i :: 0 <= i < |candidates| ==> targets[i] == candidates[i].point
  {
    seq(|candidates|, i requires 0 <= i < |candidates| => candidates[i].point)
  }

  predicate Distinct<T(==)>(s: seq<T>)
  {
    forall i, j :: 0 <= i < j < |s| ==> s[i] != s[j]
  }

  class Matcher {
    const radius: (Coordinate, real, int) -> seq<RoadPoint>
    const minimize: seq<RoadPoint> -> set<RoadPoint>
    const router: (RoadPoint, seq<RoadPoint>, real) -> map<RoadPoint, seq<Road>>
    const cost: Route -> real
    const distance: (Coordinate, Coordinate) -> real
    const sqrt: real -> real
    const exp: real -> real
    const pi: real

    var sig2: real
    var sigA: real
    var sqrt2piSig2: real
    var sqrt2piSigA: real
    var lambda: real
    var maxRadius: real
    var maxDistance: real
    var maxCandidates: int

    /** The cached constants agree with sigma^2 and sigmaA = 10^2. */
    ghost predicate Valid()
      reads this
    {
      && sqrt2piSig2 == sqrt(TwoPiTimes(pi, sig2))
      && sigA == 100.0
      && sqrt2piSigA == sqrt(TwoPiTimes(pi, 100.0))
    }

    constructor (radius: (Coordinate, real, int) -> seq<RoadPoint>, minimize: seq<RoadPoint> -> set<RoadPoint>,
                 router: (RoadPoint, seq<RoadPoint>, real) -> map<RoadPoint, seq<Road>>, cost: Route -> real,
                 distance: (Coordinate, Coordinate) -> real, sqrt: real -> real, exp: real -> real, pi: real)
      ensures this.radius == radius && this.minimize == minimize && this.router == router
      ensures this.cost == cost && this.distance == distance
      ensures this.sqrt == sqrt && this.exp == exp && this.pi == pi
      ensures Valid() && sig2 == 25.0
      ensures lambda == 0.0 && maxRadius == 100.0 && maxDistance == 15000.0 && maxCandidates == 8
      ensures IsSqrt(sqrt) ==> Sigma() == 5.0
    {
      this.radius := radius;
      this.minimize := minimize;
      this.router := router;
      this.cost := cost;
      this.distance := distance;
      this.sqrt := sqrt;
      this.exp := exp;
      this.pi := pi;
      sig2 := 5.0 * 5.0;
      sigA := 10.0 * 10.0;
      sqrt2piSig2 := sqrt(TwoPiTimes(pi, 5.0 * 5.0));
      sqrt2piSigA := sqrt(TwoPiTimes(pi, 10.0 * 10.0));
      lambda := 0.0;
      maxRadius := 100.0;
      maxDistance := 15000.0;
      maxCandidates := 8;
      new;
      if IsSqrt(sqrt) {
        SqrtOfSquare(sqrt, 5.0);
      }
    }

    /** Sigma is kept as its square. */
    function Sigma(): real
      reads this
    {
      sqrt(sig2)
    }

    /** Setting sigma updates sigma^2 and sqrt(2 pi sigma^2) together and nothing else. */
    method SetSigma(value: real)
      requires Valid()
      modifies this`sig2, this`sqrt2piSig2
      ensures Valid()
      ensures sig2 == value * value
      ensures IsSqrt(sqrt) ==> Sigma() == Abs(value)
    {
      sig2 := value * value;
      sqrt2piSig2 := sqrt(TwoPiTimes(pi, sig2));
      if IsSqrt(sqrt) {
        SqrtOfSquare(sqrt, value);
      }
    }

    function Constants(): EmissionConstants
      reads this
    {
      EmissionConstants(sig2, sigA, sqrt2piSig2, sqrt2piSigA)
    }

    /** With a true square root, positive pi and non-zero sigma, the cached constants are usable. */
    lemma ValidConstantsArePositive()
      requires Valid() && IsSqrt(sqrt) && pi > 0.0 && sig2 > 0.0
      ensures Constants().Positive() && Constants().NonZero()
    {
      SqrtOfPositive(sqrt, TwoPiTimes(pi, sig2));
      SqrtOfPositive(sqrt, TwoPiTimes(pi, 100.0));
    }

    /** The points the road map returns near the sample, reduced by Minset. */
    function Minimized(sample: MatcherSample): set<RoadPoint>
      reads this
    {
      minimize(radius(sample.coordinate, maxRadius, maxCandidates))
    }

    /** The candidate for a point of the sample, with the point's emission probability. */
    ghost predicate ScoredCandidate(cp: CandidateProbability<MatcherCandidate>, sample: MatcherSample)
      reads this
      requires Constants().NonZero()
    {
      && cp.candidate == MatcherCandidate(sample, cp.candidate.point)
      && cp.probability == EmissionProbability(Constants(), exp, sample, cp.candidate.point,
                                               distance(sample.coordinate, cp.candidate.point.coordinate))
    }

    /** One candidate per point, each with the point's emission probability. */
    ghost predicate ScoresEachPoint(results: seq<CandidateProbability<MatcherCandidate>>, points: set<RoadPoint>, sample: MatcherSample)
      reads this
      requires Constants().NonZero()
    {
      && |results| == |points|
      && PointsOf(results) == points
      && forall i :: 0 <= i < |results| ==> ScoredCandidate(results[i], sample)
    }

    /** Candidates for a sample: the minimised points near it, with
        stickiness applied for the predecessors, each scored by its emission.
        A second point on an already indexed edge fails as the dictionary does. */
    method ComputeCandidates(predecessors: seq<MatcherCandidate>, sample: MatcherSample)
      returns (r: Result<seq<CandidateProbability<MatcherCandidate>>, MatcherError>)
      requires Constants().NonZero()
      ensures r.Failure? <==> !UniqueEdges(Minimized(sample))
      ensures r.Success? ==>
        ScoresEachPoint(r.value, Sticky(Minimized(sample), EdgeIndex(Minimized(sample)), predecessors, Sigma(), distance), sample)
    {
      var points_ := radius(sample.coordinate, maxRadius, maxCandidates);
      var points := minimize(points_);
      var index := IndexByEdge(points);
      if index.Failure? {
        return Failure(index.error);
      }
      var dict := index.value;
      points := ApplyStickiness(points, dict, predecessors);
      var results := ScorePoints(points, sample);
      return Success(results);
    }

    /** The first loop of ComputeCandidates: add every point to the edge dictionary. */
    static method IndexByEdge(points: set<RoadPoint>) returns (r: Result<map<int, RoadPoint>, MatcherError>)
      ensures r.Failure? <==> !UniqueEdges(points)
      ensures r.Success? ==> r.value == EdgeIndex(points)
    {
      var dict: map<int, RoadPoint> := map[];
      var rest := points;
      while rest != {}
        invariant rest <= points
        invariant UniqueEdges(points - rest)
        invariant dict.Keys == set p | p in points - rest :: p.edge.id
        invariant forall p :: p in points - rest ==> dict[p.edge.id] == p
        decreases rest
      {
        var point :| point in rest;
        if point.edge.id in dict {
          var other := dict[point.edge.id];
          assert other in points && other != point;
          return Failure(DuplicateEdge(point.edge.id));
        }
        dict := dict[point.edge.id := point];
        rest := rest - {point};
      }
      assert points - rest == points;
      return Success(dict);
    }

    /** The second loop of ComputeCandidates: visit the predecessors in order. */
    method ApplyStickiness(points: set<RoadPoint>, dict: map<int, RoadPoint>, predecessors: seq<MatcherCandidate>)
      returns (result: set<RoadPoint>)
      ensures result == Sticky(points, dict, predecessors, Sigma(), distance)
    {
      result := points;
      for i := 0 to |predecessors|
        invariant result == Sticky(points, dict, predecessors[..i], Sigma(), distance)
      {
        var predecessor := predecessors[i];
        assert predecessors[..i + 1][..i] == predecessors[..i];
        if predecessor.point.edge.id in dict {
          var point := dict[predecessor.point.edge.id];
          if Behind(point, predecessor.point) && distance(point.coordinate, predecessor.point.coordinate) < Sigma() {
            result := result - {point};
            result := result + {predecessor.point};
          }
        }
      }
      assert predecessors[..|predecessors|] == predecessors;
    }

    /** The third loop of ComputeCandidates: one scored candidate per remaining point. */
    method ScorePoints(points: set<RoadPoint>, sample: MatcherSample)
      returns (results: seq<CandidateProbability<MatcherCandidate>>)
      requires Constants().NonZero()
      ensures ScoresEachPoint(results, points, sample)
    {
      results := [];
      var rest := points;
      while rest != {}
        invariant rest <= points
        invariant |results| + |rest| == |points|
        invariant PointsOf(results) == points - rest
        invariant forall i :: 0 <= i < |results| ==> ScoredCandidate(results[i], sample)
        decreases rest
      {
        var point :| point in rest;
        var dz := distance(sample.coordinate, point.coordinate);
        var emission := EmissionProbability(Constants(), exp, sample, point, dz);
        var candidate := MatcherCandidate(sample, point);
        PointsOfAppend(results, CandidateProbability(candidate, emission));
        results := results + [CandidateProbability(candidate, emission)];
        rest := rest - {point};
      }
    }

    /** The single-pair transition is not supported. */
    function ComputeTransition(predecessor: MatcherCandidate, candidate: MatcherCandidate)
      : (r: Result<TransitionProbability<MatcherTransition>, MatcherError>)
      ensures r == Failure(NotSupported)
    {
      Failure(NotSupported)
    }

    /** The transitions out of one predecessor: an entry for each candidate
        whose point the router reached within the bound, with the route and
        its negative-exponential probability. */
    function TransitionsFrom(predecessor: MatcherCandidate, predSample: MatcherSample, candSample: MatcherSample,
                             candidates: seq<MatcherCandidate>): map<MatcherCandidate, TransitionProbability<MatcherTransition>>
      reads this
    {
      var dt := candSample.time - predSample.time;
      Routed(exp, cost, predecessor.point, router(predecessor.point, Targets(candidates), SearchBound(maxDistance, dt / 1000.0)),
             candidates, Beta(lambda, dt), BaseDistance(distance, predSample, candSample))
    }

    /** Transitions for every predecessor (possibly none), one router call each.
        Adding a predecessor or candidate twice would throw: they are distinct objects. */
    method ComputeTransitions(predSample: MatcherSample, predecessors: seq<MatcherCandidate>,
                              candSample: MatcherSample, candidates: seq<MatcherCandidate>)
      returns (transitions: map<MatcherCandidate, map<MatcherCandidate, TransitionProbability<MatcherTransition>>>)
      requires Distinct(predecessors) && Distinct(candidates)
      ensures transitions.Keys == set p | p in predecessors
      ensures forall p :: p in transitions ==> transitions[p] == TransitionsFrom(p, predSample, candSample, candidates)
    {
      var targets := Targets(candidates);
      transitions := map[];
      var base_ := 1.0 * distance(predSample.coordinate, candSample.coordinate) / 60.0;
      var dt := candSample.time - predSample.time;
      var bound := Max(1000.0, Min(maxDistance, dt / 1000.0 * 100.0));
      assert base_ == BaseDistance(distance, predSample, candSample) && bound == SearchBound(maxDistance, dt / 1000.0);
      for i := 0 to |predecessors|
        invariant transitions.Keys == set p | p in predecessors[..i]
        invariant forall p :: p in transitions ==> transitions[p] == TransitionsFrom(p, predSample, candSample, candidates)
      {
        var predecessor := predecessors[i];
        var routes := router(predecessor.point, targets, bound);
        var map_ := RouteCandidates(predecessor, routes, candidates, dt, base_);
        TransitionsFromIsRouted(predecessor, routes, predSample, candSample, candidates, dt, base_);
        assert predecessors[..i + 1] == predecessors[..i] + [predecessor];
        transitions := transitions[predecessor := map_];
      }
      assert predecessors[..|predecessors|] == predecessors;
    }

    /** The inner loop of ComputeTransitions: a transition for each candidate the router reached. */
    method RouteCandidates(predecessor: MatcherCandidate, routes: map<RoadPoint, seq<Road>>,
                           candidates: seq<MatcherCandidate>, dt: real, base_: real)
      returns (map_: map<MatcherCandidate, TransitionProbability<MatcherTransition>>)
      ensures map_ == Routed(exp, cost, predecessor.point, routes, candidates, Beta(lambda, dt), base_)
    {
      map_ := map[];
      for j := 0 to |candidates|
        invariant map_ == Routed(exp, cost, predecessor.point, routes, candidates[..j], Beta(lambda, dt), base_)
      {
        var candidate := candidates[j];
        assert candidates[..j + 1] == candidates[..j] + [candidate];
        RoutedAppend(exp, cost, predecessor.point, routes, candidates[..j], candidate, Beta(lambda, dt), base_);
        if candidate.point in routes {
          var edges := routes[candidate.point];
          var route := Route(predecessor.point, candidate.point, edges);
          var beta := if lambda == 0.0 then 2.0 * Max(1.0, dt) / 1000.0 else 1.0 / lambda;
          var transition := (1.0 / beta) * exp(-1.0 * Max(0.0, cost(route) - base_) / beta);
          assert beta == Beta(lambda, dt);
          assert TransitionProbability(MatcherTransition(route), transition)
              == RouteTransition(exp, cost, predecessor.point, candidate.point, edges, Beta(lambda, dt), base_);
          map_ := map_[candidate := TransitionProbability(MatcherTransition(route), transition)];
        }
      }
      assert candidates[..|candidates|] == candidates;
    }

    lemma TransitionsFromIsRouted(predecessor: MatcherCandidate, routes: map<RoadPoint, seq<Road>>, predSample: MatcherSample,
                                  candSample: MatcherSample, candidates: seq<MatcherCandidate>, dt: real, base_: real)
      requires dt == candSample.time - predSample.time && base_ == BaseDistance(distance, predSample, candSample)
      requires routes == router(predecessor.point, Targets(candidates), SearchBound(maxDistance, dt / 1000.0))
      ensures TransitionsFrom(predecessor, predSample, candSample, candidates)
           == Routed(exp, cost, predecessor.point, routes, candidates, Beta(lambda, dt), base_)
    {
    }
  }

  /** The points of a list of scored candidates. */
  function PointsOf(results: seq<CandidateProbability<MatcherCandidate>>): set<RoadPoint>
  {
    set i | 0 <= i < |results| :: results[i].candidate.point
  }

  lemma PointsOfAppend(results: seq<CandidateProbability<MatcherCandidate>>, cp: CandidateProbability<MatcherCandidate>)
    ensures PointsOf(results + [cp]) == PointsOf(results) + {cp.candidate.point}
  {
    var r := results + [cp];
    assert r[|results|].candidate.point == cp.candidate.point;
    assert forall i :: 0 <= i < |results| ==> r[i] == results[i];
  }

  /** The transition along the routed edges from source to target. */
  function RouteTransition(exp: real -> real, cost: Route -> real, source: RoadPoint, target: RoadPoint,
                           edges: seq<Road>, beta: real, base_: real): TransitionProbability<MatcherTransition>
    requires beta != 0.0
  {
    var route := Route(source, target, edges);
    TransitionProbability(MatcherTransition(route), NegExpTransition(exp, beta, cost(route), base_))
  }

  lemma RoutedAppend(exp: real -> real, cost: Route -> real, source: RoadPoint, routes: map<RoadPoint, seq<Road>>,
                     candidates: seq<MatcherCandidate>, c: MatcherCandidate, beta: real, base_: real)
    requires beta != 0.0
    ensures Routed(exp, cost, source, routes, candidates + [c], beta, base_)
         == if c.point in routes
            then Routed(exp, cost, source, routes, candidates, beta, base_)[c := RouteTransition(exp, cost, source, c.point, routes[c.point], beta, base_)]
            else Routed(exp, cost, source, routes, candidates, beta, base_)
  {
  }

  /** The transitions to the candidates whose points the router reached. */
  function Routed(exp: real -> real, cost: Route -> real, source: RoadPoint, routes: map<RoadPoint, seq<Road>>,
                  candidates: seq<MatcherCandidate>, beta: real, base_: real)
    : map<MatcherCandidate, TransitionProbability<MatcherTransition>>
    requires beta != 0.0
  {
    map c | c in candidates && c.point in routes :: RouteTransition(exp, cost, source, c.point, routes[c.point], beta, base_)
  }

  /** A candidate has an entry in a predecessor's transition map exactly
      when the router returned a route to its point. */
  lemma TransitionEntryIffRouted(m: Matcher, predecessor: MatcherCandidate, predSample: MatcherSample,
                                 candSample: MatcherSample, candidates: seq<MatcherCandidate>, c: MatcherCandidate)
    requires c in candidates
    ensures var dt := candSample.time - predSample.time;
      var routes := m.router(predecessor.point, Targets(candidates), SearchBound(m.maxDistance, dt / 1000.0));
      c in m.TransitionsFrom(predecessor, predSample, candSample, candidates) <==> c.point in routes
  {
  }
}
