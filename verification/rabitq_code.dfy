/** RaBitQ codes and the estimator (src/ann/rabitq.rs), and SymphonyQG's decomposition of it
    (src/ann/symphony.rs). Square roots are a parameter `root`, any function that is a square
    root on the non-negative reals. */
module RaBitQCodes {
  import opened RealMath
  import opened Vectors
  import opened Rotations
  import opened RaBitQ

  /** f32::MIN_POSITIVE, 2^-126. */
  const MIN_POSITIVE: real := 1.0 / 85070591730234615865843651857942052864.0

  ghost predicate IsSquareRoot(root: real -> real) {
    forall x: real :: x >= 0.0 ==> root(x) >= 0.0 && root(x) * root(x) == x
  }

  datatype Code = Code(codes: seq<nat>, gridNorm: real, cosine: real, distance: real)

  datatype Query = Query(rotated: Vector, sum: real, distance: real)

  /** A quantizer: `half` is 2^(B-1), so codes range over 0 .. 2*half - 1. */
  datatype Quantizer = Quantizer(half: nat, rotation: Rotation) {
    ghost predicate Valid() {
      half in {1, 2, 4, 8, 16, 32, 64, 128} && rotation.Valid() && |rotation.rows| > 0
    }

    function Dimension(): nat { |rotation.rows| }

    /** (2^B - 1) / 2 */
    function Offset(): real { (2 * half - 1) as real / 2.0 }
  }

  /** The signed grid point an unsigned code stands for. */
  function Signed(codes: seq<nat>, offset: real): (y: Vector)
    ensures |y| == |codes|
  {
    seq(|codes|, i requires 0 <= i < |codes| => codes[i] as real - offset)
  }

  function AsVector(codes: seq<nat>): (y: Vector)
    ensures |y| == |codes|
  {
    seq(|codes|, i requires 0 <= i < |codes| => codes[i] as real)
  }

  function Round(x: real): int {
    if x < 0.0 then -((-x + 0.5).Floor) else (x + 0.5).Floor
  }

  /** `as u8` saturates. */
  function RoundToByte(x: real): (r: nat)
    ensures r < 256
  {
    var n := Round(x);
    if n < 0 then 0 else if n > 255 then 255 else n
  }

  // ---------------------------------------------------------------------
  // Encoding
  // ---------------------------------------------------------------------

  /** The level whose magnitude a code's coordinate has. */
  function LevelOf(code: nat, half: nat): nat
    requires code < 2 * half
  {
    if code >= half then code - half else half - 1 - code
  }

  function LevelsOf(codes: seq<nat>, half: nat): (levels: seq<nat>)
    requires forall i :: 0 <= i < |codes| ==> codes[i] < 2 * half
    ensures |levels| == |codes| && OnGrid(levels, |codes|, half)
  {
    seq(|codes|, i requires 0 <= i < |codes| => LevelOf(codes[i], half))
  }

  /** The code of one coordinate: its magnitude, signed like the component, then shifted. */
  function CodeOf(magnitude: real, component: real, offset: real): nat {
    RoundToByte((if component < 0.0 then -magnitude else magnitude) + offset)
  }

  lemma CodeIsExact(level: nat, component: real, q: Quantizer)
    requires q.Valid() && level < q.half
    ensures CodeOf(Magnitude(level), component, q.Offset())
         == (if component < 0.0 then q.half - 1 - level else q.half + level)
    ensures CodeOf(Magnitude(level), component, q.Offset()) as real - q.Offset()
         == (if component < 0.0 then -Magnitude(level) else Magnitude(level))
  {
    var signed := if component < 0.0 then -Magnitude(level) else Magnitude(level);
    var code: nat := if component < 0.0 then q.half - 1 - level else q.half + level;
    assert signed + q.Offset() == code as real;
    assert (code as real + 0.5).Floor == code;
  }

  /** One coordinate of magnitude m[0] and either sign, put in front of the rest. */
  lemma SignedStep(y: Vector, m: Vector, o: Vector, a: Vector)
    requires |y| == |m| == |o| == |a| > 0
    requires m[0] >= 0.0 && (y[0] == m[0] || y[0] == -m[0]) && a[0] == Abs(o[0])
    ensures NormSquared(y[1..]) == NormSquared(m[1..]) ==> NormSquared(y) == NormSquared(m)
    ensures Dot(y[1..], o[1..]) <= Dot(m[1..], a[1..]) ==> Dot(y, o) <= Dot(m, a)
    ensures (y[0] == if o[0] < 0.0 then -m[0] else m[0]) && Dot(y[1..], o[1..]) == Dot(m[1..], a[1..]) ==>
              Dot(y, o) == Dot(m, a)
  {
    hide Times, Dot;
    ProductOfSigns(y[0], m[0], o[0]);
    DotStep(y, o);
    DotStep(m, a);
    DotStep(y, y);
    DotStep(m, m);
  }

  lemma ProductOfSigns(y: real, m: real, o: real)
    requires m >= 0.0 && (y == m || y == -m)
    ensures Times(y, o) <= Times(m, Abs(o)) && Times(y, y) == Times(m, m)
    ensures (y == if o < 0.0 then -m else m) ==> Times(y, o) == Times(m, Abs(o))
  {
    MulNonNegative(m, Abs(o));
    assert y * o == m * o || y * o == -(m * o);
    assert m * Abs(o) == m * o || m * Abs(o) == -(m * o);
  }

  /** Choosing every sign like the component turns <y,o> into the inner product of magnitudes. */
  lemma {:induction false} SignsFollowComponents(codes: seq<nat>, levels: seq<nat>, o: Vector, q: Quantizer)
    requires q.Valid() && |codes| == |levels| == |o| && OnGrid(levels, |o|, q.half)
    requires forall i :: 0 <= i < |o| ==> codes[i] == CodeOf(Magnitude(levels[i]), o[i], q.Offset())
    ensures Dot(Signed(codes, q.Offset()), o) == Dot(Magnitudes(levels), Absolute(o))
    ensures NormSquared(Signed(codes, q.Offset())) == NormSquared(Magnitudes(levels))
    ensures forall i :: 0 <= i < |o| ==> codes[i] < 2 * q.half
  {
    forall i | 0 <= i < |o| ensures codes[i] < 2 * q.half { CodeIsExact(levels[i], o[i], q); }
    if |o| == 0 {
      assert Signed(codes, q.Offset()) == Magnitudes(levels) == Absolute(o) == [];
    } else {
      hide Dot;
      var y, m, a := Signed(codes, q.Offset()), Magnitudes(levels), Absolute(o);
      assert m[0] >= 0.0;
      hide CodeOf, Quantizer.Offset, Magnitude, Abs;
      assert y[1..] == Signed(codes[1..], q.Offset());
      assert m[1..] == Magnitudes(levels[1..]);
      assert a[1..] == Absolute(o[1..]);
      SignsFollowComponents(codes[1..], levels[1..], o[1..], q);
      CodeIsExact(levels[0], o[0], q);
      SignedStep(y, m, o, a);
    }
  }

  /** Any other choice of signs can only lose inner product, at the same norm. */
  lemma {:induction false} SignsCanOnlyLose(codes: seq<nat>, o: Vector, q: Quantizer)
    requires q.Valid() && |codes| == |o| && forall i :: 0 <= i < |codes| ==> codes[i] < 2 * q.half
    ensures Dot(Signed(codes, q.Offset()), o) <= Dot(Magnitudes(LevelsOf(codes, q.half)), Absolute(o))
    ensures NormSquared(Signed(codes, q.Offset())) == NormSquared(Magnitudes(LevelsOf(codes, q.half)))
  {
    var levels := LevelsOf(codes, q.half);
    if |o| == 0 {
      assert Signed(codes, q.Offset()) == Magnitudes(levels) == Absolute(o) == [];
    } else {
      hide Dot;
      var y, m, a := Signed(codes, q.Offset()), Magnitudes(levels), Absolute(o);
      assert m[0] >= 0.0 && (y[0] == m[0] || y[0] == -m[0]);
      hide Quantizer.Offset, Magnitude, Abs, LevelOf;
      assert y[1..] == Signed(codes[1..], q.Offset());
      assert levels[1..] == LevelsOf(codes[1..], q.half);
      assert m[1..] == Magnitudes(levels[1..]);
      assert a[1..] == Absolute(o[1..]);
      SignsCanOnlyLose(codes[1..], o[1..], q);
      SignedStep(y, m, o, a);
    }
  }

  /** What `encode` promises of an off-centroid vector: the code's grid point has the largest
      cosine with the rotated residual of all (2^B)^D grid points, and that cosine is stored. */
  ghost predicate IsOptimalCode(code: Code, o: Vector, q: Quantizer, root: real -> real) {
    && |code.codes| == |o|
    && (forall i :: 0 <= i < |o| ==> code.codes[i] < 2 * q.half)
    && code.gridNorm > 0.0
    && Times(code.gridNorm, code.gridNorm) == NormSquared(Signed(code.codes, q.Offset()))
    && Times(code.cosine, code.gridNorm) == Dot(Signed(code.codes, q.Offset()), o)
    && code.cosine >= 0.0
    && forall other: seq<nat> :: |other| == |o| && (forall i :: 0 <= i < |o| ==> other[i] < 2 * q.half) ==>
         Dot(Signed(other, q.Offset()), o) <= Times(code.cosine, root(NormSquared(Signed(other, q.Offset()))))
  }

  lemma RootPositive(root: real -> real, x: real)
    requires IsSquareRoot(root) && x > 0.0
    ensures root(x) > 0.0 && root(x) * root(x) == x && Times(root(x), root(x)) == x
  {
    assert root(x) * root(x) == x;
  }

  lemma CosineBound(dot: real, theirs: real, theirRoot: real, inner: real, innerRoot: real)
    requires dot <= theirs && theirRoot > 0.0 && innerRoot > 0.0 && theirs / theirRoot <= inner / innerRoot
    ensures dot <= Times(inner / innerRoot, theirRoot)
  {
    DivMul(theirs, theirRoot);
    MulMonotone(theirs / theirRoot, inner / innerRoot, theirRoot);
  }

  lemma NoCodeHasLargerCosine(other: seq<nat>, o: Vector, q: Quantizer, root: real -> real, inner: real, norm: real)
    requires q.Valid() && IsSquareRoot(root) && |other| == |o| > 0
    requires forall i :: 0 <= i < |o| ==> other[i] < 2 * q.half
    requires inner >= 0.0 && norm > 0.0
    requires forall levels :: OnGrid(levels, |o|, q.half) ==>
               !Beats(Dot(Magnitudes(levels), Absolute(o)), NormSquared(Magnitudes(levels)), inner, norm)
    ensures root(norm) > 0.0
    ensures Dot(Signed(other, q.Offset()), o) <= Times(inner / root(norm), root(NormSquared(Signed(other, q.Offset()))))
  {
    hide Dot, Beats, NormSquared, IsSquareRoot, Quantizer.Offset, Times;
    var levels := LevelsOf(other, q.half);
    SignsCanOnlyLose(other, o, q);
    PositiveNorm(levels);
    NonNegativeInner(levels, Absolute(o));
    var theirs, theirNorm := Dot(Magnitudes(levels), Absolute(o)), NormSquared(Magnitudes(levels));
    RootPositive(root, norm);
    RootPositive(root, theirNorm);
    ObjectiveOrder(theirs, root(theirNorm), theirNorm, inner, root(norm), norm);
    CosineBound(Dot(Signed(other, q.Offset()), o), theirs, root(theirNorm), inner, root(norm));
  }

  lemma QuotientNonNegative(x: real, y: real)
    requires x >= 0.0 && y > 0.0
    ensures x / y >= 0.0 && Times(x / y, y) == x
  {
    DivMul(x, y);
    CancelRight(0.0, x / y, y);
  }

  /** The rotated, normalised residual that is quantized. */
  function RotatedResidual(q: Quantizer, raw: Vector, centroid: Vector, distance: real): (o: Vector)
    requires q.rotation.Valid() && |raw| == |centroid| == q.Dimension() && distance != 0.0
    ensures |o| == |raw|
  {
    q.rotation.ApplyInverse(Scale(1.0 / distance, Sub(raw, centroid)))
  }

  /** What encoding promises: a fixed code for a vector on its centroid, an optimal one otherwise. */
  ghost predicate IsEncoding(code: Code, q: Quantizer, raw: Vector, centroid: Vector, root: real -> real)
    requires q.Valid() && |raw| == |centroid| == q.Dimension()
  {
    var distance := root(SquaredL2(raw, centroid));
    if distance <= MIN_POSITIVE then
      code == Code(seq(|raw|, i => (2 * q.half - 1) / 2), 1.0, 1.0, 0.0)
    else
      code.distance == distance && IsOptimalCode(code, RotatedResidual(q, raw, centroid, distance), q, root)
  }

  method Encode(q: Quantizer, raw: Vector, centroid: Vector, root: real -> real) returns (code: Code)
    requires q.Valid() && |raw| == |centroid| == q.Dimension() && IsSquareRoot(root)
    ensures IsEncoding(code, q, raw, centroid, root)
  {
    hide Dot, NormSquared, Beats, IsSquareRoot, Quantizer.Offset, SquaredL2, CodeOf, Times;
    var distance := root(SquaredL2(raw, centroid));
    if distance <= MIN_POSITIVE {
      var middle := (2 * q.half - 1) / 2;
      return Code(seq(|raw|, i => middle), 1.0, 1.0, 0.0);
    }
    var rotated := RotatedResidual(q, raw, centroid, distance);
    var magnitudes, inner, normSquared, levels := BestGridPoint(rotated, q.half);
    var gridNorm := root(normSquared);
    RootPositive(root, normSquared);
    var cosine := if gridNorm > 0.0 then inner / gridNorm else 0.0;
    var codes: seq<nat> := seq(|rotated|,
                               i requires 0 <= i < |rotated| => CodeOf(magnitudes[i], rotated[i], q.Offset()));
    code := Code(codes, gridNorm, cosine, distance);

    SignsFollowComponents(codes, levels, rotated, q);
    QuotientNonNegative(inner, gridNorm);
    forall other: seq<nat> | |other| == |rotated| && forall i :: 0 <= i < |rotated| ==> other[i] < 2 * q.half
      ensures Dot(Signed(other, q.Offset()), rotated) <= Times(cosine, root(NormSquared(Signed(other, q.Offset()))))
    {
      NoCodeHasLargerCosine(other, rotated, q, root, inner, normSquared);
    }
  }

  // ---------------------------------------------------------------------
  // Estimating
  // ---------------------------------------------------------------------

  function PrepareQuery(q: Quantizer, raw: Vector, centroid: Vector, root: real -> real): (query: Query)
    requires q.Valid() && |raw| == |centroid| == q.Dimension()
    ensures |query.rotated| == |raw|
  {
    var distance := root(SquaredL2(raw, centroid));
    var unit := if distance > MIN_POSITIVE then Scale(1.0 / distance, Sub(raw, centroid)) else Zero(|raw|);
    var rotated := q.rotation.ApplyInverse(unit);
    Query(rotated, Sum(rotated), distance)
  }

  /** Equation 12, with the source's guard on a vanishing cosine. */
  function EstimateInnerProduct(q: Quantizer, code: Code, query: Query): real
    requires |code.codes| == |query.rotated| && code.gridNorm != 0.0
  {
    if Abs(code.cosine) < MIN_POSITIVE then 0.0 else QuantizedInner(q, code, query) / code.cosine
  }

  function QuantizedInner(q: Quantizer, code: Code, query: Query): real
    requires |code.codes| == |query.rotated| && code.gridNorm != 0.0
  {
    (Dot(AsVector(code.codes), query.rotated) - q.Offset() * query.sum) / code.gridNorm
  }

  function EstimateSquaredDistance(q: Quantizer, code: Code, query: Query): real
    requires |code.codes| == |query.rotated| && code.gridNorm != 0.0
  {
    CosineLaw(code.distance, query.distance, EstimateInnerProduct(q, code, query))
  }

  /** x^2 + y^2 - 2xy*cosine, clamped at zero. */
  function CosineLaw(x: real, y: real, cosine: real): real {
    var estimate := x * x + y * y - 2.0 * x * y * cosine;
    if estimate < 0.0 then 0.0 else estimate
  }

  /** The unsigned code and the offset correction give back the signed grid point. */
  lemma {:induction false} OffsetCorrection(codes: seq<nat>, offset: real, v: Vector)
    requires |codes| == |v|
    ensures Dot(AsVector(codes), v) - offset * Sum(v) == Dot(Signed(codes, offset), v)
  {
    if |v| != 0 {
      assert AsVector(codes)[1..] == AsVector(codes[1..]);
      assert Signed(codes, offset)[1..] == Signed(codes[1..], offset);
      OffsetCorrection(codes[1..], offset, v[1..]);
      assert codes[0] as real * v[0] - offset * v[0] == (codes[0] as real - offset) * v[0];
    }
  }

  /** A vector queried against its own code is estimated at distance exactly zero. */
  lemma OwnCodeEstimatesZero(q: Quantizer, raw: Vector, centroid: Vector, code: Code, root: real -> real)
    requires q.Valid() && |raw| == |centroid| == q.Dimension() && IsSquareRoot(root)
    requires root(SquaredL2(raw, centroid)) > MIN_POSITIVE && code.distance == root(SquaredL2(raw, centroid))
    requires IsOptimalCode(code, RotatedResidual(q, raw, centroid, code.distance), q, root)
    requires code.cosine >= MIN_POSITIVE
    ensures EstimateInnerProduct(q, code, PrepareQuery(q, raw, centroid, root)) == 1.0
    ensures EstimateSquaredDistance(q, code, PrepareQuery(q, raw, centroid, root)) == 0.0
  {
    hide Dot, NormSquared, IsSquareRoot, SquaredL2, Times, CosineLaw;
    var query := PrepareQuery(q, raw, centroid, root);
    OffsetCorrection(code.codes, q.Offset(), query.rotated);
    QuotientIsOne(code.cosine, code.gridNorm, Dot(Signed(code.codes, q.Offset()), query.rotated));
    OwnDistance(code.distance);
  }

  lemma QuotientIsOne(cosine: real, gridNorm: real, inner: real)
    requires cosine > 0.0 && gridNorm > 0.0 && Times(cosine, gridNorm) == inner
    ensures (inner / gridNorm) / cosine == 1.0
  {
    DivMul(inner, gridNorm);
    CancelRight(inner / gridNorm, cosine, gridNorm);
    CancelRight(cosine, inner / gridNorm, gridNorm);
  }

  lemma OwnDistance(d: real)
    ensures CosineLaw(d, d, 1.0) == 0.0
  {}

  // ---------------------------------------------------------------------
  // SymphonyQG
  // ---------------------------------------------------------------------

  /** A distance, or the source's INFINITY for "no estimate". */
  datatype Estimate = Infinite | Finite(value: real)

  datatype NeighbourCode = NeighbourCode(code: Code, centroidProjection: real)

  datatype VertexCodes = VertexCodes(codes: seq<NeighbourCode>, centroidSum: real)

  datatype RotatedQuery = RotatedQuery(rotated: Vector, sum: real)

  /** The query-independent half, computed when the index is built. */
  function Precompute(q: Quantizer, codes: seq<Code>, centre: Vector): (vertex: VertexCodes)
    requires q.Valid() && |centre| == q.Dimension()
    requires forall i :: 0 <= i < |codes| ==> |codes[i].codes| == q.Dimension()
    ensures |vertex.codes| == |codes|
  {
    var rotated := q.rotation.ApplyInverse(centre);
    VertexCodes(seq(|codes|, i requires 0 <= i < |codes| =>
                  NeighbourCode(codes[i], Dot(AsVector(codes[i].codes), rotated))), Sum(rotated))
  }

  /** The centroid-independent half, computed once per query. */
  function Prepare(q: Quantizer, raw: Vector): (query: RotatedQuery)
    requires q.Valid() && |raw| == q.Dimension()
    ensures |query.rotated| == |raw|
  {
    var rotated := q.rotation.ApplyInverse(raw);
    RotatedQuery(rotated, Sum(rotated))
  }

  /** The quantized inner product from its query and centroid halves, before the bias is removed. */
  function DecomposedInner(q: Quantizer, entry: NeighbourCode, vertex: VertexCodes, query: RotatedQuery,
                           centreDistance: real): real
    requires |entry.code.codes| == |query.rotated| && centreDistance > 0.0 && entry.code.gridNorm > 0.0
  {
    var queryProjection := Dot(AsVector(entry.code.codes), query.rotated);
    var numerator := (queryProjection - entry.centroidProjection) - q.Offset() * (query.sum - vertex.centroidSum);
    MulPositive(entry.code.gridNorm, centreDistance);
    numerator / (entry.code.gridNorm * centreDistance)
  }

  function DecomposedEstimate(q: Quantizer, entry: NeighbourCode, vertex: VertexCodes, query: RotatedQuery,
                              centreDistance: real): Estimate
    requires |entry.code.codes| == |query.rotated|
  {
    if centreDistance <= MIN_POSITIVE || entry.code.gridNorm <= 0.0 then Infinite
    else if Abs(entry.code.cosine) < MIN_POSITIVE then Infinite
    else
      var inner := DecomposedInner(q, entry, vertex, query, centreDistance) / entry.code.cosine;
      Finite(CosineLaw(entry.code.distance, centreDistance, inner))
  }

  /** Rotating the raw query once and subtracting the precomputed centroid half is the same as
      rotating the residual and dividing by its length. */
  lemma DecompositionOfNumerator(q: Quantizer, codes: seq<nat>, raw: Vector, centre: Vector, distance: real)
    requires q.Valid() && |codes| == |raw| == |centre| == q.Dimension() && distance > 0.0
    ensures Correction(q, codes, q.rotation.ApplyInverse(Scale(1.0 / distance, Sub(raw, centre))))
         == 1.0 / distance * (Correction(q, codes, q.rotation.ApplyInverse(raw))
                              - Correction(q, codes, q.rotation.ApplyInverse(centre)))
  {
    hide Dot, Correction, Rotation.ApplyInverse, Scale, Sub;
    var x, y := q.rotation.ApplyInverse(raw), q.rotation.ApplyInverse(centre);
    var c := 1.0 / distance;
    ApplyInverseIsLinear(q.rotation, c, raw, centre);
    CorrectionIsLinear(q, codes, c, x, y);
  }

  /** <codes, v> - offset * sum(v), the numerator of equation 12. */
  function Correction(q: Quantizer, codes: seq<nat>, v: Vector): real
    requires |codes| == |v|
  {
    Dot(AsVector(codes), v) - q.Offset() * Sum(v)
  }

  lemma CorrectionIsLinear(q: Quantizer, codes: seq<nat>, c: real, x: Vector, y: Vector)
    requires |codes| == |x| == |y|
    ensures Correction(q, codes, Scale(c, Sub(x, y))) == c * (Correction(q, codes, x) - Correction(q, codes, y))
  {
    hide Dot, Sum, Quantizer.Offset;
    DotScale(c, AsVector(codes), Sub(x, y));
    DotSub(AsVector(codes), x, y);
    SumScale(c, Sub(x, y));
    SumSub(x, y);
    Factor(c, Dot(AsVector(codes), x) - Dot(AsVector(codes), y), Sum(x) - Sum(y), q.Offset());
    Factor(1.0, Dot(AsVector(codes), x) - Dot(AsVector(codes), y), Sum(x) - Sum(y), q.Offset());
  }

  lemma Factor(c: real, s: real, t: real, o: real)
    ensures c * s - o * (c * t) == c * (s - o * t)
  {}

  lemma QuotientsAgree(numerator: real, distance: real, gridNorm: real)
    requires distance > 0.0 && gridNorm > 0.0
    ensures (1.0 / distance * numerator) / gridNorm == numerator / (gridNorm * distance)
  {
    MulPositive(gridNorm, distance);
    var l, r := (1.0 / distance * numerator) / gridNorm, numerator / (gridNorm * distance);
    DivMul(1.0 / distance * numerator, gridNorm);
    DivMul(1.0, distance);
    DivMul(numerator, gridNorm * distance);
    assert l * (gridNorm * distance) == (l * gridNorm) * distance;
    assert (1.0 / distance * numerator) * distance == (1.0 / distance * distance) * numerator;
    CancelRight(l, r, gridNorm * distance);
    CancelRight(r, l, gridNorm * distance);
  }

  /** The decomposed estimate is the direct one for every vertex, neighbour and query, except in
      exactly the three cases where the source answers INFINITY. */
  lemma DecompositionIsDirectEstimate(q: Quantizer, codes: seq<Code>, centre: Vector, raw: Vector, i: nat,
                                      root: real -> real)
    requires q.Valid() && |centre| == |raw| == q.Dimension() && i < |codes|
    requires forall k :: 0 <= k < |codes| ==> |codes[k].codes| == q.Dimension()
    ensures var distance := root(SquaredL2(raw, centre));
            var vertex := Precompute(q, codes, centre);
            var estimate := DecomposedEstimate(q, vertex.codes[i], vertex, Prepare(q, raw), distance);
            && (estimate.Infinite? <==>
                  distance <= MIN_POSITIVE || codes[i].gridNorm <= 0.0 || Abs(codes[i].cosine) < MIN_POSITIVE)
            && (estimate.Finite? ==>
                  estimate.value == EstimateSquaredDistance(q, codes[i], PrepareQuery(q, raw, centre, root)))
  {
    hide DecomposedInner, QuantizedInner, SquaredL2, CosineLaw;
    var distance := root(SquaredL2(raw, centre));
    if distance > MIN_POSITIVE && codes[i].gridNorm > 0.0 {
      InnerProductsAgree(q, codes, centre, raw, i, root);
    }
  }

  lemma InnerProductsAgree(q: Quantizer, codes: seq<Code>, centre: Vector, raw: Vector, i: nat, root: real -> real)
    requires q.Valid() && |centre| == |raw| == q.Dimension() && i < |codes|
    requires forall k :: 0 <= k < |codes| ==> |codes[k].codes| == q.Dimension()
    requires root(SquaredL2(raw, centre)) > MIN_POSITIVE && codes[i].gridNorm > 0.0
    ensures DecomposedInner(q, Precompute(q, codes, centre).codes[i], Precompute(q, codes, centre), Prepare(q, raw),
                            root(SquaredL2(raw, centre)))
         == QuantizedInner(q, codes[i], PrepareQuery(q, raw, centre, root))
  {
    hide Dot, Sum, Quantizer.Offset, SquaredL2;
    var distance := root(SquaredL2(raw, centre));
    var code := codes[i];
    DecompositionOfNumerator(q, code.codes, raw, centre, distance);
    var x, y := q.rotation.ApplyInverse(raw), q.rotation.ApplyInverse(centre);
    var numerator := Correction(q, code.codes, x) - Correction(q, code.codes, y);
    NumeratorRegroups(Dot(AsVector(code.codes), x), Dot(AsVector(code.codes), y), q.Offset(), Sum(x), Sum(y));
    QuotientsAgree(numerator, distance, code.gridNorm);
  }

  lemma NumeratorRegroups(dx: real, dy: real, o: real, sx: real, sy: real)
    ensures (dx - dy) - o * (sx - sy) == (dx - o * sx) - (dy - o * sy)
  {}
}
