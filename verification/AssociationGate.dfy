/** mahalanobis_squared: the gate between a detection and a map landmark. */
module AssociationGate {
  import opened Arithmetic
  import opened SlamTypes

  /** A symmetric 2x2 matrix. */
  datatype Sym2 = Sym2(xx: real, xy: real, yy: real) {
    function Times(v: Vec): Vec { Vec(xx * v.x + xy * v.y, xy * v.x + yy * v.y) }
    function Det(): real { xx * yy - xy * xy }
    /** v' * this * v */
    function Quad(v: Vec): real { Dot(v, Times(v)) }
    /** No negative entry on the diagonal, and no negative determinant. */
    predicate IsCovariance() { xx >= 0.0 && yy >= 0.0 && Det() >= 0.0 }
    /**
      What the pivoted LDLT decomposition solves for v: the larger diagonal entry is eliminated first, and a
      pivot of 0 contributes 0 instead of dividing by it.
    */
    function Solve(v: Vec): Vec {
      if xx >= yy then Eliminate(xx, xy, yy, v.x, v.y)
      else
        var w := Eliminate(yy, xy, xx, v.y, v.x);
        Vec(w.y, w.x)
    }
  }

  /** Solves [p off; off q] * [a; b] = [u; w] by elimination of p. */
  function Eliminate(p: real, off: real, q: real, u: real, w: real): Vec {
    if p == 0.0 then Vec(0.0, 0.0)
    else
      var l := off / p;
      var d := q - l * off;
      var b := if d == 0.0 then 0.0 else (w - l * u) / d;
      Vec(u / p - l * b, b)
  }

  /** Odometry variance per frame in position and yaw, and detection variance. */
  datatype Noise = Noise(xy: real, yaw: real, detection: real) {
    predicate NonNegative() { xy >= 0.0 && yaw >= 0.0 && detection >= 0.0 }
  }

  /** J * (frames * diag(xy, xy, yaw)) * J' + detection * I, with J = [1 0 -lever.y; 0 1 lever.x]. */
  function Innovation(lever: Vec, frames: real, noise: Noise): Sym2 {
    var pxy, pyaw := frames * noise.xy, frames * noise.yaw;
    Sym2(pxy + pyaw * (lever.y * lever.y) + noise.detection,
         -(pyaw * (lever.x * lever.y)),
         pxy + pyaw * (lever.x * lever.x) + noise.detection)
  }

  /** Variances are squares of the configured standard deviations. */
  function NoiseFrom(driftXy: real, driftYaw: real, measurementStd: real): (noise: Noise)
    ensures noise.NonNegative()
  {
    SquareIsNonNegative(driftXy);
    SquareIsNonNegative(driftYaw);
    SquareIsNonNegative(measurementStd);
    Noise(driftXy * driftXy, driftYaw * driftYaw, measurementStd * measurementStd)
  }

  function MahalanobisSquared(detection: Vec, landmark: Vec, car: Vec, frames: real, noise: Noise): real {
    var innovation := Sub(detection, landmark);
    Dot(innovation, Innovation(Sub(landmark, car), frames, noise).Solve(innovation))
  }

  /** The determinant is the product of the variances along and across the lever. */
  lemma DetFactors(lever: Vec, frames: real, noise: Noise)
    ensures var along := frames * noise.xy + noise.detection;
            Innovation(lever, frames, noise).Det() == along * (along + frames * noise.yaw * Dot(lever, lever))
  {
    DetIdentity(frames * noise.xy + noise.detection, frames * noise.yaw, lever.x, lever.y);
  }

  lemma DetIdentity(e: real, w: real, x: real, y: real)
    ensures (e + w * (y * y)) * (e + w * (x * x)) - (w * (x * y)) * (w * (x * y)) == e * (e + w * (x * x + y * y))
  {
    assert (w * (y * y)) * (w * (x * x)) == (w * (x * y)) * (w * (x * y));
  }

  /**
    The covariance is invertible exactly when there is position drift or detection noise; its determinant is
    then positive.
  */
  lemma InvertibleIff(lever: Vec, frames: real, noise: Noise)
    requires noise.NonNegative() && frames > 0.0
    ensures Innovation(lever, frames, noise).Det() > 0.0 <==> noise.xy > 0.0 || noise.detection > 0.0
    ensures Innovation(lever, frames, noise).IsCovariance()
  {
    DetFactors(lever, frames, noise);
    SumOfSquares(lever);
    DiagonalIsNonNegative(lever, frames, noise);
    hide Dot, Innovation;
    Positive(frames, noise.xy);
    Positive(frames, noise.yaw);
    Positive(frames * noise.yaw, Dot(lever, lever));
    var along, across := frames * noise.xy + noise.detection, frames * noise.yaw * Dot(lever, lever);
    SignOfDet(along, along + across, Innovation(lever, frames, noise).Det());
    if noise.xy == 0.0 { ZeroTimes(noise.xy, frames); } else { Positive(frames, noise.xy); }
  }

  lemma DiagonalIsNonNegative(lever: Vec, frames: real, noise: Noise)
    requires noise.NonNegative() && frames >= 0.0
    ensures var s := Innovation(lever, frames, noise); s.xx >= 0.0 && s.yy >= 0.0
  {
    SquareIsNonNegative(lever.x);
    SquareIsNonNegative(lever.y);
    Positive(frames, noise.xy);
    Positive(frames, noise.yaw);
    Positive(frames * noise.yaw, lever.x * lever.x);
    Positive(frames * noise.yaw, lever.y * lever.y);
  }

  lemma SignOfDet(along: real, total: real, det: real)
    requires 0.0 <= along <= total && det == along * total
    ensures det >= 0.0 && (det > 0.0 <==> along > 0.0)
  {
    Positive(along, total);
    if along == 0.0 { ZeroTimes(along, total); }
  }

  lemma ZeroTimes(x: real, y: real)
    requires x == 0.0
    ensures x * y == 0.0
  {
  }

  // ------------------------------------------------------------------ solving

  /** x solves [p off; off q] * x = [u; w]. */
  predicate Solves(p: real, off: real, q: real, u: real, w: real, x: Vec) {
    p * x.x + off * x.y == u && off * x.x + q * x.y == w
  }

  /** What elimination leaves: the pivots p and d, and the right-hand side in their terms. */
  lemma EliminationFacts(p: real, off: real, q: real, u: real, w: real, l: real, d: real)
    requires p > 0.0 && l == off / p && d == q - l * off
    ensures p * l == off && p * d == p * q - off * off
  {
    assert p * l == off;
    assert p * (l * off) == off * off;
  }

  lemma EliminateSolves(p: real, off: real, q: real, u: real, w: real, det: real)
    requires p > 0.0 && det == p * q - off * off && det > 0.0
    ensures Solves(p, off, q, u, w, Eliminate(p, off, q, u, w))
  {
    var l := off / p;
    var d := q - l * off;
    EliminationFacts(p, off, q, u, w, l, d);
    assert d != 0.0;
    var b := (w - l * u) / d;
    SubstituteBack(p, off, q, u, w, l, d, b, u / p - l * b);
  }

  lemma SubstituteBack(p: real, off: real, q: real, u: real, w: real, l: real, d: real, b: real, a: real)
    requires p > 0.0 && p * l == off && d == q - l * off && d != 0.0
    requires b == (w - l * u) / d && a == u / p - l * b
    ensures p * a + off * b == u && off * a + q * b == w
  {
    var c := u / p;
    assert p * c == u && d * b == w - l * u;
    assert p * a == p * c - (p * l) * b;
    assert off * a == l * (p * a);
    assert l * (u - off * b) == l * u - (l * off) * b;
  }

  /** A positive determinant needs a positive larger diagonal entry. */
  lemma LargerPivot(s: Sym2)
    requires s.IsCovariance() && s.Det() > 0.0
    ensures s.xx >= s.yy ==> s.xx > 0.0
    ensures s.yy >= s.xx ==> s.yy > 0.0
  {
    SquareIsNonNegative(s.xy);
    if s.xx == 0.0 { ZeroTimes(s.xx, s.yy); }
    if s.yy == 0.0 { ZeroTimes(s.yy, s.xx); }
  }

  lemma PivotSolves(s: Sym2, v: Vec)
    requires s.IsCovariance() && s.Det() > 0.0
    ensures if s.xx >= s.yy then Solves(s.xx, s.xy, s.yy, v.x, v.y, Eliminate(s.xx, s.xy, s.yy, v.x, v.y))
            else Solves(s.yy, s.xy, s.xx, v.y, v.x, Eliminate(s.yy, s.xy, s.xx, v.y, v.x))
  {
    hide Eliminate, Solves;
    LargerPivot(s);
    if s.xx >= s.yy {
      EliminateSolves(s.xx, s.xy, s.yy, v.x, v.y, s.Det());
    } else {
      EliminateSolves(s.yy, s.xy, s.xx, v.y, v.x, s.Det());
    }
  }

  lemma SolvesIsTimes(s: Sym2, v: Vec, x: Vec)
    requires Solves(s.xx, s.xy, s.yy, v.x, v.y, x)
    ensures s.Times(x) == v
  {
  }

  lemma SolvesSwapped(s: Sym2, v: Vec, x: Vec)
    requires Solves(s.yy, s.xy, s.xx, v.y, v.x, x)
    ensures s.Times(Vec(x.y, x.x)) == v
  {
  }

  /** Where the covariance can be inverted, the decomposition does so. */
  lemma SolveIsInverse(s: Sym2, v: Vec)
    requires s.IsCovariance() && s.Det() > 0.0
    ensures s.Times(s.Solve(v)) == v
  {
    hide Eliminate, Solves;
    PivotSolves(s, v);
    if s.xx >= s.yy {
      SolvesIsTimes(s, v, Eliminate(s.xx, s.xy, s.yy, v.x, v.y));
    } else {
      SolvesSwapped(s, v, Eliminate(s.yy, s.xy, s.xx, v.y, v.x));
    }
  }

  /** What one frame of odometry drift adds to the quadratic form. */
  function DriftQuad(lever: Vec, noise: Noise, v: Vec): real {
    var turn := v.y * lever.x - v.x * lever.y;
    noise.xy * Dot(v, v) + noise.yaw * (turn * turn)
  }

  lemma DriftQuadIsNonNegative(lever: Vec, noise: Noise, v: Vec)
    requires noise.NonNegative()
    ensures DriftQuad(lever, noise, v) >= 0.0
  {
    var turn := v.y * lever.x - v.x * lever.y;
    SquareIsNonNegative(turn);
    SumOfSquares(v);
    hide Dot;
    Positive(noise.xy, Dot(v, v));
    Positive(noise.yaw, turn * turn);
  }

  lemma SumOfSquares(v: Vec)
    ensures Dot(v, v) >= 0.0
  {
    SquareIsNonNegative(v.x);
    SquareIsNonNegative(v.y);
  }

  predicate HasEntries(s: Sym2, lever: Vec, frames: real, noise: Noise) {
    && s.xx == frames * noise.xy + frames * noise.yaw * (lever.y * lever.y) + noise.detection
    && s.xy == -(frames * noise.yaw * (lever.x * lever.y))
    && s.yy == frames * noise.xy + frames * noise.yaw * (lever.x * lever.x) + noise.detection
  }

  predicate IsQuad(quad: real, s: Sym2, v: Vec) {
    quad == v.x * (s.xx * v.x + s.xy * v.y) + v.y * (s.xy * v.x + s.yy * v.y)
  }

  predicate IsDrift(drift: real, lever: Vec, noise: Noise, v: Vec, square: real) {
    var turn := v.y * lever.x - v.x * lever.y;
    drift == noise.xy * square + noise.yaw * (turn * turn)
  }

  lemma Entries(lever: Vec, frames: real, noise: Noise)
    ensures HasEntries(Innovation(lever, frames, noise), lever, frames, noise)
  {
  }

  lemma QuadIs(s: Sym2, v: Vec)
    ensures IsQuad(s.Quad(v), s, v)
  {
  }

  lemma DriftQuadIs(lever: Vec, noise: Noise, v: Vec)
    ensures IsDrift(DriftQuad(lever, noise, v), lever, noise, v, Dot(v, v))
  {
    hide Dot;
  }

  /** The quadratic form of the covariance grows linearly with the frames since the landmark was seen. */
  lemma QuadSplits(lever: Vec, frames: real, noise: Noise, v: Vec)
    ensures Innovation(lever, frames, noise).Quad(v)
         == frames * DriftQuad(lever, noise, v) + noise.detection * Dot(v, v)
  {
    hide Innovation, DriftQuad, Sym2.Quad, HasEntries, IsQuad, IsDrift;
    var s := Innovation(lever, frames, noise);
    Entries(lever, frames, noise);
    QuadIs(s, v);
    DriftQuadIs(lever, noise, v);
    var square := Dot(v, v);
    assert square == v.x * v.x + v.y * v.y;
    hide Dot;
    FormSplits(s, lever, frames, noise, v, s.Quad(v), DriftQuad(lever, noise, v), square);
  }

  lemma FormSplits(s: Sym2, lever: Vec, frames: real, noise: Noise, v: Vec, quad: real, drift: real, square: real)
    requires HasEntries(s, lever, frames, noise) && IsQuad(quad, s, v) && IsDrift(drift, lever, noise, v, square)
    requires square == v.x * v.x + v.y * v.y
    ensures quad == frames * drift + noise.detection * square
  {
    QuadIdentity(frames, noise.xy, noise.yaw, noise.detection, lever.x, lever.y, v.x, v.y, s.xx, s.xy, s.yy,
                 drift, square);
  }

  lemma QuadIsNonNegative(lever: Vec, frames: real, noise: Noise, v: Vec)
    requires noise.NonNegative() && frames >= 0.0
    ensures Innovation(lever, frames, noise).Quad(v) >= 0.0
  {
    QuadSplits(lever, frames, noise, v);
    DriftQuadIsNonNegative(lever, noise, v);
    SumOfSquares(v);
    hide DriftQuad, Dot;
    Positive(frames, DriftQuad(lever, noise, v));
    Positive(noise.detection, Dot(v, v));
  }

  lemma QuadIdentity(n: real, p: real, w: real, r: real, lx: real, ly: real, x: real, y: real,
                     xx: real, xy: real, yy: real, drift: real, square: real)
    requires xx == n * p + n * w * (ly * ly) + r && xy == -(n * w * (lx * ly)) && yy == n * p + n * w * (lx * lx) + r
    requires square == x * x + y * y && drift == p * square + w * ((y * lx - x * ly) * (y * lx - x * ly))
    ensures x * (xx * x + xy * y) + y * (xy * x + yy * y) == n * drift + r * square
  {
    var k := n * w;
    assert (y * lx - x * ly) * (y * lx - x * ly) == y * y * lx * lx - 2.0 * x * y * lx * ly + x * x * ly * ly;
  }

  /** q(x - y) = q(x) - 2 (s x).y + q(y) */
  lemma QuadOfDifference(s: Sym2, x: Vec, y: Vec)
    ensures s.Quad(Sub(x, y)) == s.Quad(x) - 2.0 * Dot(s.Times(x), y) + s.Quad(y)
  {
    DifferenceIdentity(s.xx, s.xy, s.yy, x.x, x.y, y.x, y.y);
  }

  lemma DifferenceIdentity(a: real, b: real, c: real, x: real, y: real, u: real, w: real)
    ensures (x - u) * (a * (x - u) + b * (y - w)) + (y - w) * (b * (x - u) + c * (y - w))
         == x * (a * x + b * y) + y * (b * x + c * y) - 2.0 * ((a * x + b * y) * u + (b * x + c * y) * w)
          + (u * (a * u + b * w) + w * (b * u + c * w))
  {
  }

  /** Where the covariance can be inverted, the squared distance is its quadratic form at the solved innovation. */
  lemma DistanceIsQuad(detection: Vec, landmark: Vec, car: Vec, frames: real, noise: Noise)
    requires var s := Innovation(Sub(landmark, car), frames, noise); s.IsCovariance() && s.Det() > 0.0
    ensures var s, i := Innovation(Sub(landmark, car), frames, noise), Sub(detection, landmark);
            MahalanobisSquared(detection, landmark, car, frames, noise) == s.Quad(s.Solve(i)) == Dot(i, s.Solve(i))
  {
    var s, i := Innovation(Sub(landmark, car), frames, noise), Sub(detection, landmark);
    SolveIsInverse(s, i);
    hide Innovation;
    var x := s.Solve(i);
    assert s.Quad(x) == Dot(x, i) by { hide Dot; }
    assert Dot(x, i) == Dot(i, x);
  }

  /**
    (J P J' + R) v == i, where P is the drift of so many frames, R the detection noise, and J takes a change of the
    car's pose to the shift of a landmark at the lever: turning by the yaw moves it across the lever.
  */
  predicate Spreads(lever: Vec, frames: real, noise: Noise, v: Vec, i: Vec) {
    var yaw := frames * noise.yaw * (v.y * lever.x - v.x * lever.y);
    && i.x == frames * noise.xy * v.x - lever.y * yaw + noise.detection * v.x
    && i.y == frames * noise.xy * v.y + lever.x * yaw + noise.detection * v.y
  }

  lemma InnovationSpreads(lever: Vec, frames: real, noise: Noise, v: Vec)
    ensures Spreads(lever, frames, noise, v, Innovation(lever, frames, noise).Times(v))
  {
    hide Innovation, HasEntries;
    Entries(lever, frames, noise);
    EntriesSpread(Innovation(lever, frames, noise), lever, frames, noise, v);
    hide Spreads;
  }

  lemma EntriesSpread(s: Sym2, lever: Vec, frames: real, noise: Noise, v: Vec)
    requires HasEntries(s, lever, frames, noise)
    ensures Spreads(lever, frames, noise, v, s.Times(v))
  {
    SpreadIdentity(frames * noise.xy, frames * noise.yaw, noise.detection, lever.x, lever.y, v.x, v.y,
                   s.xx, s.xy, s.yy);
  }

  lemma SpreadIdentity(e: real, w: real, r: real, lx: real, ly: real, x: real, y: real, xx: real, xy: real, yy: real)
    requires xx == e + w * (ly * ly) + r && xy == -(w * (lx * ly)) && yy == e + w * (lx * lx) + r
    ensures xx * x + xy * y == e * x - ly * (w * (y * lx - x * ly)) + r * x
    ensures xy * x + yy * y == e * y + lx * (w * (y * lx - x * ly)) + r * y
  {
    var p, q := lx * ly, w * (y * lx - x * ly);
    assert ly * q == w * p * y - w * (ly * ly) * x;
    assert lx * q == w * (lx * lx) * y - w * p * x;
  }

  lemma TimesIsSymmetric(s: Sym2, x: Vec, y: Vec)
    ensures Dot(s.Times(x), y) == Dot(x, s.Times(y))
  {
  }

  /**
    The squared distance, where there is drift in position or detection noise: the innovation times whatever the
    covariance of drift and detection maps to the innovation.
  */
  lemma DistanceIs(detection: Vec, landmark: Vec, car: Vec, frames: real, noise: Noise, x: Vec)
    requires noise.NonNegative() && frames > 0.0 && (noise.xy > 0.0 || noise.detection > 0.0)
    requires Spreads(Sub(landmark, car), frames, noise, x, Sub(detection, landmark))
    ensures MahalanobisSquared(detection, landmark, car, frames, noise) == Dot(Sub(detection, landmark), x)
  {
    var lever, i := Sub(landmark, car), Sub(detection, landmark);
    var s := Innovation(lever, frames, noise);
    InvertibleIff(lever, frames, noise);
    InnovationSpreads(lever, frames, noise, x);
    assert s.Times(x) == i;
    DistanceIsQuad(detection, landmark, car, frames, noise);
    SolveIsInverse(s, i);
    TimesIsSymmetric(s, x, s.Solve(i));
    hide Innovation, Spreads, Sub, Sym2.Times, Sym2.Solve, Sym2.Quad, Sym2.Det;
    assert Dot(i, x) == Dot(x, i);
  }

  // ------------------------------------------------------------------ a singular covariance

  /** The larger entry of a singular covariance's diagonal, and the innovation along it. */
  function Pivot(s: Sym2): real { if s.xx >= s.yy then s.xx else s.yy }

  function AlongPivot(s: Sym2, v: Vec): real { if s.xx >= s.yy then v.x else v.y }

  lemma EliminateSingular(p: real, off: real, q: real, u: real, w: real)
    requires p > 0.0 && p * q - off * off == 0.0
    ensures Eliminate(p, off, q, u, w) == Vec(u / p, 0.0)
  {
    var l := off / p;
    var d := q - l * off;
    EliminationFacts(p, off, q, u, w, l, d);
    ZeroProduct(p, d);
    ZeroTimes(0.0, l);
  }

  lemma ZeroProduct(x: real, y: real)
    requires x != 0.0 && x * y == 0.0
    ensures y == 0.0
  {
  }

  /** Against a singular covariance only the component along the pivot counts, and without a pivot nothing does. */
  lemma SingularDistance(s: Sym2, v: Vec)
    requires s.IsCovariance() && s.Det() == 0.0
    ensures Dot(v, s.Solve(v)) == if Pivot(s) == 0.0 then 0.0 else AlongPivot(s, v) * (AlongPivot(s, v) / Pivot(s))
  {
    if Pivot(s) > 0.0 {
      if s.xx >= s.yy {
        EliminateSingular(s.xx, s.xy, s.yy, v.x, v.y);
      } else {
        EliminateSingular(s.yy, s.xy, s.xx, v.y, v.x);
      }
    }
    hide Eliminate;
  }

  lemma SquareOverIsNonNegative(u: real, p: real)
    requires p > 0.0
    ensures u * (u / p) >= 0.0
  {
    var c := u / p;
    assert u == p * c;
    SquareIsNonNegative(c);
    Positive(p, c * c);
    assert u * c == p * (c * c);
  }

  /** A larger pivot gives a smaller square. */
  lemma SquareOverShrinks(u: real, p: real, q: real)
    requires 0.0 < p <= q
    ensures u * (u / q) <= u * (u / p)
  {
    var c, d := u / p, u / q;
    assert u == p * c && u == q * d;
    SquareOverIsNonNegative(u, q);
    Positive(q - p, u * d);
    assert p * (u * c) == u * u && q * (u * d) == u * u;
    assert (q - p) * (u * d) == q * (u * d) - p * (u * d);
    if u * d > u * c {
      Positive(p, u * d - u * c);
      assert p * (u * d - u * c) == p * (u * d) - p * (u * c);
    }
  }

  /** Without position drift and detection noise the covariance is singular at every age. */
  lemma SingularForEver(lever: Vec, frames: real, noise: Noise)
    requires noise.NonNegative() && frames > 0.0 && noise.xy == 0.0 && noise.detection == 0.0
    ensures Innovation(lever, frames, noise).IsCovariance() && Innovation(lever, frames, noise).Det() == 0.0
  {
    InvertibleIff(lever, frames, noise);
    hide Innovation;
  }

  /** It is then yaw drift alone, which grows with the frames. */
  lemma SingularGrows(lever: Vec, m: real, n: real, noise: Noise)
    requires noise.NonNegative() && 0.0 < m <= n && noise.xy == 0.0 && noise.detection == 0.0
    ensures var s, t := Innovation(lever, m, noise), Innovation(lever, n, noise);
            (s.xx >= s.yy <==> t.xx >= t.yy) && 0.0 <= Pivot(s) <= Pivot(t) && (Pivot(s) == 0.0 <==> Pivot(t) == 0.0)
  {
    hide Innovation;
    YawDriftAlone(lever, m, noise);
    YawDriftAlone(lever, n, noise);
    PivotGrows(Innovation(lever, m, noise), Innovation(lever, n, noise), m, n,
               noise.yaw * (lever.y * lever.y), noise.yaw * (lever.x * lever.x));
  }

  lemma PivotGrows(s: Sym2, t: Sym2, m: real, n: real, across: real, beside: real)
    requires 0.0 < m <= n && across >= 0.0 && beside >= 0.0
    requires s.xx == m * across && s.yy == m * beside && t.xx == n * across && t.yy == n * beside
    ensures (s.xx >= s.yy <==> t.xx >= t.yy) && 0.0 <= Pivot(s) <= Pivot(t) && (Pivot(s) == 0.0 <==> Pivot(t) == 0.0)
  {
    ScaleKeepsOrder(m, across, beside);
    ScaleKeepsOrder(n, across, beside);
    ScaleGrows(m, n, across, s.xx, t.xx);
    ScaleGrows(m, n, beside, s.yy, t.yy);
  }

  lemma YawDriftAlone(lever: Vec, frames: real, noise: Noise)
    requires noise.NonNegative() && noise.xy == 0.0 && noise.detection == 0.0
    ensures var s := Innovation(lever, frames, noise);
            var across, beside := noise.yaw * (lever.y * lever.y), noise.yaw * (lever.x * lever.x);
            s.xx == frames * across && s.yy == frames * beside && across >= 0.0 && beside >= 0.0
  {
    ZeroTimes(noise.xy, frames);
    SquareIsNonNegative(lever.x);
    SquareIsNonNegative(lever.y);
    Positive(noise.yaw, lever.x * lever.x);
    Positive(noise.yaw, lever.y * lever.y);
  }

  lemma ScaleKeepsOrder(f: real, x: real, y: real)
    requires f > 0.0
    ensures f * x >= f * y <==> x >= y
  {
    if x > y { Positive(f, x - y); }
    if y > x { Positive(f, y - x); }
  }

  lemma ScaleGrows(m: real, n: real, x: real, mx: real, nx: real)
    requires 0.0 < m <= n && x >= 0.0 && mx == m * x && nx == n * x
    ensures 0.0 <= mx <= nx && (mx == 0.0 <==> nx == 0.0)
  {
    Positive(m, x);
    Positive(n, x);
    Positive(n - m, x);
    assert (n - m) * x == n * x - m * x;
    if x == 0.0 {
      ZeroTimes(x, m);
      ZeroTimes(x, n);
    }
  }

  // ------------------------------------------------------------------ the gate

  /** The squared distance is never negative, whatever the configuration. */
  lemma DistanceIsNonNegative(detection: Vec, landmark: Vec, car: Vec, frames: real, noise: Noise)
    requires noise.NonNegative() && frames > 0.0
    ensures MahalanobisSquared(detection, landmark, car, frames, noise) >= 0.0
  {
    var s, i := Innovation(Sub(landmark, car), frames, noise), Sub(detection, landmark);
    InvertibleIff(Sub(landmark, car), frames, noise);
    if s.Det() > 0.0 {
      DistanceIsQuad(detection, landmark, car, frames, noise);
      QuadIsNonNegative(Sub(landmark, car), frames, noise, s.Solve(i));
    } else {
      SingularDistance(s, i);
      if Pivot(s) > 0.0 { SquareOverIsNonNegative(AlongPivot(s, i), Pivot(s)); }
    }
  }

  lemma InvertibleDistanceShrinks(detection: Vec, landmark: Vec, car: Vec, m: real, n: real, noise: Noise)
    requires noise.NonNegative() && 0.0 < m <= n && (noise.xy > 0.0 || noise.detection > 0.0)
    ensures MahalanobisSquared(detection, landmark, car, n, noise)
         <= MahalanobisSquared(detection, landmark, car, m, noise)
  {
    var lever, i := Sub(landmark, car), Sub(detection, landmark);
    InvertibleIff(lever, m, noise);
    InvertibleIff(lever, n, noise);
    var s, t := Innovation(lever, m, noise), Innovation(lever, n, noise);
    var x, y := s.Solve(i), t.Solve(i);
    DistanceIsQuad(detection, landmark, car, m, noise);
    DistanceIsQuad(detection, landmark, car, n, noise);
    SolveIsInverse(s, i);
    QuadOfDifference(s, x, y);
    QuadIsNonNegative(lever, m, noise, Sub(x, y));
    QuadSplits(lever, m, noise, y);
    QuadSplits(lever, n, noise, y);
    DriftQuadIsNonNegative(lever, noise, y);
    hide Dot, DriftQuad, Innovation, Eliminate;
    assert 0.0 <= s.Quad(x) - 2.0 * t.Quad(y) + s.Quad(y);
    Positive(n - m, DriftQuad(lever, noise, y));
    assert (n - m) * DriftQuad(lever, noise, y) == n * DriftQuad(lever, noise, y) - m * DriftQuad(lever, noise, y);
  }

  lemma SingularDistanceShrinks(detection: Vec, landmark: Vec, car: Vec, m: real, n: real, noise: Noise)
    requires noise.NonNegative() && 0.0 < m <= n && noise.xy == 0.0 && noise.detection == 0.0
    ensures MahalanobisSquared(detection, landmark, car, n, noise)
         <= MahalanobisSquared(detection, landmark, car, m, noise)
  {
    var lever, i := Sub(landmark, car), Sub(detection, landmark);
    var s, t := Innovation(lever, m, noise), Innovation(lever, n, noise);
    hide Dot, Innovation, Eliminate;
    SingularForEver(lever, m, noise);
    SingularForEver(lever, n, noise);
    SingularGrows(lever, m, n, noise);
    SingularDistance(s, i);
    SingularDistance(t, i);
    if Pivot(s) > 0.0 { SquareOverShrinks(AlongPivot(s, i), Pivot(s), Pivot(t)); }
  }

  /**
    The gate only widens with absence: whatever the configuration, the squared distance never increases as
    more frames pass since the landmark was seen, so a detection the gate admits stays admitted.
  */
  lemma DistanceShrinksWithAbsence(detection: Vec, landmark: Vec, car: Vec, m: real, n: real, noise: Noise)
    requires noise.NonNegative() && 0.0 < m <= n
    ensures MahalanobisSquared(detection, landmark, car, n, noise)
         <= MahalanobisSquared(detection, landmark, car, m, noise)
  {
    hide MahalanobisSquared;
    if noise.xy > 0.0 || noise.detection > 0.0 {
      InvertibleDistanceShrinks(detection, landmark, car, m, n, noise);
    } else {
      SingularDistanceShrinks(detection, landmark, car, m, n, noise);
    }
  }
}
