/** The values the SLAM frontend and backend exchange. */
module SlamTypes {
  import opened Wrappers

  datatype Vec = Vec(x: real, y: real)

  /** A planar isometry: rotation matrix [[c, -s], [s, c]] and translation. */
  datatype Pose = Pose(c: real, s: real, tx: real, ty: real) {
    function Apply(v: Vec): Vec { Vec(c * v.x - s * v.y + tx, s * v.x + c * v.y + ty) }
    function Translation(): Vec { Vec(tx, ty) }
    /** Transposed rotation, as Eigen inverts an isometry. */
    function Inverse(): Pose { Pose(c, -s, -(c * tx + s * ty), -(c * ty - s * tx)) }
  }

  /** The matrix is a rotation. */
  predicate IsRotation(p: Pose) { p.c * p.c + p.s * p.s == 1.0 }

  function Sub(a: Vec, b: Vec): Vec { Vec(a.x - b.x, a.y - b.y) }
  function Dot(a: Vec, b: Vec): real { a.x * b.x + a.y * b.y }
  function SquaredDistance(a: Vec, b: Vec): real { Dot(Sub(a, b), Sub(a, b)) }

  function Cross(a: Vec, b: Vec): real { a.x * b.y - a.y * b.x }

  /** What the rotation of a pose makes of a vector. */
  function Turned(p: Pose, v: Vec): Vec { Vec(p.c * v.x - p.s * v.y, p.s * v.x + p.c * v.y) }

  /** Inverting a pose undoes it. */
  lemma InverseUndoes(p: Pose, v: Vec)
    requires IsRotation(p)
    ensures p.Inverse().Apply(p.Apply(v)) == v && p.Apply(p.Inverse().Apply(v)) == v
  {
    hide Pose.Apply, Pose.Inverse;
    InverseTakesBack(p, p.Inverse(), v, p.Apply(v), p.Inverse().Apply(p.Apply(v)));
    ApplyTakesBack(p, p.Inverse(), v, p.Inverse().Apply(v), p.Apply(p.Inverse().Apply(v)));
  }

  lemma InverseTakesBack(p: Pose, i: Pose, v: Vec, u: Vec, r: Vec)
    requires IsRotation(p) && i == p.Inverse() && u == p.Apply(v) && r == i.Apply(u)
    ensures r == v
  {
    InverseUndoesApply(p.c, p.s, v.x, v.y, p.tx, p.ty, u.x, u.y);
  }

  lemma ApplyTakesBack(p: Pose, i: Pose, v: Vec, u: Vec, r: Vec)
    requires IsRotation(p) && i == p.Inverse() && u == i.Apply(v) && r == p.Apply(u)
    ensures r == v
  {
    ApplyUndoesInverse(p.c, p.s, v.x, v.y, p.tx, p.ty, u.x, u.y);
  }

  lemma InverseUndoesApply(c: real, s: real, x: real, y: real, tx: real, ty: real, u: real, w: real)
    requires c * c + s * s == 1.0 && u == c * x - s * y + tx && w == s * x + c * y + ty
    ensures c * u - (-s) * w + -(c * tx + s * ty) == x && (-s) * u + c * w + -(c * ty - s * tx) == y
  {
    TurnsBack(c, s, x, y, u - tx, w - ty);
  }

  lemma ApplyUndoesInverse(c: real, s: real, x: real, y: real, tx: real, ty: real, u: real, w: real)
    requires c * c + s * s == 1.0
    requires u == c * x - (-s) * y + -(c * tx + s * ty) && w == (-s) * x + c * y + -(c * ty - s * tx)
    ensures c * u - s * w + tx == x && s * u + c * w + ty == y
  {
    Shifted(c, s, x, y, tx, ty);
    TurnsForth(c, s, x - tx, y - ty, u, w);
  }

  lemma Shifted(c: real, s: real, x: real, y: real, tx: real, ty: real)
    ensures c * x - (-s) * y + -(c * tx + s * ty) == c * (x - tx) + s * (y - ty)
    ensures (-s) * x + c * y + -(c * ty - s * tx) == c * (y - ty) - s * (x - tx)
  {
  }

  lemma TurnsForth(c: real, s: real, x: real, y: real, u: real, w: real)
    requires c * c + s * s == 1.0 && u == c * x + s * y && w == c * y - s * x
    ensures c * u - s * w == x && s * u + c * w == y
  {
    assert c * u - s * w == (c * c + s * s) * x;
    assert s * u + c * w == (c * c + s * s) * y;
  }

  lemma SplitTurn(c: real, s: real, x: real, y: real, u: real, w: real)
    ensures c * (x + u) - s * (y + w) == (c * x - s * y) + (c * u - s * w)
    ensures s * (x + u) + c * (y + w) == (s * x + c * y) + (s * u + c * w)
  {
  }

  lemma TurnsBack(c: real, s: real, x: real, y: real, u: real, w: real)
    requires c * c + s * s == 1.0 && u == c * x - s * y && w == s * x + c * y
    ensures c * u + s * w == x && c * w - s * u == y
  {
    assert c * u + s * w == (c * c + s * s) * x;
    assert c * w - s * u == (c * c + s * s) * y;
  }

  /** A pose takes the origin to the car, and what is ahead of it along the heading. */
  lemma PosePlacesCar(p: Pose, r: real)
    ensures p.Apply(Vec(0.0, 0.0)) == p.Translation()
    ensures Sub(p.Apply(Vec(r, 0.0)), p.Translation()) == Vec(r * p.c, r * p.s)
  {
  }

  lemma ApplyOfDifference(p: Pose, v: Vec, w: Vec)
    ensures Sub(p.Apply(v), p.Apply(w)) == Turned(p, Sub(v, w))
  {
    SplitTurn(p.c, p.s, v.x, v.y, -w.x, -w.y);
  }

  /** A pose keeps distances and the sense of rotation. */
  lemma PoseIsIsometry(p: Pose, u: Vec, v: Vec, w: Vec)
    requires IsRotation(p)
    ensures SquaredDistance(p.Apply(v), p.Apply(w)) == SquaredDistance(v, w)
    ensures Cross(Sub(p.Apply(v), p.Apply(u)), Sub(p.Apply(w), p.Apply(u))) == Cross(Sub(v, u), Sub(w, u))
  {
    ApplyOfDifference(p, v, w);
    ApplyOfDifference(p, v, u);
    ApplyOfDifference(p, w, u);
    hide Sub;
    TurnKeepsProducts(p, Sub(v, w), Sub(v, w));
    TurnKeepsProducts(p, Sub(v, u), Sub(w, u));
  }

  lemma TurnKeepsProducts(p: Pose, v: Vec, w: Vec)
    requires IsRotation(p)
    ensures Dot(Turned(p, v), Turned(p, w)) == Dot(v, w) && Cross(Turned(p, v), Turned(p, w)) == Cross(v, w)
  {
    var t := Turned(p, w);
    TurnsBack(p.c, p.s, w.x, w.y, t.x, t.y);
    hide IsRotation;
    Regroup(p.c, p.s, v.x, v.y, t.x, t.y);
  }

  lemma Regroup(c: real, s: real, x: real, y: real, u: real, w: real)
    ensures (c * x - s * y) * u + (s * x + c * y) * w == x * (c * u + s * w) + y * (c * w - s * u)
    ensures (c * x - s * y) * w - (s * x + c * y) * u == x * (c * w - s * u) - y * (c * u + s * w)
  {
  }

  // A coordinate or pose that is not finite is None.

  datatype ConeDetection = ConeDetection(position: Option<Vec>, confidence: Option<real>)

  /** What the frontend gets per scan: a time, the odometry pose, and detections relative to the car. */
  datatype ConeFrame = ConeFrame(timestamp: nat, pose: Option<Pose>, detections: seq<ConeDetection>)

  datatype MapLandmark = MapLandmark(id: nat, position: Option<Vec>)

  /** A solved map. */
  datatype MapState = MapState(sequence: nat, timestamp: nat, pose: Option<Pose>, landmarks: seq<MapLandmark>)

  datatype LandmarkStatus = InMap | InGraph | New

  datatype Observation = Observation(id: nat, measurement: Option<Vec>, status: LandmarkStatus)

  datatype ObservationFrame = ObservationFrame(timestamp: nat, pose: Pose, observations: seq<Observation>)

  const U64_MAX: nat := 0xFFFF_FFFF_FFFF_FFFF
}
