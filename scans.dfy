/**
 * The LaserScan message, its angular bins, the full-circle skeleton built for
 * the fused output, and the closest-wins merge of one polar point into a scan.
 * Numbers are reals; the message's float fields are not rounded.
 */
module Scans {
  import opened Ranges

  /** M_PI. */
  const PI: real := 3.14159265358979323846

  /** Conversion of a double to `int` in C++: truncation toward zero. */
  function Trunc(x: real): (t: int)
    ensures 0.0 <= x ==> 0 <= t && t as real <= x < t as real + 1.0
    ensures x < 0.0 ==> t <= 0 && t as real - 1.0 < x <= t as real
  {
    if x >= 0.0 then x.Floor else -((-x).Floor)
  }

  /** `std::ceil`: the least integer not below `x`. */
  function Ceil(x: real): (c: int)
    ensures c as real - 1.0 < x <= c as real
  {
    -((-x).Floor)
  }

  /** `x` has no fractional part. */
  predicate IsWhole(x: real) {
    x.Floor as real == x
  }

  /** The header of a ROS message: sequence number, time stamp and frame. */
  datatype Header = Header(seqNo: int, stamp: real, frameId: string)

  /** A sensor_msgs/LaserScan: bin k covers the angle angleMin + k * angleIncrement. */
  datatype LaserScan = LaserScan(
    header: Header,
    angleMin: real,
    angleMax: real,
    angleIncrement: real,
    timeIncrement: real,
    scanTime: real,
    rangeMin: real,
    rangeMax: real,
    ranges: seq<Range>)

  /** A point in the scan's frame given by its distance and bearing (hypot and atan2 of x, y). */
  datatype Polar = Polar(range: real, angle: real)

  /** Two scans agree on every field but the contents of their bins. */
  predicate SameShape(a: LaserScan, b: LaserScan) {
    a.header == b.header &&
    a.angleMin == b.angleMin && a.angleMax == b.angleMax &&
    a.angleIncrement == b.angleIncrement &&
    a.timeIncrement == b.timeIncrement && a.scanTime == b.scanTime &&
    a.rangeMin == b.rangeMin && a.rangeMax == b.rangeMax &&
    |a.ranges| == |b.ranges|
  }

  // ---------------------------------------------------------------------------
  // The full-circle skeleton
  // ---------------------------------------------------------------------------

  /**
   * The number of bins of the output, `ceil((angle_max - angle_min) / increment)`
   * with angle_min = -PI and angle_max = PI: the fewest bins of width `inc`
   * that together cover the whole circle.
   */
  function CircleBins(inc: real): (n: nat)
    requires 0.0 < inc
    ensures 0 < n
    ensures (n - 1) as real * inc < 2.0 * PI <= n as real * inc
  {
    var x := (PI - -PI) / inc;
    var c := Ceil(x);
    assert x * inc == 2.0 * PI;
    assert (c - 1) as real * inc < x * inc <= c as real * inc by {
      MulMonotone(x, c as real, inc);
      MulStrict((c - 1) as real, x, inc);
    }
    c
  }

  lemma MulMonotone(x: real, y: real, k: real)
    requires x <= y && 0.0 < k
    ensures x * k <= y * k
  {
  }

  lemma MulStrict(x: real, y: real, k: real)
    requires x < y && 0.0 < k
    ensures x * k < y * k
  {
  }

  /**
   * The output scan before any sample is written: the inbound header, timing and
   * range bounds, a full circle from -PI to PI at the inbound increment, and
   * every bin at +infinity.
   */
  function Skeleton(input: LaserScan): (out: LaserScan)
    requires 0.0 < input.angleIncrement
    ensures out.angleMin == -PI && out.angleMax == PI
    ensures out.header == input.header
    ensures out.angleIncrement == input.angleIncrement
    ensures out.timeIncrement == input.timeIncrement && out.scanTime == input.scanTime
    ensures out.rangeMin == input.rangeMin && out.rangeMax == input.rangeMax
    ensures |out.ranges| == CircleBins(input.angleIncrement)
    ensures forall k :: 0 <= k < |out.ranges| ==> out.ranges[k] == Inf
  {
    LaserScan(input.header, -PI, PI, input.angleIncrement, input.timeIncrement,
              input.scanTime, input.rangeMin, input.rangeMax,
              seq(CircleBins(input.angleIncrement), _ => Inf))
  }

  // ---------------------------------------------------------------------------
  // Bins
  // ---------------------------------------------------------------------------

  /**
   * The bin `(angle - angle_min) / angle_increment` converted to int. For an
   * angle at or above angle_min it is the bin whose interval holds the angle.
   */
  function BinIndex(s: LaserScan, angle: real): (k: int)
    requires 0.0 < s.angleIncrement
    ensures s.angleMin <= angle ==>
      0 <= k &&
      s.angleMin + k as real * s.angleIncrement <= angle < s.angleMin + (k + 1) as real * s.angleIncrement
  {
    var x := (angle - s.angleMin) / s.angleIncrement;
    var k := Trunc(x);
    assert x * s.angleIncrement == angle - s.angleMin;
    TruncScaled(x, s.angleIncrement);
    assert s.angleMin <= angle ==> angle - s.angleMin < (k + 1) as real * s.angleIncrement;
    k
  }

  /** Scaling the truncation bounds of a non-negative quotient back by the divisor. */
  lemma TruncScaled(x: real, inc: real)
    requires 0.0 < inc
    ensures 0.0 <= x ==>
      Trunc(x) as real * inc <= x * inc < (Trunc(x) + 1) as real * inc
  {
    if 0.0 <= x {
      MulMonotone(Trunc(x) as real, x, inc);
      MulStrict(x, (Trunc(x) + 1) as real, inc);
    }
  }

  /** An angle exactly on the grid, angle_min + k * increment, falls in bin k. */
  lemma BinOfGridAngle(s: LaserScan, k: nat)
    requires 0.0 < s.angleIncrement
    ensures BinIndex(s, s.angleMin + k as real * s.angleIncrement) == k
  {
    var angle := s.angleMin + k as real * s.angleIncrement;
    var x := (angle - s.angleMin) / s.angleIncrement;
    assert x * s.angleIncrement == k as real * s.angleIncrement;
    DivideOut(x, k as real, s.angleIncrement);
    assert Trunc(k as real) == k;
  }

  lemma DivideOut(x: real, y: real, k: real)
    requires 0.0 < k && x * k == y * k
    ensures x == y
  {
    if x < y {
      MulStrict(x, y, k);
    } else if y < x {
      MulStrict(y, x, k);
    }
  }

  /** Dividing a * k + b by k. */
  lemma DivideSum(a: real, b: real, k: real)
    requires 0.0 < k
    ensures (a * k + b) / k == a + b / k
  {
    var x := (a * k + b) / k;
    assert x * k == a * k + b;
    assert (b / k) * k == b;
    assert (a + b / k) * k == a * k + (b / k) * k;
    DivideOut(x, a + b / k, k);
  }

  /** Truncating a non-negative real shifted by a whole number shifts the result by that number. */
  lemma TruncShift(i: nat, c: real)
    requires 0.0 <= c
    ensures Trunc(i as real + c) == i + Trunc(c)
  {
    assert Trunc(i as real + c) as real <= i as real + c < Trunc(i as real + c) as real + 1.0;
    assert Trunc(c) as real <= c < Trunc(c) as real + 1.0;
  }

  /**
   * In the full-circle skeleton the bin of an angle in [-PI, PI] is at most the
   * number of bins, and equals it (one past the last bin) exactly when the
   * angle is PI and 2*PI / increment is a whole number.
   */
  lemma UpperEdge(s: LaserScan, angle: real)
    requires 0.0 < s.angleIncrement && s.angleMin == -PI && s.angleMax == PI
    requires |s.ranges| == CircleBins(s.angleIncrement)
    requires -PI <= angle <= PI
    ensures BinIndex(s, angle) <= |s.ranges|
    ensures BinIndex(s, angle) == |s.ranges| <==>
              angle == PI && IsWhole(2.0 * PI / s.angleIncrement)
  {
    var inc := s.angleIncrement;
    var x := (angle - s.angleMin) / inc;
    var y := 2.0 * PI / inc;
    var n := |s.ranges|;
    assert x <= y by {
      assert angle - s.angleMin <= 2.0 * PI;
      MulMonotone(angle - s.angleMin, 2.0 * PI, 1.0 / inc);
    }
    assert Ceil(y) == n;
    assert BinIndex(s, angle) == x.Floor;
    if angle == PI && IsWhole(y) {
      assert x == y;
    }
    if x.Floor == n {
      assert x == y;
      assert angle - s.angleMin == 2.0 * PI by {
        assert x * inc == angle - s.angleMin;
        assert y * inc == 2.0 * PI;
      }
    }
  }

  // ---------------------------------------------------------------------------
  // Merging one point (includePointToLaser)
  // ---------------------------------------------------------------------------

  /**
   * The point's bearing lies in [angle_min, angle_max] and its distance in
   * [range_min, range_max]. Such a point never has a negative bin, so the only
   * index the test lets through unchecked is one past the last bin (UpperEdge).
   */
  predicate InEnvelope(s: LaserScan, p: Polar)
    ensures InEnvelope(s, p) && 0.0 < s.angleIncrement ==> 0 <= BinIndex(s, p.angle)
  {
    (s.angleMin <= p.angle && p.angle <= s.angleMax) &&
    (s.rangeMin <= p.range && p.range <= s.rangeMax)
  }

  /**
   * Merging `p` does not index outside the bins. The code divides by the
   * increment and does not check the index against the number of bins.
   */
  predicate Fits(s: LaserScan, p: Polar) {
    0.0 < s.angleIncrement &&
    (InEnvelope(s, p) ==> BinIndex(s, p.angle) < |s.ranges|)
  }

  /** Every point of `ps` fits `s`. */
  predicate AllFit(s: LaserScan, ps: seq<Polar>) {
    forall i :: 0 <= i < |ps| ==> Fits(s, ps[i])
  }

  /** Whether a point fits depends only on the scan's shape. */
  lemma FitsShape(a: LaserScan, b: LaserScan, ps: seq<Polar>)
    requires SameShape(a, b)
    ensures AllFit(a, ps) <==> AllFit(b, ps)
    ensures forall p :: Fits(a, p) <==> Fits(b, p)
  {
  }

  /**
   * includePointToLaser on a point already in polar form: a point inside the
   * envelope lowers its bin to the point's distance if that is closer; any
   * other point is dropped.
   */
  function Merge(s: LaserScan, p: Polar): (r: LaserScan)
    requires Fits(s, p)
    ensures SameShape(r, s)
    ensures !InEnvelope(s, p) ==> r == s
    ensures InEnvelope(s, p) ==>
      var k := BinIndex(s, p.angle);
      0 <= k < |s.ranges| && r.ranges[k] == Min(s.ranges[k], Fin(p.range))
    ensures forall k :: 0 <= k < |s.ranges| && !(InEnvelope(s, p) && k == BinIndex(s, p.angle)) ==>
      r.ranges[k] == s.ranges[k]
    ensures forall k :: 0 <= k < |s.ranges| ==> Le(r.ranges[k], s.ranges[k])
  {
    if InEnvelope(s, p) then
      var k := BinIndex(s, p.angle);
      s.(ranges := s.ranges[k := Closest(s.ranges[k], p.range)])
    else
      s
  }

  /** Merging the same point a second time changes nothing. */
  lemma MergeIdempotent(s: LaserScan, p: Polar)
    requires Fits(s, p)
    ensures Fits(Merge(s, p), p)
    ensures Merge(Merge(s, p), p) == Merge(s, p)
  {
    if InEnvelope(s, p) {
      var k := BinIndex(s, p.angle);
      ClosestCommutes(s.ranges[k], p.range, p.range);
    }
  }

  /** Two merges commute. */
  lemma MergeCommutes(s: LaserScan, p: Polar, q: Polar)
    requires Fits(s, p) && Fits(s, q)
    ensures Fits(Merge(s, p), q) && Fits(Merge(s, q), p)
    ensures Merge(Merge(s, p), q) == Merge(Merge(s, q), p)
  {
    if InEnvelope(s, p) && InEnvelope(s, q) {
      var i, j := BinIndex(s, p.angle), BinIndex(s, q.angle);
      if i == j {
        ClosestCommutes(s.ranges[i], p.range, q.range);
      } else {
        assert Merge(Merge(s, p), q).ranges == Merge(Merge(s, q), p).ranges;
      }
    }
  }

  /** The points of `ps` merged into `s` one after the other, first to last. */
  function MergeAll(s: LaserScan, ps: seq<Polar>): (r: LaserScan)
    requires AllFit(s, ps)
    ensures SameShape(r, s)
    ensures forall k :: 0 <= k < |s.ranges| ==> Le(r.ranges[k], s.ranges[k])
    decreases |ps|
  {
    if ps == [] then s
    else
      var prefix := MergeAll(s, ps[..|ps| - 1]);
      FitsShape(prefix, s, ps);
      var r := Merge(prefix, ps[|ps| - 1]);
      assert forall k :: 0 <= k < |s.ranges| ==> Le(r.ranges[k], s.ranges[k]) by {
        forall k | 0 <= k < |s.ranges| ensures Le(r.ranges[k], s.ranges[k]) {
          LeTransitive(r.ranges[k], prefix.ranges[k], s.ranges[k]);
        }
      }
      r
  }

  /**
   * After merging `ps`, the bin of every in-envelope point `ps[j]` is at most
   * that point's distance: a nearer return is never lost.
   */
  lemma {:induction false} MergeAllLowers(s: LaserScan, ps: seq<Polar>, j: nat)
    requires AllFit(s, ps) && j < |ps| && InEnvelope(s, ps[j])
    ensures 0 <= BinIndex(s, ps[j].angle) < |s.ranges|
    ensures Le(MergeAll(s, ps).ranges[BinIndex(s, ps[j].angle)], Fin(ps[j].range))
    decreases |ps|
  {
    var n := |ps| - 1;
    var prefix := MergeAll(s, ps[..n]);
    var k := BinIndex(s, ps[j].angle);
    FitsShape(prefix, s, ps);
    var r := Merge(prefix, ps[n]);
    assert r == MergeAll(s, ps);
    if j < n {
      assert ps[..n][j] == ps[j];
      MergeAllLowers(s, ps[..n], j);
      LeTransitive(r.ranges[k], prefix.ranges[k], Fin(ps[j].range));
    }
  }

  /**
   * After merging `ps`, every bin holds either its starting value or the
   * distance of some in-envelope point of `ps` whose bin it is.
   */
  lemma {:induction false} MergeAllFrom(s: LaserScan, ps: seq<Polar>, k: nat)
    requires AllFit(s, ps) && k < |s.ranges|
    ensures MergeAll(s, ps).ranges[k] == s.ranges[k] ||
      exists j :: 0 <= j < |ps| && InEnvelope(s, ps[j]) && BinIndex(s, ps[j].angle) == k &&
        MergeAll(s, ps).ranges[k] == Fin(ps[j].range)
    decreases |ps|
  {
    if ps != [] {
      var n := |ps| - 1;
      var prefix := MergeAll(s, ps[..n]);
      FitsShape(prefix, s, ps);
      var r := Merge(prefix, ps[n]);
      assert r == MergeAll(s, ps);
      MergeAllFrom(s, ps[..n], k);
      if r.ranges[k] != prefix.ranges[k] {
        assert InEnvelope(s, ps[n]) && BinIndex(s, ps[n].angle) == k;
        assert r.ranges[k] == Fin(ps[n].range);
      } else if prefix.ranges[k] != s.ranges[k] {
        var j :| 0 <= j < n && InEnvelope(s, ps[..n][j]) && BinIndex(s, ps[..n][j].angle) == k &&
          prefix.ranges[k] == Fin(ps[..n][j].range);
        assert ps[..n][j] == ps[j];
      }
    }
  }

  /** Removing one point keeps every remaining point fitting. */
  lemma AllFitRemove(s: LaserScan, ps: seq<Polar>, k: nat)
    requires AllFit(s, ps) && k < |ps|
    ensures AllFit(s, ps[..k] + ps[k + 1..])
  {
    var rest := ps[..k] + ps[k + 1..];
    forall i | 0 <= i < |rest| ensures Fits(s, rest[i]) {
      if i < k { assert rest[i] == ps[i]; } else { assert rest[i] == ps[i + 1]; }
    }
  }

  /** Merging the point at position k last gives the same scan as merging it in its place. */
  lemma {:induction false} MergeAllMoveToEnd(s: LaserScan, ps: seq<Polar>, k: nat)
    requires AllFit(s, ps) && k < |ps|
    ensures AllFit(s, ps[..k] + ps[k + 1..])
    ensures Fits(MergeAll(s, ps[..k] + ps[k + 1..]), ps[k])
    ensures MergeAll(s, ps) == Merge(MergeAll(s, ps[..k] + ps[k + 1..]), ps[k])
    decreases |ps|
  {
    var rest := ps[..k] + ps[k + 1..];
    AllFitRemove(s, ps, k);
    FitsShape(MergeAll(s, rest), s, ps);
    var m := |ps| - 1;
    if k < m {
      var front := ps[..m];
      assert AllFit(s, front);
      MergeAllMoveToEnd(s, front, k);
      var frontRest := front[..k] + front[k + 1..];
      assert rest[..|rest| - 1] == frontRest;
      assert rest[|rest| - 1] == ps[m];
      var a := MergeAll(s, frontRest);
      FitsShape(a, s, ps);
      MergeCommutes(a, ps[k], ps[m]);
    } else {
      assert rest == ps[..m];
    }
  }

  /** A sequence whose elements all fit still fits once rearranged. */
  lemma AllFitPermutation(s: LaserScan, ps: seq<Polar>, qs: seq<Polar>)
    requires AllFit(s, ps) && multiset(ps) == multiset(qs)
    ensures AllFit(s, qs)
  {
    forall i | 0 <= i < |qs| ensures Fits(s, qs[i]) {
      assert qs[i] in multiset(ps);
    }
  }

  /** Removing the element at position k from each of two rearrangements of each other. */
  lemma RemoveFromPermutation(ps: seq<Polar>, qs: seq<Polar>, k: nat)
    requires ps != [] && multiset(ps) == multiset(qs)
    requires k < |qs| && qs[k] == ps[|ps| - 1]
    ensures multiset(ps[..|ps| - 1]) == multiset(qs[..k] + qs[k + 1..])
  {
    var x := qs[k];
    assert qs == qs[..k] + [x] + qs[k + 1..];
    assert ps == ps[..|ps| - 1] + [x];
    calc {
      multiset(ps[..|ps| - 1]) + multiset{x};
      multiset(ps);
      multiset(qs);
      multiset(qs[..k]) + multiset{x} + multiset(qs[k + 1..]);
      multiset(qs[..k] + qs[k + 1..]) + multiset{x};
    }
    assert multiset(ps[..|ps| - 1]) == multiset(ps[..|ps| - 1]) + multiset{x} - multiset{x};
  }

  /** The order in which points are merged does not matter. */
  lemma {:induction false} MergeAllPermutation(s: LaserScan, ps: seq<Polar>, qs: seq<Polar>)
    requires AllFit(s, ps) && multiset(ps) == multiset(qs)
    ensures AllFit(s, qs)
    ensures MergeAll(s, ps) == MergeAll(s, qs)
    decreases |ps|
  {
    AllFitPermutation(s, ps, qs);
    if ps == [] {
      assert |qs| == |multiset(qs)| == 0;
    } else {
      var m := |ps| - 1;
      assert ps[m] in multiset(qs);
      var k :| 0 <= k < |qs| && qs[k] == ps[m];
      RemoveFromPermutation(ps, qs, k);
      assert AllFit(s, ps[..m]);
      MergeAllPermutation(s, ps[..m], qs[..k] + qs[k + 1..]);
      MergeAllMoveToEnd(s, qs, k);
    }
  }
}
