/**
 * Copying the primary scan's samples into the output bins. Each inbound
 * sample is written over its output bin; a later sample overwrites an
 * earlier one that lands in the same bin.
 */
module Reprojection {
  import opened Ranges
  import opened Scans

  /** The angle of inbound sample i: `i * angle_increment + angle_min`. */
  function SampleAngle(input: LaserScan, i: int): real {
    i as real * input.angleIncrement + input.angleMin
  }

  /**
   * The output bin of inbound sample i: the sample's angle less the output's
   * angle_min, divided by the output's increment and converted to int
   * (truncation toward zero).
   */
  function SampleBin(outMin: real, outIncrement: real, input: LaserScan, i: int): (k: int)
    requires 0.0 < outIncrement
    ensures outMin <= SampleAngle(input, i) ==>
      0 <= k &&
      outMin + k as real * outIncrement <= SampleAngle(input, i) < outMin + (k + 1) as real * outIncrement
    ensures outMin - outIncrement < SampleAngle(input, i) < outMin ==> k == 0
    ensures SampleAngle(input, i) <= outMin - outIncrement ==> k < 0
  {
    var x := (SampleAngle(input, i) - outMin) / outIncrement;
    TruncBounds(x, outIncrement, SampleAngle(input, i) - outMin);
    Trunc(x)
  }

  /** Truncating a quotient x = a / inc: the grid interval for a >= 0, 0 within one bin below, negative beyond. */
  lemma TruncBounds(x: real, inc: real, a: real)
    requires 0.0 < inc && x * inc == a
    ensures 0.0 <= a ==>
      0 <= Trunc(x) && Trunc(x) as real * inc <= a < (Trunc(x) + 1) as real * inc
    ensures -inc < a < 0.0 ==> Trunc(x) == 0
    ensures a <= -inc ==> Trunc(x) < 0
  {
    QuotientSign(x, inc, a);
    if 0.0 <= a {
      TruncInterval(x, inc, a);
    }
  }

  /** A non-negative quotient x = a / inc truncates to the bin whose interval holds a. */
  lemma TruncInterval(x: real, inc: real, a: real)
    requires 0.0 < inc && x * inc == a && 0.0 <= x
    ensures 0 <= Trunc(x) && Trunc(x) as real * inc <= a < (Trunc(x) + 1) as real * inc
  {
    var t := Trunc(x);
    MulMonotone(t as real, x, inc);
    MulStrict(x, (t + 1) as real, inc);
    var hi := (t + 1) as real * inc;
    assert x * inc < hi;
  }

  /** Where the quotient x = a / inc lies, from where a lies against the bin width. */
  lemma QuotientSign(x: real, inc: real, a: real)
    requires 0.0 < inc && x * inc == a
    ensures 0.0 <= a ==> 0.0 <= x
    ensures -inc < a < 0.0 ==> -1.0 < x < 0.0
    ensures a <= -inc ==> x <= -1.0
  {
    assert x == a / inc;
    assert -inc / inc == -1.0;
    assert 0.0 / inc == 0.0;
    if 0.0 <= a {
      DivMonotone(0.0, a, inc);
    }
    if -inc < a < 0.0 {
      DivStrict(-inc, a, inc);
      DivStrict(a, 0.0, inc);
    }
    if a <= -inc {
      DivMonotone(a, -inc, inc);
    }
  }

  lemma DivStrict(x: real, y: real, k: real)
    requires x < y && 0.0 < k
    ensures x / k < y / k
  {
    MulStrict(x, y, 1.0 / k);
    assert x / k == x * (1.0 / k) && y / k == y * (1.0 / k);
  }

  lemma DivMonotone(x: real, y: real, k: real)
    requires x <= y && 0.0 < k
    ensures x / k <= y / k
  {
    MulMonotone(x, y, 1.0 / k);
    assert x / k == x * (1.0 / k) && y / k == y * (1.0 / k);
  }

  /** The output bin of inbound sample i in the output scan `out`. */
  function InboundBin(out: LaserScan, input: LaserScan, i: int): int
    requires 0.0 < out.angleIncrement
  {
    SampleBin(out.angleMin, out.angleIncrement, input, i)
  }

  /** Every inbound sample lands inside the output's bins. The code does not check this. */
  predicate InboundFits(out: LaserScan, input: LaserScan) {
    0.0 < out.angleIncrement &&
    forall i :: 0 <= i < |input.ranges| ==> 0 <= InboundBin(out, input, i) < |out.ranges|
  }

  /** The output after the first n inbound samples have been written, in index order. */
  function Reproject(out: LaserScan, input: LaserScan, n: nat): (r: LaserScan)
    requires InboundFits(out, input) && n <= |input.ranges|
    ensures SameShape(r, out)
    decreases n
  {
    if n == 0 then out
    else
      var r := Reproject(out, input, n - 1);
      r.(ranges := r.ranges[InboundBin(out, input, n - 1) := input.ranges[n - 1]])
  }

  /** A bin that none of the first n samples maps to keeps its value. */
  lemma {:induction false} ReprojectUntouched(out: LaserScan, input: LaserScan, n: nat, b: nat)
    requires InboundFits(out, input) && n <= |input.ranges| && b < |out.ranges|
    requires forall i :: 0 <= i < n ==> InboundBin(out, input, i) != b
    ensures Reproject(out, input, n).ranges[b] == out.ranges[b]
    decreases n
  {
    if n > 0 {
      ReprojectUntouched(out, input, n - 1, b);
    }
  }

  /**
   * Sample i is what its bin holds after the first n samples when no later
   * sample among them maps to the same bin: the last writer wins.
   */
  lemma {:induction false} ReprojectLastWriter(out: LaserScan, input: LaserScan, n: nat, i: nat)
    requires InboundFits(out, input) && i < n <= |input.ranges|
    requires forall l :: i < l < n ==> InboundBin(out, input, l) != InboundBin(out, input, i)
    ensures Reproject(out, input, n).ranges[InboundBin(out, input, i)] == input.ranges[i]
    decreases n
  {
    if i < n - 1 {
      ReprojectLastWriter(out, input, n - 1, i);
    }
  }

  /**
   * When the output has the inbound increment and starts no later than the
   * inbound scan, sample i goes to bin i + c for a fixed c, so no two samples
   * share a bin and every sample survives in its own bin.
   */
  lemma ReprojectKeepsEverySample(out: LaserScan, input: LaserScan)
    requires InboundFits(out, input)
    requires out.angleIncrement == input.angleIncrement && out.angleMin <= input.angleMin
    ensures forall i, l :: 0 <= i < l < |input.ranges| ==>
      InboundBin(out, input, i) < InboundBin(out, input, l)
    ensures forall i :: 0 <= i < |input.ranges| ==>
      Reproject(out, input, |input.ranges|).ranges[InboundBin(out, input, i)] == input.ranges[i]
  {
    var inc := out.angleIncrement;
    var c := (input.angleMin - out.angleMin) / inc;
    var shift := Trunc(c);
    forall i | 0 <= i < |input.ranges| ensures InboundBin(out, input, i) == i + shift {
      InboundBinShift(out, input, i);
    }
    forall i | 0 <= i < |input.ranges|
      ensures Reproject(out, input, |input.ranges|).ranges[InboundBin(out, input, i)] == input.ranges[i]
    {
      ReprojectLastWriter(out, input, |input.ranges|, i);
    }
  }

  /** With equal increments, shifting the sample index shifts the bin by the same amount. */
  lemma InboundBinShift(out: LaserScan, input: LaserScan, i: nat)
    requires 0.0 < out.angleIncrement
    requires out.angleIncrement == input.angleIncrement && out.angleMin <= input.angleMin
    ensures InboundBin(out, input, i) == i + Trunc((input.angleMin - out.angleMin) / out.angleIncrement)
  {
    SampleBinShift(out.angleMin, input, i);
  }

  /** Sample i of `input`, placed on a grid of the same increment that starts at or before it. */
  lemma SampleBinShift(outMin: real, input: LaserScan, i: nat)
    requires 0.0 < input.angleIncrement && outMin <= input.angleMin
    ensures SampleBin(outMin, input.angleIncrement, input, i) ==
      i + Trunc((input.angleMin - outMin) / input.angleIncrement)
  {
    var c := (input.angleMin - outMin) / input.angleIncrement;
    var a := SampleAngle(input, i);
    ShiftedQuotient(i as real, input.angleIncrement, input.angleMin, outMin, a);
    TruncShift(i, c);
  }

  /** The quotient of line 48 with equal increments: the index plus a fixed offset. */
  lemma ShiftedQuotient(i: real, inc: real, minIn: real, minOut: real, angle: real)
    requires 0.0 < inc && minOut <= minIn && angle == i * inc + minIn
    ensures (angle - minOut) / inc == i + (minIn - minOut) / inc
    ensures 0.0 <= (minIn - minOut) / inc
  {
    assert angle - minOut == i * inc + (minIn - minOut);
    DivideSum(i, minIn - minOut, inc);
  }

  /**
   * The bin of sample i, once the first n samples are written, holds one of the
   * samples i..n-1: a sample is overwritten only by a later one.
   */
  lemma {:induction false} ReprojectWritten(out: LaserScan, input: LaserScan, n: nat, i: nat)
    requires InboundFits(out, input) && i < n <= |input.ranges|
    ensures Reproject(out, input, n).ranges[InboundBin(out, input, i)] in input.ranges[i..n]
    decreases n
  {
    if InboundBin(out, input, n - 1) != InboundBin(out, input, i) {
      ReprojectWritten(out, input, n - 1, i);
      assert input.ranges[i..n - 1] <= input.ranges[i..n];
    } else {
      assert input.ranges[i..n][n - 1 - i] == input.ranges[n - 1];
    }
  }

  /** Copying samples that all hold `v` into bins that all hold `v` leaves every bin at `v`. */
  lemma {:induction false} ReprojectUniform(out: LaserScan, input: LaserScan, n: nat, v: Range)
    requires InboundFits(out, input) && n <= |input.ranges|
    requires forall k :: 0 <= k < |out.ranges| ==> out.ranges[k] == v
    requires forall i :: 0 <= i < |input.ranges| ==> input.ranges[i] == v
    ensures forall k :: 0 <= k < |out.ranges| ==> Reproject(out, input, n).ranges[k] == v
    decreases n
  {
    if n > 0 {
      ReprojectUniform(out, input, n - 1, v);
    }
  }

  /**
   * The copy is an overwrite, not a closest-wins merge: with the inbound scan
   * starting half a bin before -PI, samples 0 and 1 sit at -0.5 and 0.5 bins and
   * both truncate to bin 0, which ends up with the later, farther distance.
   */
  lemma ReprojectOverwritesCloser()
    ensures
      var out := LaserScan(Header(0, 0.0, "laser"), -PI, PI, 1.0, 0.0, 0.0, 0.0, 10.0, [Inf, Inf, Inf, Inf, Inf, Inf, Inf]);
      var input := LaserScan(Header(0, 0.0, "laser"), -PI - 0.5, 0.5 - PI, 1.0, 0.0, 0.0, 0.0, 10.0, [Fin(1.0), Fin(5.0)]);
      InboundFits(out, input) &&
      InboundBin(out, input, 0) == 0 && InboundBin(out, input, 1) == 0 &&
      Reproject(out, input, 2).ranges[0] == Fin(5.0)
  {
    var out := LaserScan(Header(0, 0.0, "laser"), -PI, PI, 1.0, 0.0, 0.0, 0.0, 10.0, [Inf, Inf, Inf, Inf, Inf, Inf, Inf]);
    var input := LaserScan(Header(0, 0.0, "laser"), -PI - 0.5, 0.5 - PI, 1.0, 0.0, 0.0, 0.0, 10.0, [Fin(1.0), Fin(5.0)]);
    assert InboundBin(out, input, 0) == Trunc(-0.5) == 0;
    assert InboundBin(out, input, 1) == Trunc(0.5) == 0;
  }
}
