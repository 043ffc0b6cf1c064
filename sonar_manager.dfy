/**
 * SonarManager: on every inbound laser scan it builds a full-circle output
 * scan, copies the inbound samples into it, folds in one point per sonar under
 * closest-wins, and publishes the result.
 */
module Fusion {
  import opened Ranges
  import opened Scans
  import opened Reprojection

  /** A sonar's configuration and its latest reading. */
  datatype Sonar = Sonar(topic: string, frame: string, rangeMin: real, rangeMax: real, field: real, lastRange: real)

  /** The latest reading lies within the sonar's valid interval. */
  predicate InLimits(s: Sonar) {
    s.rangeMin <= s.lastRange && s.lastRange <= s.rangeMax
  }

  /**
   * The outcome of looking up the transform from the sonar's frame to the
   * laser's frame and applying it to the sonar's central ray: either the
   * exception the lookup threw, or the transformed point in polar form.
   */
  datatype Lookup = TfError(what: string) | Transformed(point: Polar)

  /** Sonar i reaches includePointToLaser: it is in limits and its lookup succeeded. */
  predicate Contributes(sensor: Sonar, lookup: Lookup) {
    InLimits(sensor) && lookup.Transformed?
  }

  /** The points merged into the output, one per contributing sonar, in sonar order. */
  function Contributions(sensors: seq<Sonar>, lookups: seq<Lookup>): (ps: seq<Polar>)
    requires |sensors| == |lookups|
    ensures |ps| <= |sensors|
    decreases |sensors|
  {
    if sensors == [] then []
    else
      var n := |sensors| - 1;
      var front := Contributions(sensors[..n], lookups[..n]);
      if Contributes(sensors[n], lookups[n]) then front + [lookups[n].point] else front
  }

  /** No point when every sonar is skipped; one point per sonar when none is. */
  lemma {:induction false} ContributionsEnds(sensors: seq<Sonar>, lookups: seq<Lookup>)
    requires |sensors| == |lookups|
    ensures (forall i :: 0 <= i < |sensors| ==> !Contributes(sensors[i], lookups[i])) ==>
      Contributions(sensors, lookups) == []
    ensures (forall i :: 0 <= i < |sensors| ==> Contributes(sensors[i], lookups[i])) ==>
      |Contributions(sensors, lookups)| == |sensors|
    decreases |sensors|
  {
    if sensors != [] {
      var n := |sensors| - 1;
      assert forall i :: 0 <= i < n ==> sensors[..n][i] == sensors[i] && lookups[..n][i] == lookups[i];
      ContributionsEnds(sensors[..n], lookups[..n]);
    }
  }

  /**
   * A point is contributed exactly when some sonar that is in limits and whose
   * lookup succeeded yields it.
   */
  lemma {:induction false} ContributionsExact(sensors: seq<Sonar>, lookups: seq<Lookup>, p: Polar)
    requires |sensors| == |lookups|
    ensures p in Contributions(sensors, lookups) <==>
      exists i :: 0 <= i < |sensors| && Contributes(sensors[i], lookups[i]) && lookups[i].point == p
    decreases |sensors|
  {
    if sensors != [] {
      var n := |sensors| - 1;
      ContributionsExact(sensors[..n], lookups[..n], p);
      if exists i :: 0 <= i < |sensors| && Contributes(sensors[i], lookups[i]) && lookups[i].point == p {
        var i :| 0 <= i < |sensors| && Contributes(sensors[i], lookups[i]) && lookups[i].point == p;
        if i < n {
          assert sensors[..n][i] == sensors[i] && lookups[..n][i] == lookups[i];
        }
      }
      if p in Contributions(sensors[..n], lookups[..n]) {
        var i :| 0 <= i < n && Contributes(sensors[..n][i], lookups[..n][i]) && lookups[..n][i].point == p;
        assert sensors[..n][i] == sensors[i] && lookups[..n][i] == lookups[i];
      }
    }
  }

  /** Under the callback's precondition every contributed point fits the skeleton. */
  lemma ContributionsFit(input: LaserScan, sensors: seq<Sonar>, lookups: seq<Lookup>)
    requires CallbackFits(input, sensors, lookups)
    ensures AllFit(Skeleton(input), Contributions(sensors, lookups))
  {
    var ps := Contributions(sensors, lookups);
    forall k | 0 <= k < |ps| ensures Fits(Skeleton(input), ps[k]) {
      ContributionsExact(sensors, lookups, ps[k]);
    }
  }

  /** The contributions of two groups of sonars, one after the other. */
  lemma {:induction false} ContributionsAppend(s1: seq<Sonar>, l1: seq<Lookup>, s2: seq<Sonar>, l2: seq<Lookup>)
    requires |s1| == |l1| && |s2| == |l2|
    ensures Contributions(s1 + s2, l1 + l2) == Contributions(s1, l1) + Contributions(s2, l2)
    decreases |s2|
  {
    if s2 == [] {
      assert s1 + s2 == s1 && l1 + l2 == l1;
    } else {
      var n := |s2| - 1;
      ContributionsAppend(s1, l1, s2[..n], l2[..n]);
      assert (s1 + s2)[..|s1| + n] == s1 + s2[..n];
      assert (l1 + l2)[..|l1| + n] == l1 + l2[..n];
    }
  }

  /** Every point a sonar can contribute stays inside the skeleton's bins. */
  predicate CallbackFits(input: LaserScan, sensors: seq<Sonar>, lookups: seq<Lookup>) {
    0.0 < input.angleIncrement &&
    |sensors| == |lookups| &&
    InboundFits(Skeleton(input), input) &&
    forall i :: 0 <= i < |sensors| && Contributes(sensors[i], lookups[i]) ==>
      Fits(Skeleton(input), lookups[i].point)
  }

  /** The skeleton with the inbound samples copied in. */
  function WithInbound(input: LaserScan): (r: LaserScan)
    requires 0.0 < input.angleIncrement && InboundFits(Skeleton(input), input)
    ensures SameShape(r, Skeleton(input))
  {
    Reproject(Skeleton(input), input, |input.ranges|)
  }

  /**
   * After the inbound copy a bin no sample maps to still reports no return,
   * and the bin of sample i holds sample i or a later one.
   */
  lemma WithInboundContents(input: LaserScan)
    requires 0.0 < input.angleIncrement && InboundFits(Skeleton(input), input)
    ensures forall k :: 0 <= k < |WithInbound(input).ranges| && NoSampleIn(input, k) ==>
      WithInbound(input).ranges[k] == Inf
    ensures forall i :: 0 <= i < |input.ranges| ==>
      WithInbound(input).ranges[InboundBin(Skeleton(input), input, i)] in input.ranges[i..]
  {
    var out := Skeleton(input);
    var n := |input.ranges|;
    var r := WithInbound(input);
    forall k | 0 <= k < |r.ranges| && NoSampleIn(input, k) ensures r.ranges[k] == Inf {
      ReprojectUntouched(out, input, n, k);
    }
    forall i | 0 <= i < n ensures r.ranges[InboundBin(out, input, i)] in input.ranges[i..] {
      ReprojectWritten(out, input, n, i);
      assert input.ranges[i..n] == input.ranges[i..];
    }
  }

  /** No inbound sample maps to output bin k. */
  predicate NoSampleIn(input: LaserScan, k: int)
    requires 0.0 < input.angleIncrement
  {
    forall i :: 0 <= i < |input.ranges| ==> InboundBin(Skeleton(input), input, i) != k
  }

  /** The scan lscCallback publishes. */
  function Fused(input: LaserScan, sensors: seq<Sonar>, lookups: seq<Lookup>): (r: LaserScan)
    requires CallbackFits(input, sensors, lookups)
    ensures SameShape(r, Skeleton(input))
    ensures forall k :: 0 <= k < |r.ranges| ==> Le(r.ranges[k], WithInbound(input).ranges[k])
  {
    var base := WithInbound(input);
    var ps := Contributions(sensors, lookups);
    assert AllFit(base, ps) by {
      ContributionsFit(input, sensors, lookups);
      FitsShape(base, Skeleton(input), ps);
    }
    MergeAll(base, ps)
  }

  /**
   * Closest wins: when sonar i contributes a point inside the envelope, the
   * published bin of that point is at most the sonar's distance.
   */
  lemma FusedLowers(input: LaserScan, sensors: seq<Sonar>, lookups: seq<Lookup>, i: nat)
    requires CallbackFits(input, sensors, lookups) && i < |sensors|
    requires Contributes(sensors[i], lookups[i]) && InEnvelope(Skeleton(input), lookups[i].point)
    ensures 0 <= BinIndex(Skeleton(input), lookups[i].point.angle) < |Fused(input, sensors, lookups).ranges|
    ensures Le(Fused(input, sensors, lookups).ranges[BinIndex(Skeleton(input), lookups[i].point.angle)],
               Fin(lookups[i].point.range))
  {
    var base := WithInbound(input);
    var ps := Contributions(sensors, lookups);
    var p := lookups[i].point;
    ContributionsFit(input, sensors, lookups);
    FitsShape(base, Skeleton(input), ps);
    ContributionsExact(sensors, lookups, p);
    var j :| 0 <= j < |ps| && ps[j] == p;
    MergeAllLowers(base, ps, j);
  }

  /**
   * Every published bin holds either what the inbound copy left there or the
   * distance of a contributing sonar whose in-envelope point falls in that bin.
   */
  lemma FusedFrom(input: LaserScan, sensors: seq<Sonar>, lookups: seq<Lookup>, k: nat)
    requires CallbackFits(input, sensors, lookups) && k < CircleBins(input.angleIncrement)
    ensures Fused(input, sensors, lookups).ranges[k] == WithInbound(input).ranges[k] ||
      exists i :: 0 <= i < |sensors| && Contributes(sensors[i], lookups[i]) &&
        InEnvelope(Skeleton(input), lookups[i].point) &&
        BinIndex(Skeleton(input), lookups[i].point.angle) == k &&
        Fused(input, sensors, lookups).ranges[k] == Fin(lookups[i].point.range)
  {
    var base := WithInbound(input);
    var ps := Contributions(sensors, lookups);
    ContributionsFit(input, sensors, lookups);
    FitsShape(base, Skeleton(input), ps);
    MergeAllFrom(base, ps, k);
    var r := Fused(input, sensors, lookups);
    if r.ranges[k] != base.ranges[k] {
      var j :| 0 <= j < |ps| && InEnvelope(base, ps[j]) && BinIndex(base, ps[j].angle) == k &&
        r.ranges[k] == Fin(ps[j].range);
      ContributionsExact(sensors, lookups, ps[j]);
      var i :| 0 <= i < |sensors| && Contributes(sensors[i], lookups[i]) && lookups[i].point == ps[j];
    }
  }

  /** The points of the first n sonars fit the skeleton with the inbound samples copied in. */
  lemma PrefixFits(input: LaserScan, sensors: seq<Sonar>, lookups: seq<Lookup>, n: nat)
    requires CallbackFits(input, sensors, lookups) && n <= |sensors|
    ensures AllFit(WithInbound(input), Contributions(sensors[..n], lookups[..n]))
  {
    assert CallbackFits(input, sensors[..n], lookups[..n]);
    ContributionsFit(input, sensors[..n], lookups[..n]);
    FitsShape(WithInbound(input), Skeleton(input), Contributions(sensors[..n], lookups[..n]));
  }

  /** One turn of the callback's sonar loop: sonar i is merged if it contributes and skipped otherwise. */
  lemma CallbackStep(input: LaserScan, sensors: seq<Sonar>, lookups: seq<Lookup>, i: nat)
    requires CallbackFits(input, sensors, lookups) && i < |sensors|
    ensures AllFit(WithInbound(input), Contributions(sensors[..i], lookups[..i]))
    ensures AllFit(WithInbound(input), Contributions(sensors[..i + 1], lookups[..i + 1]))
    ensures
      var v := MergeAll(WithInbound(input), Contributions(sensors[..i], lookups[..i]));
      var w := MergeAll(WithInbound(input), Contributions(sensors[..i + 1], lookups[..i + 1]));
      if Contributes(sensors[i], lookups[i])
      then Fits(v, lookups[i].point) && w == Merge(v, lookups[i].point)
      else w == v
  {
    PrefixFits(input, sensors, lookups, i);
    PrefixFits(input, sensors, lookups, i + 1);
    assert sensors[..i + 1][..i] == sensors[..i] && lookups[..i + 1][..i] == lookups[..i];
    var v := MergeAll(WithInbound(input), Contributions(sensors[..i], lookups[..i]));
    if Contributes(sensors[i], lookups[i]) {
      FitsShape(v, Skeleton(input), [lookups[i].point]);
    }
  }

  /**
   * A sonar that is out of limits, or whose transform lookup failed, changes
   * nothing: the result is the one without that sonar.
   */
  lemma SkippedSonarIsIgnored(input: LaserScan, sensors: seq<Sonar>, lookups: seq<Lookup>,
                              i: nat, sensor: Sonar, lookup: Lookup)
    requires CallbackFits(input, sensors, lookups) && i <= |sensors|
    requires !InLimits(sensor) || lookup.TfError?
    ensures CallbackFits(input, sensors[..i] + [sensor] + sensors[i..], lookups[..i] + [lookup] + lookups[i..])
    ensures Fused(input, sensors[..i] + [sensor] + sensors[i..], lookups[..i] + [lookup] + lookups[i..])
         == Fused(input, sensors, lookups)
  {
    var s' := sensors[..i] + [sensor] + sensors[i..];
    var l' := lookups[..i] + [lookup] + lookups[i..];
    assert CallbackFits(input, s', l') by {
      forall j | 0 <= j < |s'| && Contributes(s'[j], l'[j])
        ensures Fits(Skeleton(input), l'[j].point)
      {
        if j < i {
          assert s'[j] == sensors[j] && l'[j] == lookups[j];
        } else {
          assert j != i;
          assert s'[j] == sensors[j - 1] && l'[j] == lookups[j - 1];
        }
      }
    }
    ContributionsAppend(sensors[..i] + [sensor], lookups[..i] + [lookup], sensors[i..], lookups[i..]);
    ContributionsAppend(sensors[..i], lookups[..i], [sensor], [lookup]);
    ContributionsAppend(sensors[..i], lookups[..i], sensors[i..], lookups[i..]);
    assert Contributions([sensor], [lookup]) == [] by {
      assert [sensor][..0] == [];
    }
    assert sensors[..i] + sensors[i..] == sensors;
    assert lookups[..i] + lookups[i..] == lookups;
  }

  /** Fusing sonar i before sonar i + 1 gives the same scan as the other way round. */
  lemma SwapAdjacentSonars(input: LaserScan, sensors: seq<Sonar>, lookups: seq<Lookup>, i: nat)
    requires CallbackFits(input, sensors, lookups) && i + 1 < |sensors|
    ensures CallbackFits(input, Swap(sensors, i), Swap(lookups, i))
    ensures Fused(input, Swap(sensors, i), Swap(lookups, i)) == Fused(input, sensors, lookups)
  {
    var s', l' := Swap(sensors, i), Swap(lookups, i);
    assert CallbackFits(input, s', l') by {
      forall j | 0 <= j < |s'| && Contributes(s'[j], l'[j])
        ensures Fits(Skeleton(input), l'[j].point)
      {
        var o := if j == i then i + 1 else if j == i + 1 then i else j;
        assert s'[j] == sensors[o] && l'[j] == lookups[o];
      }
    }
    var base := WithInbound(input);
    var ps := Contributions(sensors, lookups);
    ContributionsSwap(sensors, lookups, i);
    ContributionsFit(input, sensors, lookups);
    FitsShape(base, Skeleton(input), ps);
    MergeAllPermutation(base, ps, Contributions(s', l'));
  }

  /** Exchanging two adjacent sonars rearranges the contributed points. */
  lemma ContributionsSwap(sensors: seq<Sonar>, lookups: seq<Lookup>, i: nat)
    requires |sensors| == |lookups| && i + 1 < |sensors|
    ensures multiset(Contributions(Swap(sensors, i), Swap(lookups, i))) == multiset(Contributions(sensors, lookups))
  {
    var s', l' := Swap(sensors, i), Swap(lookups, i);
    ContributionsAround(sensors, lookups, i);
    ContributionsAround(s', l', i);
    assert s'[..i] == sensors[..i] && l'[..i] == lookups[..i];
    assert s'[i + 2..] == sensors[i + 2..] && l'[i + 2..] == lookups[i + 2..];
  }

  /** The contributions split around positions i and i + 1. */
  lemma ContributionsAround(sensors: seq<Sonar>, lookups: seq<Lookup>, i: nat)
    requires |sensors| == |lookups| && i + 1 < |sensors|
    ensures Contributions(sensors, lookups) ==
      Contributions(sensors[..i], lookups[..i]) +
      Contributions([sensors[i]], [lookups[i]]) +
      Contributions([sensors[i + 1]], [lookups[i + 1]]) +
      Contributions(sensors[i + 2..], lookups[i + 2..])
  {
    var a, b := sensors[..i], lookups[..i];
    var c, d := sensors[i + 2..], lookups[i + 2..];
    var x, y := [sensors[i]], [lookups[i]];
    var x', y' := [sensors[i + 1]], [lookups[i + 1]];
    assert sensors == a + x + x' + c && lookups == b + y + y' + d;
    ContributionsAppend(a + x + x', b + y + y', c, d);
    ContributionsAppend(a + x, b + y, x', y');
    ContributionsAppend(a, b, x, y);
  }

  /** `s` with the elements at i and i + 1 exchanged. */
  function Swap<T>(s: seq<T>, i: nat): (r: seq<T>)
    requires i + 1 < |s|
    ensures |r| == |s| && r[i] == s[i + 1] && r[i + 1] == s[i]
    ensures forall j :: 0 <= j < |s| && j != i && j != i + 1 ==> r[j] == s[j]
  {
    s[i := s[i + 1]][i + 1 := s[i]]
  }

  // ---------------------------------------------------------------------------
  // The mutable output scan and the manager
  // ---------------------------------------------------------------------------

  /** The output message `laser_output`, whose bins are written in place. */
  class OutputScan {
    var header: Header
    var angleMin: real
    var angleMax: real
    var angleIncrement: real
    var timeIncrement: real
    var scanTime: real
    var rangeMin: real
    var rangeMax: real
    var ranges: array<Range>

    /** The message this object currently holds. */
    function Value(): LaserScan
      reads this, ranges
    {
      LaserScan(header, angleMin, angleMax, angleIncrement, timeIncrement,
                scanTime, rangeMin, rangeMax, ranges[..])
    }

    /** The skeleton: metadata from the inbound scan, a full circle, every bin +infinity. */
    constructor (input: LaserScan)
      requires 0.0 < input.angleIncrement
      ensures fresh(ranges)
      ensures Value() == Skeleton(input)
    {
      header := input.header;
      angleMin := -PI;
      angleMax := PI;
      angleIncrement := input.angleIncrement;
      timeIncrement := input.timeIncrement;
      scanTime := input.scanTime;
      rangeMin := input.rangeMin;
      rangeMax := input.rangeMax;
      ranges := new Range[CircleBins(input.angleIncrement)](_ => Inf);
    }

    /** Writes every inbound sample over its output bin, in index order. */
    method IncludeInbound(input: LaserScan)
      requires InboundFits(Value(), input)
      modifies ranges
      ensures Value() == Reproject(old(Value()), input, |input.ranges|)
    {
      ghost var start := Value();
      for i := 0 to |input.ranges|
        invariant ranges[..] == Reproject(start, input, i).ranges
      {
        var j := SampleBin(angleMin, angleIncrement, input, i);
        assert j == InboundBin(start, input, i);
        ghost var before := ranges[..];
        ranges[j] := input.ranges[i];
        assert ranges[..] == before[j := input.ranges[i]];
      }
      assert SameShape(Value(), Reproject(start, input, |input.ranges|));
    }

    /** includePointToLaser: closest-wins merge of one point, or nothing if it is outside the envelope. */
    method IncludePoint(p: Polar)
      requires Fits(Value(), p)
      modifies ranges
      ensures Value() == Merge(old(Value()), p)
    {
      if (angleMin <= p.angle && p.angle <= angleMax) && (rangeMin <= p.range && p.range <= rangeMax) {
        var index := Trunc((p.angle - angleMin) / angleIncrement);
        if Exceeds(ranges[index], p.range) {
          ranges[index] := Fin(p.range);
        }
      }
    }
  }

  /** The manager: its sonars and the laser callback. */
  class SonarManager {
    var sensors: seq<Sonar>

    constructor (sensors: seq<Sonar>)
      ensures this.sensors == sensors
    {
      this.sensors := sensors;
    }

    /**
     * lscCallback: build the skeleton, copy the inbound scan in, merge the
     * central point of every sonar that is in limits and whose transform is
     * known, and return the scan that is published.
     */
    method LscCallback(input: LaserScan, lookups: seq<Lookup>) returns (output: OutputScan)
      requires CallbackFits(input, sensors, lookups)
      ensures fresh(output) && fresh(output.ranges)
      ensures output.Value() == Fused(input, sensors, lookups)
    {
      output := new OutputScan(input);
      output.IncludeInbound(input);
      ghost var base := WithInbound(input);
      PrefixFits(input, sensors, lookups, 0);
      for i := 0 to |sensors|
        invariant fresh(output.ranges)
        invariant AllFit(base, Contributions(sensors[..i], lookups[..i]))
        invariant output.Value() == MergeAll(base, Contributions(sensors[..i], lookups[..i]))
      {
        CallbackStep(input, sensors, lookups, i);
        if !InLimits(sensors[i]) {
          continue;
        }
        match lookups[i]
        case TfError(_) =>
          continue;
        case Transformed(p) =>
          output.IncludePoint(p);
      }
      assert sensors[..|sensors|] == sensors && lookups[..|lookups|] == lookups;
    }
  }
}
